/**
 * `ValidadorDados`: the mod-11 check digits of CPF, CNPJ and PIS numbers,
 * calendar validity of dates, the per-record error lists and the sanitiser.
 * Record values are text (a field the record lacks reads as `""`); the clock is
 * the parameter `currentYear`.
 */
module Validation {
  import opened Common
  import opened Calendar
  import opened JsonValue

  // ---------------------------------------------------------------------------
  // Digits
  // ---------------------------------------------------------------------------

  /** `re.sub(r'\D', '', s)`: the ASCII digits of `s`, in order. */
  function OnlyDigits(s: string): (r: string)
    ensures AllDigits(r) && |r| <= |s|
    ensures AllDigits(s) ==> r == s
    ensures (forall i | 0 <= i < |s| :: !IsDigit(s[i])) ==> r == []
    decreases |s|
  {
    if s == [] then []
    else (if IsDigit(s[0]) then [s[0]] else []) + OnlyDigits(s[1..])
  }

  lemma {:induction false} OnlyDigitsAppend(a: string, b: string)
    ensures OnlyDigits(a + b) == OnlyDigits(a) + OnlyDigits(b)
    decreases |a|
  {
    if a != [] {
      var h := if IsDigit(a[0]) then [a[0]] else [];
      assert (a + b)[0] == a[0] && (a + b)[1..] == a[1..] + b;
      assert OnlyDigits(a + b) == h + OnlyDigits(a[1..] + b);
      OnlyDigitsAppend(a[1..], b);
      assert OnlyDigits(a) == h + OnlyDigits(a[1..]);
    } else {
      assert a + b == b;
    }
  }

  /** `len(set(s)) == 1` for a non-empty `s`. */
  predicate AllSame(s: string) {
    forall i | 0 <= i < |s| :: s[i] == s[0]
  }

  /** `sum(int(d[i]) * ws[i] for i in range(k))`. */
  function WSum(d: string, ws: seq<nat>, k: nat): nat
    requires AllDigits(d) && k <= |ws| <= |d|
  {
    if k == 0 then 0 else WSum(d, ws, k - 1) + DigitValue(d[k - 1]) * ws[k - 1]
  }

  /** The weighted sum reads only the first `k` digits. */
  lemma {:induction false} WSumPrefix(d: string, e: string, ws: seq<nat>, k: nat)
    requires AllDigits(d) && AllDigits(e) && k <= |ws| <= |d| && |ws| <= |e|
    requires d[..k] == e[..k]
    ensures WSum(d, ws, k) == WSum(e, ws, k)
    decreases k
  {
    if k > 0 {
      assert d[k - 1] == d[..k][k - 1] == e[..k][k - 1] == e[k - 1];
      assert d[..k - 1] == d[..k][..k - 1];
      assert e[..k - 1] == e[..k][..k - 1];
      WSumPrefix(d, e, ws, k - 1);
    }
  }

  /** The loop that accumulates a weighted digit sum. */
  method WeightedSum(d: string, ws: seq<nat>) returns (sum: nat)
    requires AllDigits(d) && |ws| <= |d|
    ensures sum == WSum(d, ws, |ws|)
  {
    sum := 0;
    var i := 0;
    while i < |ws|
      invariant 0 <= i <= |ws|
      invariant sum == WSum(d, ws, i)
    {
      sum := sum + DigitValue(d[i]) * ws[i];
      i := i + 1;
    }
  }

  /** How a check digit follows from its weighted sum. */
  datatype Rule =
    | TimesTen   // CPF: `(sum * 10) % 11`, with 10 read as 0
    | ElevenLess // CNPJ and PIS: 0 below remainder 2, else `11 - sum % 11`

  function CheckDigit(rule: Rule, sum: nat): (c: nat)
    ensures c <= 9
  {
    match rule
    case TimesTen => var r := (sum * 10) % 11; if r == 10 then 0 else r
    case ElevenLess => var r := sum % 11; if r < 2 then 0 else 11 - r
  }

  const CpfWeights1: seq<nat> := [10, 9, 8, 7, 6, 5, 4, 3, 2]
  const CpfWeights2: seq<nat> := [11, 10, 9, 8, 7, 6, 5, 4, 3, 2]
  const CnpjWeights1: seq<nat> := [5, 4, 3, 2, 9, 8, 7, 6, 5, 4, 3, 2]
  const CnpjWeights2: seq<nat> := [6, 5, 4, 3, 2, 9, 8, 7, 6, 5, 4, 3, 2]
  const PisWeights: seq<nat> := [3, 2, 9, 8, 7, 6, 5, 4, 3, 2]

  /** The digit after the first `|ws|` digits of `d` is their check digit. */
  predicate Checks(d: string, ws: seq<nat>, rule: Rule)
    requires AllDigits(d) && |ws| < |d|
  {
    CheckDigit(rule, WSum(d, ws, |ws|)) == DigitValue(d[|ws|])
  }

  /** Whether a document number (any punctuation ignored) is well formed and its check digits match. */
  predicate CpfValid(s: string) {
    var d := OnlyDigits(s);
    s != [] && |d| == 11 && !AllSame(d) && Checks(d, CpfWeights1, TimesTen) && Checks(d, CpfWeights2, TimesTen)
  }

  predicate CnpjValid(s: string) {
    var d := OnlyDigits(s);
    s != [] && |d| == 14 && !AllSame(d) && Checks(d, CnpjWeights1, ElevenLess) && Checks(d, CnpjWeights2, ElevenLess)
  }

  /** Unlike CPF and CNPJ, an empty PIS passes. */
  predicate PisValid(s: string) {
    var d := OnlyDigits(s);
    s == [] || (|d| == 11 && !AllSame(d) && Checks(d, PisWeights, ElevenLess))
  }

  /** `validar_cpf`. */
  method ValidateCpf(cpf: string) returns (ok: bool)
    ensures ok <==> CpfValid(cpf)
  {
    if cpf == [] {
      return false;
    }
    var d := OnlyDigits(cpf);
    if |d| != 11 || AllSame(d) {
      return false;
    }
    var sum := WeightedSum(d, CpfWeights1);
    if CheckDigit(TimesTen, sum) != DigitValue(d[9]) {
      return false;
    }
    sum := WeightedSum(d, CpfWeights2);
    if CheckDigit(TimesTen, sum) != DigitValue(d[10]) {
      return false;
    }
    return true;
  }

  /** `validar_cnpj`. */
  method ValidateCnpj(cnpj: string) returns (ok: bool)
    ensures ok <==> CnpjValid(cnpj)
  {
    if cnpj == [] {
      return false;
    }
    var d := OnlyDigits(cnpj);
    if |d| != 14 || AllSame(d) {
      return false;
    }
    var sum := WeightedSum(d, CnpjWeights1);
    if CheckDigit(ElevenLess, sum) != DigitValue(d[12]) {
      return false;
    }
    sum := WeightedSum(d, CnpjWeights2);
    if CheckDigit(ElevenLess, sum) != DigitValue(d[13]) {
      return false;
    }
    return true;
  }

  /** `validar_pis`. */
  method ValidatePis(pis: string) returns (ok: bool)
    ensures ok <==> PisValid(pis)
  {
    if pis == [] {
      return true;
    }
    var d := OnlyDigits(pis);
    if |d| != 11 || AllSame(d) {
      return false;
    }
    var sum := WeightedSum(d, PisWeights);
    return CheckDigit(ElevenLess, sum) == DigitValue(d[10]);
  }

  // ---------------------------------------------------------------------------
  // Check digits determine each other: completing a base number
  // ---------------------------------------------------------------------------

  /** `base` followed by its check digit. */
  function AddCheck(base: string, ws: seq<nat>, rule: Rule): (r: string)
    requires AllDigits(base) && |ws| == |base|
    ensures AllDigits(r) && |r| == |base| + 1 && r[..|base|] == base
    ensures Checks(r, ws, rule)
  {
    var r := base + [DigitChar(CheckDigit(rule, WSum(base, ws, |ws|)))];
    WSumPrefix(base, r, ws, |ws|);
    r
  }

  function CpfComplete(base: string): (r: string)
    requires AllDigits(base) && |base| == 9
    ensures AllDigits(r) && |r| == 11 && r[..9] == base
  {
    var r := AddCheck(AddCheck(base, CpfWeights1, TimesTen), CpfWeights2, TimesTen);
    assert r[..9] == r[..10][..9];
    r
  }

  function CnpjComplete(base: string): (r: string)
    requires AllDigits(base) && |base| == 12
    ensures AllDigits(r) && |r| == 14 && r[..12] == base
  {
    var r := AddCheck(AddCheck(base, CnpjWeights1, ElevenLess), CnpjWeights2, ElevenLess);
    assert r[..12] == r[..13][..12];
    r
  }

  function PisComplete(base: string): (r: string)
    requires AllDigits(base) && |base| == 10
    ensures AllDigits(r) && |r| == 11 && r[..10] == base
  {
    AddCheck(base, PisWeights, ElevenLess)
  }

  /** A second check digit leaves the first one in force. */
  lemma ChecksKept(d: string, e: string, ws: seq<nat>, rule: Rule)
    requires AllDigits(d) && AllDigits(e) && |ws| < |d| <= |e| && e[..|d|] == d
    requires Checks(d, ws, rule)
    ensures Checks(e, ws, rule)
  {
    assert e[..|ws|] == d[..|ws|] by {
      assert e[..|ws|] == e[..|d|][..|ws|];
    }
    WSumPrefix(d, e, ws, |ws|);
    assert e[|ws|] == e[..|d|][|ws|];
  }

  lemma NotAllSameExtends(base: string, r: string)
    requires |base| > 0 && |base| <= |r| && r[..|base|] == base && !AllSame(base)
    ensures !AllSame(r)
  {
    var i :| 0 <= i < |base| && base[i] != base[0];
    assert r[i] == base[i] && r[0] == base[0];
  }

  /** Nine digits, not all equal, completed with their check digits form a valid CPF. */
  lemma CpfCompleteValid(base: string)
    requires AllDigits(base) && |base| == 9 && !AllSame(base)
    ensures CpfValid(CpfComplete(base))
  {
    var d10 := AddCheck(base, CpfWeights1, TimesTen);
    var r := CpfComplete(base);
    ChecksKept(d10, r, CpfWeights1, TimesTen);
    NotAllSameExtends(base, r);
  }

  /** A valid CPF written as bare digits is the completion of its first nine. */
  lemma CpfDetermined(s: string)
    requires AllDigits(s) && CpfValid(s)
    ensures s == CpfComplete(s[..9])
  {
    var base := s[..9];
    var d10 := AddCheck(base, CpfWeights1, TimesTen);
    WSumPrefix(s, base, CpfWeights1, |CpfWeights1|);
    assert s[..10] == d10;
    WSumPrefix(s, d10, CpfWeights2, |CpfWeights2|);
    assert s == s[..10] + [s[10]];
  }

  lemma CnpjCompleteValid(base: string)
    requires AllDigits(base) && |base| == 12 && !AllSame(base)
    ensures CnpjValid(CnpjComplete(base))
  {
    var d13 := AddCheck(base, CnpjWeights1, ElevenLess);
    var r := CnpjComplete(base);
    ChecksKept(d13, r, CnpjWeights1, ElevenLess);
    NotAllSameExtends(base, r);
  }

  lemma CnpjDetermined(s: string)
    requires AllDigits(s) && CnpjValid(s)
    ensures s == CnpjComplete(s[..12])
  {
    var base := s[..12];
    var d13 := AddCheck(base, CnpjWeights1, ElevenLess);
    WSumPrefix(s, base, CnpjWeights1, |CnpjWeights1|);
    assert s[..13] == d13;
    WSumPrefix(s, d13, CnpjWeights2, |CnpjWeights2|);
    assert s == s[..13] + [s[13]];
  }

  lemma PisCompleteValid(base: string)
    requires AllDigits(base) && |base| == 10 && !AllSame(base)
    ensures PisValid(PisComplete(base))
  {
    NotAllSameExtends(base, PisComplete(base));
  }

  lemma PisDetermined(s: string)
    requires AllDigits(s) && s != [] && PisValid(s)
    ensures s == PisComplete(s[..10])
  {
    WSumPrefix(s, s[..10], PisWeights, |PisWeights|);
    assert s == s[..10] + [s[10]];
  }

  /** The first CPF sum of the test digits `123456789`. */
  lemma CpfFirstSum()
    ensures AllDigits("12345678909") && WSum("12345678909", CpfWeights1, 9) == 210
  {
    var d := "12345678909";
    assert AllDigits(d);
    assert WSum(d, CpfWeights1, 1) == 10;
    assert WSum(d, CpfWeights1, 2) == 28;
    assert WSum(d, CpfWeights1, 3) == 52;
    assert WSum(d, CpfWeights1, 4) == 80;
    assert WSum(d, CpfWeights1, 5) == 110;
    assert WSum(d, CpfWeights1, 6) == 140;
    assert WSum(d, CpfWeights1, 7) == 168;
    assert WSum(d, CpfWeights1, 8) == 192;
    assert WSum(d, CpfWeights1, 9) == 210;
  }

  /** The second CPF sum of the test digits `1234567890`. */
  lemma CpfSecondSum()
    ensures AllDigits("12345678909") && WSum("12345678909", CpfWeights2, 10) == 255
  {
    var d := "12345678909";
    assert AllDigits(d);
    assert WSum(d, CpfWeights2, 1) == 11;
    assert WSum(d, CpfWeights2, 2) == 31;
    assert WSum(d, CpfWeights2, 3) == 58;
    assert WSum(d, CpfWeights2, 4) == 90;
    assert WSum(d, CpfWeights2, 5) == 125;
    assert WSum(d, CpfWeights2, 6) == 161;
    assert WSum(d, CpfWeights2, 7) == 196;
    assert WSum(d, CpfWeights2, 8) == 228;
    assert WSum(d, CpfWeights2, 9) == 255;
    assert WSum(d, CpfWeights2, 10) == 255;
  }

  /** The first CNPJ sum of the test digits `123456780001`. */
  lemma CnpjFirstSum()
    ensures AllDigits("12345678000195") && WSum("12345678000195", CnpjWeights1, 12) == 222
  {
    var d := "12345678000195";
    assert AllDigits(d);
    assert WSum(d, CnpjWeights1, 1) == 5;
    assert WSum(d, CnpjWeights1, 2) == 13;
    assert WSum(d, CnpjWeights1, 3) == 22;
    assert WSum(d, CnpjWeights1, 4) == 30;
    assert WSum(d, CnpjWeights1, 5) == 75;
    assert WSum(d, CnpjWeights1, 6) == 123;
    assert WSum(d, CnpjWeights1, 7) == 172;
    assert WSum(d, CnpjWeights1, 8) == 220;
    assert WSum(d, CnpjWeights1, 9) == 220;
    assert WSum(d, CnpjWeights1, 10) == 220;
    assert WSum(d, CnpjWeights1, 11) == 220;
    assert WSum(d, CnpjWeights1, 12) == 222;
  }

  /** The second CNPJ sum of the test digits `1234567800019`. */
  lemma CnpjSecondSum()
    ensures AllDigits("12345678000195") && WSum("12345678000195", CnpjWeights2, 13) == 237
  {
    var d := "12345678000195";
    assert AllDigits(d);
    assert WSum(d, CnpjWeights2, 1) == 6;
    assert WSum(d, CnpjWeights2, 2) == 16;
    assert WSum(d, CnpjWeights2, 3) == 28;
    assert WSum(d, CnpjWeights2, 4) == 40;
    assert WSum(d, CnpjWeights2, 5) == 50;
    assert WSum(d, CnpjWeights2, 6) == 104;
    assert WSum(d, CnpjWeights2, 7) == 160;
    assert WSum(d, CnpjWeights2, 8) == 216;
    assert WSum(d, CnpjWeights2, 9) == 216;
    assert WSum(d, CnpjWeights2, 10) == 216;
    assert WSum(d, CnpjWeights2, 11) == 216;
    assert WSum(d, CnpjWeights2, 12) == 219;
    assert WSum(d, CnpjWeights2, 13) == 237;
  }

  /** The PIS sum of the test digits `1234567891`. */
  lemma PisSum()
    ensures AllDigits("12345678919") && WSum("12345678919", PisWeights, 10) == 233
  {
    var d := "12345678919";
    assert AllDigits(d);
    assert WSum(d, PisWeights, 1) == 3;
    assert WSum(d, PisWeights, 2) == 7;
    assert WSum(d, PisWeights, 3) == 34;
    assert WSum(d, PisWeights, 4) == 66;
    assert WSum(d, PisWeights, 5) == 101;
    assert WSum(d, PisWeights, 6) == 137;
    assert WSum(d, PisWeights, 7) == 172;
    assert WSum(d, PisWeights, 8) == 204;
    assert WSum(d, PisWeights, 9) == 231;
    assert WSum(d, PisWeights, 10) == 233;
  }

  /** A CPF from the source's tests: valid. */
  lemma CpfValidExample()
    ensures CpfValid("12345678909")
  {
    var d := "12345678909";
    assert d[0] != d[1] && DigitValue(d[9]) == 0 && DigitValue(d[10]) == 9;
    assert CheckDigit(TimesTen, 210) == 0 && CheckDigit(TimesTen, 255) == 9;
    CpfFirstSum();
    CpfSecondSum();
    CpfValidFrom(d);
  }

  /** Eleven digits, not all equal, whose two check digits match, form a valid CPF. */
  lemma CpfValidFrom(d: string)
    requires AllDigits(d) && |d| == 11 && d[0] != d[1]
    requires CheckDigit(TimesTen, WSum(d, CpfWeights1, 9)) == DigitValue(d[9])
    requires CheckDigit(TimesTen, WSum(d, CpfWeights2, 10)) == DigitValue(d[10])
    ensures CpfValid(d)
  {
  }

  /** A CPF whose first or second check digit does not match is invalid. */
  lemma CpfInvalidFrom(e: string)
    requires AllDigits(e) && |e| == 11
    requires CheckDigit(TimesTen, WSum(e, CpfWeights1, 9)) != DigitValue(e[9])
          || CheckDigit(TimesTen, WSum(e, CpfWeights2, 10)) != DigitValue(e[10])
    ensures !CpfValid(e)
  {
  }

  /** A wrong check digit. */
  lemma CpfInvalidExample()
    ensures !CpfValid("12345678910")
  {
    var d, e := "12345678909", "12345678910";
    assert AllDigits(e) && d[..9] == e[..9] && DigitValue(e[9]) == 1;
    assert CheckDigit(TimesTen, 210) == 0;
    CpfFirstSum();
    WSumPrefix(d, e, CpfWeights1, 9);
    CpfInvalidFrom(e);
  }

  /** A CNPJ from the source's tests: valid. */
  lemma CnpjValidExample()
    ensures CnpjValid("12345678000195")
  {
    var d := "12345678000195";
    assert d[0] != d[1] && DigitValue(d[12]) == 9 && DigitValue(d[13]) == 5;
    assert CheckDigit(ElevenLess, 222) == 9 && CheckDigit(ElevenLess, 237) == 5;
    CnpjFirstSum();
    CnpjSecondSum();
    CnpjValidFrom(d);
  }

  /** Fourteen digits, not all equal, whose two check digits match, form a valid CNPJ. */
  lemma CnpjValidFrom(d: string)
    requires AllDigits(d) && |d| == 14 && d[0] != d[1]
    requires CheckDigit(ElevenLess, WSum(d, CnpjWeights1, 12)) == DigitValue(d[12])
    requires CheckDigit(ElevenLess, WSum(d, CnpjWeights2, 13)) == DigitValue(d[13])
    ensures CnpjValid(d)
  {
  }

  /** A wrong second check digit. */
  lemma CnpjInvalidExample()
    ensures !CnpjValid("12345678000196")
  {
    var d, e := "12345678000195", "12345678000196";
    assert AllDigits(e) && d[..13] == e[..13] && DigitValue(e[13]) == 6;
    assert CheckDigit(ElevenLess, 237) == 5;
    CnpjSecondSum();
    WSumPrefix(d, e, CnpjWeights2, 13);
    CnpjSecondFails(e);
  }

  /** A CNPJ whose second check digit does not match is invalid. */
  lemma CnpjSecondFails(e: string)
    requires AllDigits(e) && |e| == 14
    requires CheckDigit(ElevenLess, WSum(e, CnpjWeights2, 13)) != DigitValue(e[13])
    ensures !CnpjValid(e)
  {
  }

  /** A PIS from the source's tests: valid. */
  lemma PisValidExample()
    ensures PisValid("12345678919")
  {
    var d := "12345678919";
    assert d[0] != d[1] && DigitValue(d[10]) == 9;
    assert CheckDigit(ElevenLess, 233) == 9;
    PisSum();
    PisCheckDecides(d);
  }

  /** For eleven digits, not all equal, PIS validity is exactly the match of its check digit. */
  lemma PisCheckDecides(d: string)
    requires AllDigits(d) && |d| == 11 && d[0] != d[1]
    ensures PisValid(d) <==> CheckDigit(ElevenLess, WSum(d, PisWeights, 10)) == DigitValue(d[10])
  {
  }

  /** A wrong check digit. */
  lemma PisInvalidExample()
    ensures !PisValid("12345678910")
  {
    var d, e := "12345678919", "12345678910";
    assert AllDigits(e) && d[..10] == e[..10] && e[0] != e[1] && DigitValue(e[10]) == 0;
    assert CheckDigit(ElevenLess, 233) == 9;
    PisSum();
    WSumPrefix(d, e, PisWeights, 10);
    PisCheckDecides(e);
  }

  /** Repeated digits are refused whatever their check digits; empty input is refused except as a PIS. */
  lemma DegenerateExamples()
    ensures !PisValid("11111111111") && !CpfValid("11111111111") && !CnpjValid("11111111111111")
    ensures PisValid("") && !CpfValid("") && !CnpjValid("")
  {
    ElevenOnes();
    FourteenOnes();
    EmptyDocuments();
  }

  lemma ElevenOnes()
    ensures !PisValid("11111111111") && !CpfValid("11111111111")
  {
    var d := "11111111111";
    assert d == Ones(11);
    RepeatedRejected(d);
  }

  lemma FourteenOnes()
    ensures !CnpjValid("11111111111111")
  {
    var e := "11111111111111";
    assert e == Ones(14);
    RepeatedRejected(e);
  }

  lemma EmptyDocuments()
    ensures PisValid("") && !CpfValid("") && !CnpjValid("")
  {
  }

  /** `n` copies of the digit `1`. */
  function Ones(n: nat): (s: string)
    ensures |s| == n && forall i | 0 <= i < n :: s[i] == '1'
  {
    if n == 0 then [] else Ones(n - 1) + ['1']
  }

  /** Digits that are all the same are never a valid CPF, CNPJ or PIS. */
  lemma RepeatedRejected(d: string)
    requires d != [] && AllDigits(d) && AllSame(d)
    ensures !CpfValid(d) && !CnpjValid(d) && !PisValid(d)
  {
  }

  // ---------------------------------------------------------------------------
  // Formatting
  // ---------------------------------------------------------------------------

  /** `formatar_cpf` and `formatar_cnpj`: `""` for empty input, else the digits alone. */
  function FormatDocument(s: string): (r: string)
    ensures r == OnlyDigits(s)
    ensures AllDigits(r) && |r| <= |s|
    ensures AllDigits(s) ==> r == s
  {
    if s == [] then [] else OnlyDigits(s)
  }

  lemma FormatDocumentIdempotent(s: string)
    ensures FormatDocument(FormatDocument(s)) == FormatDocument(s)
  {
  }


  /** Formatting keeps a CPF's and a CNPJ's validity. */
  lemma FormatKeepsValidity(s: string)
    ensures CpfValid(FormatDocument(s)) <==> CpfValid(s)
    ensures CnpjValid(FormatDocument(s)) <==> CnpjValid(s)
  {
  }

  // ---------------------------------------------------------------------------
  // Dates
  // ---------------------------------------------------------------------------

  /** `re.match(r'^\d{4}-\d{2}-\d{2}$', s)`; `$` also matches before a final newline. */
  predicate DatePattern(s: string) {
    IsIsoShape(s) || (|s| == 11 && s[10] == '\n' && IsIsoShape(s[..10]))
  }

  /**
   * `validar_data`: empty text passes; otherwise the pattern, a real calendar
   * date, and a year from 1900 to next year.
   */
  function ValidDate(s: string, currentYear: int): bool {
    if s == [] then true
    else if !DatePattern(s) then false
    else match ParseYmd(s)
      case None => false
      case Some(d) => 1900 <= d.year <= currentYear + 1
  }

  /** A date followed by a newline matches the pattern but never parses. */
  lemma NewlineRejected(s: string)
    requires |s| == 11 && s[10] == '\n' && IsIsoShape(s[..10])
    ensures ParseYmd(s).None?
  {
    var t := s[..10];
    assert s[..4] == t[..4] && s[5..7] == t[5..7] && s[8..10] == t[8..];
    DigitsHaveNo(s[..4], '-');
    DigitsHaveNo(s[5..7], '-');
    assert !HasChar(s[8..], '-') by {
      DigitsHaveNo(s[8..10], '-');
      assert s[8..] == s[8..10] + ['\n'];
    }
    assert s == s[..4] + ['-'] + s[5..7] + ['-'] + s[8..];
    SplitThree(s[..4], s[5..7], s[8..], '-');
  }

  /** The date check without the newline detour: the exact shape, a real date, a year in range. */
  lemma ValidDateIff(s: string, currentYear: int)
    ensures ValidDate(s, currentYear) <==>
      (s == [] || (IsIsoShape(s) && ParseYmd(s).Some? && 1900 <= ParseYmd(s).value.year <= currentYear + 1))
  {
    if s != [] && DatePattern(s) && !IsIsoShape(s) {
      NewlineRejected(s);
    }
  }

  /** Every valid date in the accepted years passes, written as `YYYY-MM-DD`. */
  lemma ValidDateAccepts(d: Date, currentYear: int)
    requires IsValid(d) && 1900 <= d.year <= currentYear + 1
    ensures ValidDate(FormatIso(d), currentYear)
  {
    ParseFormatIso(d);
  }

  /** A date of the right shape passes exactly when its fields make a date in the accepted years. */
  lemma ShapedDate(s: string, currentYear: int)
    requires IsIsoShape(s)
    ensures ValidDate(s, currentYear) <==>
      match MakeDate(YearField(s[..4]), MonthField(s[5..7]), DayField(s[8..]))
      case None => false
      case Some(d) => 1900 <= d.year <= currentYear + 1
  {
    ShapeParse(s);
  }


  /** The fields of a text of the date shape, as numbers. */
  lemma ShapedFields(s: string)
    requires IsIsoShape(s)
    ensures YearField(s[..4]) == Some(1000 * DigitValue(s[0]) + 100 * DigitValue(s[1]) + 10 * DigitValue(s[2]) + DigitValue(s[3]))
    ensures SmallNum(s[5..7]) == Some(10 * DigitValue(s[5]) + DigitValue(s[6]))
    ensures SmallNum(s[8..]) == Some(10 * DigitValue(s[8]) + DigitValue(s[9]))
    ensures DayField(s[8..]) == FieldIn(s[8..], 1, 31)
  {
    FourDigitValue(s[..4]);
    TwoDigitValue(s[5..7]);
    TwoDigitValue(s[8..]);
  }

  /**
   * A text of the date shape against the year 2025. The text is a parameter so
   * that the parsers are not evaluated on a literal.
   */
  lemma ShapedExample(s: string, ok: bool)
    requires (s == "2023-01-01" && ok) || (!ok && (s == "2023-13-01" || s == "2023-01-32" || s == "2022-15-01"
                                                  || s == "1800-01-01" || s == "2027-01-01"))
    ensures ValidDate(s, 2025) == ok
  {
    assert IsIsoShape(s);
    ShapedFields(s);
    ShapedDate(s, 2025);
  }

  /** The examples of the source's tests, in the year 2025. */
  lemma DateExamples()
    ensures ValidDate("2023-01-01", 2025) && ValidDate("", 2025)
    ensures !ValidDate("2023/01/01", 2025) && !ValidDate("01/01/2023", 2025) && !ValidDate("2000/01/01", 2025)
    ensures !ValidDate("2023-13-01", 2025) && !ValidDate("2023-01-32", 2025) && !ValidDate("2022-15-01", 2025)
    ensures !ValidDate("1800-01-01", 2025) && !ValidDate("2027-01-01", 2025)
  {
    assert !DatePattern("2023/01/01") && !DatePattern("01/01/2023") && !DatePattern("2000/01/01");
    ShapedExample("2023-01-01", true);
    ShapedExample("2023-13-01", false);
    ShapedExample("2023-01-32", false);
    ShapedExample("2022-15-01", false);
    ShapedExample("1800-01-01", false);
    ShapedExample("2027-01-01", false);
  }

  /** How a text of the exact shape splits. */
  lemma ShapeParse(s: string)
    requires IsIsoShape(s)
    ensures ParseYmd(s) == MakeDate(YearField(s[..4]), MonthField(s[5..7]), DayField(s[8..]))
  {
    DigitsHaveNo(s[..4], '-');
    DigitsHaveNo(s[5..7], '-');
    DigitsHaveNo(s[8..], '-');
    assert s == s[..4] + ['-'] + s[5..7] + ['-'] + s[8..];
    SplitThree(s[..4], s[5..7], s[8..], '-');
  }

  // ---------------------------------------------------------------------------
  // Record validators
  // ---------------------------------------------------------------------------

  /** A record as the validators read it: field name to text. Numbers and `None` are not represented. */
  type TextRecord = map<string, string>

  /** `dados.get(campo, '')`. */
  function Field(r: TextRecord, name: string): string {
    if name in r then r[name] else ""
  }

  /** One reported problem, with the offending text. */
  datatype Issue =
    | BadCpf(cpf: string)
    | BadPis(pis: string)
    | BadBirthDate(date: string)
    | BadAdmissionDate(date: string)
    | BadEmployerCnpj(cnpj: string)
    | MissingCode
    | BadCbo(cbo: string)
    | BadStartDate(date: string)
    | BadEndDate(date: string)
    | EndBeforeStart(end: string, start: string)
    | MissingDismissalDate
    | BadDismissalDate(date: string)
    | MissingDismissalReason

  /** `issue` when `cond` holds, else nothing. */
  function Flag(cond: bool, issue: Issue): (errs: seq<Issue>)
    ensures errs == [] || errs == [issue]
    ensures issue in errs <==> cond
  {
    if cond then [issue] else []
  }

  /** The issue for a field that is checked only when non-empty. */
  function CheckedField(value: string, ok: bool, issue: Issue): (errs: seq<Issue>)
    ensures errs == [] || errs == [issue]
    ensures issue in errs <==> value != [] && !ok
  {
    Flag(value != [] && !ok, issue)
  }

  /** The S-2200 checks, given each field's text and whether it passed its validator. */
  function S2200Issues(cpf: string, cpfOk: bool, pis: string, pisOk: bool, birth: string, birthOk: bool,
                       admission: string, admissionOk: bool, cnpj: string, cnpjOk: bool): (errs: seq<Issue>)
    ensures |errs| <= 5
    ensures forall e | e in errs ::
      e == BadCpf(cpf) || e == BadPis(pis) || e == BadBirthDate(birth) || e == BadAdmissionDate(admission) || e == BadEmployerCnpj(cnpj)
    ensures BadCpf(cpf) in errs <==> cpf != [] && !cpfOk
    ensures BadPis(pis) in errs <==> pis != [] && !pisOk
    ensures BadBirthDate(birth) in errs <==> birth != [] && !birthOk
    ensures BadAdmissionDate(admission) in errs <==> admission != [] && !admissionOk
    ensures BadEmployerCnpj(cnpj) in errs <==> cnpj != [] && !cnpjOk
  {
    WorkerIssues(cpf, cpfOk, pis, pisOk, birth, birthOk)
    + CheckedField(admission, admissionOk, BadAdmissionDate(admission))
    + CheckedField(cnpj, cnpjOk, BadEmployerCnpj(cnpj))
  }

  /** The worker's own fields of S-2200: CPF, PIS and birth date. */
  function WorkerIssues(cpf: string, cpfOk: bool, pis: string, pisOk: bool, birth: string, birthOk: bool): (errs: seq<Issue>)
    ensures |errs| <= 3
    ensures forall e | e in errs :: e == BadCpf(cpf) || e == BadPis(pis) || e == BadBirthDate(birth)
    ensures BadCpf(cpf) in errs <==> cpf != [] && !cpfOk
    ensures BadPis(pis) in errs <==> pis != [] && !pisOk
    ensures BadBirthDate(birth) in errs <==> birth != [] && !birthOk
  {
    CheckedField(cpf, cpfOk, BadCpf(cpf))
    + CheckedField(pis, pisOk, BadPis(pis))
    + CheckedField(birth, birthOk, BadBirthDate(birth))
  }

  /** `validar_registro_s2200`: CPF, PIS, birth and admission dates, employer CNPJ. */
  function ValidateS2200(r: TextRecord, currentYear: int): (result: (bool, seq<Issue>))
    ensures result.0 <==> result.1 == []
    ensures var cpf, pis, cnpj := Field(r, "cpf_trabalhador"), Field(r, "nis_trabalhador"), Field(r, "cnpj_empregador");
      result.0 <==>
        && (cpf == [] || CpfValid(cpf)) && (pis == [] || PisValid(pis))
        && ValidDate(Field(r, "data_nascimento"), currentYear) && ValidDate(Field(r, "data_admissao"), currentYear)
        && (cnpj == [] || CnpjValid(cnpj))
    ensures |result.1| <= 5
    ensures forall e | e in result.1 ::
      || e == BadCpf(Field(r, "cpf_trabalhador")) || e == BadPis(Field(r, "nis_trabalhador"))
      || e == BadBirthDate(Field(r, "data_nascimento")) || e == BadAdmissionDate(Field(r, "data_admissao"))
      || e == BadEmployerCnpj(Field(r, "cnpj_empregador"))
    ensures var cpf := Field(r, "cpf_trabalhador");
      BadCpf(cpf) in result.1 <==> cpf != [] && !CpfValid(cpf)
    ensures var pis := Field(r, "nis_trabalhador");
      BadPis(pis) in result.1 <==> pis != [] && !PisValid(pis)
    ensures var birth := Field(r, "data_nascimento");
      BadBirthDate(birth) in result.1 <==> !ValidDate(birth, currentYear)
    ensures var admission := Field(r, "data_admissao");
      BadAdmissionDate(admission) in result.1 <==> !ValidDate(admission, currentYear)
    ensures var cnpj := Field(r, "cnpj_empregador");
      BadEmployerCnpj(cnpj) in result.1 <==> cnpj != [] && !CnpjValid(cnpj)
  {
    var cpf, pis := Field(r, "cpf_trabalhador"), Field(r, "nis_trabalhador");
    var birth, admission := Field(r, "data_nascimento"), Field(r, "data_admissao");
    var cnpj := Field(r, "cnpj_empregador");
    var errs := S2200Issues(cpf, CpfValid(cpf), pis, PisValid(pis), birth, ValidDate(birth, currentYear),
                            admission, ValidDate(admission, currentYear), cnpj, CnpjValid(cnpj));
    (errs == [], errs)
  }

  /** The test record with four bad fields gets exactly four issues. */
  lemma S2200FourIssues()
    ensures var r := map["cpf_trabalhador" := "12345678900", "data_nascimento" := "2000/01/01",
                         "data_admissao" := "2022-15-01", "cnpj_empregador" := "12345678000199"];
      |ValidateS2200(r, 2025).1| == 4
  {
    var r := map["cpf_trabalhador" := "12345678900", "data_nascimento" := "2000/01/01",
                 "data_admissao" := "2022-15-01", "cnpj_empregador" := "12345678000199"];
    assert Field(r, "cpf_trabalhador") == "12345678900" && Field(r, "nis_trabalhador") == "";
    assert Field(r, "data_nascimento") == "2000/01/01" && Field(r, "data_admissao") == "2022-15-01";
    assert Field(r, "cnpj_empregador") == "12345678000199";
    CpfExampleWrong();
    CnpjExampleWrong();
    DateExamples();
  }

  /** The CPF of the four-issue record: its second check digit should be 9. */
  lemma CpfExampleWrong()
    ensures !CpfValid("12345678900")
  {
    var d, e := "12345678909", "12345678900";
    assert AllDigits(e) && d[..10] == e[..10] && DigitValue(e[10]) == 0;
    assert CheckDigit(TimesTen, 255) == 9;
    CpfSecondSum();
    WSumPrefix(d, e, CpfWeights2, 10);
    CpfInvalidFrom(e);
  }

  /** The CNPJ of the four-issue record: its second check digit should be 5. */
  lemma CnpjExampleWrong()
    ensures !CnpjValid("12345678000199")
  {
    var d, e := "12345678000195", "12345678000199";
    assert AllDigits(e) && d[..13] == e[..13] && DigitValue(e[13]) == 9;
    assert CheckDigit(ElevenLess, 237) == 5;
    CnpjSecondSum();
    WSumPrefix(d, e, CnpjWeights2, 13);
    CnpjSecondFails(e);
  }



  /** The S-1020 and S-1030 checks, given whether the CBO code, the dates and the CNPJ passed. */
  function TableIssues(code: string, cbo: string, cboOk: bool, start: string, startOk: bool, end: string, endOk: bool,
                       cnpj: string, cnpjOk: bool): (errs: seq<Issue>)
    ensures |errs| <= 6
    ensures forall e | e in errs ::
      || e == MissingCode || e == BadCbo(cbo) || e == BadStartDate(start) || e == BadEndDate(end)
      || e == EndBeforeStart(end, start) || e == BadEmployerCnpj(cnpj)
    ensures MissingCode in errs <==> code == []
    ensures BadCbo(cbo) in errs <==> cbo != [] && !cboOk
    ensures BadStartDate(start) in errs <==> start != [] && !startOk
    ensures BadEndDate(end) in errs <==> end != [] && !endOk
    ensures EndBeforeStart(end, start) in errs <==> end != [] && endOk && start != [] && LexLess(end, start)
    ensures BadEmployerCnpj(cnpj) in errs <==> cnpj != [] && !cnpjOk
  {
    var a := CodeIssues(code, cbo, cboOk, start, startOk);
    var b := PeriodIssues(start, end, endOk, cnpj, cnpjOk);
    JoinIssues(a, b, {MissingCode, BadCbo(cbo), BadStartDate(start)},
               {BadEndDate(end), EndBeforeStart(end, start), BadEmployerCnpj(cnpj)});
    a + b
  }

  /** The first half of the table checks: the code, the CBO code and the start date. */
  function CodeIssues(code: string, cbo: string, cboOk: bool, start: string, startOk: bool): (errs: seq<Issue>)
    ensures |errs| <= 3
    ensures forall e | e in errs :: e in {MissingCode, BadCbo(cbo), BadStartDate(start)}
    ensures MissingCode in errs <==> code == []
    ensures BadCbo(cbo) in errs <==> cbo != [] && !cboOk
    ensures BadStartDate(start) in errs <==> start != [] && !startOk
  {
    Flag(code == [], MissingCode) + CheckedField(cbo, cboOk, BadCbo(cbo))
    + CheckedField(start, startOk, BadStartDate(start))
  }

  /** The second half of the table checks: the end date, its order against the start, the CNPJ. */
  function PeriodIssues(start: string, end: string, endOk: bool, cnpj: string, cnpjOk: bool): (errs: seq<Issue>)
    ensures |errs| <= 3
    ensures forall e | e in errs :: e in {BadEndDate(end), EndBeforeStart(end, start), BadEmployerCnpj(cnpj)}
    ensures BadEndDate(end) in errs <==> end != [] && !endOk
    ensures EndBeforeStart(end, start) in errs <==> end != [] && endOk && start != [] && LexLess(end, start)
    ensures BadEmployerCnpj(cnpj) in errs <==> cnpj != [] && !cnpjOk
  {
    CheckedField(end, endOk, BadEndDate(end))
    + Flag(end != [] && endOk && start != [] && LexLess(end, start), EndBeforeStart(end, start))
    + CheckedField(cnpj, cnpjOk, BadEmployerCnpj(cnpj))
  }

  /**
   * Two issue lists drawn from disjoint sets of possible issues: the joined list
   * holds an issue of either set exactly when that set's own list does.
   */
  lemma JoinIssues(a: seq<Issue>, b: seq<Issue>, xa: set<Issue>, xb: set<Issue>)
    requires forall e | e in a :: e in xa
    requires forall e | e in b :: e in xb
    requires xa !! xb
    ensures forall e | e in a + b :: e in xa + xb
    ensures forall y | y in xa :: y in a + b <==> y in a
    ensures forall y | y in xb :: y in a + b <==> y in b
  {
  }

  /** `validar_registro_s1020`: the code is required; validity dates; employer CNPJ. */
  function ValidateS1020(r: TextRecord, currentYear: int): (result: (bool, seq<Issue>))
    ensures result.0 <==> result.1 == []
    ensures var start, end, cnpj := Field(r, "inicio_validade"), Field(r, "fim_validade"), Field(r, "cnpj_empregador");
      result.0 <==>
        && Field(r, "codigo") != [] && ValidDate(start, currentYear) && ValidDate(end, currentYear)
        && !(end != [] && start != [] && LexLess(end, start)) && (cnpj == [] || CnpjValid(cnpj))
    ensures |result.1| <= 4
    ensures var start, end := Field(r, "inicio_validade"), Field(r, "fim_validade");
      forall e | e in result.1 ::
        || e == MissingCode || e == BadStartDate(start) || e == BadEndDate(end)
        || e == EndBeforeStart(end, start) || e == BadEmployerCnpj(Field(r, "cnpj_empregador"))
    ensures MissingCode in result.1 <==> Field(r, "codigo") == []
    ensures var start, end := Field(r, "inicio_validade"), Field(r, "fim_validade");
      && (BadStartDate(start) in result.1 <==> !ValidDate(start, currentYear))
      && (BadEndDate(end) in result.1 <==> !ValidDate(end, currentYear))
      && (EndBeforeStart(end, start) in result.1 <==>
            end != [] && ValidDate(end, currentYear) && start != [] && LexLess(end, start))
    ensures var cnpj := Field(r, "cnpj_empregador");
      BadEmployerCnpj(cnpj) in result.1 <==> cnpj != [] && !CnpjValid(cnpj)
  {
    var start, end := Field(r, "inicio_validade"), Field(r, "fim_validade");
    var cnpj := Field(r, "cnpj_empregador");
    var errs := TableIssues(Field(r, "codigo"), "", true, start, ValidDate(start, currentYear),
                            end, ValidDate(end, currentYear), cnpj, CnpjValid(cnpj));
    (errs == [], errs)
  }

  /** `validar_registro_s1030`: as S-1020, plus a CBO code of exactly six characters. */
  function ValidateS1030(r: TextRecord, currentYear: int): (result: (bool, seq<Issue>))
    ensures result.0 <==> result.1 == []
    ensures var cbo, start, end := Field(r, "cbo"), Field(r, "inicio_validade"), Field(r, "fim_validade");
      var cnpj := Field(r, "cnpj_empregador");
      result.0 <==>
        && Field(r, "codigo") != [] && (cbo == [] || |cbo| == 6)
        && ValidDate(start, currentYear) && ValidDate(end, currentYear)
        && !(end != [] && start != [] && LexLess(end, start)) && (cnpj == [] || CnpjValid(cnpj))
    ensures |result.1| <= 5
    ensures var start, end := Field(r, "inicio_validade"), Field(r, "fim_validade");
      forall e | e in result.1 ::
        || e == MissingCode || e == BadCbo(Field(r, "cbo")) || e == BadStartDate(start) || e == BadEndDate(end)
        || e == EndBeforeStart(end, start) || e == BadEmployerCnpj(Field(r, "cnpj_empregador"))
    ensures MissingCode in result.1 <==> Field(r, "codigo") == []
    ensures var cbo := Field(r, "cbo");
      BadCbo(cbo) in result.1 <==> cbo != [] && |cbo| != 6
    ensures var start, end := Field(r, "inicio_validade"), Field(r, "fim_validade");
      && (BadStartDate(start) in result.1 <==> !ValidDate(start, currentYear))
      && (BadEndDate(end) in result.1 <==> !ValidDate(end, currentYear))
      && (EndBeforeStart(end, start) in result.1 <==>
            end != [] && ValidDate(end, currentYear) && start != [] && LexLess(end, start))
    ensures var cnpj := Field(r, "cnpj_empregador");
      BadEmployerCnpj(cnpj) in result.1 <==> cnpj != [] && !CnpjValid(cnpj)
  {
    var cbo := Field(r, "cbo");
    var start, end := Field(r, "inicio_validade"), Field(r, "fim_validade");
    var cnpj := Field(r, "cnpj_empregador");
    var errs := TableIssues(Field(r, "codigo"), cbo, |cbo| == 6,
                            start, ValidDate(start, currentYear), end, ValidDate(end, currentYear), cnpj, CnpjValid(cnpj));
    (errs == [], errs)
  }

  /** The S-2299 checks, given whether the CPF, the date and the CNPJ passed their validators. */
  function S2299Issues(cpf: string, cpfOk: bool, date: string, dateOk: bool, reason: string,
                       cnpj: string, cnpjOk: bool): (errs: seq<Issue>)
    ensures |errs| <= 4
    ensures forall e | e in errs ::
      || e == BadCpf(cpf) || e == MissingDismissalDate || e == BadDismissalDate(date)
      || e == MissingDismissalReason || e == BadEmployerCnpj(cnpj)
    ensures BadCpf(cpf) in errs <==> cpf != [] && !cpfOk
    ensures MissingDismissalDate in errs <==> date == []
    ensures BadDismissalDate(date) in errs <==> date != [] && !dateOk
    ensures MissingDismissalReason in errs <==> reason == []
    ensures BadEmployerCnpj(cnpj) in errs <==> cnpj != [] && !cnpjOk
  {
    CheckedField(cpf, cpfOk, BadCpf(cpf))
    + Flag(date == [], MissingDismissalDate)
    + CheckedField(date, dateOk, BadDismissalDate(date))
    + Flag(reason == [], MissingDismissalReason)
    + CheckedField(cnpj, cnpjOk, BadEmployerCnpj(cnpj))
  }

  /** `validar_registro_s2299`: the dismissal date and reason are required. */
  function ValidateS2299(r: TextRecord, currentYear: int): (result: (bool, seq<Issue>))
    ensures result.0 <==> result.1 == []
    ensures var cpf, date, cnpj := Field(r, "cpf_trabalhador"), Field(r, "data_desligamento"), Field(r, "cnpj_empregador");
      result.0 <==>
        && (cpf == [] || CpfValid(cpf)) && date != [] && ValidDate(date, currentYear)
        && Field(r, "motivo_desligamento") != [] && (cnpj == [] || CnpjValid(cnpj))
    ensures |result.1| <= 4
    ensures forall e | e in result.1 ::
      || e == BadCpf(Field(r, "cpf_trabalhador")) || e == MissingDismissalDate
      || e == BadDismissalDate(Field(r, "data_desligamento")) || e == MissingDismissalReason
      || e == BadEmployerCnpj(Field(r, "cnpj_empregador"))
    ensures var cpf := Field(r, "cpf_trabalhador");
      BadCpf(cpf) in result.1 <==> cpf != [] && !CpfValid(cpf)
    ensures MissingDismissalDate in result.1 <==> Field(r, "data_desligamento") == []
    ensures var date := Field(r, "data_desligamento");
      BadDismissalDate(date) in result.1 <==> date != [] && !ValidDate(date, currentYear)
    ensures MissingDismissalReason in result.1 <==> Field(r, "motivo_desligamento") == []
    ensures var cnpj := Field(r, "cnpj_empregador");
      BadEmployerCnpj(cnpj) in result.1 <==> cnpj != [] && !CnpjValid(cnpj)
  {
    var cpf, date := Field(r, "cpf_trabalhador"), Field(r, "data_desligamento");
    var cnpj := Field(r, "cnpj_empregador");
    var errs := S2299Issues(cpf, CpfValid(cpf), date, ValidDate(date, currentYear),
                            Field(r, "motivo_desligamento"), cnpj, CnpjValid(cnpj));
    (errs == [], errs)
  }

  // ---------------------------------------------------------------------------
  // Sanitising
  // ---------------------------------------------------------------------------

  /**
   * `\w`: letters, digits and `_`. Exact up to U+00FF (ASCII and the Latin-1
   * letters and numerals); above that the class is the parameter `wide`.
   */
  predicate IsWordChar(c: char, wide: char -> bool) {
    || ('a' <= c <= 'z') || ('A' <= c <= 'Z') || IsDigit(c) || c == '_'
    || c == 'ª' || c == '²' || c == '³' || c == 'µ' || c == '¹' || c == 'º'
    || ('¼' <= c <= '¾') || ('À' <= c <= 'Ö') || ('Ø' <= c <= 'ö') || ('ø' <= c <= 'ÿ')
    || (c > 'ÿ' && wide(c))
  }

  /** The characters `[^\w\s]` does not remove. */
  function NameChars(wide: char -> bool): char -> bool {
    c => IsWordChar(c, wide) || IsSpace(c)
  }

  /** The characters `[^\w]` does not remove. */
  function CodeChars(wide: char -> bool): char -> bool {
    c => IsWordChar(c, wide)
  }

  /** The characters of `s` that satisfy `keep`, in order. */
  function KeepChars(s: string, keep: char -> bool): (r: string)
    ensures |r| <= |s|
    ensures forall i | 0 <= i < |r| :: keep(r[i])
    ensures (forall i | 0 <= i < |s| :: keep(s[i])) ==> r == s
    ensures (forall i | 0 <= i < |s| :: !keep(s[i])) ==> r == []
    decreases |s|
  {
    if s == [] then []
    else (if keep(s[0]) then [s[0]] else []) + KeepChars(s[1..], keep)
  }

  lemma {:induction false} KeepAppend(a: string, b: string, keep: char -> bool)
    ensures KeepChars(a + b, keep) == KeepChars(a, keep) + KeepChars(b, keep)
    decreases |a|
  {
    if a != [] {
      assert (a + b)[1..] == a[1..] + b;
      KeepAppend(a[1..], b, keep);
    } else {
      assert a + b == b;
    }
  }

  /** `cbo.zfill(6)[:6]` on the digits of the CBO code. */
  function NormalizeCbo(cbo: string): (r: string)
    ensures |r| == 6 && AllDigits(r)
    ensures |OnlyDigits(cbo)| <= 6 ==> r == ZeroFill(OnlyDigits(cbo), 6)
    ensures |OnlyDigits(cbo)| > 6 ==> r == OnlyDigits(cbo)[..6]
  {
    var d := OnlyDigits(cbo);
    var z := ZeroFill(d, 6);
    FilledPrefix(d);
    z[..6]
  }

  /** The first six characters of the zero-filled digits are digits, and are all of them when there are at most six. */
  lemma FilledPrefix(d: string)
    requires AllDigits(d)
    ensures |ZeroFill(d, 6)| >= 6 && AllDigits(ZeroFill(d, 6)[..6])
    ensures |d| <= 6 ==> ZeroFill(d, 6)[..6] == ZeroFill(d, 6)
  {
    var z := ZeroFill(d, 6);
    ZeroFillValue(d, 6);
    forall i | 0 <= i < 6 ensures IsDigit(z[..6][i]) {
      assert z[..6][i] == z[i];
    }
  }

  /** A short CBO code keeps its numeric value. */
  lemma NormalizeCboValue(cbo: string)
    requires |OnlyDigits(cbo)| <= 6
    ensures DigitsValue(NormalizeCbo(cbo)) == DigitsValue(OnlyDigits(cbo))
  {
    ZeroFillValue(OnlyDigits(cbo), 6);
  }

  /** The fields `sanitizar_dados` may rewrite for a record type. */
  function Rewritten(kind: string): (fields: set<string>)
    ensures "cpf_trabalhador" in fields && "cnpj_empregador" in fields
  {
    {"cpf_trabalhador", "cnpj_empregador"}
    + (if kind == "S-2200" then {"nome_trabalhador"}
       else if kind == "S-1020" then {"codigo"}
       else if kind == "S-1030" then {"cbo"}
       else if kind == "S-2299" then {"valor_rescisao", "valor_multa_fgts"}
       else {})
  }

  /** What the sanitiser makes of the field `k` holding `v`. */
  function SanitizedField(k: string, v: string, kind: string, toNumber: string -> Json, wide: char -> bool): (out: Json)
    ensures k !in Rewritten(kind) ==> out == JStr(v)
  {
    if k == "cpf_trabalhador" || k == "cnpj_empregador" then JStr(FormatDocument(v))
    else if kind == "S-2200" && k == "nome_trabalhador" then JStr(KeepChars(v, NameChars(wide)))
    else if kind == "S-1020" && k == "codigo" then JStr(KeepChars(v, CodeChars(wide)))
    else if kind == "S-1030" && k == "cbo" && v != [] then JStr(NormalizeCbo(v))
    else if kind == "S-2299" && (k == "valor_rescisao" || k == "valor_multa_fgts") && v != [] then toNumber(v)
    else JStr(v)
  }

  /**
   * `sanitizar_dados`: a copy of the record with CPF and CNPJ reduced to digits
   * and the type-specific fields cleaned. Python's `float` of the S-2299 amounts
   * (or `0.0` when it fails) is the parameter `toNumber`.
   */
  function Sanitize(r: TextRecord, kind: string, toNumber: string -> Json, wide: char -> bool): (out: map<string, Json>)
    ensures out.Keys == r.Keys
    ensures forall k | k in r && k !in Rewritten(kind) :: out[k] == JStr(r[k])
    ensures "cpf_trabalhador" in r ==> out["cpf_trabalhador"] == JStr(FormatDocument(r["cpf_trabalhador"]))
    ensures "cnpj_empregador" in r ==> out["cnpj_empregador"] == JStr(FormatDocument(r["cnpj_empregador"]))
  {
    map k | k in r :: SanitizedField(k, r[k], kind, toNumber, wide)
  }

  /** Per record type, the cleaned field holds only the characters its pattern keeps. */
  lemma SanitizeCleans(r: TextRecord, kind: string, toNumber: string -> Json, wide: char -> bool)
    ensures var out := Sanitize(r, kind, toNumber, wide);
      && (kind == "S-2200" && "nome_trabalhador" in r ==>
            out["nome_trabalhador"] == JStr(KeepChars(r["nome_trabalhador"], NameChars(wide)))
            && forall c | c in out["nome_trabalhador"].s :: IsWordChar(c, wide) || IsSpace(c))
      && (kind == "S-1020" && "codigo" in r ==>
            out["codigo"] == JStr(KeepChars(r["codigo"], CodeChars(wide)))
            && forall c | c in out["codigo"].s :: IsWordChar(c, wide))
      && (kind == "S-1030" && "cbo" in r ==>
            out["cbo"] == if r["cbo"] == [] then JStr([]) else JStr(NormalizeCbo(r["cbo"])))
      && (kind == "S-2299" && "valor_rescisao" in r ==>
            out["valor_rescisao"] == if r["valor_rescisao"] == [] then JStr([]) else toNumber(r["valor_rescisao"]))
      && (kind == "S-2299" && "valor_multa_fgts" in r ==>
            out["valor_multa_fgts"] == if r["valor_multa_fgts"] == [] then JStr([]) else toNumber(r["valor_multa_fgts"]))
  {
    if kind == "S-2200" && "nome_trabalhador" in r {
      SanitizeNameCleans(r, toNumber, wide);
    }
    if kind == "S-1020" && "codigo" in r {
      SanitizeCodeCleans(r, toNumber, wide);
    }
  }

  /** S-2200: the worker's name keeps only word characters and whitespace. */
  lemma SanitizeNameCleans(r: TextRecord, toNumber: string -> Json, wide: char -> bool)
    requires "nome_trabalhador" in r
    ensures var out := Sanitize(r, "S-2200", toNumber, wide);
      && out["nome_trabalhador"] == JStr(KeepChars(r["nome_trabalhador"], NameChars(wide)))
      && forall c | c in out["nome_trabalhador"].s :: IsWordChar(c, wide) || IsSpace(c)
  {
    var t := KeepChars(r["nome_trabalhador"], NameChars(wide));
    assert Sanitize(r, "S-2200", toNumber, wide)["nome_trabalhador"] == JStr(t);
    forall c | c in t ensures IsWordChar(c, wide) || IsSpace(c) {
      var i :| 0 <= i < |t| && t[i] == c;
    }
  }

  /** S-1020: the code keeps only word characters. */
  lemma SanitizeCodeCleans(r: TextRecord, toNumber: string -> Json, wide: char -> bool)
    requires "codigo" in r
    ensures var out := Sanitize(r, "S-1020", toNumber, wide);
      && out["codigo"] == JStr(KeepChars(r["codigo"], CodeChars(wide)))
      && forall c | c in out["codigo"].s :: IsWordChar(c, wide)
  {
    var t := KeepChars(r["codigo"], CodeChars(wide));
    assert Sanitize(r, "S-1020", toNumber, wide)["codigo"] == JStr(t);
    forall c | c in t ensures IsWordChar(c, wide) {
      var i :| 0 <= i < |t| && t[i] == c;
    }
  }

  /** Sanitising twice changes nothing more, for the text fields. */
  lemma SanitizeDocumentsIdempotent(r: TextRecord, kind: string, toNumber: string -> Json, wide: char -> bool)
    requires "cpf_trabalhador" in r
    ensures var once := Sanitize(r, kind, toNumber, wide);
      Sanitize(r["cpf_trabalhador" := once["cpf_trabalhador"].s], kind, toNumber, wide)["cpf_trabalhador"]
        == once["cpf_trabalhador"]
  {
    FormatDocumentIdempotent(r["cpf_trabalhador"]);
  }

  lemma NameCharsExample(a: string, b: string, wide: char -> bool)
    requires a == "João da Silva" && b == "!@#"
    ensures forall i | 0 <= i < |a| :: NameChars(wide)(a[i])
    ensures forall i | 0 <= i < |b| :: !NameChars(wide)(b[i])
  {
  }

  /** The name of the source's S-2200 example loses its punctuation. */
  lemma NameExample(name: string, wide: char -> bool)
    requires name == "João da Silva!@#"
    ensures KeepChars(name, NameChars(wide)) == "João da Silva"
  {
    var a, b := name[..13], name[13..];
    assert a == "João da Silva" && b == "!@#";
    assert name == a + b;
    KeepAppend(a, b, NameChars(wide));
    NameCharsExample(a, b, wide);
  }

  lemma CboExample(cbo: string)
    requires cbo == "123"
    ensures NormalizeCbo(cbo) == "000123"
  {
    assert AllDigits(cbo);
    assert ZeroFill(cbo, 6) == Zeros(3) + cbo;
  }

  /** The S-2200 example of the source's tests: the name loses its punctuation. */
  lemma SanitizeNameExample(r: TextRecord, toNumber: string -> Json, wide: char -> bool)
    requires r == map["cpf_trabalhador" := "12345678909", "nome_trabalhador" := "João da Silva!@#"]
    ensures Sanitize(r, "S-2200", toNumber, wide)["nome_trabalhador"] == JStr("João da Silva")
  {
    NameExample(r["nome_trabalhador"], wide);
  }

  /** The S-1030 example of the source's tests: a three-digit CBO code is zero-filled. */
  lemma SanitizeCboExample(r: TextRecord, toNumber: string -> Json, wide: char -> bool)
    requires r == map["codigo" := "CARGO-123", "cbo" := "123"]
    ensures Sanitize(r, "S-1030", toNumber, wide)["cbo"] == JStr("000123")
  {
    CboExample(r["cbo"]);
  }
}
