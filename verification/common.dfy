/**
 * Shared vocabulary: an option type, the character classes the source relies on
 * (Python's whitespace set, ASCII digits), and the handful of Python string and
 * integer built-ins the modelled code calls (`strip`, `lower`, `split`, `replace`,
 * `in`, `int()`, `str()` and `format(n, '0Nd')`).
 */
module Common {

  datatype Option<T> = None | Some(value: T)

  // ---------------------------------------------------------------------------
  // Characters
  // ---------------------------------------------------------------------------

  /** The characters Python's `str.isspace` accepts; `str.strip()` removes exactly these. */
  predicate IsSpace(c: char) {
    || c == ' '
    || ('\t' <= c <= '\r')
    || ('\U{1C}' <= c <= '\U{1F}')
    || c == '\U{85}' || c == '\U{A0}' || c == '\U{1680}'
    || ('\U{2000}' <= c <= '\U{200A}')
    || c == '\U{2028}' || c == '\U{2029}' || c == '\U{202F}' || c == '\U{205F}' || c == '\U{3000}'
  }

  /** True for a string that is empty or whitespace only (`not s.strip()`). */
  predicate IsBlank(s: string) {
    forall i | 0 <= i < |s| :: IsSpace(s[i])
  }

  predicate IsDigit(c: char) {
    '0' <= c <= '9'
  }

  function DigitValue(c: char): (v: nat)
    requires IsDigit(c)
    ensures v <= 9
  {
    (c as int - '0' as int) as nat
  }

  function DigitChar(v: nat): (c: char)
    requires v <= 9
    ensures IsDigit(c) && DigitValue(c) == v
  {
    ('0' as int + v) as char
  }

  predicate AllDigits(s: string) {
    forall i | 0 <= i < |s| :: IsDigit(s[i])
  }

  // ---------------------------------------------------------------------------
  // Python string built-ins
  // ---------------------------------------------------------------------------

  function StripLeft(s: string): (r: string)
    ensures |r| <= |s| && r == s[|s| - |r|..]
    ensures r == [] || !IsSpace(r[0])
    ensures forall i | 0 <= i < |s| - |r| :: IsSpace(s[i])
  {
    if |s| > 0 && IsSpace(s[0]) then StripLeft(s[1..]) else s
  }

  function StripRight(s: string): (r: string)
    ensures |r| <= |s| && r == s[..|r|]
    ensures r == [] || !IsSpace(r[|r| - 1])
    ensures forall i | |r| <= i < |s| :: IsSpace(s[i])
  {
    if |s| > 0 && IsSpace(s[|s| - 1]) then StripRight(s[..|s| - 1]) else s
  }

  /** The longest suffix of `s` without whitespace. */
  function NoSpaceSuffix(s: string): (r: string)
    ensures |r| <= |s| && r == s[|s| - |r|..]
    ensures forall i | 0 <= i < |r| :: !IsSpace(r[i])
    ensures |r| < |s| ==> IsSpace(s[|s| - |r| - 1])
  {
    if |s| > 0 && !IsSpace(s[|s| - 1]) then NoSpaceSuffix(s[..|s| - 1]) + [s[|s| - 1]] else []
  }

  /** Text without whitespace after a whitespace character is that text's longest such suffix. */
  lemma {:induction false} NoSpaceSuffixOf(a: string, b: string)
    requires a != [] && IsSpace(a[|a| - 1])
    requires forall i | 0 <= i < |b| :: !IsSpace(b[i])
    ensures NoSpaceSuffix(a + b) == b
  {
    if b == [] {
      assert a + b == a;
    } else {
      var b' := b[..|b| - 1];
      assert (a + b)[..|a + b| - 1] == a + b';
      NoSpaceSuffixOf(a, b');
      assert b' + [b[|b| - 1]] == b;
    }
  }

  /** Stripping a run of whitespace off the right of text that does not end in whitespace. */
  lemma {:induction false} StripRightSpaces(a: string, ws: string)
    requires a == [] || !IsSpace(a[|a| - 1])
    requires forall i | 0 <= i < |ws| :: IsSpace(ws[i])
    ensures StripRight(a + ws) == a
  {
    if ws == [] {
      assert a + ws == a;
    } else {
      assert (a + ws)[..|a + ws| - 1] == a + ws[..|ws| - 1];
      StripRightSpaces(a, ws[..|ws| - 1]);
    }
  }

  /** A non-empty string with no whitespace at either end: what `strip` leaves of a non-blank string. */
  predicate Trimmed(s: string) {
    s != [] && !IsSpace(s[0]) && !IsSpace(s[|s| - 1])
  }

  /** Python `s.strip()`. */
  function Strip(s: string): (r: string)
    ensures r == [] <==> IsBlank(s)
    ensures r == [] || Trimmed(r)
    ensures exists i, j | 0 <= i <= j <= |s| :: r == s[i..j]
  {
    var l := StripLeft(s);
    var r := StripRight(l);
    StripSlices(s, l, r);
    r
  }

  /** What stripping both ends leaves, from what each half of the strip promises. */
  lemma StripSlices(s: string, l: string, r: string)
    requires |l| <= |s| && l == s[|s| - |l|..] && (l == [] || !IsSpace(l[0]))
    requires forall i | 0 <= i < |s| - |l| :: IsSpace(s[i])
    requires |r| <= |l| && r == l[..|r|] && (r == [] || !IsSpace(r[|r| - 1]))
    requires forall i | |r| <= i < |l| :: IsSpace(l[i])
    ensures exists i, j | 0 <= i <= j <= |s| :: r == s[i..j]
    ensures r == [] <==> IsBlank(s)
    ensures r == [] || Trimmed(r)
  {
    var k := |s| - |l|;
    assert r == s[k..][..|r|] == s[k..k + |r|];
    if r == [] {
      assert l == [];
    } else {
      assert r[0] == l[0] == s[k];
    }
  }

  /** Stripping a trimmed string changes nothing. */
  lemma StripTrimmed(s: string)
    requires Trimmed(s)
    ensures Strip(s) == s
  {
  }

  function LowerChar(c: char): char {
    if 'A' <= c <= 'Z' then (c as int + 32) as char else c
  }

  function UpperChar(c: char): char {
    if 'a' <= c <= 'z' then (c as int - 32) as char else c
  }

  /** Python `s.lower()` on the ASCII letters. */
  function Lower(s: string): (r: string)
    ensures |r| == |s|
    ensures forall i | 0 <= i < |s| :: r[i] == LowerChar(s[i])
  {
    seq(|s|, i requires 0 <= i < |s| => LowerChar(s[i]))
  }

  /** Python `s.upper()` on the ASCII letters. */
  function Upper(s: string): (r: string)
    ensures |r| == |s|
    ensures forall i | 0 <= i < |s| :: r[i] == UpperChar(s[i])
  {
    seq(|s|, i requires 0 <= i < |s| => UpperChar(s[i]))
  }

  predicate StartsWith(s: string, prefix: string) {
    |prefix| <= |s| && s[..|prefix|] == prefix
  }

  predicate EndsWith(s: string, suffix: string) {
    |suffix| <= |s| && s[|s| - |suffix|..] == suffix
  }

  /** Python `sub in s`. */
  predicate Contains(s: string, sub: string) {
    exists i | 0 <= i <= |s| :: OccursAt(s, sub, i)
  }

  predicate OccursAt(s: string, sub: string, i: int) {
    0 <= i && i + |sub| <= |s| && s[i..i + |sub|] == sub
  }

  predicate HasChar(s: string, c: char) {
    exists i | 0 <= i < |s| :: s[i] == c
  }

  /** Python `s.count(c)` for a one-character argument. */
  function Count(s: string, c: char): (n: nat)
    ensures n <= |s|
    ensures n == 0 <==> !HasChar(s, c)
  {
    if s == [] then 0
    else (if s[0] == c then 1 else 0) + Count(s[1..], c)
  }

  /** `s.split(c)[0]`: everything before the first `c`, or all of `s`. */
  function TakeUntil(s: string, c: char): (r: string)
    ensures |r| <= |s| && r == s[..|r|]
    ensures !HasChar(r, c)
    ensures |r| < |s| <==> HasChar(s, c)
    ensures |r| < |s| ==> s[|r|] == c
  {
    if s == [] then []
    else if s[0] == c then []
    else [s[0]] + TakeUntil(s[1..], c)
  }

  /** Text free of `c` followed by nothing or by `c` is its own first piece. */
  lemma TakeUntilPrefix(a: string, rest: string, c: char)
    requires !HasChar(a, c) && (rest == [] || rest[0] == c)
    ensures TakeUntil(a + rest, c) == a
  {
    assert (a + rest)[..|a|] == a;
  }

  /** Python `s.split(c)` for a one-character separator. */
  function SplitOn(s: string, c: char): (parts: seq<string>)
    ensures |parts| == Count(s, c) + 1
    ensures parts[0] == TakeUntil(s, c)
    ensures forall k | 0 <= k < |parts| :: !HasChar(parts[k], c)
  {
    if s == [] then [[]]
    else
      var rest := SplitOn(s[1..], c);
      if s[0] == c then [[]] + rest
      else
        [[s[0]] + rest[0]] + rest[1..]
  }

  /** Python `s.replace(old, new)`: every non-overlapping occurrence, left to right. */
  function ReplaceAll(s: string, pat: string, rep: string): (r: string)
    requires |pat| > 0
    ensures !Contains(s, pat) ==> r == s
    decreases |s|
  {
    if |s| < |pat| then s
    else if s[..|pat|] == pat then
      assert OccursAt(s, pat, 0);
      rep + ReplaceAll(s[|pat|..], pat, rep)
    else
      NotContainsTail(s, pat);
      [s[0]] + ReplaceAll(s[1..], pat, rep)
  }

  lemma NotContainsTail(s: string, pat: string)
    requires |s| > 0
    ensures !Contains(s, pat) ==> !Contains(s[1..], pat)
  {
    if Contains(s[1..], pat) {
      var i :| 0 <= i <= |s[1..]| && OccursAt(s[1..], pat, i);
      assert s[i + 1..i + 1 + |pat|] == s[1..][i..i + |pat|];
      assert OccursAt(s, pat, i + 1);
    }
  }

  lemma NotContainsDrop(s: string, pat: string, k: nat)
    requires k <= |s| && !Contains(s, pat)
    ensures !Contains(s[k..], pat)
  {
    if Contains(s[k..], pat) {
      var i :| 0 <= i <= |s[k..]| && OccursAt(s[k..], pat, i);
      assert s[i + k..i + k + |pat|] == s[k..][i..i + |pat|];
      assert OccursAt(s, pat, i + k);
    }
  }

  /** Up to the first `?` it wrote, replacing by `?` leaves the text as it was. */
  lemma {:induction false} ReplacedPrefix(t: string, q: string, m: nat)
    requires |q| > 0
    requires m <= |ReplaceAll(t, q, "?")| && forall j | 0 <= j < m :: ReplaceAll(t, q, "?")[j] != '?'
    ensures m <= |t| && ReplaceAll(t, q, "?")[..m] == t[..m]
    decreases |t|
  {
    var r := ReplaceAll(t, q, "?");
    if |t| >= |q| && m > 0 {
      if t[..|q|] == q {
        ReplaceHead(t, q);
        assert false;
      } else {
        var r' := ReplaceAll(t[1..], q, "?");
        ReplaceStep(t, q);
        forall j | 0 <= j < m - 1 ensures r'[j] != '?' {
          assert r'[j] == r[j + 1];
        }
        ReplacedPrefix(t[1..], q, m - 1);
        PrefixCons(t[0], r', t[1..], m);
        assert [t[0]] + t[1..] == t;
      }
    }
  }

  /** Where the text does not start with `q`, its first character is kept. */
  lemma ReplaceStep(t: string, q: string)
    requires 0 < |q| <= |t| && t[..|q|] != q
    ensures ReplaceAll(t, q, "?") == [t[0]] + ReplaceAll(t[1..], q, "?")
  {
  }

  lemma PrefixCons(c: char, a: string, b: string, m: nat)
    requires 1 <= m && m - 1 <= |a| && m - 1 <= |b| && a[..m - 1] == b[..m - 1]
    ensures ([c] + a)[..m] == ([c] + b)[..m]
  {
    assert ([c] + a)[..m] == [c] + a[..m - 1];
    assert ([c] + b)[..m] == [c] + b[..m - 1];
  }

  lemma OccursHead(r: string, p: string)
    requires |p| > 0 && OccursAt(r, p, 0)
    ensures r[0] == p[0]
  {
    assert r[..|p|][0] == r[0];
  }

  lemma ReplaceHead(t: string, q: string)
    requires 0 < |q| <= |t| && t[..|q|] == q
    ensures |ReplaceAll(t, q, "?")| > 0 && ReplaceAll(t, q, "?")[0] == '?'
  {
  }

  /** A `?`-free prefix of `[c] + r` that matches `p` means the text it came from starts with `p`. */
  lemma MatchThroughReplace(c: char, t: string, q: string, p: string)
    requires |q| > 0 && |p| > 0 && !HasChar(p, '?')
    requires var r := [c] + ReplaceAll(t, q, "?"); |p| <= |r| && r[..|p|] == p
    ensures |p| <= |t| + 1 && ([c] + t)[..|p|] == p
  {
    var r' := ReplaceAll(t, q, "?");
    var r := [c] + r';
    forall j | 0 <= j < |p| - 1 ensures r'[j] != '?' {
      assert r'[j] == r[j + 1] == p[j + 1];
    }
    ReplacedPrefix(t, q, |p| - 1);
    assert r[..|p|] == [c] + r'[..|p| - 1];
    assert ([c] + t)[..|p|] == [c] + t[..|p| - 1];
  }

  /** An occurrence after a leading character is an occurrence in the rest. */
  lemma OccursAfterHead(r: string, r': string, p: string, i: int)
    requires |r| == |r'| + 1 && r[1..] == r' && i >= 1 && OccursAt(r, p, i)
    ensures OccursAt(r', p, i - 1)
  {
    var a, b := r[i..i + |p|], r'[i - 1..i - 1 + |p|];
    forall k | 0 <= k < |p| ensures a[k] == b[k] {
      assert a[k] == r[i + k] == r[1..][i - 1 + k];
    }
    assert a == b;
  }

  /** Replacing `q` by `?` cannot create a `?`-free text that was not there. */
  lemma {:induction false} ReplaceKeepsAbsent(s: string, q: string, p: string)
    requires |q| > 0 && |p| > 0 && !HasChar(p, '?') && !Contains(s, p)
    ensures !Contains(ReplaceAll(s, q, "?"), p)
    decreases |s|
  {
    var r := ReplaceAll(s, q, "?");
    if |s| >= |q| {
      var k := if s[..|q|] == q then |q| else 1;
      var r' := ReplaceAll(s[k..], q, "?");
      NotContainsDrop(s, p, k);
      ReplaceKeepsAbsent(s[k..], q, p);
      var c := if s[..|q|] == q then '?' else s[0];
      assert r == [c] + r';
      forall i | 0 <= i <= |r| ensures !OccursAt(r, p, i) {
        if i >= 1 && OccursAt(r, p, i) {
          OccursAfterHead(r, r', p, i);
        } else if i == 0 && OccursAt(r, p, 0) {
          if c == '?' {
            OccursHead(r, p);
            assert false;
          } else {
            MatchThroughReplace(c, s[1..], q, p);
            assert [c] + s[1..] == s;
            assert OccursAt(s, p, 0);
          }
        }
      }
    }
  }

  /** Replacing a `?`-free text by `?` leaves none of it. */
  lemma {:induction false} ReplaceRemoves(s: string, q: string)
    requires |q| > 0 && !HasChar(q, '?')
    ensures !Contains(ReplaceAll(s, q, "?"), q)
    decreases |s|
  {
    var r := ReplaceAll(s, q, "?");
    if |s| >= |q| {
      var k := if s[..|q|] == q then |q| else 1;
      var r' := ReplaceAll(s[k..], q, "?");
      ReplaceRemoves(s[k..], q);
      var c := if s[..|q|] == q then '?' else s[0];
      assert r == [c] + r';
      forall i | 0 <= i <= |r| ensures !OccursAt(r, q, i) {
        if i >= 1 && OccursAt(r, q, i) {
          OccursAfterHead(r, r', q, i);
        } else if i == 0 && OccursAt(r, q, 0) {
          if c == '?' {
            OccursHead(r, q);
            assert false;
          } else {
            MatchThroughReplace(c, s[1..], q, q);
            assert false;
          }
        }
      }
    }
  }

  /** Python's `<` on strings: lexicographic by code point. */
  predicate LexLess(a: string, b: string) {
    if a == [] then b != []
    else if b == [] then false
    else if a[0] != b[0] then a[0] < b[0]
    else LexLess(a[1..], b[1..])
  }

  // ---------------------------------------------------------------------------
  // Integers as text
  // ---------------------------------------------------------------------------

  /** Value of a non-empty run of ASCII digits. */
  function DigitsValue(s: string): (v: nat)
    requires AllDigits(s)
  {
    if s == [] then 0 else DigitsValue(s[..|s| - 1]) * 10 + DigitValue(s[|s| - 1])
  }

  function NatToString(n: nat): (s: string)
    ensures |s| >= 1 && AllDigits(s)
    ensures DigitsValue(s) == n
    ensures s[0] == '0' ==> n == 0
  {
    if n < 10 then [DigitChar(n)]
    else
      var s := NatToString(n / 10) + [DigitChar(n % 10)];
      assert s[..|s| - 1] == NatToString(n / 10);
      s
  }

  /** Python `str(n)` for an `int`. */
  function IntToString(n: int): string {
    if n < 0 then "-" + NatToString(-n) else NatToString(n)
  }

  function Zeros(k: nat): (s: string)
    ensures |s| == k && forall i | 0 <= i < k :: s[i] == '0'
  {
    if k == 0 then [] else "0" + Zeros(k - 1)
  }

  /** Left-pad a digit string with zeros to `width` characters (Python `str.zfill` on digits). */
  function ZeroFill(s: string, width: nat): (r: string)
    ensures |r| == if |s| < width then width else |s|
    ensures r[|r| - |s|..] == s
  {
    if |s| < width then Zeros(width - |s|) + s else s
  }

  /** Python `format(n, '0Nd')`: the sign counts towards the width. */
  function ZeroPadInt(n: int, width: nat): string {
    if n < 0 then "-" + ZeroFill(NatToString(-n), if width > 0 then width - 1 else 0)
    else ZeroFill(NatToString(n), width)
  }

  /** Digits with single underscores between them, as Python's `int()` accepts. */
  predicate IsDigitGroups(s: string) {
    && |s| > 0 && IsDigit(s[0]) && IsDigit(s[|s| - 1])
    && (forall i | 0 <= i < |s| :: IsDigit(s[i]) || s[i] == '_')
    && (forall i | 0 <= i < |s| - 1 :: !(s[i] == '_' && s[i + 1] == '_'))
  }

  function DropUnderscores(s: string): (r: string)
    requires forall i | 0 <= i < |s| :: IsDigit(s[i]) || s[i] == '_'
    ensures AllDigits(r)
  {
    if s == [] then []
    else if s[0] == '_' then DropUnderscores(s[1..])
    else [s[0]] + DropUnderscores(s[1..])
  }

  /** Python `int(s)` for a `str` argument in base 10; `None` where Python raises `ValueError`. */
  function ParseInt(s: string): (r: Option<int>)
    ensures r.Some? ==> !IsBlank(s)
  {
    var t := Strip(s);
    if t == [] then None
    else
      var sign := if t[0] == '-' then -1 else 1;
      var body := if t[0] == '-' || t[0] == '+' then t[1..] else t;
      if IsDigitGroups(body) then Some(sign * DigitsValue(DropUnderscores(body))) else None
  }

  // ---------------------------------------------------------------------------
  // Facts about the helpers above
  // ---------------------------------------------------------------------------

  function Pow10(k: nat): (p: nat)
    ensures p >= 1
  {
    if k == 0 then 1 else 10 * Pow10(k - 1)
  }

  /** The value of two and of four ASCII digits, digit by digit. */
  lemma TwoDigitValue(t: string)
    requires |t| == 2 && AllDigits(t)
    ensures DigitsValue(t) == 10 * DigitValue(t[0]) + DigitValue(t[1])
  {
    assert AllDigits(t[..1]) && t[..1][0] == t[0] && t[..1][..0] == [];
    assert DigitsValue(t[..1]) == DigitValue(t[0]);
    assert DigitsValue(t) == DigitsValue(t[..1]) * 10 + DigitValue(t[1]);
  }

  lemma FourDigitValue(t: string)
    requires |t| == 4 && AllDigits(t)
    ensures DigitsValue(t) == 1000 * DigitValue(t[0]) + 100 * DigitValue(t[1]) + 10 * DigitValue(t[2]) + DigitValue(t[3])
  {
    assert t[..3][..2] == t[..2];
    TwoDigitValue(t[..2]);
  }

  lemma {:induction false} DigitsValueBound(s: string)
    requires AllDigits(s)
    ensures DigitsValue(s) < Pow10(|s|)
  {
    if s != [] {
      DigitsValueBound(s[..|s| - 1]);
    }
  }

  lemma {:induction false} LeadingZerosValue(k: nat, s: string)
    requires AllDigits(s)
    ensures AllDigits(Zeros(k) + s)
    ensures DigitsValue(Zeros(k) + s) == DigitsValue(s)
    decreases |s|, k
  {
    if s != [] {
      assert (Zeros(k) + s)[..|Zeros(k) + s| - 1] == Zeros(k) + s[..|s| - 1];
      LeadingZerosValue(k, s[..|s| - 1]);
    } else if k > 0 {
      assert Zeros(k)[..k - 1] == Zeros(k - 1);
      LeadingZerosValue(k - 1, s);
      assert Zeros(k) + s == Zeros(k);
      assert Zeros(k - 1) + s == Zeros(k - 1);
    }
  }

  lemma ZeroFillValue(s: string, width: nat)
    requires AllDigits(s)
    ensures AllDigits(ZeroFill(s, width)) && DigitsValue(ZeroFill(s, width)) == DigitsValue(s)
  {
    if |s| < width {
      LeadingZerosValue(width - |s|, s);
    }
  }

  /** `str(n)` has exactly `k` characters when `10^(k-1) <= n < 10^k`. */
  lemma {:induction false} NatToStringLength(n: nat, k: nat)
    requires k >= 1
    ensures n < Pow10(k) ==> |NatToString(n)| <= k
    ensures n >= Pow10(k - 1) ==> |NatToString(n)| >= k
  {
    if k > 1 && n >= 10 {
      NatToStringLength(n / 10, k - 1);
    }
  }

  lemma NoCharTail(a: string, c: char)
    requires a != [] && !HasChar(a, c)
    ensures a[0] != c && !HasChar(a[1..], c)
  {
    forall i | 0 <= i < |a[1..]| ensures a[1..][i] != c {
      assert a[1..][i] == a[i + 1];
    }
  }

  lemma {:induction false} SplitPlain(a: string, c: char)
    requires !HasChar(a, c)
    ensures SplitOn(a, c) == [a]
  {
    if a != [] {
      NoCharTail(a, c);
      SplitPlain(a[1..], c);
      assert [a[0]] + a[1..] == a;
    }
  }

  lemma {:induction false} SplitJoin(a: string, c: char, rest: string)
    requires !HasChar(a, c)
    ensures SplitOn(a + [c] + rest, c) == [a] + SplitOn(rest, c)
  {
    var x := a + [c] + rest;
    if a != [] {
      NoCharTail(a, c);
      assert x[0] == a[0] && x[1..] == a[1..] + [c] + rest;
      SplitJoin(a[1..], c, rest);
      assert [a[0]] + a[1..] == a;
    } else {
      assert x[1..] == rest;
    }
  }

  /** Splitting `a c b c e` on `c` gives back the three pieces. */
  lemma SplitThree(a: string, b: string, e: string, c: char)
    requires !HasChar(a, c) && !HasChar(b, c) && !HasChar(e, c)
    ensures SplitOn(a + [c] + b + [c] + e, c) == [a, b, e]
  {
    var tail := b + [c] + e;
    var whole := a + [c] + b + [c] + e;
    assert whole == a + [c] + tail by {
      assert |whole| == |a + [c] + tail|;
      assert forall i | 0 <= i < |whole| :: whole[i] == (a + [c] + tail)[i];
    }
    SplitTwo(b, e, c);
    SplitJoin(a, c, tail);
    assert [a] + [b, e] == [a, b, e];
  }

  /** Splitting `b c e` on `c` gives back the two pieces. */
  lemma SplitTwo(b: string, e: string, c: char)
    requires !HasChar(b, c) && !HasChar(e, c)
    ensures SplitOn(b + [c] + e, c) == [b, e]
  {
    SplitJoin(b, c, e);
    SplitPlain(e, c);
    assert [b] + [e] == [b, e];
  }

  lemma NoCharConcat(a: string, b: string, c: char)
    requires !HasChar(a, c) && !HasChar(b, c)
    ensures !HasChar(a + b, c)
  {
    forall i | 0 <= i < |a + b| ensures (a + b)[i] != c {
      if i < |a| {
        assert (a + b)[i] == a[i];
      } else {
        assert (a + b)[i] == b[i - |a|];
      }
    }
  }

  /** Three pieces joined by a separator hold a character only if a piece or the separator does. */
  lemma NoCharJoin(a: string, b: string, sep: char, c: char)
    requires !HasChar(a, c) && !HasChar(b, c) && sep != c
    ensures !HasChar(a + [sep] + b, c)
  {
    NoCharConcat(a, [sep], c);
    NoCharConcat(a + [sep], b, c);
  }

  lemma NoCharJoin3(a: string, b: string, e: string, sep: char, c: char)
    requires !HasChar(a, c) && !HasChar(b, c) && !HasChar(e, c) && sep != c
    ensures !HasChar(a + [sep] + b + [sep] + e, c)
  {
    NoCharConcat(a, [sep], c);
    NoCharConcat(a + [sep], b, c);
    NoCharConcat(a + [sep] + b, [sep], c);
    NoCharConcat(a + [sep] + b + [sep], e, c);
  }

  /** Digits contain no text that starts with something other than a digit. */
  lemma DigitsContainNo(s: string, sub: string)
    requires AllDigits(s) && |sub| > 0 && !IsDigit(sub[0])
    ensures !Contains(s, sub)
  {
    forall i | 0 <= i <= |s| ensures !OccursAt(s, sub, i) {
      if i + |sub| <= |s| {
        assert s[i..i + |sub|][0] == s[i];
      }
    }
  }

  lemma DigitsHaveNo(s: string, c: char)
    requires AllDigits(s) && !IsDigit(c)
    ensures !HasChar(s, c)
  {
  }

  /** Every character is a digit or the separator `c`. */
  predicate DigitsOr(s: string, c: char) {
    forall i | 0 <= i < |s| :: IsDigit(s[i]) || s[i] == c
  }

  lemma DigitsOrJoin(a: string, b: string, c: char)
    requires DigitsOr(a, c) && DigitsOr(b, c)
    ensures DigitsOr(a + b, c)
  {
    forall i | 0 <= i < |a + b| ensures IsDigit((a + b)[i]) || (a + b)[i] == c {
      if i < |a| {
        assert (a + b)[i] == a[i];
      } else {
        assert (a + b)[i] == b[i - |a|];
      }
    }
  }

  lemma DigitsOrLacks(s: string, c: char, x: char)
    requires DigitsOr(s, c) && x != c && !IsDigit(x)
    ensures !HasChar(s, x)
  {
  }

  lemma DigitsOrNoSpace(s: string, c: char)
    requires DigitsOr(s, c) && !IsSpace(c)
    ensures forall i | 0 <= i < |s| :: !IsSpace(s[i])
  {
  }
}
