/**
 * Proleptic Gregorian dates as Python's `datetime.date` sees them, the numeric
 * fields `strptime` accepts, and the three text formats the exporter meets:
 * ISO `YYYY-MM-DD`, Brazilian `DD/MM/YYYY`, and `YYYY-MM-DD HH:MM:SS`.
 */
module Calendar {
  import opened Common

  datatype Date = Date(year: int, month: int, day: int)

  predicate IsLeap(y: int) {
    (y % 4 == 0 && y % 100 != 0) || y % 400 == 0
  }

  function DaysInMonth(y: int, m: int): (n: int)
    requires 1 <= m <= 12
    ensures 28 <= n <= 31
  {
    if m == 2 then (if IsLeap(y) then 29 else 28)
    else if m == 4 || m == 6 || m == 9 || m == 11 then 30
    else 31
  }

  function DaysInYear(y: int): int {
    if IsLeap(y) then 366 else 365
  }

  /** A date `datetime.date` accepts: years 1 to 9999 and a day that exists in its month. */
  predicate IsValid(d: Date) {
    1 <= d.year <= 9999 && 1 <= d.month <= 12 && 1 <= d.day <= DaysInMonth(d.year, d.month)
  }

  /** Days in the months of year `y` before month `m`. */
  function DaysBeforeMonth(y: int, m: int): (n: nat)
    requires 1 <= m <= 13
  {
    if m == 1 then 0 else DaysBeforeMonth(y, m - 1) + DaysInMonth(y, m - 1)
  }

  /** Days in the years before year `y` (for `y >= 1`). */
  function DaysBeforeYear(y: int): int {
    (y - 1) * 365 + (y - 1) / 4 - (y - 1) / 100 + (y - 1) / 400
  }

  /** `date.toordinal()`: 1 January of year 1 is day 1. */
  function Ordinal(d: Date): int
    requires IsValid(d)
  {
    DaysBeforeYear(d.year) + DaysBeforeMonth(d.year, d.month) + d.day
  }

  /** Calendar order: year, then month, then day. */
  predicate Before(a: Date, b: Date) {
    || a.year < b.year
    || (a.year == b.year && a.month < b.month)
    || (a.year == b.year && a.month == b.month && a.day < b.day)
  }

  lemma FullYear(y: int)
    ensures DaysBeforeMonth(y, 13) == DaysInYear(y)
  {
    var leap := if IsLeap(y) then 1 else 0;
    assert DaysBeforeMonth(y, 2) == 31;
    assert DaysBeforeMonth(y, 3) == 59 + leap;
    assert DaysBeforeMonth(y, 4) == 90 + leap;
    assert DaysBeforeMonth(y, 5) == 120 + leap;
    assert DaysBeforeMonth(y, 6) == 151 + leap;
    assert DaysBeforeMonth(y, 7) == 181 + leap;
    assert DaysBeforeMonth(y, 8) == 212 + leap;
    assert DaysBeforeMonth(y, 9) == 243 + leap;
    assert DaysBeforeMonth(y, 10) == 273 + leap;
    assert DaysBeforeMonth(y, 11) == 304 + leap;
    assert DaysBeforeMonth(y, 12) == 334 + leap;
  }

  lemma YearStep(y: int)
    requires y >= 1
    ensures DaysBeforeYear(y + 1) == DaysBeforeYear(y) + DaysInYear(y)
  {
    var q := y - 1;
    DivStep(q, 4);
    DivStep(q, 100);
    DivStep(q, 400);
    MultipleOfMultiple(y, 100, 4);
    MultipleOfMultiple(y, 4, 25);
    var leap := (if y % 4 == 0 then 1 else 0) - (if y % 100 == 0 then 1 else 0) + (if y % 400 == 0 then 1 else 0);
    assert DaysInYear(y) == 365 + leap;
    assert DaysBeforeYear(y + 1) == y * 365 + y / 4 - y / 100 + y / 400;
    assert DaysBeforeYear(y) == q * 365 + q / 4 - q / 100 + q / 400;
  }

  /** A multiple of `k * m` is a multiple of `k`. */
  lemma MultipleOfMultiple(y: int, k: int, m: int)
    requires k > 0 && m > 0
    ensures y % (k * m) == 0 ==> y % k == 0
  {
    if y % (k * m) == 0 {
      var a := y / (k * m);
      assert y == k * (m * a);
      DivUnique(y, k, m * a, 0);
    }
  }

  /** Counting multiples of `k`: one more is passed exactly when `q + 1` is one. */
  lemma DivStep(q: int, k: int)
    requires q >= 0 && k > 0
    ensures (q + 1) / k == q / k + (if (q + 1) % k == 0 then 1 else 0)
  {
    var a, r := q / k, q % k;
    assert q == k * a + r && 0 <= r < k;
    if r == k - 1 {
      DivUnique(q + 1, k, a + 1, 0);
    } else {
      DivUnique(q + 1, k, a, r + 1);
    }
  }

  /** Euclidean division has one quotient and one remainder. */
  lemma DivUnique(n: int, k: int, a: int, r: int)
    requires k > 0 && n == k * a + r && 0 <= r < k
    ensures n / k == a && n % k == r
  {
    var a2, r2 := n / k, n % k;
    assert k * (a - a2) == r2 - r;
    if a > a2 {
      MulAtLeast(k, a - a2);
    } else if a < a2 {
      MulAtLeast(k, a2 - a);
    }
  }

  lemma {:induction false} MulAtLeast(k: int, x: int)
    requires k > 0 && x >= 1
    ensures k * x >= k
    decreases x
  {
    if x > 1 {
      MulAtLeast(k, x - 1);
      assert k * x == k * (x - 1) + k;
    }
  }

  lemma {:induction false} YearsMonotone(y1: int, y2: int)
    requires 1 <= y1 <= y2
    ensures DaysBeforeYear(y1) + (y2 - y1) * 365 <= DaysBeforeYear(y2)
    decreases y2 - y1
  {
    if y1 < y2 {
      YearStep(y1);
      YearsMonotone(y1 + 1, y2);
    }
  }

  lemma {:induction false} MonthsMonotone(y: int, m1: int, m2: int)
    requires 1 <= m1 <= m2 <= 13
    ensures DaysBeforeMonth(y, m1) + (m2 - m1) * 28 <= DaysBeforeMonth(y, m2)
    decreases m2 - m1
  {
    if m1 < m2 {
      MonthsMonotone(y, m1, m2 - 1);
    }
  }

  /** A date's ordinal lies within its year's span of ordinals. */
  lemma OrdinalInYear(d: Date)
    requires IsValid(d)
    ensures DaysBeforeYear(d.year) < Ordinal(d) <= DaysBeforeYear(d.year) + DaysInYear(d.year)
  {
    MonthsMonotone(d.year, d.month + 1, 13);
    FullYear(d.year);
  }

  lemma LaterYear(y1: int, y2: int)
    requires 1 <= y1 < y2
    ensures DaysBeforeYear(y1) + DaysInYear(y1) <= DaysBeforeYear(y2)
  {
    YearStep(y1);
    YearsMonotone(y1 + 1, y2);
  }

  lemma EarlierOrdinal(a: Date, b: Date)
    requires IsValid(a) && IsValid(b) && Before(a, b)
    ensures Ordinal(a) < Ordinal(b)
  {
    if a.year < b.year {
      OrdinalInYear(a);
      OrdinalInYear(b);
      LaterYear(a.year, b.year);
    } else if a.month < b.month {
      MonthsMonotone(a.year, a.month + 1, b.month);
    }
  }

  /** Ordinals follow calendar order, so day arithmetic on them is meaningful. */
  lemma OrdinalOrder(a: Date, b: Date)
    requires IsValid(a) && IsValid(b)
    ensures Before(a, b) <==> Ordinal(a) < Ordinal(b)
    ensures a == b <==> Ordinal(a) == Ordinal(b)
  {
    if Before(a, b) {
      EarlierOrdinal(a, b);
    } else if Before(b, a) {
      EarlierOrdinal(b, a);
    }
  }

  // ---------------------------------------------------------------------------
  // strptime fields
  // ---------------------------------------------------------------------------

  /** One or two ASCII digits. */
  function SmallNum(t: string): (r: Option<nat>)
    ensures r.Some? ==> r.value <= 99
  {
    if (|t| == 1 || |t| == 2) && AllDigits(t) then
      DigitsValueBound(t);
      Some(DigitsValue(t))
    else None
  }

  function FieldIn(t: string, lo: nat, hi: nat): (r: Option<nat>)
    ensures r.Some? ==> lo <= r.value <= hi
  {
    match SmallNum(t)
    case Some(v) => if lo <= v <= hi then Some(v) else None
    case None => None
  }

  /** `%Y`: exactly four digits. */
  function YearField(t: string): (r: Option<nat>)
    ensures r.Some? ==> r.value <= 9999
  {
    if |t| == 4 && AllDigits(t) then
      DigitsValueBound(t);
      Some(DigitsValue(t))
    else None
  }

  /** `%m`: `1[0-2]|0[1-9]|[1-9]`. */
  function MonthField(t: string): (r: Option<nat>)
    ensures r.Some? ==> 1 <= r.value <= 12
  {
    FieldIn(t, 1, 12)
  }

  /** `%d`: `3[01]|[12]\d|0[1-9]|[1-9]| [1-9]` (a space may stand for the leading zero). */
  function DayField(t: string): (r: Option<nat>)
    ensures r.Some? ==> 1 <= r.value <= 31
  {
    if |t| == 2 && t[0] == ' ' && IsDigit(t[1]) && t[1] != '0' then Some(DigitValue(t[1]))
    else FieldIn(t, 1, 31)
  }

  /** `%H`: `2[0-3]|[0-1]\d|\d`. */
  function HourField(t: string): (r: Option<nat>)
    ensures r.Some? ==> r.value <= 23
  {
    FieldIn(t, 0, 23)
  }

  /** `%M`: `[0-5]\d|\d`. */
  function MinuteField(t: string): (r: Option<nat>)
    ensures r.Some? ==> r.value <= 59
  {
    FieldIn(t, 0, 59)
  }

  /** `%S`: `6[0-1]|[0-5]\d|\d`; `datetime` then refuses 60 and 61, which leaves `%M`'s range. */
  function SecondField(t: string): (r: Option<nat>)
    ensures r.Some? ==> r.value <= 59
  {
    MinuteField(t)
  }

  function MakeDate(y: Option<nat>, m: Option<nat>, d: Option<nat>): (r: Option<Date>)
    ensures r.Some? ==> IsValid(r.value)
    ensures r.Some? <==> y.Some? && m.Some? && d.Some? && IsValid(Date(y.value, m.value, d.value))
  {
    if y.Some? && m.Some? && d.Some? && IsValid(Date(y.value, m.value, d.value))
    then Some(Date(y.value, m.value, d.value)) else None
  }

  /** `datetime.strptime(s, "%Y-%m-%d").date()`; `None` where it raises `ValueError`. */
  function ParseYmd(s: string): (r: Option<Date>)
    ensures r.Some? ==> IsValid(r.value) && Count(s, '-') == 2
  {
    var p := SplitOn(s, '-');
    if |p| == 3 then MakeDate(YearField(p[0]), MonthField(p[1]), DayField(p[2])) else None
  }

  /** `datetime.strptime(s, "%d/%m/%Y").date()`. */
  function ParseDmy(s: string): (r: Option<Date>)
    ensures r.Some? ==> IsValid(r.value) && Count(s, '/') == 2
  {
    var p := SplitOn(s, '/');
    if |p| == 3 then MakeDate(YearField(p[2]), MonthField(p[1]), DayField(p[0])) else None
  }

  /** `H:M:S` with each field in range. */
  predicate IsClock(t: string) {
    var f := SplitOn(t, ':');
    |f| == 3 && HourField(f[0]).Some? && MinuteField(f[1]).Some? && SecondField(f[2]).Some?
  }

  /**
   * `datetime.strptime(s, "%Y-%m-%d %H:%M:%S").date()`. The space of the format
   * matches any non-empty run of whitespace; the clock holds none, and the date
   * ends in a digit, so the run is the last one in `s`.
   */
  function ParseYmdHms(s: string): (r: Option<Date>)
    ensures r.Some? ==> IsValid(r.value)
    ensures r.Some? ==> exists i | 0 <= i < |s| :: IsSpace(s[i])
  {
    var clock := NoSpaceSuffix(s);
    var rest := s[..|s| - |clock|];
    if rest == [] then None
    else if IsClock(clock) then ParseYmd(StripRight(rest))
    else None
  }

  /** The letter `T` in either case, as a case-insensitive pattern matches it. */
  function FoldT(s: string): (r: string)
    ensures |r| == |s|
    ensures forall i | 0 <= i < |s| :: r[i] == (if s[i] == 'T' then 't' else s[i])
  {
    seq(|s|, i requires 0 <= i < |s| => if s[i] == 'T' then 't' else s[i])
  }

  /** `datetime.strptime(s, "%Y-%m-%dT%H:%M:%S").date()`; the pattern ignores case, so `t` also separates. */
  function ParseYmdTHms(s: string): (r: Option<Date>)
    ensures r.Some? ==> IsValid(r.value) && (HasChar(s, 'T') || HasChar(s, 't'))
  {
    var halves := SplitOn(FoldT(s), 't');
    if |halves| != 2 then None
    else if IsClock(halves[1]) then ParseYmd(halves[0])
    else None
  }

  /** The shape `^\d{4}-\d{2}-\d{2}$` demanded before any date is parsed for validation. */
  predicate IsIsoShape(s: string) {
    && |s| == 10 && s[4] == '-' && s[7] == '-'
    && AllDigits(s[..4]) && AllDigits(s[5..7]) && AllDigits(s[8..])
  }

  // ---------------------------------------------------------------------------
  // Rendering
  // ---------------------------------------------------------------------------

  function Pad2(n: nat): (s: string)
    requires n <= 99
    ensures |s| == 2 && AllDigits(s) && DigitsValue(s) == n
  {
    NatToStringLength(n, 2);
    ZeroFillValue(NatToString(n), 2);
    ZeroFill(NatToString(n), 2)
  }

  function Pad4(n: nat): (s: string)
    requires n <= 9999
    ensures |s| == 4 && AllDigits(s) && DigitsValue(s) == n
  {
    NatToStringLength(n, 4);
    ZeroFillValue(NatToString(n), 4);
    ZeroFill(NatToString(n), 4)
  }

  /**
   * `strftime("%d/%m/%Y")`. The C library behind CPython on Linux does not pad
   * years below 1000 to four digits, so such years come out short.
   */
  function FormatDmy(d: Date): (s: string)
    requires IsValid(d)
    ensures |s| >= 7 && s[2] == '/' && s[5] == '/'
    ensures d.year >= 1000 <==> |s| == 10
  {
    NatToStringLength(d.year, 4);
    NatToStringLength(d.year, 3);
    var dd, m, y := Pad2(d.day), Pad2(d.month), NatToString(d.year);
    DmyShape(dd, m, y);
    dd + "/" + m + "/" + y
  }

  /** Where the slashes of a day-first date fall. */
  lemma DmyShape(dd: string, m: string, y: string)
    requires |dd| == 2 && |m| == 2
    ensures var s := dd + "/" + m + "/" + y; |s| == 6 + |y| && s[2] == '/' && s[5] == '/'
  {
  }

  /** `date.isoformat()`: `YYYY-MM-DD` with the year padded to four digits. */
  function FormatIso(d: Date): (s: string)
    requires IsValid(d)
    ensures IsIsoShape(s)
  {
    var y, m, dd := Pad4(d.year), Pad2(d.month), Pad2(d.day);
    IsoShapeOf(y, m, dd);
    y + "-" + m + "-" + dd
  }

  lemma IsoShapeOf(y: string, m: string, dd: string)
    requires |y| == 4 && |m| == 2 && |dd| == 2
    requires AllDigits(y) && AllDigits(m) && AllDigits(dd)
    ensures IsIsoShape(y + "-" + m + "-" + dd)
  {
    var s := y + "-" + m + "-" + dd;
    assert s[..4] == y && s[5..7] == m && s[8..] == dd;
  }

  // ---------------------------------------------------------------------------
  // Round trips
  // ---------------------------------------------------------------------------

  lemma Pad2Fields(n: nat)
    requires 1 <= n <= 12
    ensures MonthField(Pad2(n)) == Some(n) && DayField(Pad2(n)) == Some(n)
  {
  }

  lemma Pad2Day(n: nat)
    requires 1 <= n <= 31
    ensures DayField(Pad2(n)) == Some(n)
  {
  }

  /** A valid date written as ISO text reads back as the same date. */
  lemma ParseFormatIso(d: Date)
    requires IsValid(d)
    ensures ParseYmd(FormatIso(d)) == Some(d)
  {
    var y, m, dd := Pad4(d.year), Pad2(d.month), Pad2(d.day);
    assert FormatIso(d) == y + ['-'] + m + ['-'] + dd;
    assert ParseYmd(y + ['-'] + m + ['-'] + dd) == MakeDate(YearField(y), MonthField(m), DayField(dd)) by {
      SplitYmd(y, m, dd);
    }
    FieldsRead(d);
  }

  /** The padded fields of a valid date read back as that date. */
  lemma FieldsRead(d: Date)
    requires IsValid(d)
    ensures MakeDate(YearField(Pad4(d.year)), MonthField(Pad2(d.month)), DayField(Pad2(d.day))) == Some(d)
  {
    Pad2Fields(d.month);
    Pad2Day(d.day);
  }

  /** Three runs of digits joined by `-` are read field by field. */
  lemma SplitYmd(y: string, m: string, dd: string)
    requires AllDigits(y) && AllDigits(m) && AllDigits(dd)
    ensures ParseYmd(y + ['-'] + m + ['-'] + dd) == MakeDate(YearField(y), MonthField(m), DayField(dd))
  {
    DigitsHaveNo(y, '-');
    DigitsHaveNo(m, '-');
    DigitsHaveNo(dd, '-');
    SplitThree(y, m, dd, '-');
  }

  /** Three runs of digits joined by `/` are read field by field, day first. */
  lemma SplitDmy(dd: string, m: string, y: string)
    requires AllDigits(dd) && AllDigits(m) && AllDigits(y)
    ensures ParseDmy(dd + ['/'] + m + ['/'] + y) == MakeDate(YearField(y), MonthField(m), DayField(dd))
  {
    DigitsHaveNo(dd, '/');
    DigitsHaveNo(m, '/');
    DigitsHaveNo(y, '/');
    SplitThree(dd, m, y, '/');
  }

  /** From year 1000 on, the year needs no padding. */
  lemma LongYear(year: nat)
    requires 1000 <= year <= 9999
    ensures Pad4(year) == NatToString(year)
  {
    NatToStringLength(year, 4);
  }

  /** A valid date of year 1000 or later written as `DD/MM/YYYY` reads back as the same date. */
  lemma ParseFormatDmy(d: Date)
    requires IsValid(d) && d.year >= 1000
    ensures ParseDmy(FormatDmy(d)) == Some(d)
  {
    var y, m, dd := Pad4(d.year), Pad2(d.month), Pad2(d.day);
    assert FormatDmy(d) == dd + ['/'] + m + ['/'] + y by {
      LongYear(d.year);
    }
    assert ParseDmy(dd + ['/'] + m + ['/'] + y) == MakeDate(YearField(y), MonthField(m), DayField(dd)) by {
      SplitDmy(dd, m, y);
    }
    FieldsRead(d);
  }

  /** `DD/MM/YYYY` is its three fields joined by `/`, with no `T` or `-` anywhere. */
  lemma DmyPieces(d: Date)
    requires IsValid(d)
    ensures var y := NatToString(d.year);
      FormatDmy(d) == Pad2(d.day) + ['/'] + Pad2(d.month) + ['/'] + y
      && !HasChar(Pad2(d.day), '/') && !HasChar(Pad2(d.month), '/') && !HasChar(y, '/')
      && !HasChar(FormatDmy(d), 'T') && !HasChar(FormatDmy(d), 't') && !HasChar(FormatDmy(d), '-')
  {
    var y := NatToString(d.year);
    var s := FormatDmy(d);
    DigitsHaveNo(Pad2(d.day), '/');
    DigitsHaveNo(Pad2(d.month), '/');
    DigitsHaveNo(y, '/');
    forall i | 0 <= i < |s| ensures s[i] != 'T' && s[i] != 't' && s[i] != '-' {
      if i < 2 {
        assert s[i] == Pad2(d.day)[i];
      } else if 2 < i < 5 {
        assert s[i] == Pad2(d.month)[i - 3];
      } else if 5 < i {
        assert s[i] == y[i - 6];
      }
    }
  }
}
