/**
 * `ExportadorGenerico.aplicar_formatacao`: per-field format hints applied to
 * copies of exported rows. Date hints turn ISO dates into Brazilian ones and
 * zero-pad Brazilian ones; number hints go through floating point, which is the
 * parameter `number` here.
 */
module GenericExport {
  import opened Common
  import opened JsonValue
  import opened Calendar

  /** `str(fmt).lower() in ['data', 'date', 'dd/mm/yyyy']`. */
  predicate IsDateFormat(fmt: string) {
    Lower(fmt) in ["data", "date", "dd/mm/yyyy"]
  }

  /** `str(fmt).lower().startswith('number') or str(fmt).startswith('number.2')`. */
  predicate IsNumberFormat(fmt: string) {
    StartsWith(Lower(fmt), "number") || StartsWith(fmt, "number.2")
  }

  /**
   * The `/` branch: each of the three parts through `int()`, printed with
   * `02d`, `02d` and `04d`; `None` when one of them is not an integer.
   */
  function PadSlashed(text: string): (r: Option<string>)
    requires Count(text, '/') == 2
    ensures r.Some? <==> (var parts := SplitOn(text, '/');
      ParseInt(parts[0]).Some? && ParseInt(parts[1]).Some? && ParseInt(parts[2]).Some?)
  {
    var parts := SplitOn(text, '/');
    match (ParseInt(parts[0]), ParseInt(parts[1]), ParseInt(parts[2]))
    case (Some(d), Some(m), Some(y)) =>
      Some(ZeroPadInt(d, 2) + "/" + ZeroPadInt(m, 2) + "/" + ZeroPadInt(y, 4))
    case _ => None
  }

  /**
   * A date-hinted value: its string form with two `-` is read as `YYYY-MM-DD` and
   * written `DD/MM/YYYY`; with two `/` its parts are zero-padded; when either
   * conversion raises, the value becomes its string form; anything else is kept.
   */
  function FormatDateValue(v: Json, reprOf: Json -> string): (r: Json)
    ensures var text := PyStr(v, reprOf);
      text == [] || (Count(text, '-') != 2 && Count(text, '/') != 2) ==> r == v
    ensures var text := PyStr(v, reprOf);
      text != [] && Count(text, '-') == 2 ==>
        r == (match ParseYmd(text) case Some(d) => JStr(FormatDmy(d)) case None => JStr(text))
    ensures var text := PyStr(v, reprOf);
      text != [] && Count(text, '-') != 2 && Count(text, '/') == 2 ==>
        r == (match PadSlashed(text) case Some(t) => JStr(t) case None => JStr(text))
    ensures r == v || r.JStr?
  {
    var text := PyStr(v, reprOf);
    if text != [] && Count(text, '-') == 2 then
      match ParseYmd(text)
      case Some(d) => JStr(FormatDmy(d))
      case None => JStr(text)
    else if text != [] && Count(text, '/') == 2 then
      match PadSlashed(text)
      case Some(t) => JStr(t)
      case None => JStr(text)
    else v
  }

  /** One field under its hint: falsy hints and hints of no known kind change nothing. */
  function FormatField(v: Json, fmt: Json, reprOf: Json -> string, number: Json -> Json): (r: Json)
    ensures !Truthy(fmt) ==> r == v
    ensures Truthy(fmt) && IsDateFormat(PyStr(fmt, reprOf)) ==> r == FormatDateValue(v, reprOf)
    ensures Truthy(fmt) && !IsDateFormat(PyStr(fmt, reprOf)) && IsNumberFormat(PyStr(fmt, reprOf)) ==> r == number(v)
    ensures !IsDateFormat(PyStr(fmt, reprOf)) && !IsNumberFormat(PyStr(fmt, reprOf)) ==> r == v
  {
    if !Truthy(fmt) then v
    else
      var f := PyStr(fmt, reprOf);
      if IsDateFormat(f) then FormatDateValue(v, reprOf)
      else if IsNumberFormat(f) then number(v)
      else v
  }

  /** A copy of the row with every hinted field it has reformatted; no field is added. */
  function FormatRow(row: Record, formats: map<string, Json>, reprOf: Json -> string, number: Json -> Json): (r: Record)
    ensures r.Keys == row.Keys
    ensures forall k | k in row && k !in formats :: r[k] == row[k]
    ensures forall k | k in row && k in formats :: r[k] == FormatField(row[k], formats[k], reprOf, number)
  {
    map k | k in row :: if k in formats then FormatField(row[k], formats[k], reprOf, number) else row[k]
  }

  /** `aplicar_formatacao`: one formatted copy per row, in order. */
  function ApplyFormatting(rows: seq<Record>, formats: map<string, Json>, reprOf: Json -> string,
                           number: Json -> Json): (r: seq<Record>)
    ensures |r| == |rows|
    ensures forall i | 0 <= i < |rows| :: r[i].Keys == rows[i].Keys
    ensures forall i, k | 0 <= i < |rows| && k in rows[i] && (k !in formats || !Truthy(formats[k])) ::
      r[i][k] == rows[i][k]
    ensures forall i, k | 0 <= i < |rows| && k in rows[i] && k in formats && Truthy(formats[k])
        && IsDateFormat(PyStr(formats[k], reprOf)) ::
      r[i][k] == FormatDateValue(rows[i][k], reprOf)
  {
    seq(|rows|, i requires 0 <= i < |rows| => FormatRow(rows[i], formats, reprOf, number))
  }

  // ---------------------------------------------------------------------------
  // What the date hint does to dates
  // ---------------------------------------------------------------------------

  /** `int()` of a run of ASCII digits is its value. */
  lemma ParseIntDigits(s: string)
    requires |s| > 0 && AllDigits(s)
    ensures ParseInt(s) == Some(DigitsValue(s))
  {
    assert Trimmed(s);
    StripTrimmed(s);
    DropDigits(s);
    DigitsAreGroups(s);
    assert s[0] != '-' && s[0] != '+';
  }

  lemma DigitsAreGroups(s: string)
    requires |s| > 0 && AllDigits(s)
    ensures IsDigitGroups(s)
  {
    assert IsDigit(s[0]) && IsDigit(s[|s| - 1]);
    assert forall i | 0 <= i < |s| - 1 :: s[i] != '_';
  }

  lemma {:induction false} DropDigits(s: string)
    requires AllDigits(s)
    ensures DropUnderscores(s) == s
    decreases |s|
  {
    if s != [] {
      DropDigits(s[1..]);
    }
  }

  /** Three runs of digits joined by `/`: no `-`, and `split('/')` gives them back. */
  lemma SlashedDigits(dd: string, m: string, y: string)
    requires AllDigits(dd) && AllDigits(m) && AllDigits(y)
    ensures !HasChar(dd + "/" + m + "/" + y, '-')
    ensures SplitOn(dd + "/" + m + "/" + y, '/') == [dd, m, y]
  {
    var s := dd + "/" + m + "/" + y;
    DigitsHaveNo(y, '/');
    DigitsHaveNo(m, '/');
    DigitsHaveNo(dd, '/');
    SplitThree(dd, m, y, '/');
    DigitsHaveNo(y, '-');
    DigitsHaveNo(m, '-');
    DigitsHaveNo(dd, '-');
    assert s == dd + ['/'] + m + ['/'] + y;
    NoCharJoin3(dd, m, y, '/', '-');
  }

  /** Zero-padding digit fields that are already padded changes nothing. */
  lemma PadSlashedPadded(day: nat, month: nat, year: nat)
    requires day <= 99 && month <= 99 && 1000 <= year <= 9999
    ensures var text := Pad2(day) + "/" + Pad2(month) + "/" + Pad4(year);
      Count(text, '/') == 2 && PadSlashed(text) == Some(text)
  {
    var dd, m, y := Pad2(day), Pad2(month), Pad4(year);
    PadSlashedDigits(dd, m, y);
    Pad2IsZeroPad(day);
    Pad2IsZeroPad(month);
    Pad4IsZeroPad(year);
  }

  /** `strftime`'s padding and `format(n, '02d')` or `'04d'` agree on non-negative numbers. */
  lemma Pad2IsZeroPad(n: nat)
    requires n <= 99
    ensures ZeroPadInt(n, 2) == Pad2(n)
  {
  }

  lemma Pad4IsZeroPad(n: nat)
    requires n <= 9999
    ensures ZeroPadInt(n, 4) == Pad4(n)
  {
  }

  /** Three runs of digits joined by `/` are each read as a number and padded. */
  lemma PadSlashedDigits(dd: string, m: string, y: string)
    requires |dd| > 0 && |m| > 0 && |y| > 0 && AllDigits(dd) && AllDigits(m) && AllDigits(y)
    ensures Count(dd + "/" + m + "/" + y, '/') == 2
    ensures PadSlashed(dd + "/" + m + "/" + y)
         == Some(ZeroPadInt(DigitsValue(dd), 2) + "/" + ZeroPadInt(DigitsValue(m), 2) + "/" + ZeroPadInt(DigitsValue(y), 4))
  {
    SlashedDigits(dd, m, y);
    ParseIntDigits(dd);
    ParseIntDigits(m);
    ParseIntDigits(y);
  }

  /** An ISO date under a date hint comes out as the same date in `DD/MM/YYYY`. */
  lemma IsoBecomesDmy(d: Date, reprOf: Json -> string)
    requires IsValid(d)
    ensures FormatDateValue(JStr(FormatIso(d)), reprOf) == JStr(FormatDmy(d))
  {
    ParseFormatIso(d);
  }

  /** The date hint reads back what it writes: the output parses as the input's date. */
  lemma IsoRoundTrip(d: Date, reprOf: Json -> string)
    requires IsValid(d) && d.year >= 1000
    ensures var out := FormatDateValue(JStr(FormatIso(d)), reprOf);
      out.JStr? && ParseDmy(out.s) == Some(d)
  {
    IsoBecomesDmy(d, reprOf);
    ParseFormatDmy(d);
  }

  /** Formatting an already formatted date again changes nothing. */
  lemma DmyIsFixed(d: Date, reprOf: Json -> string)
    requires IsValid(d) && d.year >= 1000
    ensures FormatDateValue(JStr(FormatDmy(d)), reprOf) == JStr(FormatDmy(d))
  {
    DmyPieces(d);
    LongYear(d.year);
    PadSlashedPadded(d.day, d.month, d.year);
    SlashedDigits(Pad2(d.day), Pad2(d.month), Pad4(d.year));
  }

  /** Hence the date hint is idempotent on ISO dates from year 1000 on. */
  lemma DateHintIdempotent(d: Date, reprOf: Json -> string)
    requires IsValid(d) && d.year >= 1000
    ensures var once := FormatDateValue(JStr(FormatIso(d)), reprOf);
      FormatDateValue(once, reprOf) == once
  {
    IsoBecomesDmy(d, reprOf);
    DmyIsFixed(d, reprOf);
  }

  /** The example of the exporter's tests: `2025-06-09` becomes `09/06/2025`. */
  lemma IsoExample(iso: string, br: string, reprOf: Json -> string)
    requires iso == "2025-06-09" && br == "09/06/2025"
    ensures FormatDateValue(JStr(iso), reprOf) == JStr(br)
  {
    IsoExampleAt(2025, 6, 9, iso, br, reprOf);
  }

  lemma IsoExampleAt(year: int, month: int, day: int, iso: string, br: string, reprOf: Json -> string)
    requires year == 2025 && month == 6 && day == 9
    requires iso == "2025-06-09" && br == "09/06/2025"
    ensures FormatDateValue(JStr(iso), reprOf) == JStr(br)
  {
    var d := Date(year, month, day);
    IsoBecomesDmy(d, reprOf);
    ExampleFields();
    assert FormatIso(d) == "2025" + "-" + "06" + "-" + "09";
    JoinIso(iso);
    DmyPieces(d);
    LongYear(d.year);
    var dmy := FormatDmy(d);
    assert dmy == Pad2(day) + "/" + Pad2(month) + "/" + Pad4(year);
    assert dmy == "09" + "/" + "06" + "/" + "2025";
    JoinDmy(br);
  }

  lemma JoinIso(iso: string)
    requires iso == "2025-06-09"
    ensures iso == "2025" + "-" + "06" + "-" + "09"
  {
  }

  lemma JoinDmy(br: string)
    requires br == "09/06/2025"
    ensures br == "09" + "/" + "06" + "/" + "2025"
  {
  }

  lemma ExampleFields()
    ensures Pad4(2025) == "2025" && Pad2(6) == "06" && Pad2(9) == "09"
  {
    YearText(2025);
  }

  lemma YearText(n: nat)
    requires n == 2025
    ensures NatToString(n) == "2025"
  {
    assert NatToString(n) == NatToString(n / 10) + [DigitChar(5)];
    assert NatToString(n / 10) == NatToString(n / 100) + [DigitChar(2)];
    assert NatToString(n / 100) == NatToString(n / 1000) + [DigitChar(0)];
    assert NatToString(n / 1000) == [DigitChar(2)];
  }

  /**
   * Digits joined by `-` whose middle part is no month (such as `2025-13-01`)
   * cannot be read as a date, and the value is kept as its string form.
   */
  lemma BadMonthKept(y: string, m: string, dd: string, reprOf: Json -> string)
    requires AllDigits(y) && AllDigits(m) && AllDigits(dd) && MonthField(m) == None
    ensures FormatDateValue(JStr(y + "-" + m + "-" + dd), reprOf) == JStr(y + "-" + m + "-" + dd)
  {
    DigitsHaveNo(y, '-');
    DigitsHaveNo(m, '-');
    DigitsHaveNo(dd, '-');
    SplitThree(y, m, dd, '-');
    assert y + "-" + m + "-" + dd == y + ['-'] + m + ['-'] + dd;
  }

  /** Month `13` is no month. */
  lemma MonthThirteen(m: string)
    requires m == "13"
    ensures AllDigits(m) && MonthField(m) == None
  {
    TwoDigitValue(m);
  }

  /** A value without two separators, such as a number, is not touched. */
  lemma NumberKept(n: int, reprOf: Json -> string)
    requires 0 <= n
    ensures FormatDateValue(JInt(n), reprOf) == JInt(n)
  {
    var text := PyStr(JInt(n), reprOf);
    assert text == NatToString(n);
    DigitsHaveNo(text, '-');
    DigitsHaveNo(text, '/');
    assert Count(text, '-') == 0 && Count(text, '/') == 0;
  }
}
