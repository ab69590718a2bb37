/**
 * `ExportadorTemplatesEmpresa`: the nine mandatory templates, the columns each
 * one declares, how every cell of a row is resolved through the field mapping,
 * and the lines of the CSV file written for it. The database query behind a
 * template is the parameter `fetch`; a file is its lines of cells.
 */
module TemplateExport {
  import opened Common
  import opened Calendar
  import opened JsonValue
  import opened FieldMapper

  /** `templates_obrigatorios`, in export order. */
  const MandatoryTemplates: seq<string> := [
    "01_CONVTRABALHADOR.csv", "02_CONVCONTRATO.csv", "03_CONVCONTRATOALT.csv",
    "04_CONVDEPENDENTE.csv", "05_FERIAS.csv", "06_CONVFICHA.csv",
    "07_CARGOS.csv", "08_CONVAFASTAMENTO.csv", "09_CONVATESTADO.csv"]

  /** A generated row: column name to value. */
  type Row = map<string, Json>

  /** A CSV file as its lines of cells, the header line first. */
  type CsvFile = seq<seq<string>>

  /** The mapping key of a template file: its name without `.csv`. */
  function TemplateKey(name: string): string {
    ReplaceAll(name, ".csv", "")
  }

  // ---------------------------------------------------------------------------
  // Columns
  // ---------------------------------------------------------------------------

  /** `[col.strip() for col in linha if col.strip()]`. */
  function CleanHeader(line: seq<string>): (cols: seq<string>)
    ensures |cols| <= |line|
    ensures forall c | c in cols :: Trimmed(c)
    decreases |line|
  {
    if line == [] then []
    else
      var c := Strip(line[0]);
      var rest := CleanHeader(line[1..]);
      assert c != [] ==> Trimmed(c);
      if c != [] then [c] + rest else rest
  }

  /** A line of clean names is read back unchanged. */
  lemma {:induction false} CleanHeaderKeepsClean(line: seq<string>)
    requires forall k | 0 <= k < |line| :: Trimmed(line[k])
    ensures CleanHeader(line) == line
    decreases |line|
  {
    if line != [] {
      StripTrimmed(line[0]);
      CleanHeaderKeepsClean(line[1..]);
    }
  }

  /**
   * `_ler_colunas_template`: the cleaned first line of the template file when
   * the file gives a non-empty first line (`header`), else the configured
   * columns, else nothing.
   */
  function ReadColumns(header: Option<seq<string>>, config: map<string, seq<string>>, name: string): (cols: seq<string>)
    ensures header.Some? && header.value != [] ==> cols == CleanHeader(header.value)
    ensures header.Some? && header.value != [] ==> forall c | c in cols :: Trimmed(c)
    ensures (header.None? || header.value == []) && name in config ==> cols == config[name]
    ensures (header.None? || header.value == []) && name !in config ==> cols == []
  {
    if header.Some? && header.value != [] then CleanHeader(header.value)
    else if name in config then config[name]
    else []
  }

  // ---------------------------------------------------------------------------
  // Cell resolution
  // ---------------------------------------------------------------------------

  /** `valor not in (None, "")`: blank text still counts as a value here. */
  predicate Present(v: Json) {
    v != JNull && v != JStr("")
  }

  /** `campos.get(coluna, {}).get("valor_padrao", "")`. */
  function FallbackDefault(mappings: Mappings, key: string, col: string): Json {
    if key !in mappings then JStr("")
    else match Lookup(mappings[key].fields, col)
      case None => JStr("")
      case Some(def) => if def.default.Some? then def.default.value else JStr("")
  }

  /** `_extrair_valor_prioritario`: the record's own column, then the mapper, then `valor_padrao`, else `""`. */
  function PriorityValue(mappings: Mappings, key: string, record: Record, col: string, decode: string -> Option<Json>): (v: Json)
    ensures col in record && Present(record[col]) ==> v == record[col]
    ensures !(col in record && Present(record[col])) && Present(ObtainValue(mappings, key, col, record, decode)) ==>
      v == ObtainValue(mappings, key, col, record, decode)
    ensures !(col in record && Present(record[col])) && !Present(ObtainValue(mappings, key, col, record, decode)) ==>
      v == FallbackDefault(mappings, key, col)
  {
    if col in record && Present(record[col]) then record[col]
    else
      var m := ObtainValue(mappings, key, col, record, decode);
      if Present(m) then m else FallbackDefault(mappings, key, col)
  }

  /** A whitespace-only column value is kept, unlike in the mapper's own blank test. */
  lemma BlankColumnKept(mappings: Mappings, key: string, record: Record, col: string, decode: string -> Option<Json>)
    requires col in record && record[col].JStr? && record[col].s != [] && IsBlank(record[col].s)
    ensures PriorityValue(mappings, key, record, col, decode) == record[col]
    ensures IsEmptyValue(record[col])
  {
  }

  /** The template's columns as a set: the keys of every row. */
  function ColumnSet(cols: seq<string>): set<string> {
    set c | c in cols
  }

  /** A row holding every column, each resolved by `_extrair_valor_prioritario`. */
  function PriorityRow(mappings: Mappings, key: string, record: Record, cols: seq<string>, decode: string -> Option<Json>): (row: Row)
    ensures row.Keys == ColumnSet(cols)
    ensures forall c | c in cols :: row[c] == PriorityValue(mappings, key, record, c, decode)
  {
    map c | c in cols :: PriorityValue(mappings, key, record, c, decode)
  }

  /**
   * The items an extractor pulls from a record's `json_data`: `extract` returns
   * the extractor's result, or `None` when it raises.
   */
  function ItemsOf(record: Record, extract: Json -> Option<Json>): (items: seq<Json>)
  {
    var j := Get(record, "json_data");
    if !Truthy(j) then []
    else match extract(j)
      case Some(JList(xs)) => xs
      case _ => []
  }

  /** One row per object item, each from the record updated with the item. */
  function ItemRows(mappings: Mappings, key: string, record: Record, items: seq<Json>, cols: seq<string>, decode: string -> Option<Json>): (rows: seq<Row>)
    ensures |rows| == |ObjectItems(items)|
    ensures forall i | 0 <= i < |rows| :: rows[i] == PriorityRow(mappings, key, record + ObjectItems(items)[i].fields, cols, decode)
    decreases |items|
  {
    if items == [] then []
    else
      var rest := ItemRows(mappings, key, record, items[1..], cols, decode);
      var item := items[0];
      if Truthy(item) && item.JObj? then
        var rows := [PriorityRow(mappings, key, record + item.fields, cols, decode)] + rest;
        ObjectItemsCons(items);
        rows
      else rest
  }

  /** The rows `_extrair_array_para_template` makes of one record. */
  function RecordRows(mappings: Mappings, key: string, record: Record, cols: seq<string>, extract: Json -> Option<Json>, decode: string -> Option<Json>): (rows: seq<Row>)
    ensures ItemsOf(record, extract) == [] ==> rows == [PriorityRow(mappings, key, record, cols, decode)]
    ensures var items := ItemsOf(record, extract);
      items != [] ==>
        && |rows| == |ObjectItems(items)|
        && forall i | 0 <= i < |rows| :: rows[i] == PriorityRow(mappings, key, record + ObjectItems(items)[i].fields, cols, decode)
    ensures forall r | r in rows :: r.Keys == ColumnSet(cols)
  {
    var items := ItemsOf(record, extract);
    if items == [] then [PriorityRow(mappings, key, record, cols, decode)]
    else ItemRows(mappings, key, record, items, cols, decode)
  }

  /** `_extrair_array_para_template`: the rows of every record, record after record. */
  function ExpandRecords(mappings: Mappings, key: string, records: seq<Record>, cols: seq<string>, extract: Json -> Option<Json>, decode: string -> Option<Json>): (rows: seq<Row>)
    ensures forall r | r in rows :: r.Keys == ColumnSet(cols)
    decreases |records|
  {
    if records == [] then []
    else RecordRows(mappings, key, records[0], cols, extract, decode) + ExpandRecords(mappings, key, records[1..], cols, extract, decode)
  }

  /** Expansion works record by record: the rows of a concatenation are the concatenated rows. */
  lemma {:induction false} ExpandAppend(mappings: Mappings, key: string, a: seq<Record>, b: seq<Record>, cols: seq<string>, extract: Json -> Option<Json>, decode: string -> Option<Json>)
    ensures ExpandRecords(mappings, key, a + b, cols, extract, decode) ==
      ExpandRecords(mappings, key, a, cols, extract, decode) + ExpandRecords(mappings, key, b, cols, extract, decode)
    decreases |a|
  {
    if a == [] {
      assert a + b == b;
    } else {
      assert (a + b)[0] == a[0];
      assert (a + b)[1..] == a[1..] + b;
      ExpandAppend(mappings, key, a[1..], b, cols, extract, decode);
    }
  }

  /** A leading object item is the first of the object items, and the rest follow it. */
  lemma ObjectItemsCons(items: seq<Json>)
    requires items != [] && Truthy(items[0]) && items[0].JObj?
    ensures ObjectItems(items)[0] == items[0]
    ensures forall i | 1 <= i < |ObjectItems(items)| :: ObjectItems(items)[i] == ObjectItems(items[1..])[i - 1]
  {
    assert ObjectItems(items) == [items[0]] + ObjectItems(items[1..]);
  }

  /** The items that are non-empty objects. */
  function ObjectItems(items: seq<Json>): (objs: seq<Json>)
    ensures |objs| <= |items|
    ensures forall o | o in objs :: o in items && o.JObj? && Truthy(o)
    decreases |items|
  {
    if items == [] then []
    else (if Truthy(items[0]) && items[0].JObj? then [items[0]] else []) + ObjectItems(items[1..])
  }

  /**
   * In a row made from an item, a column the item sets to a present value
   * takes the item's value, whatever the record holds.
   */
  lemma ItemWins(mappings: Mappings, key: string, record: Record, item: map<string, Json>, cols: seq<string>, c: string, decode: string -> Option<Json>)
    requires c in cols && c in item && Present(item[c])
    ensures PriorityRow(mappings, key, record + item, cols, decode)[c] == item[c]
  {
  }

  // ---------------------------------------------------------------------------
  // Row generation
  // ---------------------------------------------------------------------------

  /** The definition `campos.get(coluna, {})` stands for when a column is not declared: no paths, no default. */
  const NoField: FieldDef := FieldDef("", None, [], "string", None, false, [])

  function DefinitionOf(mappings: Mappings, key: string, col: string): FieldDef {
    if key !in mappings then NoField
    else match Lookup(mappings[key].fields, col)
      case None => NoField
      case Some(def) => def
  }

  /** `registro.get("json_data", "{}")`, decoded; text that does not decode gives `{}`. */
  function ParsedJsonData(record: Record, decode: string -> Option<Json>): Json {
    if "json_data" !in record then JObj(map[])
    else
      var j := record["json_data"];
      if j.JStr? then
        match decode(j.s)
        case Some(doc) => doc
        case None => JObj(map[])
      else j
  }

  /**
   * One cell of `_gerar_dados_template`: the mapper's value; when that is
   * `None` or blank, the path chain on the decoded `json_data` (for every
   * field, whatever its origin); `None` becomes `""`.
   */
  function Cell(mappings: Mappings, key: string, record: Record, col: string, decode: string -> Option<Json>): (v: Json)
    ensures v != JNull
    ensures !IsEmptyValue(ObtainValue(mappings, key, col, record, decode)) ==> v == ObtainValue(mappings, key, col, record, decode)
    ensures var alt := ExtractWithAlternatives(ParsedJsonData(record, decode), DefinitionOf(mappings, key, col), decode);
      IsEmptyValue(ObtainValue(mappings, key, col, record, decode)) ==> v == (if alt.JNull? then JStr("") else alt)
  {
    var m := ObtainValue(mappings, key, col, record, decode);
    var w := if IsEmptyValue(m) then ExtractWithAlternatives(ParsedJsonData(record, decode), DefinitionOf(mappings, key, col), decode) else m;
    if w.JNull? then JStr("") else w
  }

  function TemplateRow(mappings: Mappings, key: string, record: Record, cols: seq<string>, decode: string -> Option<Json>): (row: Row)
    ensures row.Keys == ColumnSet(cols)
    ensures forall c | c in cols :: row[c] == Cell(mappings, key, record, c, decode)
  {
    map c | c in cols :: Cell(mappings, key, record, c, decode)
  }

  /**
   * `_gerar_dados_template`: one row per record of the template's query, in
   * order; nothing when the mapping names no query. `fetch` is `exportar_dados`.
   */
  function GenerateRows(mappings: Mappings, name: string, cols: seq<string>, fetch: string -> seq<Record>, decode: string -> Option<Json>): (rows: seq<Row>)
    ensures var key := TemplateKey(name);
      var source := if key in mappings then mappings[key].source else "";
      && (source == "" ==> rows == [])
      && (source != "" ==>
            && |rows| == |fetch(source)|
            && forall i | 0 <= i < |rows| :: rows[i] == TemplateRow(mappings, key, fetch(source)[i], cols, decode))
    ensures forall r | r in rows :: r.Keys == ColumnSet(cols) && forall c | c in cols :: r[c] != JNull
  {
    var key := TemplateKey(name);
    var source := if key in mappings then mappings[key].source else "";
    if source == "" then []
    else
      var data := fetch(source);
      if data == [] then []
      else seq(|data|, i requires 0 <= i < |data| => TemplateRow(mappings, key, data[i], cols, decode))
  }

  /**
   * A column-origin field whose column is empty still reaches its JSON paths:
   * the cell is the path chain's value on the decoded `json_data`.
   */
  lemma ColumnFieldFallsBackToPaths(mappings: Mappings, key: string, record: Record, i: int, decode: string -> Option<Json>)
    requires key in mappings && UniqueNames(mappings[key].fields) && 0 <= i < |mappings[key].fields|
    requires var def := mappings[key].fields[i].1;
      def.origin != "json_data" && IsEmptyValue(Get(record, def.origin))
      && !IsEmptyValue(ExtractWithAlternatives(ParsedJsonData(record, decode), def, decode))
    ensures var (col, def) := mappings[key].fields[i];
      Cell(mappings, key, record, col, decode) == ExtractWithAlternatives(ParsedJsonData(record, decode), def, decode)
  {
    LookupUnique(mappings[key].fields, i);
  }

  // ---------------------------------------------------------------------------
  // Writing
  // ---------------------------------------------------------------------------

  /**
   * `formatar_data_br` on text: cut at the first `T`; ten characters with two
   * `-` that read as a date become `DD/MM/YYYY`; anything else is the cut text.
   */
  function FormatDateBr(s: string): (r: string)
    ensures s == [] ==> r == s
    ensures var t := TakeUntil(s, 'T');
      |t| == 10 && Count(t, '-') == 2 && ParseYmd(t).Some? ==> r == FormatDmy(ParseYmd(t).value)
    ensures var t := TakeUntil(s, 'T');
      !(|t| == 10 && Count(t, '-') == 2 && ParseYmd(t).Some?) ==> r == t
    ensures r != TakeUntil(s, 'T') ==> |r| >= 7 && r[2] == '/' && r[5] == '/'
  {
    if s == [] then s
    else
      var t := TakeUntil(s, 'T');
      if |t| == 10 && Count(t, '-') == 2 then
        match ParseYmd(t)
        case Some(d) => FormatDmy(d)
        case None => t
      else t
  }

  /** An ISO date, alone or followed by `T` and a time, becomes `DD/MM/YYYY`. */
  lemma FormatDateBrIso(d: Date, rest: string)
    requires IsValid(d)
    requires rest == [] || rest[0] == 'T'
    ensures FormatDateBr(FormatIso(d) + rest) == FormatDmy(d)
  {
    var t := FormatIso(d);
    IsoNoT(d);
    TakeUntilPrefix(t, rest, 'T');
    IsoShapeRead(d);
    FormatDateBrOf(t + rest, t, d);
  }

  /** A text whose part before `T` is a well-formed ISO date converts to that date. */
  lemma FormatDateBrOf(s: string, t: string, d: Date)
    requires TakeUntil(s, 'T') == t && |t| == 10 && Count(t, '-') == 2 && ParseYmd(t) == Some(d)
    ensures FormatDateBr(s) == FormatDmy(d)
  {
  }

  /** What the conversion checks of an ISO date: ten characters, two dashes, and a read-back to the date. */
  lemma IsoShapeRead(d: Date)
    requires IsValid(d)
    ensures |FormatIso(d)| == 10 && Count(FormatIso(d), '-') == 2 && ParseYmd(FormatIso(d)) == Some(d)
  {
    ParseFormatIso(d);
  }

  /** Formatting a date twice gives what formatting it once gave. */
  lemma FormatDateBrIdempotent(s: string)
    ensures FormatDateBr(FormatDateBr(s)) == FormatDateBr(s)
  {
    var r := FormatDateBr(s);
    if s != [] {
      var t := TakeUntil(s, 'T');
      if r == t {
        TakeUntilAbsent(t, 'T');
      } else {
        var d := ParseYmd(t).value;
        DmyPieces(d);
        TakeUntilAbsent(r, 'T');
        assert Count(r, '-') == 0;
      }
    }
  }

  /** `re.match(r'^\d{4}-\d{2}-\d{2}', v)`: the text starts with an ISO date shape. */
  predicate StartsWithIsoDate(s: string) {
    |s| >= 10 && IsIsoShape(s[..10])
  }

  /** `^-?\d+\.\d+` without the optional line end. */
  predicate DecimalBody(s: string) {
    var u := if |s| > 0 && s[0] == '-' then s[1..] else s;
    exists k | 0 < k < |u| - 1 :: u[k] == '.' && AllDigits(u[..k]) && AllDigits(u[k + 1..])
  }

  /** `re.match(r'^-?\d+\.\d+$', v)`; `$` also matches before a final newline. */
  predicate IsDecimalText(s: string) {
    DecimalBody(s) || (|s| > 0 && s[|s| - 1] == '\n' && DecimalBody(s[..|s| - 1]))
  }

  /**
   * The value written for one cell: date-like text through `formatar_data_br`,
   * integers, booleans and decimal text through `formatar_numero_br` (the
   * parameter `formatNumber`), anything else as it is.
   */
  function CellOut(v: Json, formatNumber: Json -> string, reprOf: Json -> string): (s: string)
    ensures v == JStr("") ==> s == ""
    ensures v.JNull? ==> s == ""
    ensures v.JStr? && StartsWithIsoDate(v.s) ==> s == FormatDateBr(v.s)
    ensures v.JInt? || v.JBool? || (v.JStr? && !StartsWithIsoDate(v.s) && IsDecimalText(v.s)) ==> s == formatNumber(v)
    ensures v.JStr? && !StartsWithIsoDate(v.s) && !IsDecimalText(v.s) ==> s == v.s
  {
    if v.JStr? && StartsWithIsoDate(v.s) then FormatDateBr(v.s)
    else if v.JInt? || v.JBool? || (v.JStr? && IsDecimalText(v.s)) then formatNumber(v)
    else CellText(v, reprOf)
  }

  /** `_criar_arquivo_vazio`: the header line alone, or an empty file when there are no columns. */
  function EmptyFile(cols: seq<string>): (f: CsvFile)
    ensures cols != [] ==> f == [cols]
    ensures cols == [] ==> f == []
  {
    if cols == [] then [] else [cols]
  }

  /** `_salvar_template_csv`: the header, then each row's cells in column order, a missing key as `""`. */
  function WriteTemplate(cols: seq<string>, rows: seq<Row>, formatNumber: Json -> string, reprOf: Json -> string): (f: CsvFile)
    ensures rows == [] ==> f == EmptyFile(cols)
    ensures rows != [] && cols != [] ==>
      && |f| == |rows| + 1 && f[0] == cols
      && (forall i | 1 <= i < |f| :: |f[i]| == |cols|)
      && (forall i, j | 0 <= i < |rows| && 0 <= j < |cols| ::
            f[i + 1][j] == CellOut(if cols[j] in rows[i] then rows[i][cols[j]] else JStr(""), formatNumber, reprOf))
      && (forall i, j | 0 <= i < |rows| && 0 <= j < |cols| && cols[j] !in rows[i] :: f[i + 1][j] == "")
  {
    if rows == [] then EmptyFile(cols)
    else if cols == [] then []
    else
      [cols] + seq(|rows|, i requires 0 <= i < |rows| =>
        seq(|cols|, j requires 0 <= j < |cols| =>
          CellOut(if cols[j] in rows[i] then rows[i][cols[j]] else JStr(""), formatNumber, reprOf)))
  }

  /** Reading back a written file's first line gives the columns it was written with. */
  lemma HeaderRoundTrip(cols: seq<string>, rows: seq<Row>, config: map<string, seq<string>>, name: string, formatNumber: Json -> string, reprOf: Json -> string)
    requires cols != [] && forall k | 0 <= k < |cols| :: Trimmed(cols[k])
    ensures ReadColumns(Some(WriteTemplate(cols, rows, formatNumber, reprOf)[0]), config, name) == cols
  {
    CleanHeaderKeepsClean(cols);
  }

  // ---------------------------------------------------------------------------
  // The export loop
  // ---------------------------------------------------------------------------

  /**
   * What one template comes to: whether it counts as processed, and the file
   * left for it. `columns` is `_ler_colunas_template`; `fetch` returns `None`
   * when the query raises.
   */
  function TemplateOutcome(mappings: Mappings, name: string, columns: string -> seq<string>, fetch: string -> Option<seq<Record>>,
                           decode: string -> Option<Json>, formatNumber: Json -> string, reprOf: Json -> string): (o: (bool, CsvFile))
    ensures columns(name) == [] ==> o == (false, [])
  {
    var cols := columns(name);
    if cols == [] then (false, EmptyFile([]))
    else
      var key := TemplateKey(name);
      var source := if key in mappings then mappings[key].source else "";
      if source != "" && fetch(source).None? then (false, EmptyFile([]))
      else
        var rows := GenerateRows(mappings, name, cols, s => if fetch(s).Some? then fetch(s).value else [], decode);
        (true, WriteTemplate(cols, rows, formatNumber, reprOf))
  }

  function CountDone(outcomes: seq<(bool, CsvFile)>): (n: nat)
    ensures n <= |outcomes|
  {
    if outcomes == [] then 0
    else CountDone(outcomes[..|outcomes| - 1]) + (if outcomes[|outcomes| - 1].0 then 1 else 0)
  }

  /** The export loop over `names`, in order. */
  method ExportEach(names: seq<string>, mappings: Mappings, columns: string -> seq<string>, fetch: string -> Option<seq<Record>>,
                    decode: string -> Option<Json>, formatNumber: Json -> string, reprOf: Json -> string)
    returns (done: nat, files: seq<(string, CsvFile)>)
    ensures |files| == |names| && done <= |names|
    ensures forall i | 0 <= i < |names| ::
      files[i] == (names[i], TemplateOutcome(mappings, names[i], columns, fetch, decode, formatNumber, reprOf).1)
    ensures done == CountDone(seq(|names|, i requires 0 <= i < |names| =>
      TemplateOutcome(mappings, names[i], columns, fetch, decode, formatNumber, reprOf)))
  {
    var outcomes := seq(|names|, i requires 0 <= i < |names| =>
      TemplateOutcome(mappings, names[i], columns, fetch, decode, formatNumber, reprOf));
    done, files := Collect(names, outcomes);
  }

  /** Pairs each name with its file and counts the completed ones. */
  method Collect(names: seq<string>, outcomes: seq<(bool, CsvFile)>) returns (done: nat, files: seq<(string, CsvFile)>)
    requires |outcomes| == |names|
    ensures |files| == |names| && done <= |names|
    ensures forall i | 0 <= i < |names| :: files[i] == (names[i], outcomes[i].1)
    ensures done == CountDone(outcomes)
  {
    done := 0;
    files := [];
    var i := 0;
    while i < |names|
      invariant 0 <= i <= |names|
      invariant |files| == i
      invariant forall k | 0 <= k < i :: files[k] == (names[k], outcomes[k].1)
      invariant done == CountDone(outcomes[..i])
    {
      var o := outcomes[i];
      assert outcomes[..i + 1][..i] == outcomes[..i];
      if o.0 {
        done := done + 1;
      }
      files := files + [(names[i], o.1)];
      i := i + 1;
    }
    assert outcomes[..i] == outcomes;
  }

  /**
   * `exportar_todos_templates`: every mandatory template in order gets a file,
   * an empty one when it has no columns; the result counts the templates
   * completed, at most nine.
   */
  method ExportAll(mappings: Mappings, columns: string -> seq<string>, fetch: string -> Option<seq<Record>>,
                   decode: string -> Option<Json>, formatNumber: Json -> string, reprOf: Json -> string)
    returns (done: nat, files: seq<(string, CsvFile)>)
    ensures |files| == 9 && done <= 9
    ensures forall i | 0 <= i < 9 ::
      files[i] == (MandatoryTemplates[i], TemplateOutcome(mappings, MandatoryTemplates[i], columns, fetch, decode, formatNumber, reprOf).1)
    ensures forall i | 0 <= i < 9 :: columns(MandatoryTemplates[i]) == [] ==> files[i].1 == []
    ensures done == CountDone(seq(9, i requires 0 <= i < 9 =>
      TemplateOutcome(mappings, MandatoryTemplates[i], columns, fetch, decode, formatNumber, reprOf)))
  {
    done, files := ExportEach(MandatoryTemplates, mappings, columns, fetch, decode, formatNumber, reprOf);
  }

  /** Whether every column is a declared field. */
  method AllDeclared(fields: seq<(string, FieldDef)>, cols: seq<string>) returns (ok: bool)
    ensures ok <==> forall c | c in cols :: Lookup(fields, c).Some?
  {
    ok := true;
    var j := 0;
    while j < |cols|
      invariant 0 <= j <= |cols|
      invariant ok <==> forall k | 0 <= k < j :: Lookup(fields, cols[k]).Some?
    {
      if Lookup(fields, cols[j]).None? {
        ok := false;
      }
      j := j + 1;
    }
  }

  /** The completeness loop over `names`. */
  method CompleteEach(names: seq<string>, mappings: Mappings, columns: string -> seq<string>) returns (ok: bool)
    ensures ok <==> forall i | 0 <= i < |names| :: TemplateComplete(mappings, columns, names[i])
  {
    ok := true;
    var i := 0;
    while i < |names|
      invariant 0 <= i <= |names|
      invariant ok <==> forall k | 0 <= k < i :: TemplateComplete(mappings, columns, names[k])
    {
      var key := TemplateKey(names[i]);
      if key !in mappings {
        ok := false;
      } else {
        var cols := columns(names[i]);
        if cols == [] {
          ok := false;
        } else {
          var declared := AllDeclared(mappings[key].fields, cols);
          if !declared {
            ok := false;
          }
        }
      }
      i := i + 1;
    }
  }

  /**
   * `verificar_mapeamentos_completos`: true exactly when every mandatory
   * template has a mapping, columns, and a declared field for every column.
   */
  method MappingsComplete(mappings: Mappings, columns: string -> seq<string>) returns (ok: bool)
    ensures ok <==> forall i | 0 <= i < 9 :: TemplateComplete(mappings, columns, MandatoryTemplates[i])
  {
    ok := CompleteEach(MandatoryTemplates, mappings, columns);
  }

  /** A template is complete when it has a mapping, columns, and every column is a declared field. */
  predicate TemplateComplete(mappings: Mappings, columns: string -> seq<string>, name: string) {
    var key := TemplateKey(name);
    && key in mappings
    && columns(name) != []
    && forall c | c in columns(name) :: Lookup(mappings[key].fields, c).Some?
  }
}
