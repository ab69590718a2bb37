/**
 * Field resolution of `MapeadorCamposEmpresa`: how a template column finds its
 * value in a database record or in the record's decoded `json_data`, how it is
 * formatted, and the record filters and dependent extraction built on the same
 * path walk. The mapping tables are inputs; decoding JSON text, Python's `repr`
 * of containers, the decimal formatting and `datetime.fromisoformat` are
 * parameters.
 */
module FieldMapper {
  import opened Common
  import opened Calendar
  import opened JsonValue

  /** A calendar date that `datetime` can hold. */
  type ValidDate = d: Date | IsValid(d) witness Date(1, 1, 1)

  /**
   * One field definition of a template: where its value comes from (`origem`),
   * the primary JSON path (`caminho_json`, when given), the alternative paths,
   * its type (`tipo`, `"string"` when absent), `valor_padrao` (when given),
   * `obrigatorio` and `valores_validos` (empty when absent).
   */
  datatype FieldDef = FieldDef(
    origin: string,
    path: Option<seq<Key>>,
    alternatives: seq<seq<Key>>,
    fieldType: string,
    default: Option<Json>,
    required: bool,
    validValues: seq<string>)

  /** The two filters a template may declare (`dias_afastamento`, `tipo_afastamento`). */
  datatype Filters = Filters(days: Option<int>, leaveType: Option<string>)

  /**
   * A template's mapping: the query that feeds it (`fonte_principal`, `""` when
   * absent), its fields in declaration order, and its filters.
   */
  datatype TemplateMapping = TemplateMapping(source: string, fields: seq<(string, FieldDef)>, filters: Filters)

  type Mappings = map<string, TemplateMapping>

  /** A dictionary's keys are unique. */
  predicate UniqueNames(fields: seq<(string, FieldDef)>) {
    forall i, j | 0 <= i < j < |fields| :: fields[i].0 != fields[j].0
  }

  /** `campos[campo]`, or `None` when the field is not declared. */
  function Lookup(fields: seq<(string, FieldDef)>, name: string): (r: Option<FieldDef>)
    ensures r.None? <==> forall i | 0 <= i < |fields| :: fields[i].0 != name
    ensures r.Some? ==> exists i | 0 <= i < |fields| :: fields[i] == (name, r.value)
  {
    if fields == [] then None
    else if fields[0].0 == name then Some(fields[0].1)
    else
      var r := Lookup(fields[1..], name);
      assert r.Some? ==> exists i | 0 <= i < |fields[1..]| :: fields[1..][i] == (name, r.value);
      assert forall i | 0 <= i < |fields[1..]| :: fields[1..][i] == fields[i + 1];
      r
  }

  /** In a dictionary the declared field at position `i` is what lookup finds. */
  lemma LookupUnique(fields: seq<(string, FieldDef)>, i: int)
    requires UniqueNames(fields) && 0 <= i < |fields|
    ensures Lookup(fields, fields[i].0) == Some(fields[i].1)
  {
    var r := Lookup(fields, fields[i].0);
    var j :| 0 <= j < |fields| && fields[j] == (fields[i].0, r.value);
    assert j == i;
  }

  // ---------------------------------------------------------------------------
  // Path walk
  // ---------------------------------------------------------------------------

  /**
   * The loop of `_extrair_valor_json`: descend one key at a time, and only
   * through objects. A decoded JSON object has text keys only, so an integer
   * step never finds its key.
   */
  function Walk(doc: Json, path: seq<Key>): (r: Option<Json>)
    ensures path == [] ==> r == Some(doc)
    ensures path != [] && !doc.JObj? ==> r.None?
    ensures r.Some? ==> forall i | 0 <= i < |path| :: path[i].KS?
    decreases |path|
  {
    if path == [] then Some(doc)
    else match path[0]
      case KS(k) => if doc.JObj? && k in doc.fields then Walk(doc.fields[k], path[1..]) else None
      case KI(_) => None
  }

  /** The value of a single-entry object. */
  function OnlyValue(f: map<string, Json>): (v: Json)
    requires |f| == 1
    ensures exists k | k in f :: f[k] == v
  {
    var k :| k in f;
    SingleKey(f, k);
    f[k]
  }

  lemma SingleKey(f: map<string, Json>, k: string)
    requires |f| == 1 && k in f
    ensures f.Keys == {k}
  {
    var rest := f.Keys - {k};
    assert |f.Keys| == |rest| + 1;
  }

  /**
   * What the walk hands back at the end of the path: an object yields its
   * `_text`, or its only value, or nothing; anything else is returned as is.
   */
  function Unwrap(v: Json): (r: Json)
    ensures !v.JObj? ==> r == v
    ensures v.JObj? && "_text" in v.fields ==> r == v.fields["_text"]
    ensures v.JObj? && "_text" !in v.fields && |v.fields| != 1 ==> r == JNull
    ensures v.JObj? && "_text" !in v.fields && |v.fields| == 1 ==> r in v.fields.Values
  {
    match v
    case JObj(f) => if "_text" in f then f["_text"] else if |f| == 1 then OnlyValue(f) else JNull
    case _ => v
  }

  /** `json.loads(json_data) if isinstance(json_data, str) else json_data`. */
  function Document(data: Json, decode: string -> Option<Json>): Option<Json> {
    if data.JStr? then decode(data.s) else Some(data)
  }

  /**
   * `_extrair_valor_json`: `None` for falsy data, an empty path, text that does
   * not decode, or a path that leaves the objects; otherwise the unwrapped end.
   */
  function ExtractValue(data: Json, path: seq<Key>, decode: string -> Option<Json>): (r: Json)
    ensures !Truthy(data) || path == [] ==> r == JNull
    ensures Truthy(data) && path != [] && Document(data, decode).Some? && Walk(Document(data, decode).value, path).Some? ==>
      r == Unwrap(Walk(Document(data, decode).value, path).value)
    ensures Truthy(data) && path != [] && Document(data, decode).Some? && Walk(Document(data, decode).value, path).None? ==>
      r == JNull
    ensures Document(data, decode).None? ==> r == JNull
  {
    if !Truthy(data) || path == [] then JNull
    else match Document(data, decode)
      case None => JNull
      case Some(doc) =>
        match Walk(doc, path)
        case None => JNull
        case Some(v) => Unwrap(v)
  }

  /** Walking two paths one after the other is walking their concatenation. */
  lemma {:induction false} WalkAppend(doc: Json, p: seq<Key>, q: seq<Key>)
    ensures Walk(doc, p + q) == match Walk(doc, p) case None => None case Some(v) => Walk(v, q)
    decreases |p|
  {
    if p == [] {
      assert p + q == q;
    } else {
      assert (p + q)[0] == p[0] && (p + q)[1..] == p[1..] + q;
      if p[0].KS? && doc.JObj? && p[0].name in doc.fields {
        WalkAppend(doc.fields[p[0].name], p[1..], q);
      }
    }
  }

  /**
   * A walk whose step `i` is not a key of the object reached so far (a missing
   * key, a value that is not an object, or an integer step) finds nothing.
   */
  lemma WalkStops(doc: Json, path: seq<Key>, i: nat)
    requires i < |path| && Walk(doc, path[..i]).Some?
    requires var v := Walk(doc, path[..i]).value; !(path[i].KS? && v.JObj? && path[i].name in v.fields)
    ensures Walk(doc, path) == None
  {
    var v := Walk(doc, path[..i]).value;
    assert path == path[..i] + path[i..];
    WalkAppend(doc, path[..i], path[i..]);
    assert path[i..][0] == path[i];
  }

  /** So `_extrair_valor_json` gives `None` for such a path. */
  lemma ExtractValueStops(data: Json, path: seq<Key>, i: nat, decode: string -> Option<Json>)
    requires Truthy(data) && Document(data, decode).Some?
    requires i < |path| && Walk(Document(data, decode).value, path[..i]).Some?
    requires var v := Walk(Document(data, decode).value, path[..i]).value;
      !(path[i].KS? && v.JObj? && path[i].name in v.fields)
    ensures ExtractValue(data, path, decode) == JNull
  {
    WalkStops(Document(data, decode).value, path, i);
  }

  /** A walk that meets an integer step finds nothing. */
  lemma {:induction false} WalkIntegerStep(doc: Json, path: seq<Key>, i: int)
    requires 0 <= i < |path| && path[i].KI?
    ensures Walk(doc, path) == None
    decreases |path|
  {
    if i > 0 && path[0].KS? && doc.JObj? && path[0].name in doc.fields {
      WalkIntegerStep(doc.fields[path[0].name], path[1..], i - 1);
    }
  }

  /** A path holding an integer index never resolves, whatever the data. */
  lemma IntegerIndexNeverResolves(data: Json, path: seq<Key>, i: int, decode: string -> Option<Json>)
    requires 0 <= i < |path| && path[i].KI?
    ensures ExtractValue(data, path, decode) == JNull
  {
    if Truthy(data) && Document(data, decode).Some? {
      WalkIntegerStep(Document(data, decode).value, path, i);
    }
  }

  /** The objects `{k0: {k1: ... v}}` that hold `v` under the keys `ks`. */
  function Nest(ks: seq<string>, v: Json): (r: Json)
    ensures ks != [] ==> r.JObj? && r.fields.Keys == {ks[0]}
  {
    if ks == [] then v else JObj(map[ks[0] := Nest(ks[1..], v)])
  }

  function TextPath(ks: seq<string>): (p: seq<Key>)
    ensures |p| == |ks| && forall i | 0 <= i < |ks| :: p[i] == KS(ks[i])
  {
    seq(|ks|, i requires 0 <= i < |ks| => KS(ks[i]))
  }

  /** The walk along `ks` reaches what `Nest` put there. */
  lemma {:induction false} WalkNest(ks: seq<string>, v: Json)
    ensures Walk(Nest(ks, v), TextPath(ks)) == Some(v)
    decreases |ks|
  {
    if ks != [] {
      assert TextPath(ks)[1..] == TextPath(ks[1..]);
      WalkNest(ks[1..], v);
    }
  }

  /**
   * Round trip with the XML dictionaries: a leaf `{"_text": s}` nested under the
   * keys `ks` is found again as `s` by the path `ks`.
   */
  lemma ExtractNestedText(ks: seq<string>, s: string, decode: string -> Option<Json>)
    requires ks != []
    ensures ExtractValue(Nest(ks, JObj(map["_text" := JStr(s)])), TextPath(ks), decode) == JStr(s)
  {
    WalkNest(ks, JObj(map["_text" := JStr(s)]));
  }

  // ---------------------------------------------------------------------------
  // Fallback chain and field values
  // ---------------------------------------------------------------------------

  /** `caminho_json` (when present) followed by `caminho_json_alternativos`. */
  function Candidates(def: FieldDef): (paths: seq<seq<Key>>)
    ensures |paths| == |def.alternatives| + (if def.path.Some? then 1 else 0)
    ensures def.path.Some? ==> paths[0] == def.path.value && paths[1..] == def.alternatives
    ensures def.path.None? ==> paths == def.alternatives
  {
    (if def.path.Some? then [def.path.value] else []) + def.alternatives
  }

  /** The first value among `paths` that is neither `None` nor blank, else `dflt`. */
  function FirstUsable(data: Json, paths: seq<seq<Key>>, dflt: Json, decode: string -> Option<Json>): (r: Json)
    ensures (forall i | 0 <= i < |paths| :: IsEmptyValue(ExtractValue(data, paths[i], decode))) ==> r == dflt
    ensures forall i | 0 <= i < |paths| ::
      !IsEmptyValue(ExtractValue(data, paths[i], decode)) &&
      (forall j | 0 <= j < i :: IsEmptyValue(ExtractValue(data, paths[j], decode)))
      ==> r == ExtractValue(data, paths[i], decode)
    decreases |paths|
  {
    if paths == [] then dflt
    else
      var v := ExtractValue(data, paths[0], decode);
      if !IsEmptyValue(v) then v
      else
        var r := FirstUsable(data, paths[1..], dflt, decode);
        assert forall i | 1 <= i < |paths| :: paths[1..][i - 1] == paths[i];
        r
  }

  /** `definicao_campo.get("valor_padrao", None)`. */
  function DefaultOf(def: FieldDef): Json {
    if def.default.Some? then def.default.value else JNull
  }

  /** `_extrair_valor_json_com_alternativos`. */
  function ExtractWithAlternatives(data: Json, def: FieldDef, decode: string -> Option<Json>): (r: Json)
    ensures def.path.Some? && !IsEmptyValue(ExtractValue(data, def.path.value, decode)) ==>
      r == ExtractValue(data, def.path.value, decode)
    ensures (forall p | p in Candidates(def) :: IsEmptyValue(ExtractValue(data, p, decode))) ==> r == DefaultOf(def)
  {
    var paths := Candidates(def);
    var r := FirstUsable(data, paths, DefaultOf(def), decode);
    assert def.path.Some? ==> paths[0] == def.path.value;
    r
  }

  /**
   * `obter_valor_campo` once the field is found: a `json_data` field runs the
   * fallback chain on the record's `json_data`; any other origin is the column
   * of that name.
   */
  function FieldValue(def: FieldDef, record: Record, decode: string -> Option<Json>): (r: Json)
    ensures def.origin != "json_data" ==> r == Get(record, def.origin)
  {
    if def.origin == "json_data" then ExtractWithAlternatives(Get(record, "json_data"), def, decode)
    else Get(record, def.origin)
  }

  /** A column-origin field ignores its paths and its default. */
  lemma ColumnOriginIgnoresPaths(def: FieldDef, record: Record, path: Option<seq<Key>>, alts: seq<seq<Key>>, dflt: Option<Json>, decode: string -> Option<Json>)
    requires def.origin != "json_data"
    ensures FieldValue(def.(path := path, alternatives := alts, default := dflt), record, decode) == FieldValue(def, record, decode)
  {
  }

  /** A record without usable `json_data` gives every `json_data` field its default. */
  lemma MissingJsonGivesDefault(def: FieldDef, record: Record, decode: string -> Option<Json>)
    requires def.origin == "json_data" && !Truthy(Get(record, "json_data"))
    ensures FieldValue(def, record, decode) == DefaultOf(def)
  {
  }

  /** `obter_valor_campo`: `None` for an unknown template or field. */
  function ObtainValue(mappings: Mappings, template: string, field: string, record: Record, decode: string -> Option<Json>): (r: Json)
    ensures template !in mappings ==> r == JNull
    ensures template in mappings && Lookup(mappings[template].fields, field).None? ==> r == JNull
  {
    if template !in mappings then JNull
    else match Lookup(mappings[template].fields, field)
      case None => JNull
      case Some(def) => FieldValue(def, record, decode)
  }

  // ---------------------------------------------------------------------------
  // Required fields and valid values
  // ---------------------------------------------------------------------------

  /** The loop of `validar_campos_obrigatorios` over `fields`. */
  function MissingIn(mappings: Mappings, template: string, fields: seq<(string, FieldDef)>, record: Record, decode: string -> Option<Json>): (r: seq<string>)
    ensures |r| <= |fields|
    ensures forall n | n in r :: exists i | 0 <= i < |fields| :: fields[i].0 == n && fields[i].1.required
    decreases |fields|
  {
    if fields == [] then []
    else
      var rest := MissingIn(mappings, template, fields[1..], record, decode);
      assert forall n | n in rest :: exists i | 0 <= i < |fields[1..]| :: fields[1..][i].0 == n && fields[1..][i].1.required;
      if fields[0].1.required && IsEmptyValue(ObtainValue(mappings, template, fields[0].0, record, decode))
      then [fields[0].0] + rest else rest
  }

  /** `validar_campos_obrigatorios`: the required fields whose value is missing or blank. */
  function MissingRequired(mappings: Mappings, template: string, record: Record, decode: string -> Option<Json>): (r: seq<string>)
    ensures template !in mappings ==> r == []
  {
    if template !in mappings then [] else MissingIn(mappings, template, mappings[template].fields, record, decode)
  }

  lemma {:induction false} MissingInIff(mappings: Mappings, template: string, k: nat, record: Record, decode: string -> Option<Json>, name: string)
    requires template in mappings
    requires UniqueNames(mappings[template].fields) && k <= |mappings[template].fields|
    ensures var fields := mappings[template].fields;
      name in MissingIn(mappings, template, fields[k..], record, decode) <==>
      exists i | k <= i < |fields| :: fields[i].0 == name && fields[i].1.required && IsEmptyValue(FieldValue(fields[i].1, record, decode))
    decreases |mappings[template].fields| - k
  {
    var fields := mappings[template].fields;
    if k < |fields| {
      assert fields[k..][1..] == fields[k + 1..];
      LookupUnique(fields, k);
      MissingInIff(mappings, template, k + 1, record, decode, name);
      var rest := MissingIn(mappings, template, fields[k + 1..], record, decode);
      var hit := fields[k].1.required && IsEmptyValue(FieldValue(fields[k].1, record, decode));
      assert MissingIn(mappings, template, fields[k..], record, decode) == if hit then [fields[k].0] + rest else rest;
    }
  }

  /**
   * A field is reported missing exactly when it is declared required and its
   * resolved value is `None` or blank.
   */
  lemma MissingRequiredIff(mappings: Mappings, template: string, record: Record, decode: string -> Option<Json>, name: string)
    requires template in mappings && UniqueNames(mappings[template].fields)
    ensures var fields := mappings[template].fields;
      name in MissingRequired(mappings, template, record, decode) <==>
      exists i | 0 <= i < |fields| :: fields[i].0 == name && fields[i].1.required && IsEmptyValue(FieldValue(fields[i].1, record, decode))
  {
    assert mappings[template].fields[0..] == mappings[template].fields;
    MissingInIff(mappings, template, 0, record, decode, name);
  }

  /** Missing fields are reported in the order the mapping declares them. */
  lemma {:induction false} MissingInOrder(mappings: Mappings, template: string, k: nat, record: Record, decode: string -> Option<Json>, i: nat, j: nat)
    requires template in mappings
    requires var fields := mappings[template].fields;
      && UniqueNames(fields) && k <= i < j < |fields|
      && fields[i].1.required && IsEmptyValue(FieldValue(fields[i].1, record, decode))
      && fields[j].1.required && IsEmptyValue(FieldValue(fields[j].1, record, decode))
    ensures var fields := mappings[template].fields;
      var r := MissingIn(mappings, template, fields[k..], record, decode);
      exists a, b | 0 <= a < b < |r| :: r[a] == fields[i].0 && r[b] == fields[j].0
    decreases |mappings[template].fields| - k
  {
    var fields := mappings[template].fields;
    var rest := MissingIn(mappings, template, fields[k + 1..], record, decode);
    var r := MissingIn(mappings, template, fields[k..], record, decode);
    MissingInStep(mappings, template, k, record, decode);
    var hit := fields[k].1.required && IsEmptyValue(FieldValue(fields[k].1, record, decode));
    if i == k {
      MissingInIff(mappings, template, k + 1, record, decode, fields[j].0);
      OrderHead(r, rest, fields[i].0, fields[j].0);
    } else {
      MissingInOrder(mappings, template, k + 1, record, decode, i, j);
      OrderTail(r, rest, fields[k].0, hit, fields[i].0, fields[j].0);
    }
  }

  /** A name reported first comes before every name reported after it. */
  lemma OrderHead(r: seq<string>, rest: seq<string>, x: string, y: string)
    requires r == [x] + rest && y in rest
    ensures exists a, b | 0 <= a < b < |r| :: r[a] == x && r[b] == y
  {
    var b :| 0 <= b < |rest| && rest[b] == y;
    assert r[0] == x && r[b + 1] == y;
  }

  /** Putting a name, or nothing, in front of a list keeps the order of what follows. */
  lemma OrderTail(r: seq<string>, rest: seq<string>, x: string, hit: bool, u: string, w: string)
    requires hit ==> r == [x] + rest
    requires !hit ==> r == rest
    requires exists a, b | 0 <= a < b < |rest| :: rest[a] == u && rest[b] == w
    ensures exists a, b | 0 <= a < b < |r| :: r[a] == u && r[b] == w
  {
    var a, b :| 0 <= a < b < |rest| && rest[a] == u && rest[b] == w;
    if hit {
      assert r[a + 1] == u && r[b + 1] == w;
    }
  }

  /** One step of the loop: field `k` is reported, or not, ahead of the rest. */
  lemma MissingInStep(mappings: Mappings, template: string, k: nat, record: Record, decode: string -> Option<Json>)
    requires template in mappings
    requires UniqueNames(mappings[template].fields) && k < |mappings[template].fields|
    ensures var fields := mappings[template].fields;
      var rest := MissingIn(mappings, template, fields[k + 1..], record, decode);
      var hit := fields[k].1.required && IsEmptyValue(FieldValue(fields[k].1, record, decode));
      && (hit ==> MissingIn(mappings, template, fields[k..], record, decode) == [fields[k].0] + rest)
      && (!hit ==> MissingIn(mappings, template, fields[k..], record, decode) == rest)
  {
    var fields := mappings[template].fields;
    assert fields[k..][1..] == fields[k + 1..];
    LookupUnique(fields, k);
  }

  /**
   * The report follows the mapping's order: of two missing fields, the one
   * declared first is listed first.
   */
  lemma MissingRequiredOrder(mappings: Mappings, template: string, record: Record, decode: string -> Option<Json>, i: nat, j: nat)
    requires template in mappings
    requires var fields := mappings[template].fields;
      && UniqueNames(fields) && i < j < |fields|
      && fields[i].1.required && IsEmptyValue(FieldValue(fields[i].1, record, decode))
      && fields[j].1.required && IsEmptyValue(FieldValue(fields[j].1, record, decode))
    ensures var fields := mappings[template].fields;
      var r := MissingRequired(mappings, template, record, decode);
      exists a, b | 0 <= a < b < |r| :: r[a] == fields[i].0 && r[b] == fields[j].0
  {
    assert mappings[template].fields[0..] == mappings[template].fields;
    assert MissingRequired(mappings, template, record, decode)
      == MissingIn(mappings, template, mappings[template].fields[0..], record, decode);
    MissingInOrder(mappings, template, 0, record, decode, i, j);
  }

  /** `validar_valores_validos`: `str(valor)` must be listed when a list is given and the value is not `None`. */
  function ValidValue(mappings: Mappings, template: string, field: string, v: Json, reprOf: Json -> string): (ok: bool)
    ensures v.JNull? ==> ok
    ensures !ok ==> template in mappings && Lookup(mappings[template].fields, field).Some?
  {
    if template !in mappings then true
    else match Lookup(mappings[template].fields, field)
      case None => true
      case Some(def) => if def.validValues != [] && !v.JNull? then PyStr(v, reprOf) in def.validValues else true
  }

  /**
   * A declared field with a list of valid values accepts a value exactly when
   * its text is listed; without a list it accepts everything.
   */
  lemma ValidValueIff(mappings: Mappings, template: string, i: int, v: Json, reprOf: Json -> string)
    requires template in mappings && UniqueNames(mappings[template].fields)
    requires 0 <= i < |mappings[template].fields| && !v.JNull?
    ensures var (name, def) := mappings[template].fields[i];
      ValidValue(mappings, template, name, v, reprOf) <==> def.validValues == [] || PyStr(v, reprOf) in def.validValues
  {
    LookupUnique(mappings[template].fields, i);
  }

  // ---------------------------------------------------------------------------
  // Formatting
  // ---------------------------------------------------------------------------

  /**
   * The input formats of the `data` branch, tried in order: `%Y-%m-%d`, then
   * `%d/%m/%Y`, then `%Y-%m-%dT%H:%M:%S`.
   */
  function ParseDataInput(t: string): (r: Option<Date>)
    ensures r.Some? ==> IsValid(r.value)
    ensures ParseYmd(t).Some? ==> r == ParseYmd(t)
    ensures ParseYmd(t).None? && ParseDmy(t).Some? ==> r == ParseDmy(t)
    ensures ParseYmd(t).None? && ParseDmy(t).None? ==> r == ParseYmdTHms(t)
  {
    match ParseYmd(t)
    case Some(d) => Some(d)
    case None =>
      match ParseDmy(t)
      case Some(d) => Some(d)
      case None => ParseYmdTHms(t)
  }

  /**
   * The `data` branch of `formatar_valor`: the text before the first `T` is read
   * by the first input format that accepts it and written as `%d/%m/%Y`;
   * otherwise the value is unchanged.
   */
  function FormatData(v: Json): (r: Json)
    ensures !v.JStr? || v.s == [] ==> r == v
    ensures v.JStr? ==> r.JStr?
    ensures v.JStr? && ParseDataInput(TakeUntil(v.s, 'T')).None? ==> r == v
    ensures v.JStr? && v.s != [] && ParseDataInput(TakeUntil(v.s, 'T')).Some? ==>
      r == JStr(FormatDmy(ParseDataInput(TakeUntil(v.s, 'T')).value))
  {
    if v.JStr? && v.s != [] then
      match ParseDataInput(TakeUntil(v.s, 'T'))
      case Some(d) => JStr(FormatDmy(d))
      case None => v
    else v
  }

  /**
   * After the cut at the first `T`, the third input format can only match a
   * lower-case `t` separator.
   */
  lemma ThirdFormatNeedsLowerT(s: string)
    ensures ParseYmdTHms(TakeUntil(s, 'T')).Some? ==> HasChar(TakeUntil(s, 'T'), 't')
  {
  }

  /** A month 13 is no date in any input format, so the text is kept as it is. */
  lemma FormatDataKeepsMonth13()
    ensures FormatData(JStr("2024-13-01")) == JStr("2024-13-01")
  {
    var t := "2024-13-01";
    Month13Text(t);
    TakeUntilAbsent(t, 'T');
    NoDmyWithoutSlash(t);
    ThirdFormatNeedsLowerT(t);
    assert ParseDataInput(TakeUntil(t, 'T')).None?;
  }

  /** The pieces of `2024-13-01`: no `T`, `t` or `/`, and no `%Y-%m-%d` date. */
  lemma Month13Text(t: string)
    requires t == "2024-13-01"
    ensures !HasChar(t, 'T') && !HasChar(t, 't') && !HasChar(t, '/')
    ensures ParseYmd(t).None?
  {
    var y, m, d := "2024", "13", "01";
    assert t == y + ['-'] + m + ['-'] + d;
    DigitsJoinHasNo(y, m, d, 'T');
    DigitsJoinHasNo(y, m, d, 't');
    DigitsJoinHasNo(y, m, d, '/');
    SplitYmd(y, m, d);
    assert m[..1] == "1" && m[..1][..0] == [];
    assert DigitsValue(m) == 13;
  }

  /** Digits joined by `-` hold no other non-digit. */
  lemma DigitsJoinHasNo(y: string, m: string, d: string, c: char)
    requires AllDigits(y) && AllDigits(m) && AllDigits(d) && !IsDigit(c) && c != '-'
    ensures !HasChar(y + ['-'] + m + ['-'] + d, c)
  {
    DigitsHaveNo(y, c);
    DigitsHaveNo(m, c);
    DigitsHaveNo(d, c);
    NoCharJoin3(y, m, d, '-', c);
  }

  /** A timestamp written with a lower-case `t` is still read by the third input format. */
  lemma FormatDataLowerT(d: Date, h: nat, m: nat, sec: nat)
    requires IsValid(d) && h <= 23 && m <= 59 && sec <= 59
    ensures FormatData(JStr(FormatIso(d) + "t" + Clock(h, m, sec))) == JStr(FormatDmy(d))
  {
    IsoNoT(d);
    ClockPlain(h, m, sec);
    ParseFormatIso(d);
    LowerTRead(FormatIso(d), Clock(h, m, sec), d);
  }

  /** The three input formats on a date and a clock joined by `t`: only the third reads it. */
  lemma LowerTRead(iso: string, clock: string, d: Date)
    requires IsIsoShape(iso) && ParseYmd(iso) == Some(d) && IsClock(clock)
    requires !HasChar(iso, 'T') && !HasChar(clock, 'T') && !HasChar(iso, 't') && !HasChar(clock, 't')
    requires !HasChar(iso, '/') && !HasChar(clock, '/') && !HasChar(clock, '-')
    ensures FormatData(JStr(iso + "t" + clock)) == JStr(FormatDmy(d))
  {
    var x := iso + "t" + clock;
    assert !HasChar(x, 'T') by {
      assert x == iso + ['t'] + clock;
      NoCharJoin(iso, clock, 't', 'T');
    }
    assert ParseYmd(x) == None by {
      assert x == iso + ("t" + clock);
      NoCharConcat("t", clock, '-');
      NoYmdAfterT(iso, "t" + clock);
    }
    assert ParseDmy(x) == None by {
      assert x == iso + ['t'] + clock;
      NoCharJoin(iso, clock, 't', '/');
      NoDmyWithoutSlash(x);
    }
    ThirdFormatReads(iso, clock, d);
    ReadByThird(x, d);
  }

  /** Text without `T` that only the third input format reads comes out as `DD/MM/YYYY`. */
  lemma ReadByThird(x: string, d: Date)
    requires !HasChar(x, 'T') && ParseYmd(x) == None && ParseDmy(x) == None && ParseYmdTHms(x) == Some(d)
    ensures FormatData(JStr(x)) == JStr(FormatDmy(d))
  {
    TakeUntilAbsent(x, 'T');
  }

  /** The third input format splits at the `t` and reads both halves. */
  lemma ThirdFormatReads(iso: string, clock: string, d: Date)
    requires ParseYmd(iso) == Some(d) && IsClock(clock)
    requires !HasChar(iso, 'T') && !HasChar(clock, 'T') && !HasChar(iso, 't') && !HasChar(clock, 't')
    ensures ParseYmdTHms(iso + "t" + clock) == Some(d)
  {
    var x := iso + "t" + clock;
    assert x == iso + ['t'] + clock;
    NoCharJoin(iso, clock, 't', 'T');
    assert FoldT(x) == x;
    SplitJoin(iso, 't', clock);
    SplitPlain(clock, 't');
  }

  /** The second input format needs two `/`. */
  lemma NoDmyWithoutSlash(x: string)
    requires !HasChar(x, '/')
    ensures ParseDmy(x) == None
  {
    SplitPlain(x, '/');
  }

  /** The first input format refuses a timestamp: its day field runs on into the time. */
  lemma NoYmdAfterT(iso: string, rest: string)
    requires IsIsoShape(iso) && rest != [] && !HasChar(rest, '-')
    ensures ParseYmd(iso + rest) == None
  {
    var y, mm, dd := iso[..4], iso[5..7], iso[8..];
    assert iso + rest == y + ['-'] + mm + ['-'] + (dd + rest);
    DigitsHaveNo(y, '-');
    DigitsHaveNo(mm, '-');
    DigitsHaveNo(dd, '-');
    NoCharConcat(dd, rest, '-');
    SplitThree(y, mm, dd + rest, '-');
  }

  /**
   * The `datetime` branch: text with a `T` goes through `fromisoformat` after
   * `Z` becomes `+00:00`, other text through `%Y-%m-%d %H:%M:%S`; the date is
   * written as `%d/%m/%Y` and the time of day dropped.
   */
  function FormatDatetime(v: Json, fromIso: string -> Option<ValidDate>): (r: Json)
    ensures !v.JStr? || v.s == [] ==> r == v
    ensures v.JStr? && v.s != [] && !HasChar(v.s, 'T') ==>
      r == match ParseYmdHms(v.s) case Some(d) => JStr(FormatDmy(d)) case None => v
    ensures v.JStr? && HasChar(v.s, 'T') ==>
      r == match fromIso(ReplaceAll(v.s, "Z", "+00:00")) case Some(d) => JStr(FormatDmy(d)) case None => v
  {
    if v.JStr? && v.s != [] then
      var parsed := if HasChar(v.s, 'T') then fromIso(ReplaceAll(v.s, "Z", "+00:00")) else ParseYmdHms(v.s);
      match parsed
      case Some(d) => JStr(FormatDmy(d))
      case None => v
    else v
  }

  /** `formatar_valor`; the decimal branch is the parameter `decimal`. */
  function FormatValue(v: Json, def: FieldDef, reprOf: Json -> string, decimal: Json -> Json, fromIso: string -> Option<ValidDate>): (r: Json)
    ensures v.JNull? ==> r == JNull
    ensures !v.JNull? && def.fieldType == "string" ==> r == JStr(PyStr(v, reprOf))
    ensures !v.JNull? && def.fieldType == "decimal" ==> r == decimal(v)
    ensures !v.JNull? && def.fieldType == "data" ==> r == FormatData(v)
    ensures !v.JNull? && def.fieldType == "datetime" ==> r == FormatDatetime(v, fromIso)
    ensures def.fieldType !in {"string", "decimal", "data", "datetime"} ==> r == v
  {
    if v.JNull? then JNull
    else if def.fieldType == "string" then JStr(PyStr(v, reprOf))
    else if def.fieldType == "decimal" then decimal(v)
    else if def.fieldType == "data" then FormatData(v)
    else if def.fieldType == "datetime" then FormatDatetime(v, fromIso)
    else v
  }

  /** Text without the character is its own first piece. */
  lemma TakeUntilAbsent(s: string, c: char)
    requires !HasChar(s, c)
    ensures TakeUntil(s, c) == s
  {
  }

  /** Text written by the `data` branch is read back to itself. */
  lemma FormatDmyStable(d: Date)
    requires IsValid(d)
    ensures FormatData(JStr(FormatDmy(d))) == JStr(FormatDmy(d))
  {
    var s := FormatDmy(d);
    DmyPieces(d);
    TakeUntilAbsent(s, 'T');
    if d.year >= 1000 {
      ParseFormatDmy(d);
    } else {
      NatToStringLength(d.year, 3);
      SplitThree(Pad2(d.day), Pad2(d.month), NatToString(d.year), '/');
      assert YearField(NatToString(d.year)) == None;
    }
  }

  /** Formatting a date field twice gives what formatting it once gave. */
  lemma FormatDataIdempotent(v: Json)
    ensures FormatData(FormatData(v)) == FormatData(v)
  {
    if v.JStr? && v.s != [] {
      match ParseDataInput(TakeUntil(v.s, 'T'))
      case Some(d) => FormatDmyStable(d);
      case None =>
    }
  }

  /** An ISO date, with or without a time after `T`, comes out as `DD/MM/YYYY`. */
  lemma FormatDataIso(d: Date, rest: string)
    requires IsValid(d)
    ensures FormatData(JStr(FormatIso(d) + rest)) == JStr(FormatDmy(d))
      || (|rest| > 0 && rest[0] != 'T')
  {
    if rest == [] || rest[0] == 'T' {
      IsoNoT(d);
      TakeUntilPrefix(FormatIso(d), rest, 'T');
      ParseFormatIso(d);
    }
  }

  lemma IsoNoT(d: Date)
    requires IsValid(d)
    ensures !HasChar(FormatIso(d), 'T') && !HasChar(FormatIso(d), 't') && !HasChar(FormatIso(d), '/')
    ensures forall i | 0 <= i < |FormatIso(d)| :: !IsSpace(FormatIso(d)[i])
  {
    IsoChars(d);
    PlainText(FormatIso(d), '-');
  }

  /** Digits and a separator other than a letter, `/` or a space. */
  lemma PlainText(s: string, c: char)
    requires DigitsOr(s, c) && c in "-:"
    ensures !HasChar(s, 'T') && !HasChar(s, 't') && !HasChar(s, '/')
    ensures forall i | 0 <= i < |s| :: !IsSpace(s[i])
  {
    DigitsOrLacks(s, c, 'T');
    DigitsOrLacks(s, c, 't');
    DigitsOrLacks(s, c, '/');
    DigitsOrNoSpace(s, c);
  }

  /** An ISO date is digits and `-`. */
  lemma IsoChars(d: Date)
    requires IsValid(d)
    ensures DigitsOr(FormatIso(d), '-')
  {
    var y, m, dd := Pad4(d.year), Pad2(d.month), Pad2(d.day);
    assert FormatIso(d) == y + "-" + m + "-" + dd;
    assert DigitsOr(y, '-') && DigitsOr(m, '-') && DigitsOr(dd, '-') && DigitsOr("-", '-');
    DigitsOrJoin(y, "-", '-');
    DigitsOrJoin(y + "-", m, '-');
    DigitsOrJoin(y + "-" + m, "-", '-');
    DigitsOrJoin(y + "-" + m + "-", dd, '-');
  }

  /** `HH:MM:SS` with two-digit fields. */
  function Clock(h: nat, m: nat, s: nat): (r: string)
    requires h <= 23 && m <= 59 && s <= 59
    ensures IsClock(r)
  {
    ClockFields(h, m, s);
    Pad2(h) + ":" + Pad2(m) + ":" + Pad2(s)
  }

  /**
   * A `YYYY-MM-DD HH:MM:SS` timestamp in a `datetime` field keeps only its date,
   * whatever run of whitespace stands between date and time.
   */
  lemma DatetimeDropsTime(d: Date, ws: string, h: nat, m: nat, s: nat, fromIso: string -> Option<ValidDate>)
    requires IsValid(d) && h <= 23 && m <= 59 && s <= 59
    requires ws != [] && forall i | 0 <= i < |ws| :: IsSpace(ws[i])
    ensures FormatDatetime(JStr(FormatIso(d) + ws + Clock(h, m, s)), fromIso) == JStr(FormatDmy(d))
  {
    TimestampNoT(d, ws, h, m, s);
    TimestampRead(d, ws, h, m, s);
    DatetimeRead(FormatIso(d) + ws + Clock(h, m, s), d, fromIso);
  }

  lemma TimestampNoT(d: Date, ws: string, h: nat, m: nat, s: nat)
    requires IsValid(d) && h <= 23 && m <= 59 && s <= 59
    requires forall i | 0 <= i < |ws| :: IsSpace(ws[i])
    ensures !HasChar(FormatIso(d) + ws + Clock(h, m, s), 'T')
  {
    IsoNoT(d);
    ClockPlain(h, m, s);
    NoTInTimestamp(FormatIso(d), ws, Clock(h, m, s));
  }

  /** `strptime` reads the date of a timestamp whose halves are separated by whitespace. */
  lemma TimestampRead(d: Date, ws: string, h: nat, m: nat, s: nat)
    requires IsValid(d) && h <= 23 && m <= 59 && s <= 59
    requires ws != [] && forall i | 0 <= i < |ws| :: IsSpace(ws[i])
    ensures ParseYmdHms(FormatIso(d) + ws + Clock(h, m, s)) == Some(d)
  {
    IsoNoT(d);
    ClockPlain(h, m, s);
    PlainText(Clock(h, m, s), ':');
    ParseFormatIso(d);
    SpacedRead(FormatIso(d), ws, Clock(h, m, s), d);
  }

  /** A space-free date and clock around a run of whitespace: `strptime` reads the date. */
  lemma SpacedRead(date: string, ws: string, clock: string, d: Date)
    requires date != [] && ParseYmd(date) == Some(d) && IsClock(clock)
    requires forall i | 0 <= i < |date| :: !IsSpace(date[i])
    requires ws != [] && forall i | 0 <= i < |ws| :: IsSpace(ws[i])
    requires forall i | 0 <= i < |clock| :: !IsSpace(clock[i])
    ensures ParseYmdHms(date + ws + clock) == Some(d)
  {
    HmsRead(date, ws, clock, d);
  }

  /** Text without `T` that `strptime` reads as a date comes out as `DD/MM/YYYY`. */
  lemma DatetimeRead(x: string, d: Date, fromIso: string -> Option<ValidDate>)
    requires !HasChar(x, 'T') && ParseYmdHms(x) == Some(d)
    ensures FormatDatetime(JStr(x), fromIso) == JStr(FormatDmy(d))
  {
  }

  /** A date, a run of whitespace and a clock: `strptime` reads the date. */
  lemma HmsRead(date: string, ws: string, clock: string, d: Date)
    requires date != [] && !IsSpace(date[|date| - 1]) && ParseYmd(date) == Some(d)
    requires ws != [] && forall i | 0 <= i < |ws| :: IsSpace(ws[i])
    requires IsClock(clock) && forall i | 0 <= i < |clock| :: !IsSpace(clock[i])
    ensures ParseYmdHms(date + ws + clock) == Some(d)
  {
    var x := date + ws + clock;
    NoSpaceSuffixOf(date + ws, clock);
    assert x[..|x| - |clock|] == date + ws;
    StripRightSpaces(date, ws);
  }

  /** Two clock fields and their separators: digits and `:` only. */
  lemma ClockFields(h: nat, m: nat, s: nat)
    requires h <= 23 && m <= 59 && s <= 59
    ensures IsClock(Pad2(h) + ":" + Pad2(m) + ":" + Pad2(s))
  {
    DigitsHaveNo(Pad2(h), ':');
    DigitsHaveNo(Pad2(m), ':');
    DigitsHaveNo(Pad2(s), ':');
    SplitThree(Pad2(h), Pad2(m), Pad2(s), ':');
    assert Pad2(h) + ":" + Pad2(m) + ":" + Pad2(s) == Pad2(h) + [':'] + Pad2(m) + [':'] + Pad2(s);
  }

  lemma ClockPlain(h: nat, m: nat, s: nat)
    requires h <= 23 && m <= 59 && s <= 59
    ensures DigitsOr(Clock(h, m, s), ':')
    ensures !HasChar(Clock(h, m, s), 'T') && !HasChar(Clock(h, m, s), 't') && !HasChar(Clock(h, m, s), '-')
    ensures !HasChar(Clock(h, m, s), '/')
  {
    var c := Clock(h, m, s);
    assert DigitsOr(c, ':') by {
      assert c == Pad2(h) + [':'] + Pad2(m) + [':'] + Pad2(s);
      DigitGroups(Pad2(h), Pad2(m), Pad2(s), ':');
    }
    assert !HasChar(c, 'T') by {
      DigitsOrLacks(c, ':', 'T');
    }
    assert !HasChar(c, 't') by {
      DigitsOrLacks(c, ':', 't');
    }
    assert !HasChar(c, '-') by {
      DigitsOrLacks(c, ':', '-');
    }
    assert !HasChar(c, '/') by {
      DigitsOrLacks(c, ':', '/');
    }
  }

  /** Three digit groups joined by `c` hold only digits and `c`. */
  lemma DigitGroups(a: string, b: string, e: string, c: char)
    requires AllDigits(a) && AllDigits(b) && AllDigits(e) && !IsDigit(c)
    ensures DigitsOr(a + [c] + b + [c] + e, c)
  {
    assert DigitsOr(a, c) && DigitsOr(b, c) && DigitsOr(e, c) && DigitsOr([c], c);
    DigitsOrJoin(a, [c], c);
    DigitsOrJoin(a + [c], b, c);
    DigitsOrJoin(a + [c] + b, [c], c);
    DigitsOrJoin(a + [c] + b + [c], e, c);
  }

  /** The joined timestamp has no `T`, so the `datetime` branch reads it with `strptime`. */
  lemma NoTInTimestamp(iso: string, ws: string, clock: string)
    requires !HasChar(iso, 'T') && !HasChar(clock, 'T')
    requires forall i | 0 <= i < |ws| :: IsSpace(ws[i])
    ensures !HasChar(iso + ws + clock, 'T')
  {
    var t := iso + ws + clock;
    forall i | 0 <= i < |t| ensures t[i] != 'T' {
      if i < |iso| {
        assert t[i] == iso[i];
      } else if i < |iso| + |ws| {
        assert t[i] == ws[i - |iso|];
      } else {
        assert t[i] == clock[i - |iso| - |ws|];
      }
    }
  }

  // ---------------------------------------------------------------------------
  // Dependents
  // ---------------------------------------------------------------------------

  /**
   * `_extrair_texto_json`: `{"chave": {"_text": v}}` gives `v`, `{"chave": "v"}`
   * gives `"v"`, anything else `""`.
   */
  function ExtractText(obj: Json, key: string): (r: Json)
    ensures !obj.JObj? || key !in obj.fields ==> r == JStr("")
    ensures obj.JObj? && key in obj.fields && obj.fields[key].JStr? ==> r == obj.fields[key]
    ensures obj.JObj? && key in obj.fields && obj.fields[key].JObj? && "_text" in obj.fields[key].fields ==>
      r == obj.fields[key].fields["_text"]
    ensures (&& obj.JObj? && key in obj.fields && !obj.fields[key].JStr?
             && !(obj.fields[key].JObj? && "_text" in obj.fields[key].fields)) ==> r == JStr("")
  {
    if !Truthy(obj) || !obj.JObj? then JStr("")
    else if key in obj.fields && obj.fields[key].JObj? && "_text" in obj.fields[key].fields then obj.fields[key].fields["_text"]
    else if key in obj.fields && obj.fields[key].JStr? then obj.fields[key]
    else JStr("")
  }

  /**
   * Where the value under `key` is text or an object holding `_text`,
   * `_extrair_texto_json` reads what the one-step path `[key]` of
   * `_extrair_valor_json` reads.
   */
  lemma ExtractTextAgrees(obj: Json, key: string, decode: string -> Option<Json>)
    requires obj.JObj? && key in obj.fields
    requires obj.fields[key].JStr? || (obj.fields[key].JObj? && "_text" in obj.fields[key].fields)
    ensures ExtractText(obj, key) == ExtractValue(obj, [KS(key)], decode)
  {
    assert Truthy(obj);
    assert Walk(obj, [KS(key)]) == Walk(obj.fields[key], []);
  }

  /** Round trip with the XML dictionaries: a leaf `{"_text": s}` under `key` is read back as `s`. */
  lemma ExtractTextLeaf(key: string, s: string, fields: map<string, Json>)
    ensures ExtractText(JObj(fields[key := JObj(map["_text" := JStr(s)])]), key) == JStr(s)
  {
  }

  const EmployerPaths: seq<seq<Key>> := [
    [KS("evtAdmissao"), KS("ideEmpregador"), KS("nrInsc")],
    [KS("evtAltCadastral"), KS("ideEmpregador"), KS("nrInsc")],
    [KS("evtAltContratual"), KS("ideEmpregador"), KS("nrInsc")],
    [KS("ideEmpregador"), KS("nrInsc")]]

  const WorkerPaths: seq<seq<Key>> := [
    [KS("evtAdmissao"), KS("trabalhador"), KS("cpfTrab")],
    [KS("evtAltCadastral"), KS("ideTrabalhador"), KS("cpfTrab")],
    [KS("evtAltContratual"), KS("ideTrabalhador"), KS("cpfTrab")],
    [KS("ideTrabalhador"), KS("cpfTrab")]]

  const DependentPaths: seq<seq<Key>> := [
    [KS("evtAltCadastral"), KS("alteracao"), KS("dadosTrabalhador"), KS("dependente")],
    [KS("evtAdmissao"), KS("trabalhador"), KS("dependente")],
    [KS("evtAltContratual"), KS("alteracao"), KS("dadosTrabalhador"), KS("dependente")],
    [KS("trabalhador"), KS("dependente")],
    [KS("alteracao"), KS("dadosTrabalhador"), KS("dependente")]]

  /** The columns of a dependent row. */
  const DependentColumns: set<string> := {
    "1 A-ID do empregador", "2 B-CPF trabalhador", "3 C-Nome dependente", "4 D-Data nascimento",
    "5 E-CPF dependente", "6 F-Tipo dependência", "7 G-Possui pensão alimentícia",
    "8 H-Nome mãe dependente", "9 I-Indicativo de deficiência", "10 J-É dependente IR"}

  /** Whether a path's value is usable as the employer or worker number: a truthy object with `_text`, or truthy text. */
  predicate TextAt(doc: Json, path: seq<Key>, decode: string -> Option<Json>) {
    var v := ExtractValue(doc, path, decode);
    Truthy(v) && ((v.JObj? && "_text" in v.fields) || v.JStr?)
  }

  /** The number a usable value stands for: its `_text`, or the text itself. */
  function TextOf(v: Json): (r: Json)
    ensures v.JObj? && "_text" in v.fields ==> r == v.fields["_text"]
    ensures !(v.JObj? && "_text" in v.fields) ==> r == v
  {
    if v.JObj? && "_text" in v.fields then v.fields["_text"] else v
  }

  /** The employer or worker number: the first path giving an object with `_text`, or non-empty text. */
  function FirstText(doc: Json, paths: seq<seq<Key>>, decode: string -> Option<Json>): (r: Json)
    ensures (forall i | 0 <= i < |paths| :: !TextAt(doc, paths[i], decode)) ==> r == JStr("")
    ensures forall i | 0 <= i < |paths| && TextAt(doc, paths[i], decode) && (forall j | 0 <= j < i :: !TextAt(doc, paths[j], decode)) ::
      r == TextOf(ExtractValue(doc, paths[i], decode))
    decreases |paths|
  {
    if paths == [] then JStr("")
    else
      var v := ExtractValue(doc, paths[0], decode);
      var r := if Truthy(v) && v.JObj? && "_text" in v.fields then v.fields["_text"]
               else if Truthy(v) && v.JStr? then v
               else FirstText(doc, paths[1..], decode);
      FirstTextStep(doc, paths, decode, r);
      r
  }

  /** The first path decides when it is usable; otherwise the rest of the paths, shifted by one, decide. */
  lemma FirstTextStep(doc: Json, paths: seq<seq<Key>>, decode: string -> Option<Json>, r: Json)
    requires paths != []
    requires TextAt(doc, paths[0], decode) ==> r == TextOf(ExtractValue(doc, paths[0], decode))
    requires !TextAt(doc, paths[0], decode) ==>
      && ((forall i | 0 <= i < |paths[1..]| :: !TextAt(doc, paths[1..][i], decode)) ==> r == JStr(""))
      && (forall i | 0 <= i < |paths[1..]| && TextAt(doc, paths[1..][i], decode)
                       && (forall j | 0 <= j < i :: !TextAt(doc, paths[1..][j], decode)) ::
            r == TextOf(ExtractValue(doc, paths[1..][i], decode)))
    ensures (forall i | 0 <= i < |paths| :: !TextAt(doc, paths[i], decode)) ==> r == JStr("")
    ensures forall i | 0 <= i < |paths| && TextAt(doc, paths[i], decode) && (forall j | 0 <= j < i :: !TextAt(doc, paths[j], decode)) ::
      r == TextOf(ExtractValue(doc, paths[i], decode))
  {
    if !TextAt(doc, paths[0], decode) {
      if forall i | 0 <= i < |paths| :: !TextAt(doc, paths[i], decode) {
        assert forall i | 0 <= i < |paths[1..]| :: !TextAt(doc, paths[1..][i], decode) by {
          forall i | 0 <= i < |paths[1..]| ensures !TextAt(doc, paths[1..][i], decode) {
            assert paths[1..][i] == paths[i + 1];
          }
        }
      }
      forall i | 0 <= i < |paths| && TextAt(doc, paths[i], decode) && (forall j | 0 <= j < i :: !TextAt(doc, paths[j], decode))
        ensures r == TextOf(ExtractValue(doc, paths[i], decode))
      {
        assert i > 0;
        assert paths[1..][i - 1] == paths[i];
        forall j | 0 <= j < i - 1 ensures !TextAt(doc, paths[1..][j], decode) {
          assert paths[1..][j] == paths[j + 1];
        }
      }
    }
  }

  /** A row `extrair_dependentes` may emit: the ten columns, with a dependent name. */
  predicate NamedRow(r: Record) {
    r.Keys == DependentColumns && "3 C-Nome dependente" in r && Truthy(r["3 C-Nome dependente"])
  }

  /** One dependent as a row: the employer, the worker, then one field of the dependent per column. */
  function DependentRow(dep: Json, employer: Json, worker: Json): (row: Record)
    ensures row.Keys == DependentColumns
    ensures row["3 C-Nome dependente"] == ExtractText(dep, "nmDep")
  {
    var cells := [ExtractText(dep, "nmDep"), ExtractText(dep, "dtNascto"), ExtractText(dep, "cpfDep"),
                  ExtractText(dep, "tpDep"), ExtractText(dep, "depSF"), ExtractText(dep, "nmMae"),
                  ExtractText(dep, "incTrab"), ExtractText(dep, "depIRRF")];
    RowOfCells(employer, worker, cells)
  }

  /** Every cell of a dependent row: the employer, the worker, then the text of one field of the dependent. */
  lemma DependentRowCells(dep: Json, employer: Json, worker: Json)
    ensures var row := DependentRow(dep, employer, worker);
      && row["1 A-ID do empregador"] == employer && row["2 B-CPF trabalhador"] == worker
      && row["3 C-Nome dependente"] == ExtractText(dep, "nmDep")
      && row["4 D-Data nascimento"] == ExtractText(dep, "dtNascto")
      && row["5 E-CPF dependente"] == ExtractText(dep, "cpfDep")
      && row["6 F-Tipo dependência"] == ExtractText(dep, "tpDep")
      && row["7 G-Possui pensão alimentícia"] == ExtractText(dep, "depSF")
      && row["8 H-Nome mãe dependente"] == ExtractText(dep, "nmMae")
      && row["9 I-Indicativo de deficiência"] == ExtractText(dep, "incTrab")
      && row["10 J-É dependente IR"] == ExtractText(dep, "depIRRF")
  {
  }

  /** The ten columns: employer, worker, then the eight dependent fields in order. */
  function RowOfCells(employer: Json, worker: Json, cells: seq<Json>): (row: Record)
    requires |cells| == 8
    ensures row.Keys == DependentColumns
    ensures row["3 C-Nome dependente"] == cells[0]
  {
    map[
      "1 A-ID do empregador" := employer,
      "2 B-CPF trabalhador" := worker,
      "3 C-Nome dependente" := cells[0],
      "4 D-Data nascimento" := cells[1],
      "5 E-CPF dependente" := cells[2],
      "6 F-Tipo dependência" := cells[3],
      "7 G-Possui pensão alimentícia" := cells[4],
      "8 H-Nome mãe dependente" := cells[5],
      "9 I-Indicativo de deficiência" := cells[6],
      "10 J-É dependente IR" := cells[7]]
  }

  /**
   * A dependent written as XML dictionaries, with its fields `{"_text": ...}`
   * leaves, gives back its texts in the template columns, and `""` for a field
   * it lacks.
   */
  lemma DependentRowLeaves(fields: map<string, Json>, name: string, born: string, cpf: string, employer: Json, worker: Json)
    requires "nmDep" in fields && fields["nmDep"] == JObj(map["_text" := JStr(name)])
    requires "dtNascto" in fields && fields["dtNascto"] == JObj(map["_text" := JStr(born)])
    requires "cpfDep" in fields && fields["cpfDep"] == JObj(map["_text" := JStr(cpf)])
    requires "tpDep" !in fields
    ensures var row := DependentRow(JObj(fields), employer, worker);
      && row["3 C-Nome dependente"] == JStr(name)
      && row["4 D-Data nascimento"] == JStr(born)
      && row["5 E-CPF dependente"] == JStr(cpf)
      && row["6 F-Tipo dependência"] == JStr("")
  {
    DependentRowCells(JObj(fields), employer, worker);
  }

  /** What a dependent path leads to, as a list: one object counts as a list of one. */
  function AsItems(v: Json): (items: seq<Json>)
    ensures v.JObj? ==> items == [v]
    ensures v.JList? ==> items == v.items
    ensures !v.JObj? && !v.JList? ==> items == []
  {
    match v
    case JObj(_) => [v]
    case JList(xs) => xs
    case _ => []
  }

  /** The rows of the named dependents among `items`, in order. */
  function NamedRows(items: seq<Json>, employer: Json, worker: Json): (rows: seq<Record>)
    ensures |rows| <= |items|
    ensures forall r | r in rows :: NamedRow(r)
    ensures forall k | 0 <= k < |items| && Truthy(ExtractText(items[k], "nmDep")) :: DependentRow(items[k], employer, worker) in rows
    decreases |items|
  {
    if items == [] then []
    else
      var rest := NamedRows(items[1..], employer, worker);
      var row := DependentRow(items[0], employer, worker);
      var rows := if NamedRow(row) then [row] + rest else rest;
      NamedRowsStep(items, employer, worker, rest, rows);
      rows
  }

  /** The first item's row, if named, put ahead of the rows of the rest keeps the three properties. */
  lemma NamedRowsStep(items: seq<Json>, employer: Json, worker: Json, rest: seq<Record>, rows: seq<Record>)
    requires items != []
    requires |rest| <= |items| - 1
    requires forall r | r in rest :: NamedRow(r)
    requires forall k | 0 <= k < |items[1..]| && Truthy(ExtractText(items[1..][k], "nmDep")) ::
      DependentRow(items[1..][k], employer, worker) in rest
    requires var row := DependentRow(items[0], employer, worker);
      rows == if NamedRow(row) then [row] + rest else rest
    ensures |rows| <= |items|
    ensures forall r | r in rows :: NamedRow(r)
    ensures forall k | 0 <= k < |items| && Truthy(ExtractText(items[k], "nmDep")) :: DependentRow(items[k], employer, worker) in rows
  {
    var row := DependentRow(items[0], employer, worker);
    DependentRowNamed(items[0], employer, worker);
    Prepend(row, rest, rows);
    forall k | 0 <= k < |items| && Truthy(ExtractText(items[k], "nmDep"))
      ensures DependentRow(items[k], employer, worker) in rows
    {
      if k > 0 {
        assert items[1..][k - 1] == items[k];
      }
    }
  }

  /** A dependent's row is named exactly when its `nmDep` text is truthy. */
  lemma DependentRowNamed(dep: Json, employer: Json, worker: Json)
    ensures NamedRow(DependentRow(dep, employer, worker)) <==> Truthy(ExtractText(dep, "nmDep"))
  {
  }

  /** Putting a named row ahead of named rows, or leaving it out, keeps every row named and every old row. */
  lemma Prepend(row: Record, rest: seq<Record>, rows: seq<Record>)
    requires forall r | r in rest :: NamedRow(r)
    requires rows == if NamedRow(row) then [row] + rest else rest
    ensures |rows| <= |rest| + 1
    ensures forall r | r in rows :: NamedRow(r)
    ensures forall r | r in rest :: r in rows
    ensures NamedRow(row) ==> row in rows
  {
  }

  /** One item gives its row exactly when its `nmDep` is truthy. */
  lemma NamedRowsSingle(item: Json, employer: Json, worker: Json)
    ensures NamedRows([item], employer, worker)
         == if Truthy(ExtractText(item, "nmDep")) then [DependentRow(item, employer, worker)] else []
  {
    assert [item][1..] == [];
  }

  /** The rows of two lists of items are the rows of the first, then those of the second. */
  lemma {:induction false} NamedRowsAppend(a: seq<Json>, b: seq<Json>, employer: Json, worker: Json)
    ensures NamedRows(a + b, employer, worker) == NamedRows(a, employer, worker) + NamedRows(b, employer, worker)
    decreases |a|
  {
    if a == [] {
      assert a + b == b;
    } else {
      var ab := a + b;
      assert ab[0] == a[0] && ab[1..] == a[1..] + b;
      NamedRowsCons(ab, employer, worker);
      NamedRowsCons(a, employer, worker);
      NamedRowsAppend(a[1..], b, employer, worker);
      ConcatAssoc(NamedRows([a[0]], employer, worker), NamedRows(a[1..], employer, worker), NamedRows(b, employer, worker));
    }
  }

  lemma ConcatAssoc(x: seq<Record>, y: seq<Record>, z: seq<Record>)
    ensures x + (y + z) == x + y + z
  {
  }

  /** The first item contributes its own rows ahead of the rest. */
  lemma NamedRowsCons(items: seq<Json>, employer: Json, worker: Json)
    requires items != []
    ensures NamedRows(items, employer, worker)
         == NamedRows([items[0]], employer, worker) + NamedRows(items[1..], employer, worker)
  {
    NamedRowsSingle(items[0], employer, worker);
  }

  /** The dependents found at one path (plain walk, no unwrapping). */
  function RowsAt(doc: Json, path: seq<Key>, employer: Json, worker: Json): seq<Record> {
    match Walk(doc, path)
    case Some(v) => if Truthy(v) then NamedRows(AsItems(v), employer, worker) else []
    case None => []
  }

  /** The first non-empty sequence of `xss`, or nothing. */
  function FirstNonEmpty<T>(xss: seq<seq<T>>): (r: seq<T>)
    ensures (forall i | 0 <= i < |xss| :: xss[i] == []) <==> r == []
    ensures r == [] || r in xss
  {
    if xss == [] then []
    else if xss[0] != [] then xss[0]
    else
      var r := FirstNonEmpty(xss[1..]);
      assert forall i | 1 <= i < |xss| :: xss[1..][i - 1] == xss[i];
      r
  }

  /** The first non-empty entry decides. */
  lemma {:induction false} FirstNonEmptyDecides<T>(xss: seq<seq<T>>, i: nat)
    requires i < |xss| && xss[i] != [] && forall j | 0 <= j < i :: xss[j] == []
    ensures FirstNonEmpty(xss) == xss[i]
  {
    if i > 0 {
      assert xss[0] == [];
      assert forall j | 0 <= j < i - 1 :: xss[1..][j] == xss[j + 1];
      FirstNonEmptyDecides(xss[1..], i - 1);
    }
  }

  /** The dependents found at each path, in order. */
  function RowsPerPath(doc: Json, paths: seq<seq<Key>>, employer: Json, worker: Json): (rs: seq<seq<Record>>)
    ensures |rs| == |paths| && forall i | 0 <= i < |paths| :: rs[i] == RowsAt(doc, paths[i], employer, worker)
  {
    seq(|paths|, i requires 0 <= i < |paths| => RowsAt(doc, paths[i], employer, worker))
  }

  /** The first path that yields a named dependent decides; later paths are not read. */
  function FirstRows(doc: Json, paths: seq<seq<Key>>, employer: Json, worker: Json): (rows: seq<Record>)
    ensures (forall i | 0 <= i < |paths| :: RowsAt(doc, paths[i], employer, worker) == []) <==> rows == []
    ensures forall r | r in rows :: NamedRow(r)
  {
    var rs := RowsPerPath(doc, paths, employer, worker);
    var rows := FirstNonEmpty(rs);
    assert rows != [] ==> exists i | 0 <= i < |paths| :: rows == RowsAt(doc, paths[i], employer, worker);
    rows
  }

  /** `extrair_dependentes`; text that does not decode gives no rows. */
  function ExtractDependents(json: Json, decode: string -> Option<Json>): (rows: seq<Record>)
    ensures Document(json, decode).None? ==> rows == []
    ensures forall r | r in rows :: NamedRow(r)
    ensures Document(json, decode).Some? ==>
      var doc := Document(json, decode).value;
      rows == FirstRows(doc, DependentPaths, FirstText(doc, EmployerPaths, decode), FirstText(doc, WorkerPaths, decode))
  {
    match Document(json, decode)
    case None => []
    case Some(doc) =>
      var employer := FirstText(doc, EmployerPaths, decode);
      var worker := FirstText(doc, WorkerPaths, decode);
      FirstRows(doc, DependentPaths, employer, worker)
  }

  /** Every dependent row carries the employer and the worker it was built with. */
  predicate OwnedBy(rows: seq<Record>, employer: Json, worker: Json) {
    forall r | r in rows ::
      && "1 A-ID do empregador" in r && r["1 A-ID do empregador"] == employer
      && "2 B-CPF trabalhador" in r && r["2 B-CPF trabalhador"] == worker
  }

  lemma {:induction false} NamedRowsOwners(items: seq<Json>, employer: Json, worker: Json)
    ensures OwnedBy(NamedRows(items, employer, worker), employer, worker)
    decreases |items|
  {
    if items != [] {
      DependentRowCells(items[0], employer, worker);
      NamedRowsOwners(items[1..], employer, worker);
    }
  }

  lemma FirstRowsOwners(doc: Json, paths: seq<seq<Key>>, employer: Json, worker: Json)
    ensures OwnedBy(FirstRows(doc, paths, employer, worker), employer, worker)
  {
    var rs := RowsPerPath(doc, paths, employer, worker);
    var rows := FirstRows(doc, paths, employer, worker);
    if rows != [] {
      var i :| 0 <= i < |rs| && rs[i] == rows;
      RowsAtOwners(doc, paths[i], employer, worker);
    }
  }

  lemma RowsAtOwners(doc: Json, path: seq<Key>, employer: Json, worker: Json)
    ensures OwnedBy(RowsAt(doc, path, employer, worker), employer, worker)
  {
    match Walk(doc, path)
    case Some(v) =>
      if Truthy(v) {
        NamedRowsOwners(AsItems(v), employer, worker);
      }
    case None =>
  }

  /**
   * Every dependent row holds, in its first two columns, the employer number
   * and the worker number found by the first usable path of each list.
   */
  lemma ExtractDependentsOwners(json: Json, decode: string -> Option<Json>)
    requires Document(json, decode).Some?
    ensures var doc := Document(json, decode).value;
      OwnedBy(ExtractDependents(json, decode), FirstText(doc, EmployerPaths, decode), FirstText(doc, WorkerPaths, decode))
  {
    var doc := Document(json, decode).value;
    FirstRowsOwners(doc, DependentPaths, FirstText(doc, EmployerPaths, decode), FirstText(doc, WorkerPaths, decode));
  }

  /** The rows come from the first path that has any. */
  lemma FirstRowsDecides(doc: Json, paths: seq<seq<Key>>, i: nat, employer: Json, worker: Json)
    requires i < |paths| && RowsAt(doc, paths[i], employer, worker) != []
    requires forall j | 0 <= j < i :: RowsAt(doc, paths[j], employer, worker) == []
    ensures FirstRows(doc, paths, employer, worker) == RowsAt(doc, paths[i], employer, worker)
  {
    FirstNonEmptyDecides(RowsPerPath(doc, paths, employer, worker), i);
  }

  /** A single dependent object yields the same rows as a list holding just it. */
  lemma SingleDependentIsList(dep: Json, employer: Json, worker: Json)
    requires dep.JObj?
    ensures NamedRows(AsItems(dep), employer, worker) == NamedRows(AsItems(JList([dep])), employer, worker)
  {
  }

  // ---------------------------------------------------------------------------
  // Filters
  // ---------------------------------------------------------------------------

  /** A filter's answer, or an exception the filter does not catch. */
  datatype Verdict = Accept | Reject | Raise

  /** The leave codes of each `tipo_afastamento`. */
  function LeaveCodes(kind: string): (codes: seq<string>)
    ensures kind == "ferias" ==> codes == ["15"]
  {
    if kind == "ferias" then ["15"]
    else if kind == "doenca" then ["01"]
    else if kind == "acidente" then ["02"]
    else if kind == "licenca_maternidade" then ["03"]
    else if kind == "servico_militar" then ["04"]
    else []
  }

  /** Python `key in v` for a text key: `None` where it raises `TypeError`. */
  function PyIn(key: string, v: Json): (r: Option<bool>)
    ensures v.JObj? ==> r == Some(key in v.fields)
  {
    match v
    case JObj(f) => Some(key in f)
    case JStr(s) => Some(Contains(s, key))
    case JList(xs) => Some(JStr(key) in xs)
    case _ => None
  }

  /** Whether a value is one of the listed codes (`valor in codigos`). */
  predicate IsCode(v: Json, codes: seq<string>) {
    v.JStr? && v.s in codes
  }

  /**
   * The `json_data` part of the leave-type filter on a decoded document:
   * `Accept` when `iniAfastamento.codMotAfast._text` is a listed code, `Reject`
   * when the document does not decide, `Raise` where Python raises `TypeError`.
   * A `codMotAfast` without `.get` raises `AttributeError`, which the filter
   * turns into acceptance.
   */
  function NestedLeaveCode(doc: Json, codes: seq<string>): Verdict {
    match PyIn("iniAfastamento", doc)
    case None => Raise
    case Some(false) => Reject
    case Some(true) =>
      if !doc.JObj? then Raise
      else
        var ini := doc.fields["iniAfastamento"];
        match PyIn("codMotAfast", ini)
        case None => Raise
        case Some(false) => Reject
        case Some(true) =>
          if !ini.JObj? then Raise
          else
            var cm := ini.fields["codMotAfast"];
            if !cm.JObj? then Accept
            else if IsCode(if "_text" in cm.fields then cm.fields["_text"] else JStr(""), codes) then Accept
            else Reject
  }

  /** `_validar_filtro_tipo_afastamento`. */
  function LeaveTypeFilter(record: Record, kind: string, decode: string -> Option<Json>): (v: Verdict)
    ensures IsCode(Get(record, "codigo_motivo"), LeaveCodes(kind)) ==> v == Accept
    ensures kind == "" || kind == "todos" ==> v != Reject
  {
    var codes := LeaveCodes(kind);
    var code := if "codigo_motivo" in record then record["codigo_motivo"] else JStr("");
    if IsCode(code, codes) then Accept
    else
      var nested :=
        if "json_data" in record && Truthy(record["json_data"]) && record["json_data"].JStr? then
          match decode(record["json_data"].s)
          case None => Reject
          case Some(doc) => NestedLeaveCode(doc, codes)
        else Reject;
      if nested != Reject then nested
      else if kind == "" || kind == "todos" then Accept
      else Reject
  }

  /** The nested code of a document shaped as the XML dictionaries are, `""` where absent. */
  function NestedText(doc: Json): Json
    requires doc.JObj?
  {
    if "iniAfastamento" in doc.fields && doc.fields["iniAfastamento"].JObj? && "codMotAfast" in doc.fields["iniAfastamento"].fields then
      var cm := doc.fields["iniAfastamento"].fields["codMotAfast"];
      if cm.JObj? && "_text" in cm.fields then cm.fields["_text"] else JStr("")
    else JStr("")
  }

  /** The shape the XML dictionaries give: the nested steps are objects where present. */
  predicate LeaveShaped(doc: Json) {
    && doc.JObj?
    && ("iniAfastamento" in doc.fields ==>
          && doc.fields["iniAfastamento"].JObj?
          && ("codMotAfast" in doc.fields["iniAfastamento"].fields ==>
                doc.fields["iniAfastamento"].fields["codMotAfast"].JObj?))
  }

  /**
   * For holidays: on a record whose `json_data` is absent, not text, undecodable
   * or shaped as the XML dictionaries are, the filter accepts exactly when
   * `codigo_motivo` or `iniAfastamento.codMotAfast._text` is `15`, and never raises.
   */
  lemma HolidayFilterIff(record: Record, decode: string -> Option<Json>)
    requires var j := Get(record, "json_data");
      Truthy(j) && j.JStr? && decode(j.s).Some? ==> LeaveShaped(decode(j.s).value)
    ensures var j := Get(record, "json_data");
      var fromJson := Truthy(j) && j.JStr? && decode(j.s).Some? && NestedText(decode(j.s).value) == JStr("15");
      LeaveTypeFilter(record, "ferias", decode) == (if Get(record, "codigo_motivo") == JStr("15") || fromJson then Accept else Reject)
  {
  }

  /** `_validar_filtro_dias_afastamento`: inclusive day count against the minimum. */
  function DaysFilter(record: Record, minDays: int): (v: Verdict)
    ensures !Truthy(Get(record, "data_inicio")) || !Truthy(Get(record, "data_fim")) ==> v == Reject
  {
    var start := Get(record, "data_inicio");
    var end := Get(record, "data_fim");
    if !Truthy(start) || !Truthy(end) then Reject
    else if !start.JStr? then Raise
    else match ParseYmd(start.s)
      case None => Accept
      case Some(a) =>
        if !end.JStr? then Raise
        else match ParseYmd(end.s)
          case None => Accept
          case Some(b) => if Ordinal(b) - Ordinal(a) + 1 >= minDays then Accept else Reject
  }

  /** A leave between two ISO dates passes exactly when it spans, both ends included, at least the minimum. */
  lemma DaysFilterCount(record: Record, a: Date, b: Date, minDays: int)
    requires IsValid(a) && IsValid(b)
    requires Get(record, "data_inicio") == JStr(FormatIso(a)) && Get(record, "data_fim") == JStr(FormatIso(b))
    ensures DaysFilter(record, minDays) == (if Ordinal(b) - Ordinal(a) + 1 >= minDays then Accept else Reject)
  {
    ParseFormatIso(a);
    ParseFormatIso(b);
    DaysFilterParsed(record, FormatIso(a), FormatIso(b), a, b, minDays);
  }

  lemma DaysFilterParsed(record: Record, s: string, e: string, a: Date, b: Date, minDays: int)
    requires s != [] && e != [] && ParseYmd(s) == Some(a) && ParseYmd(e) == Some(b)
    requires Get(record, "data_inicio") == JStr(s) && Get(record, "data_fim") == JStr(e)
    ensures DaysFilter(record, minDays) == (if Ordinal(b) - Ordinal(a) + 1 >= minDays then Accept else Reject)
  {
  }

  /** A leave ending before it starts never passes a positive minimum. */
  lemma EndBeforeStartRejected(record: Record, a: Date, b: Date, minDays: int)
    requires IsValid(a) && IsValid(b) && Before(b, a) && minDays >= 1
    requires Get(record, "data_inicio") == JStr(FormatIso(a)) && Get(record, "data_fim") == JStr(FormatIso(b))
    ensures DaysFilter(record, minDays) == Reject
  {
    DaysFilterCount(record, a, b, minDays);
    OrdinalOrder(b, a);
  }

  /** `validar_filtros_template`: the day filter wins over the type filter; no filter accepts. */
  function TemplateFilter(mappings: Mappings, template: string, record: Record, decode: string -> Option<Json>): (v: Verdict)
    ensures template !in mappings ==> v == Accept
  {
    if template !in mappings then Accept
    else
      var f := mappings[template].filters;
      if f.days.Some? then DaysFilter(record, f.days.value)
      else if f.leaveType.Some? then LeaveTypeFilter(record, f.leaveType.value, decode)
      else Accept
  }

  /** A template without filters accepts every record. */
  lemma NoFiltersAcceptAll(mappings: Mappings, template: string, record: Record, decode: string -> Option<Json>)
    requires template in mappings && mappings[template].filters == Filters(None, None)
    ensures TemplateFilter(mappings, template, record, decode) == Accept
  {
  }
}
