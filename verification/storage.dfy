/**
 * `GerenciadorBancoDados` over an abstract database: the decisions of
 * `inserir_dados` (existence and column checks, upsert or append, batches of
 * 1000 rows, value coercion), the read-only guard and row cap of
 * `executar_query`, the named-parameter substitution of `exportar_dados`, the
 * table listing of `obter_tabelas` and the clean-up before a new run.
 * SQLite itself is not modelled: a statement that fails is the parameter
 * `rejects` (which rows the database refuses) or `execute` (a query that
 * raises yields `None`).
 */
module Storage {
  import opened Common
  import opened JsonValue

  type Row = map<string, Json>

  /**
   * A table: its `CREATE TABLE` text, its columns with their declared types, the
   * columns of its `UNIQUE(...)` constraint (empty when there is none) and its rows.
   */
  datatype Table = Table(definition: string, columns: map<string, string>, unique: seq<string>, rows: seq<Row>)

  /** One entry of `sqlite_master`, in the order SQLite lists them. */
  datatype Entry = Entry(name: string, table: Table)

  datatype Db = Db(entries: seq<Entry>)

  /** The row limit of `executar_query` and the batch size of `inserir_dados`. */
  const RowCap: nat := 1000
  const BatchSize: nat := 1000

  /** The first `RowCap` elements of `s`. */
  function Capped<T>(s: seq<T>): (r: seq<T>)
    ensures |r| == if |s| < RowCap then |s| else RowCap
    ensures r == s[..|r|]
  {
    if |s| < RowCap then s else s[..RowCap]
  }

  // ---------------------------------------------------------------------------
  // Queries
  // ---------------------------------------------------------------------------

  /** The guard of `executar_query`: the lower-cased, stripped text starts with a reading verb. */
  predicate ReadOnly(sql: string) {
    var t := Strip(Lower(sql));
    StartsWith(t, "select") || StartsWith(t, "pragma") || StartsWith(t, "explain")
  }

  /** Counting queries without `group by` are returned whole; everything else is capped. */
  predicate Uncapped(sql: string) {
    Contains(Lower(sql), "count") && !Contains(Lower(sql), "group by")
  }

  /**
   * `executar_query`. Running the statement (and the query plan that precedes
   * it) is the parameter `execute`: the rows it yields, or `None` when it raises.
   */
  function Query(sql: string, params: seq<Json>, execute: (string, seq<Json>) -> Option<seq<Row>>): (r: seq<Row>)
    ensures !ReadOnly(sql) ==> r == []
    ensures execute(sql, params).None? ==> r == []
    ensures ReadOnly(sql) && execute(sql, params).Some? ==>
      var rows := execute(sql, params).value;
      if Uncapped(sql) then r == rows else r == Capped(rows)
  {
    if !ReadOnly(sql) then []
    else match execute(sql, params)
      case None => []
      case Some(rows) => if Uncapped(sql) then rows else Capped(rows)
  }

  /** The fetch loop: batches of 100 until the source runs dry or 1000 rows are in. */
  method FetchCapped(rows: seq<Row>) returns (result: seq<Row>)
    ensures result == Capped(rows)
  {
    result := [];
    var fetched := 0;
    while fetched < |rows| && fetched < RowCap
      invariant fetched <= |rows| && fetched <= RowCap
      invariant fetched < |rows| ==> fetched % 100 == 0
      invariant result == rows[..fetched]
      decreases |rows| - fetched
    {
      var batchEnd := if fetched + 100 <= |rows| then fetched + 100 else |rows|;
      result := result + rows[fetched..batchEnd];
      assert result == rows[..batchEnd];
      fetched := batchEnd;
    }
    assert fetched == |rows| || fetched == RowCap;
  }

  /** Statements that change the database never reach it, whatever follows the verb. */
  lemma WritesRefused(sql: string, verb: string, params: seq<Json>, execute: (string, seq<Json>) -> Option<seq<Row>>)
    requires verb in {"insert", "update", "delete", "drop", "create", "alter"}
    requires StartsWith(Strip(Lower(sql)), verb)
    ensures Query(sql, params, execute) == []
  {
    var t := Strip(Lower(sql));
    ReadOnlyInitial(t);
    VerbInitial(verb);
    assert t[0] == verb[0];
  }

  lemma VerbInitial(verb: string)
    requires verb in {"insert", "update", "delete", "drop", "create", "alter"}
    ensures |verb| > 0 && verb[0] in {'i', 'u', 'd', 'c', 'a'}
  {
  }

  /** A reading statement starts with `s`, `p` or `e`. */
  lemma ReadOnlyInitial(t: string)
    ensures StartsWith(t, "select") || StartsWith(t, "pragma") || StartsWith(t, "explain") ==>
      |t| > 0 && t[0] in {'s', 'p', 'e'}
  {
  }

  // ---------------------------------------------------------------------------
  // Table listing
  // ---------------------------------------------------------------------------

  /** `name LIKE 'sqlite_%'`: `_` is any one character and ASCII letters match either case. */
  predicate Internal(name: string) {
    |name| >= 7 && Lower(name[..6]) == "sqlite"
  }

  /** The names `sqlite_master` lists that are not internal, in its order. */
  function UserTables(entries: seq<Entry>): (names: seq<string>)
    ensures forall n | n in names :: !Internal(n)
    ensures forall n :: n in names <==> exists e | e in entries :: e.name == n && !Internal(n)
  {
    if entries == [] then []
    else
      var e := entries[|entries| - 1];
      UserTables(entries[..|entries| - 1]) + (if Internal(e.name) then [] else [e.name])
  }

  /** `obter_tabelas`: its query has no `count`, so the row cap applies to it too. */
  function ListTables(db: Db): (names: seq<string>)
    ensures |names| <= RowCap
    ensures forall n | n in names :: !Internal(n)
    ensures |UserTables(db.entries)| <= RowCap ==>
      forall e | e in db.entries && !Internal(e.name) :: e.name in names
  {
    Capped(UserTables(db.entries))
  }

  /** The first table of that name. */
  function Lookup(entries: seq<Entry>, name: string): (r: Option<Table>)
    ensures r.None? <==> forall e | e in entries :: e.name != name
    ensures r.Some? ==> Entry(name, r.value) in entries
  {
    if entries == [] then None
    else if entries[0].name == name then Some(entries[0].table)
    else Lookup(entries[1..], name)
  }

  /** The first table of that name replaced by `t`. */
  function Store(entries: seq<Entry>, name: string, t: Table): (r: seq<Entry>)
    ensures |r| == |entries|
    ensures forall i | 0 <= i < |r| :: r[i].name == entries[i].name
    ensures Lookup(entries, name).Some? ==> Lookup(r, name) == Some(t)
    ensures Lookup(entries, name).None? ==> r == entries
  {
    if entries == [] then []
    else if entries[0].name == name then [Entry(name, t)] + entries[1..]
    else [entries[0]] + Store(entries[1..], name, t)
  }

  /** Other tables are left as they were. */
  lemma {:induction false} StoreOthers(entries: seq<Entry>, name: string, t: Table, other: string)
    requires other != name
    ensures Lookup(Store(entries, name, t), other) == Lookup(entries, other)
    decreases |entries|
  {
    if entries != [] && entries[0].name != name {
      StoreOthers(entries[1..], name, t, other);
    }
  }

  // ---------------------------------------------------------------------------
  // Clean-up before a run
  // ---------------------------------------------------------------------------

  /** The tables `limpar_dados_para_processamento` empties. */
  const EventTables: seq<string> := ["esocial_s1020", "esocial_s1030", "esocial_s1200",
                                     "esocial_s2200", "esocial_s2205", "esocial_s2206", "esocial_s2230"]

  /** `DELETE FROM` every event table that exists; nothing else changes. */
  function ClearForProcessing(db: Db): (r: Db)
    ensures |r.entries| == |db.entries|
    ensures forall i | 0 <= i < |r.entries| ::
      && r.entries[i].name == db.entries[i].name
      && r.entries[i].table.definition == db.entries[i].table.definition
      && r.entries[i].table.columns == db.entries[i].table.columns
      && r.entries[i].table.unique == db.entries[i].table.unique
      && (r.entries[i].name in EventTables ==> r.entries[i].table.rows == [])
      && (r.entries[i].name !in EventTables ==> r.entries[i].table == db.entries[i].table)
  {
    Db(seq(|db.entries|, i requires 0 <= i < |db.entries| =>
      var e := db.entries[i];
      if e.name in EventTables then Entry(e.name, e.table.(rows := [])) else e))
  }

  /** Clearing twice is clearing once. */
  lemma ClearIdempotent(db: Db)
    ensures ClearForProcessing(ClearForProcessing(db)) == ClearForProcessing(db)
  {
    var once := ClearForProcessing(db);
    var twice := ClearForProcessing(once);
    forall i | 0 <= i < |twice.entries| ensures twice.entries[i] == once.entries[i] {
    }
  }

  // ---------------------------------------------------------------------------
  // Named parameters of exported queries
  // ---------------------------------------------------------------------------

  /**
   * The loop of `exportar_dados` over the parameters, in the mapping's order:
   * each `:name` found in the text (as it stands at that point) is replaced by
   * `?` everywhere and the name is recorded.
   */
  function Substitute(sql: string, params: seq<(string, Json)>): (r: (string, seq<string>))
    ensures forall n | n in r.1 :: exists i | 0 <= i < |params| :: params[i].0 == n
    ensures |r.1| <= |params|
    decreases |params|
  {
    if params == [] then (sql, [])
    else
      var marker := ":" + params[0].0;
      if Contains(sql, marker) then
        var rest := Substitute(ReplaceAll(sql, marker, "?"), params[1..]);
        (rest.0, [params[0].0] + rest.1)
      else
        var rest := Substitute(sql, params[1..]);
        (rest.0, rest.1)
  }

  /** `parametros.get(p)`: the value of the first pair with that name. */
  function ParamValue(params: seq<(string, Json)>, name: string): (v: Json)
    ensures (forall i | 0 <= i < |params| :: params[i].0 != name) ==> v == JNull
  {
    if params == [] then JNull
    else if params[0].0 == name then params[0].1
    else ParamValue(params[1..], name)
  }

  /** When no parameter occurs in the text, the text and the value tuple are left alone. */
  lemma {:induction false} SubstituteAbsent(sql: string, params: seq<(string, Json)>)
    requires forall i | 0 <= i < |params| :: !Contains(sql, ":" + params[i].0)
    ensures Substitute(sql, params) == (sql, [])
    decreases |params|
  {
    if params != [] {
      assert !Contains(sql, ":" + params[0].0);
      SubstituteAbsent(sql, params[1..]);
    }
  }

  /** `xs` can be obtained from `ys` by deleting elements. */
  predicate Subsequence<T(==)>(xs: seq<T>, ys: seq<T>)
    decreases |ys|
  {
    || xs == []
    || (ys != [] && ((xs[0] == ys[0] && Subsequence(xs[1..], ys[1..])) || Subsequence(xs, ys[1..])))
  }

  /** The names of the parameters, in the mapping's order. */
  function ParamNames(params: seq<(string, Json)>): (ns: seq<string>)
    ensures |ns| == |params| && forall i | 0 <= i < |params| :: ns[i] == params[i].0
  {
    seq(|params|, i requires 0 <= i < |params| => params[i].0)
  }

  /** The names are recorded in the mapping's order: they form a subsequence of it. */
  lemma {:induction false} SubstituteOrdered(sql: string, params: seq<(string, Json)>)
    ensures Subsequence(Substitute(sql, params).1, ParamNames(params))
    decreases |params|
  {
    if params != [] {
      var marker := ":" + params[0].0;
      var next := if Contains(sql, marker) then ReplaceAll(sql, marker, "?") else sql;
      SubstituteOrdered(next, params[1..]);
      assert ParamNames(params)[1..] == ParamNames(params[1..]);
    }
  }

  /** One turn of the loop: the parameter's marker, when the text holds it, becomes `?` everywhere. */
  function Step(sql: string, param: (string, Json)): string {
    var marker := ":" + param.0;
    if Contains(sql, marker) then ReplaceAll(sql, marker, "?") else sql
  }

  /** The text as it stands after the loop has handled the first `k` parameters. */
  function Stage(sql: string, params: seq<(string, Json)>, k: nat): string
    requires k <= |params|
  {
    if k == 0 then sql else Step(Stage(sql, params, k - 1), params[k - 1])
  }

  /** Handling the first parameter, then `k - 1` more, is handling `k`. */
  lemma {:induction false} StageShift(sql: string, params: seq<(string, Json)>, k: nat)
    requires 1 <= k <= |params|
    ensures Stage(sql, params, k) == Stage(Step(sql, params[0]), params[1..], k - 1)
  {
    if k > 1 {
      StageShift(sql, params, k - 1);
      assert params[1..][k - 2] == params[k - 1];
    }
  }

  /** One turn of `Substitute`, in terms of `Step`. */
  lemma SubstituteStep(sql: string, params: seq<(string, Json)>)
    requires params != []
    ensures var rest := Substitute(Step(sql, params[0]), params[1..]);
      Substitute(sql, params)
        == (rest.0, (if Contains(sql, ":" + params[0].0) then [params[0].0] else []) + rest.1)
  {
    if !Contains(sql, ":" + params[0].0) {
      assert [] + Substitute(sql, params[1..]).1 == Substitute(sql, params[1..]).1;
    }
  }

  /** The text that runs is the last stage. */
  lemma {:induction false} SubstituteText(sql: string, params: seq<(string, Json)>)
    ensures Substitute(sql, params).0 == Stage(sql, params, |params|)
    decreases |params|
  {
    if params != [] {
      SubstituteStep(sql, params);
      SubstituteText(Step(sql, params[0]), params[1..]);
      StageShift(sql, params, |params|);
    }
  }

  /** A stage of the tail, after the first parameter's turn, is a stage of the whole. */
  lemma StageTail(sql: string, params: seq<(string, Json)>, i: nat)
    requires i < |params| - 1
    ensures Stage(sql, params, i + 1) == Stage(Step(sql, params[0]), params[1..], i)
  {
    StageShift(sql, params, i + 1);
  }

  /** A name is recorded exactly when its marker is in the text the earlier turns left. */
  lemma SubstituteNames(sql: string, params: seq<(string, Json)>, n: string)
    ensures n in Substitute(sql, params).1 <==>
      exists i | 0 <= i < |params| :: params[i].0 == n && Contains(Stage(sql, params, i), ":" + n)
  {
    if n in Substitute(sql, params).1 {
      var i := RecordedFound(sql, params, n);
    }
    if exists i | 0 <= i < |params| :: params[i].0 == n && Contains(Stage(sql, params, i), ":" + n) {
      var i :| 0 <= i < |params| && params[i].0 == n && Contains(Stage(sql, params, i), ":" + n);
      FoundRecorded(sql, params, n, i);
    }
  }

  /** A recorded name was found at its own turn. */
  lemma {:induction false} RecordedFound(sql: string, params: seq<(string, Json)>, n: string) returns (i: nat)
    requires n in Substitute(sql, params).1
    ensures i < |params| && params[i].0 == n && Contains(Stage(sql, params, i), ":" + n)
    decreases |params|
  {
    assert params != [];
    SubstituteStep(sql, params);
    if Contains(sql, ":" + params[0].0) && n == params[0].0 {
      i := 0;
    } else {
      var j := RecordedFound(Step(sql, params[0]), params[1..], n);
      StageTail(sql, params, j);
      i := j + 1;
    }
  }

  /** A name whose marker is found at its turn is recorded. */
  lemma {:induction false} FoundRecorded(sql: string, params: seq<(string, Json)>, n: string, i: nat)
    requires i < |params| && params[i].0 == n && Contains(Stage(sql, params, i), ":" + n)
    ensures n in Substitute(sql, params).1
    decreases |params|
  {
    SubstituteStep(sql, params);
    if i > 0 {
      StageTail(sql, params, i - 1);
      FoundRecorded(Step(sql, params[0]), params[1..], n, i - 1);
    }
  }

  lemma ColonMarker(n: string)
    requires !HasChar(n, '?')
    ensures !HasChar(":" + n, '?') && |":" + n| > 0
  {
    NoCharConcat(":", n, '?');
  }

  /** A marker the text does not hold, and that has no `?`, is not created by the loop. */
  lemma {:induction false} SubstituteKeepsAbsent(sql: string, params: seq<(string, Json)>, p: string)
    requires |p| > 0 && !HasChar(p, '?') && !Contains(sql, p)
    ensures !Contains(Substitute(sql, params).0, p)
    decreases |params|
  {
    if params != [] {
      var marker := ":" + params[0].0;
      if Contains(sql, marker) {
        ReplaceKeepsAbsent(sql, marker, p);
      }
      SubstituteKeepsAbsent(Step(sql, params[0]), params[1..], p);
    }
  }

  /** No recorded marker is left in the text that runs (for names without `?`, which the replacement writes). */
  lemma {:induction false} SubstituteClears(sql: string, params: seq<(string, Json)>, n: string)
    requires n in Substitute(sql, params).1 && !HasChar(n, '?')
    ensures !Contains(Substitute(sql, params).0, ":" + n)
    decreases |params|
  {
    assert params != [];
    var marker := ":" + params[0].0;
    var next := Step(sql, params[0]);
    var rest := Substitute(next, params[1..]);
    SubstituteStep(sql, params);
    ColonMarker(n);
    if n in rest.1 {
      SubstituteClears(next, params[1..], n);
    } else {
      assert n == params[0].0 && Contains(sql, marker);
      ReplaceRemoves(sql, marker);
      SubstituteKeepsAbsent(next, params[1..], marker);
    }
  }

  /** `tuple(parametros.get(p) for p in param_names)`. */
  function ParamValues(params: seq<(string, Json)>, names: seq<string>): (vs: seq<Json>)
    ensures |vs| == |names| && forall i | 0 <= i < |names| :: vs[i] == ParamValue(params, names[i])
  {
    seq(|names|, i requires 0 <= i < |names| => ParamValue(params, names[i]))
  }

  /**
   * `exportar_dados`: an unknown export name yields nothing; otherwise the text
   * left after every parameter's turn runs with the values of the names whose
   * markers were found, in the mapping's order.
   */
  function ExportData(queries: map<string, string>, exportName: string, params: seq<(string, Json)>,
                      execute: (string, seq<Json>) -> Option<seq<Row>>): (r: seq<Row>)
    ensures exportName !in queries ==> r == []
    ensures exportName in queries ==>
      exists names | Subsequence(names, ParamNames(params)) ::
        && (forall n :: n in names <==>
              exists i | 0 <= i < |params| :: params[i].0 == n && Contains(Stage(queries[exportName], params, i), ":" + n))
        && r == Query(Stage(queries[exportName], params, |params|), ParamValues(params, names), execute)
  {
    if exportName !in queries then []
    else
      var sub := Substitute(queries[exportName], params);
      SubstituteText(queries[exportName], params);
      forall n ensures n in sub.1 <==>
        exists i | 0 <= i < |params| :: params[i].0 == n && Contains(Stage(queries[exportName], params, i), ":" + n)
      {
        SubstituteNames(queries[exportName], params, n);
      }
      SubstituteOrdered(queries[exportName], params);
      Query(sub.0, ParamValues(params, sub.1), execute)
  }

  // ---------------------------------------------------------------------------
  // Inserting: coercion, upsert and append
  // ---------------------------------------------------------------------------

  /**
   * The value written to a column of declared type `colType`: containers become
   * their JSON text (`dumps`), then a truthy value that is not an integer (nor a
   * bool, which Python counts as one) in an `INTEGER` column goes through `int()`,
   * with 0 when that fails.
   */
  function Coerce(v: Json, colType: string, dumps: Json -> string): (r: Json)
    ensures !v.JList? && !v.JObj? && !Contains(colType, "INTEGER") ==> r == v
    ensures v.JNull? || v.JInt? || v.JBool? ==> r == v
    ensures (v.JList? || v.JObj?) && !Contains(colType, "INTEGER") ==> r == JStr(dumps(v))
    ensures Contains(colType, "INTEGER") && v.JStr? && v.s != [] ==>
      r == JInt(match ParseInt(v.s) case Some(n) => n case None => 0)
    ensures Contains(colType, "INTEGER") && (v.JList? || v.JObj?) && dumps(v) != [] ==>
      r == JInt(match ParseInt(dumps(v)) case Some(n) => n case None => 0)
  {
    var text := if v.JList? || v.JObj? then JStr(dumps(v)) else v;
    if Contains(colType, "INTEGER") && Truthy(text) && text.JStr? then
      match ParseInt(text.s)
      case Some(n) => JInt(n)
      case None => JInt(0)
    else text
  }

  /**
   * A container's JSON text starts with `[` or `{`, which `int()` never reads:
   * in an `INTEGER` column a list or a dict is written as 0.
   */
  lemma CoerceContainerInteger(v: Json, colType: string, dumps: Json -> string)
    requires v.JList? || v.JObj?
    requires Contains(colType, "INTEGER")
    requires dumps(v) != [] && dumps(v)[0] in "[{"
    ensures Coerce(v, colType, dumps) == JInt(0)
  {
    BracketNotInt(dumps(v));
  }

  /** Text that starts with a bracket is no integer. */
  lemma BracketNotInt(s: string)
    requires s != [] && s[0] in "[{"
    ensures ParseInt(s).None?
  {
    var l := StripLeft(s);
    assert l == s;
    var t := StripRight(l);
    assert t != [] && t[0] == s[0];
  }

  /**
   * The row written for a record: every column of the first record, `NULL`
   * where this record lacks it, and each present value coerced to its column's
   * declared type.
   */
  function BuildRow(record: Row, cols: set<string>, t: Table, dumps: Json -> string): (r: Row)
    requires cols <= t.columns.Keys
    ensures r.Keys == cols
    ensures forall c | c in cols && c !in record :: r[c] == JNull
    ensures forall c | c in cols && c in record :: r[c] == Coerce(record[c], t.columns[c], dumps)
  {
    map c | c in cols :: Coerce(Get(record, c), t.columns[c], dumps)
  }

  /**
   * Whether two rows clash on the table's `UNIQUE` columns. SQLite treats `NULL`s
   * as distinct, so a row with a missing or `NULL` key column clashes with nothing.
   */
  predicate Clash(a: Row, b: Row, unique: seq<string>) {
    && unique != []
    && (forall k | k in unique :: k in a && k in b && a[k] != JNull && a[k] == b[k])
  }

  /** Index of the first row of `rows` clashing with `row`. */
  function FindClash(rows: seq<Row>, row: Row, unique: seq<string>): (r: Option<nat>)
    ensures r.Some? ==> r.value < |rows| && Clash(rows[r.value], row, unique)
    ensures r.None? ==> forall j | 0 <= j < |rows| :: !Clash(rows[j], row, unique)
  {
    if rows == [] then None
    else match FindClash(rows[..|rows| - 1], row, unique)
      case Some(j) => Some(j)
      case None => if Clash(rows[|rows| - 1], row, unique) then Some(|rows| - 1) else None
  }

  /**
   * One row through `INSERT`, or through `INSERT ... ON CONFLICT DO UPDATE SET`
   * every given column except `id`. A plain `INSERT` of a row whose unique key is
   * already stored violates the constraint and is refused (`None`); the upsert
   * updates the stored row instead.
   */
  function ApplyRow(t: Table, row: Row, upsert: bool): (r: Option<Table>)
    ensures r.None? <==> !upsert && FindClash(t.rows, row, t.unique).Some?
    ensures r.Some? ==> r.value.definition == t.definition && r.value.columns == t.columns && r.value.unique == t.unique
    ensures !upsert && r.Some? ==> r.value.rows == t.rows + [row]
    ensures upsert && FindClash(t.rows, row, t.unique).Some? ==> r.Some? && |r.value.rows| == |t.rows|
    ensures upsert && FindClash(t.rows, row, t.unique).None? ==> r == Some(t.(rows := t.rows + [row]))
  {
    match FindClash(t.rows, row, t.unique)
    case None => Some(t.(rows := t.rows + [row]))
    case Some(j) =>
      if !upsert then None
      else
        var updated := t.rows[j] + map c | c in row.Keys && c != "id" :: row[c];
        Some(t.(rows := t.rows[j := updated]))
  }

  /** No two rows of the table clash. */
  predicate KeysDistinct(t: Table) {
    forall i, j | 0 <= i < j < |t.rows| :: !Clash(t.rows[i], t.rows[j], t.unique)
  }

  lemma ClashSymmetric(a: Row, b: Row, unique: seq<string>)
    requires Clash(a, b, unique)
    ensures Clash(b, a, unique)
  {
  }

  /** An updated row keeps the key of the row it clashed with. */
  lemma UpdateKeepsKey(prev: Row, row: Row, unique: seq<string>, other: Row)
    requires Clash(prev, row, unique)
    ensures var updated := prev + map c | c in row.Keys && c != "id" :: row[c];
      Clash(updated, other, unique) <==> Clash(prev, other, unique)
  {
    var updated := prev + map c | c in row.Keys && c != "id" :: row[c];
    forall k | k in unique ensures k in updated && updated[k] == prev[k] {
      assert k in row && row[k] == prev[k];
    }
  }

  /** Both statements keep the unique columns unique: the plain one by refusing a clash, the upsert by updating. */
  lemma ApplyRowKeepsKeysDistinct(t: Table, row: Row, upsert: bool)
    requires KeysDistinct(t)
    ensures ApplyRow(t, row, upsert).Some? ==> KeysDistinct(ApplyRow(t, row, upsert).value)
  {
    match FindClash(t.rows, row, t.unique)
    case None =>
      var r := t.(rows := t.rows + [row]);
      forall i, j | 0 <= i < j < |r.rows| ensures !Clash(r.rows[i], r.rows[j], t.unique) {
        if j == |t.rows| {
          assert r.rows[j] == row;
          assert r.rows[i] == t.rows[i];
        } else {
          assert r.rows[i] == t.rows[i] && r.rows[j] == t.rows[j];
        }
      }
    case Some(k) =>
      if upsert {
        var updated := t.rows[k] + map c | c in row.Keys && c != "id" :: row[c];
        var r := t.(rows := t.rows[k := updated]);
        assert ApplyRow(t, row, upsert) == Some(r);
        forall i, j | 0 <= i < j < |r.rows| ensures !Clash(r.rows[i], r.rows[j], t.unique) {
          if i == k {
            UpdateKeepsKey(t.rows[k], row, t.unique, t.rows[j]);
          } else if j == k {
            UpdateKeepsKey(t.rows[k], row, t.unique, t.rows[i]);
            if Clash(r.rows[i], updated, t.unique) {
              ClashSymmetric(r.rows[i], updated, t.unique);
              ClashSymmetric(t.rows[k], t.rows[i], t.unique);
              assert false;
            }
          }
        }
      }
  }

  /**
   * A row whose key is already stored: the upsert leaves the row count unchanged,
   * and the plain insert is refused.
   */
  lemma ReinsertKeepsCount(t: Table, row: Row, j: nat)
    requires j < |t.rows| && Clash(t.rows[j], row, t.unique)
    ensures ApplyRow(t, row, true).Some? && |ApplyRow(t, row, true).value.rows| == |t.rows|
    ensures ApplyRow(t, row, false).None?
  {
  }

  // ---------------------------------------------------------------------------
  // Inserting: batches
  // ---------------------------------------------------------------------------

  /**
   * Whether a plain `INSERT` of the batch goes through on a table holding `rows`:
   * the database rejects none of its rows, and none clashes with a stored row or
   * with an earlier row of the batch.
   */
  predicate PlainFits(rows: seq<Row>, batch: seq<Row>, unique: seq<string>, rejects: Row -> bool)
    decreases |batch|
  {
    || batch == []
    || (&& !rejects(batch[0]) && FindClash(rows, batch[0], unique).None?
        && PlainFits(rows + [batch[0]], batch[1..], unique, rejects))
  }

  /** Row `i` of the batch passes `rejects` and clashes with no stored row and no earlier row of the batch. */
  predicate RowFits(rows: seq<Row>, batch: seq<Row>, i: nat, unique: seq<string>, rejects: Row -> bool)
    requires i < |batch|
  {
    !rejects(batch[i]) && FindClash(rows + batch[..i], batch[i], unique).None?
  }

  /** Row by row: a batch fits exactly when each of its rows does. */
  lemma {:induction false} PlainFitsRows(rows: seq<Row>, batch: seq<Row>, unique: seq<string>, rejects: Row -> bool)
    ensures PlainFits(rows, batch, unique, rejects) <==>
      forall i | 0 <= i < |batch| :: RowFits(rows, batch, i, unique, rejects)
    decreases |batch|
  {
    if batch != [] {
      var rows', batch' := rows + [batch[0]], batch[1..];
      PlainFitsRows(rows', batch', unique, rejects);
      RowFitsFirst(rows, batch, unique, rejects);
      forall i | 1 <= i < |batch|
        ensures RowFits(rows, batch, i, unique, rejects) == RowFits(rows', batch', i - 1, unique, rejects)
      {
        RowFitsShift(rows, batch, i, unique, rejects);
      }
      if forall j | 0 <= j < |batch'| :: RowFits(rows', batch', j, unique, rejects) {
        forall i | 1 <= i < |batch| ensures RowFits(rows, batch, i, unique, rejects) {
          assert RowFits(rows', batch', i - 1, unique, rejects);
        }
      }
      if forall i | 0 <= i < |batch| :: RowFits(rows, batch, i, unique, rejects) {
        forall j | 0 <= j < |batch'| ensures RowFits(rows', batch', j, unique, rejects) {
          assert RowFits(rows, batch, j + 1, unique, rejects);
        }
      }
    }
  }

  lemma RowFitsFirst(rows: seq<Row>, batch: seq<Row>, unique: seq<string>, rejects: Row -> bool)
    requires batch != []
    ensures RowFits(rows, batch, 0, unique, rejects) <==>
      !rejects(batch[0]) && FindClash(rows, batch[0], unique).None?
  {
    assert rows + batch[..0] == rows;
  }

  /** Row `i` of the batch is row `i - 1` of its tail, once the first row is stored. */
  lemma RowFitsShift(rows: seq<Row>, batch: seq<Row>, i: nat, unique: seq<string>, rejects: Row -> bool)
    requires 1 <= i < |batch|
    ensures RowFits(rows, batch, i, unique, rejects) == RowFits(rows + [batch[0]], batch[1..], i - 1, unique, rejects)
  {
    assert batch[..i] == [batch[0]] + batch[1..][..i - 1];
    assert rows + batch[..i] == rows + [batch[0]] + batch[1..][..i - 1];
  }

  /** Two batches one after the other fit when the first does and the second fits after it. */
  lemma {:induction false} PlainFitsAppend(rows: seq<Row>, a: seq<Row>, b: seq<Row>, unique: seq<string>, rejects: Row -> bool)
    ensures PlainFits(rows, a + b, unique, rejects) <==>
      PlainFits(rows, a, unique, rejects) && PlainFits(rows + a, b, unique, rejects)
    decreases |a|
  {
    if a == [] {
      assert a + b == b && rows + a == rows;
    } else {
      PlainFitsAppend(rows + [a[0]], a[1..], b, unique, rejects);
      assert (a + b)[0] == a[0] && (a + b)[1..] == a[1..] + b;
      assert rows + [a[0]] + a[1..] == rows + a;
    }
  }

  /**
   * `executemany` of one batch: rows are written in order until the first one the
   * database refuses, where the statement raises (`false`). The rows written
   * before it stay in the transaction, which is committed at the end. A row is
   * refused when `rejects` says so and, for a plain `INSERT`, when its key is
   * already in the table.
   */
  function ApplyBatch(t: Table, batch: seq<Row>, upsert: bool, rejects: Row -> bool): (r: (Table, bool))
    ensures r.1 ==> forall i | 0 <= i < |batch| :: !rejects(batch[i])
    ensures upsert ==> (r.1 <==> forall i | 0 <= i < |batch| :: !rejects(batch[i]))
    ensures r.0.definition == t.definition && r.0.columns == t.columns && r.0.unique == t.unique
    decreases |batch|
  {
    if batch == [] then (t, true)
    else
      var next := if rejects(batch[0]) then None else ApplyRow(t, batch[0], upsert);
      if next.None? then (t, false)
      else
        assert forall i | 1 <= i < |batch| :: batch[i] == batch[1..][i - 1];
        ApplyBatch(next.value, batch[1..], upsert, rejects)
  }

  /**
   * A plain `INSERT` batch goes through exactly when it fits, and then appends its
   * rows in order.
   */
  lemma {:induction false} ApplyBatchPlain(t: Table, batch: seq<Row>, rejects: Row -> bool)
    ensures var r := ApplyBatch(t, batch, false, rejects);
      && (r.1 <==> PlainFits(t.rows, batch, t.unique, rejects))
      && (r.1 ==> r.0.rows == t.rows + batch)
    decreases |batch|
  {
    if batch != [] && !rejects(batch[0]) {
      match ApplyRow(t, batch[0], false)
      case None =>
      case Some(t1) =>
        ApplyBatchPlain(t1, batch[1..], rejects);
        assert t1.rows + batch[1..] == t.rows + batch;
    }
  }

  /** A batch keeps the unique columns unique. */
  lemma {:induction false} ApplyBatchKeepsKeysDistinct(t: Table, batch: seq<Row>, upsert: bool, rejects: Row -> bool)
    requires KeysDistinct(t)
    ensures KeysDistinct(ApplyBatch(t, batch, upsert, rejects).0)
    decreases |batch|
  {
    if batch != [] && !rejects(batch[0]) {
      ApplyRowKeepsKeysDistinct(t, batch[0], upsert);
      match ApplyRow(t, batch[0], upsert)
      case None =>
      case Some(t1) => ApplyBatchKeepsKeysDistinct(t1, batch[1..], upsert, rejects);
    }
  }

  /** What happens to the rows of a batch whose statement raised. */
  datatype AfterFailure =
    | Resent  // they stay pending and go out again with the next batch
    | Dropped // they are abandoned and the next batch starts afresh

  /**
   * The loop of `inserir_dados` from record `i` on: the row joins the pending
   * batch, which is sent when it holds `BatchSize` rows or the record is the last.
   * A batch that goes through adds its size to the count and empties the pending
   * list; one that raises is counted as an error and handled as `mode` says.
   */
  function Batches(rows: seq<Row>, i: nat, pending: seq<Row>, t: Table, count: nat,
                   upsert: bool, rejects: Row -> bool, mode: AfterFailure): (r: (Table, nat))
    requires i <= |rows|
    ensures r.0.definition == t.definition && r.0.columns == t.columns && r.0.unique == t.unique
    decreases |rows| - i
  {
    if i == |rows| then (t, count)
    else
      var p := pending + [rows[i]];
      if |p| >= BatchSize || i == |rows| - 1 then
        var sent := ApplyBatch(t, p, upsert, rejects);
        var next := if sent.1 || mode == Dropped then [] else p;
        Batches(rows, i + 1, next, sent.0, if sent.1 then count + |p| else count, upsert, rejects, mode)
      else Batches(rows, i + 1, p, t, count, upsert, rejects, mode)
  }

  /** Consecutive groups of `BatchSize` rows, the last one possibly shorter. */
  function Chunks(rows: seq<Row>): (cs: seq<seq<Row>>)
    ensures forall c | c in cs :: 0 < |c| <= BatchSize
    decreases |rows|
  {
    if rows == [] then []
    else if |rows| <= BatchSize then [rows]
    else [rows[..BatchSize]] + Chunks(rows[BatchSize..])
  }

  /** The first chunk is a full batch, or everything when less is left. */
  lemma ChunksStep(rest: seq<Row>, n: nat)
    requires 0 < n <= |rest| && n <= BatchSize && (n == BatchSize || n == |rest|)
    ensures Chunks(rest) == [rest[..n]] + Chunks(rest[n..])
  {
    if n == |rest| {
      assert rest[..n] == rest && rest[n..] == [];
    }
  }

  /** The reference: every chunk sent once; the count is the size of the chunks that went through. */
  function SendChunks(t: Table, cs: seq<seq<Row>>, count: nat, upsert: bool, rejects: Row -> bool): (r: (Table, nat))
    decreases |cs|
  {
    if cs == [] then (t, count)
    else
      var (t', ok) := ApplyBatch(t, cs[0], upsert, rejects);
      SendChunks(t', cs[1..], if ok then count + |cs[0]| else count, upsert, rejects)
  }

  /** A record that completes a batch sends it. */
  lemma BatchesFlush(rows: seq<Row>, i: nat, pending: seq<Row>, t: Table, count: nat,
                     upsert: bool, rejects: Row -> bool, mode: AfterFailure)
    requires i < |rows| && (|pending| + 1 >= BatchSize || i == |rows| - 1)
    ensures var p := pending + [rows[i]];
      var sent := ApplyBatch(t, p, upsert, rejects);
      Batches(rows, i, pending, t, count, upsert, rejects, mode)
        == Batches(rows, i + 1, if sent.1 || mode == Dropped then [] else p, sent.0,
                   if sent.1 then count + |p| else count, upsert, rejects, mode)
  {
  }

  /** A record that does not complete a batch joins the pending one. */
  lemma BatchesHold(rows: seq<Row>, i: nat, pending: seq<Row>, t: Table, count: nat,
                    upsert: bool, rejects: Row -> bool, mode: AfterFailure)
    requires i < |rows| - 1 && |pending| + 1 < BatchSize
    ensures Batches(rows, i, pending, t, count, upsert, rejects, mode)
         == Batches(rows, i + 1, pending + [rows[i]], t, count, upsert, rejects, mode)
  {
  }

  /** The reference sends the first chunk, then the rest. */
  lemma SendChunksStep(t: Table, p: seq<Row>, rest: seq<seq<Row>>, count: nat, upsert: bool, rejects: Row -> bool)
    ensures var sent := ApplyBatch(t, p, upsert, rejects);
      SendChunks(t, [p] + rest, count, upsert, rejects)
        == SendChunks(sent.0, rest, if sent.1 then count + |p| else count, upsert, rejects)
  {
    assert ([p] + rest)[0] == p && ([p] + rest)[1..] == rest;
  }

  lemma EmptyPrefix(s: seq<Row>)
    ensures [] + s == s
  {
  }

  /** With failed batches dropped, the loop sends exactly the chunks, each once. */
  lemma {:induction false} BatchesAreChunks(rows: seq<Row>, i: nat, pending: seq<Row>, t: Table, count: nat,
                                            upsert: bool, rejects: Row -> bool)
    requires i <= |rows| && |pending| < BatchSize && (i == |rows| ==> pending == [])
    ensures Batches(rows, i, pending, t, count, upsert, rejects, Dropped)
         == SendChunks(t, Chunks(pending + rows[i..]), count, upsert, rejects)
    decreases |rows| - i, 1
  {
    if i == |rows| {
      assert pending + rows[i..] == [];
    } else if |pending| + 1 >= BatchSize || i == |rows| - 1 {
      FlushChunks(rows, i, pending, t, count, upsert, rejects);
    } else {
      HoldChunks(rows, i, pending, t, count, upsert, rejects);
    }
  }

  /** A held record moves from the rows to the pending batch; the text sent is the same. */
  lemma {:induction false} HoldChunks(rows: seq<Row>, i: nat, pending: seq<Row>, t: Table, count: nat,
                                      upsert: bool, rejects: Row -> bool)
    requires i < |rows| - 1 && |pending| + 1 < BatchSize
    ensures Batches(rows, i, pending, t, count, upsert, rejects, Dropped)
         == SendChunks(t, Chunks(pending + rows[i..]), count, upsert, rejects)
    decreases |rows| - i, 0
  {
    var p := pending + [rows[i]];
    BatchesHold(rows, i, pending, t, count, upsert, rejects, Dropped);
    BatchesAreChunks(rows, i + 1, p, t, count, upsert, rejects);
    HeldRow(rows, i, pending);
  }

  lemma HeldRow(rows: seq<Row>, i: nat, pending: seq<Row>)
    requires i < |rows|
    ensures pending + rows[i..] == pending + [rows[i]] + rows[i + 1..]
  {
    assert rows[i..] == [rows[i]] + rows[i + 1..];
  }

  /** A flush sends the first chunk, and the rest of the loop sends the remaining ones. */
  lemma {:induction false} FlushChunks(rows: seq<Row>, i: nat, pending: seq<Row>, t: Table, count: nat,
                                       upsert: bool, rejects: Row -> bool)
    requires i < |rows| && (|pending| + 1 >= BatchSize || i == |rows| - 1) && |pending| < BatchSize
    ensures Batches(rows, i, pending, t, count, upsert, rejects, Dropped)
         == SendChunks(t, Chunks(pending + rows[i..]), count, upsert, rejects)
    decreases |rows| - i, 0
  {
    var p := pending + [rows[i]];
    var sent := ApplyBatch(t, p, upsert, rejects);
    BatchesAreChunks(rows, i + 1, [], sent.0, if sent.1 then count + |p| else count, upsert, rejects);
    FlushedChunk(rows, i, pending);
    SendChunksStep(t, p, Chunks([] + rows[i + 1..]), count, upsert, rejects);
    BatchesFlush(rows, i, pending, t, count, upsert, rejects, Dropped);
  }

  /** A full pending batch, or the last one, is the first chunk of what is left. */
  lemma FlushedChunk(rows: seq<Row>, i: nat, pending: seq<Row>)
    requires i < |rows| && (|pending| + 1 >= BatchSize || i == |rows| - 1) && |pending| < BatchSize
    ensures Chunks(pending + rows[i..]) == [pending + [rows[i]]] + Chunks([] + rows[i + 1..])
  {
    var p := pending + [rows[i]];
    var later := rows[i + 1..];
    assert pending + rows[i..] == p + later;
    ChunksStep(p + later, |p|);
    assert (p + later)[..|p|] == p && (p + later)[|p|..] == later;
    EmptyPrefix(later);
  }

  /** The rows of the chunks, one after the other. */
  function Flatten(cs: seq<seq<Row>>): (rows: seq<Row>)
    decreases |cs|
  {
    if cs == [] then [] else cs[0] + Flatten(cs[1..])
  }

  /** Cutting into chunks loses, adds and reorders nothing. */
  lemma {:induction false} ChunksFlatten(rows: seq<Row>)
    ensures Flatten(Chunks(rows)) == rows
    decreases |rows|
  {
    if |rows| > BatchSize {
      ChunksFlatten(rows[BatchSize..]);
      assert Chunks(rows)[1..] == Chunks(rows[BatchSize..]);
      assert rows[..BatchSize] + rows[BatchSize..] == rows;
    } else if rows != [] {
      assert Chunks(rows)[1..] == [];
    }
  }

  /**
   * The count of the reference never exceeds the rows sent, and reaches it
   * exactly when none of them is refused: for an upsert when `rejects` passes
   * them all, for a plain insert when moreover no row clashes with a stored or an
   * earlier row.
   */
  lemma {:induction false} SendChunksCount(t: Table, cs: seq<seq<Row>>, count: nat, upsert: bool, rejects: Row -> bool)
    ensures var n := SendChunks(t, cs, count, upsert, rejects).1;
      && count <= n <= count + |Flatten(cs)|
      && (n == count + |Flatten(cs)| ==> forall x | x in Flatten(cs) :: !rejects(x))
      && (upsert ==> (n == count + |Flatten(cs)| <==> forall x | x in Flatten(cs) :: !rejects(x)))
      && (!upsert ==> (n == count + |Flatten(cs)| <==> PlainFits(t.rows, Flatten(cs), t.unique, rejects)))
    decreases |cs|
  {
    if cs != [] {
      var (t', ok) := ApplyBatch(t, cs[0], upsert, rejects);
      SendChunksCount(t', cs[1..], if ok then count + |cs[0]| else count, upsert, rejects);
      assert Flatten(cs) == cs[0] + Flatten(cs[1..]);
      PlainFitsAppend(t.rows, cs[0], Flatten(cs[1..]), t.unique, rejects);
      ApplyBatchPlain(t, cs[0], rejects);
      if ok {
        forall x | x in Flatten(cs) ensures x in cs[0] || x in Flatten(cs[1..]) {
        }
      } else if upsert {
        var i :| 0 <= i < |cs[0]| && rejects(cs[0][i]);
        assert cs[0][i] in Flatten(cs);
      }
    }
  }

  /** Plain inserts of chunks that all fit add their rows, in order. */
  lemma {:induction false} SendChunksAppends(t: Table, cs: seq<seq<Row>>, count: nat, rejects: Row -> bool)
    requires PlainFits(t.rows, Flatten(cs), t.unique, rejects)
    ensures SendChunks(t, cs, count, false, rejects).0.rows == t.rows + Flatten(cs)
    decreases |cs|
  {
    if cs != [] {
      var rest := Flatten(cs[1..]);
      var sent := ApplyBatch(t, cs[0], false, rejects);
      FlattenHead(cs);
      FittingBatch(t, cs[0], rest, rejects);
      SendChunksHead(t, cs, count, false, rejects);
      SendChunksAppends(sent.0, cs[1..], count + |cs[0]|, rejects);
      assert t.rows + cs[0] + rest == t.rows + (cs[0] + rest);
    }
  }

  lemma FlattenHead(cs: seq<seq<Row>>)
    requires cs != []
    ensures Flatten(cs) == cs[0] + Flatten(cs[1..])
  {
  }

  /** The reference sends the first chunk, then the rest. */
  lemma SendChunksHead(t: Table, cs: seq<seq<Row>>, count: nat, upsert: bool, rejects: Row -> bool)
    requires cs != []
    ensures var sent := ApplyBatch(t, cs[0], upsert, rejects);
      SendChunks(t, cs, count, upsert, rejects)
        == SendChunks(sent.0, cs[1..], if sent.1 then count + |cs[0]| else count, upsert, rejects)
  {
  }

  /** A first batch that fits goes through and leaves a table on which the rest still fits. */
  lemma FittingBatch(t: Table, batch: seq<Row>, rest: seq<Row>, rejects: Row -> bool)
    requires PlainFits(t.rows, batch + rest, t.unique, rejects)
    ensures var r := ApplyBatch(t, batch, false, rejects);
      r.1 && r.0.rows == t.rows + batch && r.0.unique == t.unique && PlainFits(r.0.rows, rest, t.unique, rejects)
  {
    PlainFitsAppend(t.rows, batch, rest, t.unique, rejects);
    ApplyBatchPlain(t, batch, rejects);
  }

  /** Sending chunks keeps the unique columns unique. */
  lemma {:induction false} SendChunksKeepsKeysDistinct(t: Table, cs: seq<seq<Row>>, count: nat, upsert: bool, rejects: Row -> bool)
    requires KeysDistinct(t)
    ensures KeysDistinct(SendChunks(t, cs, count, upsert, rejects).0)
    decreases |cs|
  {
    if cs != [] {
      ApplyBatchKeepsKeysDistinct(t, cs[0], upsert, rejects);
      var (t', ok) := ApplyBatch(t, cs[0], upsert, rejects);
      SendChunksKeepsKeysDistinct(t', cs[1..], if ok then count + |cs[0]| else count, upsert, rejects);
    }
  }

  /** In the as-written loop, once a rejected row is pending every later batch raises and the count stays. */
  lemma {:induction false} ResentStuck(rows: seq<Row>, i: nat, pending: seq<Row>, t: Table, count: nat,
                                       upsert: bool, rejects: Row -> bool)
    requires i <= |rows|
    requires exists j | 0 <= j < |pending| :: rejects(pending[j])
    ensures Batches(rows, i, pending, t, count, upsert, rejects, Resent).1 == count
    decreases |rows| - i
  {
    if i < |rows| {
      var p := pending + [rows[i]];
      var j :| 0 <= j < |pending| && rejects(pending[j]);
      assert p[j] == pending[j];
      if |p| >= BatchSize || i == |rows| - 1 {
        var sent := ApplyBatch(t, p, upsert, rejects);
        assert !sent.1;
        ResentStuck(rows, i + 1, p, sent.0, count, upsert, rejects);
      } else {
        ResentStuck(rows, i + 1, p, t, count, upsert, rejects);
      }
    }
  }

  // ---------------------------------------------------------------------------
  // inserir_dados
  // ---------------------------------------------------------------------------

  /** What the caller passes: one record, or a list of them. */
  datatype Data = One(record: Row) | Many(records: seq<Row>)

  /** The records as a list, `[]` when the argument is falsy (an empty dict or list). */
  function RecordsOf(data: Data): (rs: seq<Row>)
    ensures data.One? && data.record != map[] ==> rs == [data.record]
    ensures data.Many? ==> rs == data.records
    ensures rs == [] <==> (data.One? && data.record == map[]) || (data.Many? && data.records == [])
  {
    match data
    case One(r) => if r == map[] then [] else [r]
    case Many(rs) => rs
  }

  /** Whether `inserir_dados` reaches the batch loop, and with what. */
  datatype Plan = Refused | Plan(t: Table, cols: set<string>, upsert: bool, rows: seq<Row>)

  /**
   * The checks before the loop: some records, a listed table, and every key of
   * the first record a column of it. The decision to upsert looks at the text of
   * the table definition only.
   */
  function PlanInsert(db: Db, name: string, data: Data, dumps: Json -> string): (p: Plan)
    ensures RecordsOf(data) == [] ==> p.Refused?
    ensures name !in ListTables(db) ==> p.Refused?
    ensures p.Plan? <==> (
      && RecordsOf(data) != [] && name in ListTables(db) && Lookup(db.entries, name).Some?
      && RecordsOf(data)[0].Keys <= Lookup(db.entries, name).value.columns.Keys)
    ensures p.Plan? ==> (
      && p.t == Lookup(db.entries, name).value
      && p.cols == RecordsOf(data)[0].Keys
      && (p.upsert <==> Contains(Upper(p.t.definition), "UNIQUE("))
      && |p.rows| == |RecordsOf(data)|
      && (forall i | 0 <= i < |p.rows| :: p.rows[i].Keys == p.cols)
      && forall i | 0 <= i < |p.rows| :: p.rows[i] == BuildRow(RecordsOf(data)[i], p.cols, p.t, dumps))
  {
    var records := RecordsOf(data);
    if records == [] || name !in ListTables(db) then Refused
    else match Lookup(db.entries, name)
      case None => Refused
      case Some(t) =>
        var cols := records[0].Keys;
        if !(cols <= t.columns.Keys) then Refused
        else
          var rows := seq(|records|, i requires 0 <= i < |records| => BuildRow(records[i], cols, t, dumps));
          Plan(t, cols, Contains(Upper(t.definition), "UNIQUE("), rows)
  }

  /**
   * The rows SQLite refuses: those of `rejects`, and every row when the statement
   * itself is malformed, which happens when the first record has no field
   * (`INSERT INTO t () VALUES ()`) or when the upsert has nothing to update
   * (`DO UPDATE SET` with no column).
   */
  function Refuses(p: Plan, rejects: Row -> bool): (bad: Row -> bool)
    requires p.Plan?
    ensures p.cols == {} ==> forall r :: bad(r)
    ensures p.upsert && p.cols <= {"id"} ==> forall r :: bad(r)
    ensures p.cols != {} && !(p.upsert && p.cols <= {"id"}) ==> bad == rejects
  {
    if p.cols == {} || (p.upsert && p.cols <= {"id"}) then (r: Row) => true else rejects
  }

  /** `inserir_dados` as written: the rows of a failed batch are sent again with every later batch. */
  function InsertDataAsWritten(db: Db, name: string, data: Data, rejects: Row -> bool, dumps: Json -> string): (r: (Db, nat))
    ensures PlanInsert(db, name, data, dumps).Refused? ==> r == (db, 0)
    ensures r.1 <= |RecordsOf(data)|
  {
    match PlanInsert(db, name, data, dumps)
    case Refused => (db, 0)
    case Plan(t, cols, upsert, rows) =>
      var p := PlanInsert(db, name, data, dumps);
      var (t', n) := Batches(rows, 0, [], t, 0, upsert, Refuses(p, rejects), Resent);
      BatchesAreChunksBound(rows, t, upsert, Refuses(p, rejects), Resent);
      (Db(Store(db.entries, name, t')), n)
  }

  /** `inserir_dados` with each failed batch skipped, so every record is sent exactly once. */
  function InsertData(db: Db, name: string, data: Data, rejects: Row -> bool, dumps: Json -> string): (r: (Db, nat))
    ensures PlanInsert(db, name, data, dumps).Refused? ==> r == (db, 0)
    ensures r.1 <= |RecordsOf(data)|
  {
    match PlanInsert(db, name, data, dumps)
    case Refused => (db, 0)
    case Plan(t, cols, upsert, rows) =>
      var p := PlanInsert(db, name, data, dumps);
      var (t', n) := Batches(rows, 0, [], t, 0, upsert, Refuses(p, rejects), Dropped);
      BatchesAreChunksBound(rows, t, upsert, Refuses(p, rejects), Dropped);
      (Db(Store(db.entries, name, t')), n)
  }

  /** Neither loop counts more rows than it was given. */
  lemma BatchesAreChunksBound(rows: seq<Row>, t: Table, upsert: bool, rejects: Row -> bool, mode: AfterFailure)
    ensures Batches(rows, 0, [], t, 0, upsert, rejects, mode).1 <= |rows|
  {
    BatchesCountBound(rows, 0, [], t, 0, upsert, rejects, mode);
  }

  /**
   * The count grows only by sent batches, and a batch is counted only when it
   * went through, which for `Resent` means it held no earlier failed row.
   */
  lemma {:induction false} BatchesCountBound(rows: seq<Row>, i: nat, pending: seq<Row>, t: Table, count: nat,
                                             upsert: bool, rejects: Row -> bool, mode: AfterFailure)
    requires i <= |rows|
    requires count + |pending| <= i
    ensures Batches(rows, i, pending, t, count, upsert, rejects, mode).1 <= count + |pending| + (|rows| - i)
    decreases |rows| - i
  {
    if i < |rows| {
      var p := pending + [rows[i]];
      if |p| >= BatchSize || i == |rows| - 1 {
        var sent := ApplyBatch(t, p, upsert, rejects);
        var next := if sent.1 || mode == Dropped then [] else p;
        BatchesCountBound(rows, i + 1, next, sent.0, if sent.1 then count + |p| else count, upsert, rejects, mode);
      } else {
        BatchesCountBound(rows, i + 1, p, t, count, upsert, rejects, mode);
      }
    }
  }

  /** With failed batches skipped, `inserir_dados` sends the chunks of the planned rows, each once. */
  lemma InsertDataSendsChunks(db: Db, name: string, data: Data, rejects: Row -> bool, dumps: Json -> string)
    requires PlanInsert(db, name, data, dumps).Plan?
    ensures var p := PlanInsert(db, name, data, dumps);
      var sent := SendChunks(p.t, Chunks(p.rows), 0, p.upsert, Refuses(p, rejects));
      InsertData(db, name, data, rejects, dumps) == (Db(Store(db.entries, name, sent.0)), sent.1)
  {
    var p := PlanInsert(db, name, data, dumps);
    BatchesAreChunks(p.rows, 0, [], p.t, 0, p.upsert, Refuses(p, rejects));
    assert [] + p.rows[0..] == p.rows;
  }

  /**
   * With failed batches skipped, the count is the number of records exactly when
   * the database refuses none of them: for an upsert, none fails `rejects`; for a
   * plain insert, moreover none repeats the key of a stored or an earlier record.
   */
  lemma InsertDataCount(db: Db, name: string, data: Data, rejects: Row -> bool, dumps: Json -> string)
    requires PlanInsert(db, name, data, dumps).Plan?
    ensures var p := PlanInsert(db, name, data, dumps);
      var n := InsertData(db, name, data, rejects, dumps).1;
      && (p.upsert ==> (n == |RecordsOf(data)| <==> forall x | x in p.rows :: !Refuses(p, rejects)(x)))
      && (!p.upsert ==> (n == |RecordsOf(data)| <==> PlainFits(p.t.rows, p.rows, p.t.unique, Refuses(p, rejects))))
  {
    var p := PlanInsert(db, name, data, dumps);
    InsertDataSendsChunks(db, name, data, rejects, dumps);
    ChunksFlatten(p.rows);
    SendChunksCount(p.t, Chunks(p.rows), 0, p.upsert, Refuses(p, rejects));
  }

  /**
   * A plain insert whose records all fit adds them all to the table, in order,
   * and leaves the other tables alone.
   */
  lemma InsertDataAppends(db: Db, name: string, data: Data, rejects: Row -> bool, dumps: Json -> string, other: string)
    requires PlanInsert(db, name, data, dumps).Plan?
    requires other != name
    requires var p := PlanInsert(db, name, data, dumps);
      !p.upsert && PlainFits(p.t.rows, p.rows, p.t.unique, Refuses(p, rejects))
    ensures var p := PlanInsert(db, name, data, dumps);
      var r := InsertData(db, name, data, rejects, dumps);
      && Lookup(r.0.entries, name) == Some(p.t.(rows := p.t.rows + p.rows))
      && Lookup(r.0.entries, other) == Lookup(db.entries, other)
  {
    var p := PlanInsert(db, name, data, dumps);
    InsertDataSendsChunks(db, name, data, rejects, dumps);
    ChunksFlatten(p.rows);
    SendChunksAppends(p.t, Chunks(p.rows), 0, Refuses(p, rejects));
    var sent := SendChunks(p.t, Chunks(p.rows), 0, p.upsert, Refuses(p, rejects));
    BatchesAreChunks(p.rows, 0, [], p.t, 0, p.upsert, Refuses(p, rejects));
    assert sent.0.definition == p.t.definition && sent.0.columns == p.t.columns && sent.0.unique == p.t.unique;
    StoreOthers(db.entries, name, sent.0, other);
  }

  /** Whatever the records, the corrected insert leaves the table's unique columns unique. */
  lemma InsertDataKeepsKeysDistinct(db: Db, name: string, data: Data, rejects: Row -> bool, dumps: Json -> string)
    requires PlanInsert(db, name, data, dumps).Plan?
    requires KeysDistinct(PlanInsert(db, name, data, dumps).t)
    ensures var r := InsertData(db, name, data, rejects, dumps);
      Lookup(r.0.entries, name).Some? && KeysDistinct(Lookup(r.0.entries, name).value)
  {
    var p := PlanInsert(db, name, data, dumps);
    InsertDataSendsChunks(db, name, data, rejects, dumps);
    SendChunksKeepsKeysDistinct(p.t, Chunks(p.rows), 0, p.upsert, Refuses(p, rejects));
  }

  /** As written, once the first record is refused every later batch starts with it. */
  lemma {:induction false} ResentFirstRejected(rows: seq<Row>, i: nat, t: Table, upsert: bool, rejects: Row -> bool)
    requires 1 <= i <= |rows| && rejects(rows[0])
    ensures Batches(rows, i, rows[..i], t, 0, upsert, rejects, Resent) == (t, 0)
    decreases |rows| - i
  {
    if i < |rows| {
      assert rows[..i] + [rows[i]] == rows[..i + 1];
      ResentFirstRejected(rows, i + 1, t, upsert, rejects);
    }
  }

  /** As written, a refused first record means nothing at all is written or counted. */
  lemma ResentNothingWritten(rows: seq<Row>, t: Table, upsert: bool, rejects: Row -> bool)
    requires rows != [] && rejects(rows[0])
    ensures Batches(rows, 0, [], t, 0, upsert, rejects, Resent) == (t, 0)
  {
    assert [] + [rows[0]] == rows[..1];
    ResentFirstRejected(rows, 1, t, upsert, rejects);
  }

  /** Skipping the failed batch, the second batch of 1001 records still goes through. */
  lemma DroppedRecovers(rows: seq<Row>, t: Table, rejects: Row -> bool)
    requires |rows| == BatchSize + 1 && rejects(rows[0]) && !rejects(rows[BatchSize])
    requires FindClash(t.rows, rows[BatchSize], t.unique).None?
    ensures Batches(rows, 0, [], t, 0, false, rejects, Dropped) == (t.(rows := t.rows + [rows[BatchSize]]), 1)
  {
    BatchesAreChunks(rows, 0, [], t, 0, false, rejects);
    assert [] + rows[0..] == rows;
    assert rows[BatchSize..] == [rows[BatchSize]];
    var cs := Chunks(rows);
    assert cs == [rows[..BatchSize], [rows[BatchSize]]];
    assert ApplyBatch(t, cs[0], false, rejects) == (t, false);
    var t1 := t.(rows := t.rows + [rows[BatchSize]]);
    assert ApplyRow(t, rows[BatchSize], false) == Some(t1);
    assert [rows[BatchSize]][1..] == [];
    assert ApplyBatch(t, cs[1], false, rejects) == (t1, true);
    assert cs[1..][1..] == [];
    assert SendChunks(t, cs, 0, false, rejects) == SendChunks(t1, [], 1, false, rejects);
  }

  /**
   * 1001 records of which only the first is refused: as written, nothing is
   * inserted and 0 is returned; skipping the failed batch, the last record is
   * inserted and 1 is returned.
   */
  lemma ResubmissionLosesLaterBatches(db: Db, name: string, data: Data, rejects: Row -> bool, dumps: Json -> string)
    requires PlanInsert(db, name, data, dumps).Plan?
    requires var p := PlanInsert(db, name, data, dumps);
      && !p.upsert && |p.rows| == BatchSize + 1
      && Refuses(p, rejects)(p.rows[0]) && !Refuses(p, rejects)(p.rows[BatchSize])
      && FindClash(p.t.rows, p.rows[BatchSize], p.t.unique).None?
    ensures var p := PlanInsert(db, name, data, dumps);
      var asWritten := InsertDataAsWritten(db, name, data, rejects, dumps);
      var fixed := InsertData(db, name, data, rejects, dumps);
      && asWritten.1 == 0 && Lookup(asWritten.0.entries, name) == Some(p.t)
      && fixed.1 == 1 && Lookup(fixed.0.entries, name) == Some(p.t.(rows := p.t.rows + [p.rows[BatchSize]]))
  {
    var p := PlanInsert(db, name, data, dumps);
    ResentNothingWritten(p.rows, p.t, false, Refuses(p, rejects));
    DroppedRecovers(p.rows, p.t, Refuses(p, rejects));
  }
}
