/**
 * Parsed XML elements and their conversion to nested dictionaries
 * (`ProcessadorXML._elemento_para_dict`): attributes first, then the stripped
 * non-blank text under `_text`, then one entry per child keyed by its local tag
 * name, with repeated names promoted to lists in document order.
 */
module XmlTree {
  import opened Common
  import opened JsonValue

  /** A parsed element. The tag may carry a `{namespace-uri}` prefix; absent text is "". */
  datatype Elem = Elem(tag: string, attrs: map<string, string>, text: string, children: seq<Elem>)

  /** The tag without its namespace: `tag.split('}')[1]` when the tag holds a `}`. */
  function LocalName(tag: string): (n: string)
    ensures !HasChar(tag, '}') ==> n == tag
    ensures !HasChar(n, '}')
  {
    if HasChar(tag, '}') then SplitOn(tag, '}')[1] else tag
  }

  /** The Clark-notation tag `{uri}local` that a parser produces inside a namespace. */
  function Qualify(uri: string, local: string): string {
    "{" + uri + "}" + local
  }

  lemma LocalNameOfQualified(uri: string, local: string)
    requires !HasChar(uri, '}') && !HasChar(local, '}')
    ensures LocalName(Qualify(uri, local)) == local
  {
    var head := "{" + uri;
    assert !HasChar(head, '}') by {
      forall i | 0 <= i < |head| ensures head[i] != '}' {
        if i > 0 { assert head[i] == uri[i - 1]; }
      }
    }
    assert Qualify(uri, local) == head + ['}'] + local;
    assert Qualify(uri, local)[|head|] == '}';
    SplitJoin(head, '}', local);
    SplitPlain(local, '}');
  }

  // ---------------------------------------------------------------------------
  // Element to dictionary
  // ---------------------------------------------------------------------------

  /** The dictionary before any child is added: the attributes, then `_text`. */
  function Initial(e: Elem): (r: map<string, Json>)
    ensures forall k | k in r :: !r[k].JList?
  {
    var attrs := map k | k in e.attrs :: JStr(e.attrs[k]);
    if !IsBlank(e.text) then attrs["_text" := JStr(Strip(e.text))] else attrs
  }

  /** Adding one child entry: a repeated name turns the entry into a list and appends. */
  function Add(acc: map<string, Json>, name: string, v: Json): map<string, Json> {
    if name in acc then
      match acc[name]
      case JList(items) => acc[name := JList(items + [v])]
      case _ => acc[name := JList([acc[name], v])]
    else acc[name := v]
  }

  function Fold(acc: map<string, Json>, kids: seq<(string, Json)>): map<string, Json>
    decreases |kids|
  {
    if kids == [] then acc else Fold(Add(acc, kids[0].0, kids[0].1), kids[1..])
  }

  /** The child entries in document order: each child's local name and dictionary. */
  function Entries(e: Elem): (r: seq<(string, Json)>)
    ensures |r| == |e.children|
    ensures forall i | 0 <= i < |r| :: r[i].0 == LocalName(e.children[i].tag) && r[i].1.JObj?
    decreases e, 0
  {
    seq(|e.children|, i requires 0 <= i < |e.children| => (LocalName(e.children[i].tag), JObj(ToDict(e.children[i]))))
  }

  /** `_elemento_para_dict(e)`. */
  function ToDict(e: Elem): map<string, Json>
    decreases e, 1
  {
    Fold(Initial(e), Entries(e))
  }

  /** The dictionaries of the children whose local name is `t`, in document order. */
  function Occurrences(kids: seq<(string, Json)>, t: string): seq<Json> {
    if kids == [] then []
    else (if kids[0].0 == t then [kids[0].1] else []) + Occurrences(kids[1..], t)
  }

  /** What a key holds, as the list of values collected under it. */
  function View(acc: map<string, Json>, t: string): seq<Json> {
    if t !in acc then []
    else if acc[t].JList? then acc[t].items
    else [acc[t]]
  }

  /** Every list held in the dictionary came from promotion, so it has at least two values. */
  predicate WellShaped(acc: map<string, Json>) {
    forall k | k in acc :: acc[k].JList? ==> |acc[k].items| >= 2
  }

  predicate NoLists(kids: seq<(string, Json)>) {
    forall i | 0 <= i < |kids| :: !kids[i].1.JList?
  }

  lemma {:induction false} FoldView(acc: map<string, Json>, kids: seq<(string, Json)>, t: string)
    requires WellShaped(acc) && NoLists(kids)
    ensures WellShaped(Fold(acc, kids))
    ensures View(Fold(acc, kids), t) == View(acc, t) + Occurrences(kids, t)
    decreases |kids|
  {
    if kids != [] {
      var next := Add(acc, kids[0].0, kids[0].1);
      assert WellShaped(next);
      assert View(next, t) == View(acc, t) + (if kids[0].0 == t then [kids[0].1] else []);
      assert NoLists(kids[1..]) by {
        forall i | 0 <= i < |kids[1..]| ensures !kids[1..][i].1.JList? {
          assert kids[1..][i] == kids[i + 1];
        }
      }
      FoldView(next, kids[1..], t);
    }
  }

  lemma {:induction false} FoldKeys(acc: map<string, Json>, kids: seq<(string, Json)>)
    ensures Fold(acc, kids).Keys == acc.Keys + set i | 0 <= i < |kids| :: kids[i].0
    decreases |kids|
  {
    if kids != [] {
      FoldKeys(Add(acc, kids[0].0, kids[0].1), kids[1..]);
      var tail := set i | 0 <= i < |kids[1..]| :: kids[1..][i].0;
      var all := set i | 0 <= i < |kids| :: kids[i].0;
      assert all == {kids[0].0} + tail by {
        forall x | x in all ensures x in {kids[0].0} + tail {
          var i :| 0 <= i < |kids| && kids[i].0 == x;
          if i > 0 { assert kids[1..][i - 1].0 == x; }
        }
        forall x | x in tail ensures x in all {
          var i :| 0 <= i < |kids[1..]| && kids[1..][i].0 == x;
          assert kids[i + 1].0 == x;
        }
      }
    }
  }

  /** The local names of an element's children. */
  function ChildNames(e: Elem): set<string> {
    set i | 0 <= i < |e.children| :: LocalName(e.children[i].tag)
  }

  lemma EntryNames(e: Elem)
    ensures (set i | 0 <= i < |Entries(e)| :: Entries(e)[i].0) == ChildNames(e)
  {
    var kids := Entries(e);
    forall x | x in ChildNames(e) ensures x in set i | 0 <= i < |kids| :: kids[i].0 {
      var i :| 0 <= i < |e.children| && LocalName(e.children[i].tag) == x;
      assert kids[i].0 == x;
    }
  }

  lemma InitialKeys(e: Elem)
    ensures Initial(e).Keys == e.attrs.Keys + (if IsBlank(e.text) then {} else {"_text"})
  {
  }

  /** The dictionary's keys: every attribute, `_text` for non-blank text, and every child's local name. */
  lemma DictKeys(e: Elem)
    ensures ToDict(e).Keys
         == e.attrs.Keys + (if IsBlank(e.text) then {} else {"_text"}) + ChildNames(e)
  {
    FoldKeys(Initial(e), Entries(e));
    EntryNames(e);
    InitialKeys(e);
  }

  lemma Grouping(e: Elem, t: string)
    ensures View(ToDict(e), t) == View(Initial(e), t) + Occurrences(Entries(e), t)
    ensures t in ToDict(e) && ToDict(e)[t].JList? ==> |ToDict(e)[t].items| >= 2
  {
    assert NoLists(Entries(e));
    FoldView(Initial(e), Entries(e), t);
  }

  /** Values under `t` when the initial dictionary holds `init` there and the children supply `occ`. */
  lemma Collected(acc: map<string, Json>, t: string, init: seq<Json>, occ: seq<Json>)
    requires View(acc, t) == init + occ
    requires t in acc && acc[t].JList? ==> |acc[t].items| >= 2
    requires forall i | 0 <= i < |init + occ| :: !(init + occ)[i].JList?
    ensures |init + occ| == 0 ==> t !in acc
    ensures |init + occ| == 1 ==> t in acc && acc[t] == (init + occ)[0]
    ensures |init + occ| >= 2 ==> t in acc && acc[t] == JList(init + occ)
  {
  }

  /** `Occurrences` only ever collects child dictionaries. */
  lemma OccurrencesAreObjects(e: Elem, t: string)
    ensures forall i | 0 <= i < |Occurrences(Entries(e), t)| :: Occurrences(Entries(e), t)[i].JObj?
  {
    OccurrencesFrom(Entries(e), t);
  }

  lemma {:induction false} OccurrencesFrom(kids: seq<(string, Json)>, t: string)
    requires forall i | 0 <= i < |kids| :: kids[i].1.JObj?
    ensures forall i | 0 <= i < |Occurrences(kids, t)| :: Occurrences(kids, t)[i].JObj?
    decreases |kids|
  {
    if kids != [] {
      OccurrencesFrom(kids[1..], t);
    }
  }

  /**
   * A child name that no attribute and no `_text` entry shares maps to nothing when
   * absent, to the child's dictionary when it occurs once, and to the list of all
   * occurrences, in document order, when it occurs two or more times.
   */
  lemma ChildEntry(e: Elem, t: string)
    requires t !in e.attrs && (t == "_text" ==> IsBlank(e.text))
    ensures var occ := Occurrences(Entries(e), t);
            var r := ToDict(e);
            && (|occ| == 0 ==> t !in r)
            && (|occ| == 1 ==> t in r && r[t] == occ[0])
            && (|occ| >= 2 ==> t in r && r[t] == JList(occ))
  {
    var occ := Occurrences(Entries(e), t);
    Grouping(e, t);
    InitialKeys(e);
    assert View(Initial(e), t) == [];
    OccurrencesAreObjects(e, t);
    assert [] + occ == occ;
    Collected(ToDict(e), t, [], occ);
  }

  /**
   * The attribute-first order: an attribute and a single child with the same
   * name end up together in a two-element list, the attribute's text first.
   */
  lemma AttributeCollision(e: Elem, t: string)
    requires t in e.attrs && t != "_text"
    requires |Occurrences(Entries(e), t)| == 1
    ensures t in ToDict(e)
    ensures ToDict(e)[t] == JList([JStr(e.attrs[t]), Occurrences(Entries(e), t)[0]])
  {
    var occ := Occurrences(Entries(e), t);
    Grouping(e, t);
    assert Initial(e)[t] == JStr(e.attrs[t]);
    OccurrencesAreObjects(e, t);
    Collected(ToDict(e), t, [JStr(e.attrs[t])], occ);
  }

  /** An attribute that no child name shares keeps its text. */
  lemma AttributeEntry(e: Elem, t: string)
    requires t in e.attrs && (t == "_text" ==> IsBlank(e.text))
    requires Occurrences(Entries(e), t) == []
    ensures t in ToDict(e) && ToDict(e)[t] == JStr(e.attrs[t])
  {
    Grouping(e, t);
    assert Initial(e)[t] == JStr(e.attrs[t]);
    Collected(ToDict(e), t, [JStr(e.attrs[t])], []);
  }

  /** Non-blank text is stored stripped under `_text`, unless a child is also named `_text`. */
  lemma TextEntry(e: Elem)
    requires !IsBlank(e.text)
    requires Occurrences(Entries(e), "_text") == []
    ensures "_text" in ToDict(e) && ToDict(e)["_text"] == JStr(Strip(e.text))
  {
    Grouping(e, "_text");
    assert Initial(e)["_text"] == JStr(Strip(e.text));
    Collected(ToDict(e), "_text", [JStr(Strip(e.text))], []);
  }

  // ---------------------------------------------------------------------------
  // Document order
  // ---------------------------------------------------------------------------

  function Flatten<T>(xss: seq<seq<T>>): (r: seq<T>)
    ensures forall i, x | 0 <= i < |xss| && x in xss[i] :: x in r
  {
    if xss == [] then [] else xss[0] + Flatten(xss[1..])
  }

  /** `e.iter()`: the element itself, then every descendant in document order. */
  function Preorder(e: Elem): (r: seq<Elem>)
    ensures |r| >= 1 && r[0] == e
    ensures forall i | 0 <= i < |e.children| :: e.children[i] in r
  {
    var xss := seq(|e.children|, i requires 0 <= i < |e.children| => Preorder(e.children[i]));
    assert forall i | 0 <= i < |e.children| :: e.children[i] == xss[i][0] && xss[i][0] in xss[i];
    [e] + Flatten(xss)
  }
}
