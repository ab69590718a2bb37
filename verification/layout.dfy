/**
 * Event identification (`identificar_layout`, `encontrar_primeiro_esocial` and
 * the `ESOCIAL_EVENT_PATTERNS` table of `processador_xml.py`).
 */
module Layout {
  import opened Common
  import opened XmlTree

  /** `ESOCIAL_EVENT_PATTERNS`: the event element's local name and its layout code. */
  const EventCodes: map<string, string> := map[
    "evtTabLotacao" := "S-1020",
    "evtTabCargo" := "S-1030",
    "evtRemun" := "S-1200",
    "evtAdmissao" := "S-2200",
    "evtAltCadastral" := "S-2205",
    "evtAltContratual" := "S-2206",
    "evtAfastTemp" := "S-2230"
  ]

  /** A tag that marks an eSocial envelope. */
  predicate IsESocialTag(tag: string) {
    EndsWith(tag, "eSocial") || EndsWith(tag, "eSocial>")
  }

  /** Local names of a sequence of elements. */
  function Names(xs: seq<Elem>): (r: seq<string>)
    ensures |r| == |xs| && forall i | 0 <= i < |xs| :: r[i] == LocalName(xs[i].tag)
  {
    seq(|xs|, i requires 0 <= i < |xs| => LocalName(xs[i].tag))
  }

  /** The first element of `xs` whose tag marks an envelope. */
  function FirstESocialIn(xs: seq<Elem>): (r: Option<Elem>)
    ensures r.None? <==> forall i | 0 <= i < |xs| :: !IsESocialTag(xs[i].tag)
    ensures r.Some? ==> exists i | 0 <= i < |xs| ::
              xs[i] == r.value && IsESocialTag(xs[i].tag) && forall j | 0 <= j < i :: !IsESocialTag(xs[j].tag)
  {
    if xs == [] then None
    else if IsESocialTag(xs[0].tag) then Some(xs[0])
    else
      var r := FirstESocialIn(xs[1..]);
      assert r.Some? ==> exists i | 0 <= i < |xs| ::
        xs[i] == r.value && IsESocialTag(xs[i].tag) && forall j | 0 <= j < i :: !IsESocialTag(xs[j].tag) by {
        if r.Some? {
          var i :| 0 <= i < |xs[1..]| && xs[1..][i] == r.value && IsESocialTag(xs[1..][i].tag)
                   && forall j | 0 <= j < i :: !IsESocialTag(xs[1..][j].tag);
          assert forall j | 0 <= j < i + 1 :: !IsESocialTag(xs[j].tag) by {
            forall j | 0 <= j < i + 1 ensures !IsESocialTag(xs[j].tag) {
              if j > 0 { assert xs[j] == xs[1..][j - 1]; }
            }
          }
          assert xs[i + 1] == r.value;
        }
      }
      assert r.None? ==> forall i | 0 <= i < |xs| :: !IsESocialTag(xs[i].tag) by {
        if r.None? {
          forall i | 0 <= i < |xs| ensures !IsESocialTag(xs[i].tag) {
            if i > 0 { assert xs[i] == xs[1..][i - 1]; }
          }
        }
      }
      r
  }

  /** `encontrar_primeiro_esocial(root)`: the root itself or its first descendant marking an envelope. */
  function FirstESocial(root: Elem): Option<Elem> {
    FirstESocialIn(Preorder(root))
  }

  /** Where identification starts: the first envelope element if there is one, else the root. */
  function StartOf(root: Elem): Elem {
    match FirstESocial(root)
    case Some(x) => x
    case None => root
  }

  /** The code of the first name found in the table. */
  function FirstCode(names: seq<string>): (r: Option<string>)
    ensures r.None? <==> forall i | 0 <= i < |names| :: names[i] !in EventCodes
    ensures r.Some? ==> exists i | 0 <= i < |names| ::
              names[i] in EventCodes && r.value == EventCodes[names[i]]
              && forall j | 0 <= j < i :: names[j] !in EventCodes
  {
    if names == [] then None
    else if names[0] in EventCodes then Some(EventCodes[names[0]])
    else
      var r := FirstCode(names[1..]);
      assert r.Some? ==> exists i | 0 <= i < |names| ::
        names[i] in EventCodes && r.value == EventCodes[names[i]]
        && forall j | 0 <= j < i :: names[j] !in EventCodes by {
        if r.Some? {
          var i :| 0 <= i < |names[1..]| && names[1..][i] in EventCodes && r.value == EventCodes[names[1..][i]]
                   && forall j | 0 <= j < i :: names[1..][j] !in EventCodes;
          assert forall j | 0 <= j < i + 1 :: names[j] !in EventCodes by {
            forall j | 0 <= j < i + 1 ensures names[j] !in EventCodes {
              if j > 0 { assert names[j] == names[1..][j - 1]; }
            }
          }
          assert names[i + 1] == names[1..][i];
        }
      }
      assert r.None? ==> forall i | 0 <= i < |names| :: names[i] !in EventCodes by {
        if r.None? {
          forall i | 0 <= i < |names| ensures names[i] !in EventCodes {
            if i > 0 { assert names[i] == names[1..][i - 1]; }
          }
        }
      }
      r
  }

  /** The first name that starts with `evt`, returned literally. */
  function FirstEvt(names: seq<string>): (r: Option<string>)
    ensures r.None? <==> forall i | 0 <= i < |names| :: !StartsWith(names[i], "evt")
    ensures r.Some? ==> exists i | 0 <= i < |names| ::
              names[i] == r.value && StartsWith(names[i], "evt")
              && forall j | 0 <= j < i :: !StartsWith(names[j], "evt")
  {
    if names == [] then None
    else if StartsWith(names[0], "evt") then Some(names[0])
    else
      var r := FirstEvt(names[1..]);
      assert r.Some? ==> exists i | 0 <= i < |names| ::
        names[i] == r.value && StartsWith(names[i], "evt")
        && forall j | 0 <= j < i :: !StartsWith(names[j], "evt") by {
        if r.Some? {
          var i :| 0 <= i < |names[1..]| && names[1..][i] == r.value && StartsWith(names[1..][i], "evt")
                   && forall j | 0 <= j < i :: !StartsWith(names[1..][j], "evt");
          assert forall j | 0 <= j < i + 1 :: !StartsWith(names[j], "evt") by {
            forall j | 0 <= j < i + 1 ensures !StartsWith(names[j], "evt") {
              if j > 0 { assert names[j] == names[1..][j - 1]; }
            }
          }
          assert names[i + 1] == names[1..][i];
        }
      }
      assert r.None? ==> forall i | 0 <= i < |names| :: !StartsWith(names[i], "evt") by {
        if r.None? {
          forall i | 0 <= i < |names| ensures !StartsWith(names[i], "evt") {
            if i > 0 { assert names[i] == names[1..][i - 1]; }
          }
        }
      }
      r
  }

  /** The code of a single local name. */
  function CodeOf(name: string): (r: Option<string>)
    ensures r.Some? <==> name in EventCodes
  {
    if name in EventCodes then Some(EventCodes[name]) else None
  }

  /** The checks made before the document-order search: the envelope's children, or the start element itself. */
  function DirectCode(start: Elem): Option<string> {
    if EndsWith(start.tag, "eSocial") then FirstCode(Names(start.children))
    else CodeOf(LocalName(start.tag))
  }

  /** The three searches of `identificar_layout`, from the starting element on. */
  function IdentifyFrom(start: Elem): (r: Option<string>)
    ensures r.Some? ==> r.value in EventCodes.Values || StartsWith(r.value, "evt")
  {
    var direct := DirectCode(start);
    if direct.Some? then direct
    else
      var all := Names(Preorder(start));
      var deep := FirstCode(all);
      if deep.Some? then deep else FirstEvt(all)
  }

  /** `identificar_layout(root)`. */
  function IdentifyLayout(root: Elem): (r: Option<string>)
    ensures r.Some? ==> r.value in EventCodes.Values || StartsWith(r.value, "evt")
  {
    IdentifyFrom(StartOf(root))
  }

  /**
   * When neither the envelope's children nor the start element carry a known
   * name, the code of the first known name in document order wins; only when
   * there is none does the first `evt` name count.
   */
  lemma IdentifyFallback(root: Elem)
    requires DirectCode(StartOf(root)).None?
    ensures var all := Names(Preorder(StartOf(root)));
      IdentifyLayout(root) == if FirstCode(all).Some? then FirstCode(all) else FirstEvt(all)
  {
  }

  lemma DirectCodeFound(start: Elem)
    requires DirectCode(start).Some?
    ensures exists i | 0 <= i < |Names(Preorder(start))| :: Names(Preorder(start))[i] in EventCodes
  {
    if EndsWith(start.tag, "eSocial") {
      var names := Names(start.children);
      assert FirstCode(names).Some?;
      var i :| 0 <= i < |names| && names[i] in EventCodes;
      ChildInPreorder(start, i);
    } else {
      assert Names(Preorder(start))[0] == LocalName(start.tag);
    }
  }

  /** A direct child's local name is among the names of the document-order walk. */
  lemma ChildInPreorder(start: Elem, i: nat)
    requires i < |start.children|
    ensures exists k | 0 <= k < |Names(Preorder(start))| :: Names(Preorder(start))[k] == LocalName(start.children[i].tag)
  {
    var all := Preorder(start);
    var c := start.children[i];
    assert c in all;
    var k :| 0 <= k < |all| && all[k] == c;
    assert Names(all)[k] == LocalName(c.tag);
  }

  /**
   * No layout is found exactly when no element from the starting point down has
   * a local name in the table or one starting with `evt`.
   */
  lemma IdentifyNone(root: Elem)
    ensures IdentifyLayout(root).None?
        <==> forall n | n in Names(Preorder(StartOf(root))) :: n !in EventCodes && !StartsWith(n, "evt")
  {
    if DirectCode(StartOf(root)).Some? {
      DirectCodeFound(StartOf(root));
    }
  }

  /**
   * In an envelope whose children include a known event, the first such child
   * (in document order) decides the code, whatever its descendants hold.
   */
  lemma EnvelopeChildDecides(root: Elem, i: nat)
    requires FirstESocial(root).Some? && EndsWith(StartOf(root).tag, "eSocial")
    requires i < |StartOf(root).children|
    requires LocalName(StartOf(root).children[i].tag) in EventCodes
    requires forall j | 0 <= j < i :: LocalName(StartOf(root).children[j].tag) !in EventCodes
    ensures IdentifyLayout(root) == Some(EventCodes[LocalName(StartOf(root).children[i].tag)])
  {
    var names := Names(StartOf(root).children);
    var r := FirstCode(names);
    var k :| 0 <= k < |names| && names[k] in EventCodes && r.value == EventCodes[names[k]]
             && forall j | 0 <= j < k :: names[j] !in EventCodes;
    assert k == i;
  }

  // ---------------------------------------------------------------------------
  // Namespace independence
  // ---------------------------------------------------------------------------

  /** Every tag in the tree is a plain local name. */
  predicate BraceFree(e: Elem) {
    !HasChar(e.tag, '}') && forall i | 0 <= i < |e.children| :: BraceFree(e.children[i])
  }

  /** The same tree with every tag placed in namespace `uri` (as a default `xmlns` does). */
  function QualifyAll(e: Elem, uri: string): (r: Elem)
    ensures |r.children| == |e.children|
    ensures forall i | 0 <= i < |e.children| :: r.children[i] == QualifyAll(e.children[i], uri)
  {
    Elem(Qualify(uri, e.tag), e.attrs, e.text,
      seq(|e.children|, i requires 0 <= i < |e.children| => QualifyAll(e.children[i], uri)))
  }

  function QualifySeq(xs: seq<Elem>, uri: string): (r: seq<Elem>)
    ensures |r| == |xs| && forall i | 0 <= i < |xs| :: r[i] == QualifyAll(xs[i], uri)
  {
    seq(|xs|, i requires 0 <= i < |xs| => QualifyAll(xs[i], uri))
  }

  lemma {:induction false} FlattenQualify(xss: seq<seq<Elem>>, uri: string)
    ensures Flatten(seq(|xss|, i requires 0 <= i < |xss| => QualifySeq(xss[i], uri)))
         == QualifySeq(Flatten(xss), uri)
  {
    var mapped := seq(|xss|, i requires 0 <= i < |xss| => QualifySeq(xss[i], uri));
    if xss != [] {
      FlattenQualify(xss[1..], uri);
      assert mapped[1..] == seq(|xss[1..]|, i requires 0 <= i < |xss[1..]| => QualifySeq(xss[1..][i], uri));
      assert QualifySeq(xss[0] + Flatten(xss[1..]), uri) == QualifySeq(xss[0], uri) + QualifySeq(Flatten(xss[1..]), uri);
    }
  }

  /** Qualifying a tree qualifies each element of its document order. */
  lemma PreorderQualify(e: Elem, uri: string)
    ensures Preorder(QualifyAll(e, uri)) == QualifySeq(Preorder(e), uri)
  {
    var q := QualifyAll(e, uri);
    var xss := seq(|e.children|, i requires 0 <= i < |e.children| => Preorder(e.children[i]));
    var mapped := seq(|xss|, i requires 0 <= i < |xss| => QualifySeq(xss[i], uri));
    forall i | 0 <= i < |mapped| ensures mapped[i] == Preorder(q.children[i]) {
      PreorderQualify(e.children[i], uri);
    }
    PreorderSplit(q, mapped);
    PreorderSplit(e, xss);
    FlattenQualify(xss, uri);
    QualifySeqCons(e, Flatten(xss), uri);
  }

  /** A tree's document order is the tree followed by its children's orders, given as `xss`. */
  lemma PreorderSplit(e: Elem, xss: seq<seq<Elem>>)
    requires |xss| == |e.children| && forall i | 0 <= i < |xss| :: xss[i] == Preorder(e.children[i])
    ensures Preorder(e) == [e] + Flatten(xss)
  {
    assert xss == seq(|e.children|, i requires 0 <= i < |e.children| => Preorder(e.children[i]));
  }

  lemma QualifySeqCons(e: Elem, xs: seq<Elem>, uri: string)
    ensures QualifySeq([e] + xs, uri) == [QualifyAll(e, uri)] + QualifySeq(xs, uri)
  {
  }

  lemma {:induction false} BraceFreeFlatten(xss: seq<seq<Elem>>)
    requires forall i, j | 0 <= i < |xss| && 0 <= j < |xss[i]| :: BraceFree(xss[i][j])
    ensures forall k | 0 <= k < |Flatten(xss)| :: BraceFree(Flatten(xss)[k])
  {
    if xss != [] {
      BraceFreeFlatten(xss[1..]);
      var f := Flatten(xss);
      forall k | 0 <= k < |f| ensures BraceFree(f[k]) {
        if k >= |xss[0]| {
          assert f[k] == Flatten(xss[1..])[k - |xss[0]|];
        }
      }
    }
  }

  lemma PreorderBraceFree(e: Elem)
    requires BraceFree(e)
    ensures forall k | 0 <= k < |Preorder(e)| :: BraceFree(Preorder(e)[k])
  {
    var xss := seq(|e.children|, i requires 0 <= i < |e.children| => Preorder(e.children[i]));
    forall i | 0 <= i < |e.children| ensures forall j | 0 <= j < |xss[i]| :: BraceFree(xss[i][j]) {
      PreorderBraceFree(e.children[i]);
    }
    BraceFreeFlatten(xss);
    var p := Preorder(e);
    forall k | 0 <= k < |p| ensures BraceFree(p[k]) {
      if k > 0 { assert p[k] == Flatten(xss)[k - 1]; }
    }
  }

  lemma NoBraceInEsocial(t: string, i: nat)
    requires i < 7
    ensures "eSocial"[i] != '}' && "eSocial>"[i] != '}'
  {
  }

  /** The envelope test on a tag does not depend on its namespace. */
  lemma SuffixOfQualified(uri: string, t: string, suffix: string)
    requires !HasChar(t, '}') && !HasChar(suffix, '}')
    ensures EndsWith(Qualify(uri, t), suffix) <==> EndsWith(t, suffix)
  {
    var q := Qualify(uri, t);
    assert q == ("{" + uri + "}") + t;
    if |suffix| <= |t| {
      assert q[|q| - |suffix|..] == t[|t| - |suffix|..];
    } else if |suffix| <= |q| {
      var k := |suffix| - |t| - 1;
      assert q[|q| - |t| - 1] == '}';
      assert q[|q| - |suffix|..][k] == '}';
      assert suffix[k] != '}';
    }
  }

  lemma ESocialTagQualified(uri: string, t: string)
    requires !HasChar(t, '}')
    ensures IsESocialTag(Qualify(uri, t)) <==> IsESocialTag(t)
    ensures EndsWith(Qualify(uri, t), "eSocial") <==> EndsWith(t, "eSocial")
  {
    assert !HasChar("eSocial", '}');
    assert !HasChar("eSocial>", '}');
    SuffixOfQualified(uri, t, "eSocial");
    SuffixOfQualified(uri, t, "eSocial>");
  }

  lemma {:induction false} FirstESocialQualify(xs: seq<Elem>, uri: string)
    requires forall k | 0 <= k < |xs| :: !HasChar(xs[k].tag, '}')
    ensures FirstESocialIn(QualifySeq(xs, uri))
         == match FirstESocialIn(xs) case Some(x) => Some(QualifyAll(x, uri)) case None => None
  {
    if xs != [] {
      ESocialTagQualified(uri, xs[0].tag);
      assert QualifySeq(xs, uri)[1..] == QualifySeq(xs[1..], uri);
      FirstESocialQualify(xs[1..], uri);
    }
  }

  lemma NamesQualify(xs: seq<Elem>, uri: string)
    requires !HasChar(uri, '}')
    requires forall k | 0 <= k < |xs| :: !HasChar(xs[k].tag, '}')
    ensures Names(QualifySeq(xs, uri)) == Names(xs)
  {
    forall k | 0 <= k < |xs| ensures LocalName(QualifyAll(xs[k], uri).tag) == LocalName(xs[k].tag) {
      LocalNameOfQualified(uri, xs[k].tag);
    }
  }

  lemma StartQualify(e: Elem, uri: string)
    requires BraceFree(e) && !HasChar(uri, '}')
    ensures StartOf(QualifyAll(e, uri)) == QualifyAll(StartOf(e), uri)
    ensures BraceFree(StartOf(e))
  {
    PreorderQualify(e, uri);
    PreorderBraceFree(e);
    FirstESocialQualify(Preorder(e), uri);
  }

  /**
   * Identification compares local names only: putting every tag of a document
   * in a namespace, whatever its URI, does not change the layout found.
   */
  lemma IdentifyIgnoresNamespace(e: Elem, uri: string)
    requires BraceFree(e) && !HasChar(uri, '}')
    ensures IdentifyLayout(QualifyAll(e, uri)) == IdentifyLayout(e)
  {
    StartQualify(e, uri);
    IdentifyFromQualify(StartOf(e), uri);
  }

  lemma IdentifyFromQualify(s: Elem, uri: string)
    requires BraceFree(s) && !HasChar(uri, '}')
    ensures IdentifyFrom(QualifyAll(s, uri)) == IdentifyFrom(s)
  {
    DirectCodeQualify(s, uri);
    AllNamesQualify(s, uri);
  }

  lemma DirectCodeQualify(s: Elem, uri: string)
    requires BraceFree(s) && !HasChar(uri, '}')
    ensures DirectCode(QualifyAll(s, uri)) == DirectCode(s)
  {
    var qs := QualifyAll(s, uri);
    ESocialTagQualified(uri, s.tag);
    LocalNameOfQualified(uri, s.tag);
    assert qs.children == QualifySeq(s.children, uri);
    NamesQualify(s.children, uri);
  }

  lemma AllNamesQualify(s: Elem, uri: string)
    requires BraceFree(s) && !HasChar(uri, '}')
    ensures Names(Preorder(QualifyAll(s, uri))) == Names(Preorder(s))
  {
    PreorderQualify(s, uri);
    PreorderBraceFree(s);
    NamesQualify(Preorder(s), uri);
  }

  /** Hence two documents that differ only in the namespace URI get the same layout. */
  lemma SameLayoutAcrossVersions(e: Elem, uri1: string, uri2: string)
    requires BraceFree(e) && !HasChar(uri1, '}') && !HasChar(uri2, '}')
    ensures IdentifyLayout(QualifyAll(e, uri1)) == IdentifyLayout(QualifyAll(e, uri2))
  {
    IdentifyIgnoresNamespace(e, uri1);
    IdentifyIgnoresNamespace(e, uri2);
  }

  // ---------------------------------------------------------------------------
  // Examples
  // ---------------------------------------------------------------------------

  /** An envelope holding one event that the table does not list, without namespaces. */
  function InfoEmpregadorDoc(): Elem {
    Elem("eSocial", map[], "", [
      Elem("evtInfoEmpregador", map["Id" := "ID1234567890"], "", [
        Elem("ideEvento", map[], "", [Elem("tpAmb", map[], "1", [])])])])
  }

  lemma InfoEmpregadorPreorder()
    ensures var d := InfoEmpregadorDoc();
            Preorder(d) == [d, d.children[0], d.children[0].children[0], d.children[0].children[0].children[0]]
  {
    var d := InfoEmpregadorDoc();
    var ev := d.children[0];
    var ide := ev.children[0];
    var amb := ide.children[0];
    PreorderOneChild(ide);
    PreorderOneChild(ev);
    PreorderOneChild(d);
  }

  lemma PreorderOneChild(e: Elem)
    requires |e.children| == 1
    ensures Preorder(e) == [e] + Preorder(e.children[0])
  {
    var xss := seq(|e.children|, i requires 0 <= i < |e.children| => Preorder(e.children[i]));
    assert xss == [Preorder(e.children[0])];
    assert Flatten(xss) == Preorder(e.children[0]) + Flatten([]);
  }

  lemma InfoEmpregadorNames()
    ensures Names(Preorder(InfoEmpregadorDoc())) == ["eSocial", "evtInfoEmpregador", "ideEvento", "tpAmb"]
  {
    var d := InfoEmpregadorDoc();
    var ev := d.children[0];
    var ide := ev.children[0];
    var amb := ide.children[0];
    InfoEmpregadorPreorder();
    PlainTag(d.tag);
    PlainTag(ev.tag);
    PlainTag(ide.tag);
    PlainTag(amb.tag);
    PlainNames4([d, ev, ide, amb]);
  }

  lemma PlainNames4(xs: seq<Elem>)
    requires |xs| == 4 && forall k | 0 <= k < |xs| :: !HasChar(xs[k].tag, '}')
    ensures Names(xs) == [xs[0].tag, xs[1].tag, xs[2].tag, xs[3].tag]
  {
    PlainNames(xs);
  }

  /** Names of elements whose tags carry no namespace are the tags themselves. */
  lemma PlainNames(xs: seq<Elem>)
    requires forall k | 0 <= k < |xs| :: !HasChar(xs[k].tag, '}')
    ensures Names(xs) == seq(|xs|, k requires 0 <= k < |xs| => xs[k].tag)
  {
  }

  lemma InfoEmpregadorStart()
    ensures StartOf(InfoEmpregadorDoc()) == InfoEmpregadorDoc()
  {
    var d := InfoEmpregadorDoc();
    assert Preorder(d)[0] == d;
    assert EndsWith(d.tag, "eSocial");
  }

  lemma InfoEmpregadorPlain()
    ensures IdentifyLayout(InfoEmpregadorDoc()) == Some("evtInfoEmpregador")
  {
    var d := InfoEmpregadorDoc();
    InfoEmpregadorStart();
    InfoEmpregadorNames();
    var names := Names(Preorder(d));
    UnlistedNames(names);
    assert Names(d.children) == [names[1]];
  }

  /** None of the example's names is in the table; the event's own name is the first starting with `evt`. */
  lemma UnlistedNames(names: seq<string>)
    requires names == ["eSocial", "evtInfoEmpregador", "ideEvento", "tpAmb"]
    ensures FirstCode(names) == None && FirstCode([names[1]]) == None
    ensures FirstEvt(names) == Some("evtInfoEmpregador")
  {
    forall i | 0 <= i < |names| ensures names[i] !in EventCodes {
      NotListed(names[i]);
    }
    assert names[0][1] == 'S';
    assert StartsWith(names[1], "evt");
  }

  lemma NotListed(name: string)
    requires name in ["eSocial", "evtInfoEmpregador", "ideEvento", "tpAmb"]
    ensures name !in EventCodes
  {
  }

  /** An element with one child is brace-free when its tag and its child are. */
  lemma BraceFreeOneChild(e: Elem)
    requires |e.children| == 1 && !HasChar(e.tag, '}') && BraceFree(e.children[0])
    ensures BraceFree(e)
  {
  }

  lemma BraceFreeLeaf(e: Elem)
    requires e.children == [] && !HasChar(e.tag, '}')
    ensures BraceFree(e)
  {
  }

  lemma PlainTag(t: string)
    requires t in ["eSocial", "evtInfoEmpregador", "ideEvento", "tpAmb", "evtAdmissao"]
    ensures !HasChar(t, '}')
  {
  }

  lemma InfoEmpregadorBraceFree()
    ensures BraceFree(InfoEmpregadorDoc())
  {
    var d := InfoEmpregadorDoc();
    var ev := d.children[0];
    var ide := ev.children[0];
    var amb := ide.children[0];
    PlainTag(amb.tag);
    BraceFreeLeaf(amb);
    PlainTag(ide.tag);
    BraceFreeOneChild(ide);
    PlainTag(ev.tag);
    BraceFreeOneChild(ev);
    PlainTag(d.tag);
    BraceFreeOneChild(d);
  }

  /** An event outside the table is still identified, by its own `evt` name, in every schema version. */
  lemma InfoEmpregadorIdentified(uri: string)
    requires !HasChar(uri, '}')
    ensures IdentifyLayout(QualifyAll(InfoEmpregadorDoc(), uri)) == Some("evtInfoEmpregador")
  {
    InfoEmpregadorBraceFree();
    InfoEmpregadorPlain();
    IdentifyIgnoresNamespace(InfoEmpregadorDoc(), uri);
  }

  /** An envelope holding a single admission event. */
  function AdmissaoDoc(): Elem {
    Elem("eSocial", map[], "", [Elem("evtAdmissao", map[], "", [])])
  }

  lemma AdmissaoPlain()
    ensures BraceFree(AdmissaoDoc())
    ensures IdentifyLayout(AdmissaoDoc()) == Some("S-2200")
  {
    var d := AdmissaoDoc();
    var ev := d.children[0];
    PlainTag(ev.tag);
    BraceFreeLeaf(ev);
    PlainTag(d.tag);
    BraceFreeOneChild(d);
    assert Preorder(d)[0] == d;
    assert EndsWith(d.tag, "eSocial");
    assert StartOf(d) == d;
    assert Names(d.children) == [ev.tag];
  }

  /** An admission event inside a namespaced envelope is layout S-2200. */
  lemma AdmissaoIdentified(uri: string)
    requires !HasChar(uri, '}')
    ensures IdentifyLayout(QualifyAll(AdmissaoDoc(), uri)) == Some("S-2200")
  {
    AdmissaoPlain();
    IdentifyIgnoresNamespace(AdmissaoDoc(), uri);
  }
}
