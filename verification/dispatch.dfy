/**
 * Which files `ProcessadorXML.processar_diretorio` reads, and how
 * `_processar_arquivo` hands events to the per-layout handlers and counts the
 * results. Parsing and the handlers themselves are outside the model: a file
 * arrives already parsed (or not), and a handler is a function from the layout
 * code and the event element to its outcome.
 */
module Dispatch {
  import opened Common
  import opened XmlTree
  import opened Layout

  // ---------------------------------------------------------------------------
  // File name filter
  // ---------------------------------------------------------------------------

  /** The layouts listed in `processar_diretorio`. */
  const SupportedLayouts: seq<string> := ["S-1020", "S-1030", "S-1200", "S-2200", "S-2205", "S-2206", "S-2230"]

  /** `gera_variacoes(layout)`: the compact form `S2200` and its `S-` and `S_` spellings. */
  function Variations(layout: string): (r: seq<string>)
    ensures |r| == 3
    ensures !StartsWith(layout, "S-") ==> r[0] == layout
    ensures StartsWith(layout, "S-") && !HasChar(layout[2..], 'S') ==>
      r == ["S" + layout[2..], "S-" + layout[2..], "S_" + layout[2..]]
  {
    RespelledLayout(layout);
    var base := if StartsWith(layout, "S-") then ReplaceAll(layout, "S-", "S") else layout;
    [base, ReplaceAll(base, "S", "S-"), ReplaceAll(base, "S", "S_")]
  }

  lemma RespelledLayout(layout: string)
    ensures StartsWith(layout, "S-") && !HasChar(layout[2..], 'S') ==>
      && ReplaceAll(layout, "S-", "S") == "S" + layout[2..]
      && ReplaceAll("S" + layout[2..], "S", "S-") == "S-" + layout[2..]
      && ReplaceAll("S" + layout[2..], "S", "S_") == "S_" + layout[2..]
  {
    if StartsWith(layout, "S-") && !HasChar(layout[2..], 'S') {
      assert layout == "S-" + layout[2..];
      Respelled(layout[2..]);
    }
  }

  /** The replacements of `gera_variacoes` on `S-` followed by text without `S`. */
  lemma Respelled(d: string)
    requires !HasChar(d, 'S')
    ensures ReplaceAll("S-" + d, "S-", "S") == "S" + d
    ensures ReplaceAll("S" + d, "S", "S-") == "S-" + d
    ensures ReplaceAll("S" + d, "S", "S_") == "S_" + d
  {
    NoS(d);
    assert ("S-" + d)[..2] == "S-" && ("S-" + d)[2..] == d;
    assert ("S" + d)[..1] == "S" && ("S" + d)[1..] == d;
  }

  lemma NoS(d: string)
    requires !HasChar(d, 'S')
    ensures !Contains(d, "S-") && !Contains(d, "S")
  {
    forall i | 0 <= i <= |d| ensures !OccursAt(d, "S-", i) && !OccursAt(d, "S", i) {
      if i < |d| {
        assert d[i] != 'S';
        if i + 1 <= |d| { assert d[i..i + 1][0] == d[i]; }
        if i + 2 <= |d| { assert d[i..i + 2][0] == d[i]; }
      }
    }
  }

  /** `padroes`: each layout's variations appended in turn, as the loop extends the list. */
  function Patterns(layouts: seq<string>): (r: seq<string>)
    ensures |r| == 3 * |layouts|
    ensures forall i | 0 <= i < |r| :: r[i] == Variations(layouts[i / 3])[i % 3]
  {
    if layouts == [] then []
    else
      var n := |layouts| - 1;
      var init := Patterns(layouts[..n]);
      var r := init + Variations(layouts[n]);
      forall i | 0 <= i < |r| ensures r[i] == Variations(layouts[i / 3])[i % 3] {
        if i < 3 * n {
          assert r[i] == init[i] && layouts[..n][i / 3] == layouts[i / 3];
        } else {
          assert i / 3 == n && i % 3 == i - 3 * n;
        }
      }
      r
  }

  /** A file is read when its lower-cased name contains one lower-cased pattern. */
  predicate Accepted(fileName: string) {
    AcceptedBy(fileName, SupportedLayouts)
  }

  /** The same test against any list of layouts. */
  predicate AcceptedBy(fileName: string, layouts: seq<string>) {
    exists p | p in Patterns(layouts) :: Contains(Lower(fileName), Lower(p))
  }

  /** The four digits of every supported layout. */
  const LayoutDigits: seq<string> := ["1020", "1030", "1200", "2200", "2205", "2206", "2230"]

  /** The separators a pattern may put between `S` and the digits. */
  const Separators: seq<string> := ["", "-", "_"]

  /** Each layout is `S-` followed by its digits. */
  predicate Spelled(layouts: seq<string>, digits: seq<string>) {
    |layouts| == |digits| && forall k | 0 <= k < |layouts| :: layouts[k] == "S-" + digits[k] && AllDigits(digits[k])
  }

  lemma SupportedSpelled()
    ensures Spelled(SupportedLayouts, LayoutDigits) && |LayoutDigits| == 7
  {
  }

  lemma VariationsOf(d: string)
    requires AllDigits(d)
    ensures Variations("S-" + d) == ["S" + d, "S-" + d, "S_" + d]
  {
    assert ("S-" + d)[2..] == d;
    DigitsHaveNo(d, 'S');
  }

  /** Pattern `3k + j` is `S`, separator `j` and the digits of layout `k`. */
  lemma PatternAt(layouts: seq<string>, digits: seq<string>, k: nat, j: nat)
    requires Spelled(layouts, digits) && k < |layouts| && j < 3
    ensures Patterns(layouts)[3 * k + j] == "S" + Separators[j] + digits[k]
  {
    var i, d := 3 * k + j, digits[k];
    assert i / 3 == k && i % 3 == j;
    assert Patterns(layouts)[i] == Variations(layouts[k])[j];
    assert layouts[k] == "S-" + d;
    VariationsOf(d);
    assert Variations(layouts[k]) == ["S" + d, "S-" + d, "S_" + d];
    SeparatedForms(d, j);
  }

  lemma SeparatedForms(d: string, j: nat)
    requires j < 3
    ensures ["S" + d, "S-" + d, "S_" + d][j] == "S" + Separators[j] + d
  {
    if j == 0 {
      assert "S" + Separators[0] == "S";
    }
  }

  /** Lower-casing `S`, a separator and digits touches only the `S`. */
  lemma LowerSeparated(sep: string, d: string)
    requires sep in Separators && AllDigits(d)
    ensures Lower("S" + sep + d) == "s" + sep + d
  {
    var p := "S" + sep + d;
    var q := "s" + sep + d;
    forall i | 0 <= i < |p| ensures LowerChar(p[i]) == q[i] {
      if i > 0 { assert p[i] == q[i]; }
    }
  }

  /**
   * The filter in plain terms: the lower-cased name contains `s`, an optional `-`
   * or `_`, and the four digits of a supported layout.
   */
  lemma AcceptedIff(fileName: string)
    ensures Accepted(fileName) <==>
      exists k, j | 0 <= k < 7 && 0 <= j < 3 :: Contains(Lower(fileName), "s" + Separators[j] + LayoutDigits[k])
  {
    SupportedSpelled();
    AcceptedByIff(fileName, SupportedLayouts, LayoutDigits);
  }

  lemma AcceptedByIff(fileName: string, layouts: seq<string>, digits: seq<string>)
    requires Spelled(layouts, digits)
    ensures AcceptedBy(fileName, layouts) <==>
      exists k, j | 0 <= k < |digits| && 0 <= j < 3 :: Contains(Lower(fileName), "s" + Separators[j] + digits[k])
  {
    if AcceptedBy(fileName, layouts) {
      AcceptedHasPattern(fileName, layouts, digits);
    }
    if exists k, j | 0 <= k < |digits| && 0 <= j < 3 :: Contains(Lower(fileName), "s" + Separators[j] + digits[k]) {
      var k, j :| 0 <= k < |digits| && 0 <= j < 3 && Contains(Lower(fileName), "s" + Separators[j] + digits[k]);
      PatternAccepted(fileName, layouts, digits, k, j);
    }
  }

  lemma AcceptedHasPattern(fileName: string, layouts: seq<string>, digits: seq<string>)
    requires Spelled(layouts, digits) && AcceptedBy(fileName, layouts)
    ensures exists k, j | 0 <= k < |digits| && 0 <= j < 3 :: Contains(Lower(fileName), "s" + Separators[j] + digits[k])
  {
    var pats := Patterns(layouts);
    var p :| p in pats && Contains(Lower(fileName), Lower(p));
    var i :| 0 <= i < |pats| && pats[i] == p;
    var k, j := i / 3, i % 3;
    assert i == 3 * k + j;
    PatternAt(layouts, digits, k, j);
    LowerSeparated(Separators[j], digits[k]);
    assert Contains(Lower(fileName), "s" + Separators[j] + digits[k]);
  }

  lemma PatternAccepted(fileName: string, layouts: seq<string>, digits: seq<string>, k: nat, j: nat)
    requires Spelled(layouts, digits) && k < |digits| && j < 3
    requires Contains(Lower(fileName), "s" + Separators[j] + digits[k])
    ensures AcceptedBy(fileName, layouts)
  {
    var pats := Patterns(layouts);
    PatternAt(layouts, digits, k, j);
    LowerSeparated(Separators[j], digits[k]);
    assert pats[3 * k + j] in pats;
  }

  /** A name holding `pat` lower-cased at position `at` is accepted. */
  lemma AcceptedAt(fileName: string, at: nat, k: nat, j: nat)
    requires k < 7 && j < 3
    requires at + 5 + |Separators[j]| <= |fileName|
    requires forall i | 0 <= i < 5 + |Separators[j]| ::
               LowerChar(fileName[at + i]) == ("s" + Separators[j] + LayoutDigits[k])[i]
    ensures Accepted(fileName)
  {
    var pat := "s" + Separators[j] + LayoutDigits[k];
    var n := Lower(fileName);
    assert n[at..at + |pat|] == pat;
    assert OccursAt(n, pat, at);
    AcceptedIff(fileName);
  }

  lemma AcceptedExample()
    ensures Accepted("S-2200.xml")
  {
    var f := "S-2200.xml";
    assert Separators[1] == "-" && LayoutDigits[3] == "2200";
    var pat := "s-2200";
    assert "s" + Separators[1] + LayoutDigits[3] == pat;
    assert LowerChar(f[0]) == pat[0];
    assert forall i | 1 <= i < 6 :: f[i] == pat[i] && LowerChar(f[i]) == f[i];
    AcceptedAt(f, 0, 3, 1);
  }

  // ---------------------------------------------------------------------------
  // Per-file dispatch
  // ---------------------------------------------------------------------------

  /** The layouts that have a handler (`self.processadores`). */
  function Registered(): (r: set<string>)
    ensures r == set k | k in EventCodes :: EventCodes[k]
  {
    EventCodes.Values
  }

  /** What a handler call does: returns True, returns False, or raises. */
  datatype HandlerResult = Succeeded | Failed | Raised

  /** A file as the processor finds it: present or not, its size, and the parsed tree if parsing succeeded. */
  datatype XmlFile = XmlFile(present: bool, size: nat, tree: Option<Elem>)

  /** The file's result and what it adds to the processed and error counters. */
  datatype Outcome = Outcome(ok: bool, processed: nat, errors: nat)

  /** The handler an event reaches, if any: `None` when it has no layout or no registered handler. */
  function Route(event: Elem): (r: Option<string>)
    ensures r.Some? ==> r.value in Registered()
  {
    match IdentifyLayout(event)
    case Some(code) => if code in Registered() then Some(code) else None
    case None => None
  }

  /** What happens to one event: skipped (`None`), or the result of its handler. */
  function Verdict(event: Elem, handler: (string, Elem) -> HandlerResult): Option<HandlerResult> {
    match Route(event)
    case Some(code) => Some(handler(code, event))
    case None => None
  }

  /** How many verdicts are `want`. */
  function CountResult(vs: seq<Option<HandlerResult>>, want: HandlerResult): (n: nat)
    ensures n <= |vs|
  {
    if vs == [] then 0
    else CountResult(vs[..|vs| - 1], want) + (if vs[|vs| - 1] == Some(want) then 1 else 0)
  }

  /** The verdict at `r` is the first that raises. */
  predicate FirstRaisedAt(vs: seq<Option<HandlerResult>>, r: int) {
    0 <= r < |vs| && vs[r] == Some(Raised) && Some(Raised) !in vs[..r]
  }

  /** What happens to each direct child of an envelope, in document order. */
  function Verdicts(events: seq<Elem>, handler: (string, Elem) -> HandlerResult): (vs: seq<Option<HandlerResult>>)
    ensures |vs| == |events|
    ensures forall i | 0 <= i < |events| :: vs[i] == Verdict(events[i], handler)
  {
    seq(|events|, i requires 0 <= i < |events| => Verdict(events[i], handler))
  }

  /**
   * The events of an envelope, one after the other, given what happens to each.
   * Skipped events leave the counters alone. A handler that raises ends the file
   * with one more error, keeping the counts made so far.
   */
  method DispatchVerdicts(vs: seq<Option<HandlerResult>>) returns (o: Outcome)
    ensures Some(Raised) !in vs ==>
      && o.processed == CountResult(vs, Succeeded)
      && o.errors == CountResult(vs, Failed)
      && (o.ok <==> o.errors == 0)
    ensures Some(Raised) in vs ==> !o.ok && o.errors >= 1
    ensures forall r | FirstRaisedAt(vs, r) ::
      o == Outcome(false, CountResult(vs[..r], Succeeded), CountResult(vs[..r], Failed) + 1)
    ensures o.processed + o.errors <= |vs|
  {
    var ok := true;
    var processed, errors := 0, 0;
    var i := 0;
    while i < |vs|
      invariant 0 <= i <= |vs|
      invariant Some(Raised) !in vs[..i]
      invariant processed == CountResult(vs[..i], Succeeded)
      invariant errors == CountResult(vs[..i], Failed)
      invariant processed + errors <= i
      invariant ok <==> errors == 0
    {
      assert vs[..i + 1][..i] == vs[..i];
      match vs[i] {
        case None =>
        case Some(result) =>
          if result == Raised {
            return Outcome(false, processed, errors + 1);
          } else if result == Succeeded {
            processed := processed + 1;
          } else {
            errors := errors + 1;
            ok := false;
          }
      }
      assert vs[..i + 1] == vs[..i] + [vs[i]];
      i := i + 1;
    }
    assert vs[..i] == vs;
    return Outcome(ok, processed, errors);
  }

  /** The envelope branch of `_processar_arquivo`: every direct child is an event. */
  method DispatchEnvelope(events: seq<Elem>, handler: (string, Elem) -> HandlerResult) returns (o: Outcome)
    ensures var vs := Verdicts(events, handler);
      && (Some(Raised) !in vs ==>
            o.processed == CountResult(vs, Succeeded) && o.errors == CountResult(vs, Failed) && (o.ok <==> o.errors == 0))
      && (Some(Raised) in vs ==> !o.ok && o.errors >= 1)
      && (forall r | FirstRaisedAt(vs, r) ::
            o == Outcome(false, CountResult(vs[..r], Succeeded), CountResult(vs[..r], Failed) + 1))
    ensures o.processed + o.errors <= |events|
  {
    o := DispatchVerdicts(Verdicts(events, handler));
  }

  /** `_processar_arquivo`: the checks on the file, then the envelope or single-event path. */
  method ProcessFile(f: XmlFile, handler: (string, Elem) -> HandlerResult) returns (o: Outcome)
    ensures !f.present || f.size < 50 || f.tree.None? ==> o == Outcome(false, 0, 1)
    ensures o.ok ==> o.errors == 0
    ensures f.present && f.size >= 50 && f.tree.Some? && !EndsWith(f.tree.value.tag, "eSocial") ==>
      o == (match Route(f.tree.value)
            case None => Outcome(false, 0, 1)
            case Some(code) => if handler(code, f.tree.value) == Succeeded then Outcome(true, 1, 0) else Outcome(false, 0, 1))
    ensures f.present && f.size >= 50 && f.tree.Some? && EndsWith(f.tree.value.tag, "eSocial") ==>
      var vs := Verdicts(f.tree.value.children, handler);
      && (Some(Raised) !in vs ==>
            o.processed == CountResult(vs, Succeeded) && o.errors == CountResult(vs, Failed) && (o.ok <==> o.errors == 0))
      && (Some(Raised) in vs ==> !o.ok && o.errors >= 1)
      && (forall r | FirstRaisedAt(vs, r) ::
            o == Outcome(false, CountResult(vs[..r], Succeeded), CountResult(vs[..r], Failed) + 1))
      && o.processed + o.errors <= |f.tree.value.children|
  {
    if !f.present || f.size < 50 || f.tree.None? {
      return Outcome(false, 0, 1);
    }
    var root := f.tree.value;
    if EndsWith(root.tag, "eSocial") {
      o := DispatchEnvelope(root.children, handler);
      return;
    }
    match Route(root) {
      case None =>
        return Outcome(false, 0, 1);
      case Some(code) =>
        if handler(code, root) == Succeeded {
          return Outcome(true, 1, 0);
        }
        return Outcome(false, 0, 1);
    }
  }
}
