/**
 Templates the validator accepts and a run can still be stranded on: a family for the kinds of the
 last edge, and one for the kinds of a node in the middle.
 */
module StrandedTemplates {
  import opened Sequences
  import opened Reachability
  import opened Templates
  import opened Scheduler
  import opened Walks
  import TemplateValidator

  // ---------------------------------------------------------------- two nodes

  /** Two nodes and one edge between them that covers SUCCESS, of any kind but LOOP_BACK. */
  ghost predicate TwoNodes(t: Template, first: Node, last: Node, e: Edge) {
    && t.nodes == [first, last] && t.edges == [e] && t.gates == [] && t.maxReplans == 0
    && first.key != last.key && first.kind == Task && last.kind == Terminal
    && first.loop.None? && last.loop.None? && first.parent.None? && last.parent.None?
    && e.source == first.key && e.target == last.key && e.kind != LoopBack
    && e.guard == (if e.kind == Normal then None else Some(OnSuccess))
  }

  lemma TwoNodesReferences(t: Template, first: Node, last: Node, e: Edge)
    requires TwoNodes(t, first, last, e)
    ensures ReferencesOk(t)
    ensures forall n :: n in t.nodes <==> n == first || n == last
    ensures forall d :: d in t.edges <==> d == e
  {
    assert NodeKeys(t) == [first.key, last.key] && EdgeKeys(t) == [e.key];
    assert EdgeOk(t, e);
  }

  lemma TwoNodesEntry(t: Template, first: Node, last: Node, e: Edge)
    requires TwoNodes(t, first, last, e)
    ensures Entries(t) == [first]
  {
    TwoNodesReferences(t, first, last, e);
    Nonempty(Inbound(t, first.key));
    assert e in Inbound(t, last.key);
    var keep := (n: Node) => Inbound(t, n.key) == [];
    assert Entries(t) == Filter(t.nodes, keep);
    FilterTwo(t.nodes, keep);
  }

  lemma TwoNodesEnds(t: Template, first: Node, last: Node, e: Edge)
    requires TwoNodes(t, first, last, e)
    ensures EntryOk(t) && first in Entries(t) && TerminalsOk(t) && last in Terminals(t)
  {
    TwoNodesEntry(t, first, last, e);
    TwoNodesReferences(t, first, last, e);
    Nonempty(Outbound(t, last.key));
    assert forall n :: n in Terminals(t) ==> n == last;
  }

  lemma TwoNodesReach(t: Template, first: Node, last: Node, e: Edge)
    requires TwoNodes(t, first, last, e)
    ensures EveryNodeReachable(t) && EveryNodeTerminates(t)
  {
    TwoNodesReferences(t, first, last, e);
    TwoNodesEnds(t, first, last, e);
    StartOfWalk(t, first, last, e);
    BothReach(t, first, last);
  }

  lemma BothReach(t: Template, first: Node, last: Node)
    requires forall n :: n in t.nodes <==> n == first || n == last
    requires EntryReaches(t, first.key) && EntryReaches(t, last.key)
    requires ReachesTerminal(t, first.key) && ReachesTerminal(t, last.key)
    ensures EveryNodeReachable(t) && EveryNodeTerminates(t)
  {
  }

  lemma StartOfWalk(t: Template, first: Node, last: Node, e: Edge)
    requires first in Entries(t) && last in Terminals(t)
    requires e in t.edges && e.source == first.key && e.target == last.key && e.kind != LoopBack
    ensures EntryReaches(t, first.key) && EntryReaches(t, last.key)
    ensures ReachesTerminal(t, first.key) && ReachesTerminal(t, last.key)
  {
    assert HasEdge(t, first.key, last.key) && HasExitEdge(t, first.key, last.key);
    assert Leads(t, first.key, last.key) && LeadsOut(t, first.key, last.key);
    assert FromEntry(t, first.key, 0) && ToTerminal(t, last.key, 0);
    assert FromEntry(t, last.key, 1) && ToTerminal(t, first.key, 1);
  }

  lemma TwoNodesOutbound(t: Template, first: Node, last: Node, e: Edge)
    requires TwoNodes(t, first, last, e)
    ensures Outbound(t, first.key) == [e] && Covering([e], Success) == [e]
  {
    var out := (d: Edge) => d.source == first.key;
    assert Outbound(t, first.key) == Filter(t.edges, out);
    FilterOne(t.edges, out);
    var covers := (d: Edge) => Covers(d, Success);
    assert Covering([e], Success) == Filter([e], covers);
    FilterOne([e], covers);
  }

  lemma TwoNodesCoverage(t: Template, first: Node, last: Node, e: Edge)
    requires TwoNodes(t, first, last, e)
    ensures CoverageOk(t)
  {
    TwoNodesReferences(t, first, last, e);
    TwoNodesOutbound(t, first, last, e);
    assert NodeCovered(t, first);
  }

  lemma TwoNodesShape(t: Template, first: Node, last: Node, e: Edge)
    requires TwoNodes(t, first, last, e)
    ensures ShapeOk(t)
  {
    TwoNodesCoverage(t, first, last, e);
    TwoNodesExtras(t, first, last, e);
  }

  lemma TwoNodesExtras(t: Template, first: Node, last: Node, e: Edge)
    requires TwoNodes(t, first, last, e)
    ensures GatesOk(t) && ReplansOk(t) && RegionsDisjoint(t.nodes)
    ensures forall n :: n in t.nodes ==> LoopNodeOk(t, n) && ParentOk(t, n)
    ensures forall d :: d in t.edges ==> LoopBackOk(t, d)
  {
    TwoNodesReferences(t, first, last, e);
    assert GateKeys(t) == {} && GateSpecKeys(t) == {};
    assert !UsesGuard(t, OnReplanAvailable) && !UsesGuard(t, OnReplanExhausted);
  }

  lemma FilterOne<T>(s: seq<T>, keep: T -> bool)
    requires |s| == 1
    ensures Filter(s, keep) == if keep(s[0]) then s else []
  {
    assert s[..0] == [] && s == [s[0]];
  }

  lemma FilterTwo<T>(s: seq<T>, keep: T -> bool)
    requires |s| == 2
    ensures Filter(s, keep) == (if keep(s[0]) then [s[0]] else []) + (if keep(s[1]) then [s[1]] else [])
  {
    FilterOne(s[..1], keep);
    assert s[..1][0] == s[0];
  }

  /** Every such template is accepted ... */
  lemma TwoNodesAreAccepted(t: Template, first: Node, last: Node, e: Edge)
    requires TwoNodes(t, first, last, e)
    ensures WellFormed(t)
  {
    TwoNodesReferences(t, first, last, e);
    TwoNodesEnds(t, first, last, e);
    TwoNodesReach(t, first, last, e);
    TwoNodesShape(t, first, last, e);
  }

  /**
   ... and some run of it is stranded exactly when its edge is a MERGE, FANOUT or ERROR edge, or a
   RETRY edge without budget. A RETRY edge with budget is followed although the node could not do
   without it: it is left only once.
   */
  lemma TwoNodesStrandExactly(t: Template, first: Node, last: Node, e: Edge)
    requires TwoNodes(t, first, last, e)
    ensures Entries(t) == [first]
    ensures CanStrand(t) <==> e.kind in {Merge, Fanout, Error} || (e.kind == Retry && t.maxRetries == 0)
    ensures AlwaysSelects(t, Outbound(t, first.key), Success) <==> e.kind in {Normal, Condition, Approval}
  {
    TwoNodesEntry(t, first, last, e);
    TwoNodesOutbound(t, first, last, e);
    LoneEdge(t, e);
    AlwaysSelectsMeansFalls(t, [e], Success);
    SelectsExactly(t, [e], Success, map[]);
    TwoNodesWalk(t, first, last, e);
  }

  lemma LoneCandidate(e: Edge)
    ensures NotLoopBack([e]) == if e.kind != LoopBack then [e] else []
  {
    var keep := (d: Edge) => d.kind != LoopBack;
    assert NotLoopBack([e]) == Filter([e], keep);
    FilterOne([e], keep);
  }

  lemma LoneBranch(e: Edge, outcome: Outcome)
    ensures Branches([e], outcome) == if IsBranch(e) && GuardMatches(e, outcome) then [e] else []
  {
    var keep := (d: Edge) => IsBranch(d) && GuardMatches(d, outcome);
    assert Branches([e], outcome) == Filter([e], keep);
    FilterOne([e], keep);
  }

  lemma LonePlain(e: Edge)
    ensures Plain([e]) == if IsPlain(e) then [e] else []
  {
    var keep := (d: Edge) => IsPlain(d);
    assert Plain([e]) == Filter([e], keep);
    FilterOne([e], keep);
  }

  /** With one edge to choose from, the retry-free choice is that edge or nothing. */
  lemma LoneFalls(e: Edge, outcome: Outcome)
    requires e.kind != LoopBack
    ensures Falls([e], outcome) <==> (IsBranch(e) && GuardMatches(e, outcome)) || (outcome == Success && IsPlain(e))
  {
    LoneCandidate(e);
    LoneBranch(e, outcome);
    LonePlain(e);
  }

  lemma LoneEdge(t: Template, e: Edge)
    requires e.kind != LoopBack && e.guard == (if e.kind == Normal then None else Some(OnSuccess))
    ensures Falls([e], Success) <==> e.kind in {Normal, Condition, Approval}
    ensures SomeRetryOpen(t, [e], Success, map[]) <==> e.kind == Retry && t.maxRetries > 0
  {
    LoneFalls(e, Success);
    LoneCandidate(e);
    assert e in [e];
  }

  lemma {:induction false} OwnsItself(nodes: seq<Node>, key: Key)
    requires forall n :: n in nodes && n.loop.Some? && key in n.loop.value.region ==> n.key == key
    ensures OwnerOf(nodes, key) == key
  {
    if nodes != [] {
      assert nodes[|nodes| - 1] in nodes;
      OwnsItself(nodes[..|nodes| - 1], key);
    }
  }

  /** One turn from a node with one edge to a terminal. */
  lemma LastTurn(t: Template, n: Node, last: Node, e: Edge, taken: Taken, outcome: Outcome, more: seq<Outcome>)
    requires NodeUnder(t.nodes, n.key) == Some(n) && Runs(n.kind) && outcome in Produced(n.kind)
    requires NodeUnder(t.nodes, last.key) == Some(last) && last.kind == Terminal
    requires Outbound(t, n.key) == [e] && e.target == last.key && OwnerOf(t.nodes, last.key) == last.key
    ensures Walk(t, n.key, taken, [outcome] + more) ==
            if SelectEdge(t, [e], outcome, taken).Some? then Follow(t, e, taken) else Stopped(n.key)
  {
    SelectedAnswersOutcome(t, [e], outcome, taken);
    WalkTurn(t, n.key, taken, n, outcome, more);
  }

  lemma TwoNodesPlaces(t: Template, first: Node, last: Node, e: Edge)
    requires TwoNodes(t, first, last, e)
    ensures NodeUnder(t.nodes, first.key) == Some(first) && NodeUnder(t.nodes, last.key) == Some(last)
    ensures OwnerOf(t.nodes, last.key) == last.key
  {
    TwoNodesReferences(t, first, last, e);
    UnderIs(t, first);
    UnderIs(t, last);
    OwnsItself(t.nodes, last.key);
  }

  lemma OneTurn(t: Template, n: Node, last: Node, e: Edge, taken: Taken, outcomes: seq<Outcome>)
    requires NodeUnder(t.nodes, n.key) == Some(n) && n.kind == Task
    requires NodeUnder(t.nodes, last.key) == Some(last) && last.kind == Terminal
    requires Outbound(t, n.key) == [e] && e.target == last.key && OwnerOf(t.nodes, last.key) == last.key
    requires SelectEdge(t, [e], Success, taken).Some?
    ensures Walk(t, n.key, taken, outcomes).At?
  {
    if outcomes == [] || outcomes[0] != Success {
      WalkRests(t, n.key, taken, n, outcomes);
    } else {
      LastTurn(t, n, last, e, taken, Success, outcomes[1..]);
      assert outcomes == [Success] + outcomes[1..];
    }
  }

  /** A run of two nodes has one turn. */
  lemma TwoNodesWalk(t: Template, first: Node, last: Node, e: Edge)
    requires TwoNodes(t, first, last, e) && Entries(t) == [first] && Outbound(t, first.key) == [e]
    ensures CanStrand(t) <==> SelectEdge(t, [e], Success, map[]).None?
  {
    TwoNodesPlaces(t, first, last, e);
    if SelectEdge(t, [e], Success, map[]).Some? {
      forall outcomes ensures FromStart(t, outcomes).At? { OneTurn(t, first, last, e, map[], outcomes); }
    } else {
      LastTurn(t, first, last, e, map[], Success, []);
      assert !FromStart(t, [Success] + []).At?;
    }
  }

  // ---------------------------------------------------------------- a node in the middle

  /** A task, some node and a terminal, joined by NORMAL edges. */
  ghost predicate InLine(t: Template, first: Node, middle: Node, last: Node, d: Edge, e: Edge) {
    && t.nodes == [first, middle, last] && t.edges == [d, e] && t.gates == [] && t.maxReplans == 0
    && first.key != middle.key && middle.key != last.key && first.key != last.key && d.key != e.key
    && first.kind == Task && last.kind == Terminal
    && first.loop.None? && last.loop.None? && first.parent.None? && middle.parent.None? && last.parent.None?
    && d.source == first.key && d.target == middle.key && d.kind == Normal && d.guard == None
    && e.source == middle.key && e.target == last.key && e.kind == Normal && e.guard == None
  }

  /** A tool, a join, or a loop whose region is the loop node itself. */
  predicate Tricky(middle: Node) {
    match middle.kind
    case Tool => middle.loop.None?
    case Join => middle.loop.None?
    case Loop => middle.loop == Some(LoopPolicy([middle.key], middle.key, None, false, None))
    case _ => false
  }

  lemma InLineReferences(t: Template, first: Node, middle: Node, last: Node, d: Edge, e: Edge)
    requires InLine(t, first, middle, last, d, e)
    ensures ReferencesOk(t) && NodeKeys(t) == [first.key, middle.key, last.key]
    ensures forall n :: n in t.nodes <==> n == first || n == middle || n == last
    ensures forall x :: x in t.edges <==> x == d || x == e
  {
    assert NodeKeys(t) == [first.key, middle.key, last.key] && EdgeKeys(t) == [d.key, e.key];
    assert EdgeOk(t, d) && EdgeOk(t, e);
  }

  lemma FilterThree<T>(s: seq<T>, keep: T -> bool)
    requires |s| == 3 && keep(s[0]) && !keep(s[1]) && !keep(s[2])
    ensures Filter(s, keep) == [s[0]]
  {
    FilterTwo(s[..2], keep);
    assert s[..2][0] == s[0] && s[..2][1] == s[1];
  }

  lemma InLineEntry(t: Template, first: Node, middle: Node, last: Node, d: Edge, e: Edge)
    requires InLine(t, first, middle, last, d, e)
    ensures Entries(t) == [first]
  {
    InLineReferences(t, first, middle, last, d, e);
    Nonempty(Inbound(t, first.key));
    assert d in Inbound(t, middle.key) && e in Inbound(t, last.key);
    var keep := (n: Node) => Inbound(t, n.key) == [];
    assert Entries(t) == Filter(t.nodes, keep);
    FilterThree(t.nodes, keep);
  }

  lemma InLineOutbound(t: Template, first: Node, middle: Node, last: Node, d: Edge, e: Edge)
    requires InLine(t, first, middle, last, d, e)
    ensures Outbound(t, first.key) == [d] && Outbound(t, middle.key) == [e] && Outbound(t, last.key) == []
  {
    var a, b := (x: Edge) => x.source == first.key, (x: Edge) => x.source == middle.key;
    var c := (x: Edge) => x.source == last.key;
    assert Outbound(t, first.key) == Filter(t.edges, a) && Outbound(t, middle.key) == Filter(t.edges, b);
    assert Outbound(t, last.key) == Filter(t.edges, c);
    FilterTwo(t.edges, a);
    FilterTwo(t.edges, b);
    FilterTwo(t.edges, c);
  }

  lemma InLineEnds(t: Template, first: Node, middle: Node, last: Node, d: Edge, e: Edge)
    requires InLine(t, first, middle, last, d, e) && middle.kind != Terminal
    ensures EntryOk(t) && TerminalsOk(t) && first in Entries(t) && last in Terminals(t)
  {
    InLineEntry(t, first, middle, last, d, e);
    InLineReferences(t, first, middle, last, d, e);
    InLineOutbound(t, first, middle, last, d, e);
    assert forall n :: n in Terminals(t) ==> n == last;
  }

  lemma InLineReach(t: Template, first: Node, middle: Node, last: Node, d: Edge, e: Edge)
    requires InLine(t, first, middle, last, d, e) && first in Entries(t) && last in Terminals(t)
    ensures EveryNodeReachable(t) && EveryNodeTerminates(t)
  {
    InLineReferences(t, first, middle, last, d, e);
    InLineLeads(t, first, middle, last, d, e);
    InLineForward(t, first, middle, last);
    InLineBackward(t, first, middle, last);
    AllReach(t, first, middle, last);
  }

  lemma AllReach(t: Template, first: Node, middle: Node, last: Node)
    requires forall n :: n in t.nodes <==> n == first || n == middle || n == last
    requires EntryReaches(t, first.key) && EntryReaches(t, middle.key) && EntryReaches(t, last.key)
    requires ReachesTerminal(t, first.key) && ReachesTerminal(t, middle.key) && ReachesTerminal(t, last.key)
    ensures EveryNodeReachable(t) && EveryNodeTerminates(t)
  {
  }

  lemma InLineLeads(t: Template, first: Node, middle: Node, last: Node, d: Edge, e: Edge)
    requires d in t.edges && d.source == first.key && d.target == middle.key && d.kind != LoopBack
    requires e in t.edges && e.source == middle.key && e.target == last.key && e.kind != LoopBack
    ensures Leads(t, first.key, middle.key) && Leads(t, middle.key, last.key)
    ensures LeadsOut(t, first.key, middle.key) && LeadsOut(t, middle.key, last.key)
  {
    assert HasEdge(t, first.key, middle.key) && HasEdge(t, middle.key, last.key);
    assert HasExitEdge(t, first.key, middle.key) && HasExitEdge(t, middle.key, last.key);
  }

  lemma InLineForward(t: Template, first: Node, middle: Node, last: Node)
    requires first in Entries(t) && Leads(t, first.key, middle.key) && Leads(t, middle.key, last.key)
    ensures EntryReaches(t, first.key) && EntryReaches(t, middle.key) && EntryReaches(t, last.key)
  {
    assert FromEntry(t, first.key, 0);
    assert FromEntry(t, middle.key, 1);
    assert FromEntry(t, last.key, 2);
  }

  lemma InLineBackward(t: Template, first: Node, middle: Node, last: Node)
    requires last in Terminals(t) && LeadsOut(t, first.key, middle.key) && LeadsOut(t, middle.key, last.key)
    ensures ReachesTerminal(t, first.key) && ReachesTerminal(t, middle.key) && ReachesTerminal(t, last.key)
  {
    assert ToTerminal(t, last.key, 0);
    assert ToTerminal(t, middle.key, 1);
    assert ToTerminal(t, first.key, 2);
  }

  lemma LoneCovering(e: Edge)
    requires e.kind == Normal && e.guard == None
    ensures Covering([e], Success) == [e] && RetriesDistinct([e]) && Dispatchable([e], Success)
  {
    var covers := (d: Edge) => Covers(d, Success);
    assert Covering([e], Success) == Filter([e], covers);
    FilterOne([e], covers);
  }

  lemma PlainlyCovered(t: Template, n: Node, e: Edge)
    requires Outbound(t, n.key) == [e] && e.kind == Normal && e.guard == None && OutcomesOf(n.kind) == [Success]
    ensures Decided(t, n)
  {
    LoneCovering(e);
  }

  lemma InLineCoverage(t: Template, first: Node, middle: Node, last: Node, d: Edge, e: Edge)
    requires InLine(t, first, middle, last, d, e) && Tricky(middle)
    ensures CoverageOk(t) && EveryOutcomeDispatchable(t)
  {
    InLineReferences(t, first, middle, last, d, e);
    InLineOutbound(t, first, middle, last, d, e);
    PlainlyCovered(t, first, d);
    if middle.kind == Loop {
      assert middle.key in middle.loop.value.region && !Scheduled(t, middle);
    } else {
      PlainlyCovered(t, middle, e);
    }
    AllCovered(t, first, middle, last);
  }

  ghost predicate Decided(t: Template, n: Node) {
    NodeCovered(t, n) && forall outcome :: outcome in OutcomesOf(n.kind) ==> Dispatchable(Outbound(t, n.key), outcome)
  }

  lemma AllCovered(t: Template, first: Node, middle: Node, last: Node)
    requires forall n :: n in t.nodes <==> n == first || n == middle || n == last
    requires Decided(t, first) && (Scheduled(t, middle) ==> Decided(t, middle)) && last.kind == Terminal
    ensures CoverageOk(t) && EveryOutcomeDispatchable(t)
  {
    forall n | n in t.nodes && Scheduled(t, n) ensures Decided(t, n) {
    }
  }

  lemma InLineShape(t: Template, first: Node, middle: Node, last: Node, d: Edge, e: Edge)
    requires InLine(t, first, middle, last, d, e) && Tricky(middle)
    ensures GatesOk(t) && ReplansOk(t) && RegionsDisjoint(t.nodes)
    ensures forall n :: n in t.nodes ==> LoopNodeOk(t, n) && ParentOk(t, n)
    ensures forall x :: x in t.edges ==> LoopBackOk(t, x)
  {
    InLineReferences(t, first, middle, last, d, e);
    assert GateKeys(t) == {} && GateSpecKeys(t) == {};
    assert !UsesGuard(t, OnReplanAvailable) && !UsesGuard(t, OnReplanExhausted);
    forall n | n in t.nodes ensures Members(n) == [] { Nonempty(Members(n)); }
  }

  /** All of these are accepted, and every outcome the coverage rule looks at is dispatchable ... */
  lemma InLineIsAccepted(t: Template, first: Node, middle: Node, last: Node, d: Edge, e: Edge)
    requires InLine(t, first, middle, last, d, e) && Tricky(middle)
    ensures WellFormed(t) && EveryOutcomeDispatchable(t)
  {
    InLineReferences(t, first, middle, last, d, e);
    InLineEnds(t, first, middle, last, d, e);
    InLineReach(t, first, middle, last, d, e);
    InLineCoverage(t, first, middle, last, d, e);
    InLineShape(t, first, middle, last, d, e);
  }

  lemma InLinePlaces(t: Template, first: Node, middle: Node, last: Node, d: Edge, e: Edge)
    requires InLine(t, first, middle, last, d, e) && Tricky(middle)
    ensures NodeUnder(t.nodes, first.key) == Some(first) && NodeUnder(t.nodes, middle.key) == Some(middle)
    ensures NodeUnder(t.nodes, last.key) == Some(last)
    ensures OwnerOf(t.nodes, middle.key) == middle.key && OwnerOf(t.nodes, last.key) == last.key
  {
    InLineReferences(t, first, middle, last, d, e);
    UnderIs(t, first);
    UnderIs(t, middle);
    UnderIs(t, last);
    OwnsItself(t.nodes, middle.key);
    OwnsItself(t.nodes, last.key);
  }

  /** The first turn from a task along its NORMAL edge. */
  lemma FirstTurn(t: Template, first: Node, middle: Node, d: Edge, more: seq<Outcome>)
    requires NodeUnder(t.nodes, first.key) == Some(first) && first.kind == Task
    requires Outbound(t, first.key) == [d] && d.kind == Normal && d.guard == None
    requires d.target == middle.key && OwnerOf(t.nodes, middle.key) == middle.key
    ensures Walk(t, first.key, map[], [Success] + more) == Walk(t, middle.key, map[d.key := 1], more)
  {
    LoneFalls(d, Success);
    SelectsExactly(t, [d], Success, map[]);
    SelectedAnswersOutcome(t, [d], Success, map[]);
    WalkTurn(t, first.key, map[], first, Success, more);
  }

  /** What the middle node can produce that its NORMAL edge does not answer. */
  function Unanswered(kind: NodeKind): Outcome {
    if kind == Loop then Fail else Inconclusive
  }

  /**
   ... and yet each of them strands a run from its entry: a TOOL that comes back INCONCLUSIVE and a
   LOOP inside its own region that fails find no edge, and a JOIN cannot be run at all.
   */
  lemma InLineStrands(t: Template, first: Node, middle: Node, last: Node, d: Edge, e: Edge)
    requires InLine(t, first, middle, last, d, e) && Tricky(middle)
    ensures Entries(t) == [first]
    ensures FromStart(t, [Success, Unanswered(middle.kind)]) ==
            if middle.kind == Join then Unsupported(middle.key) else Stopped(middle.key)
  {
    InLineEntry(t, first, middle, last, d, e);
    InLineOutbound(t, first, middle, last, d, e);
    InLinePlaces(t, first, middle, last, d, e);
    var bad := Unanswered(middle.kind);
    FirstTurn(t, first, middle, d, [bad]);
    assert [Success] + [bad] == [Success, bad];
    if middle.kind != Join { NoAnswer(t, middle, e, map[d.key := 1]); }
  }

  lemma NoAnswer(t: Template, n: Node, e: Edge, taken: Taken)
    requires NodeUnder(t.nodes, n.key) == Some(n) && (n.kind == Tool || n.kind == Loop)
    requires Outbound(t, n.key) == [e] && e.kind == Normal && e.guard == None
    ensures Walk(t, n.key, taken, [Unanswered(n.kind)]) == Stopped(n.key)
  {
    var bad := Unanswered(n.kind);
    LoneFalls(e, bad);
    LoneCandidate(e);
    SelectsExactly(t, [e], bad, taken);
    WalkTurn(t, n.key, taken, n, bad, []);
    assert [bad] + [] == [bad];
  }

  // ---------------------------------------------------------------- entries and terminals of small templates

  lemma EnteredBy(t: Template, n: Node, e: Edge)
    requires e in t.edges && e.target == n.key
    ensures Inbound(t, n.key) != []
  {
    assert e in Inbound(t, n.key);
  }

  lemma SoleEntry(t: Template, a: Node, b: Node, c: Node, d: Node)
    requires t.nodes == [a, b, c, d] && Inbound(t, a.key) == [] && Inbound(t, b.key) != []
    requires Inbound(t, c.key) != [] && Inbound(t, d.key) != []
    ensures Entries(t) == [a]
  {
    var keep := (n: Node) => Inbound(t, n.key) == [];
    assert Entries(t) == Filter(t.nodes, keep);
    assert keep(a) && !keep(b) && !keep(c) && !keep(d);
    FilterSole(t.nodes, keep, 0);
  }

  lemma SoleTerminal(t: Template, last: Node)
    requires last in t.nodes && last.kind == Terminal && Outbound(t, last.key) == []
    requires forall n :: n in t.nodes && n.kind == Terminal ==> n == last
    ensures TerminalsOk(t) && last in Terminals(t)
  {
  }

  // ---------------------------------------------------------------- a region key that names no node

  /** With a loop in the middle whose region has such a key, the validator raises instead of reporting it. */
  lemma LostRegionKeyRaises(t: Template, first: Node, middle: Node, last: Node, d: Edge, e: Edge, lost: Key)
    requires InLine(t, first, middle, last, d, e) && middle.kind == Loop && middle.loop.Some?
    requires lost in middle.loop.value.region && lost != first.key && lost != middle.key && lost != last.key
    ensures ReferencesOk(t) && TemplateValidator.SearchFindsLost(t) && !WellFormed(t)
  {
    InLineReferences(t, first, middle, last, d, e);
    InLineEntry(t, first, middle, last, d, e);
    assert lost in Members(middle) && TemplateValidator.LostMember(t, middle);
    TemplateValidator.LostMemberRaises(t, first, middle, d);
    assert middle in t.nodes && !LoopNodeOk(t, middle);
  }
}
