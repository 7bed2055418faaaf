/**
 Accepted templates whose runs are caught in a loop region (src/accretion/templates.py,
 src/accretion/services/run_manager.py). For the validator a member reaches what its owner reaches;
 the scheduler routes every member to its owner and takes the owner's edges alone. The template here
 has the shape of `feedback-loop-v1`: the owner leads to a member, and only the member leads out.
 */
module CaptiveRuns {
  import opened Sequences
  import opened Reachability
  import opened Templates
  import opened Scheduler
  import opened Walks
  import opened RunStates
  import Stranded = StrandedTemplates
  import Projection
  import EdgeCounts
  import Stamps

  // ---------------------------------------------------------------- owners that are never left

  /** Every edge the scheduler can take from the node leads back to it. */
  ghost predicate Captures(t: Template, n: Node) {
    && NodeUnder(t.nodes, n.key) == Some(n) && n.kind != Terminal
    && forall e :: e in t.edges && e.source == n.key && e.kind != LoopBack ==> OwnerOf(t.nodes, e.target) == n.key
  }

  /** A run that comes to such a node never comes to another. */
  lemma {:induction false} CapturedStays(t: Template, n: Node, taken: Taken, outcomes: seq<Outcome>)
    requires Captures(t, n)
    ensures Walk(t, n.key, taken, outcomes).key == n.key
    decreases |outcomes|
  {
    if Runs(n.kind) && outcomes != [] && outcomes[0] in Produced(n.kind) {
      SelectedAnswersOutcome(t, Outbound(t, n.key), outcomes[0], taken);
      var next := Advance(t, n.key, taken, outcomes[0]);
      if next.At? { CapturedStays(t, n, next.taken, outcomes[1..]); }
    }
  }

  // ---------------------------------------------------------------- the template

  /** A task leads to a member, the owner leads to the member, and the member leads to owner and terminal. */
  datatype Captive = Captive(
    t: Template, first: Node, member: Node, owner: Node, last: Node, into: Edge, up: Edge, down: Edge, out: Edge
  ) {
    ghost predicate Valid() {
      && t.nodes == [first, member, owner, last] && t.edges == [into, up, down, out]
      && t.gates == [] && t.maxReplans == 0
      && NoDuplicates([first.key, member.key, owner.key, last.key])
      && NoDuplicates([into.key, up.key, down.key, out.key])
      && first.kind == Task && first.loop.None? && first.parent.None?
      && member.kind == Verifier && member.loop.None? && member.parent.None?
      && owner.kind == Loop && owner.parent.None?
      && owner.loop == Some(LoopPolicy([member.key, owner.key], member.key, None, false, None))
      && last.kind == Terminal && last.loop.None? && last.parent.None?
      && into == Edge(into.key, first.key, member.key, Normal, None)
      && up == Edge(up.key, member.key, owner.key, Normal, None)
      && down == Edge(down.key, owner.key, member.key, Condition, Some(OnSuccess))
      && out == Edge(out.key, member.key, last.key, Condition, Some(OnSuccess))
    }
  }

  lemma FourDistinct(a: Key, b: Key, c: Key, d: Key)
    requires NoDuplicates([a, b, c, d])
    ensures a != b && a != c && a != d && b != c && b != d && c != d
  {
    var s := [a, b, c, d];
    assert s[0] != s[1] && s[0] != s[2] && s[0] != s[3] && s[1] != s[2] && s[1] != s[3] && s[2] != s[3];
  }

  lemma Distinct(x: Captive)
    requires x.Valid()
    ensures x.first.key != x.member.key && x.first.key != x.owner.key && x.member.key != x.owner.key
    ensures x.last.key != x.first.key && x.last.key != x.member.key && x.last.key != x.owner.key
    ensures x.into.key != x.up.key && x.into.key != x.down.key && x.up.key != x.down.key
    ensures x.out.key != x.into.key && x.out.key != x.up.key && x.out.key != x.down.key
  {
    FourDistinct(x.first.key, x.member.key, x.owner.key, x.last.key);
    FourDistinct(x.into.key, x.up.key, x.down.key, x.out.key);
  }

  lemma AllParts(x: Captive)
    requires x.Valid()
    ensures forall n :: n in x.t.nodes <==> n == x.first || n == x.member || n == x.owner || n == x.last
    ensures forall e :: e in x.t.edges <==> e == x.into || e == x.up || e == x.down || e == x.out
  {
  }

  lemma References(x: Captive)
    requires x.Valid()
    ensures ReferencesOk(x.t) && NodeKeys(x.t) == [x.first.key, x.member.key, x.owner.key, x.last.key]
  {
    AllParts(x);
    assert NodeKeys(x.t) == [x.first.key, x.member.key, x.owner.key, x.last.key];
    assert EdgeKeys(x.t) == [x.into.key, x.up.key, x.down.key, x.out.key];
    assert EdgeOk(x.t, x.into) && EdgeOk(x.t, x.up) && EdgeOk(x.t, x.down) && EdgeOk(x.t, x.out);
  }

  lemma Outbounds(x: Captive)
    requires x.Valid()
    ensures Outbound(x.t, x.first.key) == [x.into] && Outbound(x.t, x.owner.key) == [x.down]
    ensures Outbound(x.t, x.last.key) == []
  {
    Distinct(x);
    var a, b := (e: Edge) => e.source == x.first.key, (e: Edge) => e.source == x.owner.key;
    assert Outbound(x.t, x.first.key) == Filter(x.t.edges, a) && Outbound(x.t, x.owner.key) == Filter(x.t.edges, b);
    FilterSole(x.t.edges, a, 0);
    FilterSole(x.t.edges, b, 2);
    AllParts(x);
    Nonempty(Outbound(x.t, x.last.key));
  }

  lemma Inbounds(x: Captive)
    requires x.Valid()
    ensures Inbound(x.t, x.first.key) == [] && Inbound(x.t, x.member.key) != []
    ensures Inbound(x.t, x.owner.key) != [] && Inbound(x.t, x.last.key) != []
  {
    AllParts(x);
    Distinct(x);
    Nonempty(Inbound(x.t, x.first.key));
    Stranded.EnteredBy(x.t, x.member, x.into);
    Stranded.EnteredBy(x.t, x.owner, x.up);
    Stranded.EnteredBy(x.t, x.last, x.out);
  }

  lemma Entry(x: Captive)
    requires x.Valid()
    ensures Entries(x.t) == [x.first]
  {
    Inbounds(x);
    Stranded.SoleEntry(x.t, x.first, x.member, x.owner, x.last);
  }

  lemma Ends(x: Captive)
    requires x.Valid()
    ensures TerminalsOk(x.t) && x.last in Terminals(x.t)
  {
    Outbounds(x);
    AllParts(x);
    Stranded.SoleTerminal(x.t, x.last);
  }

  lemma Forward(t: Template, first: Node, member: Node, owner: Node, last: Node, into: Edge, up: Edge, out: Edge)
    requires first in Entries(t) && into in t.edges && up in t.edges && out in t.edges
    requires into.source == first.key && into.target == member.key && out.source == up.source == member.key
    requires up.target == owner.key && out.target == last.key
    ensures EntryReaches(t, first.key) && EntryReaches(t, member.key) && EntryReaches(t, owner.key)
    ensures EntryReaches(t, last.key)
  {
    assert HasEdge(t, first.key, member.key) && HasEdge(t, member.key, owner.key) && HasEdge(t, member.key, last.key);
    Stranded.InLineForward(t, first, member, owner);
    Stranded.InLineForward(t, first, member, last);
  }

  lemma Backward(t: Template, first: Node, member: Node, owner: Node, last: Node, into: Edge, down: Edge, out: Edge)
    requires last in Terminals(t) && into in t.edges && down in t.edges && out in t.edges
    requires into.kind != LoopBack && down.kind != LoopBack && out.kind != LoopBack
    requires into.source == first.key && into.target == down.target == out.source == member.key
    requires down.source == owner.key && out.target == last.key
    ensures ReachesTerminal(t, first.key) && ReachesTerminal(t, member.key) && ReachesTerminal(t, owner.key)
    ensures ReachesTerminal(t, last.key)
  {
    Stranded.InLineLeads(t, first, member, last, into, out);
    Stranded.InLineBackward(t, first, member, last);
    Stranded.InLineLeads(t, owner, member, last, down, out);
    Stranded.InLineBackward(t, owner, member, last);
  }

  lemma Reach(x: Captive)
    requires x.Valid()
    ensures EveryNodeReachable(x.t) && EveryNodeTerminates(x.t)
  {
    Entry(x);
    Ends(x);
    Forward(x.t, x.first, x.member, x.owner, x.last, x.into, x.up, x.out);
    Backward(x.t, x.first, x.member, x.owner, x.last, x.into, x.down, x.out);
    AllParts(x);
    forall n | n in x.t.nodes ensures EntryReaches(x.t, n.key) && ReachesTerminal(x.t, n.key) {
      assert n == x.first || n == x.member || n == x.owner || n == x.last;
    }
  }

  lemma Coverage(x: Captive)
    requires x.Valid()
    ensures CoverageOk(x.t)
  {
    AllParts(x);
    Outbounds(x);
    Stranded.PlainlyCovered(x.t, x.first, x.into);
    assert x.member.key in x.owner.loop.value.region && x.owner.key in x.owner.loop.value.region;
    forall n | n in x.t.nodes && Scheduled(x.t, n) ensures n == x.first {
    }
  }

  lemma Regions(x: Captive)
    requires x.Valid()
    ensures RegionsDisjoint(x.t.nodes)
  {
    forall n | n in x.t.nodes && n != x.owner ensures Members(n) == [] {
      AllParts(x);
      Nonempty(Members(n));
    }
    Distinct(x);
  }

  lemma Shape(x: Captive)
    requires x.Valid()
    ensures ShapeOk(x.t)
  {
    AllParts(x);
    References(x);
    Coverage(x);
    Regions(x);
    GatesAndReplans(x);
    assert PolicyOk(x.t, x.owner.loop.value);
  }

  lemma GatesAndReplans(x: Captive)
    requires x.Valid()
    ensures GatesOk(x.t) && ReplansOk(x.t)
  {
    AllParts(x);
    assert GateKeys(x.t) == {} && GateSpecKeys(x.t) == {};
    assert !UsesGuard(x.t, OnReplanAvailable) && !UsesGuard(x.t, OnReplanExhausted);
  }

  /** Every such template is accepted ... */
  lemma CaptiveIsAccepted(x: Captive)
    requires x.Valid()
    ensures WellFormed(x.t)
  {
    References(x);
    Entry(x);
    Ends(x);
    Reach(x);
    Shape(x);
  }

  // ---------------------------------------------------------------- its runs

  lemma Owner(x: Captive)
    requires x.Valid()
    ensures OwnerOf(x.t.nodes, x.member.key) == x.owner.key
  {
    Distinct(x);
    var nodes := x.t.nodes;
    assert nodes[..3][..2] == nodes[..2] && nodes[..3][2] == x.owner;
    assert OwnerOf(nodes, x.member.key) == OwnerOf(nodes[..3], x.member.key);
  }

  lemma OwnerCaptures(x: Captive)
    requires x.Valid()
    ensures Captures(x.t, x.owner)
  {
    References(x);
    AllParts(x);
    Distinct(x);
    Owner(x);
    UnderIs(x.t, x.owner);
  }

  lemma FirstTurn(x: Captive, more: seq<Outcome>)
    requires x.Valid()
    ensures Walk(x.t, x.first.key, map[], [Success] + more) == Walk(x.t, x.owner.key, map[x.into.key := 1], more)
    ensures NodeUnder(x.t.nodes, x.first.key) == Some(x.first)
    ensures SelectEdge(x.t, [x.into], Success, map[]) == Some(x.into)
  {
    References(x);
    UnderIs(x.t, x.first);
    Outbounds(x);
    Owner(x);
    Stranded.LoneFalls(x.into, Success);
    SelectsExactly(x.t, [x.into], Success, map[]);
    SelectedAnswersOutcome(x.t, [x.into], Success, map[]);
    WalkTurn(x.t, x.first.key, map[], x.first, Success, more);
  }

  /** The run waits at its task, and after one turn it is caught at the owner. */
  lemma Caught(x: Captive, outcomes: seq<Outcome>)
    requires x.Valid()
    ensures var c := Walk(x.t, x.first.key, map[], outcomes);
            c.key == x.owner.key || c == At(x.first.key, map[])
  {
    FirstTurn(x, []);
    if outcomes == [] || outcomes[0] != Success {
      WalkRests(x.t, x.first.key, map[], x.first, outcomes);
    } else {
      FirstTurn(x, outcomes[1..]);
      assert outcomes == [Success] + outcomes[1..];
      OwnerCaptures(x);
      CapturedStays(x.t, x.owner, map[x.into.key := 1], outcomes[1..]);
    }
  }

  lemma NoTerminals(x: Captive)
    requires x.Valid()
    ensures !AtTerminal(x.t, x.first.key) && !AtTerminal(x.t, x.owner.key)
  {
    References(x);
    UnderIs(x.t, x.first);
    UnderIs(x.t, x.owner);
  }

  /** ... and none of its runs ever comes to its terminal. */
  lemma CaptiveNeverFinishes(x: Captive, outcomes: seq<Outcome>)
    requires x.Valid()
    ensures Entries(x.t) == [x.first] && !AtTerminal(x.t, FromStart(x.t, outcomes).key)
  {
    Entry(x);
    Caught(x, outcomes);
    NoTerminals(x);
  }

  lemma CaptiveCannotFinish(x: Captive)
    requires x.Valid()
    ensures Entries(x.t) == [x.first] && !RunsCanFinish(x.t)
  {
    Entry(x);
    NoTerminals(x);
    forall outcomes ensures !AtTerminal(x.t, Walk(x.t, x.first.key, map[], outcomes).key) { Caught(x, outcomes); }
    assert !CanFinish(x.t, x.first.key, map[]);
    FirstTurn(x, []);
    WalkRests(x.t, x.first.key, map[], x.first, []);
    assert FromStart(x.t, []) == At(x.first.key, map[]);
  }

  // ---------------------------------------------------------------- its stamps

  lemma OneEdgePath(t: Template, n: Node, e: Edge)
    requires NodeUnder(t.nodes, n.key) == Some(n) && n.kind == Task
    requires Outbound(t, n.key) == [e] && SelectEdge(t, [e], Success, map[]) == Some(e)
    ensures Stamps.Path(t, n.key, map[], [Success]) == [e]
  {
    var next := Follow(t, e, map[]);
    assert [Success][1..] == [] && Stamps.Path(t, next.key, next.taken, []) == [];
  }

  lemma FirstPath(x: Captive)
    requires x.Valid()
    ensures Stamps.Path(x.t, x.first.key, map[], [Success]) == [x.into]
  {
    Outbounds(x);
    FirstTurn(x, []);
    OneEdgePath(x.t, x.first, x.into);
  }

  /**
   Its first turn already leaves a stamp on the owner that names an edge into the member: the log
   of that run is not well stamped, and the edges into the member count one traversal while the
   member has no entry.
   */
  lemma CaptiveMisstamps(x: Captive, runId: string, counts: map<Key, nat>)
    requires x.Valid() && Projection.FitsPattern(x.into.key)
    requires var log := Stamps.EntryLog(x.t, runId, Stamps.Path(x.t, x.first.key, map[], [Success]));
             var fold := Projection.FoldOf(runId, KeysOf(NodeKeys(x.t)), log);
             EdgeCounts.Settled(Stamps.CountedEdges(x.t, runId), fold, counts, Projection.NodeId(runId, x.member.key))
    ensures var edges, target := Stamps.CountedEdges(x.t, runId), Projection.NodeId(runId, x.member.key);
            var log := Stamps.EntryLog(x.t, runId, Stamps.Path(x.t, x.first.key, map[], [Success]));
            && !EdgeCounts.WellStamped(edges, log)
            && EdgeCounts.Total(EdgeCounts.InEdges(edges, target), counts) == 1
            && EdgeCounts.AllEntries(log, target) == 0
  {
    References(x);
    Distinct(x);
    Owner(x);
    AllParts(x);
    FirstPath(x);
    assert !Stamps.WellPlaced(x.t, x.into);
    assert x.into in [x.into];
    Stamps.StampedExactly(x.t, runId, [x.into]);
    Stamps.MisplacedStampCounts(x.t, runId, x.into, counts);
  }
}
