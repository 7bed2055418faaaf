/**
 The stamps a scheduler walk leaves in the log (src/accretion/services/run_manager.py): each entry
 names the edge that was selected, but the node entered is the owner of the loop region the edge
 leads into. When do they name in-edges of the entered node, as the edge counts assume?
 */
module Stamps {
  import opened Sequences
  import opened Reachability
  import opened Templates
  import opened Scheduler
  import opened Walks
  import Trace
  import Projection
  import EdgeCounts

  /** The edges a walk selects, in order. */
  function Path(t: Template, key: Key, taken: Taken, outcomes: seq<Outcome>): seq<Edge>
    decreases |outcomes|
  {
    match NodeUnder(t.nodes, key)
    case None => []
    case Some(n) =>
      if !Runs(n.kind) || outcomes == [] || outcomes[0] !in Produced(n.kind) then []
      else
        match SelectEdge(t, Outbound(t, key), outcomes[0], taken)
        case None => []
        case Some(e) =>
          var next := Follow(t, e, taken);
          [e] + Path(t, next.key, next.taken, outcomes[1..])
  }

  /** The entry logged when an edge is followed. */
  function EntryBy(t: Template, runId: string, e: Edge): Trace.Event {
    Trace.Event(1, 0, Trace.NodeEntered, Projection.NodeId(runId, OwnerOf(t.nodes, e.target)), "", "", 0, e.key)
  }

  function EntryLog(t: Template, runId: string, path: seq<Edge>): seq<Trace.Event> {
    seq(|path|, i requires 0 <= i < |path| => EntryBy(t, runId, path[i]))
  }

  /**
   The edges whose entries reach the log: a task entered again, a node that awaits review and an
   agent out of budget leave none, so any of them may be missing.
   */
  function Logged(path: seq<Edge>, kept: set<nat>): seq<Edge> {
    if path == [] then []
    else Logged(path[..|path| - 1], kept) + if |path| - 1 in kept then [path[|path| - 1]] else []
  }

  lemma {:induction false} LoggedMembers(path: seq<Edge>, kept: set<nat>, e: Edge)
    ensures e in Logged(path, kept) <==> exists i :: 0 <= i < |path| && i in kept && path[i] == e
  {
    if path != [] {
      var rest := path[..|path| - 1];
      LoggedMembers(rest, kept, e);
      if i :| 0 <= i < |rest| && i in kept && rest[i] == e { assert path[i] == e; }
    }
  }

  /** The edges of the run's graph, as the edge counts see them. */
  function CountedEdges(t: Template, runId: string): seq<EdgeCounts.RunEdge> {
    seq(|t.edges|, i requires 0 <= i < |t.edges| =>
      EdgeCounts.RunEdge(t.edges[i].key, Projection.NodeId(runId, t.edges[i].target), t.edges[i].kind))
  }

  /** The edge leads to the node that is entered, or its key is empty and leaves no stamp. */
  predicate WellPlaced(t: Template, e: Edge) {
    e.key == "" || OwnerOf(t.nodes, e.target) == e.target
  }

  lemma UniqueCounted(t: Template, runId: string)
    requires NoDuplicates(EdgeKeys(t))
    ensures EdgeCounts.UniqueEdgeKeys(CountedEdges(t, runId))
  {
    forall i, j | 0 <= i < j < |t.edges| ensures t.edges[i].key != t.edges[j].key {
      assert EdgeKeys(t)[i] != EdgeKeys(t)[j];
    }
  }

  lemma StampNamesInEdge(t: Template, runId: string, e: Edge)
    requires NoDuplicates(EdgeKeys(t)) && e in t.edges
    ensures e.key in EdgeCounts.InEdges(CountedEdges(t, runId), EntryBy(t, runId, e).nodeId) <==>
              OwnerOf(t.nodes, e.target) == e.target
  {
    var edges, entered := CountedEdges(t, runId), EntryBy(t, runId, e).nodeId;
    EdgeCounts.InEdgesMembers(edges, entered, e.key);
    Projection.SameIdSameKey(runId, OwnerOf(t.nodes, e.target), e.target);
    UniqueCounted(t, runId);
    var k :| 0 <= k < |t.edges| && t.edges[k] == e;
    assert edges[k].key == e.key && edges[k].target == Projection.NodeId(runId, e.target);
  }

  lemma {:induction false} PathFollowsEdges(t: Template, key: Key, taken: Taken, outcomes: seq<Outcome>)
    ensures forall e :: e in Path(t, key, taken, outcomes) ==> e in t.edges && e.kind != LoopBack
    decreases |outcomes|
  {
    var n := NodeUnder(t.nodes, key);
    if n.Some? && Runs(n.value.kind) && outcomes != [] && outcomes[0] in Produced(n.value.kind) {
      SelectedAnswersOutcome(t, Outbound(t, key), outcomes[0], taken);
      match SelectEdge(t, Outbound(t, key), outcomes[0], taken)
      case None =>
      case Some(e) =>
        var next := Follow(t, e, taken);
        PathFollowsEdges(t, next.key, next.taken, outcomes[1..]);
    }
  }

  /**
   The log of a walk, whichever of its entries reach it, is well stamped if and only if no logged
   edge leads into a region it does not own.
   */
  lemma WellStampedExactly(t: Template, runId: string, key: Key, taken: Taken, outcomes: seq<Outcome>, kept: set<nat>)
    requires NoDuplicates(EdgeKeys(t))
    ensures var path := Path(t, key, taken, outcomes);
            EdgeCounts.WellStamped(CountedEdges(t, runId), EntryLog(t, runId, Logged(path, kept))) <==>
              forall i :: 0 <= i < |path| && i in kept ==> WellPlaced(t, path[i])
  {
    var path := Path(t, key, taken, outcomes);
    PathFollowsEdges(t, key, taken, outcomes);
    forall e ensures e in Logged(path, kept) <==> exists i :: 0 <= i < |path| && i in kept && path[i] == e {
      LoggedMembers(path, kept, e);
    }
    StampedExactly(t, runId, Logged(path, kept));
  }

  lemma StampedExactly(t: Template, runId: string, path: seq<Edge>)
    requires NoDuplicates(EdgeKeys(t)) && forall e :: e in path ==> e in t.edges
    ensures EdgeCounts.WellStamped(CountedEdges(t, runId), EntryLog(t, runId, path)) <==>
              forall e :: e in path ==> WellPlaced(t, e)
  {
    var log := EntryLog(t, runId, path);
    forall i | 0 <= i < |path|
      ensures log[i] == EntryBy(t, runId, path[i])
      ensures path[i].key in EdgeCounts.InEdges(CountedEdges(t, runId), log[i].nodeId) <==>
                OwnerOf(t.nodes, path[i].target) == path[i].target
    {
      StampNamesInEdge(t, runId, path[i]);
    }
    if EdgeCounts.WellStamped(CountedEdges(t, runId), log) {
      forall e | e in path ensures WellPlaced(t, e) {
        var i :| 0 <= i < |path| && path[i] == e;
        assert log[i].enteredVia == e.key;
      }
    }
    if forall e :: e in path ==> WellPlaced(t, e) {
      forall i | 0 <= i < |log| && log[i].enteredVia != ""
        ensures log[i].enteredVia in EdgeCounts.InEdges(CountedEdges(t, runId), log[i].nodeId)
      {
        assert path[i] in path;
      }
    }
  }

  /**
   What a misplaced stamp does to the counts: once it is logged, the edges into its target count one
   traversal, although the target has not been entered.
   */
  lemma MisplacedStampCounts(t: Template, runId: string, e: Edge, counts: map<Key, nat>)
    requires NoDuplicates(EdgeKeys(t)) && e in t.edges && !WellPlaced(t, e) && OwnerOf(t.nodes, e.target) in NodeKeys(t)
    requires var fold := Projection.FoldOf(runId, KeysOf(NodeKeys(t)), EntryLog(t, runId, [e]));
             EdgeCounts.Settled(CountedEdges(t, runId), fold, counts, Projection.NodeId(runId, e.target))
    ensures var target := Projection.NodeId(runId, e.target);
            && EdgeCounts.Total(EdgeCounts.InEdges(CountedEdges(t, runId), target), counts) == 1
            && EdgeCounts.AllEntries(EntryLog(t, runId, [e]), target) == 0
  {
    var target, edges := Projection.NodeId(runId, e.target), CountedEdges(t, runId);
    var log := EntryLog(t, runId, [e]);
    assert log == [EntryBy(t, runId, e)] && log[..0] == [];
    Projection.SameIdSameKey(runId, OwnerOf(t.nodes, e.target), e.target);
    UniqueCounted(t, runId);
    var keys, fold := EdgeCounts.InEdges(edges, target), Projection.FoldOf(runId, KeysOf(NodeKeys(t)), log);
    OneStampFolded(t, runId, e);
    LeadsToTarget(t, runId, e);
    EdgeCounts.InEdgesUnique(edges, target);
    EdgeCounts.TotalZero(keys, map[]);
    EdgeCounts.TotalIncrement(keys, map[], e.key);
    EdgeCounts.TotalPositive(keys, fold.enteredVia);
    EdgeCounts.SettledTotal(edges, fold, counts, target);
  }

  lemma OneStampFolded(t: Template, runId: string, e: Edge)
    requires OwnerOf(t.nodes, e.target) in NodeKeys(t) && e.key != ""
    ensures Projection.FoldOf(runId, KeysOf(NodeKeys(t)), EntryLog(t, runId, [e])).enteredVia == map[e.key := 1]
  {
    var log := EntryLog(t, runId, [e]);
    assert log == [EntryBy(t, runId, e)] && log[..0] == [];
    assert log[0].nodeId in Projection.NodeIds(runId, KeysOf(NodeKeys(t)));
  }

  lemma LeadsToTarget(t: Template, runId: string, e: Edge)
    requires e in t.edges
    ensures e.key in EdgeCounts.InEdges(CountedEdges(t, runId), Projection.NodeId(runId, e.target))
  {
    var edges, target := CountedEdges(t, runId), Projection.NodeId(runId, e.target);
    EdgeCounts.InEdgesMembers(edges, target, e.key);
    var k :| 0 <= k < |t.edges| && t.edges[k] == e;
    assert edges[k].key == e.key && edges[k].target == target;
  }

  /** So every walk of a template is well stamped where no edge but a loop-back leads to a region member. */
  lemma AllWalksWellStamped(t: Template, runId: string, key: Key, taken: Taken, outcomes: seq<Outcome>, kept: set<nat>)
    requires NoDuplicates(EdgeKeys(t)) && forall e :: e in t.edges && e.kind != LoopBack ==> WellPlaced(t, e)
    ensures var path := Path(t, key, taken, outcomes);
            EdgeCounts.WellStamped(CountedEdges(t, runId), EntryLog(t, runId, Logged(path, kept)))
  {
    PathFollowsEdges(t, key, taken, outcomes);
    WellStampedExactly(t, runId, key, taken, outcomes, kept);
  }
}
