/**
 Materializing a template into a run's graph (src/accretion/templates.py) and reading it back in
 the scheduler (src/accretion/services/run_manager.py): node ids carry the run id, and the
 scheduler recovers keys from them.
 */
module RunGraph {
  import opened Sequences
  import opened Reachability
  import opened Templates
  import opened Scheduler
  import opened Walks
  import RunStates
  import Projection

  datatype RunNode = RunNode(
    nodeId: string, key: Key, kind: NodeKind, parentId: Option<string>, iteration: Option<nat>,
      maxIterations: Option<nat>
  )

  datatype RunEdge = RunEdge(edgeId: string, key: Key, source: string, target: string, kind: EdgeKind,
    guard: Option<Guard>)

  datatype Graph = Graph(nodes: seq<RunNode>, edges: seq<RunEdge>)

  function NodeFor(runId: string, budget: nat, n: Node): RunNode {
    RunNode(Projection.NodeId(runId, n.key), n.key, n.kind,
            if n.parent.None? || n.parent.value == "" then None else Some(Projection.NodeId(runId, n.parent.value)),
            if n.kind == Loop then Some(0) else None,
            if n.loop.None? then None else if n.loop.value.fixed then n.loop.value.fixedMaximum else Some(budget))
  }

  function EdgeFor(runId: string, e: Edge): RunEdge {
    RunEdge(Projection.NodeId(runId, e.key), e.key, Projection.NodeId(runId, e.source),
            Projection.NodeId(runId, e.target), e.kind, e.guard)
  }

  /** The node of the graph stands for the node of the template. */
  ghost predicate Carries(runId: string, budget: nat, n: Node, r: RunNode) {
    && r.nodeId == runId + ":" + n.key && r.key == n.key && r.kind == n.kind
    && r.parentId == (if n.parent == None || n.parent.value == "" then None else Some(runId + ":" + n.parent.value))
    && r.iteration == (if n.kind == Loop then Some(0) else None)
    && (n.loop == None ==> r.maxIterations == None)
    && (n.loop != None && n.loop.value.fixed ==> r.maxIterations == n.loop.value.fixedMaximum)
    && (n.loop != None && !n.loop.value.fixed ==> r.maxIterations == Some(budget))
  }

  /** `instantiate_run_graph`: refuses a template that is not VALIDATED or whose checksum has drifted. */
  method Instantiate(t: Template, validated: bool, intact: bool, runId: string, budget: nat)
    returns (graph: Option<Graph>)
    ensures graph.Some? <==> validated && intact
    ensures graph.Some? ==> Materializes(graph.value, t, runId)
    ensures graph.Some? ==> forall i :: 0 <= i < |t.nodes| ==> Carries(runId, budget, t.nodes[i], graph.value.nodes[i])
  {
    if !validated || !intact {
      return None;
    }
    var nodes: seq<RunNode> := [];
    for i := 0 to |t.nodes|
      invariant |nodes| == i && forall j :: 0 <= j < i ==> nodes[j] == NodeFor(runId, budget, t.nodes[j])
    {
      nodes := nodes + [NodeFor(runId, budget, t.nodes[i])];
    }
    graph := Some(Graph(nodes, seq(|t.edges|, i requires 0 <= i < |t.edges| => EdgeFor(runId, t.edges[i]))));
  }

  /** What the scheduler relies on in a graph. */
  ghost predicate Materializes(graph: Graph, t: Template, runId: string) {
    && |graph.nodes| == |t.nodes| && |graph.edges| == |t.edges|
    && (forall i :: 0 <= i < |t.nodes| ==>
                      && graph.nodes[i].key == t.nodes[i].key && graph.nodes[i].kind == t.nodes[i].kind
                      && graph.nodes[i].nodeId == Projection.NodeId(runId, t.nodes[i].key))
    && (forall i :: 0 <= i < |t.edges| ==> graph.edges[i] == EdgeFor(runId, t.edges[i]))
  }

  // ---------------------------------------------------------------- reading the graph

  /** An edge as the scheduler sees it: endpoints by `_key_of`. */
  function Seen(e: RunEdge): Edge {
    Edge(e.key, Projection.LastPart(e.source), Projection.LastPart(e.target), e.kind, e.guard)
  }

  function AllSeen(edges: seq<RunEdge>): seq<Edge> {
    seq(|edges|, i requires 0 <= i < |edges| => Seen(edges[i]))
  }

  /** `out_edges[key]`. */
  function OutEdges(graph: Graph, key: Key): seq<Edge> {
    Filter(AllSeen(graph.edges), (e: Edge) => e.source == key)
  }

  /** `inbound_keys`. */
  function InboundKeys(graph: Graph): set<Key> {
    set e | e in AllSeen(graph.edges) :: e.target
  }

  /** The first node nothing leads to. */
  function EntryKey(graph: Graph): Option<Key> {
    var entries := Filter(graph.nodes, (n: RunNode) => n.key !in InboundKeys(graph));
    if entries == [] then None else Some(entries[0].key)
  }

  /** `nodes[key]`. */
  function KindUnder(nodes: seq<RunNode>, key: Key): Option<NodeKind> {
    if nodes == [] then None
    else if nodes[|nodes| - 1].key == key then Some(nodes[|nodes| - 1].kind)
    else KindUnder(nodes[..|nodes| - 1], key)
  }

  function GraphAdvance(graph: Graph, t: Template, key: Key, taken: Taken, outcome: Outcome): Cursor {
    match SelectEdge(t, OutEdges(graph, key), outcome, taken)
    case None => Stopped(key)
    case Some(e) => Follow(t, e, taken)
  }

  /** The scheduler's loop, on the graph. */
  function GraphWalk(graph: Graph, t: Template, key: Key, taken: Taken, outcomes: seq<Outcome>): Cursor
    decreases |outcomes|
  {
    match KindUnder(graph.nodes, key)
    case None => Unsupported(key)
    case Some(kind) =>
      if kind == Join then Unsupported(key)
      else if kind == Terminal || outcomes == [] || outcomes[0] !in Produced(kind) then At(key, taken)
      else
        match GraphAdvance(graph, t, key, taken, outcomes[0])
        case At(next, more) => GraphWalk(graph, t, next, more, outcomes[1..])
        case stopped => stopped
  }

  // ---------------------------------------------------------------- nothing is lost

  ghost predicate ColonFreeEnds(t: Template) {
    forall e :: e in t.edges ==> ':' !in e.source && ':' !in e.target
  }

  /** The scheduler reads the template's own edges back exactly when no endpoint contains a colon. */
  lemma EdgesReadBack(graph: Graph, t: Template, runId: string)
    requires Materializes(graph, t, runId)
    ensures AllSeen(graph.edges) == t.edges <==> ColonFreeEnds(t)
  {
    var seen := AllSeen(graph.edges);
    forall i | 0 <= i < |t.edges|
      ensures seen[i] == t.edges[i] <==> ':' !in t.edges[i].source && ':' !in t.edges[i].target
    {
      Projection.KeyRecovered(runId, t.edges[i].source);
      Projection.KeyRecovered(runId, t.edges[i].target);
    }
    if seen == t.edges {
      forall e | e in t.edges ensures ':' !in e.source && ':' !in e.target {
        var i :| 0 <= i < |t.edges| && t.edges[i] == e;
        assert seen[i] == t.edges[i];
      }
    }
    if ColonFreeEnds(t) {
      forall i | 0 <= i < |t.edges| ensures seen[i] == t.edges[i] { assert t.edges[i] in t.edges; }
    }
  }

  /** Every node key fits the pattern the schema asks of it. */
  ghost predicate KeysFit(t: Template) {
    forall n :: n in t.nodes ==> Projection.FitsPattern(n.key)
  }

  /** Edges between known nodes with fitting keys are always read back. */
  lemma FittingEdgesReadBack(graph: Graph, t: Template, runId: string)
    requires Materializes(graph, t, runId) && KeysFit(t) && ReferencesOk(t)
    ensures AllSeen(graph.edges) == t.edges
  {
    forall e | e in t.edges ensures ':' !in e.source && ':' !in e.target {
      assert EdgeOk(t, e);
      var i :| 0 <= i < |t.nodes| && NodeKeys(t)[i] == e.source;
      var j :| 0 <= j < |t.nodes| && NodeKeys(t)[j] == e.target;
      assert t.nodes[i] in t.nodes && t.nodes[j] in t.nodes;
    }
    EdgesReadBack(graph, t, runId);
  }

  /** Node ids are distinct exactly when the template's keys are. */
  lemma IdsAreDistinct(graph: Graph, t: Template, runId: string)
    requires Materializes(graph, t, runId)
    ensures NoDuplicates(NodeKeys(t)) <==>
              forall i, j :: 0 <= i < j < |graph.nodes| ==> graph.nodes[i].nodeId != graph.nodes[j].nodeId
  {
    var keys := NodeKeys(t);
    forall i, j | 0 <= i < j < |keys| ensures keys[i] != keys[j] <==> graph.nodes[i].nodeId != graph.nodes[j].nodeId {
      Projection.SameIdSameKey(runId, keys[i], keys[j]);
    }
    if forall i, j :: 0 <= i < j < |graph.nodes| ==> graph.nodes[i].nodeId != graph.nodes[j].nodeId {
      forall i, j | 0 <= i < j < |keys| ensures keys[i] != keys[j] {
        assert graph.nodes[i].nodeId != graph.nodes[j].nodeId;
      }
    }
  }

  lemma AdvanceAgrees(graph: Graph, t: Template, runId: string, key: Key, taken: Taken, outcome: Outcome)
    requires Materializes(graph, t, runId) && KeysFit(t) && ReferencesOk(t)
    ensures GraphAdvance(graph, t, key, taken, outcome) == Advance(t, key, taken, outcome)
  {
    FittingEdgesReadBack(graph, t, runId);
    FilterSame(t.edges, (e: Edge) => e.source == key, (e: Edge) => e.source == key);
    assert OutEdges(graph, key) == Outbound(t, key);
  }

  lemma {:induction false} KindsAgree(nodes: seq<RunNode>, specs: seq<Node>, key: Key)
    requires |nodes| == |specs|
    requires forall i :: 0 <= i < |nodes| ==> nodes[i].key == specs[i].key && nodes[i].kind == specs[i].kind
    ensures KindUnder(nodes, key) ==
            match NodeUnder(specs, key) case None => None case Some(n) => Some(n.kind)
  {
    if nodes != [] { KindsAgree(nodes[..|nodes| - 1], specs[..|specs| - 1], key); }
  }

  /** Walking the run's graph is walking the template. */
  lemma {:induction false} WalksAgree(
    graph: Graph, t: Template, runId: string, key: Key, taken: Taken, outcomes: seq<Outcome>
  )
    requires Materializes(graph, t, runId) && KeysFit(t) && ReferencesOk(t)
    ensures GraphWalk(graph, t, key, taken, outcomes) == Walk(t, key, taken, outcomes)
    decreases |outcomes|
  {
    KindsAgree(graph.nodes, t.nodes, key);
    var n := NodeUnder(t.nodes, key);
    if n.Some? && Runs(n.value.kind) && outcomes != [] && outcomes[0] in Produced(n.value.kind) {
      AdvanceAgrees(graph, t, runId, key, taken, outcomes[0]);
      var step := Advance(t, key, taken, outcomes[0]);
      if step.At? { WalksAgree(graph, t, runId, step.key, step.taken, outcomes[1..]); }
    }
  }

  lemma {:induction false} FilterKeys(nodes: seq<RunNode>, specs: seq<Node>, inbound: set<Key>)
    requires |nodes| == |specs| && forall i :: 0 <= i < |nodes| ==> nodes[i].key == specs[i].key
    ensures var a, b := Filter(nodes, (n: RunNode) => n.key !in inbound), Filter(specs, (n: Node) => n.key !in inbound);
            |a| == |b| && forall i :: 0 <= i < |a| ==> a[i].key == b[i].key
  {
    if nodes != [] { FilterKeys(nodes[..|nodes| - 1], specs[..|specs| - 1], inbound); }
  }

  lemma {:induction false} FilterSame<T>(s: seq<T>, p: T -> bool, q: T -> bool)
    requires forall x :: x in s ==> p(x) == q(x)
    ensures Filter(s, p) == Filter(s, q)
  {
    if s != [] {
      assert s[|s| - 1] in s;
      FilterSame(s[..|s| - 1], p, q);
    }
  }

  /** The scheduler starts where the validator found the entry. */
  lemma EntryAgrees(graph: Graph, t: Template, runId: string)
    requires Materializes(graph, t, runId) && KeysFit(t) && ReferencesOk(t)
    ensures Entries(t) == [] ==> EntryKey(graph) == None
    ensures Entries(t) != [] ==> EntryKey(graph) == Some(Entries(t)[0].key) && Entries(t)[0].key in NodeKeys(t)
  {
    FittingEdgesReadBack(graph, t, runId);
    var inbound := InboundKeys(graph);
    forall n | n in t.nodes ensures n.key !in inbound <==> Inbound(t, n.key) == [] {
      Nonempty(Inbound(t, n.key));
    }
    FilterKeys(graph.nodes, t.nodes, inbound);
    FilterSame(t.nodes, (n: Node) => n.key !in inbound, (n: Node) => Inbound(t, n.key) == []);
    assert Entries(t) == Filter(t.nodes, (n: Node) => Inbound(t, n.key) == []);
    if Entries(t) != [] {
      assert Entries(t)[0] in Entries(t);
      KeyOfNode(t, Entries(t)[0]);
    }
  }

  /**
   From the template to the run: where every node the cursor can rest on answers all it can
   produce, a run of the materialized graph starts at the template's entry and never stops or
   raises. Acceptance alone does not give this; `StrandedTemplates` has the templates.
   */
  lemma RunsAreNeverStranded(graph: Graph, t: Template, runId: string, outcomes: seq<Outcome>)
    requires Materializes(graph, t, runId) && KeysFit(t) && ReferencesOk(t) && EntryOk(t) && Answers(t)
    ensures EntryKey(graph).Some? && GraphWalk(graph, t, EntryKey(graph).value, map[], outcomes).At?
  {
    EntryAgrees(graph, t, runId);
    var entry := Entries(t)[0];
    assert entry in Entries(t);
    assert CanRest(t, entry.key);
    WalksAgree(graph, t, runId, entry.key, map[], outcomes);
    WalksNeverStop(t, entry.key, map[], outcomes);
  }

  /** Some run of the graph ends without an edge or at a node that cannot be run. */
  ghost predicate GraphCanStrand(graph: Graph, t: Template, entry: Key) {
    exists outcomes :: !GraphWalk(graph, t, entry, map[], outcomes).At?
  }

  /** Some run of the graph is stranded exactly when a stuck state is reachable among the template's run states. */
  lemma RunsStrandExactly(graph: Graph, t: Template, runId: string)
    requires Materializes(graph, t, runId) && KeysFit(t) && ReferencesOk(t) && EntryOk(t)
    ensures EntryKey(graph) == Some(EntryOf(t))
    ensures GraphCanStrand(graph, t, EntryOf(t)) <==> RunStates.ComesToStuck(t, RunStates.Start(t))
  {
    EntryAgrees(graph, t, runId);
    RunStates.StrandsExactly(t);
    SameRuns(graph, t, runId);
  }

  lemma SameRuns(graph: Graph, t: Template, runId: string)
    requires Materializes(graph, t, runId) && KeysFit(t) && ReferencesOk(t) && Entries(t) != []
    ensures GraphCanStrand(graph, t, EntryOf(t)) <==> CanStrand(t)
  {
    if outcomes :| !FromStart(t, outcomes).At? { WalksAgree(graph, t, runId, EntryOf(t), map[], outcomes); }
    if outcomes :| !GraphWalk(graph, t, EntryOf(t), map[], outcomes).At? {
      WalksAgree(graph, t, runId, EntryOf(t), map[], outcomes);
      assert !FromStart(t, outcomes).At?;
    }
  }
}
