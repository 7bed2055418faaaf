/**
 Workflow templates (src/accretion/templates.py): their shape, and what it means for one to be
 well formed. The validator is in `TemplateValidator`, the scheduler that walks them in `Scheduler`.
 */
module Templates {
  import opened Sequences
  import opened Reachability

  datatype NodeKind = Task | Agent | Tool | Verifier | Gate | Loop | Join | Terminal

  datatype EdgeKind = Normal | Condition | LoopBack | Retry | Error | Fanout | Merge | Approval

  datatype Guard =
    | OnSuccess | OnFail | OnInconclusive | OnApproved | OnDenied | OnReplanAvailable | OnReplanExhausted

  datatype Outcome = Success | Fail | Inconclusive | Approved | Denied

  datatype LoopPolicy = LoopPolicy(region: seq<Key>, actKey: Key, observeKey: Option<Key>,
                                   fixed: bool, fixedMaximum: Option<nat>)

  datatype Node = Node(key: Key, kind: NodeKind, loop: Option<LoopPolicy>, parent: Option<Key>)

  datatype Edge = Edge(key: Key, source: Key, target: Key, kind: EdgeKind, guard: Option<Guard>)

  datatype GateSpec = GateSpec(gateId: string, nodeKey: Key)

  datatype Template = Template(nodes: seq<Node>, edges: seq<Edge>, gates: seq<GateSpec>,
                               maxRetries: nat, maxReplans: nat)

  /** What each node kind can produce toward its outgoing edges. */
  function OutcomesOf(kind: NodeKind): seq<Outcome> {
    match kind
    case Task => [Success]
    case Agent => [Fail, Success]
    case Tool => [Success]
    case Verifier => [Fail, Inconclusive, Success]
    case Gate => [Approved, Denied]
    case Loop => [Fail, Success]
    case Join => [Success]
    case Terminal => []
  }

  // ---------------------------------------------------------------- reading a template

  function NodeKeys(t: Template): seq<Key> {
    seq(|t.nodes|, i requires 0 <= i < |t.nodes| => t.nodes[i].key)
  }

  function EdgeKeys(t: Template): seq<Key> {
    seq(|t.edges|, i requires 0 <= i < |t.edges| => t.edges[i].key)
  }

  function Outbound(t: Template, key: Key): (edges: seq<Edge>)
    ensures forall e :: e in edges <==> e in t.edges && e.source == key
  {
    var keep := (e: Edge) => e.source == key;
    FilterMembers(t.edges, keep);
    Filter(t.edges, keep)
  }

  function Inbound(t: Template, key: Key): (edges: seq<Edge>)
    ensures forall e :: e in edges <==> e in t.edges && e.target == key
  {
    var keep := (e: Edge) => e.target == key;
    FilterMembers(t.edges, keep);
    Filter(t.edges, keep)
  }

  function NotLoopBack(edges: seq<Edge>): (kept: seq<Edge>)
    ensures forall e :: e in kept <==> e in edges && e.kind != LoopBack
  {
    var keep := (e: Edge) => e.kind != LoopBack;
    FilterMembers(edges, keep);
    Filter(edges, keep)
  }

  function Entries(t: Template): (nodes: seq<Node>)
    ensures forall n :: n in nodes <==> n in t.nodes && Inbound(t, n.key) == []
  {
    var keep := (n: Node) => Inbound(t, n.key) == [];
    FilterMembers(t.nodes, keep);
    Filter(t.nodes, keep)
  }

  function Terminals(t: Template): (nodes: seq<Node>)
    ensures forall n :: n in nodes <==> n in t.nodes && n.kind == Terminal
  {
    var keep := (n: Node) => n.kind == Terminal;
    FilterMembers(t.nodes, keep);
    Filter(t.nodes, keep)
  }

  /** The nodes a LOOP node drives itself, rather than by macro edges. */
  function Members(n: Node): (keys: seq<Key>)
    ensures forall k :: k in keys <==> n.kind == Loop && n.loop.Some? && k in n.loop.value.region && k != n.key
  {
    if n.kind == Loop && n.loop.Some? then
      var keep := (k: Key) => k != n.key;
      FilterMembers(n.loop.value.region, keep);
      Filter(n.loop.value.region, keep)
    else []
  }

  predicate InSomeRegion(t: Template, key: Key) {
    exists n :: n in t.nodes && n.loop.Some? && key in n.loop.value.region
  }

  // ---------------------------------------------------------------- declarative well-formedness

  predicate NeedsGuard(kind: EdgeKind) {
    kind == Condition || kind == Approval || kind == Retry
  }

  predicate RefusesGuard(kind: EdgeKind) {
    kind == Normal || kind == LoopBack
  }

  predicate EdgeOk(t: Template, e: Edge) {
    && e.source in NodeKeys(t) && e.target in NodeKeys(t)
    && (NeedsGuard(e.kind) ==> e.guard.Some?)
    && (RefusesGuard(e.kind) ==> e.guard.None?)
  }

  ghost predicate ReferencesOk(t: Template) {
    && NoDuplicates(NodeKeys(t)) && NoDuplicates(EdgeKeys(t))
    && (forall e :: e in t.edges ==> EdgeOk(t, e))
  }

  ghost predicate EntryOk(t: Template) {
    |Entries(t)| == 1 && Entries(t)[0].kind == Task
  }

  ghost predicate TerminalsOk(t: Template) {
    Terminals(t) != [] && forall n :: n in Terminals(t) ==> Outbound(t, n.key) == []
  }

  ghost predicate HasEdge(t: Template, u: Key, v: Key) {
    exists e :: e in t.edges && e.source == u && e.target == v
  }

  ghost predicate HasExitEdge(t: Template, u: Key, v: Key) {
    exists e :: e in t.edges && e.source == u && e.target == v && e.kind != LoopBack
  }

  ghost predicate Drives(t: Template, owner: Key, member: Key) {
    exists n :: n in t.nodes && n.key == owner && member in Members(n)
  }

  /** One macro step from `u`: along an edge, or from a loop owner into its region. */
  ghost predicate Leads(t: Template, u: Key, v: Key) {
    HasEdge(t, u, v) || Drives(t, u, v)
  }

  /** One step toward a terminal: along an edge that is not a loop-back, or from a member to its owner. */
  ghost predicate LeadsOut(t: Template, u: Key, v: Key) {
    HasExitEdge(t, u, v) || Drives(t, v, u)
  }

  ghost predicate FromEntry(t: Template, v: Key, steps: nat)
    decreases steps
  {
    || (exists n :: n in Entries(t) && n.key == v)
    || (steps > 0 && exists u :: FromEntry(t, u, steps - 1) && Leads(t, u, v))
  }

  ghost predicate ToTerminal(t: Template, u: Key, steps: nat)
    decreases steps
  {
    || (exists n :: n in Terminals(t) && n.key == u)
    || (steps > 0 && exists v :: LeadsOut(t, u, v) && ToTerminal(t, v, steps - 1))
  }

  ghost predicate EntryReaches(t: Template, v: Key) {
    exists steps: nat :: FromEntry(t, v, steps)
  }

  ghost predicate ReachesTerminal(t: Template, u: Key) {
    exists steps: nat :: ToTerminal(t, u, steps)
  }

  ghost predicate EveryNodeReachable(t: Template) {
    forall n :: n in t.nodes ==> EntryReaches(t, n.key)
  }

  ghost predicate EveryNodeTerminates(t: Template) {
    forall n :: n in t.nodes ==> ReachesTerminal(t, n.key)
  }

  predicate PolicyOk(t: Template, policy: LoopPolicy) {
    && (forall k :: k in policy.region ==> k in NodeKeys(t))
    && policy.actKey in policy.region
    && (policy.observeKey.Some? ==> policy.observeKey.value in policy.region)
    && (policy.fixed ==> policy.fixedMaximum.Some?)
  }

  predicate LoopNodeOk(t: Template, n: Node) {
    if n.kind == Loop then n.loop.Some? && PolicyOk(t, n.loop.value) else n.loop.None?
  }

  /** Loop regions are disjoint once each leaves out its own owner. */
  ghost predicate RegionsDisjoint(nodes: seq<Node>) {
    forall i, j :: 0 <= i < j < |nodes| ==> RegionsApart(nodes[i], nodes[j])
  }

  predicate RegionsApart(a: Node, b: Node) {
    forall k :: k in Members(a) ==> k !in Members(b)
  }

  predicate LoopBackOk(t: Template, e: Edge) {
    e.kind == LoopBack ==>
      exists n :: n in t.nodes && n.kind == Loop && n.loop.Some? &&
                  e.source in n.loop.value.region && e.target in n.loop.value.region
  }

  predicate ParentOk(t: Template, n: Node) {
    n.parent.Some? ==>
      && n.parent.value != n.key
      && exists p :: p in t.nodes && p.key == n.parent.value && p.kind == Loop &&
                     (p.loop.Some? ==> n.key in p.loop.value.region)
  }

  function GateKeys(t: Template): set<Key> {
    set n | n in t.nodes && n.kind == Gate :: n.key
  }

  function GateSpecKeys(t: Template): set<Key> {
    set g | g in t.gates :: g.nodeKey
  }

  function GateIds(t: Template): seq<string> {
    seq(|t.gates|, i requires 0 <= i < |t.gates| => t.gates[i].gateId)
  }

  ghost predicate GatesOk(t: Template) {
    GateKeys(t) == GateSpecKeys(t) && NoDuplicates(GateIds(t))
  }

  predicate UsesGuard(t: Template, g: Guard) {
    exists e :: e in t.edges && e.guard == Some(g)
  }

  /** Replan guards come as a pair, and exactly when the budget allows replans. */
  predicate ReplansOk(t: Template) {
    UsesGuard(t, OnReplanAvailable) == UsesGuard(t, OnReplanExhausted) == (t.maxReplans > 0)
  }

  // ---------------------------------------------------------------- guard coverage

  function GuardFor(outcome: Outcome): Guard {
    match outcome
    case Success => OnSuccess
    case Fail => OnFail
    case Inconclusive => OnInconclusive
    case Approved => OnApproved
    case Denied => OnDenied
  }

  predicate Covers(e: Edge, outcome: Outcome) {
    match outcome
    case Success => (e.kind == Normal && e.guard.None?) || e.guard == Some(OnSuccess)
    case Fail => e.kind != Retry && (e.guard == Some(OnFail) || e.guard == Some(OnReplanExhausted))
    case _ => e.guard == Some(GuardFor(outcome))
  }

  function Covering(edges: seq<Edge>, outcome: Outcome): (covering: seq<Edge>)
    ensures forall e :: e in covering <==> e in edges && Covers(e, outcome)
  {
    var keep := (e: Edge) => Covers(e, outcome);
    FilterMembers(edges, keep);
    Filter(edges, keep)
  }

  /** No two RETRY edges share a guard. */
  ghost predicate RetriesDistinct(edges: seq<Edge>) {
    forall i, j :: 0 <= i < j < |edges| && edges[i].kind == Retry && edges[j].kind == Retry ==>
                     edges[i].guard != edges[j].guard
  }

  ghost predicate NodeCovered(t: Template, n: Node) {
    && (forall outcome :: outcome in OutcomesOf(n.kind) ==> |Covering(Outbound(t, n.key), outcome)| == 1)
    && RetriesDistinct(Outbound(t, n.key))
  }

  /** Nodes the coverage rule speaks about: not terminal, not driven by a loop. */
  predicate Scheduled(t: Template, n: Node) {
    n.kind != Terminal && !InSomeRegion(t, n.key)
  }

  ghost predicate CoverageOk(t: Template) {
    forall n :: n in t.nodes && Scheduled(t, n) ==> NodeCovered(t, n)
  }

  ghost predicate ShapeOk(t: Template) {
    && (forall n :: n in t.nodes ==> LoopNodeOk(t, n)) && RegionsDisjoint(t.nodes)
    && (forall e :: e in t.edges ==> LoopBackOk(t, e))
    && (forall n :: n in t.nodes ==> ParentOk(t, n))
    && GatesOk(t) && ReplansOk(t) && CoverageOk(t)
  }

  /** One TASK entry reaches every node, every node reaches a terminal, and the shape is sound. */
  ghost predicate WellFormed(t: Template) {
    && ReferencesOk(t) && EntryOk(t) && TerminalsOk(t)
    && EveryNodeReachable(t) && EveryNodeTerminates(t)
    && ShapeOk(t)
  }

  // ---------------------------------------------------------------- the two search graphs

  function Targets(edges: seq<Edge>): seq<Key> {
    seq(|edges|, i requires 0 <= i < |edges| => edges[i].target)
  }

  function Sources(edges: seq<Edge>): seq<Key> {
    seq(|edges|, i requires 0 <= i < |edges| => edges[i].source)
  }

  /** Successors of the forward search: edge targets, then region members. */
  function ForwardOf(t: Template, n: Node): (keys: seq<Key>)
    ensures forall v :: v in keys <==> HasEdge(t, n.key, v) || v in Members(n)
  {
    TargetsFacts(Outbound(t, n.key));
    Targets(Outbound(t, n.key)) + Members(n)
  }

  /** Predecessors of the backward search: sources of edges that are not loop-backs, then region members. */
  function BackwardOf(t: Template, n: Node): (keys: seq<Key>)
    ensures forall u :: u in keys <==> HasExitEdge(t, u, n.key) || u in Members(n)
  {
    SourcesFacts(NotLoopBack(Inbound(t, n.key)));
    Sources(NotLoopBack(Inbound(t, n.key))) + Members(n)
  }

  lemma TargetsFacts(edges: seq<Edge>)
    ensures forall v :: v in Targets(edges) <==> exists e :: e in edges && e.target == v
  {
    forall e | e in edges ensures e.target in Targets(edges) {
      var i :| 0 <= i < |edges| && edges[i] == e;
      assert Targets(edges)[i] == e.target;
    }
  }

  lemma SourcesFacts(edges: seq<Edge>)
    ensures forall v :: v in Sources(edges) <==> exists e :: e in edges && e.source == v
  {
    forall e | e in edges ensures e.source in Sources(edges) {
      var i :| 0 <= i < |edges| && edges[i] == e;
      assert Sources(edges)[i] == e.source;
    }
  }

  lemma NodeAt(t: Template, k: Key) returns (n: Node)
    requires k in NodeKeys(t)
    ensures n in t.nodes && n.key == k
  {
    var i :| 0 <= i < |NodeKeys(t)| && NodeKeys(t)[i] == k;
    n := t.nodes[i];
  }

  lemma KeyOfNode(t: Template, n: Node)
    requires n in t.nodes
    ensures n.key in NodeKeys(t)
  {
    var i :| 0 <= i < |t.nodes| && t.nodes[i] == n;
    assert NodeKeys(t)[i] == n.key;
  }

  lemma SameKeySameNode(t: Template, a: Node, b: Node)
    requires NoDuplicates(NodeKeys(t)) && a in t.nodes && b in t.nodes && a.key == b.key
    ensures a == b
  {
    var i :| 0 <= i < |t.nodes| && t.nodes[i] == a;
    var j :| 0 <= j < |t.nodes| && t.nodes[j] == b;
    assert NodeKeys(t)[i] == NodeKeys(t)[j];
  }

  function ForwardGraph(t: Template): Successors<Key>
    requires NoDuplicates(NodeKeys(t))
  {
    UniqueKeys(t);
    map n | n in t.nodes :: n.key := ForwardOf(t, n)
  }

  function BackwardGraph(t: Template): Successors<Key>
    requires NoDuplicates(NodeKeys(t))
  {
    UniqueKeys(t);
    map n | n in t.nodes :: n.key := BackwardOf(t, n)
  }

  lemma UniqueKeys(t: Template)
    requires NoDuplicates(NodeKeys(t))
    ensures forall a, b :: a in t.nodes && b in t.nodes && a.key == b.key ==> a == b
  {
    forall a, b | a in t.nodes && b in t.nodes && a.key == b.key ensures a == b { SameKeySameNode(t, a, b); }
  }

  lemma GraphsAt(t: Template, k: Key) returns (n: Node)
    requires NoDuplicates(NodeKeys(t)) && k in NodeKeys(t)
    ensures n in t.nodes && n.key == k && forall m :: m in t.nodes && m.key == k ==> m == n
    ensures k in ForwardGraph(t) && ForwardGraph(t)[k] == ForwardOf(t, n)
    ensures k in BackwardGraph(t) && BackwardGraph(t)[k] == BackwardOf(t, n)
  {
    n := NodeAt(t, k);
    UniqueKeys(t);
  }

  lemma GraphKeys(t: Template)
    requires NoDuplicates(NodeKeys(t))
    ensures forall k :: k in ForwardGraph(t) <==> k in NodeKeys(t)
    ensures forall k :: k in BackwardGraph(t) <==> k in NodeKeys(t)
  {
    forall n | n in t.nodes ensures n.key in NodeKeys(t) { KeyOfNode(t, n); }
    forall k | k in NodeKeys(t) ensures k in ForwardGraph(t) && k in BackwardGraph(t) { var n := GraphsAt(t, k); }
  }

  lemma EdgesAndOwnersAreKnown(t: Template, u: Key, v: Key)
    requires ReferencesOk(t)
    ensures HasEdge(t, u, v) ==> u in NodeKeys(t) && v in NodeKeys(t)
    ensures Drives(t, u, v) ==> u in NodeKeys(t)
  {
    if HasEdge(t, u, v) {
      var e :| e in t.edges && e.source == u && e.target == v;
      assert EdgeOk(t, e);
    }
    if Drives(t, u, v) {
      var n :| n in t.nodes && n.key == u && v in Members(n);
      KeyOfNode(t, n);
    }
  }

  lemma ForwardFollows(t: Template, u: Key, v: Key)
    requires ReferencesOk(t)
    ensures Follows(ForwardGraph(t), u, v) <==> Leads(t, u, v)
  {
    GraphKeys(t);
    EdgesAndOwnersAreKnown(t, u, v);
    if u in NodeKeys(t) {
      var n := GraphsAt(t, u);
      assert Drives(t, u, v) <==> v in Members(n);
    }
  }

  lemma BackwardFollows(t: Template, u: Key, v: Key)
    requires ReferencesOk(t)
    ensures Follows(BackwardGraph(t), v, u) <==> LeadsOut(t, u, v)
  {
    GraphKeys(t);
    EdgesAndOwnersAreKnown(t, u, v);
    EdgesAndOwnersAreKnown(t, v, u);
    if v in NodeKeys(t) {
      var n := GraphsAt(t, v);
      assert Drives(t, v, u) <==> u in Members(n);
    }
  }

  function KeysOfNodes(nodes: seq<Node>): (keys: seq<Key>)
    ensures forall k :: k in keys <==> exists n :: n in nodes && n.key == k
    ensures |keys| == |nodes|
  {
    var keys := seq(|nodes|, i requires 0 <= i < |nodes| => nodes[i].key);
    assert forall i :: 0 <= i < |nodes| ==> keys[i] == nodes[i].key;
    assert forall n :: n in nodes ==> n.key in keys by {
      forall n | n in nodes ensures n.key in keys {
        var i :| 0 <= i < |nodes| && nodes[i] == n;
        assert keys[i] == n.key;
      }
    }
    keys
  }

  lemma {:induction false} FromEntryIsWithin(t: Template, v: Key, steps: nat)
    requires ReferencesOk(t)
    ensures FromEntry(t, v, steps) <==> Within(ForwardGraph(t), KeysOf(KeysOfNodes(Entries(t))), v, steps)
    decreases steps
  {
    if steps > 0 {
      forall u
        ensures FromEntry(t, u, steps - 1) <==> Within(ForwardGraph(t), KeysOf(KeysOfNodes(Entries(t))), u, steps - 1)
        ensures Follows(ForwardGraph(t), u, v) <==> Leads(t, u, v)
      {
        FromEntryIsWithin(t, u, steps - 1);
        ForwardFollows(t, u, v);
      }
    }
  }

  lemma {:induction false} ToTerminalIsWithin(t: Template, u: Key, steps: nat)
    requires ReferencesOk(t)
    ensures ToTerminal(t, u, steps) <==> Within(BackwardGraph(t), KeysOf(KeysOfNodes(Terminals(t))), u, steps)
    decreases steps
  {
    if steps > 0 {
      forall v
        ensures ToTerminal(t, v, steps - 1) <==>
                  Within(BackwardGraph(t), KeysOf(KeysOfNodes(Terminals(t))), v, steps - 1)
        ensures Follows(BackwardGraph(t), v, u) <==> LeadsOut(t, u, v)
      {
        ToTerminalIsWithin(t, v, steps - 1);
        BackwardFollows(t, u, v);
      }
    }
  }
}
