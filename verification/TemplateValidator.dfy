/**
 `validate_template` (src/accretion/templates.py): the checks in source order, each a loop that
 appends to a list of problems. The list is empty on exactly the well-formed templates, and the
 lookup failure the source can raise is characterised exactly.
 */
module TemplateValidator {
  import opened Sequences
  import opened Reachability
  import opened Templates

  datatype Problem =
    | DuplicateNodeKeys
    | DuplicateEdgeKeys
    | UnknownEndpoint(edge: Key)
    | GuardRequired(edge: Key)
    | GuardForbidden(edge: Key)
    | EntryCount(count: nat)
    | EntryNotTask
    | NoTerminal
    | TerminalHasEdges(node: Key)
    | Unreachable(nodes: set<Key>)
    | Stranded(nodes: set<Key>)
    | LoopPolicyMissing(node: Key)
    | RegionUnknown(node: Key)
    | ActOutsideRegion(node: Key)
    | ObserveOutsideRegion(node: Key)
    | FixedWithoutMaximum(node: Key)
    | RegionsOverlap(owner: Key, node: Key)
    | StrayLoopPolicy(node: Key)
    | LoopBackLeavesRegion(edge: Key)
    | ParentNotLoop(node: Key)
    | ParentRegionLacks(node: Key)
    | OwnParent(node: Key)
    | GateMismatch
    | DuplicateGateIds
    | ReplanGuardsUnpaired
    | ReplanGuardsWithoutBudget
    | ReplanBudgetWithoutGuards
    | Uncovered(node: Key, outcome: Outcome)
    | Ambiguous(node: Key, outcome: Outcome)
    | RetriesShareGuard(node: Key)

  // ---------------------------------------------------------------- what each problem says

  predicate EdgeGap(t: Template, e: Edge, p: Problem) {
    match p
    case UnknownEndpoint(key) => key == e.key && (e.source !in NodeKeys(t) || e.target !in NodeKeys(t))
    case GuardRequired(key) => key == e.key && NeedsGuard(e.kind) && e.guard == None
    case GuardForbidden(key) => key == e.key && RefusesGuard(e.kind) && e.guard != None
    case _ => false
  }

  ghost predicate ReferenceGap(t: Template, p: Problem) {
    || (p == DuplicateNodeKeys && !NoDuplicates(NodeKeys(t)))
    || (p == DuplicateEdgeKeys && !NoDuplicates(EdgeKeys(t)))
    || SomeEdgeGap(t, |t.edges|, p)
  }

  ghost predicate EndGap(t: Template, p: Problem) {
    match p
    case EntryCount(count) => count == |Entries(t)| != 1
    case EntryNotTask => |Entries(t)| == 1 && Entries(t)[0].kind != Task
    case NoTerminal => Terminals(t) == []
    case TerminalHasEdges(_) => SomeTerminalGap(t, |Terminals(t)|, p)
    case _ => false
  }

  predicate TerminalGap(t: Template, n: Node, p: Problem) {
    p == TerminalHasEdges(n.key) && Outbound(t, n.key) != []
  }

  /** The nodes the search from the first entry does not come to. */
  ghost function NotReached(t: Template): set<Key> {
    set n | n in t.nodes && !FirstEntryReaches(t, n.key) :: n.key
  }

  /** The nodes from which no terminal is reached. */
  ghost function NotEnding(t: Template): set<Key> {
    set n | n in t.nodes && !ReachesTerminal(t, n.key) :: n.key
  }

  ghost predicate SearchGap(t: Template, p: Problem) {
    match p
    case Unreachable(nodes) => Entries(t) != [] && nodes == NotReached(t) != {}
    case Stranded(nodes) => nodes == NotEnding(t) != {}
    case _ => false
  }

  ghost predicate LoopGap(t: Template, i: nat, p: Problem)
    requires i < |t.nodes|
  {
    var n := t.nodes[i];
    match p
    case LoopPolicyMissing(key) => key == n.key && n.kind == Loop && n.loop == None
    case StrayLoopPolicy(key) => key == n.key && n.kind != Loop && n.loop != None
    case RegionsOverlap(owner, key) =>
      key == n.key && HasRegion(n) && Overlapped(t.nodes, i, owner)
    case _ => HasRegion(n) && PolicyGap(t, n, n.loop.value, p)
  }

  /** A node before this one, under this key, has a region that meets this one's. */
  ghost predicate Overlapped(nodes: seq<Node>, i: nat, owner: Key)
    requires i < |nodes|
  {
    exists k :: 0 <= k < i && nodes[k].key == owner && !RegionsApart(nodes[k], nodes[i])
  }

  ghost predicate PolicyGap(t: Template, n: Node, policy: LoopPolicy, p: Problem) {
    match p
    case RegionUnknown(key) => key == n.key && exists k :: k in policy.region && k !in NodeKeys(t)
    case ActOutsideRegion(key) => key == n.key && policy.actKey !in policy.region
    case ObserveOutsideRegion(key) =>
      key == n.key && policy.observeKey.Some? && policy.observeKey.value !in policy.region
    case FixedWithoutMaximum(key) => key == n.key && policy.fixed && policy.fixedMaximum == None
    case _ => false
  }

  ghost predicate LoopBackGap(t: Template, e: Edge, p: Problem) {
    p == LoopBackLeavesRegion(e.key) && !LoopBackOk(t, e)
  }

  ghost predicate IsParent(t: Template, n: Node, parent: Node) {
    n.parent.Some? && parent in t.nodes && parent.key == n.parent.value && parent.kind == Loop
  }

  ghost predicate ParentGap(t: Template, n: Node, p: Problem) {
    match p
    case ParentNotLoop(key) => key == n.key && n.parent.Some? && forall m :: m in t.nodes ==> !IsParent(t, n, m)
    case ParentRegionLacks(key) =>
      key == n.key && exists m :: IsParent(t, n, m) && m.loop.Some? && n.key !in m.loop.value.region
    case OwnParent(key) => key == n.key && n.parent == Some(n.key)
    case _ => false
  }

  ghost predicate GateGap(t: Template, p: Problem) {
    var available, exhausted := UsesGuard(t, OnReplanAvailable), UsesGuard(t, OnReplanExhausted);
    match p
    case GateMismatch => GateKeys(t) != GateSpecKeys(t)
    case DuplicateGateIds => !NoDuplicates(GateIds(t))
    case ReplanGuardsUnpaired => available != exhausted
    case ReplanGuardsWithoutBudget => (available || exhausted) && t.maxReplans == 0
    case ReplanBudgetWithoutGuards => !available && !exhausted && t.maxReplans > 0
    case _ => false
  }

  ghost predicate CoverageGap(t: Template, n: Node, p: Problem) {
    match p
    case Uncovered(key, outcome) =>
      key == n.key && outcome in OutcomesOf(n.kind) && |Covering(Outbound(t, n.key), outcome)| == 0
    case Ambiguous(key, outcome) =>
      key == n.key && outcome in OutcomesOf(n.kind) && |Covering(Outbound(t, n.key), outcome)| > 1
    case RetriesShareGuard(key) => key == n.key && !RetriesDistinct(Outbound(t, n.key))
    case _ => false
  }

  /** What a call to the validator ends in: a list of problems, or a raised lookup error. */
  datatype Verdict = Checked(problems: seq<Problem>) | LookupError

  // ---------------------------------------------------------------- problems of the first items

  ghost predicate SomeEdgeGap(t: Template, i: nat, p: Problem)
    requires i <= |t.edges|
  {
    exists k :: 0 <= k < i && EdgeGap(t, t.edges[k], p)
  }

  ghost predicate SomeTerminalGap(t: Template, i: nat, p: Problem)
    requires i <= |Terminals(t)|
  {
    exists k :: 0 <= k < i && TerminalGap(t, Terminals(t)[k], p)
  }

  ghost predicate SomeLoopGap(t: Template, i: nat, p: Problem)
    requires i <= |t.nodes|
  {
    exists k :: 0 <= k < i && LoopGap(t, k, p)
  }

  ghost predicate SomeLoopBackGap(t: Template, i: nat, p: Problem)
    requires i <= |t.edges|
  {
    exists k :: 0 <= k < i && LoopBackGap(t, t.edges[k], p)
  }

  ghost predicate SomeParentGap(t: Template, i: nat, p: Problem)
    requires i <= |t.nodes|
  {
    exists k :: 0 <= k < i && ParentGap(t, t.nodes[k], p)
  }

  ghost predicate SomeOutcomeGap(n: Node, edges: seq<Edge>, outcomes: seq<Outcome>, i: nat, p: Problem)
    requires i <= |outcomes|
  {
    exists k :: 0 <= k < i && OutcomeGap(n, edges, outcomes[k], p)
  }

  ghost predicate SomeScheduledGap(t: Template, i: nat, p: Problem)
    requires i <= |t.nodes|
  {
    exists k :: 0 <= k < i && ScheduledGap(t, t.nodes[k], p)
  }

  /** Appending what one more item has to say. */
  lemma Appended(problems: seq<Problem>, found: seq<Problem>, p: Problem)
    ensures p in problems + found <==> p in problems || p in found
  {
  }

  // ---------------------------------------------------------------- references

  /** The body of the loop over the edges. */
  method CheckEdge(t: Template, e: Edge) returns (problems: seq<Problem>)
    ensures forall p :: p in problems <==> EdgeGap(t, e, p)
    ensures problems == [] <==> EdgeOk(t, e)
  {
    problems := [];
    if e.source !in NodeKeys(t) || e.target !in NodeKeys(t) { problems := problems + [UnknownEndpoint(e.key)]; }
    if NeedsGuard(e.kind) && e.guard.None? { problems := problems + [GuardRequired(e.key)]; }
    if RefusesGuard(e.kind) && e.guard.Some? { problems := problems + [GuardForbidden(e.key)]; }
  }

  method CheckEdges(t: Template) returns (problems: seq<Problem>)
    ensures forall p :: p in problems <==> SomeEdgeGap(t, |t.edges|, p)
    ensures problems == [] <==> forall k :: 0 <= k < |t.edges| ==> EdgeOk(t, t.edges[k])
  {
    problems := [];
    for i := 0 to |t.edges|
      invariant forall p :: p in problems <==> SomeEdgeGap(t, i, p)
      invariant problems == [] <==> forall k :: 0 <= k < i ==> EdgeOk(t, t.edges[k])
    {
      var found := CheckEdge(t, t.edges[i]);
      forall p ensures p in problems + found <==> SomeEdgeGap(t, i + 1, p) { Appended(problems, found, p); }
      problems := problems + found;
    }
  }

  method CheckReferences(t: Template) returns (problems: seq<Problem>)
    ensures forall p :: p in problems <==> ReferenceGap(t, p)
    ensures problems == [] <==> ReferencesOk(t)
  {
    problems := [];
    SetSizeDetectsDuplicates(NodeKeys(t));
    SetSizeDetectsDuplicates(EdgeKeys(t));
    if |Elements(NodeKeys(t))| != |t.nodes| { problems := problems + [DuplicateNodeKeys]; }
    if |Elements(EdgeKeys(t))| != |t.edges| { problems := problems + [DuplicateEdgeKeys]; }
    var ofEdges := CheckEdges(t);
    problems := problems + ofEdges;
    assert (forall e :: e in t.edges ==> EdgeOk(t, e)) <==> (forall k :: 0 <= k < |t.edges| ==> EdgeOk(t, t.edges[k]));
  }

  // ---------------------------------------------------------------- entry and terminals

  method CheckTerminals(t: Template) returns (problems: seq<Problem>)
    ensures forall p :: p in problems <==> SomeTerminalGap(t, |Terminals(t)|, p)
    ensures problems == [] <==> forall n :: n in Terminals(t) ==> Outbound(t, n.key) == []
  {
    problems := [];
    var terminals := Terminals(t);
    for i := 0 to |terminals|
      invariant forall p :: p in problems <==> SomeTerminalGap(t, i, p)
      invariant problems == [] <==> forall k :: 0 <= k < i ==> Outbound(t, terminals[k].key) == []
    {
      var found := if Outbound(t, terminals[i].key) != [] then [TerminalHasEdges(terminals[i].key)] else [];
      forall p ensures p in problems + found <==> SomeTerminalGap(t, i + 1, p) { Appended(problems, found, p); }
      problems := problems + found;
    }
  }

  method CheckEntry(t: Template) returns (problems: seq<Problem>)
    ensures forall p :: p in problems <==> (p.EntryCount? || p.EntryNotTask?) && EndGap(t, p)
    ensures problems == [] <==> EntryOk(t)
  {
    problems := [];
    var entries := Entries(t);
    if |entries| != 1 {
      problems := [EntryCount(|entries|)];
    } else if entries[0].kind != Task {
      problems := [EntryNotTask];
    }
  }

  method CheckEnds(t: Template) returns (problems: seq<Problem>)
    ensures forall p :: p in problems <==> EndGap(t, p)
    ensures problems == [] <==> EntryOk(t) && TerminalsOk(t)
  {
    var ofEntry := CheckEntry(t);
    var none := if Terminals(t) == [] then [NoTerminal] else [];
    var found := CheckTerminals(t);
    problems := ofEntry + none + found;
    forall p ensures p in problems <==> EndGap(t, p) {
      Appended(ofEntry + none, found, p);
      Appended(ofEntry, none, p);
      if p in found { OnlyTerminals(t, p); }
    }
  }

  lemma OnlyTerminals(t: Template, p: Problem)
    requires SomeTerminalGap(t, |Terminals(t)|, p)
    ensures p.TerminalHasEdges?
  {
  }

  // ---------------------------------------------------------------- the two searches

  /** The graphs have an entry for exactly the known nodes, so a failing key is an unknown one. */
  ghost predicate ForwardLookupFails(t: Template)
    requires NoDuplicates(NodeKeys(t))
  {
    Entries(t) != [] && LookupFails(ForwardGraph(t), {Entries(t)[0].key})
  }

  ghost predicate BackwardLookupFails(t: Template)
    requires NoDuplicates(NodeKeys(t))
  {
    LookupFails(BackwardGraph(t), KeysOf(KeysOfNodes(Terminals(t))))
  }

  method CheckForward(t: Template) returns (problems: seq<Problem>, failed: bool)
    requires ReferencesOk(t)
    ensures failed <==> ForwardLookupFails(t)
    ensures !failed ==> problems == if Entries(t) == [] || NotReached(t) == {} then [] else [Unreachable(NotReached(t))]
    ensures !failed && EntryOk(t) ==> (problems == [] <==> EveryNodeReachable(t))
  {
    problems, failed := [], false;
    var entries := Entries(t);
    if entries != [] {
      var first := [entries[0].key];
      assert KeysOf(first) == {entries[0].key};
      var reached;
      reached, failed := Search(ForwardGraph(t), first);
      var unreachable := KeysOf(NodeKeys(t)) - reached;
      NothingLeft(KeysOf(NodeKeys(t)), reached);
      if unreachable != {} { problems := [Unreachable(unreachable)]; }
      if !failed { LeftOverIs(t, reached); }
      if !failed && EntryOk(t) {
        SoleEntryKey(t);
        ReachedMeansFromEntry(t, reached);
      }
    }
  }

  lemma LeftOverIs(t: Template, reached: set<Key>)
    requires ReferencesOk(t) && Entries(t) != []
    requires forall v :: v in reached <==> Reachable(ForwardGraph(t), {Entries(t)[0].key}, v)
    ensures KeysOf(NodeKeys(t)) - reached == NotReached(t)
  {
    forall n | n in t.nodes ensures n.key in NodeKeys(t) && (n.key in reached <==> FirstEntryReaches(t, n.key)) {
      KeyOfNode(t, n);
      FirstEntryReachable(t, n.key);
    }
    forall k | k in NodeKeys(t) ensures exists n :: n in t.nodes && n.key == k { var n := NodeAt(t, k); }
  }

  lemma LeftBehindIs(t: Template, reached: set<Key>)
    requires ReferencesOk(t)
    requires forall v :: v in reached <==> Reachable(BackwardGraph(t), KeysOf(KeysOfNodes(Terminals(t))), v)
    ensures KeysOf(NodeKeys(t)) - reached == NotEnding(t)
  {
    forall n | n in t.nodes ensures n.key in NodeKeys(t) && (n.key in reached <==> ReachesTerminal(t, n.key)) {
      KeyOfNode(t, n);
      TerminalReachable(t, n.key);
    }
    forall k | k in NodeKeys(t) ensures exists n :: n in t.nodes && n.key == k { var n := NodeAt(t, k); }
  }

  lemma NothingLeft(a: set<Key>, b: set<Key>)
    ensures a - b == {} <==> a <= b
  {
    if a - b == {} {
      forall k | k in a ensures k in b { assert k !in a - b; }
    }
  }

  lemma SoleEntryKey(t: Template)
    requires |Entries(t)| == 1
    ensures KeysOf(KeysOfNodes(Entries(t))) == {Entries(t)[0].key}
  {
    assert Entries(t) == [Entries(t)[0]];
  }

  lemma ReachedMeansFromEntry(t: Template, reached: set<Key>)
    requires ReferencesOk(t)
    requires forall v :: v in reached <==> Reachable(ForwardGraph(t), KeysOf(KeysOfNodes(Entries(t))), v)
    ensures KeysOf(NodeKeys(t)) <= reached <==> EveryNodeReachable(t)
  {
    forall n | n in t.nodes
      ensures n.key in NodeKeys(t)
      ensures n.key in reached <==> EntryReaches(t, n.key)
    {
      KeyOfNode(t, n);
      forall steps: nat { FromEntryIsWithin(t, n.key, steps); }
      if n.key in reached {
        var steps: nat :| Within(ForwardGraph(t), KeysOf(KeysOfNodes(Entries(t))), n.key, steps);
        assert FromEntry(t, n.key, steps);
      }
    }
    forall k | k in NodeKeys(t) ensures exists n :: n in t.nodes && n.key == k { var n := NodeAt(t, k); }
  }

  method CheckBackward(t: Template) returns (problems: seq<Problem>, failed: bool)
    requires ReferencesOk(t)
    ensures failed <==> BackwardLookupFails(t)
    ensures !failed ==> problems == if NotEnding(t) == {} then [] else [Stranded(NotEnding(t))]
    ensures !failed ==> (problems == [] <==> EveryNodeTerminates(t))
  {
    problems := [];
    var terminals := KeysOfNodes(Terminals(t));
    var reaches;
    reaches, failed := Search(BackwardGraph(t), terminals);
    var stranded := KeysOf(NodeKeys(t)) - reaches;
    NothingLeft(KeysOf(NodeKeys(t)), reaches);
    if stranded != {} { problems := [Stranded(stranded)]; }
    if !failed {
      LeftBehindIs(t, reaches);
      ReachedMeansToTerminal(t, reaches);
    }
  }

  lemma ReachedMeansToTerminal(t: Template, reached: set<Key>)
    requires ReferencesOk(t)
    requires forall v :: v in reached <==> Reachable(BackwardGraph(t), KeysOf(KeysOfNodes(Terminals(t))), v)
    ensures KeysOf(NodeKeys(t)) <= reached <==> EveryNodeTerminates(t)
  {
    forall n | n in t.nodes
      ensures n.key in NodeKeys(t)
      ensures n.key in reached <==> ReachesTerminal(t, n.key)
    {
      KeyOfNode(t, n);
      forall steps: nat { ToTerminalIsWithin(t, n.key, steps); }
      if n.key in reached {
        var steps: nat :| Within(BackwardGraph(t), KeysOf(KeysOfNodes(Terminals(t))), n.key, steps);
        assert ToTerminal(t, n.key, steps);
      }
    }
    forall k | k in NodeKeys(t) ensures exists n :: n in t.nodes && n.key == k { var n := NodeAt(t, k); }
  }

  /** A LOOP node with a region key, other than its own, that names no node. */
  ghost predicate LostMember(t: Template, n: Node) {
    n in t.nodes && exists k :: k in Members(n) && k !in NodeKeys(t)
  }

  /** `v` is at most `steps` edges and owner-to-member steps from `start`. */
  ghost predicate FromKey(t: Template, start: Key, v: Key, steps: nat)
    decreases steps
  {
    v == start || (steps > 0 && exists u :: FromKey(t, start, u, steps - 1) && Leads(t, u, v))
  }

  ghost predicate FirstEntryReaches(t: Template, v: Key) {
    Entries(t) != [] && exists steps: nat :: FromKey(t, Entries(t)[0].key, v, steps)
  }

  /** One of the searches comes to an owner with a lost member: the first entry reaches it, or it reaches a terminal. */
  ghost predicate SearchFindsLost(t: Template) {
    exists n :: LostMember(t, n) && (FirstEntryReaches(t, n.key) || ReachesTerminal(t, n.key))
  }

  lemma {:induction false} FromKeyIsWithin(t: Template, start: Key, v: Key, steps: nat)
    requires ReferencesOk(t)
    ensures FromKey(t, start, v, steps) <==> Within(ForwardGraph(t), {start}, v, steps)
    decreases steps
  {
    if steps > 0 {
      forall u
        ensures FromKey(t, start, u, steps - 1) <==> Within(ForwardGraph(t), {start}, u, steps - 1)
        ensures Follows(ForwardGraph(t), u, v) <==> Leads(t, u, v)
      {
        FromKeyIsWithin(t, start, u, steps - 1);
        ForwardFollows(t, u, v);
      }
    }
  }

  lemma FirstEntryReachable(t: Template, v: Key)
    requires ReferencesOk(t) && Entries(t) != []
    ensures FirstEntryReaches(t, v) <==> Reachable(ForwardGraph(t), {Entries(t)[0].key}, v)
  {
    var start := Entries(t)[0].key;
    if steps: nat :| FromKey(t, start, v, steps) { FromKeyIsWithin(t, start, v, steps); }
    if steps: nat :| Within(ForwardGraph(t), {start}, v, steps) {
      FromKeyIsWithin(t, start, v, steps);
      assert FromKey(t, start, v, steps);
    }
  }

  lemma TerminalReachable(t: Template, u: Key)
    requires ReferencesOk(t)
    ensures ReachesTerminal(t, u) <==> Reachable(BackwardGraph(t), KeysOf(KeysOfNodes(Terminals(t))), u)
  {
    if steps: nat :| ToTerminal(t, u, steps) { ToTerminalIsWithin(t, u, steps); }
    if steps: nat :| Within(BackwardGraph(t), KeysOf(KeysOfNodes(Terminals(t))), u, steps) {
      ToTerminalIsWithin(t, u, steps);
      assert ToTerminal(t, u, steps);
    }
  }

  /** Only an owner leads to an unknown key, in either search. */
  lemma UnknownIsLost(t: Template, u: Key, v: Key)
    requires ReferencesOk(t) && v !in NodeKeys(t)
    ensures Follows(ForwardGraph(t), u, v) <==> exists n :: n in t.nodes && n.key == u && v in Members(n)
    ensures Follows(BackwardGraph(t), u, v) <==> exists n :: n in t.nodes && n.key == u && v in Members(n)
  {
    ForwardFollows(t, u, v);
    BackwardFollows(t, v, u);
    EdgesAndOwnersAreKnown(t, u, v);
    EdgesAndOwnersAreKnown(t, v, u);
    assert Drives(t, u, v) <==> exists n :: n in t.nodes && n.key == u && v in Members(n);
    assert HasExitEdge(t, v, u) ==> HasEdge(t, v, u);
  }

  ghost predicate FirstEntryFindsLost(t: Template) {
    exists n :: LostMember(t, n) && FirstEntryReaches(t, n.key)
  }

  ghost predicate LostReachesTerminal(t: Template) {
    exists n :: LostMember(t, n) && ReachesTerminal(t, n.key)
  }

  /** Some key the search reaches leads to an unknown one. */
  ghost predicate StepsOut(next: Successors<Key>, sources: set<Key>) {
    exists u, v :: Reachable(next, sources, u) && Follows(next, u, v) && v !in next
  }

  lemma LostFrom(t: Template, u: Key, v: Key) returns (n: Node)
    requires ReferencesOk(t) && v !in NodeKeys(t)
    requires Follows(ForwardGraph(t), u, v) || Follows(BackwardGraph(t), u, v)
    ensures n.key == u && LostMember(t, n)
  {
    UnknownIsLost(t, u, v);
    n :| n in t.nodes && n.key == u && v in Members(n);
  }

  lemma StepsOutMeansLost(t: Template)
    requires ReferencesOk(t) && Entries(t) != [] && StepsOut(ForwardGraph(t), {Entries(t)[0].key})
    ensures FirstEntryFindsLost(t)
  {
    var next, start := ForwardGraph(t), Entries(t)[0].key;
    var u, v :| Reachable(next, {start}, u) && Follows(next, u, v) && v !in next;
    GraphKeys(t);
    FirstEntryReachable(t, u);
    var n := LostFrom(t, u, v);
  }

  lemma LostMeansStepsOut(t: Template, n: Node)
    requires ReferencesOk(t) && Entries(t) != [] && LostMember(t, n) && FirstEntryReaches(t, n.key)
    ensures StepsOut(ForwardGraph(t), {Entries(t)[0].key})
  {
    var v :| v in Members(n) && v !in NodeKeys(t);
    GraphKeys(t);
    UnknownIsLost(t, n.key, v);
    FirstEntryReachable(t, n.key);
  }

  lemma EntryInGraph(t: Template)
    requires ReferencesOk(t) && Entries(t) != []
    ensures Entries(t)[0].key in ForwardGraph(t)
  {
    assert Entries(t)[0] in Entries(t);
    KeyOfNode(t, Entries(t)[0]);
    GraphKeys(t);
  }

  lemma ForwardFailsExactly(t: Template)
    requires ReferencesOk(t)
    ensures ForwardLookupFails(t) <==> FirstEntryFindsLost(t)
  {
    if Entries(t) != [] {
      EntryInGraph(t);
      FailsAtAStep(ForwardGraph(t), {Entries(t)[0].key});
      if StepsOut(ForwardGraph(t), {Entries(t)[0].key}) { StepsOutMeansLost(t); }
      if FirstEntryFindsLost(t) {
        var n :| LostMember(t, n) && FirstEntryReaches(t, n.key);
        LostMeansStepsOut(t, n);
      }
    }
  }

  ghost function TerminalKeys(t: Template): set<Key> {
    KeysOf(KeysOfNodes(Terminals(t)))
  }

  lemma StepsBackMeansLost(t: Template)
    requires ReferencesOk(t) && StepsOut(BackwardGraph(t), TerminalKeys(t))
    ensures LostReachesTerminal(t)
  {
    var next := BackwardGraph(t);
    var u, v :| Reachable(next, TerminalKeys(t), u) && Follows(next, u, v) && v !in next;
    GraphKeys(t);
    TerminalReachable(t, u);
    var n := LostFrom(t, u, v);
  }

  lemma LostMeansStepsBack(t: Template, n: Node)
    requires ReferencesOk(t) && LostMember(t, n) && ReachesTerminal(t, n.key)
    ensures StepsOut(BackwardGraph(t), TerminalKeys(t))
  {
    var v :| v in Members(n) && v !in NodeKeys(t);
    GraphKeys(t);
    UnknownIsLost(t, n.key, v);
    TerminalReachable(t, n.key);
  }

  lemma TerminalsInGraph(t: Template)
    requires ReferencesOk(t)
    ensures TerminalKeys(t) <= BackwardGraph(t).Keys
  {
    GraphKeys(t);
    forall n | n in Terminals(t) ensures n.key in BackwardGraph(t) { KeyOfNode(t, n); }
  }

  lemma BackwardFailsExactly(t: Template)
    requires ReferencesOk(t)
    ensures BackwardLookupFails(t) <==> LostReachesTerminal(t)
  {
    TerminalsInGraph(t);
    FailsAtAStep(BackwardGraph(t), TerminalKeys(t));
    if StepsOut(BackwardGraph(t), TerminalKeys(t)) { StepsBackMeansLost(t); }
    if LostReachesTerminal(t) {
      var n :| LostMember(t, n) && ReachesTerminal(t, n.key);
      LostMeansStepsBack(t, n);
    }
  }

  // ---------------------------------------------------------------- loops

  method CheckPolicy(t: Template, n: Node, policy: LoopPolicy) returns (problems: seq<Problem>)
    ensures forall p :: p in problems <==> PolicyGap(t, n, policy, p)
    ensures problems == [] <==> PolicyOk(t, policy)
  {
    problems := [];
    if exists k :: k in policy.region && k !in NodeKeys(t) { problems := problems + [RegionUnknown(n.key)]; }
    if policy.actKey !in policy.region { problems := problems + [ActOutsideRegion(n.key)]; }
    if policy.observeKey.Some? && policy.observeKey.value !in policy.region {
      problems := problems + [ObserveOutsideRegion(n.key)];
    }
    if policy.fixed && policy.fixedMaximum.None? { problems := problems + [FixedWithoutMaximum(n.key)]; }
  }

  ghost predicate HasRegion(n: Node) {
    n.kind == Loop && n.loop.Some?
  }

  /** `regions` holds the region of every LOOP node among the first `i`, under its key. */
  ghost predicate RegionsIndexed(nodes: seq<Node>, i: nat, regions: map<Key, set<Key>>)
    requires i <= |nodes|
  {
    && (forall k :: 0 <= k < i && HasRegion(nodes[k]) ==>
                      nodes[k].key in regions && regions[nodes[k].key] == Elements(nodes[k].loop.value.region))
    && (forall key :: key in regions ==> exists k :: 0 <= k < i && HasRegion(nodes[k]) && nodes[k].key == key)
  }

  /** The region of a loop seen before meets this one, outside both loops' own keys. */
  predicate Meets(region: set<Key>, regions: map<Key, set<Key>>, owner: Key) {
    owner in regions && region * (regions[owner] - {owner}) != {}
  }

  /** The inner loop over the regions seen so far. */
  method FindOverlaps(key: Key, region: set<Key>, regions: map<Key, set<Key>>) returns (problems: seq<Problem>)
    ensures forall p :: p in problems <==> p.RegionsOverlap? && p.node == key && Meets(region, regions, p.owner)
    ensures problems == [] <==> forall o :: !Meets(region, regions, o)
  {
    problems := [];
    var left := regions.Keys;
    while left != {}
      invariant left <= regions.Keys
      invariant problems == [] <==> forall o :: o !in left ==> !Meets(region, regions, o)
      invariant forall p :: p in problems <==>
                  p.RegionsOverlap? && p.node == key && p.owner !in left && Meets(region, regions, p.owner)
    {
      var owner :| owner in left;
      if region * (regions[owner] - {owner}) != {} { problems := problems + [RegionsOverlap(owner, key)]; }
      left := left - {owner};
    }
  }

  method CheckOverlaps(nodes: seq<Node>, i: nat, regions: map<Key, set<Key>>) returns (problems: seq<Problem>)
    requires i < |nodes| && RegionsIndexed(nodes, i, regions) && HasRegion(nodes[i])
    ensures forall p :: p in problems <==> p.RegionsOverlap? && p.node == nodes[i].key && Overlapped(nodes, i, p.owner)
    ensures problems == [] <==> ApartFromEarlier(nodes, i)
  {
    var n := nodes[i];
    var region := Elements(n.loop.value.region) - {n.key};
    OverlapsAre(nodes, i, regions, region);
    problems := FindOverlaps(n.key, region, regions);
  }

  /** The regions of two loops meet outside their own keys exactly when they are not apart. */
  lemma OverlapIs(a: Node, b: Node, region: set<Key>, other: set<Key>)
    requires HasRegion(a) && HasRegion(b) && region == Elements(b.loop.value.region) - {b.key}
    requires other == Elements(a.loop.value.region)
    ensures RegionsApart(a, b) <==> region * (other - {a.key}) == {}
  {
    assert forall m :: m in Members(a) <==> m in other - {a.key};
    assert forall m :: m in Members(b) <==> m in region;
    assert forall m :: m in region * (other - {a.key}) <==> m in Members(b) && m in Members(a);
  }

  lemma OverlapsAre(nodes: seq<Node>, i: nat, regions: map<Key, set<Key>>, region: set<Key>)
    requires i < |nodes| && RegionsIndexed(nodes, i, regions) && HasRegion(nodes[i])
    requires region == Elements(nodes[i].loop.value.region) - {nodes[i].key}
    ensures forall o :: Meets(region, regions, o) <==> Overlapped(nodes, i, o)
    ensures ApartFromEarlier(nodes, i) <==> forall o :: !Meets(region, regions, o)
  {
    forall k | 0 <= k < i
      ensures !HasRegion(nodes[k]) ==> RegionsApart(nodes[k], nodes[i])
      ensures HasRegion(nodes[k]) ==> (RegionsApart(nodes[k], nodes[i]) <==> !Meets(region, regions, nodes[k].key))
    {
      if HasRegion(nodes[k]) { OverlapIs(nodes[k], nodes[i], region, regions[nodes[k].key]); }
    }
    forall o ensures Meets(region, regions, o) <==> Overlapped(nodes, i, o) {
      if Meets(region, regions, o) {
        var k :| 0 <= k < i && HasRegion(nodes[k]) && nodes[k].key == o;
      }
    }
    if k :| 0 <= k < i && !RegionsApart(nodes[k], nodes[i]) { assert Overlapped(nodes, i, nodes[k].key); }
  }

  /** One LOOP node: its own policy, then its overlaps with the regions before it. */
  method CheckLoopNode(t: Template, i: nat, regions: map<Key, set<Key>>) returns (problems: seq<Problem>)
    requires i < |t.nodes| && RegionsIndexed(t.nodes, i, regions)
    ensures forall p :: p in problems <==> LoopGap(t, i, p)
    ensures problems == [] <==>
            LoopNodeOk(t, t.nodes[i]) && ApartFromEarlier(t.nodes, i)
  {
    problems := [];
    var n := t.nodes[i];
    if n.kind == Loop {
      if n.loop.None? {
        problems := [LoopPolicyMissing(n.key)];
      } else {
        var ofPolicy := CheckPolicy(t, n, n.loop.value);
        var overlaps := CheckOverlaps(t.nodes, i, regions);
        problems := ofPolicy + overlaps;
      }
    } else {
      if n.loop.Some? { problems := [StrayLoopPolicy(n.key)]; }
    }
  }

  lemma RegionsIndexedStep(t: Template, i: nat, regions: map<Key, set<Key>>)
    requires NoDuplicates(NodeKeys(t)) && i < |t.nodes| && RegionsIndexed(t.nodes, i, regions)
    ensures HasRegion(t.nodes[i]) ==>
              RegionsIndexed(t.nodes, i + 1, regions[t.nodes[i].key := Elements(t.nodes[i].loop.value.region)])
    ensures !HasRegion(t.nodes[i]) ==> RegionsIndexed(t.nodes, i + 1, regions)
  {
    forall k | 0 <= k < i ensures t.nodes[k].key != t.nodes[i].key { assert NodeKeys(t)[k] != NodeKeys(t)[i]; }
  }

  ghost predicate PoliciesOkUpTo(t: Template, i: nat)
    requires i <= |t.nodes|
  {
    forall k :: 0 <= k < i ==> LoopNodeOk(t, t.nodes[k])
  }

  ghost predicate ApartFromEarlier(nodes: seq<Node>, i: nat)
    requires i < |nodes|
  {
    forall k :: 0 <= k < i ==> RegionsApart(nodes[k], nodes[i])
  }

  ghost predicate ApartUpTo(nodes: seq<Node>, i: nat)
    requires i <= |nodes|
  {
    forall k :: 0 <= k < i ==> ApartFromEarlier(nodes, k)
  }

  /** The first `i` nodes have sound loop policies and regions that do not overlap. */
  ghost predicate LoopsOkUpTo(t: Template, i: nat)
    requires i <= |t.nodes|
  {
    PoliciesOkUpTo(t, i) && ApartUpTo(t.nodes, i)
  }

  lemma LoopsOkStep(t: Template, i: nat)
    requires i < |t.nodes|
    ensures LoopsOkUpTo(t, i + 1) <==>
            LoopsOkUpTo(t, i) && LoopNodeOk(t, t.nodes[i]) && ApartFromEarlier(t.nodes, i)
  {
    PoliciesStep(t, i);
    ApartStep(t.nodes, i);
  }

  lemma PoliciesStep(t: Template, i: nat)
    requires i < |t.nodes|
    ensures PoliciesOkUpTo(t, i + 1) <==> PoliciesOkUpTo(t, i) && LoopNodeOk(t, t.nodes[i])
  {
  }

  lemma ApartStep(nodes: seq<Node>, i: nat)
    requires i < |nodes|
    ensures ApartUpTo(nodes, i + 1) <==> ApartUpTo(nodes, i) && ApartFromEarlier(nodes, i)
  {
  }

  lemma ApartMeansDisjoint(nodes: seq<Node>)
    ensures ApartUpTo(nodes, |nodes|) <==> RegionsDisjoint(nodes)
  {
    if ApartUpTo(nodes, |nodes|) {
      forall i, j | 0 <= i < j < |nodes| ensures RegionsApart(nodes[i], nodes[j]) {
        assert ApartFromEarlier(nodes, j);
      }
    }
  }

  lemma LoopsOkAll(t: Template)
    ensures LoopsOkUpTo(t, |t.nodes|) <==>
            (forall n :: n in t.nodes ==> LoopNodeOk(t, n)) && RegionsDisjoint(t.nodes)
  {
    ApartMeansDisjoint(t.nodes);
    assert (forall n :: n in t.nodes ==> LoopNodeOk(t, n)) <==> PoliciesOkUpTo(t, |t.nodes|);
  }

  /** The body of the loop over the nodes. */
  method CheckNextLoop(t: Template, i: nat, indexed: map<Key, set<Key>>)
    returns (problems: seq<Problem>, regions: map<Key, set<Key>>)
    requires NoDuplicates(NodeKeys(t)) && i < |t.nodes| && RegionsIndexed(t.nodes, i, indexed)
    ensures forall p :: p in problems <==> LoopGap(t, i, p)
    ensures problems == [] <==> LoopNodeOk(t, t.nodes[i]) && ApartFromEarlier(t.nodes, i)
    ensures RegionsIndexed(t.nodes, i + 1, regions)
  {
    RegionsIndexedStep(t, i, indexed);
    problems := CheckLoopNode(t, i, indexed);
    var n := t.nodes[i];
    regions := if n.kind == Loop && n.loop.Some? then indexed[n.key := Elements(n.loop.value.region)] else indexed;
  }

  method CheckLoops(t: Template) returns (problems: seq<Problem>, regions: map<Key, set<Key>>)
    requires NoDuplicates(NodeKeys(t))
    ensures forall p :: p in problems <==> SomeLoopGap(t, |t.nodes|, p)
    ensures problems == [] <==> (forall n :: n in t.nodes ==> LoopNodeOk(t, n)) && RegionsDisjoint(t.nodes)
    ensures RegionsIndexed(t.nodes, |t.nodes|, regions)
  {
    LoopsOkAll(t);
    problems, regions := [], map[];
    for i := 0 to |t.nodes|
      invariant RegionsIndexed(t.nodes, i, regions)
      invariant forall p :: p in problems <==> SomeLoopGap(t, i, p)
      invariant problems == [] <==> LoopsOkUpTo(t, i)
    {
      var found, indexed := CheckNextLoop(t, i, regions);
      LoopsOkStep(t, i);
      forall p ensures p in problems + found <==> SomeLoopGap(t, i + 1, p) { Appended(problems, found, p); }
      problems, regions := problems + found, indexed;
    }
  }

  method CheckLoopBack(t: Template, regions: map<Key, set<Key>>, e: Edge) returns (problems: seq<Problem>)
    requires RegionsIndexed(t.nodes, |t.nodes|, regions)
    ensures forall p :: p in problems <==> LoopBackGap(t, e, p)
    ensures problems == [] <==> LoopBackOk(t, e)
  {
    problems := [];
    if e.kind == LoopBack {
      var inside := exists o :: o in regions && e.source in regions[o] && e.target in regions[o];
      LoopBackInside(t, regions, e);
      if !inside { problems := [LoopBackLeavesRegion(e.key)]; }
    }
  }

  method CheckLoopBacks(t: Template, regions: map<Key, set<Key>>) returns (problems: seq<Problem>)
    requires RegionsIndexed(t.nodes, |t.nodes|, regions)
    ensures forall p :: p in problems <==> SomeLoopBackGap(t, |t.edges|, p)
    ensures problems == [] <==> forall e :: e in t.edges ==> LoopBackOk(t, e)
  {
    problems := [];
    for i := 0 to |t.edges|
      invariant forall p :: p in problems <==> SomeLoopBackGap(t, i, p)
      invariant problems == [] <==> forall k :: 0 <= k < i ==> LoopBackOk(t, t.edges[k])
    {
      var found := CheckLoopBack(t, regions, t.edges[i]);
      forall p ensures p in problems + found <==> SomeLoopBackGap(t, i + 1, p) { Appended(problems, found, p); }
      problems := problems + found;
    }
    assert (forall e :: e in t.edges ==> LoopBackOk(t, e)) <==>
           (forall k :: 0 <= k < |t.edges| ==> LoopBackOk(t, t.edges[k]));
  }

  lemma LoopBackInside(t: Template, regions: map<Key, set<Key>>, e: Edge)
    requires RegionsIndexed(t.nodes, |t.nodes|, regions) && e.kind == LoopBack
    ensures LoopBackOk(t, e) <==> exists o :: o in regions && e.source in regions[o] && e.target in regions[o]
  {
    if LoopBackOk(t, e) {
      var n :| n in t.nodes && n.kind == Loop && n.loop.Some? &&
               e.source in n.loop.value.region && e.target in n.loop.value.region;
      var k :| 0 <= k < |t.nodes| && t.nodes[k] == n;
      assert HasRegion(t.nodes[k]);
    } else if o :| o in regions && e.source in regions[o] && e.target in regions[o] {
      var k :| 0 <= k < |t.nodes| && HasRegion(t.nodes[k]) && t.nodes[k].key == o;
      assert t.nodes[k] in t.nodes;
    }
  }

  // ---------------------------------------------------------------- parents, gates, replans

  ghost predicate Indexes(t: Template, byKey: map<Key, Node>) {
    && (forall n :: n in t.nodes ==> n.key in byKey && byKey[n.key] == n)
    && (forall k :: k in byKey ==> byKey[k] in t.nodes && byKey[k].key == k)
  }

  lemma ParentMeans(t: Template, n: Node, byKey: map<Key, Node>)
    requires Indexes(t, byKey) && n.parent.Some?
    ensures ParentOk(t, n) <==>
              && n.parent.value != n.key && n.parent.value in byKey && byKey[n.parent.value].kind == Loop
              && (byKey[n.parent.value].loop.Some? ==> n.key in byKey[n.parent.value].loop.value.region)
  {
    if ParentOk(t, n) {
      var p :| p in t.nodes && p.key == n.parent.value && p.kind == Loop &&
               (p.loop.Some? ==> n.key in p.loop.value.region);
      assert byKey[p.key] == p;
    }
  }

  method CheckParent(t: Template, n: Node, byKey: map<Key, Node>) returns (problems: seq<Problem>)
    requires Indexes(t, byKey)
    ensures forall p :: p in problems <==> ParentGap(t, n, p)
    ensures problems == [] <==> ParentOk(t, n)
  {
    problems := [];
    if n.parent.Some? {
      ParentMeans(t, n, byKey);
      if n.parent.value !in byKey || byKey[n.parent.value].kind != Loop {
        problems := problems + [ParentNotLoop(n.key)];
      } else {
        var parent := byKey[n.parent.value];
        if parent.loop.Some? && n.key !in parent.loop.value.region {
          problems := problems + [ParentRegionLacks(n.key)];
        }
      }
      if n.parent.value == n.key { problems := problems + [OwnParent(n.key)]; }
    }
  }

  method IndexNodes(t: Template) returns (byKey: map<Key, Node>)
    requires NoDuplicates(NodeKeys(t))
    ensures Indexes(t, byKey)
  {
    UniqueKeys(t);
    byKey := map n | n in t.nodes :: n.key := n;
  }

  method CheckParents(t: Template) returns (problems: seq<Problem>)
    requires NoDuplicates(NodeKeys(t))
    ensures forall p :: p in problems <==> SomeParentGap(t, |t.nodes|, p)
    ensures problems == [] <==> forall n :: n in t.nodes ==> ParentOk(t, n)
  {
    problems := [];
    var byKey := IndexNodes(t);
    for i := 0 to |t.nodes|
      invariant forall p :: p in problems <==> SomeParentGap(t, i, p)
      invariant problems == [] <==> forall k :: 0 <= k < i ==> ParentOk(t, t.nodes[k])
    {
      var found := CheckParent(t, t.nodes[i], byKey);
      forall p ensures p in problems + found <==> SomeParentGap(t, i + 1, p) { Appended(problems, found, p); }
      problems := problems + found;
    }
    assert (forall n :: n in t.nodes ==> ParentOk(t, n)) <==>
           (forall k :: 0 <= k < |t.nodes| ==> ParentOk(t, t.nodes[k]));
  }

  method CheckGatesAndReplans(t: Template) returns (problems: seq<Problem>)
    ensures forall p :: p in problems <==> GateGap(t, p)
    ensures problems == [] <==> GatesOk(t) && ReplansOk(t)
  {
    problems := [];
    if GateKeys(t) != GateSpecKeys(t) { problems := [GateMismatch]; }
    SetSizeDetectsDuplicates(GateIds(t));
    if |Elements(GateIds(t))| != |t.gates| { problems := problems + [DuplicateGateIds]; }
    var available, exhausted := UsesGuard(t, OnReplanAvailable), UsesGuard(t, OnReplanExhausted);
    if available || exhausted {
      if !(available && exhausted) { problems := problems + [ReplanGuardsUnpaired]; }
      if t.maxReplans == 0 { problems := problems + [ReplanGuardsWithoutBudget]; }
    } else if t.maxReplans > 0 {
      problems := problems + [ReplanBudgetWithoutGuards];
    }
  }

  // ---------------------------------------------------------------- guard coverage

  predicate OutcomeGap(n: Node, edges: seq<Edge>, outcome: Outcome, p: Problem) {
    || (p == Uncovered(n.key, outcome) && |Covering(edges, outcome)| == 0)
    || (p == Ambiguous(n.key, outcome) && |Covering(edges, outcome)| > 1)
  }

  method CheckOutcomes(n: Node, edges: seq<Edge>, outcomes: seq<Outcome>) returns (problems: seq<Problem>)
    ensures forall p :: p in problems <==> SomeOutcomeGap(n, edges, outcomes, |outcomes|, p)
    ensures problems == [] <==> forall k :: 0 <= k < |outcomes| ==> |Covering(edges, outcomes[k])| == 1
  {
    problems := [];
    for i := 0 to |outcomes|
      invariant forall p :: p in problems <==> SomeOutcomeGap(n, edges, outcomes, i, p)
      invariant problems == [] <==> forall k :: 0 <= k < i ==> |Covering(edges, outcomes[k])| == 1
    {
      var covering := Covering(edges, outcomes[i]);
      var found := if covering == [] then [Uncovered(n.key, outcomes[i])]
                   else if |covering| > 1 then [Ambiguous(n.key, outcomes[i])] else [];
      forall p ensures p in problems + found <==> SomeOutcomeGap(n, edges, outcomes, i + 1, p) {
        Appended(problems, found, p);
      }
      problems := problems + found;
    }
  }

  lemma CoverageGapIs(t: Template, n: Node, p: Problem)
    ensures CoverageGap(t, n, p) <==>
              || SomeOutcomeGap(n, Outbound(t, n.key), OutcomesOf(n.kind), |OutcomesOf(n.kind)|, p)
              || (p == RetriesShareGuard(n.key) && !RetriesDistinct(Outbound(t, n.key)))
  {
    var outcomes := OutcomesOf(n.kind);
    if (p.Uncovered? || p.Ambiguous?) && p.outcome in outcomes {
      var k :| 0 <= k < |outcomes| && outcomes[k] == p.outcome;
      assert OutcomeGap(n, Outbound(t, n.key), outcomes[k], p) <==> CoverageGap(t, n, p);
    }
  }

  method CheckNodeCoverage(t: Template, n: Node) returns (problems: seq<Problem>)
    ensures forall p :: p in problems <==> CoverageGap(t, n, p)
    ensures problems == [] <==> NodeCovered(t, n)
  {
    var edges, outcomes := Outbound(t, n.key), OutcomesOf(n.kind);
    var ofOutcomes := CheckOutcomes(n, edges, outcomes);
    var shared := exists i, j :: 0 <= i < j < |edges| && edges[i].kind == Retry && edges[j].kind == Retry &&
                                 edges[i].guard == edges[j].guard;
    assert shared <==> !RetriesDistinct(edges);
    var ofRetries := if shared then [RetriesShareGuard(n.key)] else [];
    problems := ofOutcomes + ofRetries;
    forall p ensures p in problems <==> CoverageGap(t, n, p) {
      Appended(ofOutcomes, ofRetries, p);
      CoverageGapIs(t, n, p);
    }
  }

  /** The coverage problems of one node, none where the rule does not look. */
  ghost predicate ScheduledGap(t: Template, n: Node, p: Problem) {
    Scheduled(t, n) && CoverageGap(t, n, p)
  }

  method CheckScheduled(t: Template, n: Node) returns (problems: seq<Problem>)
    ensures forall p :: p in problems <==> ScheduledGap(t, n, p)
    ensures problems == [] <==> (Scheduled(t, n) ==> NodeCovered(t, n))
  {
    problems := [];
    if Scheduled(t, n) { problems := CheckNodeCoverage(t, n); }
  }

  method CheckCoverage(t: Template) returns (problems: seq<Problem>)
    ensures forall p :: p in problems <==> SomeScheduledGap(t, |t.nodes|, p)
    ensures problems == [] <==> CoverageOk(t)
  {
    problems := [];
    for i := 0 to |t.nodes|
      invariant forall p :: p in problems <==> SomeScheduledGap(t, i, p)
      invariant problems == [] <==> forall k :: 0 <= k < i ==> CoveredIfScheduled(t, t.nodes[k])
    {
      var found := CheckScheduled(t, t.nodes[i]);
      forall p ensures p in problems + found <==> SomeScheduledGap(t, i + 1, p) { Appended(problems, found, p); }
      problems := problems + found;
    }
    assert CoverageOk(t) <==> forall k :: 0 <= k < |t.nodes| ==> CoveredIfScheduled(t, t.nodes[k]);
  }

  ghost predicate CoveredIfScheduled(t: Template, n: Node) {
    Scheduled(t, n) ==> NodeCovered(t, n)
  }

  // ---------------------------------------------------------------- the whole validator

  ghost predicate ShapeGap(t: Template, p: Problem) {
    || SomeLoopGap(t, |t.nodes|, p) || SomeLoopBackGap(t, |t.edges|, p) || SomeParentGap(t, |t.nodes|, p)
    || GateGap(t, p) || SomeScheduledGap(t, |t.nodes|, p)
  }

  /** What is wrong with a template: its references, and once they are sound everything else. */
  ghost predicate Wrong(t: Template, p: Problem) {
    if ReferencesOk(t) then EndGap(t, p) || SearchGap(t, p) || ShapeGap(t, p) else ReferenceGap(t, p)
  }

  method CheckShape(t: Template) returns (problems: seq<Problem>)
    requires ReferencesOk(t)
    ensures forall p :: p in problems <==> ShapeGap(t, p)
    ensures problems == [] <==> ShapeOk(t)
  {
    var loops, regions := CheckLoops(t);
    var loopBacks := CheckLoopBacks(t, regions);
    var parents := CheckParents(t);
    var gates := CheckGatesAndReplans(t);
    var coverage := CheckCoverage(t);
    problems := loops + loopBacks + parents + gates + coverage;
    forall p ensures p in problems <==> ShapeGap(t, p) {
      assert p in problems <==> p in loops || p in loopBacks || p in parents || p in gates || p in coverage;
    }
  }

  lemma LookupFailsExactly(t: Template)
    requires ReferencesOk(t)
    ensures ForwardLookupFails(t) || BackwardLookupFails(t) <==> SearchFindsLost(t)
  {
    ForwardFailsExactly(t);
    BackwardFailsExactly(t);
  }

  /** Both searches, each ended by a lookup that fails. */
  method CheckSearches(t: Template) returns (problems: seq<Problem>, failed: bool)
    requires ReferencesOk(t)
    ensures failed <==> SearchFindsLost(t)
    ensures !failed ==> forall p :: p in problems <==> SearchGap(t, p)
    ensures !failed && EntryOk(t) ==> (problems == [] <==> EveryNodeReachable(t) && EveryNodeTerminates(t))
  {
    LookupFailsExactly(t);
    problems, failed := CheckForward(t);
    if failed { return; }
    var backward;
    backward, failed := CheckBackward(t);
    if !failed { SearchGapsAre(t, problems, backward); }
    problems := problems + backward;
  }

  lemma SearchGapsAre(t: Template, forward: seq<Problem>, backward: seq<Problem>)
    requires forward == if Entries(t) == [] || NotReached(t) == {} then [] else [Unreachable(NotReached(t))]
    requires backward == if NotEnding(t) == {} then [] else [Stranded(NotEnding(t))]
    ensures forall p :: p in forward + backward <==> SearchGap(t, p)
  {
  }

  lemma SoundShapeLosesNothing(t: Template)
    requires ShapeOk(t)
    ensures !SearchFindsLost(t)
  {
    forall n | n in t.nodes ensures !LostMember(t, n) { assert LoopNodeOk(t, n); }
  }

  /**
   `validate_template`. The verdict is an empty list on exactly the well-formed templates; the
   lookup error is raised exactly when the references are sound and one of the two searches comes
   to an owner with a region key that names no node.
   */
  method Validate(t: Template) returns (verdict: Verdict)
    ensures verdict == Checked([]) <==> WellFormed(t)
    ensures verdict == LookupError <==> ReferencesOk(t) && SearchFindsLost(t)
    ensures verdict.Checked? ==> forall p :: p in verdict.problems <==> Wrong(t, p)
  {
    var references := CheckReferences(t);
    if references != [] { return Checked(references); }
    var ends := CheckEnds(t);
    var searches, failed := CheckSearches(t);
    if failed {
      if WellFormed(t) { SoundShapeLosesNothing(t); }
      return LookupError;
    }
    var shape := CheckShape(t);
    verdict := Checked(ends + searches + shape);
  }

  /** Any template whose first entry is an edge away from an owner with a lost member raises. */
  lemma LostMemberRaises(t: Template, first: Node, owner: Node, d: Edge)
    requires Entries(t) != [] && Entries(t)[0] == first && d in t.edges && d.source == first.key &&
              d.target == owner.key
    requires LostMember(t, owner)
    ensures SearchFindsLost(t)
  {
    assert HasEdge(t, first.key, owner.key) && Leads(t, first.key, owner.key);
    assert FromKey(t, first.key, first.key, 0);
    assert FromKey(t, first.key, owner.key, 1);
  }
}
