/**
 Macro walks (src/accretion/services/run_manager.py): from node to node along selected edges, over
 every outcome the runner can produce, until a terminal. When is a run left without an edge?
 */
module Walks {
  import opened Sequences
  import opened Reachability
  import opened Templates
  import opened Scheduler

  // ---------------------------------------------------------------- what nodes produce

  /**
   The outcomes the runner hands to edge selection, kind by kind. AGENT and TOOL nodes can come back
   INCONCLUSIVE, which the validator's table leaves out; a JOIN cannot be run at all. Pauses,
   cancellations and exhausted budgets end the run before an edge is selected.
   */
  function Produced(kind: NodeKind): seq<Outcome> {
    match kind
    case Task => [Success]
    case Agent => [Success, Fail, Inconclusive]
    case Tool => [Success, Inconclusive]
    case Verifier => [Success, Fail, Inconclusive]
    case Gate => [Approved, Denied]
    case Loop => [Success, Fail]
    case Join => []
    case Terminal => []
  }

  /** Kind and outcome, for every outcome the runner hands on. */
  const PRODUCES: set<(NodeKind, Outcome)> := {
    (Task, Success), (Agent, Success), (Agent, Fail), (Agent, Inconclusive), (Tool, Success), (Tool, Inconclusive),
    (Verifier, Success), (Verifier, Fail), (Verifier, Inconclusive), (Gate, Approved), (Gate, Denied),
    (Loop, Success), (Loop, Fail)
  }

  lemma ProducedExactly(kind: NodeKind, outcome: Outcome)
    ensures outcome in Produced(kind) <==> (kind, outcome) in PRODUCES
  {
  }

  /** The node under a key; keys are unique wherever this matters. */
  function NodeUnder(nodes: seq<Node>, key: Key): (n: Option<Node>)
    ensures n.Some? ==> n.value in nodes && n.value.key == key
    ensures n.None? ==> forall m :: m in nodes ==> m.key != key
  {
    if nodes == [] then None
    else if nodes[|nodes| - 1].key == key then Some(nodes[|nodes| - 1])
    else
      assert nodes == nodes[..|nodes| - 1] + [nodes[|nodes| - 1]];
      NodeUnder(nodes[..|nodes| - 1], key)
  }

  // ---------------------------------------------------------------- the scheduler's loop

  /** The loop owner a region member is routed to, the last one declared when there are several. */
  function OwnerOf(nodes: seq<Node>, key: Key): Key {
    if nodes == [] then key
    else
      var last := nodes[|nodes| - 1];
      if last.loop.Some? && key in last.loop.value.region && key != last.key then last.key
      else OwnerOf(nodes[..|nodes| - 1], key)
  }

  /** The node's loop, of whatever kind the node is, lists the key, and the key is not the node's own. */
  predicate RoutesTo(n: Node, key: Key) {
    n.loop.Some? && key in n.loop.value.region && key != n.key
  }

  ghost predicate LastRouting(nodes: seq<Node>, key: Key, i: nat) {
    i < |nodes| && RoutesTo(nodes[i], key) && forall j :: i < j < |nodes| ==> !RoutesTo(nodes[j], key)
  }

  /** A key is routed to the last node whose loop lists it ... */
  lemma {:induction false} RoutedToOwner(nodes: seq<Node>, key: Key, i: nat)
    requires LastRouting(nodes, key, i)
    ensures OwnerOf(nodes, key) == nodes[i].key
  {
    var n := |nodes| - 1;
    if i < n {
      assert !RoutesTo(nodes[n], key);
      RoutedToOwner(nodes[..n], key, i);
    }
  }

  /** ... and left alone when there is none. */
  lemma {:induction false} NotRouted(nodes: seq<Node>, key: Key)
    requires forall i :: 0 <= i < |nodes| ==> !RoutesTo(nodes[i], key)
    ensures OwnerOf(nodes, key) == key
  {
    if nodes != [] {
      assert !RoutesTo(nodes[|nodes| - 1], key);
      NotRouted(nodes[..|nodes| - 1], key);
    }
  }

  datatype Cursor =
    | At(key: Key, taken: Taken)
    | Stopped(key: Key)
    | Unsupported(key: Key)

  function Used(taken: Taken, key: Key): Taken {
    taken[key := (if key in taken then taken[key] else 0) + 1]
  }

  function Follow(t: Template, e: Edge, taken: Taken): Cursor {
    At(OwnerOf(t.nodes, e.target), Used(taken, e.key))
  }

  /** One turn of the loop, once the node under the cursor has produced its outcome. */
  function Advance(t: Template, key: Key, taken: Taken, outcome: Outcome): Cursor {
    match SelectEdge(t, Outbound(t, key), outcome, taken)
    case None => Stopped(key)
    case Some(e) => Follow(t, e, taken)
  }

  /** A node the loop dispatches and then selects an edge for. */
  predicate Runs(kind: NodeKind) {
    kind != Terminal && kind != Join
  }

  /**
   The whole loop over the outcomes that happen. It rests at a terminal or when no further outcome
   has happened yet; it stops where no edge is selected, and raises at a kind it cannot run.
   */
  function Walk(t: Template, key: Key, taken: Taken, outcomes: seq<Outcome>): Cursor
    decreases |outcomes|
  {
    match NodeUnder(t.nodes, key)
    case None => Unsupported(key)
    case Some(n) =>
      if n.kind == Join then Unsupported(key)
      else if n.kind == Terminal || outcomes == [] || outcomes[0] !in Produced(n.kind) then At(key, taken)
      else
        match Advance(t, key, taken, outcomes[0])
        case At(next, more) => Walk(t, next, more, outcomes[1..])
        case stopped => stopped
  }

  /** A key the cursor can come to rest on: the entry, or where some edge leads. */
  ghost predicate CanRest(t: Template, key: Key) {
    || (exists n :: n in Entries(t) && n.key == key)
    || (exists e :: e in t.edges && e.kind != LoopBack && OwnerOf(t.nodes, e.target) == key)
  }

  /** Every node the cursor can rest on is one the runner supports, with an answer to all it produces. */
  ghost predicate Answers(t: Template) {
    forall n :: n in t.nodes && CanRest(t, n.key) ==> NodeAnswers(t, n)
  }

  ghost predicate NodeAnswers(t: Template, n: Node) {
    n.kind != Join && forall outcome :: outcome in Produced(n.kind) ==> Falls(Outbound(t, n.key), outcome)
  }

  // ---------------------------------------------------------------- no walk stops

  lemma {:induction false} OwnerIsKnown(t: Template, nodes: seq<Node>, key: Key)
    requires key in NodeKeys(t) && forall n :: n in nodes ==> n in t.nodes
    ensures OwnerOf(nodes, key) in NodeKeys(t)
  {
    if nodes != [] {
      var last := nodes[|nodes| - 1];
      assert last in nodes;
      KeyOfNode(t, last);
      OwnerIsKnown(t, nodes[..|nodes| - 1], key);
    }
  }

  /** Where an edge is selected, the cursor moves on to a known node it can rest on. */
  lemma AdvanceRests(t: Template, key: Key, taken: Taken, outcome: Outcome)
    requires ReferencesOk(t)
    ensures var next := Advance(t, key, taken, outcome); next.At? ==> next.key in NodeKeys(t) && CanRest(t, next.key)
  {
    SelectedAnswersOutcome(t, Outbound(t, key), outcome, taken);
    var selected := SelectEdge(t, Outbound(t, key), outcome, taken);
    if selected.Some? {
      assert EdgeOk(t, selected.value);
      OwnerIsKnown(t, t.nodes, selected.value.target);
    }
  }

  lemma KnownHasNode(t: Template, key: Key)
    requires key in NodeKeys(t)
    ensures NodeUnder(t.nodes, key).Some?
  {
    var n := NodeAt(t, key);
  }

  /**
   Where every node the cursor can rest on answers all it can produce, no walk ever stops or
   raises, whatever happens at its nodes and however its retries are spent.
   */
  lemma {:induction false} WalksNeverStop(t: Template, key: Key, taken: Taken, outcomes: seq<Outcome>)
    requires ReferencesOk(t) && Answers(t) && key in NodeKeys(t) && CanRest(t, key)
    ensures Walk(t, key, taken, outcomes).At?
    decreases |outcomes|
  {
    KnownHasNode(t, key);
    var n := NodeUnder(t.nodes, key).value;
    assert NodeAnswers(t, n);
    if n.kind != Terminal && outcomes != [] && outcomes[0] in Produced(n.kind) {
      SelectsExactly(t, Outbound(t, key), outcomes[0], taken);
      AdvanceRests(t, key, taken, outcomes[0]);
      var next := Advance(t, key, taken, outcomes[0]);
      WalksNeverStop(t, next.key, next.taken, outcomes[1..]);
    }
  }

  // ---------------------------------------------------------------- which runs stop

  function EntryOf(t: Template): Key
    requires Entries(t) != []
  {
    Entries(t)[0].key
  }

  function FromStart(t: Template, outcomes: seq<Outcome>): Cursor
    requires Entries(t) != []
  {
    Walk(t, EntryOf(t), map[], outcomes)
  }

  /** Some run of the template ends without an edge or at a node that cannot be run. */
  ghost predicate CanStrand(t: Template)
    requires Entries(t) != []
  {
    exists outcomes :: !FromStart(t, outcomes).At?
  }

  /** After these outcomes a walk from here goes on from this key with this history. */
  ghost predicate GoesOn(t: Template, start: Key, before: Taken, outcomes: seq<Outcome>, key: Key, taken: Taken) {
    forall more :: Resumes(t, start, before, outcomes, key, taken, more)
  }

  predicate Resumes(
    t: Template, start: Key, before: Taken, outcomes: seq<Outcome>, key: Key, taken: Taken, more: seq<Outcome>
  ) {
    Walk(t, start, before, outcomes + more) == Walk(t, key, taken, more)
  }

  lemma StartGoesOn(t: Template, start: Key, before: Taken)
    ensures GoesOn(t, start, before, [], start, before)
  {
    forall more ensures Resumes(t, start, before, [], start, before, more) {
      assert [] + more == more;
    }
  }

  /** The recursion of `Walk`, at a node that runs and on an outcome it produces. */
  lemma WalkTurn(t: Template, key: Key, taken: Taken, n: Node, outcome: Outcome, more: seq<Outcome>)
    requires NodeUnder(t.nodes, key) == Some(n) && Runs(n.kind) && outcome in Produced(n.kind)
    ensures var next := Advance(t, key, taken, outcome);
            Walk(t, key, taken, [outcome] + more) == if next.At? then Walk(t, next.key, next.taken, more) else next
  {
    assert ([outcome] + more)[1..] == more;
  }

  /** The walk rests where nothing the node can produce has happened yet. */
  lemma WalkRests(t: Template, key: Key, taken: Taken, n: Node, outcomes: seq<Outcome>)
    requires NodeUnder(t.nodes, key) == Some(n) && n.kind != Join
    requires n.kind == Terminal || outcomes == [] || outcomes[0] !in Produced(n.kind)
    ensures Walk(t, key, taken, outcomes) == At(key, taken)
  {
  }

  lemma GoesOnBy(
    t: Template, start: Key, before: Taken, outcomes: seq<Outcome>, key: Key, taken: Taken, outcome: Outcome,
    more: seq<Outcome>
  )
    requires GoesOn(t, start, before, outcomes, key, taken)
    ensures Walk(t, start, before, (outcomes + [outcome]) + more) == Walk(t, key, taken, [outcome] + more)
  {
    assert Resumes(t, start, before, outcomes, key, taken, [outcome] + more);
    assert (outcomes + [outcome]) + more == outcomes + ([outcome] + more);
  }

  lemma RestsThere(t: Template, start: Key, before: Taken, outcomes: seq<Outcome>, key: Key, taken: Taken)
    requires GoesOn(t, start, before, outcomes, key, taken)
    ensures Walk(t, start, before, outcomes) == Walk(t, key, taken, [])
  {
    assert Resumes(t, start, before, outcomes, key, taken, []);
    assert outcomes + [] == outcomes;
  }

  /** At a node that runs, a further outcome it produces takes the walk one turn on. */
  lemma TakesTurn(
    t: Template, start: Key, before: Taken, outcomes: seq<Outcome>, key: Key, taken: Taken, n: Node, outcome: Outcome
  )
    requires GoesOn(t, start, before, outcomes, key, taken)
    requires NodeUnder(t.nodes, key) == Some(n) && Runs(n.kind) && outcome in Produced(n.kind)
    ensures Advance(t, key, taken, outcome).At? ==>
              var next := Advance(t, key, taken, outcome);
              GoesOn(t, start, before, outcomes + [outcome], next.key, next.taken)
    ensures !Advance(t, key, taken, outcome).At? ==>
              Walk(t, start, before, outcomes + [outcome]) == Advance(t, key, taken, outcome)
  {
    var next := Advance(t, key, taken, outcome);
    if next.At? {
      forall more ensures Resumes(t, start, before, outcomes + [outcome], next.key, next.taken, more) {
        GoesOnBy(t, start, before, outcomes, key, taken, outcome, more);
        WalkTurn(t, key, taken, n, outcome, more);
      }
    } else {
      GoesOnBy(t, start, before, outcomes, key, taken, outcome, []);
      WalkTurn(t, key, taken, n, outcome, []);
      assert (outcomes + [outcome]) + [] == outcomes + [outcome];
    }
  }

  /**
   Exactly when a run stops at a node: on an outcome its node produces, with no retry of it open and
   no single branch or plain edge to fall back on.
   */
  lemma StopsExactly(t: Template, outcomes: seq<Outcome>, key: Key, taken: Taken, n: Node, outcome: Outcome)
    requires Entries(t) != [] && ReferencesOk(t) && GoesOn(t, EntryOf(t), map[], outcomes, key, taken)
    requires NodeUnder(t.nodes, key) == Some(n) && Runs(n.kind) && outcome in Produced(n.kind)
    ensures FromStart(t, outcomes + [outcome]) == Stopped(key) <==>
              !Falls(Outbound(t, key), outcome) && !SomeRetryOpen(t, Outbound(t, key), outcome, taken)
  {
    SelectsExactly(t, Outbound(t, key), outcome, taken);
    TakesTurn(t, EntryOf(t), map[], outcomes, key, taken, n, outcome);
    var next := Advance(t, key, taken, outcome);
    if next.At? {
      RestsThere(t, EntryOf(t), map[], outcomes + [outcome], next.key, next.taken);
    }
  }

  lemma UnderIs(t: Template, n: Node)
    requires NoDuplicates(NodeKeys(t)) && n in t.nodes
    ensures NodeUnder(t.nodes, n.key) == Some(n)
  {
    KeyOfNode(t, n);
    KnownHasNode(t, n.key);
    SameKeySameNode(t, n, NodeUnder(t.nodes, n.key).value);
  }
}
