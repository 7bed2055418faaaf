/**
 How far a run has got, as far as its future depends on it. Edge selection asks of the history only
 which retries are still open, so a count matters up to its limit: the node under the cursor and
 the capped counts of the retry edges form a finite graph, and what runs can come to
 (src/accretion/services/run_manager.py) is reachability in it.
 */
module RunStates {
  import opened Sequences
  import opened Reachability
  import opened Templates
  import opened Scheduler
  import opened Walks

  datatype RunState = RunState(key: Key, spent: Taken)

  /** The larger of the two limits on retries. */
  function Most(t: Template): nat {
    if t.maxRetries < t.maxReplans then t.maxReplans else t.maxRetries
  }

  function RetryKeys(edges: seq<Edge>): set<Key> {
    set e | e in edges && e.kind == Retry :: e.key
  }

  function Uses(taken: Taken, key: Key): nat {
    if key in taken then taken[key] else 0
  }

  function Capped(t: Template, taken: Taken): Taken {
    map k | k in RetryKeys(t.edges) :: Cap(Uses(taken, k), Most(t))
  }

  function Cap(uses: nat, most: nat): nat {
    if uses < most then uses else most
  }

  function StateOf(t: Template, key: Key, taken: Taken): RunState {
    RunState(key, Capped(t, taken))
  }

  function Start(t: Template): RunState
    requires Entries(t) != []
  {
    StateOf(t, EntryOf(t), map[])
  }

  // ---------------------------------------------------------------- the capped history decides

  lemma {:induction false} SameFirstRetry(t: Template, edges: seq<Edge>, outcome: Outcome, taken: Taken)
    requires forall e :: e in edges ==> e in t.edges
    ensures FirstRetry(t, edges, outcome, taken) == FirstRetry(t, edges, outcome, Capped(t, taken))
  {
    if edges != [] {
      var e := edges[0];
      assert e in edges;
      assert e.kind == Retry ==> e.key in RetryKeys(t.edges);
      assert RetryOpen(t, e, outcome, taken) == RetryOpen(t, e, outcome, Capped(t, taken));
      SameFirstRetry(t, edges[1..], outcome, taken);
    }
  }

  lemma SameChoice(t: Template, key: Key, outcome: Outcome, taken: Taken)
    ensures SelectEdge(t, Outbound(t, key), outcome, taken) ==
            SelectEdge(t, Outbound(t, key), outcome, Capped(t, taken))
  {
    SameFirstRetry(t, NotLoopBack(Outbound(t, key)), outcome, taken);
  }

  lemma SameAfterUse(t: Template, taken: Taken, key: Key)
    ensures Capped(t, Used(Capped(t, taken), key)) == Capped(t, Used(taken, key))
  {
    var a, b := Capped(t, Used(Capped(t, taken), key)), Capped(t, Used(taken, key));
    forall k | k in RetryKeys(t.edges) ensures a[k] == b[k] {
      assert Uses(Used(taken, key), k) == Uses(taken, k) + if k == key then 1 else 0;
    }
  }

  /** One turn of the loop, from state to state. */
  function TurnTo(t: Template, s: RunState, outcome: Outcome): Option<RunState> {
    var next := Advance(t, s.key, s.spent, outcome);
    if next.At? then Some(StateOf(t, next.key, next.taken)) else None
  }

  lemma TurnAgrees(t: Template, key: Key, taken: Taken, outcome: Outcome)
    ensures var next := Advance(t, key, taken, outcome);
            TurnTo(t, StateOf(t, key, taken), outcome) ==
            if next.At? then Some(StateOf(t, next.key, next.taken)) else None
  {
    SameChoice(t, key, outcome, taken);
    var selected := SelectEdge(t, Outbound(t, key), outcome, taken);
    if selected.Some? { FollowAgrees(t, selected.value, taken); }
  }

  lemma FollowAgrees(t: Template, e: Edge, taken: Taken)
    ensures var next, other := Follow(t, e, taken), Follow(t, e, Capped(t, taken));
            StateOf(t, next.key, next.taken) == StateOf(t, other.key, other.taken)
  {
    SameAfterUse(t, taken, e.key);
  }

  // ---------------------------------------------------------------- the finite graph

  function TurnsBy(t: Template, s: RunState, outcomes: seq<Outcome>): (states: seq<RunState>)
    ensures forall d :: d in states <==> exists o :: o in outcomes && TurnTo(t, s, o) == Some(d)
  {
    if outcomes == [] then []
    else
      assert outcomes == [outcomes[0]] + outcomes[1..];
      (match TurnTo(t, s, outcomes[0]) case None => [] case Some(d) => [d]) + TurnsBy(t, s, outcomes[1..])
  }

  /** What a node can produce, none for one the loop does not run. */
  function Outcomes(t: Template, key: Key): seq<Outcome> {
    match NodeUnder(t.nodes, key)
    case None => []
    case Some(n) => if Runs(n.kind) then Produced(n.kind) else []
  }

  function Turns(t: Template, s: RunState): seq<RunState> {
    TurnsBy(t, s, Outcomes(t, s.key))
  }

  /** Every assignment of counts up to `most` to the retry edges. */
  function Histories(edges: seq<Edge>, most: nat): set<Taken> {
    if edges == [] then {map[]}
    else
      var rest, last := Histories(edges[..|edges| - 1], most), edges[|edges| - 1];
      if last.kind != Retry then rest
      else set h, uses | h in rest && uses in UpTo(most) :: h[last.key := uses]
  }

  function UpTo(most: nat): (counts: set<nat>)
    ensures forall uses: nat :: uses in counts <==> uses <= most
  {
    if most == 0 then {0} else UpTo(most - 1) + {most}
  }

  /** The keys a cursor can hold. */
  function Places(t: Template): set<Key> {
    (set n | n in t.nodes :: n.key) + (set e | e in t.edges :: e.target)
  }

  function AllStates(t: Template): set<RunState> {
    set key, spent | key in Places(t) && spent in Histories(t.edges, Most(t)) :: RunState(key, spent)
  }

  function TurnGraph(t: Template): Successors<RunState> {
    map s | s in AllStates(t) :: Turns(t, s)
  }

  lemma RetryKeysStep(edges: seq<Edge>)
    requires edges != []
    ensures var rest, last := edges[..|edges| - 1], edges[|edges| - 1];
            RetryKeys(edges) == if last.kind == Retry then RetryKeys(rest) + {last.key} else RetryKeys(rest)
  {
    var rest, last := edges[..|edges| - 1], edges[|edges| - 1];
    assert edges == rest + [last];
  }

  lemma {:induction false} HistoriesHold(edges: seq<Edge>, most: nat, h: Taken)
    requires h.Keys == RetryKeys(edges) && forall k :: k in h ==> h[k] <= most
    ensures h in Histories(edges, most)
  {
    if edges == [] {
      assert h == map[];
    } else {
      var rest, last := edges[..|edges| - 1], edges[|edges| - 1];
      RetryKeysStep(edges);
      if last.kind != Retry {
        HistoriesHold(rest, most, h);
      } else {
        var before := if last.key in RetryKeys(rest) then h else h - {last.key};
        HistoriesHold(rest, most, before);
        assert h[last.key] in UpTo(most);
        assert h == before[last.key := h[last.key]];
      }
    }
  }

  lemma StateIsKnown(t: Template, key: Key, taken: Taken)
    requires key in Places(t)
    ensures StateOf(t, key, taken) in AllStates(t)
  {
    HistoriesHold(t.edges, Most(t), Capped(t, taken));
  }

  lemma {:induction false} OwnerIsAPlace(t: Template, nodes: seq<Node>, key: Key)
    requires key in Places(t) && forall n :: n in nodes ==> n in t.nodes
    ensures OwnerOf(nodes, key) in Places(t)
  {
    if nodes != [] {
      assert nodes[|nodes| - 1] in nodes;
      OwnerIsAPlace(t, nodes[..|nodes| - 1], key);
    }
  }

  lemma AdvanceKeepsToPlaces(t: Template, key: Key, taken: Taken, outcome: Outcome)
    ensures var next := Advance(t, key, taken, outcome); next.At? ==> next.key in Places(t)
  {
    SelectedAnswersOutcome(t, Outbound(t, key), outcome, taken);
    var selected := SelectEdge(t, Outbound(t, key), outcome, taken);
    if selected.Some? { OwnerIsAPlace(t, t.nodes, selected.value.target); }
  }

  lemma EntryIsAPlace(t: Template)
    requires Entries(t) != []
    ensures EntryOf(t) in Places(t)
  {
    assert Entries(t)[0] in Entries(t);
  }

  // ---------------------------------------------------------------- walks are paths of the graph

  ghost predicate ComesTo(t: Template, from: RunState, s: RunState) {
    Reachable(TurnGraph(t), {from}, s)
  }

  /** A node the loop cannot run, or one with an outcome that has no retry open and no way to fall back. */
  ghost predicate Stuck(t: Template, s: RunState) {
    match NodeUnder(t.nodes, s.key)
    case None => true
    case Some(n) => n.kind == Join || exists outcome :: outcome in Outcomes(t, s.key) && Unanswerable(t, s, outcome)
  }

  ghost predicate Unanswerable(t: Template, s: RunState, outcome: Outcome) {
    !Falls(Outbound(t, s.key), outcome) && !SomeRetryOpen(t, Outbound(t, s.key), outcome, s.spent)
  }

  lemma UnanswerableExactly(t: Template, key: Key, taken: Taken, outcome: Outcome)
    ensures Unanswerable(t, StateOf(t, key, taken), outcome) <==> Advance(t, key, taken, outcome) == Stopped(key)
  {
    SameChoice(t, key, outcome, taken);
    SelectsExactly(t, Outbound(t, key), outcome, Capped(t, taken));
  }

  lemma TurnReaches(t: Template, from: RunState, key: Key, taken: Taken, outcome: Outcome)
    requires key in Places(t) && ComesTo(t, from, StateOf(t, key, taken)) && outcome in Outcomes(t, key)
    requires Advance(t, key, taken, outcome).At?
    ensures var next := Advance(t, key, taken, outcome); ComesTo(t, from, StateOf(t, next.key, next.taken))
  {
    var s, next := StateOf(t, key, taken), Advance(t, key, taken, outcome);
    StateIsKnown(t, key, taken);
    TurnAgrees(t, key, taken, outcome);
    assert StateOf(t, next.key, next.taken) in Turns(t, s);
    ReachableStep(TurnGraph(t), {from}, s, StateOf(t, next.key, next.taken));
  }

  ghost predicate ComesToStuck(t: Template, from: RunState) {
    exists s :: ComesTo(t, from, s) && Stuck(t, s)
  }

  /** Where a walk gets to is a reachable state, and a walk that stops does so at one that is stuck. */
  lemma {:induction false} WalksStayReachable(
    t: Template, from: RunState, key: Key, taken: Taken, outcomes: seq<Outcome>
  )
    requires key in Places(t) && ComesTo(t, from, StateOf(t, key, taken))
    ensures var c := Walk(t, key, taken, outcomes);
            if c.At? then c.key in Places(t) && ComesTo(t, from, StateOf(t, c.key, c.taken)) else ComesToStuck(t, from)
    decreases |outcomes|
  {
    var s := StateOf(t, key, taken);
    if outcomes != [] && outcomes[0] in Outcomes(t, key) {
      UnanswerableExactly(t, key, taken, outcomes[0]);
      AdvanceKeepsToPlaces(t, key, taken, outcomes[0]);
      var next := Advance(t, key, taken, outcomes[0]);
      if next.At? {
        TurnReaches(t, from, key, taken, outcomes[0]);
        WalksStayReachable(t, from, next.key, next.taken, outcomes[1..]);
      } else {
        assert Stuck(t, s);
      }
    } else if !Walk(t, key, taken, outcomes).At? {
      assert Stuck(t, s);
    }
  }

  lemma WalkedOn(t: Template, key: Key, taken: Taken, before: seq<Outcome>, u: RunState, h: Taken, s: RunState)
    returns (outcomes: seq<Outcome>, history: Taken)
    requires GoesOn(t, key, taken, before, u.key, h) && Capped(t, h) == u.spent && s in Turns(t, u)
    ensures GoesOn(t, key, taken, outcomes, s.key, history) && Capped(t, history) == s.spent
  {
    var outcome :| outcome in Outcomes(t, u.key) && TurnTo(t, u, outcome) == Some(s);
    assert u == StateOf(t, u.key, h);
    TurnAgrees(t, u.key, h, outcome);
    TakesTurn(t, key, taken, before, u.key, h, NodeUnder(t.nodes, u.key).value, outcome);
    outcomes, history := before + [outcome], Advance(t, u.key, h, outcome).taken;
  }

  lemma FollowsIsTurn(t: Template, u: RunState, s: RunState)
    requires Follows(TurnGraph(t), u, s)
    ensures s in Turns(t, u)
  {
  }

  lemma ComesBy(next: Successors<RunState>, start: RunState, s: RunState, turns: nat) returns (u: RunState)
    requires Within(next, {start}, s, turns) && s != start
    ensures turns > 0 && Within(next, {start}, u, turns - 1) && Follows(next, u, s)
  {
    u :| Within(next, {start}, u, turns - 1) && Follows(next, u, s);
  }

  /** Every reachable state is one some walk gets to. */
  lemma {:induction false} ReachableIsWalked(t: Template, key: Key, taken: Taken, s: RunState, turns: nat)
    returns (outcomes: seq<Outcome>, history: Taken)
    requires Within(TurnGraph(t), {StateOf(t, key, taken)}, s, turns)
    ensures GoesOn(t, key, taken, outcomes, s.key, history) && Capped(t, history) == s.spent
    decreases turns
  {
    if s == StateOf(t, key, taken) {
      StartGoesOn(t, key, taken);
      outcomes, history := [], taken;
    } else {
      var u := ComesBy(TurnGraph(t), StateOf(t, key, taken), s, turns);
      var before, h := ReachableIsWalked(t, key, taken, u, turns - 1);
      FollowsIsTurn(t, u, s);
      outcomes, history := WalkedOn(t, key, taken, before, u, h, s);
    }
  }

  lemma ReachesItself(t: Template, s: RunState)
    ensures ComesTo(t, s, s)
  {
    assert Within(TurnGraph(t), {s}, s, 0);
  }

  // ---------------------------------------------------------------- stranded runs

  lemma StuckStops(t: Template, key: Key, taken: Taken, outcomes: seq<Outcome>, s: RunState, history: Taken)
    requires GoesOn(t, key, taken, outcomes, s.key, history) && Capped(t, history) == s.spent && Stuck(t, s)
    ensures exists more :: !Walk(t, key, taken, more).At?
  {
    var n := NodeUnder(t.nodes, s.key);
    if n.None? || n.value.kind == Join {
      RestsThere(t, key, taken, outcomes, s.key, history);
    } else {
      var outcome :| outcome in Outcomes(t, s.key) && Unanswerable(t, s, outcome);
      assert s == StateOf(t, s.key, history);
      UnanswerableExactly(t, s.key, history, outcome);
      TakesTurn(t, key, taken, outcomes, s.key, history, n.value, outcome);
      assert !Walk(t, key, taken, outcomes + [outcome]).At?;
    }
  }

  /**
   On every template, with or without retries: some run from the entry is stranded if and only if a
   stuck state is reachable in the finite graph of its run states.
   */
  lemma StrandsExactly(t: Template)
    requires Entries(t) != []
    ensures CanStrand(t) <==> ComesToStuck(t, Start(t))
  {
    if CanStrand(t) {
      var outcomes :| !FromStart(t, outcomes).At?;
      EntryIsAPlace(t);
      ReachesItself(t, Start(t));
      WalksStayReachable(t, Start(t), EntryOf(t), map[], outcomes);
    }
    if s :| ComesTo(t, Start(t), s) && Stuck(t, s) {
      var turns: nat :| Within(TurnGraph(t), {Start(t)}, s, turns);
      var outcomes, history := ReachableIsWalked(t, EntryOf(t), map[], s, turns);
      StuckStops(t, EntryOf(t), map[], outcomes, s, history);
      var more :| !Walk(t, EntryOf(t), map[], more).At?;
      assert !FromStart(t, more).At?;
    }
  }

  predicate NoWayOn(t: Template, s: RunState) {
    match NodeUnder(t.nodes, s.key)
    case None => true
    case Some(n) => n.kind == Join || exists outcome :: outcome in Outcomes(t, s.key) && TurnTo(t, s, outcome).None?
  }

  lemma NoWayOnMeansStuck(t: Template, s: RunState)
    ensures NoWayOn(t, s) <==> Stuck(t, s)
  {
    forall outcome ensures TurnTo(t, s, outcome).None? <==> Unanswerable(t, s, outcome) {
      SelectsExactly(t, Outbound(t, s.key), outcome, s.spent);
    }
  }

  lemma GraphIsClosed(t: Template)
    ensures Closed(TurnGraph(t), AllStates(t))
  {
    forall u, v | u in AllStates(t) && Follows(TurnGraph(t), u, v) ensures v in AllStates(t) {
      var outcome :| outcome in Outcomes(t, u.key) && TurnTo(t, u, outcome) == Some(v);
      AdvanceKeepsToPlaces(t, u.key, u.spent, outcome);
      var next := Advance(t, u.key, u.spent, outcome);
      StateIsKnown(t, next.key, next.taken);
    }
  }

  lemma SearchCompletes(t: Template, s: RunState)
    requires s in AllStates(t)
    ensures !LookupFails(TurnGraph(t), {s})
  {
    GraphIsClosed(t);
    ClosedHoldsReachable(TurnGraph(t), {s}, AllStates(t));
  }

  /** So it can be decided, with the validator's own search, before any run. */
  method DecideStranding(t: Template) returns (strands: bool)
    requires Entries(t) != []
    ensures strands <==> CanStrand(t)
  {
    StrandsExactly(t);
    EntryIsAPlace(t);
    StateIsKnown(t, EntryOf(t), map[]);
    SearchCompletes(t, Start(t));
    var start := [Start(t)];
    assert KeysOf(start) == {Start(t)};
    var reached, failed := Search(TurnGraph(t), start);
    strands := exists s :: s in reached && NoWayOn(t, s);
    forall s ensures NoWayOn(t, s) <==> Stuck(t, s) { NoWayOnMeansStuck(t, s); }
  }

  // ---------------------------------------------------------------- runs that can still finish

  predicate AtTerminal(t: Template, key: Key) {
    NodeUnder(t.nodes, key).Some? && NodeUnder(t.nodes, key).value.kind == Terminal
  }

  /** Some way of going on from here comes to a terminal. */
  ghost predicate CanFinish(t: Template, key: Key, taken: Taken) {
    exists outcomes :: var c := Walk(t, key, taken, outcomes); c.At? && AtTerminal(t, c.key)
  }

  ghost predicate ComesToTerminal(t: Template, s: RunState) {
    exists d :: ComesTo(t, s, d) && AtTerminal(t, d.key)
  }

  lemma FinishReaches(t: Template, key: Key, taken: Taken, outcomes: seq<Outcome>)
    requires key in Places(t) && Walk(t, key, taken, outcomes).At?
    requires AtTerminal(t, Walk(t, key, taken, outcomes).key)
    ensures ComesToTerminal(t, StateOf(t, key, taken))
  {
    ReachesItself(t, StateOf(t, key, taken));
    WalksStayReachable(t, StateOf(t, key, taken), key, taken, outcomes);
    var c := Walk(t, key, taken, outcomes);
    assert AtTerminal(t, StateOf(t, c.key, c.taken).key);
  }

  lemma ReachedFinishes(t: Template, key: Key, taken: Taken, d: RunState)
    requires ComesTo(t, StateOf(t, key, taken), d) && AtTerminal(t, d.key)
    ensures CanFinish(t, key, taken)
  {
    var turns: nat :| Within(TurnGraph(t), {StateOf(t, key, taken)}, d, turns);
    var outcomes, history := ReachableIsWalked(t, key, taken, d, turns);
    RestsThere(t, key, taken, outcomes, d.key, history);
    assert Walk(t, key, taken, outcomes).At?;
  }

  lemma FinishesFromExactly(t: Template, key: Key, taken: Taken)
    requires key in Places(t)
    ensures CanFinish(t, key, taken) <==> ComesToTerminal(t, StateOf(t, key, taken))
  {
    if CanFinish(t, key, taken) {
      var outcomes :| Walk(t, key, taken, outcomes).At? && AtTerminal(t, Walk(t, key, taken, outcomes).key);
      FinishReaches(t, key, taken, outcomes);
    }
    if ComesToTerminal(t, StateOf(t, key, taken)) {
      var d :| ComesTo(t, StateOf(t, key, taken), d) && AtTerminal(t, d.key);
      ReachedFinishes(t, key, taken, d);
    }
  }

  /** Every run from the entry that is still going can still come to a terminal. */
  ghost predicate RunsCanFinish(t: Template)
    requires Entries(t) != []
  {
    forall outcomes :: var c := FromStart(t, outcomes); c.At? ==> CanFinish(t, c.key, c.taken)
  }

  predicate Supported(t: Template, key: Key) {
    NodeUnder(t.nodes, key).Some? && NodeUnder(t.nodes, key).value.kind != Join
  }

  /**
   Every run can still finish, at every point, if and only if from every reachable state under a
   node the loop can run a terminal is reachable, along the edges the scheduler takes.
   */
  lemma FinishesExactly(t: Template)
    requires Entries(t) != []
    ensures RunsCanFinish(t) <==>
              forall s :: ComesTo(t, Start(t), s) && Supported(t, s.key) ==> ComesToTerminal(t, s)
  {
    EntryIsAPlace(t);
    if RunsCanFinish(t) {
      forall s | ComesTo(t, Start(t), s) && Supported(t, s.key) ensures ComesToTerminal(t, s) {
        StateCanFinish(t, s);
      }
    }
    if forall s :: ComesTo(t, Start(t), s) && Supported(t, s.key) ==> ComesToTerminal(t, s) {
      forall outcomes | FromStart(t, outcomes).At?
        ensures var c := FromStart(t, outcomes); CanFinish(t, c.key, c.taken)
      {
        RunCanFinish(t, outcomes);
      }
    }
  }

  lemma ReachableIsAPlace(t: Template, s: RunState)
    requires Entries(t) != [] && ComesTo(t, Start(t), s)
    ensures s.key in Places(t)
  {
    EntryIsAPlace(t);
    StateIsKnown(t, EntryOf(t), map[]);
    GraphIsClosed(t);
    ClosedHoldsReachable(TurnGraph(t), {Start(t)}, AllStates(t));
  }

  lemma StateCanFinish(t: Template, s: RunState)
    requires Entries(t) != [] && RunsCanFinish(t) && ComesTo(t, Start(t), s) && Supported(t, s.key)
    ensures ComesToTerminal(t, s)
  {
    ReachableIsAPlace(t, s);
    var turns: nat :| Within(TurnGraph(t), {Start(t)}, s, turns);
    var outcomes, history := ReachableIsWalked(t, EntryOf(t), map[], s, turns);
    RestsThere(t, EntryOf(t), map[], outcomes, s.key, history);
    assert FromStart(t, outcomes) == At(s.key, history);
    FinishesFromExactly(t, s.key, history);
    assert s == StateOf(t, s.key, history);
  }

  lemma {:induction false} WalkEndsSupported(t: Template, key: Key, taken: Taken, outcomes: seq<Outcome>)
    ensures var c := Walk(t, key, taken, outcomes); c.At? ==> Supported(t, c.key)
    decreases |outcomes|
  {
    if outcomes != [] && outcomes[0] in Outcomes(t, key) {
      var next := Advance(t, key, taken, outcomes[0]);
      if next.At? { WalkEndsSupported(t, next.key, next.taken, outcomes[1..]); }
    }
  }

  lemma RunCanFinish(t: Template, outcomes: seq<Outcome>)
    requires Entries(t) != [] && FromStart(t, outcomes).At?
    requires forall s :: ComesTo(t, Start(t), s) && Supported(t, s.key) ==> ComesToTerminal(t, s)
    ensures var c := FromStart(t, outcomes); CanFinish(t, c.key, c.taken)
  {
    var c := FromStart(t, outcomes);
    EntryIsAPlace(t);
    ReachesItself(t, Start(t));
    WalksStayReachable(t, Start(t), EntryOf(t), map[], outcomes);
    WalkEndsSupported(t, EntryOf(t), map[], outcomes);
    FinishesFromExactly(t, c.key, c.taken);
  }
}
