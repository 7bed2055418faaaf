/**
 Which edge the scheduler takes (src/accretion/services/run_manager.py), told on the edges alone:
 open retries first, in order, then the one matching branch, then the one plain edge. Over whole
 runs a retry is taken exactly as often as its node fails, up to its limit.
 */
module Retries {
  import opened Sequences
  import opened Reachability
  import opened Templates
  import opened Scheduler
  import opened Walks
  import Stamps

  // ---------------------------------------------------------------- one choice

  /** The guards that wait for each outcome. */
  predicate Fits(e: Edge, outcome: Outcome) {
    match outcome
    case Success => e.guard == Some(OnSuccess)
    case Fail => e.guard == Some(OnFail) || e.guard == Some(OnReplanAvailable) || e.guard == Some(OnReplanExhausted)
    case Inconclusive => e.guard == Some(OnInconclusive)
    case Approved => e.guard == Some(OnApproved)
    case Denied => e.guard == Some(OnDenied)
  }

  function Limit(t: Template, e: Edge): nat {
    if e.guard == Some(OnReplanAvailable) then t.maxReplans else t.maxRetries
  }

  function Times(taken: Taken, key: Key): nat {
    if key in taken then taken[key] else 0
  }

  predicate OpenRetry(t: Template, e: Edge, outcome: Outcome, taken: Taken) {
    e.kind == Retry && Fits(e, outcome) && Times(taken, e.key) < Limit(t, e)
  }

  predicate FitsBranch(e: Edge, outcome: Outcome) {
    (e.kind == Condition || e.kind == Approval) && Fits(e, outcome)
  }

  predicate Unguarded(e: Edge) {
    e.kind == Normal && e.guard.None?
  }

  ghost predicate FirstOpen(t: Template, edges: seq<Edge>, outcome: Outcome, taken: Taken, i: nat)
    requires i < |edges|
  {
    OpenRetry(t, edges[i], outcome, taken) && forall j :: 0 <= j < i ==> !OpenRetry(t, edges[j], outcome, taken)
  }

  ghost predicate NoneOpen(t: Template, edges: seq<Edge>, outcome: Outcome, taken: Taken) {
    forall j :: 0 <= j < |edges| ==> !OpenRetry(t, edges[j], outcome, taken)
  }

  ghost predicate SoleBranch(edges: seq<Edge>, outcome: Outcome, i: nat)
    requires i < |edges|
  {
    forall j :: 0 <= j < |edges| ==> (FitsBranch(edges[j], outcome) <==> j == i)
  }

  ghost predicate SolePlain(edges: seq<Edge>, outcome: Outcome, i: nat)
    requires i < |edges|
  {
    && outcome == Success && (forall j :: 0 <= j < |edges| ==> !FitsBranch(edges[j], outcome))
    && forall j :: 0 <= j < |edges| ==> (Unguarded(edges[j]) <==> j == i)
  }

  /** The position of the edge to take: the first open retry, else the sole branch, else the sole plain edge. */
  ghost predicate Chosen(t: Template, edges: seq<Edge>, outcome: Outcome, taken: Taken, i: nat)
    requires i < |edges|
  {
    || FirstOpen(t, edges, outcome, taken, i)
    || (NoneOpen(t, edges, outcome, taken) && (SoleBranch(edges, outcome, i) || SolePlain(edges, outcome, i)))
  }

  lemma OpenIs(t: Template, e: Edge, outcome: Outcome, taken: Taken)
    ensures OpenRetry(t, e, outcome, taken) <==> RetryOpen(t, e, outcome, taken)
    ensures FitsBranch(e, outcome) <==> IsBranch(e) && GuardMatches(e, outcome)
    ensures Unguarded(e) <==> IsPlain(e)
  {
  }

  lemma {:induction false} FirstRetryAppend(t: Template, a: seq<Edge>, e: Edge, outcome: Outcome, taken: Taken)
    ensures FirstRetry(t, a + [e], outcome, taken) ==
            if FirstRetry(t, a, outcome, taken).Some? then FirstRetry(t, a, outcome, taken)
            else if RetryOpen(t, e, outcome, taken) then Some(e) else None
  {
    if a == [] {
      assert a + [e] == [e];
    } else {
      assert (a + [e])[1..] == a[1..] + [e];
      FirstRetryAppend(t, a[1..], e, outcome, taken);
    }
  }

  /** Loop-backs do not come between a retry and being the first. */
  lemma {:induction false} FirstRetryUnfiltered(
    t: Template, edges: seq<Edge>, keep: Edge -> bool, outcome: Outcome, taken: Taken
  )
    requires forall e :: e in edges && e.kind == Retry ==> keep(e)
    ensures FirstRetry(t, Filter(edges, keep), outcome, taken) == FirstRetry(t, edges, outcome, taken)
  {
    if edges != [] {
      var rest, last := edges[..|edges| - 1], edges[|edges| - 1];
      assert edges == rest + [last];
      FirstRetryUnfiltered(t, rest, keep, outcome, taken);
      FirstRetryAppend(t, rest, last, outcome, taken);
      FirstRetryAppend(t, Filter(rest, keep), last, outcome, taken);
      assert keep(last) || !RetryOpen(t, last, outcome, taken);
      assert Filter(rest, keep) + [] == Filter(rest, keep);
    }
  }

  lemma {:induction false} FirstRetryAt(t: Template, edges: seq<Edge>, outcome: Outcome, taken: Taken, i: nat)
    requires i < |edges| && FirstOpen(t, edges, outcome, taken, i)
    ensures FirstRetry(t, edges, outcome, taken) == Some(edges[i])
  {
    OpenIs(t, edges[0], outcome, taken);
    if i > 0 {
      assert edges[1..][i - 1] == edges[i];
      FirstRetryAt(t, edges[1..], outcome, taken, i - 1);
    }
  }

  lemma CandidateRetry(t: Template, edges: seq<Edge>, outcome: Outcome, taken: Taken)
    ensures FirstRetry(t, NotLoopBack(edges), outcome, taken) == FirstRetry(t, edges, outcome, taken)
  {
    var keep := (e: Edge) => e.kind != LoopBack;
    assert NotLoopBack(edges) == Filter(edges, keep);
    FirstRetryUnfiltered(t, edges, keep, outcome, taken);
  }

  /** Filtering twice is filtering once. */
  lemma {:induction false} FilterTwice<T>(s: seq<T>, first: T -> bool, second: T -> bool, both: T -> bool)
    requires forall x :: both(x) <==> first(x) && second(x)
    ensures Filter(Filter(s, first), second) == Filter(s, both)
  {
    if s != [] {
      var rest, last := s[..|s| - 1], s[|s| - 1];
      FilterTwice(rest, first, second, both);
      if first(last) { assert (Filter(rest, first) + [last])[..|Filter(rest, first)|] == Filter(rest, first); }
      assert Filter(rest, first) + [] == Filter(rest, first);
    }
  }

  lemma BranchList(edges: seq<Edge>, outcome: Outcome)
    ensures Branches(NotLoopBack(edges), outcome) == Filter(edges, (e: Edge) => FitsBranch(e, outcome))
  {
    var ahead := (e: Edge) => e.kind != LoopBack;
    var branch := (e: Edge) => IsBranch(e) && GuardMatches(e, outcome);
    assert NotLoopBack(edges) == Filter(edges, ahead);
    assert Branches(NotLoopBack(edges), outcome) == Filter(NotLoopBack(edges), branch);
    FilterTwice(edges, ahead, branch, (e: Edge) => FitsBranch(e, outcome));
  }

  lemma PlainList(edges: seq<Edge>)
    ensures Plain(NotLoopBack(edges)) == Filter(edges, (e: Edge) => Unguarded(e))
  {
    var ahead, plain := (e: Edge) => e.kind != LoopBack, (e: Edge) => IsPlain(e);
    assert NotLoopBack(edges) == Filter(edges, ahead);
    assert Plain(NotLoopBack(edges)) == Filter(NotLoopBack(edges), plain);
    FilterTwice(edges, ahead, plain, (e: Edge) => Unguarded(e));
  }

  ghost predicate OnlyAt<T>(s: seq<T>, keep: T -> bool, i: nat) {
    i < |s| && forall j :: 0 <= j < |s| ==> (keep(s[j]) <==> j == i)
  }

  lemma KeptAlone<T>(s: seq<T>, keep: T -> bool) returns (i: nat)
    requires |Filter(s, keep)| == 1
    ensures OnlyAt(s, keep, i)
  {
    if forall j :: 0 <= j < |s| ==> !keep(s[j]) { FilterNone(s, keep); }
    i :| 0 <= i < |s| && keep(s[i]);
    forall j | 0 <= j < |s| && j != i ensures !keep(s[j]) {
      if keep(s[j]) { FilterSeveral(s, keep, if i < j then i else j, if i < j then j else i); }
    }
  }

  lemma KeptNothing<T>(s: seq<T>, keep: T -> bool)
    requires Filter(s, keep) == []
    ensures forall j :: 0 <= j < |s| ==> !keep(s[j])
  {
    FilterMembers(s, keep);
    forall j | 0 <= j < |s| ensures !keep(s[j]) { assert s[j] in s && s[j] !in Filter(s, keep); }
  }

  lemma {:induction false} FirstRetryFound(t: Template, edges: seq<Edge>, outcome: Outcome, taken: Taken)
    returns (i: nat)
    requires !NoneOpen(t, edges, outcome, taken)
    ensures i < |edges| && FirstOpen(t, edges, outcome, taken, i)
  {
    if OpenRetry(t, edges[0], outcome, taken) {
      i := 0;
    } else {
      var rest := edges[1..];
      var j :| 0 <= j < |edges| && OpenRetry(t, edges[j], outcome, taken);
      assert rest[j - 1] == edges[j];
      var k := FirstRetryFound(t, rest, outcome, taken);
      i := k + 1;
      forall m | 0 <= m < i ensures !OpenRetry(t, edges[m], outcome, taken) {
        if m > 0 { assert edges[m] == rest[m - 1]; }
      }
    }
  }

  lemma NoRetryFound(t: Template, edges: seq<Edge>, outcome: Outcome, taken: Taken)
    requires NoneOpen(t, edges, outcome, taken)
    ensures FirstRetry(t, edges, outcome, taken).None?
  {
    FirstRetryFacts(t, edges, outcome, taken);
    forall e | e in edges ensures !RetryOpen(t, e, outcome, taken) {
      var i :| 0 <= i < |edges| && edges[i] == e;
      OpenIs(t, edges[i], outcome, taken);
    }
  }

  /** An open retry is taken before anything else, the first of them in order. */
  lemma OpenRetryIsTaken(t: Template, edges: seq<Edge>, outcome: Outcome, taken: Taken, i: nat)
    requires i < |edges| && FirstOpen(t, edges, outcome, taken, i)
    ensures SelectEdge(t, edges, outcome, taken) == Some(edges[i])
  {
    CandidateRetry(t, edges, outcome, taken);
    FirstRetryAt(t, edges, outcome, taken, i);
  }

  lemma WithoutRetries(t: Template, edges: seq<Edge>, outcome: Outcome, taken: Taken)
    requires NoneOpen(t, edges, outcome, taken)
    ensures var branches := Filter(edges, (e: Edge) => FitsBranch(e, outcome));
            var plain := Filter(edges, (e: Edge) => Unguarded(e));
            SelectEdge(t, edges, outcome, taken) ==
            if |branches| == 1 then Some(branches[0])
            else if branches == [] && outcome == Success && |plain| == 1 then Some(plain[0])
            else None
  {
    CandidateRetry(t, edges, outcome, taken);
    NoRetryFound(t, edges, outcome, taken);
    BranchList(edges, outcome);
    PlainList(edges);
  }

  /** With no retry open the sole matching branch is taken, else the sole plain edge on SUCCESS ... */
  lemma FallbackIsTaken(t: Template, edges: seq<Edge>, outcome: Outcome, taken: Taken, i: nat)
    requires NoneOpen(t, edges, outcome, taken) && i < |edges|
    requires SoleBranch(edges, outcome, i) || SolePlain(edges, outcome, i)
    ensures SelectEdge(t, edges, outcome, taken) == Some(edges[i])
  {
    WithoutRetries(t, edges, outcome, taken);
    var branch, plain := (e: Edge) => FitsBranch(e, outcome), (e: Edge) => Unguarded(e);
    if SoleBranch(edges, outcome, i) {
      FilterSole(edges, branch, i);
    } else {
      FilterNone(edges, branch);
      FilterSole(edges, plain, i);
    }
  }

  /** ... and else none. */
  lemma TakenIsAFallback(t: Template, edges: seq<Edge>, outcome: Outcome, taken: Taken) returns (i: nat)
    requires NoneOpen(t, edges, outcome, taken) && SelectEdge(t, edges, outcome, taken).Some?
    ensures i < |edges| && (SoleBranch(edges, outcome, i) || SolePlain(edges, outcome, i))
  {
    WithoutRetries(t, edges, outcome, taken);
    var branch, plain := (e: Edge) => FitsBranch(e, outcome), (e: Edge) => Unguarded(e);
    if |Filter(edges, branch)| == 1 {
      i := KeptAlone(edges, branch);
    } else {
      KeptNothing(edges, branch);
      i := KeptAlone(edges, plain);
    }
  }

  /** The scheduler's choice, exactly: the edge at the chosen position, and none when there is no such position. */
  lemma SelectsTheChosen(t: Template, edges: seq<Edge>, outcome: Outcome, taken: Taken)
    ensures forall i :: 0 <= i < |edges| && Chosen(t, edges, outcome, taken, i) ==>
                          SelectEdge(t, edges, outcome, taken) == Some(edges[i])
    ensures SelectEdge(t, edges, outcome, taken).Some? ==>
              exists i :: 0 <= i < |edges| && Chosen(t, edges, outcome, taken, i)
  {
    if NoneOpen(t, edges, outcome, taken) {
      forall i | 0 <= i < |edges| && Chosen(t, edges, outcome, taken, i)
        ensures SelectEdge(t, edges, outcome, taken) == Some(edges[i])
      {
        FallbackIsTaken(t, edges, outcome, taken, i);
      }
      if SelectEdge(t, edges, outcome, taken).Some? {
        var i := TakenIsAFallback(t, edges, outcome, taken);
        assert Chosen(t, edges, outcome, taken, i);
      }
    } else {
      var k := FirstRetryFound(t, edges, outcome, taken);
      assert Chosen(t, edges, outcome, taken, k);
      forall i | 0 <= i < |edges| && Chosen(t, edges, outcome, taken, i)
        ensures SelectEdge(t, edges, outcome, taken) == Some(edges[i])
      {
        OpenRetryIsTaken(t, edges, outcome, taken, i);
      }
    }
  }

  // ---------------------------------------------------------------- over whole runs

  function Occurrences(path: seq<Edge>, e: Edge): nat {
    if path == [] then 0 else (if path[0] == e then 1 else 0) + Occurrences(path[1..], e)
  }

  /** How often the walk has the node under `source` produce `outcome`, before or as it stops. */
  function Turns(t: Template, key: Key, taken: Taken, outcomes: seq<Outcome>, source: Key, outcome: Outcome): nat
    decreases |outcomes|
  {
    match NodeUnder(t.nodes, key)
    case None => 0
    case Some(n) =>
      if !Runs(n.kind) || outcomes == [] || outcomes[0] !in Produced(n.kind) then 0
      else
        (if key == source && outcomes[0] == outcome then 1 else 0) +
        match SelectEdge(t, Outbound(t, key), outcomes[0], taken)
        case None => 0
        case Some(e) =>
          var next := Follow(t, e, taken);
          Turns(t, next.key, next.taken, outcomes[1..], source, outcome)
  }

  predicate Answers(e: Edge, outcome: Outcome) {
    e.kind == Retry && Fits(e, outcome)
  }

  /** Of the retries of its node that answer the outcome, the edge comes first. */
  ghost predicate FirstAnswer(t: Template, e: Edge, outcome: Outcome) {
    var edges := Outbound(t, e.source);
    exists p :: 0 <= p < |edges| && edges[p] == e && FirstAt(edges, outcome, p)
  }

  ghost predicate FirstAt(edges: seq<Edge>, outcome: Outcome, p: nat)
    requires p < |edges|
  {
    Answers(edges[p], outcome) && forall j :: 0 <= j < p ==> !Answers(edges[j], outcome)
  }

  /** A retry is selected only while it is open, from its own node and on its own outcome. */
  lemma SelectedRetryWasOpen(t: Template, key: Key, outcome: Outcome, taken: Taken)
    ensures var selected := SelectEdge(t, Outbound(t, key), outcome, taken);
            selected.Some? ==> selected.value in t.edges && selected.value.source == key &&
                               (selected.value.kind == Retry ==> OpenRetry(t, selected.value, outcome, taken))
  {
    var edges := Outbound(t, key);
    if SelectEdge(t, edges, outcome, taken).Some? {
      var i := ChosenAt(t, edges, outcome, taken);
      ChosenRetryIsOpen(t, edges, outcome, taken, i);
      assert edges[i] in edges;
    }
  }

  lemma ChosenAt(t: Template, edges: seq<Edge>, outcome: Outcome, taken: Taken) returns (i: nat)
    requires SelectEdge(t, edges, outcome, taken).Some?
    ensures i < |edges| && Chosen(t, edges, outcome, taken, i)
    ensures SelectEdge(t, edges, outcome, taken) == Some(edges[i])
  {
    SelectsTheChosen(t, edges, outcome, taken);
    i :| 0 <= i < |edges| && Chosen(t, edges, outcome, taken, i);
  }

  lemma ChosenRetryIsOpen(t: Template, edges: seq<Edge>, outcome: Outcome, taken: Taken, i: nat)
    requires i < |edges| && Chosen(t, edges, outcome, taken, i)
    ensures edges[i].kind == Retry ==> OpenRetry(t, edges[i], outcome, taken)
  {
    if !FirstOpen(t, edges, outcome, taken, i) {
      assert FitsBranch(edges[i], outcome) || Unguarded(edges[i]);
    }
  }

  lemma OpenFirstAnswerIsSelected(t: Template, e: Edge, outcome: Outcome, taken: Taken)
    requires FirstAnswer(t, e, outcome) && Times(taken, e.key) < Limit(t, e)
    ensures SelectEdge(t, Outbound(t, e.source), outcome, taken) == Some(e)
  {
    var edges := Outbound(t, e.source);
    var p :| 0 <= p < |edges| && edges[p] == e && FirstAt(edges, outcome, p);
    OpenRetryIsTaken(t, edges, outcome, taken, p);
  }

  lemma OtherKeepsCount(t: Template, d: Edge, e: Edge, taken: Taken)
    requires NoDuplicates(EdgeKeys(t)) && d in t.edges && e in t.edges
    ensures Times(Used(taken, d.key), e.key) == Times(taken, e.key) + if d == e then 1 else 0
  {
    var i :| 0 <= i < |t.edges| && t.edges[i] == d;
    var j :| 0 <= j < |t.edges| && t.edges[j] == e;
    assert EdgeKeys(t)[i] == d.key && EdgeKeys(t)[j] == e.key;
  }

  /** What is left of a retry is taken at each of these turns, one by one. */
  function Spent(left: nat, turns: nat): nat {
    if turns < left then turns else left
  }

  /** One turn takes the retry exactly if it is at its node, on its outcome, and something is left of it. */
  lemma TurnTakesRetry(t: Template, key: Key, taken: Taken, outcome: Outcome, e: Edge, answered: Outcome)
    requires e in t.edges && FirstAnswer(t, e, answered) && Times(taken, e.key) <= Limit(t, e)
    ensures SelectEdge(t, Outbound(t, key), outcome, taken) == Some(e) <==>
              key == e.source && outcome == answered && Times(taken, e.key) < Limit(t, e)
  {
    SelectedRetryWasOpen(t, key, outcome, taken);
    if Times(taken, e.key) < Limit(t, e) { OpenFirstAnswerIsSelected(t, e, answered, taken); }
  }

  /**
   Over every walk: a retry that comes first for its outcome is taken exactly as often as its node
   produces that outcome, until its limit is reached, and never again.
   */
  lemma {:induction false} RetryTakenExactly(
    t: Template, key: Key, taken: Taken, outcomes: seq<Outcome>, e: Edge, outcome: Outcome
  )
    requires NoDuplicates(EdgeKeys(t)) && e in t.edges && FirstAnswer(t, e, outcome)
    requires Times(taken, e.key) <= Limit(t, e)
    ensures Occurrences(Stamps.Path(t, key, taken, outcomes), e) ==
            Spent(Limit(t, e) - Times(taken, e.key), Turns(t, key, taken, outcomes, e.source, outcome))
    decreases |outcomes|
  {
    var n := NodeUnder(t.nodes, key);
    if n.Some? && Runs(n.value.kind) && outcomes != [] && outcomes[0] in Produced(n.value.kind) {
      TurnTakesRetry(t, key, taken, outcomes[0], e, outcome);
      SelectedRetryWasOpen(t, key, outcomes[0], taken);
      match SelectEdge(t, Outbound(t, key), outcomes[0], taken)
      case None =>
      case Some(d) =>
        var next := Follow(t, d, taken);
        OtherKeepsCount(t, d, e, taken);
        RetryTakenExactly(t, next.key, next.taken, outcomes[1..], e, outcome);
        var path := Stamps.Path(t, next.key, next.taken, outcomes[1..]);
        assert ([d] + path)[1..] == path;
    }
  }

  /** And no retry, whichever comes first, is ever taken more often than its limit. */
  lemma {:induction false} RetriesStayWithinLimits(t: Template, key: Key, taken: Taken, outcomes: seq<Outcome>, e: Edge)
    requires NoDuplicates(EdgeKeys(t)) && e in t.edges && e.kind == Retry && Times(taken, e.key) <= Limit(t, e)
    ensures Times(taken, e.key) + Occurrences(Stamps.Path(t, key, taken, outcomes), e) <= Limit(t, e)
    decreases |outcomes|
  {
    var n := NodeUnder(t.nodes, key);
    if n.Some? && Runs(n.value.kind) && outcomes != [] && outcomes[0] in Produced(n.value.kind) {
      SelectedRetryWasOpen(t, key, outcomes[0], taken);
      match SelectEdge(t, Outbound(t, key), outcomes[0], taken)
      case None =>
      case Some(d) =>
        var next := Follow(t, d, taken);
        OtherKeepsCount(t, d, e, taken);
        RetriesStayWithinLimits(t, next.key, next.taken, outcomes[1..], e);
        var path := Stamps.Path(t, next.key, next.taken, outcomes[1..]);
        assert ([d] + path)[1..] == path;
    }
  }

  /** The counts a walk ends with are those of the edges it has selected. */
  lemma {:induction false} WalkCountsItsPath(t: Template, key: Key, taken: Taken, outcomes: seq<Outcome>, e: Edge)
    requires NoDuplicates(EdgeKeys(t)) && e in t.edges && Walk(t, key, taken, outcomes).At?
    ensures Times(Walk(t, key, taken, outcomes).taken, e.key) ==
            Times(taken, e.key) + Occurrences(Stamps.Path(t, key, taken, outcomes), e)
    decreases |outcomes|
  {
    var n := NodeUnder(t.nodes, key).value;
    if Runs(n.kind) && outcomes != [] && outcomes[0] in Produced(n.kind) {
      SelectedRetryWasOpen(t, key, outcomes[0], taken);
      var d := SelectEdge(t, Outbound(t, key), outcomes[0], taken).value;
      var next := Follow(t, d, taken);
      OtherKeepsCount(t, d, e, taken);
      WalkCountsItsPath(t, next.key, next.taken, outcomes[1..], e);
      var path := Stamps.Path(t, next.key, next.taken, outcomes[1..]);
      assert ([d] + path)[1..] == path;
    }
  }
}
