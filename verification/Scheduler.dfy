/**
 The macro scheduler's edge choice (src/accretion/services/run_manager.py), and how it relates to
 the validator's coverage rule. The two are written independently and do not quite agree:
 `CoverageDecides` says exactly when a covered outcome is also answered. What becomes of whole
 runs is in `Walks`.
 */
module Scheduler {
  import opened Sequences
  import opened Reachability
  import opened Templates

  /** How often each edge has been taken; an edge not yet taken is absent. */
  type Taken = map<Key, nat>

  predicate Matches(guard: Guard, outcome: Outcome) {
    match guard
    case OnSuccess => outcome == Success
    case OnFail => outcome == Fail
    case OnInconclusive => outcome == Inconclusive
    case OnApproved => outcome == Approved
    case OnDenied => outcome == Denied
    case OnReplanAvailable => outcome == Fail
    case OnReplanExhausted => outcome == Fail
  }

  predicate GuardMatches(e: Edge, outcome: Outcome) {
    e.guard.Some? && Matches(e.guard.value, outcome)
  }

  function RetryLimit(t: Template, e: Edge): nat {
    if e.guard == Some(OnReplanAvailable) then t.maxReplans else t.maxRetries
  }

  predicate RetryOpen(t: Template, e: Edge, outcome: Outcome, taken: Taken) {
    && e.kind == Retry && GuardMatches(e, outcome)
    && (if e.key in taken then taken[e.key] else 0) < RetryLimit(t, e)
  }

  function FirstRetry(t: Template, edges: seq<Edge>, outcome: Outcome, taken: Taken): Option<Edge> {
    if edges == [] then None
    else if RetryOpen(t, edges[0], outcome, taken) then Some(edges[0])
    else FirstRetry(t, edges[1..], outcome, taken)
  }

  predicate IsBranch(e: Edge) {
    e.kind == Condition || e.kind == Approval
  }

  function Branches(edges: seq<Edge>, outcome: Outcome): (branches: seq<Edge>)
    ensures forall e :: e in branches <==> e in edges && IsBranch(e) && GuardMatches(e, outcome)
  {
    var keep := (e: Edge) => IsBranch(e) && GuardMatches(e, outcome);
    FilterMembers(edges, keep);
    Filter(edges, keep)
  }

  predicate IsPlain(e: Edge) {
    e.kind == Normal && e.guard.None?
  }

  function Plain(edges: seq<Edge>): (plain: seq<Edge>)
    ensures forall e :: e in plain <==> e in edges && IsPlain(e)
  {
    var keep := (e: Edge) => IsPlain(e);
    FilterMembers(edges, keep);
    Filter(edges, keep)
  }

  /** `_select_edge`: an open retry first, then the one matching branch, then the one plain edge. */
  function SelectEdge(t: Template, edges: seq<Edge>, outcome: Outcome, taken: Taken): Option<Edge> {
    var candidates := NotLoopBack(edges);
    var retry := FirstRetry(t, candidates, outcome, taken);
    if retry.Some? then retry
    else
      var branches := Branches(candidates, outcome);
      if |branches| == 1 then Some(branches[0])
      else if |branches| > 1 then None
      else
        var plain := Plain(candidates);
        if outcome == Success && |plain| == 1 then Some(plain[0]) else None
  }

  // ---------------------------------------------------------------- facts about the choice

  lemma {:induction false} FirstRetryFacts(t: Template, edges: seq<Edge>, outcome: Outcome, taken: Taken)
    ensures var r := FirstRetry(t, edges, outcome, taken);
            r.Some? ==> r.value in edges && RetryOpen(t, r.value, outcome, taken)
    ensures FirstRetry(t, edges, outcome, taken).None? <==>
            forall e :: e in edges ==> !RetryOpen(t, e, outcome, taken)
  {
    if edges != [] {
      FirstRetryFacts(t, edges[1..], outcome, taken);
      assert edges == [edges[0]] + edges[1..];
    }
  }

  /** Whatever edge is chosen leaves the node, is no loop-back, and answers the outcome. */
  lemma SelectedAnswersOutcome(t: Template, edges: seq<Edge>, outcome: Outcome, taken: Taken)
    ensures var r := SelectEdge(t, edges, outcome, taken);
            r.Some? ==> r.value in edges && r.value.kind != LoopBack &&
                        (GuardMatches(r.value, outcome) || (outcome == Success && IsPlain(r.value)))
  {
    FirstRetryFacts(t, NotLoopBack(edges), outcome, taken);
    var branches, plain := Branches(NotLoopBack(edges), outcome), Plain(NotLoopBack(edges));
    assert |branches| == 1 ==> branches[0] in branches;
    assert |plain| == 1 ==> plain[0] in plain;
  }

  // ---------------------------------------------------------------- when the two rules agree

  /** A conditional edge that the scheduler matches on FAIL but the validator does not count. */
  predicate IsReplanBranch(e: Edge) {
    IsBranch(e) && e.guard == Some(OnReplanAvailable)
  }

  function ReplanBranches(edges: seq<Edge>): (found: seq<Edge>)
    ensures forall e :: e in found <==> e in edges && IsReplanBranch(e)
  {
    var keep := (e: Edge) => IsReplanBranch(e);
    FilterMembers(edges, keep);
    Filter(edges, keep)
  }

  /**
   The condition on one node and outcome, read off the template alone. Outside FAIL: the covering
   edge is one the scheduler can take without a retry budget. On FAIL: exactly one of the covering
   edge and the conditional replan edges is such an edge.
   */
  predicate Dispatchable(edges: seq<Edge>, outcome: Outcome) {
    var covering := Covering(edges, outcome);
    |covering| == 1 &&
    if outcome == Fail then
      (if IsBranch(covering[0]) then 1 else 0) + |ReplanBranches(edges)| == 1
    else
      IsBranch(covering[0]) || covering[0].kind == Normal
  }

  ghost predicate AlwaysSelects(t: Template, edges: seq<Edge>, outcome: Outcome) {
    forall taken :: SelectEdge(t, edges, outcome, taken).Some?
  }

  ghost predicate SomeRetryOpen(t: Template, edges: seq<Edge>, outcome: Outcome, taken: Taken) {
    exists e :: e in NotLoopBack(edges) && RetryOpen(t, e, outcome, taken)
  }

  /** Under one history the scheduler has no edge exactly when it cannot fall back and no retry is open. */
  lemma SelectsExactly(t: Template, edges: seq<Edge>, outcome: Outcome, taken: Taken)
    ensures SelectEdge(t, edges, outcome, taken).Some? <==>
              Falls(edges, outcome) || SomeRetryOpen(t, edges, outcome, taken)
  {
    FirstRetryFacts(t, NotLoopBack(edges), outcome, taken);
  }

  ghost function Spent(edges: seq<Edge>, uses: nat): Taken {
    map e | e in edges :: e.key := uses
  }

  /** With every retry used up, the choice falls to the branches and the plain edge. */
  lemma SelectWithoutRetries(t: Template, edges: seq<Edge>, outcome: Outcome)
    ensures FirstRetry(t, NotLoopBack(edges), outcome, Spent(edges, t.maxRetries + t.maxReplans)).None?
  {
    FirstRetryFacts(t, NotLoopBack(edges), outcome, Spent(edges, t.maxRetries + t.maxReplans));
  }

  /** The retry-free part of the choice. */
  ghost predicate Falls(edges: seq<Edge>, outcome: Outcome) {
    var branches, plain := Branches(NotLoopBack(edges), outcome), Plain(NotLoopBack(edges));
    |branches| == 1 || (|branches| == 0 && outcome == Success && |plain| == 1)
  }

  /** The scheduler has an answer under every retry history exactly when it has one without retries. */
  lemma AlwaysSelectsMeansFalls(t: Template, edges: seq<Edge>, outcome: Outcome)
    ensures AlwaysSelects(t, edges, outcome) <==> Falls(edges, outcome)
  {
    SelectWithoutRetries(t, edges, outcome);
    if AlwaysSelects(t, edges, outcome) {
      assert SelectEdge(t, edges, outcome, Spent(edges, t.maxRetries + t.maxReplans)).Some?;
    }
  }

  lemma ChoicesAreDistinct(edges: seq<Edge>, outcome: Outcome)
    requires NoDuplicates(edges)
    ensures NoDuplicates(Branches(NotLoopBack(edges), outcome)) && NoDuplicates(Plain(NotLoopBack(edges)))
    ensures NoDuplicates(ReplanBranches(edges))
  {
    var notBack := (e: Edge) => e.kind != LoopBack;
    assert NotLoopBack(edges) == Filter(edges, notBack);
    FilterNoDuplicates(edges, notBack);
    var branch := (e: Edge) => IsBranch(e) && GuardMatches(e, outcome);
    assert Branches(NotLoopBack(edges), outcome) == Filter(NotLoopBack(edges), branch);
    FilterNoDuplicates(NotLoopBack(edges), branch);
    var plain := (e: Edge) => IsPlain(e);
    assert Plain(NotLoopBack(edges)) == Filter(NotLoopBack(edges), plain);
    FilterNoDuplicates(NotLoopBack(edges), plain);
    var replan := (e: Edge) => IsReplanBranch(e);
    assert ReplanBranches(edges) == Filter(edges, replan);
    FilterNoDuplicates(edges, replan);
  }

  lemma BranchesFromCovering(edges: seq<Edge>, outcome: Outcome, c: Edge)
    requires Covering(edges, outcome) == [c] && outcome != Fail
    ensures forall e :: e in Branches(NotLoopBack(edges), outcome) <==> e == c && IsBranch(c)
  {
    forall e
      ensures e in Branches(NotLoopBack(edges), outcome) <==> e == c && IsBranch(c)
    {
      CoveringIs(edges, outcome, c, e);
    }
  }

  lemma CoveringIs(edges: seq<Edge>, outcome: Outcome, c: Edge, e: Edge)
    requires Covering(edges, outcome) == [c]
    ensures e == c <==> e in edges && Covers(e, outcome)
  {
    assert e in Covering(edges, outcome) <==> e == c;
  }

  lemma PlainFromCovering(edges: seq<Edge>, c: Edge)
    requires Covering(edges, Success) == [c] && (RefusesGuard(c.kind) ==> c.guard.None?)
    ensures forall e :: e in Plain(NotLoopBack(edges)) <==> e == c && c.kind == Normal
  {
    CoveringIs(edges, Success, c, c);
    forall e
      ensures e in Plain(NotLoopBack(edges)) <==> e == c && c.kind == Normal
    {
      CoveringIs(edges, Success, c, e);
    }
  }

  /** On FAIL a matching branch is the covering edge or a replan branch. */
  lemma FailBranchIs(edges: seq<Edge>, c: Edge, e: Edge)
    requires e == c <==> e in edges && Covers(e, Fail)
    ensures e in Branches(NotLoopBack(edges), Fail) <==> (e == c && IsBranch(c)) || e in ReplanBranches(edges)
    ensures e == c ==> e !in ReplanBranches(edges)
  {
  }

  lemma FailBranches(edges: seq<Edge>, c: Edge)
    requires Covering(edges, Fail) == [c]
    ensures forall e :: e in Branches(NotLoopBack(edges), Fail) <==>
              (e == c && IsBranch(c)) || e in ReplanBranches(edges)
    ensures c !in ReplanBranches(edges)
  {
    CoveringIs(edges, Fail, c, c);
    FailBranchIs(edges, c, c);
    forall e
      ensures e in Branches(NotLoopBack(edges), Fail) <==> (e == c && IsBranch(c)) || e in ReplanBranches(edges)
    {
      CoveringIs(edges, Fail, c, e);
      FailBranchIs(edges, c, e);
    }
  }

  lemma CountSole(s: seq<Edge>, c: Edge, kept: bool)
    requires NoDuplicates(s) && forall e :: e in s <==> e == c && kept
    ensures s == if kept then [c] else []
  {
    SoleMember(s, c);
    Nonempty(s);
    assert c in s <==> kept;
  }

  lemma CountWithReplans(s: seq<Edge>, replans: seq<Edge>, c: Edge, kept: bool)
    requires NoDuplicates(s) && NoDuplicates(replans) && c !in replans
    requires forall e :: e in s <==> (e == c && kept) || e in replans
    ensures |s| == 1 <==> (if kept then 1 else 0) + |replans| == 1
  {
    Nonempty(replans);
    if replans == [] {
      CountSole(s, c, kept);
    } else {
      var r := replans[0];
      assert r in replans && r in s;
      SoleMember(s, r);
      SoleMember(replans, r);
    }
  }

  lemma CoveredFalls(edges: seq<Edge>, outcome: Outcome, c: Edge)
    requires NoDuplicates(edges) && Covering(edges, outcome) == [c] && (RefusesGuard(c.kind) ==> c.guard.None?)
    ensures Falls(edges, outcome) <==> Dispatchable(edges, outcome)
  {
    var branches, plain := Branches(NotLoopBack(edges), outcome), Plain(NotLoopBack(edges));
    ChoicesAreDistinct(edges, outcome);
    assert c in Covering(edges, outcome);
    if outcome == Fail {
      FailBranches(edges, c);
      CountWithReplans(branches, ReplanBranches(edges), c, IsBranch(c));
    } else {
      BranchesFromCovering(edges, outcome, c);
      CountSole(branches, c, IsBranch(c));
      if outcome == Success {
        PlainFromCovering(edges, c);
        CountSole(plain, c, c.kind == Normal);
      }
    }
  }

  lemma EdgesAreDistinct(t: Template)
    requires NoDuplicates(EdgeKeys(t))
    ensures NoDuplicates(t.edges)
  {
    forall i, j | 0 <= i < j < |t.edges| ensures t.edges[i] != t.edges[j] {
      assert EdgeKeys(t)[i] != EdgeKeys(t)[j];
    }
  }

  lemma OutboundIsDistinct(t: Template, key: Key)
    requires NoDuplicates(t.edges)
    ensures NoDuplicates(Outbound(t, key))
  {
    var keep := (e: Edge) => e.source == key;
    assert Outbound(t, key) == Filter(t.edges, keep);
    FilterNoDuplicates(t.edges, keep);
  }

  /**
   Where the coverage rule looks, at scheduled nodes and the outcomes of its own table, an accepted
   node has a next edge under every retry history exactly when that outcome is dispatchable.
   */
  lemma CoverageDecides(t: Template, n: Node, outcome: Outcome)
    requires WellFormed(t) && n in t.nodes && Scheduled(t, n) && outcome in OutcomesOf(n.kind)
    ensures AlwaysSelects(t, Outbound(t, n.key), outcome) <==> Dispatchable(Outbound(t, n.key), outcome)
  {
    var edges := Outbound(t, n.key);
    var c := CoveringEdge(t, n, outcome);
    AlwaysSelectsMeansFalls(t, edges, outcome);
    CoveredFalls(edges, outcome, c);
  }

  /** What acceptance gives a scheduled node: distinct edges, one of them covering each outcome. */
  lemma CoveringEdge(t: Template, n: Node, outcome: Outcome) returns (c: Edge)
    requires ReferencesOk(t) && CoverageOk(t)
    requires n in t.nodes && Scheduled(t, n) && outcome in OutcomesOf(n.kind)
    ensures NoDuplicates(Outbound(t, n.key)) && Covering(Outbound(t, n.key), outcome) == [c]
    ensures EdgeOk(t, c)
  {
    EdgesAreDistinct(t);
    OutboundIsDistinct(t, n.key);
    assert NodeCovered(t, n);
    c := Covering(Outbound(t, n.key), outcome)[0];
    assert c in Covering(Outbound(t, n.key), outcome);
  }

  /** Everything the coverage rule looks at is also answered by the scheduler. */
  ghost predicate EveryOutcomeDispatchable(t: Template) {
    forall n, outcome :: n in t.nodes && Scheduled(t, n) && outcome in OutcomesOf(n.kind) ==>
                           Dispatchable(Outbound(t, n.key), outcome)
  }
}
