/**
 The validator's coverage rule (src/accretion/templates.py), told on the edges of a template: which
 edges a node outside loop regions must have, kind by kind. Retries never count toward FAIL, so that
 a spent retry still leaves a way on.
 */
module CoverageTable {
  import opened Sequences
  import opened Reachability
  import opened Templates
  import opened Retries

  // ---------------------------------------------------------------- the table

  /** Exactly one edge of the template leaves the node and is as described. */
  ghost predicate ExactlyOne(t: Template, key: Key, fits: Edge -> bool) {
    var leaves := (e: Edge) => e.source == key && fits(e);
    exists i: nat :: OnlyAt(t.edges, leaves, i)
  }

  ghost predicate OneForSuccess(t: Template, key: Key) {
    ExactlyOne(t, key, (e: Edge) => (e.kind == Normal && e.guard == None) || e.guard == Some(OnSuccess))
  }

  ghost predicate OneForFail(t: Template, key: Key) {
    ExactlyOne(t, key, (e: Edge) => e.kind != Retry && e.guard in {Some(OnFail), Some(OnReplanExhausted)})
  }

  ghost predicate OneFor(t: Template, key: Key, guard: Guard) {
    ExactlyOne(t, key, (e: Edge) => e.guard == Some(guard))
  }

  predicate IsRetryOf(e: Edge, key: Key) {
    e.source == key && e.kind == Retry
  }

  ghost predicate RetryGuardsDiffer(t: Template, key: Key) {
    forall i, j :: 0 <= i < j < |t.edges| && IsRetryOf(t.edges[i], key) && IsRetryOf(t.edges[j], key) ==>
                     t.edges[i].guard != t.edges[j].guard
  }

  /** What a node of a kind needs among its edges. */
  ghost predicate Equipped(t: Template, n: Node) {
    && RetryGuardsDiffer(t, n.key)
    && match n.kind
       case Task => OneForSuccess(t, n.key)
       case Tool => OneForSuccess(t, n.key)
       case Join => OneForSuccess(t, n.key)
       case Agent => OneForSuccess(t, n.key) && OneForFail(t, n.key)
       case Loop => OneForSuccess(t, n.key) && OneForFail(t, n.key)
       case Verifier => OneForSuccess(t, n.key) && OneForFail(t, n.key) && OneFor(t, n.key, OnInconclusive)
       case Gate => OneFor(t, n.key, OnApproved) && OneFor(t, n.key, OnDenied)
       case Terminal => true
  }

  /** No loop of the template lists the node in its region. */
  ghost predicate OutsideRegions(t: Template, key: Key) {
    forall m :: m in t.nodes && m.loop.Some? ==> key !in m.loop.value.region
  }

  // ---------------------------------------------------------------- it is the coverage rule

  lemma OneCovers(t: Template, key: Key, outcome: Outcome, fits: Edge -> bool)
    requires forall e :: fits(e) <==> Covers(e, outcome)
    ensures |Covering(Outbound(t, key), outcome)| == 1 <==> ExactlyOne(t, key, fits)
  {
    var leaves, covers := (e: Edge) => e.source == key, (e: Edge) => Covers(e, outcome);
    var both := (e: Edge) => e.source == key && fits(e);
    assert Outbound(t, key) == Filter(t.edges, leaves);
    assert Covering(Outbound(t, key), outcome) == Filter(Outbound(t, key), covers);
    FilterTwice(t.edges, leaves, covers, both);
    if |Filter(t.edges, both)| == 1 { var i := KeptAlone(t.edges, both); }
    if i: nat :| OnlyAt(t.edges, both, i) { FilterSole(t.edges, both, i); }
  }

  lemma SuccessCovered(t: Template, key: Key)
    ensures |Covering(Outbound(t, key), Success)| == 1 <==> OneForSuccess(t, key)
  {
    OneCovers(t, key, Success, (e: Edge) => (e.kind == Normal && e.guard == None) || e.guard == Some(OnSuccess));
  }

  lemma FailCovered(t: Template, key: Key)
    ensures |Covering(Outbound(t, key), Fail)| == 1 <==> OneForFail(t, key)
  {
    OneCovers(t, key, Fail, (e: Edge) => e.kind != Retry && e.guard in {Some(OnFail), Some(OnReplanExhausted)});
  }

  lemma OtherCovered(t: Template, key: Key, outcome: Outcome, guard: Guard)
    requires (outcome, guard) in {(Inconclusive, OnInconclusive), (Approved, OnApproved), (Denied, OnDenied)}
    ensures |Covering(Outbound(t, key), outcome)| == 1 <==> OneFor(t, key, guard)
  {
    OneCovers(t, key, outcome, (e: Edge) => e.guard == Some(guard));
  }

  /** Distinct elements that pass a condition keep their order when the rest is left out. */
  lemma {:induction false} FilterPairs<T>(s: seq<T>, keep: T -> bool, i: nat, j: nat) returns (a: nat, b: nat)
    requires i < j < |s| && keep(s[i]) && keep(s[j])
    ensures a < b < |Filter(s, keep)| && Filter(s, keep)[a] == s[i] && Filter(s, keep)[b] == s[j]
  {
    var rest := s[..|s| - 1];
    if j < |s| - 1 {
      a, b := FilterPairs(rest, keep, i, j);
    } else {
      a := FilterOne(rest, keep, i);
      b := |Filter(rest, keep)|;
    }
  }

  lemma {:induction false} FilterOne<T>(s: seq<T>, keep: T -> bool, i: nat) returns (a: nat)
    requires i < |s| && keep(s[i])
    ensures a < |Filter(s, keep)| && Filter(s, keep)[a] == s[i]
  {
    var rest := s[..|s| - 1];
    if i < |s| - 1 { a := FilterOne(rest, keep, i); } else { a := |Filter(rest, keep)|; }
  }

  lemma {:induction false} FilteredPairs<T>(s: seq<T>, keep: T -> bool, a: nat, b: nat) returns (i: nat, j: nat)
    requires a < b < |Filter(s, keep)|
    ensures i < j < |s| && keep(s[i]) && keep(s[j]) && Filter(s, keep)[a] == s[i] && Filter(s, keep)[b] == s[j]
  {
    var rest := s[..|s| - 1];
    if b < |Filter(rest, keep)| {
      i, j := FilteredPairs(rest, keep, a, b);
    } else {
      i := FilteredOne(rest, keep, a);
      j := |s| - 1;
    }
  }

  lemma {:induction false} FilteredOne<T>(s: seq<T>, keep: T -> bool, a: nat) returns (i: nat)
    requires a < |Filter(s, keep)|
    ensures i < |s| && keep(s[i]) && Filter(s, keep)[a] == s[i]
  {
    var rest := s[..|s| - 1];
    if a < |Filter(rest, keep)| { i := FilteredOne(rest, keep, a); } else { i := |s| - 1; }
  }

  lemma RetriesDistinctMeans(t: Template, key: Key)
    ensures RetriesDistinct(Outbound(t, key)) <==> RetryGuardsDiffer(t, key)
  {
    var leaves := (e: Edge) => e.source == key;
    var out := Outbound(t, key);
    assert out == Filter(t.edges, leaves);
    if RetriesDistinct(out) {
      forall i, j | 0 <= i < j < |t.edges| && IsRetryOf(t.edges[i], key) && IsRetryOf(t.edges[j], key)
        ensures t.edges[i].guard != t.edges[j].guard
      {
        var a, b := FilterPairs(t.edges, leaves, i, j);
      }
    }
    if RetryGuardsDiffer(t, key) {
      forall a, b | 0 <= a < b < |out| && out[a].kind == Retry && out[b].kind == Retry
        ensures out[a].guard != out[b].guard
      {
        var i, j := FilteredPairs(t.edges, leaves, a, b);
      }
    }
  }

  lemma NodeCoveredMeans(t: Template, n: Node)
    requires n.kind != Terminal
    ensures NodeCovered(t, n) <==> Equipped(t, n)
  {
    RetriesDistinctMeans(t, n.key);
    SuccessCovered(t, n.key);
    FailCovered(t, n.key);
    OtherCovered(t, n.key, Inconclusive, OnInconclusive);
    OtherCovered(t, n.key, Approved, OnApproved);
    OtherCovered(t, n.key, Denied, OnDenied);
  }

  /** A template has the coverage the validator asks for exactly when every node outside regions is equipped. */
  lemma CoverageIsTheTable(t: Template)
    ensures CoverageOk(t) <==>
              forall n :: n in t.nodes && n.kind != Terminal && OutsideRegions(t, n.key) ==> Equipped(t, n)
  {
    forall n | n in t.nodes && n.kind != Terminal
      ensures NodeCovered(t, n) <==> Equipped(t, n)
      ensures Scheduled(t, n) <==> OutsideRegions(t, n.key)
    {
      NodeCoveredMeans(t, n);
    }
  }

  /** So in an accepted template every node outside regions has these edges, and no others of their kind. */
  lemma AcceptedIsEquipped(t: Template, n: Node)
    requires WellFormed(t) && n in t.nodes && n.kind != Terminal && OutsideRegions(t, n.key)
    ensures Equipped(t, n)
  {
    CoverageIsTheTable(t);
  }

  // ---------------------------------------------------------------- retries are no coverage

  function WithEdge(t: Template, e: Edge): Template {
    t.(edges := t.edges + [e])
  }

  /** A retry on a failure or a replan, with a guard no other retry of its node has. */
  ghost predicate MoreRetry(t: Template, e: Edge) {
    && e.kind == Retry && e.guard in {Some(OnFail), Some(OnReplanAvailable), Some(OnReplanExhausted)}
    && forall d :: d in t.edges && IsRetryOf(d, e.source) ==> d.guard != e.guard
  }

  lemma OnlyBefore(s: seq<Edge>, e: Edge, keep: Edge -> bool, i: nat)
    requires !keep(e)
    ensures OnlyAt(s + [e], keep, i) <==> OnlyAt(s, keep, i)
  {
    if OnlyAt(s + [e], keep, i) {
      assert (s + [e])[|s|] == e && i < |s|;
      assert forall j :: 0 <= j < |s| ==> (s + [e])[j] == s[j];
    }
    if OnlyAt(s, keep, i) {
      forall j | 0 <= j < |s + [e]| ensures keep((s + [e])[j]) <==> j == i {
        if j < |s| { assert (s + [e])[j] == s[j]; }
      }
    }
  }

  lemma SameCount(t: Template, e: Edge, key: Key, fits: Edge -> bool)
    requires !(e.source == key && fits(e))
    ensures ExactlyOne(WithEdge(t, e), key, fits) <==> ExactlyOne(t, key, fits)
  {
    var leaves := (d: Edge) => d.source == key && fits(d);
    forall i: nat ensures OnlyAt(t.edges + [e], leaves, i) <==> OnlyAt(t.edges, leaves, i) {
      OnlyBefore(t.edges, e, leaves, i);
    }
  }

  lemma SameRetryGuards(t: Template, e: Edge, key: Key)
    requires MoreRetry(t, e)
    ensures RetryGuardsDiffer(WithEdge(t, e), key) <==> RetryGuardsDiffer(t, key)
  {
    var more := t.edges + [e];
    if RetryGuardsDiffer(t, key) {
      forall i, j | 0 <= i < j < |more| && IsRetryOf(more[i], key) && IsRetryOf(more[j], key)
        ensures more[i].guard != more[j].guard
      {
        assert more[i] == t.edges[i] && more[i] in t.edges;
      }
    }
    if RetryGuardsDiffer(WithEdge(t, e), key) {
      forall i, j | 0 <= i < j < |t.edges| && IsRetryOf(t.edges[i], key) && IsRetryOf(t.edges[j], key)
        ensures t.edges[i].guard != t.edges[j].guard
      {
        assert more[i] == t.edges[i] && more[j] == t.edges[j];
      }
    }
  }

  lemma StillEquipped(t: Template, e: Edge, n: Node)
    requires MoreRetry(t, e)
    ensures Equipped(WithEdge(t, e), n) <==> Equipped(t, n)
  {
    SameRetryGuards(t, e, n.key);
    SameCount(t, e, n.key, (d: Edge) => (d.kind == Normal && d.guard == None) || d.guard == Some(OnSuccess));
    SameCount(t, e, n.key, (d: Edge) => d.kind != Retry && d.guard in {Some(OnFail), Some(OnReplanExhausted)});
    SameCount(t, e, n.key, (d: Edge) => d.guard == Some(OnInconclusive));
    SameCount(t, e, n.key, (d: Edge) => d.guard == Some(OnApproved));
    SameCount(t, e, n.key, (d: Edge) => d.guard == Some(OnDenied));
  }

  /** One more such retry neither covers anything nor uncovers it. */
  lemma RetryChangesNoCoverage(t: Template, e: Edge)
    requires MoreRetry(t, e)
    ensures CoverageOk(WithEdge(t, e)) <==> CoverageOk(t)
  {
    CoverageIsTheTable(t);
    CoverageIsTheTable(WithEdge(t, e));
    forall n ensures Equipped(WithEdge(t, e), n) <==> Equipped(t, n) { StillEquipped(t, e, n); }
  }
}
