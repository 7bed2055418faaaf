/** Reachability over successor lists, and the worklist search that computes it. */
module Reachability {

  type Key = string

  type Successors<T> = map<T, seq<T>>

  function KeysOf<T(!new)>(keys: seq<T>): set<T> {
    set k | k in keys
  }

  ghost predicate Follows<T(!new)>(next: Successors<T>, u: T, v: T) {
    u in next && v in next[u]
  }

  /** `v` is at most `n` steps from a source. */
  ghost predicate Within<T(!new)>(next: Successors<T>, sources: set<T>, v: T, n: nat)
    decreases n
  {
    v in sources || (n > 0 && exists u :: Within(next, sources, u, n - 1) && Follows(next, u, v))
  }

  ghost predicate Reachable<T(!new)>(next: Successors<T>, sources: set<T>, v: T) {
    exists n: nat :: Within(next, sources, v, n)
  }

  ghost predicate Closed<T(!new)>(next: Successors<T>, keys: set<T>) {
    forall u, v :: u in keys && Follows(next, u, v) ==> v in keys
  }

  lemma ReachableStep<T(!new)>(next: Successors<T>, sources: set<T>, u: T, v: T)
    requires Reachable(next, sources, u) && Follows(next, u, v)
    ensures Reachable(next, sources, v)
  {
    var n: nat :| Within(next, sources, u, n);
    assert Within(next, sources, v, n + 1);
  }

  lemma {:induction false} ClosedHoldsWithin<T(!new)>(next: Successors<T>, sources: set<T>, keys: set<T>, v: T, n: nat)
    requires sources <= keys && Closed(next, keys) && Within(next, sources, v, n)
    ensures v in keys
    decreases n
  {
    if v !in sources {
      var u :| Within(next, sources, u, n - 1) && Follows(next, u, v);
      ClosedHoldsWithin(next, sources, keys, u, n - 1);
    }
  }

  /** The reachable keys are the least closed set around the sources. */
  lemma ClosedHoldsReachable<T(!new)>(next: Successors<T>, sources: set<T>, keys: set<T>)
    requires sources <= keys && Closed(next, keys)
    ensures forall v :: Reachable(next, sources, v) ==> v in keys
  {
    forall v | Reachable(next, sources, v)
      ensures v in keys
    {
      var n: nat :| Within(next, sources, v, n);
      ClosedHoldsWithin(next, sources, keys, v, n);
    }
  }

  lemma {:induction false} WithinGrows<T(!new)>(next: Successors<T>, more: Successors<T>, sources: set<T>, v: T, n: nat)
    requires Within(next, sources, v, n)
    requires forall a, b :: Follows(next, a, b) ==> Follows(more, a, b)
    ensures Within(more, sources, v, n)
    decreases n
  {
    if v !in sources {
      var u :| Within(next, sources, u, n - 1) && Follows(next, u, v);
      WithinGrows(next, more, sources, u, n - 1);
    }
  }

  /** Adding successors never makes a key unreachable. */
  lemma ReachableGrows<T(!new)>(next: Successors<T>, more: Successors<T>, sources: set<T>, v: T)
    requires Reachable(next, sources, v)
    requires forall a, b :: Follows(next, a, b) ==> Follows(more, a, b)
    ensures Reachable(more, sources, v)
  {
    var n: nat :| Within(next, sources, v, n);
    WithinGrows(next, more, sources, v, n);
  }

  // ---------------------------------------------------------------- worklist search

  ghost function Mentioned<T(!new)>(next: Successors<T>): set<T> {
    set u, v | u in next && v in next[u] :: v
  }

  ghost predicate AllReachable<T(!new)>(next: Successors<T>, sources: set<T>, keys: set<T>) {
    forall v :: v in keys ==> Reachable(next, sources, v)
  }

  /** Everything reached and no longer waiting has had its successors added. */
  ghost predicate Expanded<T(!new)>(next: Successors<T>, reached: set<T>, frontier: seq<T>) {
    forall u, v :: u in reached && u !in frontier && Follows(next, u, v) ==> v in reached
  }

  /** The body of the search loop: add the unseen successors of one key to both collections. */
  method Push<T(!new)>(successors: seq<T>, reached0: set<T>, frontier0: seq<T>)
    returns (reached: set<T>, frontier: seq<T>)
    ensures reached == reached0 + KeysOf(successors)
    ensures forall v :: v in frontier <==> v in frontier0 || v in reached - reached0
    ensures reached == reached0 ==> frontier == frontier0
  {
    reached, frontier := reached0, frontier0;
    for i := 0 to |successors|
      invariant reached == reached0 + KeysOf(successors[..i])
      invariant forall v :: v in frontier <==> v in frontier0 || v in reached - reached0
      invariant reached == reached0 ==> frontier == frontier0
    {
      assert successors[..i + 1] == successors[..i] + [successors[i]];
      if successors[i] !in reached {
        reached, frontier := reached + {successors[i]}, frontier + [successors[i]];
      }
    }
    assert successors[..|successors|] == successors;
  }

  ghost predicate LookupFails<T(!new)>(next: Successors<T>, sources: set<T>) {
    exists v :: Reachable(next, sources, v) && v !in next
  }

  /**
   Breadth-first search that looks up the successors of every key it takes off the queue. It
   fails on exactly the inputs from which a key without a successor entry is reachable;
   otherwise it returns exactly the reachable keys.
   */
  method Search<T(!new)>(next: Successors<T>, start: seq<T>) returns (reached: set<T>, failed: bool)
    ensures failed <==> LookupFails(next, KeysOf(start))
    ensures !failed ==> forall v :: v in reached <==> Reachable(next, KeysOf(start), v)
  {
    ghost var sources := KeysOf(start);
    ghost var universe := sources + Mentioned(next);
    reached, failed := KeysOf(start), false;
    var frontier := start;
    assert AllReachable(next, sources, reached) by {
      forall v | v in sources ensures Reachable(next, sources, v) { assert Within(next, sources, v, 0); }
    }
    while frontier != []
      invariant sources <= reached <= universe
      invariant forall v :: v in frontier ==> v in reached
      invariant forall v :: v in reached && v !in frontier ==> v in next
      invariant AllReachable(next, sources, reached) && Expanded(next, reached, frontier)
      decreases universe - reached, |frontier|
    {
      var current := frontier[0];
      assert frontier == [current] + frontier[1..];
      if current !in next {
        failed := true;
        return;
      }
      forall v | Follows(next, current, v) ensures Reachable(next, sources, v) {
        ReachableStep(next, sources, current, v);
      }
      reached, frontier := Push(next[current], reached, frontier[1..]);
    }
    ClosedHoldsReachable(next, sources, reached);
  }

  /** From known sources, the search fails exactly when some reachable key has an unknown successor. */
  lemma FailsAtAStep<T(!new)>(next: Successors<T>, sources: set<T>)
    requires sources <= next.Keys
    ensures LookupFails(next, sources) <==>
              exists u, v :: Reachable(next, sources, u) && Follows(next, u, v) && v !in next
  {
    if LookupFails(next, sources) {
      var v :| Reachable(next, sources, v) && v !in next;
      var n: nat :| Within(next, sources, v, n);
      var u :| Within(next, sources, u, n - 1) && Follows(next, u, v);
      assert Reachable(next, sources, u);
    }
    if u, v :| Reachable(next, sources, u) && Follows(next, u, v) && v !in next {
      ReachableStep(next, sources, u, v);
    }
  }
}
