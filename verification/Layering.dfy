/**
 Longest-path layering by bounded in-place relaxation (apps/ui/src/graphLayout.ts).

 A walk is measured in edges: `p` with `|p|` nodes has `|p| - 1` of them. `Relax` is the
 source's two nested loops; what it computes is stated against walks only.
 */
module Layering {
  import opened Sequences

  type Id = string

  datatype Edge = Edge(source: Id, target: Id)

  type Layers = map<Id, nat>

  // ---------------------------------------------------------------- walks

  ghost function Last(p: seq<Id>): Id
    requires |p| > 0
  {
    p[|p| - 1]
  }

  /** `p` follows forward edges from its first node to its last. */
  ghost predicate Walk(forward: seq<Edge>, p: seq<Id>) {
    |p| > 0 &&
    (|p| == 1 || (Walk(forward, p[..|p| - 1]) && Edge(p[|p| - 2], p[|p| - 1]) in forward))
  }

  ghost predicate WalkInto(forward: seq<Edge>, p: seq<Id>, v: Id) {
    Walk(forward, p) && Last(p) == v
  }

  ghost predicate Acyclic(forward: seq<Edge>) {
    forall p :: Walk(forward, p) && |p| > 1 ==> p[0] != Last(p)
  }

  ghost predicate HasWalk(forward: seq<Edge>, v: Id, n: nat) {
    exists p :: WalkInto(forward, p, v) && |p| == n + 1
  }

  /** `n` is the number of edges of a longest walk into `v`. */
  ghost predicate Longest(forward: seq<Edge>, v: Id, n: nat) {
    && HasWalk(forward, v, n)
    && (forall m: nat :: HasWalk(forward, v, m) ==> m <= n)
  }

  ghost predicate EndpointsIn(forward: seq<Edge>, ids: set<Id>) {
    forall e :: e in forward ==> e.source in ids && e.target in ids
  }

  ghost predicate Rightward(forward: seq<Edge>, layers: Layers) {
    forall e :: e in forward ==>
                  e.source in layers && e.target in layers && layers[e.source] < layers[e.target]
  }

  lemma ExtendWalk(forward: seq<Edge>, p: seq<Id>, v: Id)
    requires Walk(forward, p) && Edge(Last(p), v) in forward
    ensures WalkInto(forward, p + [v], v)
  {
    assert (p + [v])[..|p|] == p;
  }

  lemma {:induction false} WalkSuffix(forward: seq<Edge>, p: seq<Id>, i: nat)
    requires Walk(forward, p) && i < |p|
    ensures WalkInto(forward, p[i..], Last(p))
  {
    if i < |p| - 1 {
      var q := p[..|p| - 1];
      WalkSuffix(forward, q, i);
      ExtendWalk(forward, q[i..], Last(p));
      assert q[i..] + [Last(p)] == p[i..];
    }
  }

  lemma {:induction false} WalkPrefix(forward: seq<Edge>, p: seq<Id>, j: nat)
    requires Walk(forward, p) && 0 < j <= |p|
    ensures Walk(forward, p[..j])
    decreases |p|
  {
    if j < |p| {
      var q := p[..|p| - 1];
      WalkPrefix(forward, q, j);
      assert q[..j] == p[..j];
    } else {
      assert p[..j] == p;
    }
  }

  lemma {:induction false} WalkNodes(forward: seq<Edge>, p: seq<Id>, ids: set<Id>)
    requires Walk(forward, p) && EndpointsIn(forward, ids) && Last(p) in ids
    ensures forall i :: 0 <= i < |p| ==> p[i] in ids
  {
    if |p| > 1 {
      assert Edge(p[|p| - 2], p[|p| - 1]) in forward;
      WalkNodes(forward, p[..|p| - 1], ids);
      forall i | 0 <= i < |p|
        ensures p[i] in ids
      {
        if i < |p| - 1 { assert p[i] == p[..|p| - 1][i]; }
      }
    }
  }

  lemma {:induction false} DistinctFits<T>(s: seq<T>, ids: set<T>)
    requires NoDuplicates(s) && forall i :: 0 <= i < |s| ==> s[i] in ids
    ensures |s| <= |ids|
  {
    if |s| > 0 {
      var x := s[|s| - 1];
      DistinctFits(s[..|s| - 1], ids - {x});
    }
  }

  lemma NoRepeat(forward: seq<Edge>, p: seq<Id>, i: nat, j: nat)
    requires Acyclic(forward) && Walk(forward, p) && i < j < |p|
    ensures p[i] != p[j]
  {
    WalkPrefix(forward, p, j + 1);
    var q := p[..j + 1];
    WalkSuffix(forward, q, i);
    var cycle := q[i..];
    assert cycle[0] == p[i] && Last(cycle) == p[j];
  }

  /** In an acyclic graph no walk visits a node twice, so it has at most `|ids|` nodes. */
  lemma AcyclicWalksAreShort(forward: seq<Edge>, p: seq<Id>, ids: set<Id>)
    requires Acyclic(forward) && Walk(forward, p) && EndpointsIn(forward, ids) && Last(p) in ids
    ensures |p| <= |ids|
  {
    forall i, j | 0 <= i < j < |p|
      ensures p[i] != p[j]
    {
      NoRepeat(forward, p, i, j);
    }
    WalkNodes(forward, p, ids);
    DistinctFits(p, ids);
  }

  // ---------------------------------------------------------------- relaxation invariants

  /** No layer claims more than some walk justifies. */
  ghost predicate Sound(forward: seq<Edge>, layers: Layers) {
    forall v :: v in layers ==> HasWalk(forward, v, layers[v])
  }

  /** Every walk of at most `k` edges is accounted for. */
  ghost predicate Covers(forward: seq<Edge>, layers: Layers, k: nat) {
    forall v, n: nat :: v in layers && n <= k && HasWalk(forward, v, n) ==> n <= layers[v]
  }

  /** What relaxing the first `j` edges guarantees relative to the layers before the pass. */
  ghost predicate PassedOver(forward: seq<Edge>, j: nat, before: Layers, after: Layers)
    requires j <= |forward| && EndpointsIn(forward, before.Keys)
  {
    && before.Keys == after.Keys
    && (forall v :: v in before ==> before[v] <= after[v])
    && (forall i :: 0 <= i < j ==> before[forward[i].source] + 1 <= after[forward[i].target])
  }

  lemma SoundStep(forward: seq<Edge>, layers: Layers, e: Edge)
    requires Sound(forward, layers) && e in forward && e.source in layers
    ensures Sound(forward, layers[e.target := layers[e.source] + 1])
  {
    var p :| WalkInto(forward, p, e.source) && |p| == layers[e.source] + 1;
    ExtendWalk(forward, p, e.target);
    assert HasWalk(forward, e.target, layers[e.source] + 1);
  }

  lemma CoversStep(forward: seq<Edge>, before: Layers, after: Layers, k: nat)
    requires EndpointsIn(forward, before.Keys)
    requires Covers(forward, before, k) && PassedOver(forward, |forward|, before, after)
    ensures Covers(forward, after, k + 1)
  {
    forall v, n: nat | v in after && n <= k + 1 && HasWalk(forward, v, n)
      ensures n <= after[v]
    {
      var p :| WalkInto(forward, p, v) && |p| == n + 1;
      if n > 0 {
        var q := p[..n];
        var i :| 0 <= i < |forward| && forward[i] == Edge(Last(q), v);
        assert WalkInto(forward, q, Last(q)) && HasWalk(forward, Last(q), n - 1);
        assert n - 1 <= before[Last(q)];
      }
    }
  }

  lemma {:induction false} RightwardCovers(forward: seq<Edge>, layers: Layers, p: seq<Id>)
    requires EndpointsIn(forward, layers.Keys) && Rightward(forward, layers)
    requires Walk(forward, p) && Last(p) in layers
    ensures p[0] in layers && layers[p[0]] + |p| - 1 <= layers[Last(p)]
  {
    if |p| > 1 {
      var q := p[..|p| - 1];
      assert Edge(Last(q), Last(p)) in forward;
      RightwardCovers(forward, layers, q);
    }
  }

  lemma RightwardImpliesAcyclic(forward: seq<Edge>, layers: Layers)
    requires EndpointsIn(forward, layers.Keys) && Rightward(forward, layers)
    ensures Acyclic(forward)
  {
    forall p | Walk(forward, p) && |p| > 1
      ensures p[0] != Last(p)
    {
      assert Edge(p[|p| - 2], p[|p| - 1]) in forward;
      RightwardCovers(forward, layers, p);
    }
  }

  lemma LongestImpliesRightward(forward: seq<Edge>, layers: Layers)
    requires EndpointsIn(forward, layers.Keys)
    requires forall v :: v in layers ==> Longest(forward, v, layers[v])
    ensures Rightward(forward, layers)
  {
    forall e | e in forward
      ensures layers[e.source] < layers[e.target]
    {
      assert Longest(forward, e.source, layers[e.source]);
      var p :| WalkInto(forward, p, e.source) && |p| == layers[e.source] + 1;
      ExtendWalk(forward, p, e.target);
      assert HasWalk(forward, e.target, layers[e.source] + 1);
      assert Longest(forward, e.target, layers[e.target]);
    }
  }

  /** Enough passes, or one pass without a change, leave the longest-walk layers behind. */
  lemma Converged(forward: seq<Edge>, layers: Layers, passes: nat)
    requires EndpointsIn(forward, layers.Keys) && Sound(forward, layers)
    requires Rightward(forward, layers) || (Covers(forward, layers, passes) && |layers.Keys| <= passes + 1)
    requires Acyclic(forward)
    ensures forall v :: v in layers ==> Longest(forward, v, layers[v])
  {
    forall v | v in layers
      ensures Longest(forward, v, layers[v])
    {
      forall m: nat | HasWalk(forward, v, m)
        ensures m <= layers[v]
      {
        var p :| WalkInto(forward, p, v) && |p| == m + 1;
        if Rightward(forward, layers) {
          RightwardCovers(forward, layers, p);
        } else {
          AcyclicWalksAreShort(forward, p, layers.Keys);
        }
      }
    }
  }

  lemma Settled(forward: seq<Edge>, layers: Layers, passes: nat)
    requires EndpointsIn(forward, layers.Keys) && Sound(forward, layers)
    requires Rightward(forward, layers) || (Covers(forward, layers, passes) && |layers.Keys| <= passes + 1)
    ensures Acyclic(forward) <==> Rightward(forward, layers)
    ensures Acyclic(forward) ==> forall v :: v in layers ==> Longest(forward, v, layers[v])
  {
    if Acyclic(forward) {
      Converged(forward, layers, passes);
      LongestImpliesRightward(forward, layers);
    }
    if Rightward(forward, layers) { RightwardImpliesAcyclic(forward, layers); }
  }

  lemma StartsSound(forward: seq<Edge>, layers: Layers)
    requires forall v :: v in layers ==> layers[v] == 0
    ensures Sound(forward, layers) && Covers(forward, layers, 0)
  {
    forall v | v in layers ensures HasWalk(forward, v, 0) { assert WalkInto(forward, [v], v); }
  }

  // ---------------------------------------------------------------- the relaxation loops

  /** The body of the inner loop: raise the target when the source proposes more. */
  function RelaxEdge(layers: Layers, e: Edge): Layers
    requires e.source in layers && e.target in layers
  {
    var proposed := layers[e.source] + 1;
    if proposed > layers[e.target] then layers[e.target := proposed] else layers
  }

  lemma PassedOverStep(forward: seq<Edge>, j: nat, before: Layers, layers: Layers)
    requires j < |forward| && EndpointsIn(forward, before.Keys) && PassedOver(forward, j, before, layers)
    ensures forward[j] in forward
    ensures PassedOver(forward, j + 1, before, RelaxEdge(layers, forward[j]))
  {
    assert forward[j] in forward;
    assert before[forward[j].source] <= layers[forward[j].source];
  }

  lemma RelaxEdgeStep(forward: seq<Edge>, j: nat, before: Layers, layers: Layers, cap: nat)
    requires j < |forward| && EndpointsIn(forward, before.Keys) && PassedOver(forward, j, before, layers)
    requires Sound(forward, layers) && forall v :: v in layers ==> layers[v] <= cap + j
    ensures forward[j] in forward
    ensures var after := RelaxEdge(layers, forward[j]);
            && PassedOver(forward, j + 1, before, after) && Sound(forward, after)
            && (forall v :: v in after ==> after[v] <= cap + j + 1)
  {
    PassedOverStep(forward, j, before, layers);
    SoundStep(forward, layers, forward[j]);
    assert layers[forward[j].source] <= cap + j;
  }

  lemma UnchangedIsRightward(forward: seq<Edge>, layers: Layers)
    requires EndpointsIn(forward, layers.Keys) && PassedOver(forward, |forward|, layers, layers)
    ensures Rightward(forward, layers)
  {
    forall e | e in forward
      ensures layers[e.source] < layers[e.target]
    {
      var i :| 0 <= i < |forward| && forward[i] == e;
    }
  }

  /** One pass of the inner loop, updating the layers edge by edge in place. */
  method RelaxPass(forward: seq<Edge>, before: Layers, ghost cap: nat) returns (layers: Layers, changed: bool)
    requires EndpointsIn(forward, before.Keys) && Sound(forward, before)
    requires forall v :: v in before ==> before[v] <= cap
    ensures Sound(forward, layers) && PassedOver(forward, |forward|, before, layers)
    ensures forall v :: v in layers ==> layers[v] <= cap + |forward|
    ensures !changed ==> Rightward(forward, layers)
  {
    layers, changed := before, false;
    for j := 0 to |forward|
      invariant Sound(forward, layers) && PassedOver(forward, j, before, layers)
      invariant !changed ==> layers == before
      invariant forall v :: v in layers ==> layers[v] <= cap + j
    {
      var e := forward[j];
      RelaxEdgeStep(forward, j, before, layers, cap);
      if layers[e.source] + 1 > layers[e.target] { changed := true; }
      layers := RelaxEdge(layers, e);
    }
    if !changed { UnchangedIsRightward(forward, layers); }
  }

  /** The outer loop: at most `limit` passes, fewer when a pass changes nothing. */
  method RelaxPasses(limit: nat, forward: seq<Edge>, start: Layers) returns (layers: Layers, ghost passes: nat)
    requires EndpointsIn(forward, start.Keys) && Sound(forward, start) && Covers(forward, start, 0)
    requires forall v :: v in start ==> start[v] == 0
    ensures layers.Keys == start.Keys && Sound(forward, layers) && passes <= limit
    ensures Rightward(forward, layers) || (Covers(forward, layers, passes) && passes == limit)
    ensures forall v :: v in layers ==> layers[v] <= Repeated(passes, |forward|)
  {
    layers, passes := start, 0;
    for pass := 0 to limit
      invariant passes == pass && layers.Keys == start.Keys
      invariant Sound(forward, layers) && Covers(forward, layers, pass)
      invariant forall v :: v in layers ==> layers[v] <= Repeated(pass, |forward|)
    {
      var relaxed, changed := RelaxPass(forward, layers, Repeated(pass, |forward|));
      CoversStep(forward, layers, relaxed, pass);
      layers, passes := relaxed, pass + 1;
      if !changed { return; }
    }
  }

  /**
   The bounded relaxation. On every input it stops with layers no larger than
   `|topLevel| * |forward|`; every edge ends up strictly rightward exactly when the forward
   edges are acyclic, and then each layer is the longest walk into its node.
   */
  method Relax(topLevel: seq<Id>, forward: seq<Edge>) returns (layers: Layers)
    requires EndpointsIn(forward, set v | v in topLevel)
    ensures layers.Keys == set v | v in topLevel
    ensures forall v :: v in layers ==> layers[v] <= |topLevel| * |forward|
    ensures forall v :: v in layers ==> HasWalk(forward, v, layers[v])
    ensures Acyclic(forward) <==> Rightward(forward, layers)
    ensures Acyclic(forward) ==> forall v :: v in layers ==> Longest(forward, v, layers[v])
  {
    var start: Layers := map v | v in topLevel :: 0;
    StartsSound(forward, start);
    KeysFit(topLevel, start.Keys);
    ghost var passes;
    layers, passes := RelaxPasses(|topLevel|, forward, start);
    RepeatedIsProduct(passes, |topLevel|, |forward|);
    Settled(forward, layers, passes);
  }

  lemma {:induction false} KeysFit(s: seq<Id>, ids: set<Id>)
    requires ids == set v | v in s
    ensures |ids| <= |s|
  {
    if |s| > 0 {
      var rest := s[..|s| - 1];
      var fewer := set v | v in rest;
      KeysFit(rest, fewer);
      assert s == rest + [s[|s| - 1]];
      assert ids == fewer + {s[|s| - 1]};
    } else {
      assert ids == {};
    }
  }

  /** `k` added `n` times: the most `n` passes of `k` relaxations can raise a layer by. */
  ghost function Repeated(n: nat, k: nat): nat {
    if n == 0 then 0 else Repeated(n - 1, k) + k
  }

  lemma {:induction false} RepeatedIsProduct(n: nat, most: nat, k: nat)
    requires n <= most
    ensures Repeated(n, k) <= most * k
  {
    if n > 0 {
      RepeatedIsProduct(n - 1, most - 1, k);
      assert most * k == (most - 1) * k + k;
    }
  }
}
