/**
 Attributing node entries to edges (src/accretion/projections.py): exact where the scheduler
 stamped the entry with the edge it came by, a deterministic guess otherwise. Either way entries
 are never invented.
 */
module EdgeCounts {
  import opened Sequences
  import opened Trace
  import opened Projection
  import Templates

  datatype RunEdge = RunEdge(key: Key, target: string, kind: Templates.EdgeKind)

  ghost predicate UniqueEdgeKeys(edges: seq<RunEdge>) {
    forall i, j :: 0 <= i < j < |edges| ==> edges[i].key != edges[j].key
  }

  /** Keys of the edges into a node, in edge order. */
  function InEdges(edges: seq<RunEdge>, target: string): seq<Key> {
    if edges == [] then []
    else
      var last := edges[|edges| - 1];
      InEdges(edges[..|edges| - 1], target) + if last.target == target then [last.key] else []
  }

  function EdgeKeys(edges: seq<RunEdge>): set<Key> {
    set e | e in edges :: e.key
  }

  function Targets(edges: seq<RunEdge>): set<string> {
    set e | e in edges :: e.target
  }

  function LoopKeys(edges: seq<RunEdge>): set<Key> {
    set e | e in edges && (e.kind == Templates.LoopBack || e.kind == Templates.Retry) :: e.key
  }

  ghost function Total(keys: seq<Key>, counts: map<Key, nat>): nat {
    if keys == [] then 0 else Total(keys[..|keys| - 1], counts) + Count(counts, keys[|keys| - 1])
  }

  // ---------------------------------------------------------------- the loops

  predicate Stamped(keys: seq<Key>, via: map<Key, nat>) {
    exists k :: k in keys && Count(via, k) > 0
  }

  function Loops(keys: seq<Key>, loops: set<Key>): seq<Key> {
    Filter(keys, k => k in loops)
  }

  function Plain(keys: seq<Key>, loops: set<Key>): seq<Key> {
    Filter(keys, k => k !in loops)
  }

  /** What the fallback gives one of the edges into a target entered `entries` times. */
  function Share(keys: seq<Key>, loops: set<Key>, entries: nat, k: Key): nat
    requires keys != []
  {
    var plain, loopLike := Plain(keys, loops), Loops(keys, loops);
    if |plain| == 1 && loopLike != [] then
      if k == plain[0] then if entries == 0 then 0 else 1
      else if k == loopLike[0] && entries > 0 then entries - 1
      else 0
    else if k == keys[0] then entries
    else 0
  }

  /** One group of the second loop: the edges into one target, none of them stamped. */
  method Attribute(keys: seq<Key>, loops: set<Key>, entries: nat, before: map<Key, nat>)
    returns (counts: map<Key, nat>)
    requires keys != [] && NoDuplicates(keys) && forall k :: k in keys ==> Count(before, k) == 0
    ensures forall k :: k in keys ==> Count(counts, k) == Share(keys, loops, entries, k)
    ensures forall k :: k !in keys ==> Count(counts, k) == Count(before, k)
    ensures before.Keys <= counts.Keys <= before.Keys + Elements(keys)
  {
    counts := before;
    if entries == 0 { return; }
    var loopLike, plain := Loops(keys, loops), Plain(keys, loops);
    SplitByKind(keys, loops);
    if |keys| == 1 {
      counts := counts[keys[0] := entries];
    } else if |plain| == 1 && loopLike != [] {
      counts := counts[plain[0] := if entries < 1 then entries else 1];
      counts := counts[loopLike[0] := if entries < 1 then 0 else entries - 1];
    } else {
      counts := counts[keys[0] := entries];
    }
  }

  lemma SplitByKind(keys: seq<Key>, loops: set<Key>)
    ensures var plain, loopLike := Plain(keys, loops), Loops(keys, loops);
            && (plain != [] ==> plain[0] in keys && plain[0] !in loops)
            && (loopLike != [] ==> loopLike[0] in keys && loopLike[0] in loops)
            && (plain != [] && loopLike != [] ==> |keys| > 1)
  {
    var plain, loopLike := Plain(keys, loops), Loops(keys, loops);
    FilterMembers(keys, k => k in loops);
    FilterMembers(keys, k => k !in loops);
    assert plain != [] ==> plain[0] in plain;
    assert loopLike != [] ==> loopLike[0] in loopLike;
  }

  /** The position of the one edge that neither loops back nor retries, and of the first one that does. */
  ghost predicate FirstAndAgain(keys: seq<Key>, loops: set<Key>, p: nat, q: nat) {
    && p < |keys| && q < |keys| && p != q
    && (forall i :: 0 <= i < |keys| ==> (keys[i] !in loops <==> i == p))
    && (forall i :: 0 <= i < q ==> keys[i] !in loops)
  }

  /**
   The fallback, by position: where one plain edge stands beside loop-backs and retries, the first
   entry came by the plain edge and all later ones by the first of the others; in any other case
   all entries came by the first edge.
   */
  lemma FallbackExactly(keys: seq<Key>, loops: set<Key>, entries: nat, i: nat)
    requires NoDuplicates(keys) && i < |keys|
    ensures forall p: nat, q: nat :: FirstAndAgain(keys, loops, p, q) ==>
              Share(keys, loops, entries, keys[i]) ==
              if i == p then (if entries == 0 then 0 else 1)
              else if i == q && entries > 0 then entries - 1
              else 0
    ensures (forall p: nat, q: nat :: !FirstAndAgain(keys, loops, p, q)) ==>
              Share(keys, loops, entries, keys[i]) == if i == 0 then entries else 0
  {
    forall p: nat, q: nat | FirstAndAgain(keys, loops, p, q)
      ensures Plain(keys, loops) == [keys[p]] && Loops(keys, loops) != [] && Loops(keys, loops)[0] == keys[q]
    {
      FilterSole(keys, (k: Key) => k !in loops, p);
      FilterHead(keys, (k: Key) => k in loops, q);
    }
    if |Plain(keys, loops)| == 1 && Loops(keys, loops) != [] { var p, q := OneBesideLoops(keys, loops); }
  }

  lemma OneBesideLoops(keys: seq<Key>, loops: set<Key>) returns (p: nat, q: nat)
    requires NoDuplicates(keys) && |Plain(keys, loops)| == 1 && Loops(keys, loops) != []
    ensures FirstAndAgain(keys, loops, p, q)
  {
    FilterMembers(keys, k => k !in loops);
    FilterMembers(keys, k => k in loops);
    var one := Plain(keys, loops)[0];
    assert one in Plain(keys, loops);
    p :| 0 <= p < |keys| && keys[p] == one;
    forall i | 0 <= i < |keys| && i != p ensures keys[i] in loops {
      if keys[i] !in loops {
        FilterSeveral(keys, (k: Key) => k !in loops, if i < p then i else p, if i < p then p else i);
      }
    }
    assert Loops(keys, loops)[0] in Loops(keys, loops);
    var r :| 0 <= r < |keys| && keys[r] in loops;
    q := if p == 0 then 1 else 0;
  }

  /** However the entries are shared out, none is lost and none is invented. */
  lemma SharesAddUp(keys: seq<Key>, loops: set<Key>, entries: nat, counts: map<Key, nat>)
    requires keys != [] && NoDuplicates(keys)
    requires forall k :: k in keys ==> Count(counts, k) == Share(keys, loops, entries, k)
    ensures Total(keys, counts) == entries
  {
    var plain, loopLike := Plain(keys, loops), Loops(keys, loops);
    SplitByKind(keys, loops);
    if |plain| == 1 && loopLike != [] {
      TotalTwo(keys, counts, plain[0], loopLike[0]);
    } else {
      TotalOne(keys, counts, keys[0]);
    }
  }

  lemma {:induction false} TotalZero(keys: seq<Key>, counts: map<Key, nat>)
    requires forall k :: k in keys ==> Count(counts, k) == 0
    ensures Total(keys, counts) == 0
  {
    if keys != [] {
      assert keys[|keys| - 1] in keys;
      TotalZero(keys[..|keys| - 1], counts);
    }
  }

  lemma {:induction false} TotalOne(keys: seq<Key>, counts: map<Key, nat>, one: Key)
    requires NoDuplicates(keys) && forall k :: k in keys && k != one ==> Count(counts, k) == 0
    ensures Total(keys, counts) == if one in keys then Count(counts, one) else 0
  {
    if keys != [] {
      var rest, last := keys[..|keys| - 1], keys[|keys| - 1];
      DropLast(keys);
      TotalOne(rest, counts, one);
    }
  }

  lemma {:induction false} TotalTwo(keys: seq<Key>, counts: map<Key, nat>, one: Key, two: Key)
    requires NoDuplicates(keys) && one != two && one in keys && two in keys
    requires forall k :: k in keys && k != one && k != two ==> Count(counts, k) == 0
    ensures Total(keys, counts) == Count(counts, one) + Count(counts, two)
  {
    var rest, last := keys[..|keys| - 1], keys[|keys| - 1];
    DropLast(keys);
    if last == one {
      TotalOne(rest, counts, two);
    } else if last == two {
      TotalOne(rest, counts, one);
    } else {
      TotalTwo(rest, counts, one, two);
    }
  }

  lemma DropLast(keys: seq<Key>)
    requires NoDuplicates(keys) && keys != []
    ensures var rest, last := keys[..|keys| - 1], keys[|keys| - 1];
            NoDuplicates(rest) && last !in rest && forall k :: k in keys <==> k in rest || k == last
  {
    assert keys == keys[..|keys| - 1] + [keys[|keys| - 1]];
  }

  lemma {:induction false} TotalSame(keys: seq<Key>, a: map<Key, nat>, b: map<Key, nat>)
    requires forall k :: k in keys ==> Count(a, k) == Count(b, k)
    ensures Total(keys, a) == Total(keys, b)
  {
    if keys != [] {
      assert keys[|keys| - 1] in keys;
      TotalSame(keys[..|keys| - 1], a, b);
    }
  }

  ghost predicate Leads(edges: seq<RunEdge>, k: Key, target: string) {
    exists i :: 0 <= i < |edges| && edges[i].key == k && edges[i].target == target
  }

  lemma {:induction false} InEdgesMembers(edges: seq<RunEdge>, target: string, k: Key)
    ensures k in InEdges(edges, target) <==> Leads(edges, k, target)
  {
    if edges != [] {
      var n := |edges| - 1;
      var rest := edges[..n];
      InEdgesMembers(rest, target, k);
      assert Leads(rest, k, target) ==> Leads(edges, k, target) by {
        if i :| 0 <= i < |rest| && rest[i].key == k && rest[i].target == target { assert edges[i] == rest[i]; }
      }
      assert Leads(edges, k, target) ==> Leads(rest, k, target) || (edges[n].key == k && edges[n].target == target) by {
        if i :| 0 <= i < |edges| && edges[i].key == k && edges[i].target == target {
          if i < n { assert rest[i] == edges[i]; }
        }
      }
      assert edges[n].key == k && edges[n].target == target ==> Leads(edges, k, target);
    }
  }

  lemma {:induction false} InEdgesUnique(edges: seq<RunEdge>, target: string)
    requires UniqueEdgeKeys(edges)
    ensures NoDuplicates(InEdges(edges, target))
  {
    if edges != [] {
      var n := |edges| - 1;
      var rest := edges[..n];
      InEdgesUnique(rest, target);
      InEdgesMembers(rest, target, edges[n].key);
      assert edges[n].key !in InEdges(rest, target);
    }
  }

  lemma OneTarget(edges: seq<RunEdge>, a: string, b: string, k: Key)
    requires UniqueEdgeKeys(edges) && k in InEdges(edges, a) && k in InEdges(edges, b)
    ensures a == b
  {
    InEdgesMembers(edges, a, k);
    InEdgesMembers(edges, b, k);
  }

  /** What the counts into one target add up to. */
  ghost function Expected(edges: seq<RunEdge>, fold: Fold, target: string): nat {
    var keys := InEdges(edges, target);
    if keys == [] then 0
    else if Stamped(keys, fold.enteredVia) then Total(keys, fold.enteredVia)
    else Count(fold.entries, LastPart(target))
  }

  /** The count of one edge into a target: its stamps, or its share when the target has none. */
  function Attributed(edges: seq<RunEdge>, fold: Fold, target: string, k: Key): nat
    requires k in InEdges(edges, target)
  {
    var keys := InEdges(edges, target);
    if Stamped(keys, fold.enteredVia) then Count(fold.enteredVia, k)
    else Share(keys, LoopKeys(edges), Count(fold.entries, LastPart(target)), k)
  }

  ghost predicate Settled(edges: seq<RunEdge>, fold: Fold, counts: map<Key, nat>, target: string) {
    forall k :: k in InEdges(edges, target) ==> Count(counts, k) == Attributed(edges, fold, target, k)
  }

  lemma SettledTotal(edges: seq<RunEdge>, fold: Fold, counts: map<Key, nat>, target: string)
    requires UniqueEdgeKeys(edges) && Settled(edges, fold, counts, target)
    ensures Total(InEdges(edges, target), counts) == Expected(edges, fold, target)
  {
    var keys := InEdges(edges, target);
    if keys != [] {
      InEdgesUnique(edges, target);
      if Stamped(keys, fold.enteredVia) {
        TotalSame(keys, counts, fold.enteredVia);
      } else {
        SharesAddUp(keys, LoopKeys(edges), Count(fold.entries, LastPart(target)), counts);
      }
    }
  }

  /** The keys of the edges that lead back: loop-backs and retries. */
  ghost function Returning(edges: seq<RunEdge>): set<Key> {
    set i | 0 <= i < |edges| && edges[i].kind in {Templates.LoopBack, Templates.Retry} :: edges[i].key
  }

  /** The count of an edge, exactly: its stamps if any edge into its target has one, else the fallback. */
  lemma CountsExactly(edges: seq<RunEdge>, fold: Fold, counts: map<Key, nat>, target: string, i: nat)
    requires UniqueEdgeKeys(edges) && Settled(edges, fold, counts, target) && i < |InEdges(edges, target)|
    ensures var keys, loops := InEdges(edges, target), Returning(edges);
            var entries := Count(fold.entries, LastPart(target));
            if exists j :: 0 <= j < |keys| && Count(fold.enteredVia, keys[j]) > 0
            then Count(counts, keys[i]) == Count(fold.enteredVia, keys[i])
            else
              && (forall p: nat, q: nat :: FirstAndAgain(keys, loops, p, q) ==>
                    Count(counts, keys[i]) ==
                    if i == p then (if entries == 0 then 0 else 1)
                    else if i == q && entries > 0 then entries - 1
                    else 0)
              && ((forall p: nat, q: nat :: !FirstAndAgain(keys, loops, p, q)) ==>
                    Count(counts, keys[i]) == if i == 0 then entries else 0)
  {
    var keys, loops := InEdges(edges, target), LoopKeys(edges);
    InEdgesUnique(edges, target);
    assert keys[i] in keys;
    assert loops == Returning(edges);
    FallbackExactly(keys, loops, Count(fold.entries, LastPart(target)), i);
    if j :| 0 <= j < |keys| && Count(fold.enteredVia, keys[j]) > 0 { assert keys[j] in keys; }
  }

  ghost predicate Untouched(edges: seq<RunEdge>, fold: Fold, counts: map<Key, nat>, target: string) {
    forall k :: k in InEdges(edges, target) ==> Count(counts, k) == Count(fold.enteredVia, k)
  }

  /** `_edge_traversals`: start from the stamps, then guess for every target without any. */
  method EdgeTraversals(edges: seq<RunEdge>, fold: Fold) returns (counts: map<Key, nat>)
    requires UniqueEdgeKeys(edges)
    ensures counts.Keys == EdgeKeys(edges)
    ensures forall target :: Settled(edges, fold, counts, target)
  {
    var edgeKeys := EdgeKeys(edges);
    counts := map k | k in edgeKeys :: Count(fold.enteredVia, k);
    var targets := Targets(edges);
    StartsUntouched(edges, fold, counts);
    var left := targets;
    while left != {}
      invariant left <= targets && counts.Keys == edgeKeys
      invariant forall target :: target in targets && target !in left ==> Settled(edges, fold, counts, target)
      invariant forall target :: target in left ==> Untouched(edges, fold, counts, target)
    {
      var target :| target in left;
      ghost var before := counts;
      counts := VisitTarget(edges, fold, target, counts);
      left := left - {target};
      OthersKept(edges, fold, target, before, counts);
    }
    forall target | target !in targets ensures Settled(edges, fold, counts, target) {
      NothingToSettle(edges, fold, counts, target);
    }
  }

  lemma NothingToSettle(edges: seq<RunEdge>, fold: Fold, counts: map<Key, nat>, target: string)
    requires target !in Targets(edges)
    ensures Settled(edges, fold, counts, target)
  {
    NoInEdges(edges, target);
  }

  lemma StartsUntouched(edges: seq<RunEdge>, fold: Fold, counts: map<Key, nat>)
    requires counts == map k | k in EdgeKeys(edges) :: Count(fold.enteredVia, k)
    ensures forall target :: Untouched(edges, fold, counts, target)
  {
    forall target, k | k in InEdges(edges, target) ensures Count(counts, k) == Count(fold.enteredVia, k) {
      InEdgesMembers(edges, target, k);
    }
  }

  lemma {:induction false} NoInEdges(edges: seq<RunEdge>, target: string)
    requires forall e :: e in edges ==> e.target != target
    ensures InEdges(edges, target) == []
  {
    if edges != [] {
      assert edges[|edges| - 1] in edges;
      NoInEdges(edges[..|edges| - 1], target);
    }
  }

  lemma OthersKept(edges: seq<RunEdge>, fold: Fold, target: string, before: map<Key, nat>, after: map<Key, nat>)
    requires UniqueEdgeKeys(edges)
    requires forall k :: k !in InEdges(edges, target) ==> Count(after, k) == Count(before, k)
    ensures forall other :: other != target && Untouched(edges, fold, before, other) ==>
              Untouched(edges, fold, after, other)
    ensures forall other :: other != target && Settled(edges, fold, before, other) ==>
              Settled(edges, fold, after, other)
  {
    forall other | other != target
      ensures forall k :: k in InEdges(edges, other) ==> Count(after, k) == Count(before, k)
      ensures Settled(edges, fold, before, other) ==> Settled(edges, fold, after, other)
    {
      forall k | k in InEdges(edges, other) ensures Count(after, k) == Count(before, k) {
        if k in InEdges(edges, target) { OneTarget(edges, target, other, k); }
      }
    }
  }

  /** The body of the second loop, for one target. */
  method VisitTarget(edges: seq<RunEdge>, fold: Fold, target: string, before: map<Key, nat>)
    returns (counts: map<Key, nat>)
    requires UniqueEdgeKeys(edges) && target in Targets(edges)
    requires before.Keys == EdgeKeys(edges)
    requires Untouched(edges, fold, before, target)
    ensures counts.Keys == before.Keys && Settled(edges, fold, counts, target)
    ensures forall k :: k !in InEdges(edges, target) ==> Count(counts, k) == Count(before, k)
  {
    counts := before;
    var keys := InEdges(edges, target);
    InEdgesUnique(edges, target);
    forall k ensures k in keys <==> Leads(edges, k, target) { InEdgesMembers(edges, target, k); }
    assert keys != [] by {
      var i :| 0 <= i < |edges| && edges[i].target == target;
      assert Leads(edges, edges[i].key, target);
    }
    assert Elements(keys) <= before.Keys;
    if !Stamped(keys, fold.enteredVia) {
      counts := Attribute(keys, LoopKeys(edges), Count(fold.entries, LastPart(target)), before);
    }
  }

  // ---------------------------------------------------------------- stamps in the log

  ghost function StampedEntries(events: seq<Event>, nodeId: string): nat {
    if events == [] then 0
    else
      var e := events[|events| - 1];
      StampedEntries(events[..|events| - 1], nodeId) +
      if e.kind == NodeEntered && e.nodeId == nodeId && e.enteredVia != "" then 1 else 0
  }

  ghost function AllEntries(events: seq<Event>, nodeId: string): nat {
    if events == [] then 0
    else
      var e := events[|events| - 1];
      AllEntries(events[..|events| - 1], nodeId) + if e.kind == NodeEntered && e.nodeId == nodeId then 1 else 0
  }

  /** Every stamp on an entry names an edge into the entered node. */
  ghost predicate WellStamped(edges: seq<RunEdge>, events: seq<Event>) {
    forall i :: 0 <= i < |events| && events[i].kind == NodeEntered && events[i].enteredVia != "" ==>
                  events[i].enteredVia in InEdges(edges, events[i].nodeId)
  }

  lemma {:induction false} TotalIncrement(keys: seq<Key>, counts: map<Key, nat>, k: Key)
    requires NoDuplicates(keys)
    ensures Total(keys, counts[k := Count(counts, k) + 1]) == Total(keys, counts) + if k in keys then 1 else 0
  {
    if keys != [] {
      var rest, last := keys[..|keys| - 1], keys[|keys| - 1];
      DropLast(keys);
      TotalIncrement(rest, counts, k);
    }
  }

  lemma {:induction false} StampsAddUp(
    runId: string, nodes: set<Key>, edges: seq<RunEdge>, events: seq<Event>, key: Key
  )
    requires AllFit(nodes) && key in nodes && UniqueEdgeKeys(edges) && WellStamped(edges, events)
    ensures Total(InEdges(edges, NodeId(runId, key)), FoldOf(runId, nodes, events).enteredVia) ==
            StampedEntries(events, NodeId(runId, key))
  {
    var target := NodeId(runId, key);
    var keys := InEdges(edges, target);
    if events == [] {
      TotalZero(keys, FoldOf(runId, nodes, events).enteredVia);
    } else {
      var rest, e := events[..|events| - 1], events[|events| - 1];
      assert WellStamped(edges, rest) by { assert forall i :: 0 <= i < |rest| ==> rest[i] == events[i]; }
      StampsAddUp(runId, nodes, edges, rest, key);
      InEdgesUnique(edges, target);
      TotalIncrement(keys, FoldOf(runId, nodes, rest).enteredVia, e.enteredVia);
      if e.kind == NodeEntered && e.enteredVia != "" && e.enteredVia in keys {
        OneTarget(edges, e.nodeId, target, e.enteredVia);
      }
    }
  }

  /** How often the log has an entry of a known node with this stamp. */
  ghost function StampCount(runId: string, nodes: set<Key>, events: seq<Event>, k: Key): nat {
    if events == [] then 0
    else
      var e := events[|events| - 1];
      StampCount(runId, nodes, events[..|events| - 1], k) +
      if e.kind == NodeEntered && e.nodeId in NodeIds(runId, nodes) && e.enteredVia == k then 1 else 0
  }

  /** The fold counts exactly the stamps in the log. */
  lemma {:induction false} StampsAreCounted(runId: string, nodes: set<Key>, events: seq<Event>, k: Key)
    requires k != ""
    ensures Count(FoldOf(runId, nodes, events).enteredVia, k) == StampCount(runId, nodes, events, k)
  {
    if events != [] { StampsAreCounted(runId, nodes, events[..|events| - 1], k); }
  }

  lemma {:induction false} EntriesAreEvents(runId: string, nodes: set<Key>, events: seq<Event>, key: Key)
    requires AllFit(nodes) && key in nodes
    ensures Count(FoldOf(runId, nodes, events).entries, key) == AllEntries(events, NodeId(runId, key))
  {
    if events != [] {
      var rest, e := events[..|events| - 1], events[|events| - 1];
      EntriesAreEvents(runId, nodes, rest, key);
      StepEntries(runId, nodes, FoldOf(runId, nodes, rest), e, key);
    }
  }

  lemma {:induction false} StampedAreEntries(events: seq<Event>, nodeId: string)
    ensures StampedEntries(events, nodeId) <= AllEntries(events, nodeId)
  {
    if events != [] { StampedAreEntries(events[..|events| - 1], nodeId); }
  }

  lemma {:induction false} TotalPositive(keys: seq<Key>, counts: map<Key, nat>)
    ensures Total(keys, counts) > 0 <==> Stamped(keys, counts)
  {
    if keys != [] {
      var rest, last := keys[..|keys| - 1], keys[|keys| - 1];
      TotalPositive(rest, counts);
      assert keys == rest + [last];
      if Stamped(keys, counts) {
        var k :| k in keys && Count(counts, k) > 0;
        assert k == last || k in rest;
      } else {
        assert last in keys;
        assert forall k :: k in rest ==> k in keys;
      }
    }
  }

  /**
   Conservation: for a node with in-edges, the counts over them never exceed its entries, and
   equal them exactly when no entry of the node is stamped or all of them are.
   */
  lemma CountsNeverExceedEntries(
    runId: string, nodes: set<Key>, edges: seq<RunEdge>, events: seq<Event>, key: Key, counts: map<Key, nat>
  )
    requires AllFit(nodes) && key in nodes && UniqueEdgeKeys(edges) && WellStamped(edges, events)
    requires InEdges(edges, NodeId(runId, key)) != []
    requires Settled(edges, FoldOf(runId, nodes, events), counts, NodeId(runId, key))
    ensures var target := NodeId(runId, key);
            var total, entries := Total(InEdges(edges, target), counts), AllEntries(events, target);
            var stamped := StampedEntries(events, target);
            total <= entries && (total == entries <==> stamped == 0 || stamped == entries)
  {
    var target := NodeId(runId, key);
    var fold := FoldOf(runId, nodes, events);
    SettledTotal(edges, fold, counts, target);
    StampsAddUp(runId, nodes, edges, events, key);
    EntriesAreEvents(runId, nodes, events, key);
    StampedAreEntries(events, target);
    TotalPositive(InEdges(edges, target), fold.enteredVia);
    FittingKeyRecovered(runId, key);
  }
}
