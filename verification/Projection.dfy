/**
 The graph projection's own fold over the same log (src/accretion/projections.py), written
 independently of the trace, and how the two agree.
 */
module Projection {
  import opened Sequences
  import opened Trace

  type Key = string

  datatype Fold = Fold(statuses: map<Key, NodeStatus>, entries: map<Key, nat>, enteredVia: map<Key, nat>)

  function Count(counter: map<Key, nat>, key: Key): nat {
    if key in counter then counter[key] else 0
  }

  // ---------------------------------------------------------------- node ids

  function NodeId(runId: string, key: Key): string {
    runId + ":" + key
  }

  /** Everything after the last colon. */
  function LastPart(s: string): string {
    if s == [] || s[|s| - 1] == ':' then [] else LastPart(s[..|s| - 1]) + [s[|s| - 1]]
  }

  lemma {:induction false} LastPartOfId(runId: string, key: Key)
    requires ':' !in key
    ensures LastPart(NodeId(runId, key)) == key
  {
    var id := NodeId(runId, key);
    if key == [] {
      assert id[|id| - 1] == ':';
    } else {
      var shorter := key[..|key| - 1];
      assert id[..|id| - 1] == NodeId(runId, shorter) && id[|id| - 1] == key[|key| - 1];
      assert key[|key| - 1] in key;
      LastPartOfId(runId, shorter);
      assert shorter + [key[|key| - 1]] == key;
    }
  }

  lemma {:induction false} LastPartHasNoColon(s: string)
    ensures ':' !in LastPart(s)
  {
    if s != [] && s[|s| - 1] != ':' { LastPartHasNoColon(s[..|s| - 1]); }
  }

  /** The pattern of node and edge keys: a lower-case letter, then lower-case letters, digits and dashes. */
  predicate FitsPattern(key: Key) {
    && key != "" && 'a' <= key[0] <= 'z'
    && forall i :: 0 <= i < |key| ==> 'a' <= key[i] <= 'z' || '0' <= key[i] <= '9' || key[i] == '-'
  }

  ghost predicate AllFit(keys: set<Key>) {
    forall k :: k in keys ==> FitsPattern(k)
  }

  /** Every key that fits the pattern is recovered from its node id. */
  lemma FittingKeyRecovered(runId: string, key: Key)
    requires FitsPattern(key)
    ensures LastPart(NodeId(runId, key)) == key
  {
    LastPartOfId(runId, key);
  }

  /** The key is recovered from a node id exactly when it contains no colon. */
  lemma KeyRecovered(runId: string, key: Key)
    ensures LastPart(NodeId(runId, key)) == key <==> ':' !in key
  {
    if ':' !in key { LastPartOfId(runId, key); }
    LastPartHasNoColon(NodeId(runId, key));
  }

  lemma SameIdSameKey(runId: string, a: Key, b: Key)
    ensures NodeId(runId, a) == NodeId(runId, b) <==> a == b
  {
    assert NodeId(runId, a)[|runId| + 1..] == a;
    assert NodeId(runId, b)[|runId| + 1..] == b;
  }

  // ---------------------------------------------------------------- the fold

  function NodeIds(runId: string, keys: set<Key>): set<string> {
    set k | k in keys :: NodeId(runId, k)
  }

  function StepFold(ids: set<string>, f: Fold, e: Event): Fold {
    if e.nodeId !in ids then f
    else
      var key := LastPart(e.nodeId);
      if e.kind == NodeEntered then
        Fold(f.statuses[key := Running],
             f.entries[key := Count(f.entries, key) + 1],
             if e.enteredVia != "" then f.enteredVia[e.enteredVia := Count(f.enteredVia, e.enteredVia) + 1]
             else f.enteredVia)
      else if e.kind == NodeExited then
        f.(statuses := f.statuses[key := ReadStatus(e.status)])
      else f
  }

  function Initial(keys: set<Key>): Fold {
    Fold(map k | k in keys :: Pending, map[], map[])
  }

  function FoldOf(runId: string, keys: set<Key>, events: seq<Event>): Fold {
    if events == [] then Initial(keys)
    else StepFold(NodeIds(runId, keys), FoldOf(runId, keys, events[..|events| - 1]), events[|events| - 1])
  }

  /** `_fold_node_events`: one pass over the log, dictionaries updated in place. */
  method FoldNodeEvents(runId: string, keys: set<Key>, events: seq<Event>) returns (fold: Fold)
    ensures fold == FoldOf(runId, keys, events)
  {
    var ids := NodeIds(runId, keys);
    var statuses: map<Key, NodeStatus> := map k | k in keys :: Pending;
    var entries: map<Key, nat> := map[];
    var enteredVia: map<Key, nat> := map[];
    for i := 0 to |events|
      invariant Fold(statuses, entries, enteredVia) == FoldOf(runId, keys, events[..i])
    {
      var e := events[i];
      assert events[..i + 1][..i] == events[..i] && events[..i + 1][i] == e;
      if e.nodeId in ids {
        var key := LastPart(e.nodeId);
        if e.kind == NodeEntered {
          entries := entries[key := Count(entries, key) + 1];
          statuses := statuses[key := Running];
          if e.enteredVia != "" { enteredVia := enteredVia[e.enteredVia := Count(enteredVia, e.enteredVia) + 1]; }
        } else if e.kind == NodeExited {
          statuses := statuses[key := ReadStatus(e.status)];
        }
      }
    }
    assert events[..|events|] == events;
    return Fold(statuses, entries, enteredVia);
  }

  // ---------------------------------------------------------------- agreement with the trace

  ghost function Traversed(traversals: seq<Traversal>, nodeId: string): nat {
    if traversals == [] then 0
    else Traversed(traversals[..|traversals| - 1], nodeId) +
         if traversals[|traversals| - 1].nodeId == nodeId then 1 else 0
  }

  lemma {:induction false} TraversedUpdate(traversals: seq<Traversal>, i: nat, v: Traversal, nodeId: string)
    requires i < |traversals| && v.nodeId == traversals[i].nodeId
    ensures Traversed(traversals[i := v], nodeId) == Traversed(traversals, nodeId)
  {
    var updated, n := traversals[i := v], |traversals| - 1;
    if i == n {
      assert updated[..n] == traversals[..n];
    } else {
      assert updated[..n] == traversals[..n][i := v];
      TraversedUpdate(traversals[..n], i, v, nodeId);
    }
  }

  lemma StepTraversed(t: ExecutionTrace, e: Event, nodeId: string)
    requires Consistent(t) && nodeId != ""
    ensures Traversed(Step(t, e).traversals, nodeId) ==
            Traversed(t.traversals, nodeId) + if e.kind == NodeEntered && e.nodeId == nodeId then 1 else 0
  {
    if e.kind == NodeEntered && e.nodeId != "" {
      var after := Step(t, e).traversals;
      assert after[..|after| - 1] == t.traversals;
    } else if e.kind == NodeExited && e.nodeId in t.open {
      assert OpenIsLatest(t, e.nodeId);
      var i := t.open[e.nodeId];
      TraversedUpdate(t.traversals, i, ExitNode(t, e).traversals[i], nodeId);
    }
  }

  lemma KnownEventKey(runId: string, keys: set<Key>, e: Event)
    requires AllFit(keys)
    ensures e.nodeId in NodeIds(runId, keys) ==>
              LastPart(e.nodeId) in keys && e.nodeId == NodeId(runId, LastPart(e.nodeId))
  {
    if e.nodeId in NodeIds(runId, keys) {
      var k :| k in keys && e.nodeId == NodeId(runId, k);
      FittingKeyRecovered(runId, k);
    }
  }

  /** One event of the fold, seen at one node's entry count. */
  lemma StepEntries(runId: string, keys: set<Key>, f: Fold, e: Event, key: Key)
    requires AllFit(keys) && key in keys
    ensures Count(StepFold(NodeIds(runId, keys), f, e).entries, key) ==
            Count(f.entries, key) + if e.kind == NodeEntered && e.nodeId == NodeId(runId, key) then 1 else 0
  {
    KnownEventKey(runId, keys, e);
    SameIdSameKey(runId, LastPart(e.nodeId), key);
    FittingKeyRecovered(runId, key);
  }

  /** One event of the fold, seen at one node's status. */
  lemma StepStatuses(runId: string, keys: set<Key>, f: Fold, e: Event, key: Key)
    requires AllFit(keys) && key in keys && key in f.statuses
    ensures var g := StepFold(NodeIds(runId, keys), f, e);
            && key in g.statuses
            && g.statuses[key] == if e.nodeId == NodeId(runId, key) && e.kind == NodeEntered then Running
                                  else if e.nodeId == NodeId(runId, key) && e.kind == NodeExited
                                  then ReadStatus(e.status) else f.statuses[key]
  {
    KnownEventKey(runId, keys, e);
    SameIdSameKey(runId, LastPart(e.nodeId), key);
    FittingKeyRecovered(runId, key);
  }

  /** On every log, a node's entry count in the projection is its number of traversals in the trace. */
  lemma {:induction false} EntriesAreTraversals(runId: string, keys: set<Key>, events: seq<Event>, key: Key)
    requires AllFit(keys) && key in keys
    ensures Count(FoldOf(runId, keys, events).entries, key) ==
            Traversed(TraceOf(events).traversals, NodeId(runId, key))
  {
    if events != [] {
      var rest, e := events[..|events| - 1], events[|events| - 1];
      EntriesAreTraversals(runId, keys, rest, key);
      TraceConsistent(rest);
      assert NodeId(runId, key)[|runId|] == ':';
      StepTraversed(TraceOf(rest), e, NodeId(runId, key));
      StepEntries(runId, keys, FoldOf(runId, keys, rest), e, key);
    }
  }

  /** The status of a node's latest traversal, PENDING when it has none. */
  ghost function TraceStatus(traversals: seq<Traversal>, nodeId: string): NodeStatus {
    if traversals == [] then Pending
    else
      var last := traversals[|traversals| - 1];
      if last.nodeId == nodeId then last.status else TraceStatus(traversals[..|traversals| - 1], nodeId)
  }

  /** The exit status the log ends with for a node, when that exit closed nothing. */
  ghost function StrayExit(events: seq<Event>, nodeId: string): Option<NodeStatus> {
    if events == [] then None
    else
      var rest, e := events[..|events| - 1], events[|events| - 1];
      if e.nodeId != nodeId || !(e.kind == NodeEntered || e.kind == NodeExited) then StrayExit(rest, nodeId)
      else if e.kind == NodeExited && nodeId !in TraceOf(rest).open then Some(ReadStatus(e.status))
      else None
  }

  lemma {:induction false} TraceStatusAt(traversals: seq<Traversal>, nodeId: string, i: nat)
    requires i < |traversals| && traversals[i].nodeId == nodeId
    requires forall j :: i < j < |traversals| ==> traversals[j].nodeId != nodeId
    ensures TraceStatus(traversals, nodeId) == traversals[i].status
  {
    if i < |traversals| - 1 { TraceStatusAt(traversals[..|traversals| - 1], nodeId, i); }
  }

  lemma {:induction false} TraceStatusKept(a: seq<Traversal>, b: seq<Traversal>, nodeId: string)
    requires |a| == |b|
    requires forall i :: 0 <= i < |a| ==> a[i].nodeId == b[i].nodeId && (a[i].nodeId == nodeId ==> a[i] == b[i])
    ensures TraceStatus(a, nodeId) == TraceStatus(b, nodeId)
  {
    if a != [] { TraceStatusKept(a[..|a| - 1], b[..|b| - 1], nodeId); }
  }

  lemma StepStatus(t: ExecutionTrace, e: Event, nodeId: string)
    requires Consistent(t) && nodeId != ""
    ensures TraceStatus(Step(t, e).traversals, nodeId) ==
            if e.nodeId == nodeId && e.kind == NodeEntered then Running
            else if e.nodeId == nodeId && e.kind == NodeExited && nodeId in t.open then ReadStatus(e.status)
            else TraceStatus(t.traversals, nodeId)
  {
    var after := Step(t, e).traversals;
    if e.kind == NodeEntered && e.nodeId != "" {
      assert after[..|after| - 1] == t.traversals;
    } else if e.kind == NodeExited && e.nodeId in t.open {
      assert OpenIsLatest(t, e.nodeId);
      if e.nodeId == nodeId {
        TraceStatusAt(after, nodeId, t.open[nodeId]);
      } else {
        TraceStatusKept(t.traversals, after, nodeId);
      }
    }
  }

  /**
   On every log the two folds differ at a node by exactly the stray exit the log ends with, if
   any: otherwise the projected status is the status of the latest traversal.
   */
  lemma {:induction false} StatusesAgree(runId: string, keys: set<Key>, events: seq<Event>, key: Key)
    requires AllFit(keys) && key in keys
    ensures var f := FoldOf(runId, keys, events);
            && key in f.statuses
            && f.statuses[key] ==
               (match StrayExit(events, NodeId(runId, key))
                case Some(status) => status
                case None => TraceStatus(TraceOf(events).traversals, NodeId(runId, key)))
  {
    if events != [] {
      var rest, e := events[..|events| - 1], events[|events| - 1];
      StatusesAgree(runId, keys, rest, key);
      TraceConsistent(rest);
      StepStatus(TraceOf(rest), e, NodeId(runId, key));
      StepStatuses(runId, keys, FoldOf(runId, keys, rest), e, key);
    }
  }

  /** Every exit in the log is for a node that is open at that point. */
  ghost predicate ExitsAreOpen(events: seq<Event>) {
    events == [] ||
    (var rest, e := events[..|events| - 1], events[|events| - 1];
     ExitsAreOpen(rest) && (e.kind == NodeExited ==> e.nodeId in TraceOf(rest).open))
  }

  lemma {:induction false} OpenExitsAreNotStray(events: seq<Event>, nodeId: string)
    requires ExitsAreOpen(events)
    ensures StrayExit(events, nodeId).None?
  {
    if events != [] { OpenExitsAreNotStray(events[..|events| - 1], nodeId); }
  }

  /** The status text of the exit the log ends with for a node, if its last entry or exit is an exit. */
  function LastExit(events: seq<Event>, nodeId: string): Option<string> {
    if events == [] then None
    else
      var e := events[|events| - 1];
      if e.nodeId == nodeId && e.kind == NodeExited then Some(e.status)
      else if e.nodeId == nodeId && e.kind == NodeEntered then None
      else LastExit(events[..|events| - 1], nodeId)
  }

  predicate Touches(e: Event, nodeId: string) {
    e.nodeId == nodeId && (e.kind == NodeEntered || e.kind == NodeExited)
  }

  ghost predicate Touched(events: seq<Event>, nodeId: string) {
    exists i :: 0 <= i < |events| && Touches(events[i], nodeId)
  }

  lemma TouchedStep(events: seq<Event>, nodeId: string)
    requires events != []
    ensures Touched(events, nodeId) <==>
              Touched(events[..|events| - 1], nodeId) || Touches(events[|events| - 1], nodeId)
  {
    var rest := events[..|events| - 1];
    if i :| 0 <= i < |rest| && Touches(rest[i], nodeId) { assert events[i] == rest[i]; }
    if i :| 0 <= i < |events| && Touches(events[i], nodeId) {
      if i < |rest| { assert rest[i] == events[i]; }
    }
  }

  /** On every log, the projected status is PENDING for the nodes never touched, and after an exit that says so. */
  lemma {:induction false} PendingInTheFold(runId: string, keys: set<Key>, events: seq<Event>, key: Key)
    requires AllFit(keys) && key in keys
    ensures var f, nodeId := FoldOf(runId, keys, events), NodeId(runId, key);
            && key in f.statuses
            && (f.statuses[key] == Pending <==> !Touched(events, nodeId) || LastExit(events, nodeId) == Some("PENDING"))
  {
    if events != [] {
      var rest, e := events[..|events| - 1], events[|events| - 1];
      PendingInTheFold(runId, keys, rest, key);
      TouchedStep(events, NodeId(runId, key));
      StepStatuses(runId, keys, FoldOf(runId, keys, rest), e, key);
    }
  }

  lemma {:induction false} TraversedAt(traversals: seq<Traversal>, i: nat, nodeId: string)
    requires i < |traversals| && traversals[i].nodeId == nodeId
    ensures Traversed(traversals, nodeId) > 0
  {
    if i < |traversals| - 1 { TraversedAt(traversals[..|traversals| - 1], i, nodeId); }
  }

  /** Where exits occur only for open nodes, the nodes touched are the nodes entered. */
  lemma {:induction false} TouchedMeansEntered(events: seq<Event>, nodeId: string)
    requires ExitsAreOpen(events) && nodeId != ""
    ensures Touched(events, nodeId) <==> Traversed(TraceOf(events).traversals, nodeId) > 0
  {
    if events != [] {
      var rest, e := events[..|events| - 1], events[|events| - 1];
      var t := TraceOf(rest);
      TouchedMeansEntered(rest, nodeId);
      TouchedStep(events, nodeId);
      TraceConsistent(rest);
      StepTraversed(t, e, nodeId);
      if e.kind == NodeExited && e.nodeId == nodeId {
        assert OpenIsLatest(t, nodeId);
        TraversedAt(t.traversals, t.open[nodeId], nodeId);
      }
    }
  }

  /**
   Where exits occur only for open nodes, the projected status is the status of the latest
   traversal, and it is PENDING exactly for the nodes never entered and for those whose last exit
   says PENDING.
   */
  lemma PendingMeansNeverEntered(runId: string, keys: set<Key>, events: seq<Event>, key: Key)
    requires AllFit(keys) && key in keys && ExitsAreOpen(events)
    ensures var f, nodeId := FoldOf(runId, keys, events), NodeId(runId, key);
            && key in f.statuses
            && f.statuses[key] == TraceStatus(TraceOf(events).traversals, nodeId)
            && (f.statuses[key] == Pending <==>
                  Traversed(TraceOf(events).traversals, nodeId) == 0 || LastExit(events, nodeId) == Some("PENDING"))
  {
    var nodeId := NodeId(runId, key);
    assert nodeId[|runId|] == ':';
    StatusesAgree(runId, keys, events, key);
    OpenExitsAreNotStray(events, nodeId);
    PendingInTheFold(runId, keys, events, key);
    TouchedMeansEntered(events, nodeId);
  }

  /** The second case happens: a node entered and exited with PENDING is projected as if never entered. */
  lemma PendingExitLooksUntouched(runId: string, key: Key)
    requires FitsPattern(key)
    ensures var id := NodeId(runId, key);
            var log := [Event(1, 0, NodeEntered, id, "", "", 0, ""), Event(2, 0, NodeExited, id, "PENDING", "", 0, "")];
            && ExitsAreOpen(log) && Traversed(TraceOf(log).traversals, id) > 0
            && key in FoldOf(runId, {key}, log).statuses && FoldOf(runId, {key}, log).statuses[key] == Pending
  {
    var id := NodeId(runId, key);
    assert id[|runId|] == ':';
    var e1, e2 := Event(1, 0, NodeEntered, id, "", "", 0, ""), Event(2, 0, NodeExited, id, "PENDING", "", 0, "");
    var log := [e1, e2];
    assert log[..1] == [e1] && [e1][..0] == [];
    assert TraceOf([]) == EMPTY && TraceOf([e1]) == Step(EMPTY, e1) && ExitsAreOpen([e1]);
    assert id in TraceOf([e1]).open;
    assert Touches(log[0], id) && Touched(log, id);
    TouchedMeansEntered(log, id);
    PendingInTheFold(runId, {key}, log, key);
  }

  /** A second exit of a node, after it was closed, is enough to make the two folds disagree. */
  lemma StrayExitDisagrees(runId: string, key: Key)
    requires FitsPattern(key)
    ensures var id := NodeId(runId, key);
            var log := [Event(1, 0, NodeEntered, id, "", "", 0, ""),
              Event(2, 0, NodeExited, id, "SUCCEEDED", "", 0, ""),
                        Event(3, 0, NodeExited, id, "FAILED", "", 0, "")];
            var f := FoldOf(runId, {key}, log);
            key in f.statuses && f.statuses[key] == Failed && TraceStatus(TraceOf(log).traversals, id) == Succeeded
  {
    var id := NodeId(runId, key);
    assert id[|runId|] == ':' && id != "";
    var e1 := Event(1, 0, NodeEntered, id, "", "", 0, "");
    var e2 := Event(2, 0, NodeExited, id, "SUCCEEDED", "", 0, "");
    var e3 := Event(3, 0, NodeExited, id, "FAILED", "", 0, "");
    var log := [e1, e2, e3];
    assert log[..2] == [e1, e2] && [e1, e2][..1] == [e1] && [e1][..0] == [];
    FittingKeyRecovered(runId, key);
    assert TraceOf([]) == EMPTY && TraceOf([e1]) == Step(EMPTY, e1);
    var t1 := Step(EMPTY, e1);
    assert t1.open == map[id := 0] && |t1.traversals| == 1;
    assert TraceOf([e1, e2]) == Step(t1, e2);
    var t2 := Step(t1, e2);
    assert id !in t2.open && |t2.traversals| == 1 && t2.traversals[0].nodeId == id;
    assert t2.traversals[0].status == Succeeded;
    assert TraceOf(log) == Step(t2, e3);
    assert TraceOf(log).traversals == t2.traversals;
    StatusesAgree(runId, {key}, log, key);
    assert StrayExit(log, id) == Some(Failed);
  }
}
