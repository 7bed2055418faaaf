/**
 What the replayed trace (src/accretion/tracing.py) says, told on the positions of the log: one
 traversal per entry, in order, closed by the next exit of its node unless the node is entered
 again before it, within the loop iteration that was open when it was entered.
 */
module TraceLog {
  import opened Sequences
  import opened Trace

  // ---------------------------------------------------------------- positions of the log

  predicate IsEntry(e: Event) {
    e.kind == NodeEntered && e.nodeId != ""
  }

  /** The number of entries in the log. */
  ghost function EntryCount(events: seq<Event>): nat {
    if events == [] then 0
    else EntryCount(events[..|events| - 1]) + if IsEntry(events[|events| - 1]) then 1 else 0
  }

  predicate Concerns(e: Event, nodeId: string) {
    e.nodeId == nodeId && (e.kind == NodeEntered || e.kind == NodeExited)
  }

  /** The event at `j` is the first after `i` to enter or leave the node entered at `i`, and leaves it. */
  ghost predicate Closes(events: seq<Event>, i: nat, j: nat) {
    && i < j < |events| && events[j].kind == NodeExited && events[j].nodeId == events[i].nodeId
    && forall k :: i < k < j ==> !Concerns(events[k], events[i].nodeId)
  }

  /** Nothing after `i` enters or leaves the node entered at `i`. */
  ghost predicate LeftOpen(events: seq<Event>, i: nat)
    requires i < |events|
  {
    forall k :: i < k < |events| ==> !Concerns(events[k], events[i].nodeId)
  }

  /** The text of an exit, read; only SUCCEEDED is success, and what cannot be read is a failure. */
  ghost predicate Reads(text: string, status: NodeStatus) {
    match status
    case Succeeded => text == "SUCCEEDED"
    case Pending => text == "PENDING"
    case Running => text == "RUNNING"
    case Waiting => text == "WAITING"
    case Cancelled => text == "CANCELLED"
    case Failed => text !in {"SUCCEEDED", "PENDING", "RUNNING", "WAITING", "CANCELLED"}
  }

  lemma ReadsExactly(text: string, status: NodeStatus)
    ensures ReadStatus(text) == status <==> Reads(text, status)
  {
  }

  /** What the traversal of the entry at `i` says. */
  ghost predicate Tells(events: seq<Event>, i: nat, v: Traversal)
    requires i < |events|
  {
    && v.nodeId == events[i].nodeId && v.enteredSequence == events[i].sequence && v.enteredAt == events[i].timestamp
    && (forall j: nat :: Closes(events, i, j) ==>
          v.exit == Some(Exit(events[j].sequence, events[j].timestamp)) && Reads(events[j].status, v.status))
    && ((forall j: nat :: !Closes(events, i, j)) ==> v.exit == None && v.status == Running)
  }

  // ---------------------------------------------------------------- one entry at a time

  /** Where the traversal of the entry at `i` stands, and whether it is the open one. */
  ghost predicate Stands(events: seq<Event>, t: ExecutionTrace, i: nat)
    requires i < |events|
  {
    var k, n := EntryCount(events[..i]), events[i].nodeId;
    && k < |t.traversals| && Tells(events, i, t.traversals[k])
    && (LeftOpen(events, i) <==> IsOpenAt(t, n, k))
  }

  lemma {:induction false} CountIsSize(events: seq<Event>)
    ensures |TraceOf(events).traversals| == EntryCount(events)
  {
    if events != [] { CountIsSize(events[..|events| - 1]); }
  }

  lemma SameClosing(events: seq<Event>, e: Event, i: nat, j: nat)
    requires i < |events| && j < |events|
    ensures Closes(events + [e], i, j) <==> Closes(events, i, j)
  {
    var all := events + [e];
    assert forall k :: 0 <= k < |events| ==> all[k] == events[k];
  }

  lemma LastCloses(events: seq<Event>, e: Event, i: nat)
    requires i < |events|
    ensures Closes(events + [e], i, |events|) <==>
              e.kind == NodeExited && e.nodeId == events[i].nodeId && LeftOpen(events, i)
    ensures LeftOpen(events + [e], i) <==> LeftOpen(events, i) && !Concerns(e, events[i].nodeId)
  {
    var all := events + [e];
    assert forall k :: 0 <= k < |events| ==> all[k] == events[k];
    assert all[|events|] == e;
    if LeftOpen(all, i) || Closes(all, i, |events|) {
      forall k | i < k < |events| ensures !Concerns(events[k], events[i].nodeId) {
        assert !Concerns(all[k], all[i].nodeId);
      }
    }
  }

  /** An event that does not close the traversal leaves what it says. */
  lemma StillTells(events: seq<Event>, e: Event, i: nat, v: Traversal)
    requires i < |events| && Tells(events, i, v) && !Closes(events + [e], i, |events|)
    ensures Tells(events + [e], i, v)
  {
    var all := events + [e];
    forall j: nat ensures Closes(all, i, j) <==> Closes(events, i, j) {
      if j < |events| { SameClosing(events, e, i, j); }
    }
    assert forall j: nat :: j < |events| ==> all[j] == events[j];
  }

  /** The event that closes it is what it says from then on. */
  lemma NowTells(events: seq<Event>, e: Event, i: nat, v: Traversal)
    requires i < |events| && Tells(events, i, v) && Closes(events + [e], i, |events|)
    ensures Tells(events + [e], i, v.(exit := Some(Exit(e.sequence, e.timestamp)), status := ReadStatus(e.status)))
  {
    var all := events + [e];
    ReadsExactly(e.status, ReadStatus(e.status));
    assert all[|events|] == e && all[i] == events[i];
    forall j: nat | Closes(all, i, j) ensures j == |events| {
      if j < |events| { assert Concerns(all[j], all[i].nodeId); }
    }
  }

  predicate IsOpenAt(t: ExecutionTrace, n: string, k: nat) {
    n in t.open && t.open[n] == k
  }

  /** One event, seen at one traversal. */
  lemma StepAt(t: ExecutionTrace, e: Event, k: nat)
    requires Consistent(t) && k < |t.traversals| && t.traversals[k].nodeId != ""
    ensures var u, n := Step(t, e), t.traversals[k].nodeId;
            && k < |u.traversals|
            && u.traversals[k] == (if e.kind == NodeExited && e.nodeId == n && IsOpenAt(t, n, k)
                                   then t.traversals[k].(exit := Some(Exit(e.sequence, e.timestamp)),
                                                         status := ReadStatus(e.status))
                                   else t.traversals[k])
            && (IsOpenAt(u, n, k) <==> IsOpenAt(t, n, k) && !Concerns(e, n))
  {
    assert OpenIsLatest(t, e.nodeId);
  }

  lemma StandsAfter(events: seq<Event>, e: Event, i: nat)
    requires i < |events| && IsEntry(events[i]) && Stands(events, TraceOf(events), i)
    ensures Stands(events + [e], TraceOf(events + [e]), i)
  {
    var all, t, k := events + [e], TraceOf(events), EntryCount(events[..i]);
    assert all[..|events|] == events && all[..i] == events[..i] && all[i] == events[i];
    TraceConsistent(events);
    LastCloses(events, e, i);
    StepAt(t, e, k);
    if Closes(all, i, |events|) {
      NowTells(events, e, i, t.traversals[k]);
    } else {
      StillTells(events, e, i, t.traversals[k]);
    }
  }

  lemma StandsWhenEntered(events: seq<Event>, e: Event)
    requires IsEntry(e)
    ensures Stands(events + [e], TraceOf(events + [e]), |events|)
  {
    var all, t := events + [e], TraceOf(events);
    assert all[..|events|] == events && all[|events|] == e;
    CountIsSize(events);
    assert TraceOf(all) == Step(t, e);
    NewlyEntered(t, e);
    assert forall j: nat :: !Closes(all, |events|, j);
  }

  lemma NewlyEntered(t: ExecutionTrace, e: Event)
    requires IsEntry(e)
    ensures var u, k := Step(t, e), |t.traversals|;
            && |u.traversals| == k + 1 && IsOpenAt(u, e.nodeId, k)
            && u.traversals[k] == Traversal(e.nodeId, e.sequence, e.timestamp, CurrentIteration(t), Running, None)
  {
  }

  lemma {:induction false} EveryEntryStands(events: seq<Event>, i: nat)
    requires i < |events| && IsEntry(events[i])
    ensures Stands(events, TraceOf(events), i)
    decreases |events|
  {
    var rest, last := events[..|events| - 1], events[|events| - 1];
    assert events == rest + [last];
    if i < |rest| {
      EveryEntryStands(rest, i);
      StandsAfter(rest, last, i);
    } else {
      StandsWhenEntered(rest, last);
    }
  }

  /**
   On every log the trace has one traversal per entry, in the order of the entries, and each says
   exactly when its node was entered, when it was left, and with what status.
   */
  lemma TraceIsTheLog(events: seq<Event>, i: nat)
    requires i < |events| && IsEntry(events[i])
    ensures var t := TraceOf(events);
            && |t.traversals| == EntryCount(events) && EntryCount(events[..i]) < |t.traversals|
            && Tells(events, i, t.traversals[EntryCount(events[..i])])
  {
    CountIsSize(events);
    EveryEntryStands(events, i);
  }

  // ---------------------------------------------------------------- iterations

  predicate Starts(e: Event) {
    e.kind == IterationStarted && e.iterationId != ""
  }

  predicate Completes(e: Event, id: string) {
    e.kind == IterationCompleted && e.iterationId == id
  }

  /** The iteration started at `s` is the last one started, and has not been completed since. */
  ghost predicate OpenSince(events: seq<Event>, s: nat) {
    && s < |events| && Starts(events[s])
    && forall k :: s < k < |events| ==> !Starts(events[k]) && !Completes(events[k], events[s].iterationId)
  }

  lemma OpenSinceStep(events: seq<Event>, e: Event, s: nat)
    ensures OpenSince(events + [e], s) <==>
              if Starts(e) then s == |events|
              else s < |events| && OpenSince(events, s) && !Completes(e, events[s].iterationId)
  {
    var all := events + [e];
    assert forall k :: 0 <= k < |events| ==> all[k] == events[k];
    assert all[|events|] == e;
    if s < |events| && OpenSince(all, s) {
      forall k | s < k < |events| ensures !Starts(events[k]) && !Completes(events[k], events[s].iterationId) {
        assert !Starts(all[k]) && !Completes(all[k], all[s].iterationId);
      }
      assert !Starts(all[|events|]);
    }
  }

  /** The iteration of the trace that is open is the one open in the log, with its number. */
  lemma {:induction false} IterationIsOpen(events: seq<Event>, s: nat)
    ensures OpenSince(events, s) ==>
              var t := TraceOf(events);
              && t.openIteration == Some(events[s].iterationId) && events[s].iterationId in t.iterations
              && t.iterations[events[s].iterationId].number == events[s].number
              && t.iterations[events[s].iterationId].started == Some(events[s].sequence)
    ensures TraceOf(events).openIteration.Some? ==> exists r: nat :: OpenSince(events, r)
    decreases |events|
  {
    if events != [] {
      var rest, last := events[..|events| - 1], events[|events| - 1];
      assert events == rest + [last];
      OpenSinceStep(rest, last, s);
      IterationIsOpen(rest, s);
      if TraceOf(events).openIteration.Some? {
        if Starts(last) {
          OpenSinceStep(rest, last, |rest|);
        } else {
          var r: nat :| OpenSince(rest, r);
          IterationIsOpen(rest, r);
          OpenSinceStep(rest, last, r);
        }
      }
    }
  }

  /** Every traversal carries the number of the iteration that was open when its node was entered, if any was. */
  lemma IterationOfEntry(events: seq<Event>, i: nat)
    requires i < |events| && IsEntry(events[i])
    ensures var t := TraceOf(events);
            var k, before := EntryCount(events[..i]), events[..i];
            && k < |t.traversals|
            && (forall s: nat :: OpenSince(before, s) ==> t.traversals[k].iteration == Some(events[s].number))
            && ((forall s: nat :: !OpenSince(before, s)) ==> t.traversals[k].iteration == None)
  {
    var before, upTo, k := events[..i], events[..i + 1], EntryCount(events[..i]);
    assert upTo[..i] == before && upTo == before + [events[i]] && events == upTo + events[i + 1..];
    CountIsSize(before);
    AppendExtends(upTo, events[i + 1..]);
    NewlyEntered(TraceOf(before), events[i]);
    assert TraceOf(upTo).traversals[k].iteration == CurrentIteration(TraceOf(before));
    CurrentIsOpen(before);
    assert forall s: nat :: s < |before| ==> before[s] == events[s];
  }

  lemma CurrentIsOpen(events: seq<Event>)
    ensures forall s: nat :: OpenSince(events, s) ==> CurrentIteration(TraceOf(events)) == Some(events[s].number)
    ensures (forall s: nat :: !OpenSince(events, s)) ==> CurrentIteration(TraceOf(events)) == None
  {
    IterationIsOpen(events, 0);
    forall s: nat | OpenSince(events, s) ensures CurrentIteration(TraceOf(events)) == Some(events[s].number) {
      IterationIsOpen(events, s);
    }
  }

  /** The last start of the iteration in the log. */
  ghost predicate LastStart(events: seq<Event>, id: string, s: nat) {
    && s < |events| && Starts(events[s]) && events[s].iterationId == id
    && forall k :: s < k < |events| ==> !(Starts(events[k]) && events[k].iterationId == id)
  }

  /** The last completion of the iteration after `s`. */
  ghost predicate LastCompletion(events: seq<Event>, id: string, s: nat, c: nat) {
    s < c < |events| && Completes(events[c], id) && forall k :: c < k < |events| ==> !Completes(events[k], id)
  }

  ghost predicate NeverCompleted(events: seq<Event>, id: string, s: nat) {
    forall k :: s < k < |events| ==> !Completes(events[k], id)
  }

  /** What the trace keeps of an iteration started at `s`. */
  ghost predicate Keeps(events: seq<Event>, id: string, s: nat, v: Iteration)
    requires s < |events|
  {
    && v.number == events[s].number && v.started == Some(events[s].sequence)
    && (forall c: nat :: LastCompletion(events, id, s, c) ==> v.completed == Some(events[c].sequence))
    && (NeverCompleted(events, id, s) ==> v.completed == None)
  }

  lemma CompletionStep(events: seq<Event>, e: Event, id: string, s: nat, c: nat)
    requires s < |events|
    ensures LastCompletion(events + [e], id, s, c) <==>
              if Completes(e, id) then c == |events| else c < |events| && LastCompletion(events, id, s, c)
    ensures NeverCompleted(events + [e], id, s) <==> NeverCompleted(events, id, s) && !Completes(e, id)
  {
    var all := events + [e];
    assert forall k :: 0 <= k < |events| ==> all[k] == events[k];
    assert all[|events|] == e;
    if NeverCompleted(all, id, s) {
      forall k | s < k < |events| ensures !Completes(events[k], id) { assert !Completes(all[k], id); }
      assert !Completes(all[|events|], id);
    }
    if c < |events| && LastCompletion(all, id, s, c) {
      forall k | c < k < |events| ensures !Completes(events[k], id) { assert !Completes(all[k], id); }
      assert !Completes(all[|events|], id);
    }
  }

  lemma KeepsOn(events: seq<Event>, e: Event, id: string, s: nat, v: Iteration)
    requires s < |events| && Keeps(events, id, s, v)
    ensures Keeps(events + [e], id, s, if Completes(e, id) then v.(completed := Some(e.sequence)) else v)
  {
    var all := events + [e];
    assert all[s] == events[s] && all[|events|] == e;
    forall c: nat
      ensures LastCompletion(all, id, s, c) <==>
                if Completes(e, id) then c == |events| else c < |events| && LastCompletion(events, id, s, c)
      ensures NeverCompleted(all, id, s) <==> NeverCompleted(events, id, s) && !Completes(e, id)
    {
      CompletionStep(events, e, id, s, c);
    }
    assert forall c: nat :: c < |events| ==> all[c] == events[c];
    if NeverCompleted(all, id, s) { CompletionStep(events, e, id, s, 0); }
  }

  lemma LastStartStep(events: seq<Event>, e: Event, id: string, s: nat)
    ensures LastStart(events + [e], id, s) <==>
              if Starts(e) && e.iterationId == id then s == |events| else s < |events| && LastStart(events, id, s)
  {
    var all := events + [e];
    assert forall k :: 0 <= k < |events| ==> all[k] == events[k];
    assert all[|events|] == e;
    if s < |events| && LastStart(all, id, s) {
      forall k | s < k < |events| ensures !(Starts(events[k]) && events[k].iterationId == id) {
        assert !(Starts(all[k]) && all[k].iterationId == id);
      }
      assert !(Starts(all[|events|]) && all[|events|].iterationId == id);
    }
  }

  /** On every log an iteration has the number and start of its last start, and the last completion since. */
  lemma {:induction false} IterationIsKept(events: seq<Event>, id: string, s: nat)
    requires LastStart(events, id, s)
    ensures id in TraceOf(events).iterations && Keeps(events, id, s, TraceOf(events).iterations[id])
    decreases |events|
  {
    var rest, last := events[..|events| - 1], events[|events| - 1];
    assert events == rest + [last];
    LastStartStep(rest, last, id, s);
    if s < |rest| {
      IterationIsKept(rest, id, s);
      IterationStep(TraceOf(rest), last, id);
      KeepsOn(rest, last, id, s, TraceOf(rest).iterations[id]);
    } else {
      StartKeeps(rest, last);
    }
  }

  lemma IterationStep(t: ExecutionTrace, e: Event, id: string)
    requires id in t.iterations && id != "" && !(Starts(e) && e.iterationId == id)
    ensures var u := Step(t, e);
            && id in u.iterations
            && u.iterations[id] ==
               if Completes(e, id) then t.iterations[id].(completed := Some(e.sequence)) else t.iterations[id]
  {
  }

  lemma StartKeeps(events: seq<Event>, e: Event)
    requires Starts(e)
    ensures var t := Step(TraceOf(events), e);
            e.iterationId in t.iterations &&
            Keeps(events + [e], e.iterationId, |events|, t.iterations[e.iterationId])
  {
    assert (events + [e])[|events|] == e;
  }

  /** The last sequence of the trace is the greatest of the log. */
  lemma {:induction false} LastIsGreatest(events: seq<Event>)
    ensures forall i :: 0 <= i < |events| ==> events[i].sequence <= TraceOf(events).lastSequence
    ensures TraceOf(events).lastSequence == 0 ||
            exists i :: 0 <= i < |events| && events[i].sequence == TraceOf(events).lastSequence
  {
    if events != [] {
      var rest, last := events[..|events| - 1], events[|events| - 1];
      LastIsGreatest(rest);
      assert forall i :: 0 <= i < |rest| ==> rest[i] == events[i];
      if last.sequence <= TraceOf(rest).lastSequence && TraceOf(rest).lastSequence != 0 {
        var i :| 0 <= i < |rest| && rest[i].sequence == TraceOf(rest).lastSequence;
        assert events[i] == rest[i];
      }
    }
  }
}
