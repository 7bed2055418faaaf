/**
 The execution trace replayed from the event log (src/accretion/tracing.py): a fold that opens a
 traversal on every node entry and closes the latest open one on exit.

 Optional strings are empty when absent; `status` is the exit status as text, however it came.
 */
module Trace {
  import opened Sequences

  datatype EventKind = NodeEntered | NodeExited | IterationStarted | IterationCompleted | Other

  datatype Event = Event(sequence: nat, timestamp: int, kind: EventKind, nodeId: string, status: string,
                         iterationId: string, number: int, enteredVia: string)

  datatype NodeStatus = Pending | Running | Waiting | Succeeded | Failed | Cancelled

  datatype Exit = Exit(sequence: nat, at: int)

  datatype Traversal = Traversal(nodeId: string, enteredSequence: nat, enteredAt: int, iteration: Option<int>,
                                 status: NodeStatus, exit: Option<Exit>)

  datatype Iteration = Iteration(number: int, started: Option<nat>, completed: Option<nat>)

  datatype ExecutionTrace = ExecutionTrace(traversals: seq<Traversal>, open: map<string, nat>,
                                           iterations: map<string, Iteration>, openIteration: Option<string>,
                                           lastSequence: nat)

  const EMPTY := ExecutionTrace([], map[], map[], None, 0)

  /** An unreadable exit status is never read optimistically. */
  function ReadStatus(text: string): NodeStatus {
    if text == "PENDING" then Pending
    else if text == "RUNNING" then Running
    else if text == "WAITING" then Waiting
    else if text == "SUCCEEDED" then Succeeded
    else if text == "CANCELLED" then Cancelled
    else Failed
  }

  // ---------------------------------------------------------------- one event

  function CurrentIteration(t: ExecutionTrace): Option<int> {
    if t.openIteration.Some? && t.openIteration.value in t.iterations
    then Some(t.iterations[t.openIteration.value].number) else None
  }

  function EnterNode(t: ExecutionTrace, e: Event): ExecutionTrace {
    t.(open := t.open[e.nodeId := |t.traversals|],
       traversals := t.traversals + [Traversal(e.nodeId, e.sequence, e.timestamp, CurrentIteration(t), Running, None)])
  }

  function ExitNode(t: ExecutionTrace, e: Event): ExecutionTrace {
    if e.nodeId in t.open && t.open[e.nodeId] < |t.traversals| then
      var i := t.open[e.nodeId];
      t.(open := t.open - {e.nodeId},
         traversals := t.traversals[i := t.traversals[i].(exit := Some(Exit(e.sequence, e.timestamp)),
                                                          status := ReadStatus(e.status))])
    else t
  }

  function CompleteIteration(t: ExecutionTrace, e: Event): ExecutionTrace {
    var existing := if e.iterationId in t.iterations then t.iterations[e.iterationId]
                    else Iteration(e.number, None, None);
    t.(iterations := t.iterations[e.iterationId := existing.(completed := Some(e.sequence))],
       openIteration := if t.openIteration == Some(e.iterationId) then None else t.openIteration)
  }

  function Apply(t: ExecutionTrace, e: Event): ExecutionTrace {
    if e.kind == NodeEntered && e.nodeId != "" then EnterNode(t, e)
    else if e.kind == NodeExited && e.nodeId != "" then ExitNode(t, e)
    else if e.kind == IterationStarted && e.iterationId != "" then
      t.(openIteration := Some(e.iterationId),
         iterations := t.iterations[e.iterationId := Iteration(e.number, Some(e.sequence), None)])
    else if e.kind == IterationCompleted && e.iterationId != "" then CompleteIteration(t, e)
    else t
  }

  function Step(t: ExecutionTrace, e: Event): ExecutionTrace {
    Apply(t, e).(lastSequence := if e.sequence > t.lastSequence then e.sequence else t.lastSequence)
  }

  function TraceOf(events: seq<Event>): ExecutionTrace {
    if events == [] then EMPTY else Step(TraceOf(events[..|events| - 1]), events[|events| - 1])
  }

  // ---------------------------------------------------------------- the loop

  /** `build_execution_trace`: one pass over the log; its dictionary lookups never fail. */
  method BuildExecutionTrace(events: seq<Event>) returns (trace: ExecutionTrace)
    ensures trace == TraceOf(events) && Consistent(trace)
  {
    var traversals: seq<Traversal> := [];
    var open: map<string, nat> := map[];
    var iterations: map<string, Iteration> := map[];
    var openIteration: Option<string> := None;
    var lastSequence: nat := 0;
    for i := 0 to |events|
      invariant ExecutionTrace(traversals, open, iterations, openIteration, lastSequence) == TraceOf(events[..i])
      invariant Consistent(TraceOf(events[..i]))
    {
      var e := events[i];
      assert events[..i + 1][..i] == events[..i] && events[..i + 1][i] == e;
      StepConsistent(TraceOf(events[..i]), e);
      assert OpenIsLatest(TraceOf(events[..i]), e.nodeId);
      if e.sequence > lastSequence { lastSequence := e.sequence; }
      if e.kind == NodeEntered && e.nodeId != "" {
        var number := if openIteration.Some? then Some(iterations[openIteration.value].number) else None;
        open := open[e.nodeId := |traversals|];
        traversals := traversals + [Traversal(e.nodeId, e.sequence, e.timestamp, number, Running, None)];
      } else if e.kind == NodeExited && e.nodeId != "" {
        if e.nodeId in open {
          var k := open[e.nodeId];
          open := open - {e.nodeId};
          traversals := traversals[k := traversals[k].(exit := Some(Exit(e.sequence, e.timestamp)),
                                                       status := ReadStatus(e.status))];
        }
      } else if e.kind == IterationStarted && e.iterationId != "" {
        openIteration := Some(e.iterationId);
        iterations := iterations[e.iterationId := Iteration(e.number, Some(e.sequence), None)];
      } else if e.kind == IterationCompleted && e.iterationId != "" {
        var existing := if e.iterationId in iterations then iterations[e.iterationId]
                        else Iteration(e.number, None, None);
        iterations := iterations[e.iterationId := existing.(completed := Some(e.sequence))];
        if openIteration == Some(e.iterationId) { openIteration := None; }
      }
    }
    assert events[..|events|] == events;
    return ExecutionTrace(traversals, open, iterations, openIteration, lastSequence);
  }

  // ---------------------------------------------------------------- what every replayed trace satisfies

  /** The open entry of a node is its latest traversal, and that one has not been exited. */
  ghost predicate OpenIsLatest(t: ExecutionTrace, n: string) {
    n in t.open ==>
      && t.open[n] < |t.traversals|
      && t.traversals[t.open[n]].nodeId == n && t.traversals[t.open[n]].exit.None?
      && forall j :: t.open[n] < j < |t.traversals| ==> t.traversals[j].nodeId != n
  }

  /** A node that is not open has nothing to close: its latest traversal is exited. */
  ghost predicate ClosedIsExited(t: ExecutionTrace, i: nat)
    requires i < |t.traversals|
  {
    var n := t.traversals[i].nodeId;
    n !in t.open && (forall j :: i < j < |t.traversals| ==> t.traversals[j].nodeId != n) ==> t.traversals[i].exit.Some?
  }

  ghost predicate Consistent(t: ExecutionTrace) {
    && (forall n :: OpenIsLatest(t, n))
    && (forall i :: 0 <= i < |t.traversals| ==> ClosedIsExited(t, i))
    && (forall i :: 0 <= i < |t.traversals| && t.traversals[i].exit.None? ==> t.traversals[i].status == Running)
    && (t.openIteration.Some? ==> t.openIteration.value in t.iterations)
  }

  lemma EnterConsistent(t: ExecutionTrace, e: Event)
    requires Consistent(t)
    ensures Consistent(EnterNode(t, e))
  {
    var next := EnterNode(t, e);
    forall n ensures OpenIsLatest(next, n) { assert OpenIsLatest(t, n); }
    forall i | 0 <= i < |next.traversals|
      ensures ClosedIsExited(next, i)
    {
      if i < |t.traversals| {
        assert ClosedIsExited(t, i);
        assert next.traversals[i] == t.traversals[i];
        assert next.traversals[|t.traversals|].nodeId == e.nodeId;
        assert forall j :: i < j < |t.traversals| ==> next.traversals[j] == t.traversals[j];
      }
    }
  }

  lemma ExitConsistent(t: ExecutionTrace, e: Event)
    requires Consistent(t)
    ensures Consistent(ExitNode(t, e))
  {
    var next := ExitNode(t, e);
    assert OpenIsLatest(t, e.nodeId);
    assert forall j :: 0 <= j < |t.traversals| ==> next.traversals[j].nodeId == t.traversals[j].nodeId;
    forall n ensures OpenIsLatest(next, n) { assert OpenIsLatest(t, n); }
    forall i | 0 <= i < |next.traversals|
      ensures ClosedIsExited(next, i)
    {
      assert ClosedIsExited(t, i);
      if e.nodeId in t.open && next.traversals[i].nodeId == e.nodeId && i < t.open[e.nodeId] {
        assert next.traversals[t.open[e.nodeId]].nodeId == e.nodeId;
      }
    }
  }

  lemma StepConsistent(t: ExecutionTrace, e: Event)
    requires Consistent(t)
    ensures Consistent(Step(t, e))
  {
    if e.kind == NodeEntered && e.nodeId != "" {
      EnterConsistent(t, e);
      SameTraversals(EnterNode(t, e), Step(t, e));
    } else if e.kind == NodeExited && e.nodeId != "" {
      ExitConsistent(t, e);
      SameTraversals(ExitNode(t, e), Step(t, e));
    } else {
      SameTraversals(t, Step(t, e));
    }
  }

  lemma SameTraversals(t: ExecutionTrace, u: ExecutionTrace)
    requires Consistent(t) && u.traversals == t.traversals && u.open == t.open
    requires u.openIteration.Some? ==> u.openIteration.value in u.iterations
    ensures Consistent(u)
  {
    forall n ensures OpenIsLatest(u, n) { assert OpenIsLatest(t, n); }
    forall i | 0 <= i < |u.traversals| ensures ClosedIsExited(u, i) { assert ClosedIsExited(t, i); }
  }

  lemma {:induction false} TraceConsistent(events: seq<Event>)
    ensures Consistent(TraceOf(events))
  {
    if events != [] {
      TraceConsistent(events[..|events| - 1]);
      StepConsistent(TraceOf(events[..|events| - 1]), events[|events| - 1]);
    }
  }

  // ---------------------------------------------------------------- appending to the log

  ghost predicate SameEntry(a: Traversal, b: Traversal) {
    a.nodeId == b.nodeId && a.enteredSequence == b.enteredSequence && a.enteredAt == b.enteredAt &&
    a.iteration == b.iteration
  }

  /** `later` kept every entry of `t`, and every traversal that `t` had closed. */
  ghost predicate Extends(t: ExecutionTrace, later: ExecutionTrace) {
    && |t.traversals| <= |later.traversals|
    && (forall i :: 0 <= i < |t.traversals| ==>
                      && SameEntry(t.traversals[i], later.traversals[i])
                      && (t.traversals[i].exit.Some? ==> later.traversals[i] == t.traversals[i]))
    && t.lastSequence <= later.lastSequence
  }

  lemma StepExtends(t: ExecutionTrace, e: Event)
    requires Consistent(t)
    ensures Extends(t, Step(t, e))
  {
    assert OpenIsLatest(t, e.nodeId);
  }

  lemma ExtendsTransitive(a: ExecutionTrace, b: ExecutionTrace, c: ExecutionTrace)
    requires Extends(a, b) && Extends(b, c)
    ensures Extends(a, c)
  {
  }

  /** Appending events never changes a closed traversal, nor how any traversal was entered. */
  lemma {:induction false} AppendExtends(events: seq<Event>, more: seq<Event>)
    ensures Extends(TraceOf(events), TraceOf(events + more))
  {
    if more == [] {
      assert events + more == events;
    } else {
      var all := events + more;
      assert all[..|all| - 1] == events + more[..|more| - 1];
      AppendExtends(events, more[..|more| - 1]);
      TraceConsistent(all[..|all| - 1]);
      StepExtends(TraceOf(all[..|all| - 1]), all[|all| - 1]);
      ExtendsTransitive(TraceOf(events), TraceOf(all[..|all| - 1]), TraceOf(all));
    }
  }

  // ---------------------------------------------------------------- order

  ghost predicate Increasing(events: seq<Event>) {
    forall i, j :: 0 <= i < j < |events| ==> events[i].sequence < events[j].sequence
  }

  ghost predicate ExitsFollowEntries(t: ExecutionTrace) {
    forall i :: 0 <= i < |t.traversals| && t.traversals[i].exit.Some? ==>
                  t.traversals[i].enteredSequence < t.traversals[i].exit.value.sequence
  }

  ghost predicate EnteredBy(t: ExecutionTrace, bound: nat) {
    forall i :: 0 <= i < |t.traversals| ==> t.traversals[i].enteredSequence <= bound
  }

  /** With increasing sequence numbers every exit comes after its own entry. */
  lemma {:induction false} ExitsAreLater(events: seq<Event>)
    requires Increasing(events)
    ensures ExitsFollowEntries(TraceOf(events))
    ensures events != [] ==> EnteredBy(TraceOf(events), events[|events| - 1].sequence)
  {
    if events != [] {
      var rest, last := events[..|events| - 1], events[|events| - 1];
      assert Increasing(rest) by { assert forall i :: 0 <= i < |rest| ==> rest[i] == events[i]; }
      ExitsAreLater(rest);
      if rest != [] { assert rest[|rest| - 1].sequence < last.sequence; }
    }
  }
}
