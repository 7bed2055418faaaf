/**
 Nested-semaphore admission (src/accretion/concurrency.py): every request takes the global
 permit, then its provider's, then its project's, runs its body, and gives them back in reverse.

 The limiter is modelled as the transition system its tasks can go through, over any number of
 requests. A semaphore is first come, first served, as `asyncio.Semaphore` is: a released permit
 goes straight to the first waiter, and a newcomer queues behind the waiters.
 */
module Admission {
  import opened Sequences

  type RequestId = nat

  datatype Limits = Limits(global: nat, provider: nat, project: nat)

  datatype Semaphore = Global | ForProvider(provider: string) | ForProject(project: string)

  /** `Leaving(n)` still holds its first `n` permits; `Leaving(0)` has finished. */
  datatype Phase = Wanting(level: nat) | Queued(level: nat) | Body | Leaving(held: nat)

  datatype Request = Request(provider: string, project: string, phase: Phase)

  type Requests = map<RequestId, Request>

  /** Provider and project semaphores come into being on first use, full. */
  datatype State = State(limits: Limits, requests: Requests,
                         free: map<Semaphore, nat>, queues: map<Semaphore, seq<RequestId>>)

  datatype Step =
    | Arrive(i: RequestId, provider: string, project: string)
    | Acquire(i: RequestId)
    | Finish(i: RequestId)
    | Cancel(i: RequestId)
    | Release(i: RequestId)

  const LEVELS := 3

  // ---------------------------------------------------------------- reading a state

  function Limit(limits: Limits, s: Semaphore): nat {
    match s
    case Global => limits.global
    case ForProvider(_) => limits.provider
    case ForProject(_) => limits.project
  }

  function LevelOf(s: Semaphore): nat {
    match s
    case Global => 0
    case ForProvider(_) => 1
    case ForProject(_) => 2
  }

  /** The order of the three context managers. */
  function SemaphoreAt(r: Request, level: nat): Semaphore {
    if level == 0 then Global else if level == 1 then ForProvider(r.provider) else ForProject(r.project)
  }

  function Free(st: State, s: Semaphore): nat {
    if s in st.free then st.free[s] else Limit(st.limits, s)
  }

  function Queue(st: State, s: Semaphore): seq<RequestId> {
    if s in st.queues then st.queues[s] else []
  }

  function HeldBy(phase: Phase): nat {
    match phase
    case Wanting(k) => k
    case Queued(k) => k
    case Body => LEVELS
    case Leaving(k) => k
  }

  predicate ValidPhase(phase: Phase) {
    match phase
    case Wanting(k) => k < LEVELS
    case Queued(k) => k < LEVELS
    case Body => true
    case Leaving(k) => k <= LEVELS
  }

  predicate Holds(r: Request, s: Semaphore) {
    LevelOf(s) < HeldBy(r.phase) && SemaphoreAt(r, LevelOf(s)) == s
  }

  predicate WaitsFor(r: Request, s: Semaphore) {
    r.phase.Queued? && SemaphoreAt(r, r.phase.level) == s
  }

  function Holders(requests: Requests, s: Semaphore): set<RequestId> {
    set i | i in requests && Holds(requests[i], s)
  }

  predicate AllDone(st: State) {
    forall i :: i in st.requests ==> st.requests[i].phase == Leaving(0)
  }

  // ---------------------------------------------------------------- steps

  function Granted(level: nat): Phase {
    if level + 1 < LEVELS then Wanting(level + 1) else Body
  }

  function Remove(q: seq<RequestId>, i: RequestId): seq<RequestId> {
    if q == [] then [] else if q[0] == i then q[1..] else [q[0]] + Remove(q[1..], i)
  }

  predicate Enabled(st: State, step: Step) {
    match step
    case Arrive(i, _, _) => i !in st.requests
    case Acquire(i) => i in st.requests && st.requests[i].phase.Wanting?
    case Finish(i) => i in st.requests && st.requests[i].phase.Body?
    case Cancel(i) => i in st.requests && !st.requests[i].phase.Leaving?
    case Release(i) => i in st.requests && st.requests[i].phase.Leaving? && st.requests[i].phase.held > 0
  }

  function SetPhase(requests: Requests, i: RequestId, phase: Phase): Requests
    requires i in requests
  {
    requests[i := requests[i].(phase := phase)]
  }

  function Take(st: State, i: RequestId, s: Semaphore): State
    requires i in st.requests && Free(st, s) > 0
  {
    st.(requests := SetPhase(st.requests, i, Granted(LevelOf(s))), free := st.free[s := Free(st, s) - 1])
  }

  function Enqueue(st: State, i: RequestId, s: Semaphore): State
    requires i in st.requests
  {
    st.(requests := SetPhase(st.requests, i, Queued(LevelOf(s))), queues := st.queues[s := Queue(st, s) + [i]])
  }

  /** A cancelled or failing request stops waiting and unwinds what it holds. */
  function Abandon(st: State, i: RequestId): State
    requires i in st.requests
  {
    var phase := st.requests[i].phase;
    var requests := SetPhase(st.requests, i, Leaving(HeldBy(phase)));
    if phase.Queued? then
      var s := SemaphoreAt(st.requests[i], phase.level);
      st.(requests := requests, queues := st.queues[s := Remove(Queue(st, s), i)])
    else
      st.(requests := requests)
  }

  function HandOver(st: State, i: RequestId, s: Semaphore): State
    requires i in st.requests && Queue(st, s) != [] && Queue(st, s)[0] in st.requests
  {
    var requests := SetPhase(st.requests, i, Leaving(LevelOf(s)));
    st.(requests := SetPhase(requests, Queue(st, s)[0], Granted(LevelOf(s))),
        queues := st.queues[s := Queue(st, s)[1..]])
  }

  function GiveBack(st: State, i: RequestId, s: Semaphore): State
    requires i in st.requests
  {
    st.(requests := SetPhase(st.requests, i, Leaving(LevelOf(s))), free := st.free[s := Free(st, s) + 1])
  }

  function Apply(st: State, step: Step): State
    requires Enabled(st, step)
  {
    match step
    case Arrive(i, provider, project) =>
      st.(requests := st.requests[i := Request(provider, project, Wanting(0))])
    case Acquire(i) =>
      var s := SemaphoreAt(st.requests[i], st.requests[i].phase.level);
      if Free(st, s) > 0 && Queue(st, s) == [] then Take(st, i, s) else Enqueue(st, i, s)
    case Finish(i) =>
      st.(requests := SetPhase(st.requests, i, Leaving(LEVELS)))
    case Cancel(i) =>
      Abandon(st, i)
    case Release(i) =>
      var s := SemaphoreAt(st.requests[i], st.requests[i].phase.held - 1);
      if Queue(st, s) != [] && Queue(st, s)[0] in st.requests then HandOver(st, i, s) else GiveBack(st, i, s)
  }

  function Init(limits: Limits): State {
    State(limits, map[], map[], map[])
  }

  predicate Runs(st: State, steps: seq<Step>)
    decreases |steps|
  {
    steps == [] || (Enabled(st, steps[0]) && Runs(Apply(st, steps[0]), steps[1..]))
  }

  function After(st: State, steps: seq<Step>): State
    requires Runs(st, steps)
    decreases |steps|
  {
    if steps == [] then st else After(Apply(st, steps[0]), steps[1..])
  }

  // ---------------------------------------------------------------- the invariant

  ghost predicate Conserved(requests: Requests, s: Semaphore, free: int, limit: nat) {
    free + |Holders(requests, s)| == limit
  }

  ghost predicate QueueIsWaiters(requests: Requests, s: Semaphore, q: seq<RequestId>) {
    NoDuplicates(q) && forall i :: i in q <==> i in requests && WaitsFor(requests[i], s)
  }

  /** At one semaphore: permits are conserved, the queue is exactly the waiters, nobody waits for a free permit. */
  ghost predicate Balanced(st: State, s: Semaphore) {
    && Conserved(st.requests, s, Free(st, s), Limit(st.limits, s))
    && QueueIsWaiters(st.requests, s, Queue(st, s))
    && (Queue(st, s) != [] ==> Free(st, s) == 0)
  }

  ghost predicate Inv(st: State) {
    && (forall i :: i in st.requests ==> ValidPhase(st.requests[i].phase))
    && (forall s :: Balanced(st, s))
  }

  function HoldCount(requests: Requests, i: RequestId, s: Semaphore): nat {
    if i in requests && Holds(requests[i], s) then 1 else 0
  }

  /** Changing one request moves one semaphore's permits by what that request holds of it. */
  lemma ConservedUpdate(requests: Requests, i: RequestId, r: Request, s: Semaphore, free: int, limit: nat)
    requires Conserved(requests, s, free, limit)
    ensures Conserved(requests[i := r], s,
                      free + HoldCount(requests, i, s) - HoldCount(requests[i := r], i, s), limit)
  {
    assert Holders(requests[i := r], s) ==
           if Holds(r, s) then Holders(requests, s) + {i} else Holders(requests, s) - {i};
  }

  lemma QueueUpdate(requests: Requests, i: RequestId, r: Request, s: Semaphore, q: seq<RequestId>, q': seq<RequestId>)
    requires QueueIsWaiters(requests, s, q) && NoDuplicates(q')
    requires forall j :: j in q' <==> if j == i then WaitsFor(r, s) else j in q
    ensures QueueIsWaiters(requests[i := r], s, q')
  {
  }

  lemma {:induction false} RemoveFacts(q: seq<RequestId>, i: RequestId)
    requires NoDuplicates(q)
    ensures NoDuplicates(Remove(q, i))
    ensures forall j :: j in Remove(q, i) <==> j in q && j != i
  {
    if q != [] {
      var rest := q[1..];
      RemoveFacts(rest, i);
      assert q == [q[0]] + rest;
      assert forall j :: j in q <==> j == q[0] || j in rest;
      assert q[0] !in rest;
    }
  }

  lemma SimpleStepKeepsBalance(st: State, step: Step, s: Semaphore)
    requires Balanced(st, s) && Enabled(st, step) && (step.Arrive? || step.Finish?)
    ensures Balanced(Apply(st, step), s)
  {
    var i := step.i;
    var r := Apply(st, step).requests[i];
    ConservedUpdate(st.requests, i, r, s, Free(st, s), Limit(st.limits, s));
    QueueUpdate(st.requests, i, r, s, Queue(st, s), Queue(st, s));
  }

  lemma TakeKeepsBalance(st: State, i: RequestId, t: Semaphore, s: Semaphore)
    requires Balanced(st, s) && i in st.requests && st.requests[i].phase == Wanting(LevelOf(t))
    requires SemaphoreAt(st.requests[i], LevelOf(t)) == t && Free(st, t) > 0 && Queue(st, t) == []
    ensures Balanced(Take(st, i, t), s)
  {
    var r := Take(st, i, t).requests[i];
    ConservedUpdate(st.requests, i, r, s, Free(st, s), Limit(st.limits, s));
    QueueUpdate(st.requests, i, r, s, Queue(st, s), Queue(st, s));
  }

  lemma EnqueueKeepsBalance(st: State, i: RequestId, t: Semaphore, s: Semaphore)
    requires Balanced(st, s) && i in st.requests && st.requests[i].phase == Wanting(LevelOf(t))
    requires SemaphoreAt(st.requests[i], LevelOf(t)) == t && (Free(st, t) == 0 || Queue(st, t) != [])
    ensures Balanced(Enqueue(st, i, t), s)
  {
    var next := Enqueue(st, i, t);
    ConservedUpdate(st.requests, i, next.requests[i], s, Free(st, s), Limit(st.limits, s));
    assert i !in Queue(st, s);
    QueueUpdate(st.requests, i, next.requests[i], s, Queue(st, s), Queue(next, s));
  }

  lemma AbandonKeepsBalance(st: State, i: RequestId, s: Semaphore)
    requires Balanced(st, s) && i in st.requests && !st.requests[i].phase.Leaving?
    ensures Balanced(Abandon(st, i), s)
  {
    var next := Abandon(st, i);
    ConservedUpdate(st.requests, i, next.requests[i], s, Free(st, s), Limit(st.limits, s));
    RemoveFacts(Queue(st, s), i);
    QueueUpdate(st.requests, i, next.requests[i], s, Queue(st, s), Queue(next, s));
  }

  lemma HandOverConserves(st: State, i: RequestId, t: Semaphore, w: RequestId, s: Semaphore)
    requires Conserved(st.requests, s, Free(st, s), Limit(st.limits, s))
    requires i in st.requests && st.requests[i].phase == Leaving(LevelOf(t) + 1) &&
              SemaphoreAt(st.requests[i], LevelOf(t)) == t
    requires w in st.requests && st.requests[w].phase == Queued(LevelOf(t)) &&
              SemaphoreAt(st.requests[w], LevelOf(t)) == t
    requires Queue(st, t) != [] && Queue(st, t)[0] == w
    ensures Conserved(HandOver(st, i, t).requests, s, Free(st, s), Limit(st.limits, s))
  {
    var next := HandOver(st, i, t);
    var middle := SetPhase(st.requests, i, Leaving(LevelOf(t)));
    ConservedUpdate(st.requests, i, middle[i], s, Free(st, s), Limit(st.limits, s));
    var released := Free(st, s) + HoldCount(st.requests, i, s) - HoldCount(middle, i, s);
    ConservedUpdate(middle, w, next.requests[w], s, released, Limit(st.limits, s));
    assert next.requests == middle[w := next.requests[w]];
  }

  lemma HandOverQueue(st: State, i: RequestId, t: Semaphore, w: RequestId, s: Semaphore)
    requires QueueIsWaiters(st.requests, s, Queue(st, s))
    requires i in st.requests && st.requests[i].phase == Leaving(LevelOf(t) + 1)
    requires w in st.requests && st.requests[w].phase == Queued(LevelOf(t)) &&
              SemaphoreAt(st.requests[w], LevelOf(t)) == t
    requires Queue(st, t) != [] && Queue(st, t)[0] == w
    ensures QueueIsWaiters(HandOver(st, i, t).requests, s, Queue(HandOver(st, i, t), s))
  {
    var next := HandOver(st, i, t);
    var middle := SetPhase(st.requests, i, Leaving(LevelOf(t)));
    QueueUpdate(st.requests, i, middle[i], s, Queue(st, s), Queue(st, s));
    assert s == t ==> Queue(st, s) == [w] + Queue(next, s);
    QueueUpdate(middle, w, next.requests[w], s, Queue(st, s), Queue(next, s));
    assert next.requests == middle[w := next.requests[w]];
  }

  lemma GiveBackKeepsBalance(st: State, i: RequestId, t: Semaphore, s: Semaphore)
    requires Balanced(st, s) && i in st.requests && st.requests[i].phase == Leaving(LevelOf(t) + 1)
    requires SemaphoreAt(st.requests[i], LevelOf(t)) == t && Queue(st, t) == []
    ensures Balanced(GiveBack(st, i, t), s)
  {
    var r := GiveBack(st, i, t).requests[i];
    ConservedUpdate(st.requests, i, r, s, Free(st, s), Limit(st.limits, s));
    QueueUpdate(st.requests, i, r, s, Queue(st, s), Queue(st, s));
  }

  lemma HeadWaits(st: State, t: Semaphore) returns (w: RequestId)
    requires Inv(st) && Queue(st, t) != []
    ensures w == Queue(st, t)[0] && w in st.requests
    ensures st.requests[w].phase == Queued(LevelOf(t)) && SemaphoreAt(st.requests[w], LevelOf(t)) == t
  {
    w := Queue(st, t)[0];
    assert Balanced(st, t) && w in Queue(st, t);
  }

  lemma StepKeepsBalance(st: State, step: Step, s: Semaphore)
    requires Inv(st) && Enabled(st, step)
    ensures Balanced(Apply(st, step), s)
  {
    assert Balanced(st, s);
    match step
    case Arrive(_, _, _) => SimpleStepKeepsBalance(st, step, s);
    case Finish(_) => SimpleStepKeepsBalance(st, step, s);
    case Acquire(i) =>
      var t := SemaphoreAt(st.requests[i], st.requests[i].phase.level);
      if Free(st, t) > 0 && Queue(st, t) == [] {
        TakeKeepsBalance(st, i, t, s);
      } else {
        EnqueueKeepsBalance(st, i, t, s);
      }
    case Cancel(i) => AbandonKeepsBalance(st, i, s);
    case Release(i) =>
      var t := SemaphoreAt(st.requests[i], st.requests[i].phase.held - 1);
      if Queue(st, t) != [] {
        var w := HeadWaits(st, t);
        assert Balanced(st, t);
        HandOverConserves(st, i, t, w, s);
        HandOverQueue(st, i, t, w, s);
      } else {
        GiveBackKeepsBalance(st, i, t, s);
      }
  }

  lemma StepKeepsInv(st: State, step: Step)
    requires Inv(st) && Enabled(st, step)
    ensures Inv(Apply(st, step)) && Apply(st, step).limits == st.limits
  {
    PhasesStayValid(st, step);
    forall s
      ensures Balanced(Apply(st, step), s)
    {
      StepKeepsBalance(st, step, s);
    }
  }

  lemma PhasesStayValid(st: State, step: Step)
    requires Inv(st) && Enabled(st, step)
    ensures forall i :: i in Apply(st, step).requests ==> ValidPhase(Apply(st, step).requests[i].phase)
  {
  }

  lemma {:induction false} RunKeepsInv(st: State, steps: seq<Step>)
    requires Inv(st) && Runs(st, steps)
    ensures Inv(After(st, steps)) && After(st, steps).limits == st.limits
    decreases |steps|
  {
    if steps != [] {
      StepKeepsInv(st, steps[0]);
      RunKeepsInv(Apply(st, steps[0]), steps[1..]);
    }
  }

  lemma InitInv(limits: Limits)
    ensures Inv(Init(limits))
  {
    forall s
      ensures Balanced(Init(limits), s)
    {
      assert Holders(Init(limits).requests, s) == {};
    }
  }

  /** The bodies that are running under one semaphore. */
  function Running(st: State, s: Semaphore): set<RequestId> {
    set i | i in st.requests && st.requests[i].phase.Body? && SemaphoreAt(st.requests[i], LevelOf(s)) == s
  }

  /**
   Safety of every interleaving of any number of requests, cancellations included: free permits
   plus holders equal the limit at each of the three levels, so no more bodies than the limit
   ever run at once, globally, for one provider or for one project.
   */
  lemma AdmissionIsSafe(limits: Limits, steps: seq<Step>, s: Semaphore)
    requires Runs(Init(limits), steps)
    ensures var st := After(Init(limits), steps);
            && Free(st, s) + |Holders(st.requests, s)| == Limit(limits, s)
            && |Running(st, s)| <= Limit(limits, s)
  {
    InitInv(limits);
    RunKeepsInv(Init(limits), steps);
    var st := After(Init(limits), steps);
    assert Balanced(st, s);
    assert Running(st, s) <= Holders(st.requests, s);
    SubsetIsSmaller(Running(st, s), Holders(st.requests, s));
  }

  function Bodies(requests: Requests): set<RequestId> {
    set i | i in requests && requests[i].phase == Body
  }

  function BodiesOfProvider(requests: Requests, provider: string): set<RequestId> {
    set i | i in requests && requests[i].phase == Body && requests[i].provider == provider
  }

  function BodiesOfProject(requests: Requests, project: string): set<RequestId> {
    set i | i in requests && requests[i].phase == Body && requests[i].project == project
  }

  /** So many bodies run at once: in all, for one provider, and for one project. */
  lemma BodiesStayWithinLimits(limits: Limits, steps: seq<Step>, provider: string, project: string)
    requires Runs(Init(limits), steps)
    ensures var requests := After(Init(limits), steps).requests;
            && |Bodies(requests)| <= limits.global
            && |BodiesOfProvider(requests, provider)| <= limits.provider
            && |BodiesOfProject(requests, project)| <= limits.project
  {
    var st := After(Init(limits), steps);
    AdmissionIsSafe(limits, steps, Global);
    AdmissionIsSafe(limits, steps, ForProvider(provider));
    AdmissionIsSafe(limits, steps, ForProject(project));
    assert Bodies(st.requests) == Running(st, Global);
    assert BodiesOfProvider(st.requests, provider) == Running(st, ForProvider(provider));
    assert BodiesOfProject(st.requests, project) == Running(st, ForProject(project));
  }

  /** A request waits for the global permit with none, for its provider's with that, for its project's with both. */
  lemma PermitsComeInOrder(r: Request, s: Semaphore)
    requires ValidPhase(r.phase) && WaitsFor(r, s)
    ensures s == Global || s == ForProvider(r.provider) || s == ForProject(r.project)
    ensures Holds(r, Global) <==> s != Global
    ensures Holds(r, ForProvider(r.provider)) <==> s == ForProject(r.project)
    ensures !Holds(r, ForProject(r.project))
  {
  }

  lemma {:induction false} SubsetIsSmaller(a: set<RequestId>, b: set<RequestId>)
    requires a <= b
    ensures |a| <= |b|
  {
    assert b == a + (b - a);
  }

  // ---------------------------------------------------------------- progress

  /** A step a request takes by itself: not an arrival, not a cancellation. */
  predicate OwnStep(step: Step) {
    step.Acquire? || step.Finish? || step.Release?
  }

  /** Follow waiters inwards: whoever holds the awaited permit is strictly further in. */
  lemma SomeoneCanMove(st: State, i: RequestId) returns (step: Step)
    requires Inv(st) && (forall s :: 1 <= Limit(st.limits, s))
    requires i in st.requests && st.requests[i].phase != Leaving(0)
    ensures OwnStep(step) && Enabled(st, step)
    decreases LEVELS - HeldBy(st.requests[i].phase)
  {
    var r := st.requests[i];
    match r.phase {
      case Wanting(_) => step := Acquire(i);
      case Body => step := Finish(i);
      case Leaving(_) => step := Release(i);
      case Queued(k) =>
        var s := SemaphoreAt(r, k);
        assert Balanced(st, s) && i in Queue(st, s);
        assert Holders(st.requests, s) != {};
        var h :| h in Holders(st.requests, s);
        step := SomeoneCanMove(st, h);
    }
  }

  /** Steps a request still has ahead of it, at most. */
  function Rank(phase: Phase): nat {
    match phase
    case Wanting(k) => if k < LEVELS then 10 - 2 * k else 0
    case Queued(k) => if k < LEVELS then 9 - 2 * k else 0
    case Body => 4
    case Leaving(k) => k
  }

  ghost function Work(requests: Requests): nat {
    if requests == map[] then 0
    else
      var i :| i in requests;
      Rank(requests[i].phase) + Work(requests - {i})
  }

  lemma {:induction false} WorkWithout(requests: Requests, i: RequestId)
    requires i in requests
    ensures Work(requests) == Rank(requests[i].phase) + Work(requests - {i})
    decreases |requests|
  {
    var j :| j in requests && Work(requests) == Rank(requests[j].phase) + Work(requests - {j});
    if j != i {
      WorkWithout(requests - {j}, i);
      WorkWithout(requests - {i}, j);
      assert requests - {j} - {i} == requests - {i} - {j};
    }
  }

  lemma WorkUpdate(requests: Requests, i: RequestId, phase: Phase)
    requires i in requests
    ensures Work(SetPhase(requests, i, phase)) == Work(requests) - Rank(requests[i].phase) + Rank(phase)
  {
    var after := SetPhase(requests, i, phase);
    WorkWithout(requests, i);
    WorkWithout(after, i);
    assert after - {i} == requests - {i};
  }

  lemma ReleaseShrinksWork(st: State, i: RequestId)
    requires Inv(st) && Enabled(st, Release(i))
    ensures Work(Apply(st, Release(i)).requests) < Work(st.requests)
  {
    assert ValidPhase(st.requests[i].phase);
    var k := st.requests[i].phase.held - 1;
    var t := SemaphoreAt(st.requests[i], k);
    if Queue(st, t) != [] {
      var w := HeadWaits(st, t);
      TwoShrinkWork(st.requests, i, w, k);
    } else {
      WorkUpdate(st.requests, i, Leaving(k));
    }
  }

  /** One request gives up a permit and another one that waits for it moves on. */
  lemma TwoShrinkWork(requests: Requests, i: RequestId, w: RequestId, k: nat)
    requires i in requests && requests[i].phase == Leaving(k + 1) && k < LEVELS
    requires w in requests && requests[w].phase == Queued(k)
    ensures Work(SetPhase(SetPhase(requests, i, Leaving(k)), w, Granted(k))) < Work(requests)
  {
    WorkUpdate(requests, i, Leaving(k));
    WorkUpdate(SetPhase(requests, i, Leaving(k)), w, Granted(k));
  }

  lemma StepShrinksWork(st: State, step: Step)
    requires Inv(st) && Enabled(st, step) && !step.Arrive?
    ensures Work(Apply(st, step).requests) < Work(st.requests)
  {
    var i := step.i;
    if step.Release? {
      ReleaseShrinksWork(st, i);
    } else {
      assert ValidPhase(st.requests[i].phase);
      var phase := Apply(st, step).requests[i].phase;
      WorkUpdate(st.requests, i, phase);
      assert Apply(st, step).requests == SetPhase(st.requests, i, phase);
    }
  }

  /** Without new arrivals every run is finite: no more steps than the work at its start. */
  lemma {:induction false} RunsAreFinite(st: State, steps: seq<Step>)
    requires Inv(st) && Runs(st, steps) && forall k :: 0 <= k < |steps| ==> !steps[k].Arrive?
    ensures |steps| + Work(After(st, steps).requests) <= Work(st.requests)
    decreases |steps|
  {
    if steps != [] {
      StepShrinksWork(st, steps[0]);
      StepKeepsInv(st, steps[0]);
      RunsAreFinite(Apply(st, steps[0]), steps[1..]);
    }
  }

  ghost predicate Stuck(st: State) {
    !AllDone(st) && forall step :: OwnStep(step) ==> !Enabled(st, step)
  }

  ghost predicate DeadlockFree(limits: Limits) {
    forall steps :: Runs(Init(limits), steps) ==> !Stuck(After(Init(limits), steps))
  }

  lemma NeverStuck(st: State)
    requires Inv(st) && (forall s :: 1 <= Limit(st.limits, s))
    ensures !Stuck(st)
  {
    if !AllDone(st) {
      var i :| i in st.requests && st.requests[i].phase != Leaving(0);
      var step := SomeoneCanMove(st, i);
    }
  }

  lemma {:induction false} RunsFurther(st: State, steps: seq<Step>, step: Step)
    requires Runs(st, steps) && Enabled(After(st, steps), step)
    ensures Runs(st, steps + [step]) && After(st, steps + [step]) == Apply(After(st, steps), step)
    decreases |steps|
  {
    if steps != [] {
      RunsFurther(Apply(st, steps[0]), steps[1..], step);
      assert (steps + [step])[1..] == steps[1..] + [step];
    } else {
      assert ([] + [step])[1..] == [];
    }
  }

  lemma LoneWaiterIsStuck(st: State, r: Request)
    requires st.requests == map[0 := r] && r.phase.Queued?
    ensures Stuck(st)
  {
    assert 0 in st.requests && st.requests[0].phase != Leaving(0);
  }

  /** One request under a limit of zero queues for ever behind the permit that does not exist. */
  lemma ZeroLimitBlocks(limits: Limits) returns (steps: seq<Step>)
    requires limits.global == 0 || limits.provider == 0 || limits.project == 0
    ensures Runs(Init(limits), steps) && Stuck(After(Init(limits), steps))
  {
    var start := Init(limits);
    steps := [];
    RunsFurther(start, steps, Arrive(0, "", ""));
    steps := steps + [Arrive(0, "", "")];
    var level := 0;
    while limits.global > 0 && (level < 1 || (limits.provider > 0 && level < 2))
      invariant level <= 2 && Runs(start, steps)
      invariant (level >= 1 ==> limits.global > 0) && (level == 2 ==> limits.provider > 0)
      invariant var st := After(start, steps);
                st.limits == limits && st.queues == map[] && st.requests == map[0 := Request("", "", Wanting(level))] &&
                (forall s :: level <= LevelOf(s) ==> s !in st.free)
      decreases 2 - level
    {
      RunsFurther(start, steps, Acquire(0));
      steps := steps + [Acquire(0)];
      level := level + 1;
    }
    RunsFurther(start, steps, Acquire(0));
    steps := steps + [Acquire(0)];
    LoneWaiterIsStuck(After(start, steps), Request("", "", Queued(level)));
  }

  /** Deadlock freedom holds for exactly the limits of at least one at every level. */
  lemma DeadlockFreedom(limits: Limits)
    ensures DeadlockFree(limits) <==> 1 <= limits.global && 1 <= limits.provider && 1 <= limits.project
  {
    if 1 <= limits.global && 1 <= limits.provider && 1 <= limits.project {
      forall steps | Runs(Init(limits), steps)
        ensures !Stuck(After(Init(limits), steps))
      {
        InitInv(limits);
        RunKeepsInv(Init(limits), steps);
        NeverStuck(After(Init(limits), steps));
      }
    } else {
      var steps := ZeroLimitBlocks(limits);
    }
  }

  /**
   From any reachable state, however its requests are interleaved from then on, a run without
   arrivals that cannot be continued has finished every request and returned every permit.
   */
  lemma EveryRequestCompletes(limits: Limits, past: seq<Step>, future: seq<Step>)
    requires 1 <= limits.global && 1 <= limits.provider && 1 <= limits.project
    requires Runs(Init(limits), past) && Runs(After(Init(limits), past), future)
    requires forall k :: 0 <= k < |future| ==> !future[k].Arrive?
    ensures |future| <= Work(After(Init(limits), past).requests)
    ensures var end := After(After(Init(limits), past), future);
            (forall step :: OwnStep(step) ==> !Enabled(end, step)) ==>
              AllDone(end) && forall s :: Free(end, s) == Limit(limits, s)
  {
    InitInv(limits);
    RunKeepsInv(Init(limits), past);
    var now := After(Init(limits), past);
    RunsAreFinite(now, future);
    RunKeepsInv(now, future);
    var end := After(now, future);
    NeverStuck(end);
    if AllDone(end) {
      forall s
        ensures Free(end, s) == Limit(limits, s)
      {
        assert Balanced(end, s);
        assert Holders(end.requests, s) == {};
      }
    }
  }

  /** And such a run exists: left to themselves, the requests can always all finish. */
  lemma {:induction false} CompletingRun(st: State) returns (steps: seq<Step>)
    requires Inv(st) && (forall s :: 1 <= Limit(st.limits, s))
    ensures Runs(st, steps) && AllDone(After(st, steps))
    ensures forall k :: 0 <= k < |steps| ==> OwnStep(steps[k])
    decreases Work(st.requests)
  {
    steps := [];
    if !AllDone(st) {
      var i :| i in st.requests && st.requests[i].phase != Leaving(0);
      var step := SomeoneCanMove(st, i);
      StepShrinksWork(st, step);
      StepKeepsInv(st, step);
      var rest := CompletingRun(Apply(st, step));
      steps := [step] + rest;
      assert steps[1..] == rest;
    }
  }

  // ---------------------------------------------------------------- first come, first served

  /** The part of a queue before a request. */
  function Front(q: seq<RequestId>, i: RequestId): seq<RequestId> {
    if q == [] || q[0] == i then [] else [q[0]] + Front(q[1..], i)
  }

  /** The requests that wait before this one. */
  function Ahead(st: State, s: Semaphore, i: RequestId): seq<RequestId> {
    Front(Queue(st, s), i)
  }

  /** The step gives back a permit of this semaphore. */
  predicate Frees(st: State, step: Step, s: Semaphore) {
    && step.Release? && step.i in st.requests
    && st.requests[step.i].phase.Leaving? && st.requests[step.i].phase.held > 0
    && SemaphoreAt(st.requests[step.i], st.requests[step.i].phase.held - 1) == s
  }

  lemma {:induction false} FrontAppend(q: seq<RequestId>, k: RequestId, i: RequestId)
    requires i in q
    ensures Front(q + [k], i) == Front(q, i)
  {
    if q[0] != i {
      assert (q + [k])[1..] == q[1..] + [k];
      FrontAppend(q[1..], k, i);
    }
  }

  lemma {:induction false} FrontRemove(q: seq<RequestId>, k: RequestId, i: RequestId)
    requires i in q && i != k
    ensures |Front(Remove(q, k), i)| <= |Front(q, i)|
    ensures forall j :: j in Front(Remove(q, k), i) ==> j in Front(q, i)
  {
    if q[0] != k && q[0] != i {
      FrontRemove(q[1..], k, i);
      assert Remove(q, k)[1..] == Remove(q[1..], k);
    }
  }

  datatype Change = Same | Joined(k: RequestId) | Left(k: RequestId) | Served

  function Changed(q: seq<RequestId>, change: Change): seq<RequestId> {
    match change
    case Same => q
    case Joined(k) => q + [k]
    case Left(k) => Remove(q, k)
    case Served => if q == [] then [] else q[1..]
  }

  /** What a step does to the queue of a semaphore: someone joins at the end, gives up, or is served at the head. */
  function ChangeOf(st: State, step: Step, s: Semaphore): Change
    requires Enabled(st, step)
  {
    match step
    case Acquire(i) =>
      if SemaphoreAt(st.requests[i], st.requests[i].phase.level) == s && (Free(st, s) == 0 || Queue(st, s) != [])
      then Joined(i) else Same
    case Cancel(i) => if WaitsFor(st.requests[i], s) then Left(i) else Same
    case Release(_) => if Frees(st, step, s) && Queue(st, s) != [] then Served else Same
    case _ => Same
  }

  lemma QueueAfter(st: State, step: Step, s: Semaphore)
    requires Inv(st) && Enabled(st, step)
    ensures Queue(Apply(st, step), s) == Changed(Queue(st, s), ChangeOf(st, step, s))
  {
    assert Balanced(st, s);
    if step.Release? {
      var u := SemaphoreAt(st.requests[step.i], st.requests[step.i].phase.held - 1);
      if Queue(st, u) != [] { var w := HeadWaits(st, u); }
    }
  }

  lemma HoldsAfterGrant(r: Request, level: nat, s: Semaphore)
    requires level < LEVELS
    ensures Holds(r.(phase := Granted(level)), s) <==>
              SemaphoreAt(r, level) == s || (LevelOf(s) < level && SemaphoreAt(r, LevelOf(s)) == s)
  {
  }

  /** While anyone waits for a semaphore, only its first waiter can come to hold it. */
  lemma HolderAfter(st: State, step: Step, s: Semaphore, j: RequestId)
    requires Inv(st) && Enabled(st, step) && Queue(st, s) != []
    requires j in Apply(st, step).requests && Holds(Apply(st, step).requests[j], s)
    ensures (j in st.requests && Holds(st.requests[j], s)) || (j == Queue(st, s)[0] && ChangeOf(st, step, s) == Served)
  {
    assert Balanced(st, s);
    match step
    case Acquire(i) =>
      HoldsAfterGrant(st.requests[i], st.requests[i].phase.level, s);
    case Release(i) =>
      var u := SemaphoreAt(st.requests[i], st.requests[i].phase.held - 1);
      if Queue(st, u) != [] {
        var w := HeadWaits(st, u);
        HoldsAfterGrant(st.requests[w], LevelOf(u), s);
      }
    case _ =>
  }

  /** One step while a request waits: nobody gets ahead of it, and a freed permit moves it up. */
  lemma StepKeepsPlace(st: State, step: Step, s: Semaphore, i: RequestId)
    requires Inv(st) && Enabled(st, step) && i in Queue(st, s) && i in Queue(Apply(st, step), s)
    ensures |Ahead(Apply(st, step), s, i)| + (if Frees(st, step, s) then 1 else 0) <= |Ahead(st, s, i)|
    ensures forall j :: j in Ahead(Apply(st, step), s, i) ==> j in Ahead(st, s, i)
    ensures ChangeOf(st, step, s) == Served ==> Queue(st, s)[0] in Ahead(st, s, i)
  {
    var q := Queue(st, s);
    assert Balanced(st, s);
    QueueAfter(st, step, s);
    match ChangeOf(st, step, s)
    case Same =>
    case Joined(k) => FrontAppend(q, k, i);
    case Left(k) =>
      RemoveFacts(q, k);
      FrontRemove(q, k, i);
    case Served => assert q[0] != i;
  }

  ghost predicate StaysQueued(st: State, steps: seq<Step>, s: Semaphore, i: RequestId)
    requires Runs(st, steps)
    decreases |steps|
  {
    i in Queue(st, s) && (steps == [] || StaysQueued(Apply(st, steps[0]), steps[1..], s, i))
  }

  ghost function FreedTimes(st: State, steps: seq<Step>, s: Semaphore): nat
    requires Runs(st, steps)
    decreases |steps|
  {
    if steps == [] then 0
    else (if Frees(st, steps[0], s) then 1 else 0) + FreedTimes(Apply(st, steps[0]), steps[1..], s)
  }

  /**
   First come, first served, whatever else arrives: as long as a request waits for a semaphore, the
   only ones to come to hold it were ahead of it in the queue from the start, and its permits can be
   freed at most as often as there are such requests.
   */
  lemma {:induction false} NeverOvertaken(st: State, steps: seq<Step>, s: Semaphore, i: RequestId, j: RequestId)
    requires Inv(st) && Runs(st, steps) && StaysQueued(st, steps, s, i)
    ensures FreedTimes(st, steps, s) + |Ahead(After(st, steps), s, i)| <= |Ahead(st, s, i)|
    ensures j in After(st, steps).requests && Holds(After(st, steps).requests[j], s) ==>
              (j in st.requests && Holds(st.requests[j], s)) || j in Ahead(st, s, i)
    decreases |steps|
  {
    if steps != [] {
      var t := Apply(st, steps[0]);
      StepKeepsInv(st, steps[0]);
      NeverOvertaken(t, steps[1..], s, i, j);
      StepKeepsPlace(st, steps[0], s, i);
      if j in t.requests && Holds(t.requests[j], s) { HolderAfter(st, steps[0], s, j); }
    }
  }
}
