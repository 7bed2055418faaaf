/**
 What a repeated gateway call returns (src/accretion/governance.py): once a call has reported
 success, later calls under the same key report the recorded output and never reach the backend.
 */
module Repeats {
  import opened Sequences
  import opened SideEffects
  import opened Gateway

  predicate Carries(c: Call, k: string) {
    HasKey(c.request) && c.request.idempotencyKey.value == k
  }

  /** The output the ledger holds for a key, once it holds a success. */
  function Success(s: State, k: string): Option<Payload> {
    if k in s.ledger && s.ledger[k].status == EffectSucceeded then s.ledger[k].result else None
  }

  /**
   The two things that can disturb a key: a read-only call carrying it (its `finish` overwrites the
   row), and a success whose report fails (the handler records a failure over it).
   */
  ghost predicate Undisturbed(s: State, step: Step, k: string) {
    match step
    case Arrive(r, _, capability, _) =>
      HasKey(r) && r.idempotencyKey.value == k ==> capability.None? || SideEffecting(capability.value)
    case ReportFails(i, _) =>
      i < |s.calls| && Carries(s.calls[i], k) && s.calls[i].phase.Recorded? ==> s.calls[i].phase.backend == Raised
    case _ => true
  }

  ghost predicate UndisturbedRun(cfg: Config, s: State, steps: seq<Step>, k: string) {
    steps == [] ||
    (UndisturbedRun(cfg, s, steps[..|steps| - 1], k) &&
     Undisturbed(Run(cfg, s, steps[..|steps| - 1]), steps[|steps| - 1], k))
  }

  predicate Running(phase: Phase) {
    phase.Prepared? || phase.Started? || phase.Ran?
  }

  predicate CallAgrees(cfg: Config, s: State, c: Call, k: string) {
    Carries(c, k) ==>
      && (c.capability.Some? ==> SideEffecting(c.capability.value))
      && (Running(c.phase) ==> Success(s, k) == None)
      && (c.phase.Recorded? && c.phase.backend.Returned? ==> Success(s, k) == Some(c.phase.backend.output))
      && (c.phase.Duplicate? && c.phase.operation.status == EffectSucceeded ==>
            c.phase.operation.result.Some? && Success(s, k) == c.phase.operation.result)
      && (c.phase.Done? && c.phase.result.status == Succeeded ==>
            Success(s, k).Some? && c.phase.result.output == Some(cfg.redact(Success(s, k).value)))
  }

  ghost predicate Agreement(cfg: Config, s: State, k: string) {
    && (k in s.ledger && s.ledger[k].status == EffectSucceeded ==> s.ledger[k].result.Some?)
    && forall i :: 0 <= i < |s.calls| ==> CallAgrees(cfg, s, s.calls[i], k)
  }

  ghost predicate Idempotent(redact: Payload -> Payload) {
    forall p :: redact(redact(p)) == redact(p)
  }

  predicate Finishes(s: State, step: Step, k: string) {
    step.Finish? && step.i < |s.calls| && Carries(s.calls[step.i], k) && s.calls[step.i].phase.Ran?
  }

  /** No step but a `finish` under the key gains or loses the key's success. */
  lemma OnlyFinishMatters(cfg: Config, s: State, step: Step, k: string)
    requires !Finishes(s, step, k)
    ensures Success(Next(cfg, s, step), k) == Success(s, k)
    ensures var t := Next(cfg, s, step);
            k in t.ledger && t.ledger[k].status == EffectSucceeded ==> k in s.ledger && s.ledger[k] == t.ledger[k]
  {
  }

  predicate Stepping(s: State, step: Step) {
    !step.Arrive? && !step.Decide? && !step.OpenGate? && !step.Reconcile? && step.i < |s.calls|
  }

  /** The phases a call can step to. */
  predicate Moves(cfg: Config, s: State, c: Call, p: Phase) {
    p == c.phase || p.Abandoned? ||
    match c.phase
    case Refused => p.Done? && p.result.status == WasDenied
    case AwaitingApproval => p.Done? && p.result.status == RequiresApproval
    case Authorized =>
      if Effectful(c) && HasKey(c.request) && c.request.idempotencyKey.value in s.ledger
      then p == Duplicate(s.ledger[c.request.idempotencyKey.value]) else p.Prepared?
    case Prepared => p.Started?
    case Started => p.Ran?
    case Ran(backend) => p == Phase.Recorded(backend) || p == Ran(Raised)
    case Recorded(backend) => p == Done(Row(cfg, c)) || (backend.Returned? && p == Ran(Raised))
    case Duplicate(_) => p == Done(Row(cfg, c))
    case _ => false
  }

  /** What a step can do to call `j`: nothing, one move if it is the stepping call, or its arrival. */
  ghost predicate Changed(cfg: Config, s: State, step: Step, t: State, j: nat) {
    if j < |s.calls| then
      && j < |t.calls|
      && (t.calls[j] == s.calls[j] ||
          (Stepping(s, step) && step.i == j && Moved(cfg, s, step, s.calls[j], t.calls[j].phase) &&
           t.calls[j] == s.calls[j].(phase := t.calls[j].phase)))
    else if j < |t.calls| then
      && step.Arrive? && t.calls[j].request == step.request && t.calls[j].capability == step.capability
      && (t.calls[j].phase.Refused? || t.calls[j].phase.AwaitingApproval? || t.calls[j].phase.Authorized?)
    else true
  }

  predicate Moved(cfg: Config, s: State, step: Step, c: Call, p: Phase) {
    && Moves(cfg, s, c, p)
    && (c.phase.Recorded? && p.Ran? ==> step.ReportFails?)
    && (c.phase.Ran? && p.Recorded? ==> step.Finish?)
  }

  lemma AdvanceMoves(cfg: Config, s: State, step: Step, i: nat)
    requires i < |s.calls|
    ensures var t := Advance(cfg, s, step, i);
            |t.calls| == |s.calls| && Moved(cfg, s, step, s.calls[i], t.calls[i].phase)
  {
  }

  lemma StepChanges(cfg: Config, s: State, step: Step, j: nat)
    ensures Changed(cfg, s, step, Next(cfg, s, step), j)
  {
    if Stepping(s, step) {
      AdvanceFrame(cfg, s, step, step.i);
      AdvanceGrows(cfg, s, step, step.i);
      AdvanceMoves(cfg, s, step, step.i);
    }
  }

  lemma ChangedAgrees(cfg: Config, s: State, step: Step, t: State, j: nat, k: string)
    requires Idempotent(cfg.redact) && Inv(cfg, s) && Agreement(cfg, s, k) && Undisturbed(s, step, k)
    requires !Finishes(s, step, k) && Success(t, k) == Success(s, k) && Changed(cfg, s, step, t, j)
    ensures j < |t.calls| ==> CallAgrees(cfg, t, t.calls[j], k)
  {
    if j < |s.calls| {
      assert CallAgrees(cfg, s, s.calls[j], k) && CallOk(cfg, s, j);
      if t.calls[j] != s.calls[j] { MovedAgrees(cfg, s, t, s.calls[j], t.calls[j].phase, k); }
    }
  }

  lemma MovedAgrees(cfg: Config, s: State, t: State, c: Call, p: Phase, k: string)
    requires Idempotent(cfg.redact) && CallAgrees(cfg, s, c, k) && Moves(cfg, s, c, p)
    requires Success(t, k) == Success(s, k)
    requires k in s.ledger && s.ledger[k].status == EffectSucceeded ==> s.ledger[k].result.Some?
    requires Cleared(c.phase) ==> c.capability.Some?
    requires Carries(c, k) ==> !(c.phase.Ran? && p.Recorded?) && !(c.phase.Recorded? && p.Ran?)
    requires Carries(c, k) && Effectful(c) && c.phase.Authorized? ==> HasKey(c.request)
    ensures CallAgrees(cfg, t, c.(phase := p), k)
  {
  }

  /** Two running calls of one key would own the same row. */
  lemma OneRunner(cfg: Config, s: State, i: nat, j: nat, k: string)
    requires Inv(cfg, s) && Agreement(cfg, s, k) && i < |s.calls| && j < |s.calls|
    requires Carries(s.calls[i], k) && Carries(s.calls[j], k) && PastIntent(s.calls[i].phase) &&
              PastIntent(s.calls[j].phase)
    ensures i == j
  {
    assert CallOk(cfg, s, i) && CallOk(cfg, s, j);
    assert CallAgrees(cfg, s, s.calls[i], k) && CallAgrees(cfg, s, s.calls[j], k);
  }

  lemma FinishAgrees(cfg: Config, s: State, step: Step, k: string)
    requires Inv(cfg, s) && Agreement(cfg, s, k) && Finishes(s, step, k)
    ensures Agreement(cfg, Next(cfg, s, step), k)
  {
    var t := Next(cfg, s, step);
    var i := step.i;
    assert CallAgrees(cfg, s, s.calls[i], k) && CallOk(cfg, s, i);
    assert Success(s, k) == None && k in s.ledger;
    forall j | 0 <= j < |t.calls| ensures CallAgrees(cfg, t, t.calls[j], k) {
      assert CallAgrees(cfg, s, s.calls[j], k);
      if j != i && Carries(s.calls[j], k) && PastIntent(s.calls[j].phase) { OneRunner(cfg, s, i, j, k); }
    }
  }

  lemma StepAgrees(cfg: Config, s: State, step: Step, k: string)
    requires Idempotent(cfg.redact) && Inv(cfg, s) && Agreement(cfg, s, k) && Undisturbed(s, step, k)
    ensures Agreement(cfg, Next(cfg, s, step), k)
  {
    if Finishes(s, step, k) {
      FinishAgrees(cfg, s, step, k);
    } else {
      OnlyFinishMatters(cfg, s, step, k);
      var t := Next(cfg, s, step);
      forall j: nat | j < |t.calls| ensures CallAgrees(cfg, t, t.calls[j], k) {
        StepChanges(cfg, s, step, j);
        ChangedAgrees(cfg, s, step, t, j, k);
      }
    }
  }

  lemma {:induction false} RunAgrees(cfg: Config, steps: seq<Step>, k: string)
    requires Idempotent(cfg.redact) && UndisturbedRun(cfg, INITIAL, steps, k)
    ensures Agreement(cfg, Run(cfg, INITIAL, steps), k)
  {
    if steps != [] {
      var rest := steps[..|steps| - 1];
      RunAgrees(cfg, rest, k);
      RunKeepsInv(cfg, rest);
      StepAgrees(cfg, Run(cfg, INITIAL, rest), steps[|steps| - 1], k);
    }
  }

  // ---------------------------------------------------------------- after a success

  /** What may have become of a call that had not recorded its intent when output `x` was recorded. */
  predicate Late(cfg: Config, phase: Phase, x: Payload) {
    match phase
    case Refused | AwaitingApproval | Authorized | Abandoned => true
    case Duplicate(operation) => operation.status == EffectSucceeded && operation.result == Some(x)
    case Done(row) =>
      row.status == WasDenied || row.status == RequiresApproval ||
      (row.status == Succeeded && row.output == Some(cfg.redact(x)))
    case _ => false
  }

  predicate Latecomer(cfg: Config, s: State, j: nat, k: string, x: Payload) {
    j < |s.calls| && Carries(s.calls[j], k) ==> Late(cfg, s.calls[j].phase, x) && j !in s.executions
  }

  lemma MovedLatecomer(cfg: Config, s: State, c: Call, p: Phase, k: string, x: Payload)
    requires Idempotent(cfg.redact) && Success(s, k) == Some(x) && Carries(c, k) && Moves(cfg, s, c, p)
    requires c.phase.Authorized? ==> Effectful(c)
    requires Late(cfg, c.phase, x)
    ensures Late(cfg, p, x)
  {
  }

  lemma ExecutionsGrow(cfg: Config, s: State, step: Step, j: nat)
    requires Inv(cfg, s) && (j < |s.calls| ==> !s.calls[j].phase.Started?)
    ensures j in Next(cfg, s, step).executions ==> j in s.executions
  {
    if Stepping(s, step) { AdvanceFrame(cfg, s, step, step.i); }
  }

  lemma NotExecutedYet(cfg: Config, s: State, j: nat)
    requires Inv(cfg, s) && (j < |s.calls| ==> BeforeBackend(s.calls[j].phase))
    ensures j !in s.executions
  {
    if j < |s.calls| { assert CallOk(cfg, s, j); }
    forall n | 0 <= n < |s.executions| ensures s.executions[n] < |s.calls| {
      assert ExecutionOk(cfg, s, s.executions[n]);
    }
  }

  lemma ChangedLatecomer(cfg: Config, s: State, step: Step, t: State, j: nat, k: string, x: Payload)
    requires j < |t.calls| && Carries(t.calls[j], k) ==> j in t.executions ==> j in s.executions
    requires Idempotent(cfg.redact) && Inv(cfg, s) && Agreement(cfg, s, k) && Success(s, k) == Some(x)
    requires Latecomer(cfg, s, j, k, x) && Changed(cfg, s, step, t, j)
    ensures Latecomer(cfg, t, j, k, x)
  {
    if j >= |s.calls| {
      NotExecutedYet(cfg, s, j);
    } else if Carries(s.calls[j], k) && t.calls[j] != s.calls[j] {
      assert CallAgrees(cfg, s, s.calls[j], k) && CallOk(cfg, s, j);
      MovedLatecomer(cfg, s, s.calls[j], t.calls[j].phase, k, x);
    }
  }

  /** Once every carrier agrees with a recorded success, nobody is left who could finish under its key. */
  lemma NobodyFinishes(cfg: Config, s: State, step: Step, k: string)
    requires Agreement(cfg, s, k) && Success(s, k).Some?
    ensures !Finishes(s, step, k)
  {
    if step.Finish? && step.i < |s.calls| { assert CallAgrees(cfg, s, s.calls[step.i], k); }
  }

  lemma {:induction false} LateRun(cfg: Config, s: State, steps: seq<Step>, j: nat, k: string, x: Payload)
    requires Idempotent(cfg.redact) && Inv(cfg, s) && Agreement(cfg, s, k) && UndisturbedRun(cfg, s, steps, k)
    requires Success(s, k) == Some(x) && Latecomer(cfg, s, j, k, x)
    ensures var t := Run(cfg, s, steps);
            Inv(cfg, t) && Agreement(cfg, t, k) && Success(t, k) == Some(x) && Latecomer(cfg, t, j, k, x)
  {
    if steps != [] {
      var rest, step := steps[..|steps| - 1], steps[|steps| - 1];
      LateRun(cfg, s, rest, j, k, x);
      var t := Run(cfg, s, rest);
      StepKeepsInv(cfg, t, step);
      StepAgrees(cfg, t, step, k);
      NobodyFinishes(cfg, t, step, k);
      OnlyFinishMatters(cfg, t, step, k);
      StepChanges(cfg, t, step, j);
      if j >= |t.calls| || Carries(t.calls[j], k) { ExecutionsGrow(cfg, t, step, j); }
      ChangedLatecomer(cfg, t, step, Next(cfg, t, step), j, k, x);
    }
  }

  lemma {:induction false} RunInTwo(cfg: Config, s: State, a: seq<Step>, b: seq<Step>, k: string)
    ensures Run(cfg, s, a + b) == Run(cfg, Run(cfg, s, a), b)
    ensures UndisturbedRun(cfg, s, a + b, k) ==>
              UndisturbedRun(cfg, s, a, k) && UndisturbedRun(cfg, Run(cfg, s, a), b, k)
  {
    if b == [] {
      assert a + b == a;
    } else {
      assert (a + b)[..|a + b| - 1] == a + b[..|b| - 1];
      RunInTwo(cfg, s, a, b[..|b| - 1], k);
    }
  }

  /**
   A repeat after success. Call `i` has reported success under a key that nothing disturbs; call
   `j` arrives later, or had at most been authorized. Then `j` reports the output `i` reported,
   unless the policy stops it or it dies, and its backend is not run.
   */
  lemma RepeatReturnsTheRecord(cfg: Config, before: seq<Step>, after: seq<Step>, k: string, i: nat, j: nat)
    requires Idempotent(cfg.redact) && UndisturbedRun(cfg, INITIAL, before + after, k)
    requires var s := Run(cfg, INITIAL, before);
             && i < |s.calls| && Carries(s.calls[i], k)
             && s.calls[i].phase.Done? && s.calls[i].phase.result.status == Succeeded
             && (j < |s.calls| ==>
                   s.calls[j].phase.Refused? || s.calls[j].phase.AwaitingApproval? || s.calls[j].phase.Authorized?)
    ensures var s, t := Run(cfg, INITIAL, before), Run(cfg, INITIAL, before + after);
            j < |t.calls| && Carries(t.calls[j], k) ==>
              && j !in t.executions
              && (t.calls[j].phase.Done? ==>
                    var row := t.calls[j].phase.result;
                    row.status == WasDenied || row.status == RequiresApproval ||
                    (row.status == Succeeded && row.output == s.calls[i].phase.result.output))
  {
    var s := Run(cfg, INITIAL, before);
    RunInTwo(cfg, INITIAL, before, after, k);
    RunKeepsInv(cfg, before);
    RunAgrees(cfg, before, k);
    assert CallAgrees(cfg, s, s.calls[i], k);
    NotExecutedYet(cfg, s, j);
    LateRun(cfg, s, after, j, k, Success(s, k).value);
  }

  // ---------------------------------------------------------------- how a recorded success is lost

  /** A call carrying the key finishes with another result: a read-only one, or the one that owns the row. */
  predicate Overwrites(s: State, step: Step, k: string, x: Payload) {
    && Finishes(s, step, k) && s.calls[step.i].phase.backend != Returned(x)
    && (!Effectful(s.calls[step.i]) || OwnsRow(s, step.i))
  }

  /** In every reachable state, a step changes a recorded success if and only if it overwrites it. */
  lemma SuccessChangesExactly(cfg: Config, steps: seq<Step>, step: Step, k: string, x: Payload)
    requires Success(Run(cfg, INITIAL, steps), k) == Some(x)
    ensures var s := Run(cfg, INITIAL, steps);
            Success(Next(cfg, s, step), k) != Some(x) <==> Overwrites(s, step, k, x)
  {
    var s := Run(cfg, INITIAL, steps);
    RunKeepsInv(cfg, steps);
    if Finishes(s, step, k) {
      assert CallOk(cfg, s, step.i);
      assert Next(cfg, s, step) == FinishCall(s, step.i, s.calls[step.i].phase.backend);
    } else {
      OnlyFinishMatters(cfg, s, step, k);
    }
  }

  /** The state of a run before its `n`-th step. */
  function Before(cfg: Config, steps: seq<Step>, n: nat): State
    requires n <= |steps|
  {
    Run(cfg, INITIAL, steps[..n])
  }

  lemma BeforeNext(cfg: Config, steps: seq<Step>, n: nat)
    requires n < |steps|
    ensures Before(cfg, steps, n + 1) == Next(cfg, Before(cfg, steps, n), steps[n])
  {
    assert steps[..n + 1][..n] == steps[..n];
  }

  ghost predicate LostBetween(cfg: Config, steps: seq<Step>, from: nat, k: string, x: Payload) {
    exists n :: from <= n <= |steps| && Success(Before(cfg, steps, n), k) != Some(x)
  }

  ghost predicate OverwrittenAfter(cfg: Config, steps: seq<Step>, from: nat, k: string, x: Payload) {
    exists n :: from <= n < |steps| && Overwrites(Before(cfg, steps, n), steps[n], k, x)
  }

  lemma {:induction false} UnlessOverwritten(cfg: Config, steps: seq<Step>, from: nat, n: nat, k: string, x: Payload)
    requires from <= n <= |steps| && Success(Before(cfg, steps, from), k) == Some(x)
    requires forall m :: from <= m < n ==> !Overwrites(Before(cfg, steps, m), steps[m], k, x)
    ensures Success(Before(cfg, steps, n), k) == Some(x)
    decreases n - from
  {
    if from < n {
      SuccessChangesExactly(cfg, steps[..from], steps[from], k, x);
      BeforeNext(cfg, steps, from);
      UnlessOverwritten(cfg, steps, from + 1, n, k, x);
    }
  }

  /** Over every run: a success recorded at some point is later lost if and only if some step overwrites it. */
  lemma SuccessLostExactly(cfg: Config, steps: seq<Step>, from: nat, k: string, x: Payload)
    requires from <= |steps| && Success(Before(cfg, steps, from), k) == Some(x)
    ensures LostBetween(cfg, steps, from, k, x) <==> OverwrittenAfter(cfg, steps, from, k, x)
  {
    if !OverwrittenAfter(cfg, steps, from, k, x) {
      forall n | from <= n <= |steps| ensures Success(Before(cfg, steps, n), k) == Some(x) {
        UnlessOverwritten(cfg, steps, from, n, k, x);
      }
    } else {
      var n :| from <= n < |steps| && Overwrites(Before(cfg, steps, n), steps[n], k, x);
      if Success(Before(cfg, steps, n), k) == Some(x) {
        SuccessChangesExactly(cfg, steps[..n], steps[n], k, x);
        BeforeNext(cfg, steps, n);
        assert Success(Before(cfg, steps, n + 1), k) != Some(x);
      }
    }
  }
}
