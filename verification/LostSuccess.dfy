/**
 Keys that only side-effecting calls carry: the one way a recorded success is lost is that the
 report of it fails, and the handler then records a failure over it.
 */
module LostSuccess {
  import opened Sequences
  import opened SideEffects
  import opened Gateway
  import opened Repeats

  /** No read-only call arrives with the key. */
  predicate Reserves(step: Step, k: string) {
    step.Arrive? && HasKey(step.request) && step.request.idempotencyKey.value == k ==>
      step.capability.None? || SideEffecting(step.capability.value)
  }

  ghost predicate Reserved(steps: seq<Step>, k: string) {
    forall n :: 0 <= n < |steps| ==> Reserves(steps[n], k)
  }

  /** Up to its own finish a carrier finds no success, and from then on its own. */
  predicate CallInOrder(s: State, c: Call, k: string) {
    Carries(c, k) ==>
      && (c.capability.Some? ==> SideEffecting(c.capability.value))
      && (c.phase.Prepared? || c.phase.Started? || (c.phase.Ran? && c.phase.backend.Returned?) ==>
            Success(s, k) == None)
      && (c.phase.Recorded? && c.phase.backend.Returned? ==> Success(s, k) == Some(c.phase.backend.output))
  }

  ghost predicate InOrder(s: State, k: string) {
    && (k in s.ledger && s.ledger[k].status == EffectSucceeded ==> s.ledger[k].result.Some?)
    && forall i :: 0 <= i < |s.calls| ==> CallInOrder(s, s.calls[i], k)
  }

  /** Only one carrier is past its intent: they would own the same row. */
  lemma OnlyOwnerFinishes(cfg: Config, s: State, i: nat, j: nat, k: string)
    requires Inv(cfg, s) && InOrder(s, k) && i < |s.calls| && j < |s.calls|
    requires Carries(s.calls[i], k) && Carries(s.calls[j], k) && PastIntent(s.calls[i].phase) &&
              PastIntent(s.calls[j].phase)
    ensures i == j
  {
    assert CallOk(cfg, s, i) && CallOk(cfg, s, j);
    assert CallInOrder(s, s.calls[i], k) && CallInOrder(s, s.calls[j], k);
  }

  lemma FinishInOrder(cfg: Config, s: State, step: Step, k: string)
    requires Inv(cfg, s) && InOrder(s, k) && Finishes(s, step, k)
    ensures InOrder(Next(cfg, s, step), k)
  {
    var t, i := Next(cfg, s, step), step.i;
    assert CallInOrder(s, s.calls[i], k) && CallOk(cfg, s, i);
    forall j | 0 <= j < |t.calls| ensures CallInOrder(t, t.calls[j], k) {
      assert CallInOrder(s, s.calls[j], k);
      if j != i && Carries(s.calls[j], k) && PastIntent(s.calls[j].phase) { OnlyOwnerFinishes(cfg, s, i, j, k); }
    }
  }

  lemma MovedInOrder(cfg: Config, s: State, step: Step, t: State, c: Call, p: Phase, k: string)
    requires CallInOrder(s, c, k) && Moved(cfg, s, step, c, p) && Success(t, k) == Success(s, k)
    requires k in s.ledger && s.ledger[k].status == EffectSucceeded ==> s.ledger[k].result.Some?
    requires Cleared(c.phase) ==> c.capability.Some?
    requires Carries(c, k) ==> !(c.phase.Ran? && p.Recorded?)
    ensures CallInOrder(t, c.(phase := p), k)
  {
  }

  lemma ChangedInOrder(cfg: Config, s: State, step: Step, t: State, j: nat, k: string)
    requires Inv(cfg, s) && InOrder(s, k) && Reserves(step, k) && !Finishes(s, step, k)
    requires Success(t, k) == Success(s, k) && Changed(cfg, s, step, t, j)
    ensures j < |t.calls| ==> CallInOrder(t, t.calls[j], k)
  {
    if j < |s.calls| {
      assert CallInOrder(s, s.calls[j], k) && CallOk(cfg, s, j);
      if t.calls[j] != s.calls[j] { MovedInOrder(cfg, s, step, t, s.calls[j], t.calls[j].phase, k); }
    }
  }

  lemma StepInOrder(cfg: Config, s: State, step: Step, k: string)
    requires Inv(cfg, s) && InOrder(s, k) && Reserves(step, k)
    ensures InOrder(Next(cfg, s, step), k)
  {
    if Finishes(s, step, k) {
      FinishInOrder(cfg, s, step, k);
    } else {
      OnlyFinishMatters(cfg, s, step, k);
      var t := Next(cfg, s, step);
      forall j: nat | j < |t.calls| ensures CallInOrder(t, t.calls[j], k) {
        StepChanges(cfg, s, step, j);
        ChangedInOrder(cfg, s, step, t, j, k);
      }
    }
  }

  lemma {:induction false} RunInOrder(cfg: Config, steps: seq<Step>, k: string)
    requires Reserved(steps, k)
    ensures InOrder(Run(cfg, INITIAL, steps), k)
  {
    if steps != [] {
      var rest := steps[..|steps| - 1];
      RunInOrder(cfg, rest, k);
      RunKeepsInv(cfg, rest);
      StepInOrder(cfg, Run(cfg, INITIAL, rest), steps[|steps| - 1], k);
    }
  }

  // ---------------------------------------------------------------- failed reports

  /** The report of the success of call `i` under the key fails. */
  predicate ReportIsLost(s: State, step: Step, i: nat, k: string, x: Payload) {
    && step.ReportFails? && step.i == i && i < |s.calls| && Carries(s.calls[i], k)
    && s.calls[i].phase == Phase.Recorded(Returned(x))
  }

  ghost predicate ReportWasLost(cfg: Config, steps: seq<Step>, i: nat, k: string, x: Payload) {
    exists n :: 0 <= n < |steps| && ReportIsLost(Before(cfg, steps, n), steps[n], i, k, x)
  }

  /** A carrier about to record a failure over the success `x`. */
  predicate AboutToLose(s: State, i: nat, k: string, x: Payload) {
    i < |s.calls| && Carries(s.calls[i], k) && s.calls[i].phase == Ran(Raised) && Success(s, k) == Some(x)
  }

  lemma FinishLeadsElsewhere(cfg: Config, s: State, step: Step, i: nat, k: string, x: Payload)
    requires Inv(cfg, s) && InOrder(s, k) && Finishes(s, step, k)
    ensures !AboutToLose(Next(cfg, s, step), i, k, x)
  {
    var t := Next(cfg, s, step);
    if i < |s.calls| && i != step.i && Carries(s.calls[i], k) && PastIntent(s.calls[i].phase) {
      OnlyOwnerFinishes(cfg, s, step.i, i, k);
    }
    assert t == FinishCall(s, step.i, s.calls[step.i].phase.backend);
  }

  /** A call came to be about to lose a success in this step only if this step lost its report. */
  lemma ComesByLostReport(cfg: Config, s: State, step: Step, t: State, i: nat, k: string, x: Payload)
    requires InOrder(s, k) && Success(t, k) == Success(s, k) && Changed(cfg, s, step, t, i)
    requires !AboutToLose(s, i, k, x) && AboutToLose(t, i, k, x)
    ensures ReportIsLost(s, step, i, k, x)
  {
    assert i < |s.calls|;
    assert CallInOrder(s, s.calls[i], k);
  }

  lemma {:induction false} LossHasACause(cfg: Config, steps: seq<Step>, i: nat, k: string, x: Payload)
    requires Reserved(steps, k) && AboutToLose(Run(cfg, INITIAL, steps), i, k, x)
    ensures ReportWasLost(cfg, steps, i, k, x)
  {
    var n := |steps| - 1;
    var rest := steps[..n];
    RunInOrder(cfg, rest, k);
    RunKeepsInv(cfg, rest);
    var s := Run(cfg, INITIAL, rest);
    if AboutToLose(s, i, k, x) {
      LossHasACause(cfg, rest, i, k, x);
      var m :| 0 <= m < |rest| && ReportIsLost(Before(cfg, rest, m), rest[m], i, k, x);
      assert rest[..m] == steps[..m] && rest[m] == steps[m];
    } else {
      if Finishes(s, steps[n], k) { FinishLeadsElsewhere(cfg, s, steps[n], i, k, x); }
      OnlyFinishMatters(cfg, s, steps[n], k);
      StepChanges(cfg, s, steps[n], i);
      ComesByLostReport(cfg, s, steps[n], Next(cfg, s, steps[n]), i, k, x);
      assert ReportIsLost(Before(cfg, steps, n), steps[n], i, k, x);
    }
  }

  // ---------------------------------------------------------------- exactly

  /** A call whose report of the success was lost finishes again. */
  ghost predicate FinishedAgain(cfg: Config, steps: seq<Step>, from: nat, k: string, x: Payload) {
    exists i, n :: from <= n < |steps| && FinishesAgain(cfg, steps, i, n, k, x)
  }

  ghost predicate FinishesAgain(cfg: Config, steps: seq<Step>, i: nat, n: nat, k: string, x: Payload)
    requires n < |steps|
  {
    && steps[n] == Finish(i) && i < |Before(cfg, steps, n).calls| && Carries(Before(cfg, steps, n).calls[i], k)
    && Before(cfg, steps, n).calls[i].phase == Ran(Raised)
    && ReportWasLost(cfg, steps[..n], i, k, x)
  }

  /**
   Over every run in which only side-effecting calls carry the key, a recorded success is later
   lost if and only if a call whose report of it failed finishes again.
   */
  lemma LostExactlyByFailedReport(cfg: Config, steps: seq<Step>, from: nat, k: string, x: Payload)
    requires Reserved(steps, k) && from <= |steps| && Success(Before(cfg, steps, from), k) == Some(x)
    ensures LostBetween(cfg, steps, from, k, x) <==> FinishedAgain(cfg, steps, from, k, x)
  {
    SuccessLostExactly(cfg, steps, from, k, x);
    if FinishedAgain(cfg, steps, from, k, x) {
      var i, n :| from <= n < |steps| && FinishesAgain(cfg, steps, i, n, k, x);
      AgainOverwrites(cfg, steps, i, n, k, x);
    }
    if LostBetween(cfg, steps, from, k, x) {
      var n := FirstOverwrite(cfg, steps, from, k, x);
      OverwriteIsAgain(cfg, steps, n, k, x);
    }
  }

  lemma ReservedPrefix(steps: seq<Step>, n: nat, k: string)
    requires Reserved(steps, k) && n <= |steps|
    ensures Reserved(steps[..n], k)
  {
  }

  lemma AgainOverwrites(cfg: Config, steps: seq<Step>, i: nat, n: nat, k: string, x: Payload)
    requires Reserved(steps, k) && n < |steps| && FinishesAgain(cfg, steps, i, n, k, x)
    ensures Overwrites(Before(cfg, steps, n), steps[n], k, x)
  {
    ReservedPrefix(steps, n, k);
    RunInOrder(cfg, steps[..n], k);
    RunKeepsInv(cfg, steps[..n]);
    var s := Before(cfg, steps, n);
    assert CallInOrder(s, s.calls[i], k) && CallOk(cfg, s, i);
  }

  /** The first step that overwrites finds the success still there. */
  lemma {:induction false} FirstOverwrite(cfg: Config, steps: seq<Step>, from: nat, k: string, x: Payload)
    returns (n: nat)
    requires from <= |steps| && Success(Before(cfg, steps, from), k) == Some(x) && LostBetween(cfg, steps, from, k, x)
    ensures from <= n < |steps| && Overwrites(Before(cfg, steps, n), steps[n], k, x)
    ensures Success(Before(cfg, steps, n), k) == Some(x)
    decreases |steps| - from
  {
    SuccessChangesExactlyAt(cfg, steps, from, k, x);
    if Overwrites(Before(cfg, steps, from), steps[from], k, x) {
      n := from;
    } else {
      n := FirstOverwrite(cfg, steps, from + 1, k, x);
    }
  }

  lemma SuccessChangesExactlyAt(cfg: Config, steps: seq<Step>, from: nat, k: string, x: Payload)
    requires from <= |steps| && Success(Before(cfg, steps, from), k) == Some(x) && LostBetween(cfg, steps, from, k, x)
    ensures from < |steps|
    ensures Overwrites(Before(cfg, steps, from), steps[from], k, x) ||
            (Success(Before(cfg, steps, from + 1), k) == Some(x) && LostBetween(cfg, steps, from + 1, k, x))
  {
    var n :| from <= n <= |steps| && Success(Before(cfg, steps, n), k) != Some(x);
    SuccessChangesExactly(cfg, steps[..from], steps[from], k, x);
    BeforeNext(cfg, steps, from);
  }

  lemma OverwriteIsAgain(cfg: Config, steps: seq<Step>, n: nat, k: string, x: Payload)
    requires Reserved(steps, k) && n < |steps| && Success(Before(cfg, steps, n), k) == Some(x)
    requires Overwrites(Before(cfg, steps, n), steps[n], k, x)
    ensures FinishesAgain(cfg, steps, steps[n].i, n, k, x)
  {
    ReservedPrefix(steps, n, k);
    RunInOrder(cfg, steps[..n], k);
    var s, i := Before(cfg, steps, n), steps[n].i;
    assert CallInOrder(s, s.calls[i], k);
    LossHasACause(cfg, steps[..n], i, k, x);
  }
}
