/**
 Two runs of the gateway, from its initial state, in which a later call under a key reports
 something other than the success recorded under it.
 */
module RepeatWitness {
  import opened Sequences
  import opened SideEffects
  import opened Gateway
  import opened Repeats

  const KEY := "key"
  const WRITE := Capability("write", true, Low, ["effect"], {}, Keyed)
  const READ := Capability("read", true, Low, [], {}, NotIdempotent)
  const TASK := Task({}, {"write", "read"}, Low)
  const WRITING := Request("first", "run", "node", "write", "1", "{}", Some(KEY), "reason")
  const READING := Request("second", "run", "node", "read", "1", "{}", Some(KEY), "reason")

  function PolicyOf(cfg: Config): Policy {
    Policy(cfg.policyId, {}, High)
  }

  function ArriveWriting(cfg: Config): Step {
    Arrive(WRITING, TASK, Some(WRITE), PolicyOf(cfg))
  }

  function Writer(cfg: Config, outcome: Outcome, approvalId: Option<string>, phase: Phase): Call {
    Call(WRITING, TASK, Some(WRITE), PolicyOf(cfg), Authorization(outcome, cfg.policyId, approvalId), phase)
  }

  /** Asking, approving, and asking again. */
  function Approve(cfg: Config): seq<Step> {
    [ArriveWriting(cfg), AskApproval(0, "approval"), Decide(SlotOf(cfg, WRITING), Approved), ArriveWriting(cfg)]
  }

  // ---------------------------------------------------------------- chaining steps

  /** Steps taken one by one. */
  function Steps(cfg: Config, s: State, steps: seq<Step>): State
    decreases |steps|
  {
    if steps == [] then s else Steps(cfg, Next(cfg, s, steps[0]), steps[1..])
  }

  lemma {:induction false} StepsAreRun(cfg: Config, s: State, steps: seq<Step>)
    ensures Steps(cfg, s, steps) == Run(cfg, s, steps)
    decreases |steps|
  {
    if steps != [] {
      StepsAreRun(cfg, Next(cfg, s, steps[0]), steps[1..]);
      FirstStep(cfg, s, steps);
    }
  }

  lemma {:induction false} FirstStep(cfg: Config, s: State, steps: seq<Step>)
    requires steps != []
    ensures Run(cfg, s, steps) == Run(cfg, Next(cfg, s, steps[0]), steps[1..])
  {
    if |steps| == 1 {
      assert steps[..0] == [] && steps[1..] == [];
    } else {
      FirstStep(cfg, s, steps[..|steps| - 1]);
      assert steps[..|steps| - 1][1..] == steps[1..][..|steps| - 2];
    }
  }

  lemma StepsFour(cfg: Config, s: State, a: Step, b: Step, c: Step, d: Step)
    ensures Steps(cfg, s, [a, b, c, d]) == Next(cfg, Next(cfg, Next(cfg, Next(cfg, s, a), b), c), d)
  {
    var all := [a, b, c, d];
    assert all[1..] == [b, c, d] && [b, c, d][1..] == [c, d] && [c, d][1..] == [d] && [d][1..] == [];
    assert Steps(cfg, Next(cfg, Next(cfg, Next(cfg, s, a), b), c), [d]) ==
           Next(cfg, Next(cfg, Next(cfg, Next(cfg, s, a), b), c), d);
    assert Steps(cfg, Next(cfg, Next(cfg, s, a), b), [c, d]) ==
      Steps(cfg, Next(cfg, Next(cfg, Next(cfg, s, a), b), c), [d]);
  }

  // ---------------------------------------------------------------- the common beginning

  function Asked(cfg: Config): Result {
    Result(WRITING, Authorization(RequireApproval, cfg.policyId, Some("approval")), RequiresApproval, None)
  }

  /** The second request has been let through, and nothing has been executed. */
  function LetIn(cfg: Config): State {
    State([Writer(cfg, RequireApproval, None, Done(Asked(cfg))), Writer(cfg, Allow, Some("approval"), Authorized)],
          map[SlotOf(cfg, WRITING) := Approval("approval", Approved)], map[], [Asked(cfg)], [])
  }

  lemma ApproveLetsIn(cfg: Config)
    ensures Steps(cfg, INITIAL, Approve(cfg)) == LetIn(cfg)
  {
    var slot := SlotOf(cfg, WRITING);
    StepsFour(cfg, INITIAL, ArriveWriting(cfg), AskApproval(0, "approval"), Decide(slot, Approved), ArriveWriting(cfg));
    var s1 := State([Writer(cfg, RequireApproval, None, AwaitingApproval)], map[], map[], [], []);
    assert Next(cfg, INITIAL, ArriveWriting(cfg)) == s1;
    var s2 := State([Writer(cfg, RequireApproval, None, Done(Asked(cfg)))],
                    map[slot := Approval("approval", Pending)], map[], [Asked(cfg)], []);
    assert Next(cfg, s1, AskApproval(0, "approval")) == s2;
    var s3 := s2.(approvals := map[slot := Approval("approval", Approved)]);
    assert Next(cfg, s2, Decide(slot, Approved)) == s3;
    assert Next(cfg, s3, ArriveWriting(cfg)) == LetIn(cfg);
  }

  // ---------------------------------------------------------------- what the calls go through

  /** The journey of a call from being let through to having its backend's answer recorded. */
  function Journey(i: nat, x: Payload): seq<Step> {
    [RecordIntent(i), MarkExecuting(i), RunBackend(i, Returned(x)), Finish(i)]
  }

  predicate SetsOut(s: State, i: nat) {
    i < |s.calls| && s.calls[i].phase == Authorized && s.calls[i].capability.Some? && Carries(s.calls[i], KEY)
  }

  /** A side-effecting call executes and records its success under a new row. */
  lemma Writes(cfg: Config, s: State, i: nat, x: Payload)
    requires SetsOut(s, i) && Effectful(s.calls[i]) && KEY !in s.ledger
    ensures var t := Steps(cfg, s, Journey(i, x));
            && t.calls == s.calls[i := s.calls[i].(phase := Phase.Recorded(Returned(x)))] && t.approvals == s.approvals
            && Success(t, KEY) == Some(x) && t.executions == s.executions + [i]
  {
    StepsFour(cfg, s, RecordIntent(i), MarkExecuting(i), RunBackend(i, Returned(x)), Finish(i));
    var c := s.calls[i];
    var s1 := Next(cfg, s, RecordIntent(i));
    assert s1 == Intend(s, i) && s1.calls == s.calls[i := c.(phase := Prepared)] && KEY in s1.ledger;
    Executes(cfg, s1, i, x);
  }

  /** A read-only call executes and overwrites the row under its key. */
  lemma Reads(cfg: Config, s: State, i: nat, y: Payload)
    requires SetsOut(s, i) && !Effectful(s.calls[i]) && KEY in s.ledger
    ensures var t := Steps(cfg, s, Journey(i, y));
            && t.calls == s.calls[i := s.calls[i].(phase := Phase.Recorded(Returned(y)))] && t.approvals == s.approvals
            && Success(t, KEY) == Some(y)
  {
    StepsFour(cfg, s, RecordIntent(i), MarkExecuting(i), RunBackend(i, Returned(y)), Finish(i));
    var c := s.calls[i];
    var s1 := Next(cfg, s, RecordIntent(i));
    assert s1 == Intend(s, i) && s1.calls == s.calls[i := c.(phase := Prepared)] && s1.ledger == s.ledger;
    Executes(cfg, s1, i, y);
  }

  lemma Executes(cfg: Config, s: State, i: nat, x: Payload)
    requires i < |s.calls| && s.calls[i].phase == Prepared && Carries(s.calls[i], KEY) && KEY in s.ledger
    ensures var t := Next(cfg, Next(cfg, Next(cfg, s, MarkExecuting(i)), RunBackend(i, Returned(x))), Finish(i));
            && t.calls == s.calls[i := s.calls[i].(phase := Phase.Recorded(Returned(x)))] && t.approvals == s.approvals
            && Success(t, KEY) == Some(x) && t.executions == s.executions + [i] && KEY in t.ledger
  {
    var c := s.calls[i];
    var s1 := Next(cfg, s, MarkExecuting(i));
    assert s1.calls == s.calls[i := c.(phase := Started)] && s1.ledger == s.ledger && s1.executions == s.executions;
    var s2 := Next(cfg, s1, RunBackend(i, Returned(x)));
    assert s2.calls == s.calls[i := c.(phase := Ran(Returned(x)))] && s2.ledger == s.ledger;
    assert Next(cfg, s2, Finish(i)) == FinishCall(s2, i, Returned(x));
  }

  predicate WritingApproved(cfg: Config, s: State) {
    SlotOf(cfg, WRITING) in s.approvals && s.approvals[SlotOf(cfg, WRITING)] == Approval("approval", Approved)
  }

  /** A repeated request under a key that has a row reports what the row says. */
  lemma Repeat(cfg: Config, s: State)
    requires WritingApproved(cfg, s) && KEY in s.ledger
    ensures var n := |s.calls|;
            var t := Next(cfg, Next(cfg, Next(cfg, s, ArriveWriting(cfg)), RecordIntent(n)), Report(n));
            var c := Writer(cfg, Allow, Some("approval"), Duplicate(s.ledger[KEY]));
            |t.calls| == n + 1 && t.calls[n].phase == Done(Row(cfg, c))
  {
    var n := |s.calls|;
    var s1 := Next(cfg, s, ArriveWriting(cfg));
    assert s1.calls == s.calls + [Writer(cfg, Allow, Some("approval"), Authorized)] && s1.ledger == s.ledger;
    var s2 := Next(cfg, s1, RecordIntent(n));
    assert s2 == Intend(s1, n) && s2.calls[n] == Writer(cfg, Allow, Some("approval"), Duplicate(s.ledger[KEY]));
  }

  // ---------------------------------------------------------------- the two runs

  function Recording(cfg: Config, x: Payload): seq<Step> {
    Approve(cfg) + Journey(1, x)
  }

  lemma {:induction false} StepsAppend(cfg: Config, s: State, a: seq<Step>, b: seq<Step>)
    ensures Steps(cfg, s, a + b) == Steps(cfg, Steps(cfg, s, a), b)
    decreases |a|
  {
    if a == [] {
      assert a + b == b;
    } else {
      assert (a + b)[1..] == a[1..] + b;
      StepsAppend(cfg, Next(cfg, s, a[0]), a[1..], b);
    }
  }

  ghost predicate HasRecorded(cfg: Config, s: State, x: Payload) {
    && WritingApproved(cfg, s) && Success(s, KEY) == Some(x) && s.executions == [1] && |s.calls| == 2
    && s.calls[1] == Writer(cfg, Allow, Some("approval"), Phase.Recorded(Returned(x)))
  }

  lemma RecordingRecords(cfg: Config, x: Payload)
    ensures HasRecorded(cfg, Steps(cfg, INITIAL, Recording(cfg, x)), x)
  {
    StepsAppend(cfg, INITIAL, Approve(cfg), Journey(1, x));
    ApproveLetsIn(cfg);
    Writes(cfg, LetIn(cfg), 1, x);
  }

  function LosingReport(cfg: Config, x: Payload): seq<Step> {
    Recording(cfg, x) + [ReportFails(1, false)] + [Finish(1)] + [ArriveWriting(cfg)] + [RecordIntent(2)] + [Report(2)]
  }

  /** The effect took place and was recorded as a success; its report fails, and a repeat reports FAILED. */
  lemma LostReportIsRepeatedAsFailure(cfg: Config, x: Payload)
    ensures Success(Run(cfg, INITIAL, Recording(cfg, x)), KEY) == Some(x)
    ensures var t := Run(cfg, INITIAL, LosingReport(cfg, x));
            && t.executions == [1] && |t.calls| == 3
            && t.calls[2].phase.Done? && t.calls[2].phase.result.status == Failed
  {
    StepsAreRun(cfg, INITIAL, Recording(cfg, x));
    StepsAreRun(cfg, INITIAL, LosingReport(cfg, x));
    RecordingRecords(cfg, x);
    var p := Recording(cfg, x) + [ReportFails(1, false)] + [Finish(1)];
    StepsSnoc(cfg, Recording(cfg, x), ReportFails(1, false));
    StepsSnoc(cfg, Recording(cfg, x) + [ReportFails(1, false)], Finish(1));
    StepsSnoc(cfg, p, ArriveWriting(cfg));
    StepsSnoc(cfg, p + [ArriveWriting(cfg)], RecordIntent(2));
    StepsSnoc(cfg, p + [ArriveWriting(cfg)] + [RecordIntent(2)], Report(2));
    LosesReport(cfg, Steps(cfg, INITIAL, Recording(cfg, x)), x);
    RepeatsFailure(cfg, Steps(cfg, INITIAL, p));
  }

  lemma RepeatsFailure(cfg: Config, s: State)
    requires WritingApproved(cfg, s) && KEY in s.ledger && s.ledger[KEY].status == EffectFailed
    ensures var n := |s.calls|;
            var t := Next(cfg, Next(cfg, Next(cfg, s, ArriveWriting(cfg)), RecordIntent(n)), Report(n));
            && |t.calls| == n + 1 && t.executions == s.executions
            && t.calls[n].phase.Done? && t.calls[n].phase.result.status == Failed
  {
    var n := |s.calls|;
    Repeat(cfg, s);
    NothingExecuted(cfg, s, ArriveWriting(cfg));
    var s1 := Next(cfg, s, ArriveWriting(cfg));
    NothingExecuted(cfg, s1, RecordIntent(n));
    NothingExecuted(cfg, Next(cfg, s1, RecordIntent(n)), Report(n));
  }

  lemma NothingExecuted(cfg: Config, s: State, step: Step)
    requires !step.RunBackend?
    ensures Next(cfg, s, step).executions == s.executions
  {
  }

  lemma LosesReport(cfg: Config, s: State, x: Payload)
    requires HasRecorded(cfg, s, x)
    ensures var t := Next(cfg, Next(cfg, s, ReportFails(1, false)), Finish(1));
            && WritingApproved(cfg, t) && |t.calls| == 2 && t.executions == s.executions
            && KEY in t.ledger && t.ledger[KEY].status == EffectFailed
  {
    var s1 := Next(cfg, s, ReportFails(1, false));
    assert s1 == ReportFailed(cfg, s, 1, false) && s1.calls[1].phase == Ran(Raised) && s1.ledger == s.ledger;
    assert Next(cfg, s1, Finish(1)) == FinishCall(s1, 1, Raised);
  }

  function Overwriting(cfg: Config, x: Payload, y: Payload): seq<Step> {
    Recording(cfg, x) + [Report(1)] + [Arrive(READING, TASK, Some(READ), PolicyOf(cfg))] + Journey(2, y) +
    [ArriveWriting(cfg)] + [RecordIntent(3)] + [Report(3)]
  }

  /** A success is reported; a read-only call carries the same key; a repeat reports the read-only call's output. */
  lemma ReadOnlyOutputIsRepeated(cfg: Config, x: Payload, y: Payload)
    ensures var t := Run(cfg, INITIAL, Overwriting(cfg, x, y));
            && |t.calls| == 4
            && t.calls[1].phase.Done? && t.calls[1].phase.result.status == Succeeded
            && t.calls[1].phase.result.output == Some(cfg.redact(x))
            && t.calls[3].phase.Done? && t.calls[3].phase.result.status == Succeeded
            && t.calls[3].phase.result.output == Some(cfg.redact(cfg.redact(y)))
  {
    var reading := Arrive(READING, TASK, Some(READ), PolicyOf(cfg));
    StepsAreRun(cfg, INITIAL, Overwriting(cfg, x, y));
    OverwritingChained(cfg, x, y);
    RecordingRecords(cfg, x);
    var s := Steps(cfg, INITIAL, Recording(cfg, x));
    ReportsAndReads(cfg, s, x);
    var s2 := Next(cfg, Next(cfg, s, Report(1)), reading);
    Reads(cfg, s2, 2, y);
    RepeatsOutput(cfg, Steps(cfg, s2, Journey(2, y)), y);
  }

  lemma OverwritingChained(cfg: Config, x: Payload, y: Payload)
    ensures var s := Steps(cfg, INITIAL, Recording(cfg, x));
            var s2 := Next(cfg, Next(cfg, s, Report(1)), Arrive(READING, TASK, Some(READ), PolicyOf(cfg)));
            var s3 := Steps(cfg, s2, Journey(2, y));
            Steps(cfg, INITIAL, Overwriting(cfg, x, y)) ==
            Next(cfg, Next(cfg, Next(cfg, s3, ArriveWriting(cfg)), RecordIntent(3)), Report(3))
  {
    var reading := Arrive(READING, TASK, Some(READ), PolicyOf(cfg));
    var p1 := Recording(cfg, x) + [Report(1)] + [reading];
    var p2 := p1 + Journey(2, y);
    StepsSnoc(cfg, Recording(cfg, x), Report(1));
    StepsSnoc(cfg, Recording(cfg, x) + [Report(1)], reading);
    StepsAppend(cfg, INITIAL, p1, Journey(2, y));
    StepsSnoc(cfg, p2, ArriveWriting(cfg));
    StepsSnoc(cfg, p2 + [ArriveWriting(cfg)], RecordIntent(3));
    StepsSnoc(cfg, p2 + [ArriveWriting(cfg)] + [RecordIntent(3)], Report(3));
  }

  /** A repeat reports the recorded output and leaves finished calls alone. */
  lemma RepeatsOutput(cfg: Config, s: State, y: Payload)
    requires WritingApproved(cfg, s) && Success(s, KEY) == Some(y) && |s.calls| == 3 && s.calls[1].phase.Done?
    ensures var t := Next(cfg, Next(cfg, Next(cfg, s, ArriveWriting(cfg)), RecordIntent(3)), Report(3));
            && |t.calls| == 4 && t.calls[1] == s.calls[1]
            && t.calls[3].phase.Done? && t.calls[3].phase.result.status == Succeeded
            && t.calls[3].phase.result.output == Some(cfg.redact(cfg.redact(y)))
  {
    Repeat(cfg, s);
    var s1 := Next(cfg, s, ArriveWriting(cfg));
    var s2 := Next(cfg, s1, RecordIntent(3));
    StepChanges(cfg, s, ArriveWriting(cfg), 1);
    StepChanges(cfg, s1, RecordIntent(3), 1);
    StepChanges(cfg, s2, Report(3), 1);
  }

  lemma StepsSnoc(cfg: Config, steps: seq<Step>, step: Step)
    ensures Steps(cfg, INITIAL, steps + [step]) == Next(cfg, Steps(cfg, INITIAL, steps), step)
  {
    StepsAppend(cfg, INITIAL, steps, [step]);
    var s := Steps(cfg, INITIAL, steps);
    assert [step][1..] == [] && Steps(cfg, Next(cfg, s, step), []) == Next(cfg, s, step);
  }

  lemma ReaderArrives(cfg: Config, s: State)
    ensures var t := Next(cfg, s, Arrive(READING, TASK, Some(READ), PolicyOf(cfg)));
            && t.approvals == s.approvals && t.ledger == s.ledger && |t.calls| == |s.calls| + 1 && s.calls <= t.calls
            && SetsOut(t, |s.calls|) && !Effectful(t.calls[|s.calls|])
  {
    assert !Protected(TASK, READ, PolicyOf(cfg)) && Eligible(cfg.granted, TASK, READ, READING, PolicyOf(cfg));
    assert Next(cfg, s, Arrive(READING, TASK, Some(READ), PolicyOf(cfg))) ==
           ArriveCall(cfg, s, READING, TASK, Some(READ), PolicyOf(cfg));
  }

  lemma ReportsAndReads(cfg: Config, s: State, x: Payload)
    requires HasRecorded(cfg, s, x)
    ensures var t := Next(cfg, Next(cfg, s, Report(1)), Arrive(READING, TASK, Some(READ), PolicyOf(cfg)));
            && WritingApproved(cfg, t) && |t.calls| == 3 && KEY in t.ledger
            && t.calls[1].phase == Done(Result(WRITING, s.calls[1].authorization, Succeeded, Some(cfg.redact(x))))
            && SetsOut(t, 2) && !Effectful(t.calls[2])
  {
    Reports(cfg, s, x);
    ReaderArrives(cfg, Next(cfg, s, Report(1)));
  }

  lemma Reports(cfg: Config, s: State, x: Payload)
    requires HasRecorded(cfg, s, x)
    ensures var t := Next(cfg, s, Report(1));
            && t.approvals == s.approvals && t.ledger == s.ledger && |t.calls| == 2
            && t.calls[1].phase == Done(Result(WRITING, s.calls[1].authorization, Succeeded, Some(cfg.redact(x))))
  {
    assert Next(cfg, s, Report(1)).calls[1].phase == Done(Row(cfg, s.calls[1]));
  }
}
