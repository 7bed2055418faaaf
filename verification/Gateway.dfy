/**
 The governed capability gateway (src/accretion/governance.py) as a transition system. Any number
 of calls are in flight; each of their steps is one read or write of the shared store, and calls
 may crash, or find the store failing, between any two of them.
 */
module Gateway {
  import opened Sequences
  import opened SideEffects

  // ---------------------------------------------------------------- contracts

  datatype Risk = Low | Medium | High | Critical

  function Rank(risk: Risk): nat {
    match risk case Low => 0 case Medium => 1 case High => 2 case Critical => 3
  }

  datatype IdempotencyMode = NotIdempotent | Keyed | Transactional

  datatype Capability = Capability(
    capabilityId: string, enabled: bool, risk: Risk, sideEffects: seq<string>,
    requiredPermissions: set<string>, idempotency: IdempotencyMode
  )

  datatype Task = Task(denied: set<string>, allowed: set<string>, risk: Risk)
  datatype Policy = Policy(policyId: string, explicitlyDenied: set<string>, requireApprovalAt: Risk)

  datatype Request = Request(
    requestId: string, runId: string, nodeId: string, capabilityId: string, capabilityVersion: string,
    arguments: Payload, idempotencyKey: Option<string>, declaredReason: string
  )

  /** An absent key and an empty one are both falsy. */
  predicate HasKey(r: Request) {
    r.idempotencyKey.Some? && r.idempotencyKey.value != ""
  }

  datatype ApprovalStatus = Pending | Approved | Denied | Cancelled
  datatype Approval = Approval(approvalId: string, status: ApprovalStatus)

  datatype Outcome = Allow | Deny | RequireApproval
  datatype Authorization = Authorization(outcome: Outcome, policyId: string, approvalId: Option<string>)

  datatype ExecutionStatus = WasDenied | RequiresApproval | Executing | Succeeded | Failed | Unknown
  datatype Result = Result(request: Request, authorization: Authorization, status: ExecutionStatus,
    output: Option<Payload>)

  // ---------------------------------------------------------------- the policy decision

  predicate SideEffecting(c: Capability) {
    c.sideEffects != []
  }

  predicate Protected(task: Task, c: Capability, policy: Policy) {
    SideEffecting(c) || Rank(c.risk) >= Rank(policy.requireApprovalAt) ||
      Rank(task.risk) >= Rank(policy.requireApprovalAt)
  }

  /** Everything a call must meet before approval is even considered. */
  predicate Eligible(granted: set<string>, task: Task, c: Capability, r: Request, policy: Policy) {
    && c.enabled
    && c.capabilityId in task.allowed - task.denied - policy.explicitlyDenied
    && c.requiredPermissions <= granted
    && (SideEffecting(c) ==> c.idempotency != NotIdempotent && HasKey(r))
  }

  function Authorize(
    granted: set<string>, task: Task, c: Capability, r: Request, policy: Policy, approval: Option<Approval>
  ): (a: Authorization)
    ensures a.policyId == policy.policyId
    ensures a.approvalId == if approval.Some? then Some(approval.value.approvalId) else None
    ensures a.outcome == Allow <==>
              && Eligible(granted, task, c, r, policy)
              && (Protected(task, c, policy) ==> approval.Some? && approval.value.status == Approved)
    ensures a.outcome == RequireApproval <==>
              && Eligible(granted, task, c, r, policy) && Protected(task, c, policy)
              && (approval.None? || approval.value.status == Pending)
  {
    var decision := (outcome: Outcome) => Authorization(
      outcome, policy.policyId, if approval.Some? then Some(approval.value.approvalId) else None);
    var missing := c.requiredPermissions - granted;
    assert forall p :: p in c.requiredPermissions && p !in granted ==> p in missing;
    assert missing == {} <==> c.requiredPermissions <= granted;
    if !c.enabled then decision(Deny)
    else if c.capabilityId in policy.explicitlyDenied then decision(Deny)
    else if c.capabilityId in task.denied then decision(Deny)
    else if c.capabilityId !in task.allowed then decision(Deny)
    else if missing != {} then decision(Deny)
    else if SideEffecting(c) && c.idempotency == NotIdempotent then decision(Deny)
    else if SideEffecting(c) && !HasKey(r) then decision(Deny)
    else if !Protected(task, c, policy) then decision(Allow)
    else if approval.None? || approval.value.status == Pending then decision(RequireApproval)
    else if approval.value.status != Approved then decision(Deny)
    else decision(Allow)
  }

  // ---------------------------------------------------------------- state

  datatype Bound = Bound(
    runId: string, nodeId: string, capabilityId: string, capabilityVersion: string,
    arguments: Payload, idempotencyKey: Option<string>
  )

  /** The gateway's configuration, and the two foreign functions it relies on. */
  datatype Config = Config(policyId: string, granted: set<string>, digest: Bound -> string, redact: Payload -> Payload)

  function BoundOf(r: Request): Bound {
    Bound(r.runId, r.nodeId, r.capabilityId, r.capabilityVersion, r.arguments, r.idempotencyKey)
  }

  function ApprovalBinding(cfg: Config, r: Request): string {
    "capability:" + cfg.digest(BoundOf(r))
  }

  /** The store's index of approvals: run and native request id. */
  datatype Slot = Slot(runId: string, nativeRequestId: string)

  function SlotOf(cfg: Config, r: Request): Slot {
    Slot(r.runId, ApprovalBinding(cfg, r))
  }

  /** What came back from the backend, after transforms, scrubbing and schema validation. */
  datatype Backend = Returned(output: Payload) | Raised

  datatype Phase =
    | Refused
    | AwaitingApproval
    | Authorized
    | Prepared
    | Started
    | Ran(backend: Backend)
    | Recorded(backend: Backend)
    | Duplicate(operation: Operation)
    | Done(result: Result)
    | Abandoned

  datatype Call = Call(
    request: Request, task: Task, capability: Option<Capability>, policy: Policy,
    authorization: Authorization, phase: Phase
  )

  datatype State = State(
    calls: seq<Call>,
    approvals: map<Slot, Approval>,
    ledger: Operations,
    written: seq<Result>,      // every result row ever saved, oldest first
    executions: seq<nat>       // the calls whose backend was run, oldest first
  )

  const INITIAL := State([], map[], map[], [], [])

  datatype Step =
    | Arrive(request: Request, task: Task, capability: Option<Capability>, policy: Policy)
    | Decline(i: nat)
    | AskApproval(i: nat, approvalId: string)
    | RecordIntent(i: nat)
    | MarkExecuting(i: nat)
    | RunBackend(i: nat, backend: Backend)
    | SkipBackend(i: nat)
    | Finish(i: nat)
    | FinishFails(i: nat)
    | Report(i: nat)
    | ReportFails(i: nat, saved: bool)
    | Crash(i: nat)
    | Decide(slot: Slot, status: ApprovalStatus)
    | OpenGate(runId: string, nodeKey: string, approvalId: string)
    | Reconcile

  predicate Effectful(c: Call) {
    c.capability.Some? && SideEffecting(c.capability.value)
  }

  // ---------------------------------------------------------------- the steps

  function Lookup(s: State, slot: Slot): Option<Approval> {
    if slot in s.approvals then Some(s.approvals[slot]) else None
  }

  function WithPhase(s: State, i: nat, phase: Phase): State
    requires i < |s.calls|
  {
    s.(calls := s.calls[i := s.calls[i].(phase := phase)])
  }

  function Saving(s: State, row: Result): State {
    s.(written := s.written + [row])
  }

  /** Lines 378-485 up to the decision; a call that raises before it leaves no trace. */
  function ArriveCall(
    cfg: Config, s: State, r: Request, task: Task, capability: Option<Capability>, policy: Policy
  ): State {
    var authorization :=
      if capability.None? then Authorization(Deny, policy.policyId, None)
      else Authorize(cfg.granted, task, capability.value, r, policy, Lookup(s, SlotOf(cfg, r)));
    var phase := match authorization.outcome
      case Deny => Refused
      case RequireApproval => AwaitingApproval
      case Allow => Authorized;
    s.(calls := s.calls + [Call(r, task, capability, policy, authorization, phase)])
  }

  /** `save_approval` keeps the record already there. */
  function EnsureApproval(s: State, slot: Slot, approvalId: string): State {
    if slot in s.approvals then s else s.(approvals := s.approvals[slot := Approval(approvalId, Pending)])
  }

  function AskFor(cfg: Config, s: State, i: nat, approvalId: string): State
    requires i < |s.calls|
  {
    var c := s.calls[i];
    var slot := SlotOf(cfg, c.request);
    var s1 := EnsureApproval(s, slot, approvalId);
    var row := Result(
      c.request, c.authorization.(approvalId := Some(s1.approvals[slot].approvalId)), RequiresApproval, None);
    WithPhase(Saving(s1, row), i, Done(row))
  }

  function Intend(s: State, i: nat): State
    requires i < |s.calls|
  {
    var c := s.calls[i];
    if Effectful(c) && HasKey(c.request) then
      var key := c.request.idempotencyKey.value;
      var operation := Operation(i, c.request.runId, c.request.capabilityId, IntentRecorded, c.request.arguments, None);
      if key in s.ledger then WithPhase(s, i, Duplicate(s.ledger[key]))
      else WithPhase(s.(ledger := SideEffects.Recorded(s.ledger, key, operation)), i, Prepared)
    else WithPhase(s, i, Prepared)
  }

  /**
   `finish` runs for every request with a key, read-only ones included. A missing row raises inside
   the `try`, and then again in the handler, so such a call never reports.
   */
  function FinishCall(s: State, i: nat, backend: Backend): State
    requires i < |s.calls|
  {
    var r := s.calls[i].request;
    if !HasKey(r) then WithPhase(s, i, Recorded(backend))
    else
      var payload := if backend.Returned? then backend.output else "CAPABILITY_EXECUTION_FAILED";
      match Finished(s.ledger, r.idempotencyKey.value, backend.Returned?, payload)
      case None => WithPhase(s, i, Abandoned)
      case Some(ledger) => WithPhase(s.(ledger := ledger), i, Recorded(backend))
  }

  /** The row `_terminal` and `_duplicate_result` save. */
  function Row(cfg: Config, c: Call): Result
    requires c.phase.Recorded? || c.phase.Duplicate?
  {
    match c.phase
    case Recorded(Returned(output)) => Result(c.request, c.authorization, Succeeded, Some(cfg.redact(output)))
    case Recorded(Raised) => Result(c.request, c.authorization, Failed, None)
    case Duplicate(operation) =>
      match operation.status
      case EffectSucceeded =>
        var recorded := if operation.result.Some? then operation.result.value else "{}";
        Result(c.request, c.authorization, Succeeded, Some(cfg.redact(cfg.redact(recorded))))
      case EffectFailed => Result(c.request, c.authorization, Failed, None)
      case _ => Result(c.request, c.authorization, Unknown, None)
  }

  /** A failing save of a success falls into the handler, which finishes again, as a failure. */
  function ReportFailed(cfg: Config, s: State, i: nat, saved: bool): State
    requires i < |s.calls| && (s.calls[i].phase.Recorded? || s.calls[i].phase.Duplicate?)
  {
    var phase := s.calls[i].phase;
    var s1 := if saved then Saving(s, Row(cfg, s.calls[i])) else s;
    WithPhase(s1, i, if phase.Recorded? && phase.backend.Returned? then Ran(Raised) else Abandoned)
  }

  function Advance(cfg: Config, s: State, step: Step, i: nat): State
    requires i < |s.calls|
  {
    var c := s.calls[i];
    match (step, c.phase)
    case (Decline(_), Refused) =>
      var row := Result(c.request, c.authorization, WasDenied, None);
      WithPhase(Saving(s, row), i, Done(row))
    case (AskApproval(_, approvalId), AwaitingApproval) => AskFor(cfg, s, i, approvalId)
    case (RecordIntent(_), Authorized) => Intend(s, i)
    case (MarkExecuting(_), Prepared) =>
      WithPhase(Saving(s, Result(c.request, c.authorization, Executing, None)), i, Started)
    case (RunBackend(_, backend), Started) => WithPhase(s.(executions := s.executions + [i]), i, Ran(backend))
    case (SkipBackend(_), Started) => WithPhase(s, i, Ran(Raised))
    case (Finish(_), Ran(backend)) => FinishCall(s, i, backend)
    case (FinishFails(_), Ran(backend)) => WithPhase(s, i, if backend.Returned? then Ran(Raised) else Abandoned)
    case (Report(_), Recorded(_)) => WithPhase(Saving(s, Row(cfg, c)), i, Done(Row(cfg, c)))
    case (Report(_), Duplicate(_)) => WithPhase(Saving(s, Row(cfg, c)), i, Done(Row(cfg, c)))
    case (ReportFails(_, saved), Recorded(_)) => ReportFailed(cfg, s, i, saved)
    case (ReportFails(_, saved), Duplicate(_)) => ReportFailed(cfg, s, i, saved)
    case (Crash(_), phase) => if phase.Done? then s else WithPhase(s, i, Abandoned)
    case _ => s
  }

  /** Every step is total: one that is not enabled changes nothing. */
  function Next(cfg: Config, s: State, step: Step): State {
    match step
    case Arrive(r, task, capability, policy) =>
      if policy.policyId == cfg.policyId then ArriveCall(cfg, s, r, task, capability, policy) else s
    case Decide(slot, status) =>
      if slot in s.approvals && s.approvals[slot].status == Pending
      then s.(approvals := s.approvals[slot := s.approvals[slot].(status := status)]) else s
    case OpenGate(runId, nodeKey, approvalId) => EnsureApproval(s, Slot(runId, "gate:" + nodeKey), approvalId)
    case Reconcile => s.(ledger := Reconciled(s.ledger))
    case _ => if step.i < |s.calls| then Advance(cfg, s, step, step.i) else s
  }

  function Run(cfg: Config, s: State, steps: seq<Step>): State {
    if steps == [] then s else Next(cfg, Run(cfg, s, steps[..|steps| - 1]), steps[|steps| - 1])
  }

  // ---------------------------------------------------------------- what every step keeps

  predicate IsApproved(cfg: Config, s: State, r: Request) {
    SlotOf(cfg, r) in s.approvals && s.approvals[SlotOf(cfg, r)].status == Approved
  }

  predicate Cleared(phase: Phase) {
    phase.Authorized? || phase.Prepared? || phase.Started? || phase.Ran? || phase.Recorded? || phase.Duplicate?
  }

  predicate BeforeBackend(phase: Phase) {
    phase.Refused? || phase.AwaitingApproval? || phase.Authorized? || phase.Prepared? || phase.Started? ||
      phase.Duplicate?
  }

  predicate PastIntent(phase: Phase) {
    phase.Prepared? || phase.Started? || phase.Ran? || phase.Recorded?
  }

  /** The policy let the call through, on an approval of exactly this request where one is needed. */
  predicate LetThrough(cfg: Config, s: State, c: Call) {
    && c.capability.Some? && c.policy.policyId == cfg.policyId
    && c.authorization.outcome == Allow && c.authorization.policyId == cfg.policyId
    && Eligible(cfg.granted, c.task, c.capability.value, c.request, c.policy)
    && (Protected(c.task, c.capability.value, c.policy) ==> IsApproved(cfg, s, c.request))
  }

  predicate OwnsRow(s: State, i: nat)
    requires i < |s.calls|
  {
    var r := s.calls[i].request;
    HasKey(r) && r.idempotencyKey.value in s.ledger && s.ledger[r.idempotencyKey.value].operationId == i
  }

  predicate CallOk(cfg: Config, s: State, i: nat)
    requires i < |s.calls|
  {
    var c := s.calls[i];
    && (Cleared(c.phase) ==> LetThrough(cfg, s, c))
    && (PastIntent(c.phase) && Effectful(c) ==> OwnsRow(s, i))
    && (BeforeBackend(c.phase) ==> i !in s.executions)
  }

  predicate ExecutionOk(cfg: Config, s: State, i: nat) {
    i < |s.calls| && LetThrough(cfg, s, s.calls[i]) && (Effectful(s.calls[i]) ==> OwnsRow(s, i))
  }

  predicate ReachedBackend(status: ExecutionStatus) {
    status == Executing || status == Succeeded || status == Failed || status == Unknown
  }

  predicate RowOk(cfg: Config, row: Result) {
    ReachedBackend(row.status) ==> row.authorization.outcome == Allow && row.authorization.policyId == cfg.policyId
  }

  ghost predicate Inv(cfg: Config, s: State) {
    && (forall i :: 0 <= i < |s.calls| ==> CallOk(cfg, s, i))
    && (forall n :: 0 <= n < |s.executions| ==> ExecutionOk(cfg, s, s.executions[n]))
    && NoDuplicates(s.executions)
    && (forall row :: row in s.written ==> RowOk(cfg, row))
  }

  /** What no step ever takes back. */
  ghost predicate Grows(s: State, t: State) {
    && |s.calls| <= |t.calls|
    && (forall i :: 0 <= i < |s.calls| ==> t.calls[i] == s.calls[i].(phase := t.calls[i].phase))
    && (forall slot :: slot in s.approvals && s.approvals[slot].status == Approved ==>
                         slot in t.approvals && t.approvals[slot] == s.approvals[slot])
    && (forall key :: key in s.ledger ==> key in t.ledger && t.ledger[key].operationId == s.ledger[key].operationId)
    && s.written <= t.written && s.executions <= t.executions
  }

  lemma Rephased(s: State, t: State, i: nat, phase: Phase)
    requires Grows(s, t) && i < |t.calls|
    ensures Grows(s, WithPhase(t, i, phase))
  {
  }

  lemma LedgerGrows(s: State, ledger: Operations)
    requires forall key :: key in s.ledger ==> key in ledger && ledger[key].operationId == s.ledger[key].operationId
    ensures Grows(s, s.(ledger := ledger))
  {
  }

  lemma FinishGrows(s: State, i: nat, backend: Backend)
    requires i < |s.calls|
    ensures Grows(s, FinishCall(s, i, backend))
  {
    var r := s.calls[i].request;
    if HasKey(r) {
      var payload := if backend.Returned? then backend.output else "CAPABILITY_EXECUTION_FAILED";
      match Finished(s.ledger, r.idempotencyKey.value, backend.Returned?, payload)
      case None => Rephased(s, s, i, Abandoned);
      case Some(ledger) =>
        LedgerGrows(s, ledger);
        Rephased(s, s.(ledger := ledger), i, Recorded(backend));
    } else {
      Rephased(s, s, i, Recorded(backend));
    }
  }

  lemma AskGrows(cfg: Config, s: State, i: nat, approvalId: string)
    requires i < |s.calls|
    ensures Grows(s, AskFor(cfg, s, i, approvalId))
  {
    var t := AskFor(cfg, s, i, approvalId);
    var row := t.written[|t.written| - 1];
    var s1 := EnsureApproval(s, SlotOf(cfg, s.calls[i].request), approvalId);
    Rephased(s, Saving(s1, row), i, Done(row));
  }

  lemma IntendGrows(s: State, i: nat)
    requires i < |s.calls|
    ensures Grows(s, Intend(s, i))
  {
    var t := Intend(s, i);
    LedgerGrows(s, t.ledger);
    Rephased(s, s.(ledger := t.ledger), i, t.calls[i].phase);
  }

  /** The remaining steps of a call change only its phase and append to the two logs. */
  lemma AdvanceGrows(cfg: Config, s: State, step: Step, i: nat)
    requires i < |s.calls|
    ensures Grows(s, Advance(cfg, s, step, i))
  {
    var t := Advance(cfg, s, step, i);
    if step.AskApproval? && s.calls[i].phase.AwaitingApproval? {
      AskGrows(cfg, s, i, step.approvalId);
    } else if step.RecordIntent? && s.calls[i].phase.Authorized? {
      IntendGrows(s, i);
    } else if step.Finish? && s.calls[i].phase.Ran? {
      FinishGrows(s, i, s.calls[i].phase.backend);
    } else {
      var logs := s.(written := t.written, executions := t.executions);
      assert s.written <= t.written && s.executions <= t.executions;
      assert t == WithPhase(logs, i, t.calls[i].phase);
      Rephased(s, logs, i, t.calls[i].phase);
    }
  }

  lemma ApprovalsGrow(s: State, approvals: map<Slot, Approval>)
    requires forall slot :: slot in s.approvals && s.approvals[slot].status == Approved ==>
                              slot in approvals && approvals[slot] == s.approvals[slot]
    ensures Grows(s, s.(approvals := approvals))
  {
  }

  lemma StepGrows(cfg: Config, s: State, step: Step)
    ensures Grows(s, Next(cfg, s, step))
  {
    var t := Next(cfg, s, step);
    match step
    case Arrive(_, _, _, _) =>
    case Decide(_, _) => ApprovalsGrow(s, t.approvals);
    case OpenGate(_, _, _) => ApprovalsGrow(s, t.approvals);
    case Reconcile => LedgerGrows(s, t.ledger);
    case _ => if step.i < |s.calls| { AdvanceGrows(cfg, s, step, step.i); }
  }

  lemma GrowthKeeps(cfg: Config, s: State, t: State, i: nat)
    requires Grows(s, t) && i < |s.calls|
    ensures LetThrough(cfg, s, s.calls[i]) ==> LetThrough(cfg, t, t.calls[i])
    ensures OwnsRow(s, i) ==> OwnsRow(t, i)
    ensures ExecutionOk(cfg, s, i) ==> ExecutionOk(cfg, t, i)
  {
  }

  /** The execution log gains at most the stepping call, and then only as it leaves `Started`. */
  lemma AdvanceFrame(cfg: Config, s: State, step: Step, i: nat)
    requires i < |s.calls|
    ensures var t := Advance(cfg, s, step, i);
            && |t.calls| == |s.calls|
            && (forall j :: 0 <= j < |s.calls| && j != i ==> t.calls[j] == s.calls[j])
            && (t.executions == s.executions ||
                (t.executions == s.executions + [i] && s.calls[i].phase.Started? && t.calls[i].phase.Ran?))
  {
  }

  lemma AdvanceRows(cfg: Config, s: State, step: Step, i: nat)
    requires i < |s.calls| && CallOk(cfg, s, i)
    ensures var t := Advance(cfg, s, step, i);
            t.written == s.written || exists row :: t.written == s.written + [row] && RowOk(cfg, row)
  {
  }

  lemma AdvanceKeepsCall(cfg: Config, s: State, step: Step, i: nat)
    requires i < |s.calls| && CallOk(cfg, s, i)
    ensures CallOk(cfg, Advance(cfg, s, step, i), i)
  {
    var t := Advance(cfg, s, step, i);
    AdvanceGrows(cfg, s, step, i);
    GrowthKeeps(cfg, s, t, i);
    AdvanceFrame(cfg, s, step, i);
  }

  lemma AdvanceKeepsInv(cfg: Config, s: State, step: Step, i: nat)
    requires i < |s.calls| && Inv(cfg, s)
    ensures Inv(cfg, Advance(cfg, s, step, i))
  {
    var t := Advance(cfg, s, step, i);
    AdvanceGrows(cfg, s, step, i);
    AdvanceFrame(cfg, s, step, i);
    assert CallOk(cfg, s, i);
    AdvanceRows(cfg, s, step, i);
    forall j | 0 <= j < |t.calls| ensures CallOk(cfg, t, j) {
      assert CallOk(cfg, s, j);
      if j == i { AdvanceKeepsCall(cfg, s, step, i); } else { GrowthKeeps(cfg, s, t, j); }
    }
    forall n | 0 <= n < |t.executions| ensures ExecutionOk(cfg, t, t.executions[n]) {
      GrowthKeeps(cfg, s, t, if n < |s.executions| then s.executions[n] else i);
    }
  }

  lemma QuietKeepsInv(cfg: Config, s: State, t: State)
    requires Inv(cfg, s) && Grows(s, t)
    requires t.calls == s.calls && t.executions == s.executions && t.written == s.written
    ensures Inv(cfg, t)
  {
    forall j | 0 <= j < |t.calls| ensures CallOk(cfg, t, j) {
      assert CallOk(cfg, s, j);
      GrowthKeeps(cfg, s, t, j);
    }
    forall n | 0 <= n < |t.executions| ensures ExecutionOk(cfg, t, t.executions[n]) {
      assert ExecutionOk(cfg, s, s.executions[n]);
      GrowthKeeps(cfg, s, t, s.executions[n]);
    }
  }

  lemma ArriveKeepsInv(cfg: Config, s: State, r: Request, task: Task, capability: Option<Capability>, policy: Policy)
    requires Inv(cfg, s) && policy.policyId == cfg.policyId
    ensures Inv(cfg, ArriveCall(cfg, s, r, task, capability, policy))
  {
    var t := ArriveCall(cfg, s, r, task, capability, policy);
    var i := |s.calls|;
    forall j | 0 <= j < |t.calls| ensures CallOk(cfg, t, j) {
      if j < i {
        assert CallOk(cfg, s, j);
        GrowthKeeps(cfg, s, t, j);
      } else {
        assert forall n :: 0 <= n < |s.executions| ==> ExecutionOk(cfg, s, s.executions[n]);
      }
    }
    forall n | 0 <= n < |t.executions| ensures ExecutionOk(cfg, t, t.executions[n]) {
      assert ExecutionOk(cfg, s, s.executions[n]);
      GrowthKeeps(cfg, s, t, s.executions[n]);
    }
  }

  lemma StepKeepsInv(cfg: Config, s: State, step: Step)
    requires Inv(cfg, s)
    ensures Inv(cfg, Next(cfg, s, step))
  {
    StepGrows(cfg, s, step);
    var t := Next(cfg, s, step);
    match step
    case Arrive(r, task, capability, policy) =>
      if policy.policyId == cfg.policyId { ArriveKeepsInv(cfg, s, r, task, capability, policy); }
    case Decide(_, _) => QuietKeepsInv(cfg, s, t);
    case OpenGate(_, _, _) => QuietKeepsInv(cfg, s, t);
    case Reconcile => QuietKeepsInv(cfg, s, t);
    case _ => if step.i < |s.calls| { AdvanceKeepsInv(cfg, s, step, step.i); }
  }

  lemma {:induction false} RunKeepsInv(cfg: Config, steps: seq<Step>)
    ensures Inv(cfg, Run(cfg, INITIAL, steps))
  {
    if steps != [] {
      RunKeepsInv(cfg, steps[..|steps| - 1]);
      StepKeepsInv(cfg, Run(cfg, INITIAL, steps[..|steps| - 1]), steps[|steps| - 1]);
    }
  }

  // ---------------------------------------------------------------- the main results

  /**
   Over every run, crashes and store failures included, the backend is run at most once per call,
   and at most once per idempotency key among the calls of side-effecting capabilities.
   */
  lemma BackendRunsAtMostOnce(cfg: Config, steps: seq<Step>, m: nat, n: nat)
    requires var s := Run(cfg, INITIAL, steps); m < n < |s.executions|
    ensures var s := Run(cfg, INITIAL, steps);
            var i, j := s.executions[m], s.executions[n];
            && i != j && i < |s.calls| && j < |s.calls|
            && (Effectful(s.calls[i]) && Effectful(s.calls[j]) ==>
                  HasKey(s.calls[i].request) && s.calls[i].request.idempotencyKey != s.calls[j].request.idempotencyKey)
  {
    RunKeepsInv(cfg, steps);
    var s := Run(cfg, INITIAL, steps);
    assert ExecutionOk(cfg, s, s.executions[m]) && ExecutionOk(cfg, s, s.executions[n]);
  }

  ghost predicate Injective(digest: Bound -> string) {
    forall a, b :: digest(a) == digest(b) ==> a == b
  }

  /**
   Every execution was let through by the policy; a protected one holds an APPROVED record, and no
   request differing in any bound field could have used that record.
   */
  lemma ExecutionsAreApproved(cfg: Config, steps: seq<Step>, n: nat)
    requires Injective(cfg.digest)
    requires n < |Run(cfg, INITIAL, steps).executions|
    ensures var s := Run(cfg, INITIAL, steps);
            var i := s.executions[n];
            && i < |s.calls| && LetThrough(cfg, s, s.calls[i])
            && (Protected(s.calls[i].task, s.calls[i].capability.value, s.calls[i].policy) ==>
                  exists slot ::
                    && slot in s.approvals && s.approvals[slot].status == Approved
                    && forall r :: SlotOf(cfg, r) == slot <==> BoundOf(r) == BoundOf(s.calls[i].request))
  {
    RunKeepsInv(cfg, steps);
    var s := Run(cfg, INITIAL, steps);
    var i := s.executions[n];
    assert ExecutionOk(cfg, s, i);
    var request := s.calls[i].request;
    var slot := SlotOf(cfg, request);
    forall r ensures SlotOf(cfg, r) == slot <==> BoundOf(r) == BoundOf(request) {
      SameSlotSameBound(cfg, r, request);
    }
  }

  lemma SameSlotSameBound(cfg: Config, a: Request, b: Request)
    requires Injective(cfg.digest)
    ensures SlotOf(cfg, a) == SlotOf(cfg, b) <==> BoundOf(a) == BoundOf(b)
  {
    var da, db := cfg.digest(BoundOf(a)), cfg.digest(BoundOf(b));
    assert ("capability:" + da)[|"capability:"|..] == da;
    assert ("capability:" + db)[|"capability:"|..] == db;
  }
}
