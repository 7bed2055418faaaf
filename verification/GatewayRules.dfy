/**
 What the gateway's policy decides and what its calls report (src/accretion/governance.py), told on
 the records alone, for one call and over every run.
 */
module GatewayRules {
  import opened Sequences
  import opened SideEffects
  import opened Gateway

  // ---------------------------------------------------------------- the decision

  /** Risk and level, where the risk is at or above the level: LOW, MEDIUM, HIGH, CRITICAL. */
  const AT_OR_ABOVE: set<(Risk, Risk)> := {
    (Low, Low), (Medium, Low), (High, Low), (Critical, Low), (Medium, Medium), (High, Medium), (Critical, Medium),
    (High, High), (Critical, High), (Critical, Critical)
  }

  /** Side effects, or a risk of the capability or of its task at or above the policy's level. */
  predicate Risky(task: Task, c: Capability, policy: Policy) {
    || c.sideEffects != []
    || (c.risk, policy.requireApprovalAt) in AT_OR_ABOVE
    || (task.risk, policy.requireApprovalAt) in AT_OR_ABOVE
  }

  /** Enabled, listed and not refused, with every permission, and with a way to recognise a repeat of an effect. */
  ghost predicate Permitted(granted: set<string>, task: Task, c: Capability, r: Request, policy: Policy) {
    && c.enabled && c.capabilityId in task.allowed
    && c.capabilityId !in task.denied && c.capabilityId !in policy.explicitlyDenied
    && (forall p :: p in c.requiredPermissions ==> p in granted)
    && (c.sideEffects != [] ==>
          && (c.idempotency == Keyed || c.idempotency == Transactional)
          && r.idempotencyKey != None && r.idempotencyKey != Some(""))
  }

  /**
   The decision, exactly: a permitted call that is not risky is allowed without asking anyone; a
   risky one is allowed on an APPROVED record, waits without a record or on a PENDING one, and is
   denied on any other; everything else is denied.
   */
  lemma DecidesExactly(
    granted: set<string>, task: Task, c: Capability, r: Request, policy: Policy, approval: Option<Approval>
  )
    ensures Authorize(granted, task, c, r, policy, approval).outcome ==
            if !Permitted(granted, task, c, r, policy) then Deny
            else if !Risky(task, c, policy) then Allow
            else match approval
                 case None => RequireApproval
                 case Some(Approval(_, Pending)) => RequireApproval
                 case Some(Approval(_, Approved)) => Allow
                 case Some(_) => Deny
  {
    RiskyIsProtected(task, c, policy);
    PermittedIsEligible(granted, task, c, r, policy);
  }

  lemma RiskyIsProtected(task: Task, c: Capability, policy: Policy)
    ensures Risky(task, c, policy) <==> Protected(task, c, policy)
  {
  }

  lemma PermittedIsEligible(granted: set<string>, task: Task, c: Capability, r: Request, policy: Policy)
    ensures Permitted(granted, task, c, r, policy) <==> Eligible(granted, task, c, r, policy)
  {
  }

  /** The fields an approval is bound to. */
  predicate SameBound(a: Request, b: Request) {
    && a.runId == b.runId && a.nodeId == b.nodeId && a.capabilityId == b.capabilityId
    && a.capabilityVersion == b.capabilityVersion && a.arguments == b.arguments && a.idempotencyKey == b.idempotencyKey
  }

  /** The record is APPROVED, and exactly the requests that agree on every bound field find it. */
  ghost predicate ApprovedFor(cfg: Config, s: State, request: Request) {
    exists slot ::
      && slot in s.approvals && s.approvals[slot].status == Approved
      && forall r :: SlotOf(cfg, r) == slot <==> SameBound(r, request)
  }

  /** Over every run, each execution was permitted, and each risky one has an APPROVED record for its request. */
  lemma RiskyExecutionsAreApproved(cfg: Config, steps: seq<Step>, n: nat)
    requires Injective(cfg.digest) && n < |Run(cfg, INITIAL, steps).executions|
    ensures var s := Run(cfg, INITIAL, steps);
            var i := s.executions[n];
            && i < |s.calls| && s.calls[i].capability.Some?
            && var call := s.calls[i];
               && Permitted(cfg.granted, call.task, call.capability.value, call.request, call.policy)
               && (Risky(call.task, call.capability.value, call.policy) ==> ApprovedFor(cfg, s, call.request))
  {
    var s := Run(cfg, INITIAL, steps);
    RunKeepsInv(cfg, steps);
    assert ExecutionOk(cfg, s, s.executions[n]);
    var call := s.calls[s.executions[n]];
    PermittedIsEligible(cfg.granted, call.task, call.capability.value, call.request, call.policy);
    RiskyIsProtected(call.task, call.capability.value, call.policy);
    if Risky(call.task, call.capability.value, call.policy) { ApprovalIsBound(cfg, s, call.request); }
  }

  lemma ApprovalIsBound(cfg: Config, s: State, request: Request)
    requires Injective(cfg.digest) && IsApproved(cfg, s, request)
    ensures ApprovedFor(cfg, s, request)
  {
    forall r ensures SlotOf(cfg, r) == SlotOf(cfg, request) <==> SameBound(r, request) {
      SameSlotSameBound(cfg, r, request);
    }
  }

  lemma StepKeepsDecisions(cfg: Config, s: State, step: Step, slot: Slot)
    requires slot in s.approvals && s.approvals[slot].status != Pending
    ensures var t := Next(cfg, s, step); slot in t.approvals && t.approvals[slot] == s.approvals[slot]
  {
  }

  /** A decision on an approval, once made, is never changed or withdrawn. */
  lemma {:induction false} DecisionsAreFinal(cfg: Config, s: State, steps: seq<Step>, slot: Slot)
    requires slot in s.approvals && s.approvals[slot].status != Pending
    ensures var t := Run(cfg, s, steps); slot in t.approvals && t.approvals[slot] == s.approvals[slot]
  {
    if steps != [] {
      DecisionsAreFinal(cfg, s, steps[..|steps| - 1], slot);
      StepKeepsDecisions(cfg, Run(cfg, s, steps[..|steps| - 1]), steps[|steps| - 1], slot);
    }
  }

  // ---------------------------------------------------------------- what calls report

  /** A call that has been let through, of a side-effecting capability, under this key. */
  predicate SetsOut(s: State, i: nat, key: string) {
    && i < |s.calls| && s.calls[i].phase == Authorized && s.calls[i].request.idempotencyKey == Some(key) && key != ""
    && s.calls[i].capability.Some? && s.calls[i].capability.value.sideEffects != []
  }

  /** The status a repeat reports, by the status of the row it finds. */
  function RepeatStatus(found: EffectStatus): ExecutionStatus {
    match found
    case EffectSucceeded => Succeeded
    case EffectFailed => Failed
    case IntentRecorded => Unknown
    case EffectExecuting => Unknown
    case EffectUnknown => Unknown
  }

  /** A call under a key with a row reports by that row, executes nothing and leaves the row alone. */
  lemma RepeatReportsTheRow(cfg: Config, s: State, i: nat, key: string)
    requires SetsOut(s, i, key) && key in s.ledger
    ensures var t := Next(cfg, Next(cfg, s, RecordIntent(i)), Report(i));
            var row := s.ledger[key];
            && t.ledger == s.ledger && t.executions == s.executions && |t.calls| == |s.calls|
            && t.calls[i].phase.Done? && t.written == s.written + [t.calls[i].phase.result]
            && t.calls[i].phase.result.request == s.calls[i].request
            && t.calls[i].phase.result.authorization == s.calls[i].authorization
            && t.calls[i].phase.result.status == RepeatStatus(row.status)
            && t.calls[i].phase.result.output ==
               (if row.status != EffectSucceeded then None
                else Some(cfg.redact(cfg.redact(if row.result.Some? then row.result.value else "{}"))))
  {
    var u := Next(cfg, s, RecordIntent(i));
    assert u.calls[i].phase == Duplicate(s.ledger[key]) && u.ledger == s.ledger;
  }

  function Settled(call: Call, i: nat, backend: Backend): Operation {
    Operation(i, call.request.runId, call.request.capabilityId,
              if backend.Returned? then EffectSucceeded else EffectFailed, call.request.arguments,
              Some(if backend.Returned? then backend.output else "CAPABILITY_EXECUTION_FAILED"))
  }

  function Reported(cfg: Config, call: Call, backend: Backend): Result {
    if backend.Returned? then Result(call.request, call.authorization, Succeeded, Some(cfg.redact(backend.output)))
    else Result(call.request, call.authorization, Failed, None)
  }

  function Executes(cfg: Config, s: State, i: nat, backend: Backend): State {
    Next(cfg, Next(cfg, Next(cfg, s, RecordIntent(i)), MarkExecuting(i)), RunBackend(i, backend))
  }

  /** The first call under a key leaves its intent before it executes ... */
  lemma FirstCallExecutes(cfg: Config, s: State, i: nat, key: string, backend: Backend)
    requires SetsOut(s, i, key) && key !in s.ledger
    ensures var t := Executes(cfg, s, i, backend);
            var call := s.calls[i];
            && t.calls == s.calls[i := call.(phase := Ran(backend))] && t.executions == s.executions + [i]
            && t.written == s.written + [Result(call.request, call.authorization, Executing, None)]
            && t.ledger == s.ledger[key := Operation(i, call.request.runId, call.request.capabilityId,
                                                    IntentRecorded, call.request.arguments, None)]
  {
    var s1 := Next(cfg, s, RecordIntent(i));
    assert s1.calls == s.calls[i := s.calls[i].(phase := Prepared)];
    var s2 := Next(cfg, s1, MarkExecuting(i));
    assert s2.calls == s.calls[i := s.calls[i].(phase := Started)];
  }

  /** ... and what its backend answered is in the ledger before it is reported. */
  lemma FirstCallReports(cfg: Config, s: State, i: nat, key: string, backend: Backend)
    requires SetsOut(s, i, key) && key !in s.ledger
    ensures var t := Next(cfg, Next(cfg, Executes(cfg, s, i, backend), Finish(i)), Report(i));
            && t.ledger == s.ledger[key := Settled(s.calls[i], i, backend)]
            && t.calls == s.calls[i := s.calls[i].(phase := Done(Reported(cfg, s.calls[i], backend)))]
            && t.executions == s.executions + [i]
  {
    FirstCallExecutes(cfg, s, i, key, backend);
    RanReports(cfg, Executes(cfg, s, i, backend), i, key, backend);
  }

  lemma RanReports(cfg: Config, s: State, i: nat, key: string, backend: Backend)
    requires i < |s.calls| && s.calls[i].phase == Ran(backend) && key in s.ledger
    requires s.calls[i].request.idempotencyKey == Some(key) && key != ""
    ensures var t := Next(cfg, Next(cfg, s, Finish(i)), Report(i));
            && t.ledger == s.ledger[key := s.ledger[key].(
                 status := if backend.Returned? then EffectSucceeded else EffectFailed,
                 result := Some(if backend.Returned? then backend.output else "CAPABILITY_EXECUTION_FAILED"))]
            && t.calls == s.calls[i := s.calls[i].(phase := Done(Reported(cfg, s.calls[i], backend)))]
            && t.executions == s.executions
  {
    var u := Next(cfg, s, Finish(i));
    assert u.calls == s.calls[i := s.calls[i].(phase := Phase.Recorded(backend))];
  }

  /** After a restart exactly the rows still in flight say UNKNOWN. */
  lemma ReconciledRows(cfg: Config, s: State, key: string)
    requires key in s.ledger
    ensures var t := Next(cfg, s, Reconcile);
            && key in t.ledger
            && t.ledger[key] == match s.ledger[key].status
                                case IntentRecorded => s.ledger[key].(status := EffectUnknown)
                                case EffectExecuting => s.ledger[key].(status := EffectUnknown)
                                case _ => s.ledger[key]
  {
  }

  /** A call sets out by the decision on it: refused, waiting to ask, or let through. */
  lemma ArrivalFollowsTheDecision(cfg: Config, s: State, r: Request, task: Task, c: Option<Capability>, policy: Policy)
    requires policy.policyId == cfg.policyId
    ensures var t := Next(cfg, s, Arrive(r, task, c, policy));
            var found := if SlotOf(cfg, r) in s.approvals then Some(s.approvals[SlotOf(cfg, r)]) else None;
            && t == s.(calls := t.calls) && |t.calls| == |s.calls| + 1 && s.calls <= t.calls
            && var call := t.calls[|s.calls|];
               && call.request == r && call.task == task && call.capability == c && call.policy == policy
               && call.authorization.policyId == cfg.policyId
               && call.phase == (if c == None || !Permitted(cfg.granted, task, c.value, r, policy) then Refused
                                 else if !Risky(task, c.value, policy) then Authorized
                                 else if found.Some? && found.value.status == Approved then Authorized
                                 else if found == None || found.value.status == Pending then AwaitingApproval
                                 else Refused)
  {
    if c.Some? { DecidesExactly(cfg.granted, task, c.value, r, policy, Lookup(s, SlotOf(cfg, r))); }
  }

  /** A refused call reports DENIED and leaves nothing else. */
  lemma RefusalIsReported(cfg: Config, s: State, i: nat)
    requires i < |s.calls| && s.calls[i].phase == Refused
    ensures var row := Result(s.calls[i].request, s.calls[i].authorization, WasDenied, None);
            Next(cfg, s, Decline(i)) ==
            s.(written := s.written + [row], calls := s.calls[i := s.calls[i].(phase := Done(row))])
  {
  }

  /** A call that needs approval finds the record of its request or opens a PENDING one, and reports its id. */
  lemma AskingIsReported(cfg: Config, s: State, i: nat, approvalId: string)
    requires i < |s.calls| && s.calls[i].phase == AwaitingApproval
    ensures var call, slot := s.calls[i], SlotOf(cfg, s.calls[i].request);
            var record := if slot in s.approvals then s.approvals[slot] else Approval(approvalId, Pending);
            var row := Result(call.request, call.authorization.(approvalId := Some(record.approvalId)),
                              RequiresApproval, None);
            Next(cfg, s, AskApproval(i, approvalId)) ==
            s.(written := s.written + [row], calls := s.calls[i := call.(phase := Done(row))],
               approvals := s.approvals[slot := record])
  {
    var slot := SlotOf(cfg, s.calls[i].request);
    if slot in s.approvals { assert s.approvals[slot := s.approvals[slot]] == s.approvals; }
  }
}
