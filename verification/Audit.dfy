/**
 The release gate's audit of capability results (scripts/release_gate.py), and why every log the
 gateway can write passes it.
 */
module Audit {
  import opened Sequences
  import opened Gateway

  datatype Bypass = AfterDenial(capabilityId: string, status: ExecutionStatus)
                  | WithoutApproval(capabilityId: string, status: ExecutionStatus)
                  | WithoutPolicy(capabilityId: string)

  /** A call that the authorization on its own row refused, or that records no policy, yet ran. */
  predicate Refuted(row: Result) {
    && (row.status == Executing || row.status == Succeeded || row.status == Failed || row.status == Unknown)
    && (|| row.authorization.outcome == Deny
        || (row.authorization.outcome == RequireApproval &&
            (row.authorization.approvalId == None || row.authorization.approvalId.value == ""))
        || row.authorization.policyId == "")
  }

  predicate Falsy(text: Option<string>) {
    text.None? || text.value == ""
  }

  function Findings(row: Result): seq<Bypass> {
    var a := row.authorization;
    if !ReachedBackend(row.status) then []
    else
      (if a.outcome == Deny then [AfterDenial(row.request.capabilityId, row.status)]
       else if a.outcome == RequireApproval && Falsy(a.approvalId)
       then [WithoutApproval(row.request.capabilityId, row.status)]
       else []) +
      if a.policyId == "" then [WithoutPolicy(row.request.capabilityId)] else []
  }

  function AllFindings(rows: seq<Result>): seq<Bypass> {
    if rows == [] then [] else AllFindings(rows[..|rows| - 1]) + Findings(rows[|rows| - 1])
  }

  /** The body of the loop over the rows. */
  method CheckRow(row: Result, before: seq<Bypass>) returns (bypasses: seq<Bypass>)
    ensures bypasses == before + Findings(row)
  {
    bypasses := before;
    if !ReachedBackend(row.status) { return; }
    var a := row.authorization;
    if a.outcome == Deny {
      bypasses := bypasses + [AfterDenial(row.request.capabilityId, row.status)];
    } else if a.outcome == RequireApproval && Falsy(a.approvalId) {
      bypasses := bypasses + [WithoutApproval(row.request.capabilityId, row.status)];
    }
    if a.policyId == "" {
      bypasses := bypasses + [WithoutPolicy(row.request.capabilityId)];
    }
  }

  /** `capability_policy_bypasses`. */
  method CapabilityPolicyBypasses(rows: seq<Result>) returns (bypasses: seq<Bypass>)
    ensures bypasses == AllFindings(rows)
    ensures bypasses == [] <==> forall row :: row in rows ==> !Refuted(row)
  {
    bypasses := [];
    for n := 0 to |rows|
      invariant bypasses == AllFindings(rows[..n])
    {
      assert rows[..n + 1][..n] == rows[..n];
      bypasses := CheckRow(rows[n], bypasses);
    }
    assert rows[..|rows|] == rows;
    CleanExactly(rows);
  }

  lemma {:induction false} CleanExactly(rows: seq<Result>)
    ensures AllFindings(rows) == [] <==> forall row :: row in rows ==> !Refuted(row)
  {
    if rows != [] {
      var rest, last := rows[..|rows| - 1], rows[|rows| - 1];
      CleanExactly(rest);
      assert rows == rest + [last];
      FoundExactly(last);
    }
  }

  lemma FoundExactly(row: Result)
    ensures Findings(row) == [] <==> !Refuted(row)
  {
  }

  /**
   Take any rows a run of the gateway ever saved. The auditor reports nothing about them exactly
   when the policy id is not empty or none of them reached the backend.
   */
  lemma GatewayLogsAreClean(cfg: Config, steps: seq<Step>, rows: seq<Result>)
    requires forall row :: row in rows ==> row in Run(cfg, INITIAL, steps).written
    ensures AllFindings(rows) == [] <==>
              || cfg.policyId != ""
              || forall row :: row in rows ==> row.status == WasDenied || row.status == RequiresApproval
  {
    RunKeepsInv(cfg, steps);
    CleanExactly(rows);
    forall row | row in rows ensures RowOk(cfg, row) {
      assert row in Run(cfg, INITIAL, steps).written;
    }
  }
}
