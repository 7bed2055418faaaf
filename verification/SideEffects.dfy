/**
 The side-effect ledger (src/accretion/persistence/side_effects.py): one row per idempotency key,
 created atomically, never deleted.
 */
module SideEffects {
  import opened Sequences

  /** JSON objects, as text. */
  type Payload = string

  datatype EffectStatus = IntentRecorded | EffectExecuting | EffectSucceeded | EffectFailed | EffectUnknown

  datatype Operation = Operation(
    operationId: nat, runId: string, capabilityId: string, status: EffectStatus, intent: Payload,
      result: Option<Payload>
  )

  type Operations = map<string, Operation>

  function Recorded(operations: Operations, key: string, operation: Operation): Operations {
    if key in operations then operations else operations[key := operation]
  }

  /** `finish` overwrites whatever the row says; a key without a row is a KeyError. */
  function Finished(operations: Operations, key: string, succeeded: bool, result: Payload): Option<Operations> {
    if key !in operations then None
    else
      var status := if succeeded then EffectSucceeded else EffectFailed;
      Some(operations[key := operations[key].(status := status, result := Some(result))])
  }

  predicate Uncertain(operation: Operation) {
    operation.status in {IntentRecorded, EffectExecuting}
  }

  function Settle(operation: Operation): Operation {
    if Uncertain(operation) then operation.(status := EffectUnknown) else operation
  }

  function Reconciled(operations: Operations): Operations {
    map key | key in operations :: Settle(operations[key])
  }

  class SideEffectLedger {
    var operations: Operations

    constructor ()
      ensures operations == map[]
    {
      operations := map[];
    }

    method RecordIntent(key: string, operation: Operation) returns (stored: Operation, created: bool)
      modifies this
      ensures operations == Recorded(old(operations), key, operation)
      ensures stored == operations[key] && created == (key !in old(operations))
    {
      if key in operations {
        return operations[key], false;
      }
      operations := operations[key := operation];
      return operation, true;
    }

    method Finish(key: string, succeeded: bool, result: Payload) returns (updated: Option<Operation>)
      modifies this
      ensures updated.None? <==> key !in old(operations)
      ensures match Finished(old(operations), key, succeeded, result)
              case None => operations == old(operations)
              case Some(after) => operations == after && updated == Some(after[key])
    {
      if key !in operations {
        return None;
      }
      var current := operations[key];
      var row := current.(status := if succeeded then EffectSucceeded else EffectFailed, result := Some(result));
      operations := operations[key := row];
      return Some(row);
    }

    /** Rows left by a crash become UNKNOWN; every other row is left alone. */
    method ReconcileUncertain() returns (uncertain: set<string>)
      modifies this
      ensures operations == Reconciled(old(operations))
      ensures uncertain == set key | key in old(operations) && Uncertain(old(operations)[key])
    {
      uncertain := {};
      var before := operations;
      var left := operations.Keys;
      while left != {}
        invariant left <= before.Keys && operations.Keys == before.Keys
        invariant forall key :: key in before ==>
                                  operations[key] == if key in left then before[key] else Settle(before[key])
        invariant uncertain == set key | key in before && key !in left && Uncertain(before[key])
      {
        var key :| key in left;
        if Uncertain(operations[key]) {
          operations := operations[key := operations[key].(status := EffectUnknown)];
          uncertain := uncertain + {key};
        }
        left := left - {key};
      }
    }
  }
}
