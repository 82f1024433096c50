// apps/worker/src/stalled-items.ts: what to do about work that stopped moving.
module StalledItems {
  import opened Wrappers

  const STALL_AFTER_MS: int := 15 * 60000
  const MAX_RECOVERY_ATTEMPTS: nat := 3

  datatype ItemState = Discovered | Fetching | Preserved | Processed | Indexed | Failed | Skipped

  datatype Kind = Email | Container | OtherKind

  datatype Stage = Fetch | Index | Page | Parse | Extract

  datatype Reason = AttemptsSpent | NothingToIndex | JobDidNotFinish

  datatype Action = Wait | Requeue(stage: Stage) | GiveUp(reason: Reason)

  predicate InFlight(state: ItemState) {
    state.Discovered? || state.Fetching? || state.Preserved?
  }

  function RecoveryPlan(state: ItemState, attempts: nat, idleMs: int, evidence: Option<nat>, kind: Option<Kind>): Action {
    if !InFlight(state) then Wait
    else if idleMs < STALL_AFTER_MS then Wait
    else if attempts >= MAX_RECOVERY_ATTEMPTS then GiveUp(AttemptsSpent)
    else if state.Preserved? then
      if evidence.None? then GiveUp(NothingToIndex)
      else if kind == Some(Container) then Requeue(Extract)
      else Requeue(Index)
    else Requeue(Fetch)
  }

  function PageWalkPlan(idleMs: int, priorAttempts: nat): Action {
    if idleMs < STALL_AFTER_MS then Wait
    else if priorAttempts >= MAX_RECOVERY_ATTEMPTS then GiveUp(AttemptsSpent)
    else Requeue(Page)
  }

  function UnparsedParentPlan(idleMs: int, priorAttempts: nat): Action {
    if idleMs < STALL_AFTER_MS then Wait
    else if priorAttempts >= MAX_RECOVERY_ATTEMPTS then GiveUp(AttemptsSpent)
    else Requeue(Parse)
  }
}
