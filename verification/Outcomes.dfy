/** Results shared by the models: a step completes, refuses, or is cut off by a crash. */
module Outcomes {

  datatype Option<+T> = None | Some(value: T)

  datatype Result<+T, +E> = Ok(value: T) | Err(error: E)
  {
    predicate IsFailure() { Err? }

    function PropagateFailure<U>(): Result<U, E>
      requires Err?
    {
      Err(error)
    }

    function Extract(): T
      requires Ok?
    {
      value
    }
  }

  /** What a durable operation reports. `Blocked` stands for the source's Blocked
      exception; `Interrupted` is a process that stops between two primitive writes. */
  datatype Outcome<+T> = Done(value: T) | Blocked(code: Refusal) | Interrupted
  {
    predicate IsFailure() { !Done? }

    function PropagateFailure<U>(): Outcome<U>
      requires !Done?
    {
      match this
      case Blocked(code) => Blocked(code)
      case Interrupted => Interrupted
    }

    function Extract(): T
      requires Done?
    {
      value
    }
  }

  /** The refusal codes of the durable tools. */
  datatype Refusal =
    | RootFileCustody | FileExists | InodeHashCas | ProtectedStateChanged | ProtectedWindowChanged
    | UnknownPairInodeOrHash | UnknownMixedPair | UnresolvedJournalTemp | UnknownTargetTemp
    | OrphanBackup | UnregisteredBackupDirectory | BackupDirectoryChanged | UnknownBackupResource
    | ResourceChanged | RegisteredResourceMissing | ReviewedSourceDigest | SnapshotUnavailable
    | InsufficientSpace | ExistingUpgradeNoRetry | UpgradeIncomplete | RecoveryJournalMissing
    | OldPairDigest | PendingPromotionRecovery | UnknownReleaseStage | HostRefused | ReplayedRelease
    | NoClobber | RootFile | LedgerCodecAuthority | UnknownTransaction | UnknownPartialState
    | LastRelease | AlreadyRolledBack | NotCurrentRelease | ExistingInstallState | UnknownBackup
    | ReceiptSchema | UnregisteredResource | InstallationNotCommitted

  /** The next `n` writes fit into what is left of a budget, or the process stops at the first
      that does not. */
  predicate Spends(before: Option<nat>, n: nat, finished: bool, after: Option<nat>) {
    before.Some? ==> if before.value < n then !finished else finished && after == Some(before.value - n)
  }

  /** `need` of these tools. */
  function Need(ok: bool, code: Refusal): (r: Outcome<()>)
    ensures r.Done? <==> ok
    ensures !ok ==> r == Blocked(code)
  {
    if ok then Done(()) else Blocked(code)
  }
}
