/** The upgrade tool itself: apply, recover and rollback over a journalled disk, any of
    which may stop between two primitive writes (ops/c2/root-executor-pair-upgrade.py). */
module PairUpgrade {
  import opened Outcomes
  import opened PairDisk
  import opened PairPlan
  import opened PairSteps

  datatype Mode = Verify | Apply | Recover | Rollback

  datatype Status = Ready | PairVerified | PairRolledBack

  /** The host around the tool: the reviewed source, and the protected-state snapshots and the free
      space it shows, check after check. Snapshots may change or fail at any check. */
  datatype Host = Host(sourceVerified: bool, snapshots: nat -> Option<Snapshot>, room: nat -> bool)

  /** The host never changes and there is always enough space. */
  ghost predicate Steady(h: Host, s: Snapshot) { h.sourceVerified && forall i: nat :: h.snapshots(i) == Some(s) && h.room(i) }

  class Checks {
    const host: Host
    var calls: nat

    constructor (host: Host)
      ensures this.host == host && calls == 0
    {
      this.host, calls := host, 0;
    }

    method Snapshot() returns (r: Outcome<Snapshot>)
      modifies this`calls
      ensures calls == old(calls) + 1
      ensures r == match host.snapshots(old(calls)) case Some(s) => Done(s) case None => Blocked(SnapshotUnavailable)
    {
      r := match host.snapshots(calls) case Some(s) => Done(s) case None => Blocked(SnapshotUnavailable);
      calls := calls + 1;
    }

    method Space() returns (r: Outcome<()>)
      modifies this`calls
      ensures calls == old(calls) + 1
      ensures !r.Interrupted? && (r.Done? <==> host.room(old(calls))) &&
        (r.Blocked? ==> r.code == InsufficientSpace)
    {
      r := Need(host.room(calls), InsufficientSpace);
      calls := calls + 1;
    }

    /** The protected window must not have moved since `baseline`. */
    method Unchanged(baseline: Snapshot) returns (r: Outcome<()>)
      modifies this`calls
      ensures calls == old(calls) + 1
      ensures !r.Interrupted? && (r.Done? <==> host.snapshots(old(calls)) == Some(baseline))
      ensures r.Blocked? ==>
        r.code == if host.snapshots(old(calls)).None? then SnapshotUnavailable else ProtectedWindowChanged
    {
      var current :- Snapshot();
      if current != baseline { return Blocked(ProtectedWindowChanged); }
      return Done(());
    }
  }

  // ----- what a run makes of a host: `c` is the number of its first check -----

  /** Nothing has been tried on this pair yet. */
  predicate Untried(d: Disk) { JournalFile !in d.files && PendingFile !in d.files && OldPair(d) }

  /** Everything that is checked before the first write is in order. */
  predicate Starts(mode: Mode, h: Host, c: nat, d: Disk) {
    && (mode.Verify? || mode.Apply? ==> h.sourceVerified)
    && h.snapshots(c).Some?
    && if JournalFile in d.files then
         && Resumable(d) && Lineage(JournalOf(d).snapshot, h.snapshots(c).value)
         && !mode.Apply? && (mode.Verify? ==> Now(d).phase.Verified?)
       else (mode.Verify? || mode.Apply?) && Untried(d) && h.room(c + 1)
  }

  /** Why a run does not start from a disk that is in order. */
  function Objection(mode: Mode, h: Host, c: nat, d: Disk): Refusal
    requires Resumable(d) || Untried(d)
  {
    if (mode.Verify? || mode.Apply?) && !h.sourceVerified then ReviewedSourceDigest
    else if JournalFile !in d.files && (mode.Recover? || mode.Rollback?) then RecoveryJournalMissing
    else if h.snapshots(c).None? then SnapshotUnavailable
    else if JournalFile !in d.files then InsufficientSpace
    else if !Lineage(JournalOf(d).snapshot, h.snapshots(c).value) then ProtectedStateChanged
    else if mode.Apply? then ExistingUpgradeNoRetry
    else UpgradeIncomplete
  }

  /** The run has nothing to do but report. */
  predicate Reports(mode: Mode, d: Disk) {
    mode.Verify? || (JournalFile in d.files && (Now(d).phase.RolledBack? || (mode.Recover? && Now(d).phase.Verified?)))
  }

  /** The space and the protected window also hold at every later check. */
  predicate Stays(mode: Mode, h: Host, c: nat, d: Disk) {
    Reports(mode, d) ||
    if JournalFile in d.files then h.snapshots(c).Some? && Clear(h, c + 1, h.snapshots(c).value)
    else h.snapshots(c + 2) == h.snapshots(c) == h.snapshots(c + 3) && h.snapshots(c + 4) == h.snapshots(c)
  }

  function Reported(mode: Mode, d: Disk): Status {
    if JournalFile !in d.files then if mode.Verify? then Ready else PairVerified
    else if mode.Verify? || (mode.Recover? && Now(d).phase.Verified?) then PairVerified else PairRolledBack
  }

  /** A rollback whose first later check has number `c` meets the space and twice the window `s`. */
  predicate Clear(h: Host, c: nat, s: Snapshot) { h.room(c) && h.snapshots(c + 1) == Some(s) && h.snapshots(c + 2) == Some(s) }

  /** Where a rollback stops that does not: before its first write, before the first target, or
      with both restored. */
  ghost predicate HalfBack(h: Host, c: nat, s: Snapshot, d: Disk, e: Disk) {
    && Settled(e) && !Now(e).phase.RolledBack?
    && if !h.room(c) then e == d else if h.snapshots(c + 1) != Some(s) then SameLive(d, e) else OldPair(e)
  }

  /** What a run leaves that meets a refusal after its start. Every such disk can be recovered. */
  ghost predicate Left(h: Host, c: nat, d: Disk, e: Disk) {
    if JournalFile in d.files then h.snapshots(c).Some? && HalfBack(h, c + 1, h.snapshots(c).value, d, e)
    else Settled(e) && Now(e) == Applied(if h.snapshots(c + 2) != h.snapshots(c) then 7 else if h.snapshots(c + 3) != h.snapshots(c) then 9 else 10)
  }

  /** Nothing but further ledger entries has come since. */
  ghost predicate Continues(before: Snapshot, now: Snapshot) {
    && now.stable == before.stable && |before.ledger| <= |now.ledger|
    && forall i :: 0 <= i < |before.ledger| ==> now.ledger[i] == before.ledger[i]
  }

  lemma LineageIff(before: Snapshot, now: Snapshot)
    ensures Lineage(before, now) <==> Continues(before, now)
  {
  }

  /** On a steady host a run succeeds exactly when its first check finds the disk in order. */
  lemma SteadyHost(mode: Mode, h: Host, c: nat, d: Disk, s: Snapshot)
    requires Steady(h, s)
    ensures Stays(mode, h, c, d)
    ensures JournalFile in d.files && (mode.Recover? || mode.Rollback?) ==>
      (Starts(mode, h, c, d) <==> Resumable(d) && Continues(JournalOf(d).snapshot, s))
    ensures JournalFile in d.files && mode.Verify? ==>
      (Starts(mode, h, c, d) <==> Resumable(d) && Continues(JournalOf(d).snapshot, s) && Now(d).phase.Verified?)
    ensures JournalFile !in d.files && (mode.Recover? || mode.Rollback?) ==>
      !Starts(mode, h, c, d) && !Resumable(d)
    ensures JournalFile !in d.files && (mode.Verify? || mode.Apply?) ==> (Starts(mode, h, c, d) <==> Untried(d))
  {
    if JournalFile !in d.files { NoJournal(d); }
    if Resumable(d) { LineageIff(JournalOf(d).snapshot, s); }
    hide Resumable, OldPair, Lineage, Continues, Now;
  }

  /** Refusals that a run starting from a reachable disk can still meet. */
  predicate Reachable(code: Refusal) {
    code in {RootFileCustody, UnresolvedJournalTemp, UnknownTargetTemp, UnregisteredBackupDirectory,
             UnknownBackupResource, ReviewedSourceDigest, SnapshotUnavailable, ProtectedStateChanged,
             ProtectedWindowChanged, InsufficientSpace, ExistingUpgradeNoRetry, UpgradeIncomplete,
             RecoveryJournalMissing, OldPairDigest}
  }

  class Upgrade {
    const fs: Filesystem
    const checks: Checks
    var j: Option<Journal>
    /** js and jh of the source: the journal file this run last saw published. */
    var published: Option<File>

    constructor (fs: Filesystem, checks: Checks)
      ensures this.fs == fs && this.checks == checks && j == None && published == None
    {
      this.fs, this.checks, j, published := fs, checks, None, None;
    }

    /** Memory and disk agree and nothing is unaccounted for. */
    ghost predicate Synced()
      reads this, fs
    {
      Settled(fs.disk) && j == Some(JournalOf(fs.disk)) && published == Some(fs.disk.files[JournalFile])
    }

    method Save(phase: Phase) returns (r: Outcome<()>)
      requires j.Some? && MaySave(fs.disk, published, Saved(j.value, phase))
      modifies this, fs
      ensures fs.stopAfter.Some? <==> old(fs.stopAfter).Some?
      ensures Inv(fs.disk) && SameLive(old(fs.disk), fs.disk)
      ensures JournalFile in old(fs.disk.files) ==> JournalFile in fs.disk.files
      ensures !r.Blocked? && (r.Interrupted? ==> fs.stopAfter.Some?)
      ensures r.Done? ==> Now(fs.disk) == old(ViewOf(Saved(j.value, phase), fs.disk))
      ensures r.Done? ==> fs.disk.files.Keys == old(fs.disk.files.Keys) + {JournalFile}
      ensures r.Done? && old(Accounted(Saved(j.value, phase), fs.disk)) ==> Synced()
      ensures old(PendingFile !in fs.disk.files) && old(fs.stopAfter) == Some(1) ==>
        r.Interrupted? && PendingFile in fs.disk.files
    {
      SaveCapacity(fs.disk, published, j.value, phase);
      hide MaySave, Holds, Separate, Plan, Residue, Put, Accounted, Now, IsCurrent;
      assert j.value.seq_ < 63;  // the journal_capacity check cannot fail
      ghost var before := fs.disk;
      var value := Saved(j.value, phase);
      j := Some(value);
      var w := fs.WriteJournal(value, published);
      JournalStep(before, fs.disk, value, published, w);
      if !w.Done? { return w.PropagateFailure(); }
      published := Some(File(Record(value), w.value));
      return Done(());
    }

    /** `self.inventory(self.classify())`: neither scan can fail on a settled disk. */
    method Rescan() returns (st: States)
      requires Synced()
      ensures st == Now(fs.disk).states
      ensures Classify(j.value, fs.disk) == Done(st) && InventoryOf(fs.disk, j.value, st).Done?
    {
      hide Holds, Separate, Plan;
      ScansPassIffResumable(fs.disk);
      st := Classify(j.value, fs.disk).value;
    }

    /** Create a resource, register it and save. */
    method Store(slot: Slot, phase: Phase) returns (r: Outcome<()>)
      requires Synced() && slot !in Now(fs.disk).keys && Now(fs.disk).directory
      requires RollbackPhase(Now(fs.disk).phase) ==> RollbackPhase(phase)
      requires Plan(Advance(Register(Now(fs.disk), slot), phase))
      modifies this, fs
      ensures fs.stopAfter.Some? <==> old(fs.stopAfter).Some?
      ensures Inv(fs.disk) && SameLive(old(fs.disk), fs.disk) && JournalFile in fs.disk.files
      ensures !r.Blocked? && (r.Interrupted? ==> fs.stopAfter.Some?)
      ensures r.Done? ==> Synced() && Now(fs.disk) == Advance(Register(old(Now(fs.disk)), slot), phase)
      ensures r.Done? ==> fs.disk.files.Keys == old(fs.disk.files.Keys) + {Temp(slot)}
    {
      hide Inv, Resumable, Plan, Now, MaySave, Accounted, CreateEffect, Register, Advance;
      ghost var before := fs.disk;
      var created := fs.Create(Temp(slot), Expected(slot));
      CreateStep(before, fs.disk, slot, phase, created);
      if !created.Done? { return created.PropagateFailure(); }
      j := Some(Registering(j.value, slot, created.value));
      var _ :- Save(phase);
      var _ := Rescan();
      assert JournalFile in before.files by { SettledFacts(before); }
      return Done(());
    }

    /** Rename a staged file over its live target, then save. */
    method Replace(slot: Slot, expected: File, phase: Phase) returns (r: Outcome<()>)
      requires slot.NewCopy? || slot.Restore?
      requires Synced() && slot in Now(fs.disk).keys && Temp(slot) in fs.disk.files
      requires slot.NewCopy? ==> Now(fs.disk).states.At(slot.t) == Old
      requires slot.Restore? ==> RollbackPhase(Now(fs.disk).phase)
      requires RollbackPhase(Now(fs.disk).phase) ==> RollbackPhase(phase)
      requires Plan(Swap(Now(fs.disk), slot)) && Plan(Advance(Swap(Now(fs.disk), slot), phase))
      requires Read(fs.disk, Live(slot.t)) == Done(expected)
      modifies this, fs
      ensures fs.stopAfter.Some? <==> old(fs.stopAfter).Some?
      ensures Inv(fs.disk) && JournalFile in fs.disk.files
      ensures !r.Blocked? && (r.Interrupted? ==> fs.stopAfter.Some?)
      ensures r.Done? ==> Synced() && Now(fs.disk) == Advance(Swap(old(Now(fs.disk)), slot), phase)
      ensures r.Done? ==> fs.disk.files.Keys == old(fs.disk.files.Keys) - {Temp(slot)}
    {
      hide Inv, Resumable, Plan, Now, MaySave, Accounted, RenameEffect, Read, Swap, Advance;
      RenameSees(fs.disk, slot);
      ghost var before := fs.disk;
      var renamed := fs.Rename(Temp(slot), Live(slot.t), File(Expected(slot), j.value.resources[slot]), expected);
      RenameStep(before, fs.disk, slot, phase, expected, renamed);
      if !renamed.Done? { return renamed.PropagateFailure(); }
      var _ :- Save(phase);
      assert JournalFile in before.files by { SettledFacts(before); }
      return Done(());
    }

    // ----- rollback -----

    /** Make sure a replaced target has its restore file in place. */
    method PrepareRestore(t: Target) returns (r: Outcome<()>)
      requires Synced() && !Now(fs.disk).phase.RolledBack?
      modifies this, fs
      ensures fs.stopAfter.Some? <==> old(fs.stopAfter).Some?
      ensures Inv(fs.disk) && SameLive(old(fs.disk), fs.disk) && JournalFile in fs.disk.files
      ensures !r.Blocked? && (r.Interrupted? ==> fs.stopAfter.Some?)
      ensures r.Done? ==>
        Synced() && !Now(fs.disk).phase.RolledBack? && Now(fs.disk).states == old(Now(fs.disk).states)
      ensures r.Done? && Now(fs.disk).states.At(t) == New ==> CanRestore(fs.disk, t)
      ensures r.Done? ==> forall u: Target :: old(CanRestore(fs.disk, u)) ==> CanRestore(fs.disk, u)
    {
      hide Inv, Resumable, Now;
      SettledFacts(fs.disk);
      RollbackMayBegin(Now(fs.disk));
      if Now(fs.disk).states.At(t) == New {
        assert OldCopy(t) in Now(fs.disk).keys;  // the backup_missing_for_restore check cannot fail
        if Restore(t) !in Now(fs.disk).keys {
          var _ :- Store(Restore(t), RollbackPrepared);
        } else {
          RestoreInPlace(fs.disk, t);
        }
      }
      return Done(());
    }

    method PrepareAll() returns (r: Outcome<()>)
      requires Synced() && !Now(fs.disk).phase.RolledBack?
      modifies this, fs
      ensures fs.stopAfter.Some? <==> old(fs.stopAfter).Some?
      ensures Inv(fs.disk) && SameLive(old(fs.disk), fs.disk) && JournalFile in fs.disk.files
      ensures !r.Blocked? && (r.Interrupted? ==> fs.stopAfter.Some?)
      ensures r.Done? ==> Synced() && !Now(fs.disk).phase.RolledBack? && AllRestorable(fs.disk)
    {
      hide Inv, Resumable, Now, CanRestore, Settled;
      var _ :- PrepareRestore(Executor);
      var _ :- PrepareRestore(Policy);
      return Done(());
    }

    /** Put the original bytes of a replaced target back. */
    method RestoreTarget(t: Target, phase: Phase) returns (r: Outcome<()>)
      requires Synced() && !Now(fs.disk).phase.RolledBack? && RollbackPhase(phase) && !phase.RolledBack?
      requires Now(fs.disk).states.At(t) == New ==> CanRestore(fs.disk, t)
      requires t == Executor ==> Now(fs.disk).states.policy != New
      modifies this, fs
      ensures fs.stopAfter.Some? <==> old(fs.stopAfter).Some?
      ensures Inv(fs.disk) && JournalFile in fs.disk.files
      ensures !r.Blocked? && (r.Interrupted? ==> fs.stopAfter.Some?)
      ensures r.Done? ==> Synced() && !Now(fs.disk).phase.RolledBack?
      ensures r.Done? ==> Now(fs.disk).states == Undone(old(Now(fs.disk).states), t)
      ensures r.Done? ==> forall u: Target :: u != t && old(CanRestore(fs.disk, u)) ==> CanRestore(fs.disk, u)
    {
      hide Inv, Resumable, Now, Read, Plan, Accounted;
      SettledFacts(fs.disk);
      if Now(fs.disk).states.At(t) == New {
        RestorePlan(Now(fs.disk), t, phase);
        RenameSees(fs.disk, Restore(t));
        // restore_cas: the live file is the registered replacement
        assert fs.disk.files[Live(t)].stamp.inode == j.value.resources[NewCopy(t)].inode;
        var _ :- Replace(Restore(t), fs.disk.files[Live(t)], phase);
      }
      return Done(());
    }

    /** With every restore file in place: policy first, then executor, then the record. */
    method PutBack(baseline: Snapshot) returns (r: Outcome<Status>)
      requires Synced() && !Now(fs.disk).phase.RolledBack?
      requires AllRestorable(fs.disk)
      modifies this, fs, checks`calls
      ensures fs.stopAfter.Some? <==> old(fs.stopAfter).Some?
      ensures Inv(fs.disk) && JournalFile in fs.disk.files
      ensures r.Interrupted? ==> fs.stopAfter.Some?
      ensures r.Done? ==> checks.host.snapshots(old(checks.calls)) == Some(baseline)
      ensures r.Blocked? ==> Reachable(r.code) && checks.host.snapshots(old(checks.calls)) != Some(baseline)
      ensures r.Blocked? ==> Settled(fs.disk) && !Now(fs.disk).phase.RolledBack? && OldPair(fs.disk)
      ensures r.Done? ==>
        r.value == PairRolledBack && Synced() && Now(fs.disk).phase == RolledBack && OldPair(fs.disk)
    {
      hide Inv, Resumable, Now, Plan, CanRestore;
      var _ :- RestoreTarget(Policy, RollbackPolicyReplaced);
      var _ :- RestoreTarget(Executor, RollbackExecutorReplaced);
      var st := Rescan();
      assert !st.executor.New? && !st.policy.New?;  // the rollback_readback check cannot fail
      RolledBackStep(fs.disk);
      var _ :- checks.Unchanged(baseline);
      st := Rescan();
      var _ :- Save(RolledBack);
      SettledFacts(fs.disk);
      return Done(PairRolledBack);
    }

    /** From any settled disk back to the original bytes, policy before executor. It needs the
        space and twice the same window, and refused one of them it stops before the next live
        change. */
    method Rollback(baseline: Snapshot) returns (r: Outcome<Status>)
      requires Synced() && !Now(fs.disk).phase.RolledBack?
      modifies this, fs, checks`calls
      ensures fs.stopAfter.Some? <==> old(fs.stopAfter).Some?
      ensures Inv(fs.disk) && JournalFile in fs.disk.files
      ensures r.Interrupted? ==> fs.stopAfter.Some?
      ensures r.Blocked? ==> Reachable(r.code)
      ensures r.Done? ==> Clear(checks.host, old(checks.calls), baseline)
      ensures r.Blocked? ==>
        !Clear(checks.host, old(checks.calls), baseline) &&
        HalfBack(checks.host, old(checks.calls), baseline, old(fs.disk), fs.disk)
      ensures r.Done? ==>
        r.value == PairRolledBack && Synced() && Now(fs.disk).phase == RolledBack && OldPair(fs.disk)
    {
      hide Inv, Resumable, Now, Plan, AllRestorable, OldPair, Settled;
      SettledFacts(fs.disk);
      var _ :- checks.Space();
      var _ :- PrepareAll();
      var _ :- checks.Unchanged(baseline);
      r := PutBack(baseline);
    }

    // ----- apply -----

    /** Journal the intent, then make and register the backup directory. */
    method Begin(baseline: Snapshot) returns (r: Outcome<()>)
      requires Inv(fs.disk) && JournalFile !in fs.disk.files && PendingFile !in fs.disk.files &&
        OldPair(fs.disk)
      requires j == None && published == None
      modifies this, fs
      ensures fs.stopAfter.Some? <==> old(fs.stopAfter).Some?
      ensures Inv(fs.disk) && SameLive(old(fs.disk), fs.disk)
      ensures !r.Blocked? && (r.Interrupted? ==> fs.stopAfter.Some?)
      ensures r.Done? ==> Synced() && Now(fs.disk) == Applied(2)
      ensures old(fs.stopAfter) == Some(1) ==> r.Interrupted? && PendingFile in fs.disk.files
    {
      hide Inv, Resumable, Plan, MaySave, Accounted, Holds;
      var originals := Originals(fs.disk.files[Live(Executor)].stamp, fs.disk.files[Live(Policy)].stamp);
      j := Some(Journal(Intent, 0, originals, baseline, None, map[]));
      IntentStep(fs.disk, j.value);
      var _ :- Save(Intent);
      IntentHasNothing(fs.disk);
      ghost var before := fs.disk;
      var made := fs.Mkdir();
      if !made.Done? { return made.PropagateFailure(); }
      MkdirStep(before, fs.disk);
      j := Some(j.value.(backupDirectory := Some(made.value)));
      var _ :- Save(BackupCreated);
      var _ := Rescan();
      return Done(());
    }

    /** Back both old files up and stage both new ones. */
    method Stage() returns (r: Outcome<()>)
      requires Synced() && Now(fs.disk) == Applied(2)
      modifies this, fs
      ensures fs.stopAfter.Some? <==> old(fs.stopAfter).Some?
      ensures Inv(fs.disk) && SameLive(old(fs.disk), fs.disk) && JournalFile in fs.disk.files
      ensures !r.Blocked? && (r.Interrupted? ==> fs.stopAfter.Some?)
      ensures r.Done? ==> Synced() && Now(fs.disk) == Applied(7)
      ensures r.Done? ==> Temp(NewCopy(Executor)) in fs.disk.files && Temp(NewCopy(Policy)) in fs.disk.files
    {
      hide Inv, Resumable, Now, Plan, Advance, Register, MaySave, Accounted, Applied;
      ApplyPlans();
      var _ :- Store(OldCopy(Executor), BackupCreated);
      var _ :- Store(OldCopy(Policy), BackedUp);
      var _ :- Store(NewCopy(Executor), StagedExecutor);
      var _ :- Store(NewCopy(Policy), StagedPolicy);
      PreparedStep(fs.disk, Prepared);
      var _ :- Save(Prepared);
      var _ := Rescan();
      return Done(());
    }

    /** Replace the executor, then the policy, each compared with its recorded original. */
    method ReplacePair() returns (r: Outcome<()>)
      requires Synced() && Now(fs.disk) == Applied(7)
      requires Temp(NewCopy(Executor)) in fs.disk.files && Temp(NewCopy(Policy)) in fs.disk.files
      modifies this, fs
      ensures fs.stopAfter.Some? <==> old(fs.stopAfter).Some?
      ensures Inv(fs.disk) && JournalFile in fs.disk.files
      ensures !r.Blocked? && (r.Interrupted? ==> fs.stopAfter.Some?)
      ensures r.Done? ==> Synced() && Now(fs.disk) == Applied(9)
    {
      hide Inv, Resumable, Now, Read, Plan, Advance, Register, Swap, MaySave, Accounted, Applied;
      ApplyPlans();
      RenameSees(fs.disk, NewCopy(Executor));
      var _ :- Replace(NewCopy(Executor), File(OldBytes(Executor), j.value.original.At(Executor)), ExecutorReplaced);
      RenameSees(fs.disk, NewCopy(Policy));
      var _ :- Replace(NewCopy(Policy), File(OldBytes(Policy), j.value.original.At(Policy)), PairReplaced);
      return Done(());
    }

    /** Check the protected window around the pair, store the receipt and commit. */
    method Commit(baseline: Snapshot) returns (r: Outcome<Status>)
      requires Synced() && Now(fs.disk) == Applied(9)
      modifies this, fs, checks`calls
      ensures fs.stopAfter.Some? <==> old(fs.stopAfter).Some?
      ensures Inv(fs.disk) && JournalFile in fs.disk.files
      ensures r.Interrupted? ==> fs.stopAfter.Some?
      ensures r.Blocked? ==> Reachable(r.code) && Settled(fs.disk)
      ensures var h, c := checks.host, old(checks.calls);
        && (r.Done? ==> h.snapshots(c) == h.snapshots(c + 1) == Some(baseline))
        && (r.Blocked? && h.snapshots(c) != Some(baseline) ==> fs.disk == old(fs.disk))
        && (r.Blocked? && h.snapshots(c) == Some(baseline) ==> h.snapshots(c + 1) != Some(baseline) && Now(fs.disk) == Applied(10))
      ensures r.Done? ==>
        r.value == PairVerified && Synced() && Now(fs.disk).phase == Verified && NewPair(fs.disk)
    {
      hide Inv, Resumable, Now, Plan, Advance, Register, MaySave, Accounted, Applied, NewPair, SameLive,
        Classify, InventoryOf, Settled;
      ApplyPlans();
      SettledFacts(fs.disk);
      var _ := Rescan();
      var _ :- checks.Unchanged(baseline);
      var _ :- Store(Receipt, PairReplaced);
      r := Certify(baseline);
    }

    method Certify(baseline: Snapshot) returns (r: Outcome<Status>)
      requires Synced() && Now(fs.disk) == Applied(10)
      modifies this, fs, checks`calls
      ensures fs.stopAfter.Some? <==> old(fs.stopAfter).Some?
      ensures Inv(fs.disk) && JournalFile in fs.disk.files
      ensures r.Interrupted? ==> fs.stopAfter.Some?
      ensures r.Done? ==> checks.host.snapshots(old(checks.calls)) == Some(baseline)
      ensures r.Blocked? ==>
        Reachable(r.code) && checks.host.snapshots(old(checks.calls)) != Some(baseline) &&
        fs.disk == old(fs.disk)
      ensures r.Done? ==>
        r.value == PairVerified && Synced() && Now(fs.disk).phase == Verified && NewPair(fs.disk)
    {
      hide Inv, Resumable, Now, Plan, Advance, Register, MaySave, Accounted, Applied;
      ApplyPlans();
      SettledFacts(fs.disk);
      var _ :- checks.Unchanged(baseline);
      var st := Rescan();
      assert st == States(New, New);  // the final_pair check cannot fail
      PreparedStep(fs.disk, Verified);
      var _ :- Save(Verified);
      st := Rescan();
      BothNew(fs.disk);
      return Done(PairVerified);
    }

    /** A run that finds a journal: load, classify, take inventory, then decide. */
    method Continue(mode: Mode) returns (r: Outcome<Status>)
      requires Inv(fs.disk) && JournalFile in fs.disk.files && j == None && published == None
      requires mode.Verify? || mode.Apply? ==> checks.host.sourceVerified
      modifies this, fs, checks`calls
      ensures Inv(fs.disk) && JournalFile in fs.disk.files
      ensures r.Interrupted? ==> old(fs.stopAfter).Some?
      ensures r.Blocked? ==> Reachable(r.code)
      ensures r.Done? ==> r.value != Ready
      ensures r == Done(PairVerified) ==> Settled(fs.disk) && Now(fs.disk).phase == Verified && NewPair(fs.disk)
      ensures r == Done(PairRolledBack) ==>
        Settled(fs.disk) && Now(fs.disk).phase == RolledBack && OldPair(fs.disk)
      ensures mode.Verify? || mode.Apply? ==> fs.disk == old(fs.disk)
      ensures var h, c, d := checks.host, old(checks.calls), old(fs.disk);
        && (!Starts(mode, h, c, d) ==> r.Blocked? && fs.disk == d)
        && (!Starts(mode, h, c, d) && (Resumable(d) || Untried(d)) ==> r.code == Objection(mode, h, c, d))
        && (r.Done? ==> Starts(mode, h, c, d) && Stays(mode, h, c, d) && r.value == Reported(mode, d))
        && (r.Blocked? && Starts(mode, h, c, d) ==> !Stays(mode, h, c, d) && Left(h, c, d, fs.disk))
    {
      hide Holds, Separate, Plan, Read, InventoryOf, Classify, Accounted;
      ScansPassIffResumable(fs.disk);
      InventoryRefusals(JournalOf(fs.disk), fs.disk);
      var f :- Read(fs.disk, JournalFile);
      FileRead(fs.disk, JournalFile);
      j, published := Some(f.bytes.journal), Some(f);
      var states := Classify(j.value, fs.disk).value;  // unknown_pair_inode_or_hash cannot fail
      var _ :- InventoryOf(fs.disk, j.value, states);
      var current :- checks.Snapshot();
      if !Lineage(j.value.snapshot, current) { return Blocked(ProtectedStateChanged); }
      if mode.Apply? { return Blocked(ExistingUpgradeNoRetry); }
      PhaseTargets(fs.disk);
      if mode.Verify? {
        if !(j.value.phase.Verified? && states == States(New, New)) { return Blocked(UpgradeIncomplete); }
        return Done(PairVerified);
      }
      if mode.Recover? && j.value.phase.Verified? {
        assert states == States(New, New);  // the verified_pair_changed check cannot fail
        return Done(PairVerified);
      }
      if j.value.phase.RolledBack? {
        assert !states.executor.New? && !states.policy.New?;  // nor rollback_pair_changed
        return Done(PairRolledBack);
      }
      r := Rollback(current);
    }

    /** A run that finds no journal: only verify and apply may start one. */
    method Start(mode: Mode) returns (r: Outcome<Status>)
      requires Inv(fs.disk) && JournalFile !in fs.disk.files && j == None && published == None
      requires mode.Verify? || mode.Apply? ==> checks.host.sourceVerified
      modifies this, fs, checks`calls
      ensures Inv(fs.disk)
      ensures JournalFile !in fs.disk.files ==> SameLive(old(fs.disk), fs.disk)
      ensures r.Interrupted? ==> old(fs.stopAfter).Some?
      ensures r.Blocked? ==> Reachable(r.code)
      ensures r.Done? ==> r.value != PairRolledBack
      ensures r == Done(PairVerified) ==> Settled(fs.disk) && Now(fs.disk).phase == Verified && NewPair(fs.disk)
      ensures r == Done(Ready) ==> mode.Verify? && fs.disk == old(fs.disk)
      ensures !mode.Apply? ==> fs.disk == old(fs.disk)
      ensures var h, c, d := checks.host, old(checks.calls), old(fs.disk);
        && (!Starts(mode, h, c, d) ==> r.Blocked? && fs.disk == d)
        && (!Starts(mode, h, c, d) && (Resumable(d) || Untried(d)) ==> r.code == Objection(mode, h, c, d))
        && (r.Done? ==> Starts(mode, h, c, d) && Stays(mode, h, c, d) && r.value == Reported(mode, d))
        && (r.Blocked? && Starts(mode, h, c, d) ==> !Stays(mode, h, c, d) && Left(h, c, d, fs.disk))
      // the first journal write cut in its middle:
      ensures mode.Apply? && Starts(mode, checks.host, old(checks.calls), old(fs.disk)) && old(fs.stopAfter) == Some(1) ==>
        r.Interrupted? && PendingFile in fs.disk.files
    {
      hide Inv, Resumable, Lineage, OldPair, Applied;
      ghost var d := fs.disk;
      assert !Resumable(d) by { NoJournal(d); }
      var baseline :- Examine(mode);
      if mode.Verify? { return Done(Ready); }
      r := ApplyPair(baseline);
    }

    /** What is checked before the first write of an apply. */
    method Examine(mode: Mode) returns (r: Outcome<Snapshot>)
      requires Inv(fs.disk) && JournalFile !in fs.disk.files
      requires mode.Verify? || mode.Apply? ==> checks.host.sourceVerified
      modifies checks`calls
      ensures !r.Interrupted? && (r.Done? <==> Starts(mode, checks.host, old(checks.calls), fs.disk))
      ensures r.Done? ==>
        checks.calls == old(checks.calls) + 2 && checks.host.snapshots(old(checks.calls)) == Some(r.value)
      ensures r.Blocked? ==> Reachable(r.code)
      ensures r.Blocked? && Untried(fs.disk) ==>
        r.code == Objection(mode, checks.host, old(checks.calls), fs.disk)
    {
      hide Holds, Separate, Plan, Read;
      if mode.Recover? || mode.Rollback? { return Blocked(RecoveryJournalMissing); }
      var _ :- InventoryBefore(fs.disk);
      LiveFilesRead(fs.disk);
      var executor :- Read(fs.disk, Live(Executor));
      var policy :- Read(fs.disk, Live(Policy));
      if executor.bytes != OldBytes(Executor) || policy.bytes != OldBytes(Policy) { return Blocked(OldPairDigest); }
      FileRead(fs.disk, Live(Executor));
      FileRead(fs.disk, Live(Policy));
      ReadsOldPair(fs.disk);
      var baseline :- checks.Snapshot();
      var _ :- checks.Space();
      return Done(baseline);
    }

    /** Back up, stage and replace, with the protected window checked three times. */
    method ApplyPair(baseline: Snapshot) returns (r: Outcome<Status>)
      requires Inv(fs.disk) && Untried(fs.disk) && j == None && published == None
      modifies this, fs, checks`calls
      ensures Inv(fs.disk) && (JournalFile !in fs.disk.files ==> SameLive(old(fs.disk), fs.disk))
      ensures r.Interrupted? ==> old(fs.stopAfter).Some?
      ensures r.Blocked? ==> Reachable(r.code) && Settled(fs.disk)
      ensures r.Done? ==>
        r.value == PairVerified && Settled(fs.disk) && Now(fs.disk).phase == Verified && NewPair(fs.disk)
      ensures var h, c := checks.host, old(checks.calls);
        && (r.Done? ==> h.snapshots(c) == h.snapshots(c + 1) == h.snapshots(c + 2) == Some(baseline))
        && (r.Blocked? ==> !(h.snapshots(c) == h.snapshots(c + 1) == h.snapshots(c + 2) == Some(baseline)))
        && (r.Blocked? ==>
          Now(fs.disk) == Applied(if h.snapshots(c) != Some(baseline) then 7
          else if h.snapshots(c + 1) != Some(baseline) then 9 else 10))
      ensures old(fs.stopAfter) == Some(1) ==> r.Interrupted? && PendingFile in fs.disk.files
    {
      hide Inv, Resumable, Now, OldPair, Applied;
      var _ :- Begin(baseline);
      var _ :- Stage();
      var _ :- checks.Unchanged(baseline);
      var _ :- ReplacePair();
      r := Commit(baseline);
    }

    /** One command, from opening the locks to the reported status. */
    method Run(mode: Mode) returns (r: Outcome<Status>)
      requires Inv(fs.disk) && j == None && published == None
      modifies this, fs, checks`calls
      // whatever happens, at whatever write it stops:
      ensures Inv(fs.disk)
      ensures JournalFile in old(fs.disk.files) ==> JournalFile in fs.disk.files
      ensures JournalFile !in fs.disk.files ==> SameLive(old(fs.disk), fs.disk)
      ensures r.Interrupted? ==> old(fs.stopAfter).Some?
      ensures r.Blocked? ==> Reachable(r.code)
      // a completed command leaves one of the two pairs:
      ensures r == Done(PairVerified) ==> Settled(fs.disk) && Now(fs.disk).phase == Verified && NewPair(fs.disk)
      ensures r == Done(PairRolledBack) ==>
        Settled(fs.disk) && Now(fs.disk).phase == RolledBack && OldPair(fs.disk)
      ensures r == Done(Ready) ==> mode.Verify? && fs.disk == old(fs.disk)
      ensures mode.Verify? ==> fs.disk == old(fs.disk)
      // whether it starts, whether it succeeds, and what a refusal leaves, on every host:
      ensures var h, c, d := checks.host, old(checks.calls), old(fs.disk);
        && (!Starts(mode, h, c, d) ==> r.Blocked? && fs.disk == d)
        && (!Starts(mode, h, c, d) && (Resumable(d) || Untried(d)) ==> r.code == Objection(mode, h, c, d))
        && (r.Done? ==> Starts(mode, h, c, d) && Stays(mode, h, c, d) && r.value == Reported(mode, d))
        && (r.Blocked? && Starts(mode, h, c, d) ==> !Stays(mode, h, c, d) && Left(h, c, d, fs.disk))
      // the first journal write cut in its middle:
      ensures mode.Apply? && Starts(mode, checks.host, old(checks.calls), old(fs.disk)) && old(fs.stopAfter) == Some(1) ==>
        r.Interrupted? && PendingFile in fs.disk.files
    {
      hide Holds, Separate, Plan;
      if mode.Verify? || mode.Apply? {
        if !checks.host.sourceVerified { return Blocked(ReviewedSourceDigest); }
      }
      if JournalFile in fs.disk.files {
        r := Continue(mode);
      } else {
        r := Start(mode);
      }
    }
  }

  /** One command of an operator: its mode, where it stops and the host it meets. */
  datatype Attempt = Attempt(mode: Mode, stopAfter: Option<nat>, host: Host)

  /** What one command makes of the disk `d`, stopped and disturbed or not, and what it reports. */
  ghost predicate Ran(a: Attempt, d: Disk, e: Disk, r: Outcome<Status>) {
    && (r.Interrupted? ==> a.stopAfter.Some?)
    && (JournalFile in d.files ==> JournalFile in e.files) && (JournalFile !in e.files ==> SameLive(d, e))
    && (a.mode.Verify? ==> e == d)
    && (r == Done(PairVerified) ==> Settled(e) && Now(e).phase == Verified && NewPair(e))
    && (r == Done(PairRolledBack) ==> Settled(e) && Now(e).phase == RolledBack && OldPair(e))
    && (!Starts(a.mode, a.host, 0, d) ==> r.Blocked? && e == d)
    && (!Starts(a.mode, a.host, 0, d) && (Resumable(d) || Untried(d)) ==> r.code == Objection(a.mode, a.host, 0, d))
    && (r.Done? ==> Starts(a.mode, a.host, 0, d) && Stays(a.mode, a.host, 0, d) && r.value == Reported(a.mode, d))
    && (r.Blocked? && Starts(a.mode, a.host, 0, d) ==> !Stays(a.mode, a.host, 0, d) && Left(a.host, 0, d, e))
    && (Starts(a.mode, a.host, 0, d) && a.mode.Apply? && a.stopAfter == Some(1) ==> r.Interrupted? && PendingFile in e.files)
  }

  method Perform(fs: Filesystem, a: Attempt) returns (r: Outcome<Status>)
    requires Inv(fs.disk)
    modifies fs
    ensures Inv(fs.disk) && Ran(a, old(fs.disk), fs.disk, r)
  {
    hide Inv, Resumable, Now, Lineage, SameLive, OldPair, NewPair, Starts, Stays, Left, Untried, Objection,
      Reported;
    fs.stopAfter := a.stopAfter;
    var checks := new Checks(a.host);
    var tool := new Upgrade(fs, checks);
    r := tool.Run(a.mode);
  }

  /** Order safety, and the bound of the journal. */
  ghost predicate Safe(d: Disk) {
    && Inv(d) && BothLive(d) && (JournalFile in d.files || OldPair(d))
    // never a new policy without a new executor
    && (d.files[Live(Policy)].bytes == NewBytes(Policy) ==> d.files[Live(Executor)].bytes == NewBytes(Executor))
    && (JournalFile in d.files ==> Journalled(d) && JournalOf(d).seq_ <= 16)
  }

  lemma InvSafe(d: Disk)
    requires Inv(d) && (JournalFile in d.files || OldPair(d))
    ensures Safe(d)
  {
    OrderSafety(d);
    if JournalFile in d.files { SaveBound(d); }
  }

  /** Any sequence of commands, each stopped anywhere or nowhere, on an installation that
      starts with the old pair; `disks` are the disks before and after each of them. */
  method History(fs: Filesystem, attempts: seq<Attempt>)
    returns (disks: seq<Disk>, results: seq<Outcome<Status>>)
    requires Inv(fs.disk) && JournalFile !in fs.disk.files && OldPair(fs.disk)
    modifies fs
    ensures |disks| == |attempts| + 1 && disks[0] == old(fs.disk) && disks[|attempts|] == fs.disk &&
      |results| == |attempts|
    ensures forall n :: 0 <= n <= |attempts| ==> Safe(disks[n])
    ensures forall n :: 0 <= n < |attempts| ==> Ran(attempts[n], disks[n], disks[n + 1], results[n])
  {
    hide Inv, Ran;
    InvSafe(fs.disk);
    disks, results := [fs.disk], [];
    for i := 0 to |attempts|
      invariant |disks| == i + 1 && disks[0] == old(fs.disk) && disks[i] == fs.disk && |results| == i
      invariant forall n :: 0 <= n <= i ==> Safe(disks[n])
      invariant forall n :: 0 <= n < i ==> Ran(attempts[n], disks[n], disks[n + 1], results[n])
    {
      ghost var before := fs.disk;
      assert Safe(before);
      var r := Perform(fs, attempts[i]);
      RanSafe(attempts[i], before, fs.disk, r);
      disks, results := disks + [fs.disk], results + [r];
    }
  }

  lemma RanSafe(a: Attempt, d: Disk, e: Disk, r: Outcome<Status>)
    requires Safe(d) && Inv(e) && Ran(a, d, e, r)
    ensures Safe(e)
  {
    SameOldPair(d, e);
    InvSafe(e);
    hide Inv;
  }

  /** After any history, one undisturbed recover either finishes, with one whole pair live,
      or refuses without touching the disk; it finishes exactly when everything on the disk it
      finds is accounted for. */
  method RecoverAfterHistory(fs: Filesystem, attempts: seq<Attempt>, host: Snapshot)
    returns (disks: seq<Disk>, results: seq<Outcome<Status>>, r: Outcome<Status>)
    requires Inv(fs.disk) && JournalFile !in fs.disk.files && OldPair(fs.disk)
    modifies fs
    ensures |disks| == |attempts| + 1 && disks[0] == old(fs.disk) && |results| == |attempts|
    ensures forall n :: 0 <= n <= |attempts| ==> Safe(disks[n])
    ensures forall n :: 0 <= n < |attempts| ==> Ran(attempts[n], disks[n], disks[n + 1], results[n])
    ensures var before := disks[|attempts|];
      (r.Done? <==> Resumable(before) && Continues(JournalOf(before).snapshot, host)) && (r.Blocked? ==> fs.disk == before)
    ensures !r.Interrupted? && (r.Done? ==> r.value.PairVerified? || r.value.PairRolledBack?)
    ensures r == Done(PairVerified) ==> NewPair(fs.disk) && Now(fs.disk).phase == Verified
    ensures r == Done(PairRolledBack) ==> OldPair(fs.disk) && Now(fs.disk).phase == RolledBack
  {
    hide Inv, Resumable, Now, Lineage, Continues, SameLive, Ran, Safe;
    disks, results := History(fs, attempts);
    assert Inv(fs.disk) by { SafeInv(fs.disk); }
    fs.stopAfter := None;
    var h := Host(true, _ => Some(host), _ => true);
    var checks := new Checks(h);
    var tool := new Upgrade(fs, checks);
    SteadyHost(Recover, h, 0, fs.disk, host);
    hide Starts, Stays, Left;
    r := tool.Run(Recover);
  }

  /** A concrete stop inside the very first journal write: the old pair is untouched, and neither
      recover nor another apply will ever start. */
  method StrandedPair(host: Snapshot)
    returns (first: Outcome<Status>, recovered: Outcome<Status>, applied: Outcome<Status>)
    ensures first.Interrupted? && recovered.Blocked? && !applied.Done?
  {
    hide Resumable, Now, Lineage, SameLive;
    var executor, policy := File(OldBytes(Executor), Stamp(0, 0)), File(OldBytes(Policy), Stamp(1, 0));
    var fs := new Filesystem(Disk(map[Live(Executor) := executor, Live(Policy) := policy], None, 2));
    assert Inv(fs.disk);
    ReadsOldPair(fs.disk);
    var steady := Host(true, _ => Some(host), _ => true);
    SteadyHost(Apply, steady, 0, fs.disk, host);
    first := Perform(fs, Attempt(Apply, Some(1), steady));
    PendingStops(fs.disk);
    recovered := Perform(fs, Attempt(Recover, None, steady));
    applied := Perform(fs, Attempt(Apply, None, steady));
  }

  lemma PendingStops(d: Disk)
    requires PendingFile in d.files
    ensures !Resumable(d)
  {
  }

  lemma SafeInv(d: Disk)
    requires Safe(d)
    ensures Inv(d)
  {
  }

  lemma SettledFacts(d: Disk)
    requires Settled(d)
    ensures Inv(d) && Plan(Now(d)) && JournalFile in d.files && BothLive(d) && Known(JournalOf(d), d)
    ensures IsCurrent(d, Some(d.files[JournalFile]))
    ensures Now(d) == ViewOf(JournalOf(d), d)
    ensures forall s :: s in Now(d).keys && InBackup(s) ==> Temp(s) in d.files
  {
  }

  lemma SaveCapacity(d: Disk, published: Option<File>, j: Journal, phase: Phase)
    requires MaySave(d, published, Saved(j, phase))
    ensures BothLive(d) && Known(Saved(j, phase), d) && j.seq_ < 16
  {
  }

  /** A restore file for `t` is registered and still in place. */
  ghost predicate CanRestore(d: Disk, t: Target) {
    Restore(t) in Now(d).keys && Temp(Restore(t)) in d.files && RollbackPhase(Now(d).phase)
  }

  lemma RestoreInPlace(d: Disk, t: Target)
    requires Settled(d) && Restore(t) in Now(d).keys && Now(d).states.At(t) == New
    ensures CanRestore(d, t)
  {
    RegisteredPresent(JournalOf(d), d, Restore(t));
    SettledFacts(d);
  }

  ghost predicate AllRestorable(d: Disk) { forall t: Target :: Now(d).states.At(t) == New ==> CanRestore(d, t) }

  function Undone(st: States, t: Target): States {
    if st.At(t) != New then st
    else if t.Executor? then st.(executor := Restored) else st.(policy := Restored)
  }

  /** Renaming a restore file in keeps the plan, before and after its save. */
  lemma RestorePlan(v: View, t: Target, phase: Phase)
    requires Plan(v) && RollbackPhase(v.phase) && !v.phase.RolledBack? && RollbackPhase(phase) &&
      !phase.RolledBack?
    requires v.states.At(t) == New && Restore(t) in v.keys && (t == Executor ==> v.states.policy != New)
    ensures Plan(Swap(v, Restore(t))) && Plan(Advance(Swap(v, Restore(t)), phase))
  {
  }

  lemma NoJournal(d: Disk)
    requires JournalFile !in d.files
    ensures !Resumable(d)
  {
  }

  lemma RolledBackStep(d: Disk)
    requires Settled(d) && !Now(d).phase.RolledBack? && !Now(d).states.executor.New? &&
      !Now(d).states.policy.New?
    ensures MaySave(d, Some(d.files[JournalFile]), Saved(JournalOf(d), RolledBack)) && OldPair(d)
    ensures Accounted(Saved(JournalOf(d), RolledBack), d)
    ensures BothLive(d) && Known(Saved(JournalOf(d), RolledBack), d)
    ensures ViewOf(Saved(JournalOf(d), RolledBack), d) == Advance(Now(d), RolledBack)
  {
    hide Kept, Separate;
    SettledFacts(d);
    RollbackMayBegin(Now(d));
    PhaseHolds(JournalOf(d), d, RolledBack);
  }

  /** The view after the n-th save of an uninterrupted apply. */
  function Applied(n: nat): View
    requires 2 <= n <= 11
  {
    match n
    case 2 => View(BackupCreated, 2, {}, true, States(Old, Old))
    case 3 => View(BackupCreated, 3, {OldCopy(Executor)}, true, States(Old, Old))
    case 4 => View(BackedUp, 4, OLD_COPIES, true, States(Old, Old))
    case 5 => View(StagedExecutor, 5, OLD_COPIES + {NewCopy(Executor)}, true, States(Old, Old))
    case 6 => View(StagedPolicy, 6, STAGED, true, States(Old, Old))
    case 7 => View(Prepared, 7, STAGED, true, States(Old, Old))
    case 8 => View(ExecutorReplaced, 8, STAGED, true, States(New, Old))
    case 9 => View(PairReplaced, 9, STAGED, true, States(New, New))
    case 10 => View(PairReplaced, 10, STAGED + {Receipt}, true, States(New, New))
    case _ => View(Verified, 11, STAGED + {Receipt}, true, States(New, New))
  }

  /** Every step of apply leads from one planned view to the next. */
  lemma ApplyPlans()
    ensures forall n {:trigger Applied(n)} :: 2 <= n <= 11 ==>
      Plan(Applied(n)) && Applied(n).directory && !RollbackPhase(Applied(n).phase)
    ensures Applied(2).keys == {} && Applied(3).keys == {OldCopy(Executor)} && Applied(4).keys == OLD_COPIES
    ensures Applied(5).keys == OLD_COPIES + {NewCopy(Executor)} &&
      Applied(7).keys == Applied(8).keys == Applied(9).keys == STAGED
    ensures Applied(7).states == States(Old, Old) && Applied(8).states == States(New, Old)
    ensures Applied(11).states == States(New, New) && Applied(11).phase == Verified
    ensures Advance(Register(Applied(2), OldCopy(Executor)), BackupCreated) == Applied(3)
    ensures Advance(Register(Applied(3), OldCopy(Policy)), BackedUp) == Applied(4)
    ensures Advance(Register(Applied(4), NewCopy(Executor)), StagedExecutor) == Applied(5)
    ensures Advance(Register(Applied(5), NewCopy(Policy)), StagedPolicy) == Applied(6)
    ensures Advance(Applied(6), Prepared) == Applied(7)
    ensures Plan(Swap(Applied(7), NewCopy(Executor))) &&
      Advance(Swap(Applied(7), NewCopy(Executor)), ExecutorReplaced) == Applied(8)
    ensures Plan(Swap(Applied(8), NewCopy(Policy))) &&
      Advance(Swap(Applied(8), NewCopy(Policy)), PairReplaced) == Applied(9)
    ensures Advance(Register(Applied(9), Receipt), PairReplaced) == Applied(10)
    ensures Applied(10).states == States(New, New) && Advance(Applied(10), Verified) == Applied(11)
  {
  }

  /** A save that only advances the phase of a settled disk. */
  lemma PreparedStep(d: Disk, phase: Phase)
    requires Settled(d) && Plan(Advance(Now(d), phase)) && !RollbackPhase(Now(d).phase)
    ensures MaySave(d, Some(d.files[JournalFile]), Saved(JournalOf(d), phase))
    ensures Accounted(Saved(JournalOf(d), phase), d)
    ensures BothLive(d) && Known(Saved(JournalOf(d), phase), d)
    ensures ViewOf(Saved(JournalOf(d), phase), d) == Advance(Now(d), phase)
  {
    hide Kept, Separate;
    SettledFacts(d);
    PhaseHolds(JournalOf(d), d, phase);
  }

  lemma BothNew(d: Disk)
    requires Settled(d) && Now(d).states == States(New, New)
    ensures NewPair(d)
  {
  }

  lemma FileRead(d: Disk, n: Name)
    ensures Read(d, n).Done? ==> n in d.files && Read(d, n).value == d.files[n]
    ensures Read(d, n).Blocked? ==> Read(d, n).code == RootFileCustody
    ensures !Read(d, n).Interrupted?
  {
  }

  lemma LiveFilesRead(d: Disk)
    requires Inv(d)
    ensures forall t :: Live(t) in d.files ==> Read(d, Live(t)) == Done(d.files[Live(t)])
    ensures forall n :: Read(d, n).Blocked? ==> Read(d, n).code == RootFileCustody
    ensures forall n :: !Read(d, n).Interrupted?
  {
  }

  /** Only files the journal does not know can make the inventory refuse. */
  lemma InventoryRefusals(j: Journal, d: Disk)
    requires Inv(d) && Journalled(d) && j == JournalOf(d)
    ensures BothLive(d) && Known(j, d)
    ensures var r := InventoryOf(d, j, StatesOf(j, d)); !r.Interrupted? && (r.Blocked? ==>
              r.code in {UnresolvedJournalTemp, UnknownTargetTemp, UnregisteredBackupDirectory, UnknownBackupResource})
    ensures !Read(d, JournalFile).Interrupted? &&
      (Read(d, JournalFile).Blocked? ==> Read(d, JournalFile).code == RootFileCustody)
  {
    hide Plan;
    forall s | s in j.resources
      ensures Temp(s) in d.files ==> Read(d, Temp(s)) == Done(File(Expected(s), j.resources[s]))
      ensures Temp(s) in d.files || Consumed(j.phase, s, StatesOf(j, d))
    {
      RegisteredPresent(j, d, s);
    }
  }

  /** What the two final phases say about the live files. */
  lemma PhaseTargets(d: Disk)
    requires Inv(d) && Journalled(d)
    ensures Known(JournalOf(d), d) && BothLive(d)
    ensures JournalOf(d).phase.Verified? ==> StatesOf(JournalOf(d), d) == States(New, New) && NewPair(d)
    ensures JournalOf(d).phase.RolledBack? ==>
      OldPair(d) && !StatesOf(JournalOf(d), d).executor.New? && !StatesOf(JournalOf(d), d).policy.New?
  {
    assert Plan(ViewOf(JournalOf(d), d));
  }

  lemma ReadsOldPair(d: Disk)
    requires Live(Executor) in d.files && d.files[Live(Executor)].bytes == OldBytes(Executor)
    requires Live(Policy) in d.files && d.files[Live(Policy)].bytes == OldBytes(Policy)
    ensures OldPair(d)
  {
    forall t: Target ensures Live(t) in d.files { assert t.Executor? || t.Policy?; }
  }

  lemma SameOldPair(d: Disk, e: Disk)
    ensures OldPair(d) && SameLive(d, e) ==> OldPair(e)
  {
  }
}
