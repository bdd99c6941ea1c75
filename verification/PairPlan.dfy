/** What the upgrade journal promises about the disk: classification, inventory and
    the invariant kept by every primitive write (ops/c2/root-executor-pair-upgrade.py). */
module PairPlan {
  import opened Outcomes
  import opened PairDisk

  datatype PairState = Old | New | Restored

  datatype States = States(executor: PairState, policy: PairState)
  {
    function At(t: Target): PairState { if t.Executor? then executor else policy }
  }

  /** Which of the three known files is live: the untouched original, the registered
      replacement, or the registered restore. Anything else is unknown. */
  function Identify(j: Journal, f: File, t: Target): Option<PairState> {
    if f.bytes == OldBytes(t) && f.stamp == j.original.At(t) then Some(Old)
    else if f.bytes == NewBytes(t) && NewCopy(t) in j.resources && f.stamp.inode == j.resources[NewCopy(t)].inode then Some(New)
    else if f.bytes == OldBytes(t) && Restore(t) in j.resources && f.stamp.inode == j.resources[Restore(t)].inode then Some(Restored)
    else None
  }

  function Classify(j: Journal, d: Disk): (r: Outcome<States>)
    ensures r.Done? ==> !(r.value.policy.New? && !r.value.executor.New?)
  {
    var e :- Read(d, Live(Executor));
    var p :- Read(d, Live(Policy));
    match (Identify(j, e, Executor), Identify(j, p, Policy))
    case (Some(es), Some(ps)) =>
      if !es.New? && ps.New? then Blocked(UnknownMixedPair) else Done(States(es, ps))
    case _ => Blocked(UnknownPairInodeOrHash)
  }

  predicate RollbackPhase(p: Phase) {
    p.RollbackPrepared? || p.RollbackPolicyReplaced? || p.RollbackExecutorReplaced? || p.RolledBack?
  }

  /** The inventory's excuse for a registered resource whose name is gone. */
  predicate Consumed(phase: Phase, s: Slot, st: States) {
    match s
    case NewCopy(t) => st.At(t).New? || (st.At(t).Restored? && RollbackPhase(phase))
    case Restore(t) => st.At(t).Restored?
    case _ => false
  }

  /** The scan before any journal exists. */
  function InventoryBefore(d: Disk): Outcome<()> {
    if PendingFile in d.files then Blocked(UnresolvedJournalTemp)
    else if exists n :: n in d.files && n.Temp? && !InBackup(n.slot) then Blocked(UnknownTargetTemp)
    else if d.backup.Some? then Blocked(OrphanBackup)
    else Done(())
  }

  function InventoryOf(d: Disk, j: Journal, st: States): Outcome<()> {
    if PendingFile in d.files then Blocked(UnresolvedJournalTemp)
    else if exists n :: n in d.files && n.Temp? && !InBackup(n.slot) && n.slot !in j.resources then Blocked(UnknownTargetTemp)
    else if j.backupDirectory.None? && d.backup.Some? then Blocked(UnregisteredBackupDirectory)
    else if j.backupDirectory.Some? && d.backup != j.backupDirectory then Blocked(BackupDirectoryChanged)
    else if j.backupDirectory.Some? &&
      ((exists n :: n in d.files && n.Temp? && InBackup(n.slot) && n.slot !in j.resources) ||
       (exists s :: s in j.resources && InBackup(s) && Temp(s) !in d.files)) then Blocked(UnknownBackupResource)
    else if exists s :: s in j.resources && Temp(s) in d.files && Read(d, Temp(s)) != Done(File(Expected(s), j.resources[s]))
      then Blocked(ResourceChanged)
    else if exists s :: s in j.resources && Temp(s) !in d.files && !Consumed(j.phase, s, st)
      then Blocked(RegisteredResourceMissing)
    else Done(())
  }

  predicate Lineage(before: Snapshot, current: Snapshot) {
    before.stable == current.stable && before.ledger <= current.ledger
  }

  // ----- the invariant -----

  const OLD_COPIES: set<Slot> := {OldCopy(Executor), OldCopy(Policy)}
  const STAGED: set<Slot> := OLD_COPIES + {NewCopy(Executor), NewCopy(Policy)}

  function One(b: bool): nat { if b then 1 else 0 }

  /** What a journalled disk amounts to. */
  datatype View = View(phase: Phase, saves: nat, keys: set<Slot>, directory: bool, states: States)

  /** The saves a rollback can have made so far: one for each restore file, each
      restored target and the final record. */
  function RollbackSaves(v: View): (n: nat)
    ensures n <= 5
  {
    One(Restore(Executor) in v.keys) + One(Restore(Policy) in v.keys)
    + One(v.states.executor.Restored?) + One(v.states.policy.Restored?) + One(v.phase.RolledBack?)
  }

  /** Which resources, how many saves and which live files each phase allows. */
  predicate Plan(v: View) {
    && (v.states.policy.New? ==> v.states.executor.New?)
    && (!v.directory && !RollbackPhase(v.phase) ==> v.phase.Intent?)
    && match v.phase
       case Intent => v.saves == 1 && v.keys == {} && !v.directory && v.states == States(Old, Old)
       case BackupCreated => v.states == States(Old, Old) &&
                             ((v.saves == 2 && v.keys == {}) || (v.saves == 3 && v.keys == {OldCopy(Executor)}))
       case BackedUp => v.states == States(Old, Old) && v.saves == 4 && v.keys == OLD_COPIES
       case StagedExecutor => v.states == States(Old, Old) && v.saves == 5 && v.keys == OLD_COPIES + {NewCopy(Executor)}
       case StagedPolicy => v.states == States(Old, Old) && v.saves == 6 && v.keys == STAGED
       case Prepared => v.states in {States(Old, Old), States(New, Old)} && v.saves == 7 && v.keys == STAGED
       case ExecutorReplaced => v.states in {States(New, Old), States(New, New)} && v.saves == 8 && v.keys == STAGED
       case PairReplaced => v.states == States(New, New) &&
                            ((v.saves == 9 && v.keys == STAGED) || (v.saves == 10 && v.keys == STAGED + {Receipt}))
       case Verified => v.states == States(New, New) && v.saves == 11 && v.keys == STAGED + {Receipt}
       case _ => RollbackPlan(v)
  }

  predicate RollbackPlan(v: View) {
    && 0 < v.saves <= 11 + RollbackSaves(v)
    && (v.states.policy.New? ==> v.states.executor.New?)
    && (v.keys != {} ==> v.directory)
    && TargetPlan(v.keys, Executor, v.states.executor) && TargetPlan(v.keys, Policy, v.states.policy)
    && (v.phase.RolledBack? ==> !v.states.executor.New? && !v.states.policy.New?)
  }

  predicate TargetPlan(keys: set<Slot>, t: Target, s: PairState) {
    && (!s.Old? ==> OldCopy(t) in keys && NewCopy(t) in keys)
    && (s.Restored? ==> Restore(t) in keys)
    && (Restore(t) in keys ==> !s.Old?)
  }

  /** A rollback may begin from any phase. */
  lemma RollbackMayBegin(v: View)
    requires Plan(v)
    ensures RollbackPlan(v)
  {
  }

  predicate BothLive(d: Disk) { forall t :: Live(t) in d.files }

  predicate Known(j: Journal, d: Disk)
    requires BothLive(d)
  {
    Identify(j, d.files[Live(Executor)], Executor).Some? && Identify(j, d.files[Live(Policy)], Policy).Some?
  }

  function StatesOf(j: Journal, d: Disk): States
    requires BothLive(d) && Known(j, d)
  {
    States(Identify(j, d.files[Live(Executor)], Executor).value, Identify(j, d.files[Live(Policy)], Policy).value)
  }

  function ViewOf(j: Journal, d: Disk): View
    requires BothLive(d) && Known(j, d)
  {
    View(j.phase, j.seq_, j.resources.Keys, j.backupDirectory.Some?, StatesOf(j, d))
  }

  /** One registered resource is on disk exactly as registered, or was consumed by a rename. */
  ghost predicate Kept(j: Journal, d: Disk, s: Slot)
    requires BothLive(d) && Known(j, d) && s in j.resources
  {
    && j.resources[s].inode < d.next
    && (forall t: Target :: j.resources[s].inode != j.original.At(t).inode)
    && (Temp(s) in d.files ==> d.files[Temp(s)] == File(Expected(s), j.resources[s]))
    && (Temp(s) !in d.files ==> Consumed(j.phase, s, StatesOf(j, d)))
  }

  /** Journal `j` describes disk `d`, whatever unregistered files lie around. */
  ghost predicate Holds(j: Journal, d: Disk) {
    && BothLive(d) && Known(j, d)
    && Plan(ViewOf(j, d))
    && j.original.executor.inode < d.next && j.original.policy.inode < d.next
    && (j.backupDirectory.Some? ==> d.backup == j.backupDirectory)
    && (forall s :: s in j.resources ==> Kept(j, d, s))
  }

  /** Names have their own inodes, except a journal still linked to its pending name. */
  ghost predicate Separate(d: Disk) {
    && (forall n :: n in d.files ==> d.files[n].stamp.inode < d.next)
    && (forall n :: n in d.files && n.Temp? && InBackup(n.slot) ==> d.backup.Some?)
    && (forall m, n :: m in d.files && n in d.files && m != n && d.files[m].stamp.inode == d.files[n].stamp.inode
          ==> !m.Live? && !m.Temp? && !n.Live? && !n.Temp?)
  }

  predicate OldPair(d: Disk) {
    BothLive(d) && d.files[Live(Executor)].bytes == OldBytes(Executor) && d.files[Live(Policy)].bytes == OldBytes(Policy)
  }

  predicate NewPair(d: Disk) {
    BothLive(d) && d.files[Live(Executor)].bytes == NewBytes(Executor) && d.files[Live(Policy)].bytes == NewBytes(Policy)
  }

  /** Before the first journal appears the tool has left nothing but a pending file. */
  ghost predicate Untouched(d: Disk) {
    d.backup.None? && (forall n :: n in d.files ==> n.Live? || n.PendingFile?)
  }

  predicate Journalled(d: Disk) { JournalFile in d.files && d.files[JournalFile].bytes.Record? }

  function JournalOf(d: Disk): Journal
    requires Journalled(d)
  {
    d.files[JournalFile].bytes.journal
  }

  /** The invariant of every reachable disk. */
  ghost predicate Inv(d: Disk) {
    && Separate(d)
    && (if JournalFile in d.files then Journalled(d) && Holds(JournalOf(d), d) else Untouched(d))
  }

  /** Nothing lies outside the journal: the part of Resumable the inventory decides. */
  predicate Accounted(j: Journal, d: Disk) {
    && PendingFile !in d.files
    && (forall n :: n in d.files && n.Temp? ==> n.slot in j.resources)
    && (d.backup.Some? ==> j.backupDirectory.Some?)
  }

  /** The journal accounts for everything on disk: no pending journal, no unregistered
      resource, no unregistered backup directory. */
  predicate Resumable(d: Disk) {
    && Journalled(d)
    && Accounted(JournalOf(d), d)
  }

  /** The view of a journalled disk; arbitrary where the invariant rules the disk out. */
  function Now(d: Disk): View {
    if Journalled(d) && BothLive(d) && Known(JournalOf(d), d) then ViewOf(JournalOf(d), d)
    else View(Intent, 0, {}, false, States(Old, Old))
  }

  /** Between two saves: the disk is reachable and its journal accounts for everything. */
  ghost predicate Settled(d: Disk) { Inv(d) && Resumable(d) }

  // ----- consequences -----

  /** In every reachable disk both targets hold known bytes, and a new policy means a
      new executor. */
  lemma OrderSafety(d: Disk)
    requires Inv(d) && (JournalFile in d.files || OldPair(d))
    ensures BothLive(d)
    ensures d.files[Live(Policy)].bytes == NewBytes(Policy) ==>
      d.files[Live(Executor)].bytes == NewBytes(Executor)
    ensures forall t :: d.files[Live(t)].bytes == OldBytes(t) || d.files[Live(t)].bytes == NewBytes(t)
  {
    forall t: Target ensures d.files[Live(t)].bytes == OldBytes(t) || d.files[Live(t)].bytes == NewBytes(t) {
      assert t == Executor || t == Policy;
    }
    if JournalFile in d.files {
      var j := JournalOf(d);
      assert !(StatesOf(j, d).policy.New? && !StatesOf(j, d).executor.New?);
    }
  }

  /** No journal ever counts past 16 saves, so the 63-entry capacity check cannot fire. */
  lemma SaveBound(d: Disk)
    requires Inv(d) && JournalFile in d.files
    ensures Journalled(d) && 0 < JournalOf(d).seq_ <= 16
  {
    var j := JournalOf(d);
    assert Plan(ViewOf(j, d));
  }

  /** While a live target is not its original, a byte-exact registered backup exists. */
  lemma BackupAvailable(d: Disk, t: Target)
    requires Inv(d) && JournalFile in d.files && BothLive(d) && d.files[Live(t)].bytes == NewBytes(t)
    ensures Temp(OldCopy(t)) in d.files && d.files[Temp(OldCopy(t))].bytes == OldBytes(t)
  {
    assert t == Executor || t == Policy;
    var j := JournalOf(d);
    assert StatesOf(j, d).At(t) == New;
    assert OldCopy(t) in j.resources;
    assert Kept(j, d, OldCopy(t));
  }

  /** A live file is always one of the three the journal can name. */
  lemma ClassifySucceeds(j: Journal, d: Disk)
    requires Separate(d) && Holds(j, d)
    ensures Classify(j, d) == Done(StatesOf(j, d))
  {
  }

  lemma RegisteredPresent(j: Journal, d: Disk, s: Slot)
    requires Separate(d) && Holds(j, d) && s in j.resources
    ensures Temp(s) in d.files ==> Read(d, Temp(s)) == Done(File(Expected(s), j.resources[s]))
    ensures InBackup(s) ==> Temp(s) in d.files
    ensures Temp(s) in d.files || Consumed(j.phase, s, StatesOf(j, d))
  {
  }

  lemma InventoryIffAccounted(j: Journal, d: Disk)
    requires Separate(d) && Holds(j, d)
    ensures InventoryOf(d, j, StatesOf(j, d)).Done? <==> Accounted(j, d)
  {
  }

  /** The scans that open every run on an existing journal pass exactly on the resumable disks. */
  lemma ScansPassIffResumable(d: Disk)
    requires Inv(d) && JournalFile in d.files
    ensures Journalled(d) && BothLive(d) && Known(JournalOf(d), d)
    ensures Classify(JournalOf(d), d) == Done(StatesOf(JournalOf(d), d))
    ensures Read(d, JournalFile).Done? && InventoryOf(d, JournalOf(d), StatesOf(JournalOf(d), d)).Done? <==>
      Resumable(d)
  {
    ClassifySucceeds(JournalOf(d), d);
    InventoryIffAccounted(JournalOf(d), d);
    assert PendingFile !in d.files ==> SingleLink(d, JournalFile);
  }
}
