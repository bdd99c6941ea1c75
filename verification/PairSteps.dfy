/** Each primitive effect of the upgrade tool keeps the invariant and moves the view of
    the disk in one definite way (ops/c2/root-executor-pair-upgrade.py). */
module PairSteps {
  import opened Outcomes
  import opened PairDisk
  import opened PairPlan

  /** The journal value `save` writes. */
  function Saved(j: Journal, phase: Phase): Journal { j.(phase := phase, seq_ := j.seq_ + 1) }

  function Registering(j: Journal, slot: Slot, st: Stamp): Journal { j.(resources := j.resources[slot := st]) }

  function Advance(v: View, phase: Phase): View { v.(phase := phase, saves := v.saves + 1) }

  function Register(v: View, slot: Slot): View { v.(keys := v.keys + {slot}) }

  /** The view after a staged file replaced its live target. */
  function Swap(v: View, slot: Slot): View
    requires slot.NewCopy? || slot.Restore?
  {
    var now := if slot.NewCopy? then New else Restored;
    v.(states := if slot.t.Executor? then v.states.(executor := now) else v.states.(policy := now))
  }

  /** Live targets are the same files. */
  predicate SameLive(before: Disk, after: Disk) {
    forall t :: (Live(t) in before.files <==> Live(t) in after.files) &&
                (Live(t) in before.files ==> after.files[Live(t)] == before.files[Live(t)])
  }

  /** The disk is reachable, journal `value` would describe it, and the caller's memory of
      the published journal is current. */
  ghost predicate MaySave(d: Disk, published: Option<File>, value: Journal) {
    Inv(d) && Holds(value, d) && PendingFile !in d.files && IsCurrent(d, published)
  }

  // ----- framing -----

  /** Adding files that `j` does not register, or the journal itself, leaves `Holds` alone. */
  lemma HoldsFrame(j: Journal, d: Disk, e: Disk)
    requires Holds(j, d)
    requires e.backup == d.backup && d.next <= e.next
    requires forall n :: n in d.files && (n.Live? || (n.Temp? && n.slot in j.resources)) ==>
      n in e.files && e.files[n] == d.files[n]
    requires forall n :: n in e.files && n.Temp? && n.slot in j.resources ==> n in d.files
    ensures Holds(j, e) && ViewOf(j, e) == ViewOf(j, d)
  {
  }

  lemma PhaseHolds(j: Journal, d: Disk, phase: Phase)
    requires Holds(j, d) && (RollbackPhase(j.phase) ==> RollbackPhase(phase))
    requires Plan(Advance(ViewOf(j, d), phase))
    ensures Holds(Saved(j, phase), d) && ViewOf(Saved(j, phase), d) == Advance(ViewOf(j, d), phase)
  {
    hide Plan;
    forall s | s in j.resources ensures Kept(Saved(j, phase), d, s) {
      assert Kept(j, d, s);
    }
  }

  // ----- journal writes -----

  lemma PendingKeepsInv(d: Disk, e: Disk)
    requires Inv(d) && Adds(d, PendingFile, e)
    ensures Inv(e) && SameLive(d, e)
  {
    hide Plan, Kept, Separate;
    PendingSeparates(d, e);
    if JournalFile in d.files {
      HoldsFrame(JournalOf(d), d, e);
    }
  }

  lemma PendingSeparates(d: Disk, e: Disk)
    requires Separate(d) && Adds(d, PendingFile, e)
    ensures Separate(e)
  {
  }

  /** An interrupted later save strands the pair as it is: the pending file makes every
      following recover refuse. */
  lemma InterruptedSaveStrands(d: Disk, e: Disk)
    requires Inv(d) && JournalFile in d.files && Adds(d, PendingFile, e)
    ensures Inv(e) && SameLive(d, e) && !Resumable(e) &&
      InventoryOf(e, JournalOf(e), StatesOf(JournalOf(e), e)).Blocked?
  {
    PendingKeepsInv(d, e);
  }

  lemma LinkSeparates(d: Disk, e: Disk, f: File)
    requires Separate(d) && JournalFile !in d.files && PendingFile !in d.files && f.stamp.inode == d.next
    requires e == Put(d, PendingFile, f).(files := d.files[PendingFile := f][JournalFile := f])
    ensures Separate(e)
  {
    forall n | n in d.files ensures d.files[n].stamp.inode != f.stamp.inode { }
  }

  lemma LinkKeepsInv(d: Disk, e: Disk, f: File, j: Journal)
    requires Separate(d) && Holds(j, d) && JournalFile !in d.files && PendingFile !in d.files
    requires f.stamp.inode == d.next && f.bytes == Record(j)
    requires e == Put(d, PendingFile, f).(files := d.files[PendingFile := f][JournalFile := f])
    ensures Inv(e) && SameLive(d, e)
  {
    hide Plan, Kept, Separate;
    LinkSeparates(d, e, f);
    HoldsFrame(j, d, e);
  }

  lemma PublishedKeepsInv(d: Disk, e: Disk, f: File, j: Journal)
    requires Separate(d) && Holds(j, d) && PendingFile !in d.files
    requires f.bytes == Record(j) && f.stamp.inode == d.next && e == Put(d, JournalFile, f)
    ensures Inv(e) && SameLive(d, e) && Holds(j, e) && ViewOf(j, e) == ViewOf(j, d)
  {
    hide Plan, Kept, Separate;
    PublishedSeparates(d, e, f);
    HoldsFrame(j, d, e);
  }

  lemma PublishedSeparates(d: Disk, e: Disk, f: File)
    requires Separate(d) && PendingFile !in d.files && f.stamp.inode == d.next && e == Put(d, JournalFile, f)
    ensures Separate(e)
  {
  }

  /** A save that completes leaves the journal `value` published; one that does not leaves
      the invariant; none is refused. */
  lemma JournalStep(d: Disk, e: Disk, value: Journal, published: Option<File>, r: Outcome<Stamp>)
    requires MaySave(d, published, value) && JournalEffect(d, e, value, published, r)
    ensures !r.Blocked? && Inv(e) && SameLive(d, e)
    ensures r.Done? ==>
      Journalled(e) && JournalOf(e) == value && e.files[JournalFile] == File(Record(value), r.value)
    ensures r.Done? ==> Now(e) == ViewOf(value, d) && e.files.Keys == d.files.Keys + {JournalFile}
    ensures r.Done? && Accounted(value, d) ==> Settled(e)
    ensures JournalFile in d.files ==> JournalFile in e.files
  {
    hide Plan, Kept, Separate;
    if r.Done? {
      PublishedKeepsInv(d, e, File(Record(value), r.value), value);
    } else if e != d {
      if Adds(d, PendingFile, e) {
        PendingKeepsInv(d, e);
      } else {
        LinkKeepsInv(d, e, e.files[PendingFile], value);
      }
    }
  }

  // ----- resources -----

  lemma TempKeepsInv(d: Disk, e: Disk, slot: Slot)
    requires Inv(d) && Journalled(d) && slot !in JournalOf(d).resources && JournalOf(d).backupDirectory.Some?
    requires Adds(d, Temp(slot), e)
    ensures Inv(e) && SameLive(d, e) && Holds(JournalOf(d), e) &&
      ViewOf(JournalOf(d), e) == ViewOf(JournalOf(d), d)
  {
    hide Plan, Kept;
    HoldsFrame(JournalOf(d), d, e);
  }

  lemma RegisterHolds(j: Journal, d: Disk, slot: Slot, st: Stamp)
    requires Separate(d) && Holds(j, d) && slot !in j.resources
    requires Temp(slot) in d.files && d.files[Temp(slot)] == File(Expected(slot), st)
    requires forall t: Target :: st.inode != j.original.At(t).inode
    ensures Known(Registering(j, slot, st), d)
    ensures ViewOf(Registering(j, slot, st), d) == Register(ViewOf(j, d), slot)
    ensures forall s :: s in Registering(j, slot, st).resources ==> Kept(Registering(j, slot, st), d, s)
  {
    hide Plan;
    var k := Registering(j, slot, st);
    assert k.resources.Keys == j.resources.Keys + {slot};
    forall s | s in k.resources ensures Kept(k, d, s) {
      if s != slot { assert Kept(j, d, s); }
    }
  }

  /** Creating an unregistered resource, then registering it for the next save. */
  lemma CreateStep(d: Disk, e: Disk, slot: Slot, phase: Phase, r: Outcome<Stamp>)
    requires Settled(d) && slot !in Now(d).keys && Now(d).directory
    requires RollbackPhase(Now(d).phase) ==> RollbackPhase(phase)
    requires Plan(Advance(Register(Now(d), slot), phase))
    requires CreateEffect(d, e, Temp(slot), Expected(slot), r)
    ensures !r.Blocked? && Inv(e) && SameLive(d, e) && JournalFile in e.files
    ensures r.Done? ==> var value := Saved(Registering(JournalOf(d), slot, r.value), phase);
              MaySave(e, Some(d.files[JournalFile]), value) && Accounted(value, e)
              && ViewOf(value, e) == Advance(Register(Now(d), slot), phase) &&
                e.files.Keys == d.files.Keys + {Temp(slot)}
  {
    hide Plan, Kept;
    if e != d {
      TempKeepsInv(d, e, slot);
    }
    if r.Done? {
      var j := JournalOf(d);
      RegisterHolds(j, e, slot, r.value);
      RegisterSaves(j, e, slot, r.value, phase);
    }
  }

  lemma RegisterSaves(j: Journal, d: Disk, slot: Slot, st: Stamp, phase: Phase)
    requires BothLive(d) && Known(Registering(j, slot, st), d) && Holds(j, d) && j.backupDirectory.Some?
    requires ViewOf(Registering(j, slot, st), d) == Register(ViewOf(j, d), slot)
    requires forall s :: s in Registering(j, slot, st).resources ==> Kept(Registering(j, slot, st), d, s)
    requires RollbackPhase(j.phase) ==> RollbackPhase(phase)
    requires Plan(Advance(Register(ViewOf(j, d), slot), phase))
    ensures Holds(Saved(Registering(j, slot, st), phase), d)
    ensures ViewOf(Saved(Registering(j, slot, st), phase), d) == Advance(Register(ViewOf(j, d), slot), phase)
  {
    hide Plan;
    var k := Registering(j, slot, st);
    forall s | s in k.resources ensures Kept(Saved(k, phase), d, s) {
      assert Kept(k, d, s);
    }
  }

  // ----- renames -----

  lemma RenameSeparates(d: Disk, e: Disk, source: Name, target: Name, ctime: nat)
    requires Separate(d) && source in d.files && source.Temp? && target.Live? && PendingFile !in d.files
    requires e == Moved(d, source, target, ctime)
    ensures Separate(e)
  {
    forall m, n | m in e.files && n in e.files && m != n
      ensures e.files[m].stamp.inode != e.files[n].stamp.inode
    {
      var m0, n0 := if m == target then source else m, if n == target then source else n;
      assert m0 in d.files && n0 in d.files && m0 != n0;
    }
  }

  lemma RenameView(j: Journal, d: Disk, e: Disk, slot: Slot, ctime: nat)
    requires slot.NewCopy? || slot.Restore?
    requires Holds(j, d) && slot in j.resources && Temp(slot) in d.files
    requires e == Moved(d, Temp(slot), Live(slot.t), ctime)
    ensures BothLive(e) && Known(j, e) && ViewOf(j, e) == Swap(ViewOf(j, d), slot)
  {
    hide Plan;
    assert Kept(j, d, slot);
  }

  lemma RenameKeeps(j: Journal, d: Disk, e: Disk, slot: Slot, ctime: nat)
    requires slot.NewCopy? || slot.Restore?
    requires Holds(j, d) && slot in j.resources && Temp(slot) in d.files
    requires slot.Restore? ==> RollbackPhase(j.phase)
    requires slot.NewCopy? ==> StatesOf(j, d).At(slot.t) == Old
    requires e == Moved(d, Temp(slot), Live(slot.t), ctime)
    requires BothLive(e) && Known(j, e) && ViewOf(j, e) == Swap(ViewOf(j, d), slot)
    ensures forall s :: s in j.resources ==> Kept(j, e, s)
  {
  }

  /** The file a rename replaces is the one the journal expects there. */
  lemma RenameSees(d: Disk, slot: Slot)
    requires slot.NewCopy? || slot.Restore?
    requires Settled(d) && slot in Now(d).keys
    ensures Live(slot.t) in d.files && Read(d, Live(slot.t)) == Done(d.files[Live(slot.t)])
    ensures slot in JournalOf(d).resources
    ensures Temp(slot) in d.files ==>
      Read(d, Temp(slot)) == Done(File(Expected(slot), JournalOf(d).resources[slot]))
    ensures Now(d).states.At(slot.t) == Old ==>
              d.files[Live(slot.t)] == File(OldBytes(slot.t), JournalOf(d).original.At(slot.t))
    ensures Now(d).states.At(slot.t) == New ==> NewCopy(slot.t) in JournalOf(d).resources
    ensures Now(d).states.At(slot.t) == New ==> d.files[Live(slot.t)].bytes == NewBytes(slot.t)
    ensures Now(d).states.At(slot.t) == New ==>
      d.files[Live(slot.t)].stamp.inode == JournalOf(d).resources[NewCopy(slot.t)].inode
  {
    hide Plan;
    assert SingleLink(d, Live(slot.t));
    RegisteredPresent(JournalOf(d), d, slot);
    assert slot.t == Executor || slot.t == Policy;
  }

  /** Renaming a staged file over its target keeps the disk settled and allows the next save. */
  lemma RenameStep(d: Disk, e: Disk, slot: Slot, phase: Phase, f: File, r: Outcome<Stamp>)
    requires slot.NewCopy? || slot.Restore?
    requires Settled(d) && slot in Now(d).keys && Temp(slot) in d.files
    requires slot.NewCopy? ==> Now(d).states.At(slot.t) == Old
    requires slot.Restore? ==> RollbackPhase(Now(d).phase)
    requires RollbackPhase(Now(d).phase) ==> RollbackPhase(phase)
    requires Plan(Swap(Now(d), slot)) && Plan(Advance(Swap(Now(d), slot), phase))
    requires Read(d, Live(slot.t)) == Done(f)
    requires RenameEffect(d, e, Temp(slot), Live(slot.t), File(Expected(slot), JournalOf(d).resources[slot]), f, r)
    ensures !r.Blocked? && Inv(e) && JournalFile in e.files
    ensures r.Done? ==> Settled(e) && JournalOf(e) == JournalOf(d) && Now(e) == Swap(Now(d), slot)
    ensures r.Done? ==> var value := Saved(JournalOf(d), phase);
              MaySave(e, Some(d.files[JournalFile]), value) && Accounted(value, e)
              && ViewOf(value, e) == Advance(Swap(Now(d), slot), phase) &&
                e.files.Keys == d.files.Keys - {Temp(slot)}
  {
    hide Plan, Kept, Separate, Identify;
    RenameSees(d, slot);
    if r.Done? {
      var j := JournalOf(d);
      RenameSeparates(d, e, Temp(slot), Live(slot.t), r.value.ctime);
      RenameView(j, d, e, slot, r.value.ctime);
      RenameKeeps(j, d, e, slot, r.value.ctime);
      assert Holds(j, e);
      PhaseHolds(j, e, phase);
      JournalCurrent(e);
    }
  }

  lemma JournalCurrent(d: Disk)
    requires Settled(d)
    ensures IsCurrent(d, Some(d.files[JournalFile]))
  {
  }

  // ----- the two steps of apply that come before any resource -----

  /** The first journal value describes an untouched disk with the old pair. */
  lemma IntentStep(d: Disk, j: Journal)
    requires Inv(d) && JournalFile !in d.files && PendingFile !in d.files && OldPair(d)
    requires j.seq_ == 0 && j.backupDirectory == None && j.resources == map[]
    requires j.original == Originals(d.files[Live(Executor)].stamp, d.files[Live(Policy)].stamp)
    ensures MaySave(d, None, Saved(j, Intent)) && Accounted(Saved(j, Intent), d)
    ensures ViewOf(Saved(j, Intent), d) == View(Intent, 1, {}, false, States(Old, Old))
  {
  }

  lemma MkdirKeepsInv(d: Disk, e: Disk)
    requires Settled(d) && Now(d).phase.Intent? && e == d.(backup := Some(d.next), next := d.next + 1)
    ensures Inv(e)
  {
    hide Plan;
    IntentHasNothing(d);
    HoldsBackup(JournalOf(d), d, e, None);
  }

  lemma IntentHasNothing(d: Disk)
    requires Settled(d) && Now(d).phase.Intent?
    ensures JournalOf(d).backupDirectory.None? && JournalOf(d).resources == map[]
    ensures Now(d) == View(Intent, 1, {}, false, States(Old, Old))
    ensures d.backup.None?
  {
  }

  /** A journal without resources can point at any backup directory its view allows. */
  lemma HoldsBackup(j: Journal, d: Disk, e: Disk, directory: Option<nat>)
    requires Holds(j, d) && j.resources == map[] && e.files == d.files && d.next <= e.next
    requires directory.Some? ==> e.backup == directory
    requires Plan(ViewOf(j.(backupDirectory := directory), d))
    ensures Holds(j.(backupDirectory := directory), e)
  {
  }

  /** Making the backup directory, then registering it for the next save. */
  lemma MkdirStep(d: Disk, e: Disk)
    requires Settled(d) && Now(d).phase.Intent? && e == d.(backup := Some(d.next), next := d.next + 1)
    ensures Inv(e)
    ensures var value := Saved(JournalOf(d).(backupDirectory := Some(d.next)), BackupCreated);
      MaySave(e, Some(d.files[JournalFile]), value) && Accounted(value, e)
      && ViewOf(value, e) == View(BackupCreated, 2, {}, true, States(Old, Old))
  {
    MkdirKeepsInv(d, e);
    IntentHasNothing(d);
    JournalCurrent(d);
    PhaseWithDirectory(JournalOf(d), d, e);
  }

  lemma PhaseWithDirectory(j: Journal, d: Disk, e: Disk)
    requires Holds(j, d) && j.phase.Intent? && j.resources == map[] && e.files == d.files && d.next <= e.next &&
      e.backup.Some?
    requires ViewOf(j, d) == View(Intent, 1, {}, false, States(Old, Old))
    ensures Holds(Saved(j.(backupDirectory := e.backup), BackupCreated), e)
    ensures ViewOf(Saved(j.(backupDirectory := e.backup), BackupCreated), e) == View(BackupCreated, 2, {}, true, States(Old, Old))
  {
  }
}
