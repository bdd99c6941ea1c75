/** The durable state of the executor/policy upgrade and the filesystem calls that
    change it one primitive write at a time (ops/c2/root-executor-pair-upgrade.py). */
module PairDisk {
  import opened Outcomes

  datatype Target = Executor | Policy

  /** The resources a journal can register. */
  datatype Slot = OldCopy(t: Target) | NewCopy(t: Target) | Restore(t: Target) | Receipt

  datatype Name = Live(t: Target) | Temp(slot: Slot) | JournalFile | PendingFile

  /** Everything a stamp compares except ctime is `inode`: inodes are never reused here. */
  datatype Stamp = Stamp(inode: nat, ctime: nat)

  /** File contents up to SHA-256, which is taken to be injective. `Torn` is a file
      whose creation was cut off. */
  datatype Bytes = OldBytes(t: Target) | NewBytes(t: Target) | ReceiptBytes | Record(journal: Journal) | Torn

  datatype Phase =
    | Intent | BackupCreated | BackedUp | StagedExecutor | StagedPolicy | Prepared
    | ExecutorReplaced | PairReplaced | Verified
    | RollbackPrepared | RollbackPolicyReplaced | RollbackExecutorReplaced | RolledBack

  datatype Snapshot = Snapshot(stable: nat, ledger: seq<nat>)

  datatype Originals = Originals(executor: Stamp, policy: Stamp)
  {
    function At(t: Target): Stamp { if t.Executor? then executor else policy }
  }

  datatype Journal = Journal(phase: Phase, seq_: nat, original: Originals, snapshot: Snapshot,
                             backupDirectory: Option<nat>, resources: map<Slot, Stamp>)

  datatype File = File(bytes: Bytes, stamp: Stamp)

  datatype Disk = Disk(files: map<Name, File>, backup: Option<nat>, next: nat)

  /** The bytes a slot may hold (RESOURCES). */
  function Expected(s: Slot): Bytes {
    match s
    case OldCopy(t) => OldBytes(t)
    case NewCopy(t) => NewBytes(t)
    case Restore(t) => OldBytes(t)
    case Receipt => ReceiptBytes
  }

  predicate InBackup(s: Slot) { s.OldCopy? || s.Receipt? }

  /** `opened` insists on a link count of one. */
  predicate SingleLink(d: Disk, n: Name)
    requires n in d.files
  {
    forall m :: m in d.files && m != n ==> d.files[m].stamp.inode != d.files[n].stamp.inode
  }

  function Read(d: Disk, n: Name): (r: Outcome<File>)
    ensures r.Done? <==> n in d.files && SingleLink(d, n)
  {
    if n in d.files && SingleLink(d, n) then Done(d.files[n]) else Blocked(RootFileCustody)
  }

  function Put(d: Disk, n: Name, f: File): Disk {
    d.(files := d.files[n := f], next := d.next + 1)
  }

  /** The disk after `source` is renamed over `target`; only the ctime may change. */
  function Moved(d: Disk, source: Name, target: Name, ctime: nat): Disk
    requires source in d.files
  {
    d.(files := (d.files - {source})[target := d.files[source].(stamp := Stamp(d.files[source].stamp.inode, ctime))])
  }

  /** `after` is `before` with one more file `n`, of a new inode. */
  predicate Adds(before: Disk, n: Name, after: Disk) {
    && n !in before.files && n in after.files
    && after.files[n].stamp.inode == before.next
    && after == Put(before, n, after.files[n])
  }

  /** What an unfinished journal write can leave: nothing, a pending file of its own
      inode, or (first write only) that pending file also linked under the journal name. */
  predicate Residue(before: Disk, after: Disk, value: Journal) {
    || after == before
    || Adds(before, PendingFile, after)
    || (&& JournalFile !in before.files && PendingFile !in before.files && PendingFile in after.files
        && after.files[PendingFile].stamp.inode == before.next &&
          after.files[PendingFile].bytes == Record(value)
        && after == Put(before, PendingFile, after.files[PendingFile])
                    .(files := before.files[PendingFile := after.files[PendingFile]][JournalFile := after.files[PendingFile]]))
  }

  /** The caller's memory of the published journal file matches the disk. */
  predicate IsCurrent(d: Disk, previous: Option<File>) {
    match previous
    case None => JournalFile !in d.files
    case Some(f) => Read(d, JournalFile) == Done(f)
  }

  /** How exclusive creation of `n` ends. */
  predicate CreateEffect(before: Disk, after: Disk, n: Name, bytes: Bytes, r: Outcome<Stamp>) {
    match r
    case Done(st) => n !in before.files && st.inode == before.next && after == Put(before, n, File(bytes, st))
    case Blocked(_) => n in before.files && after == before
    case Interrupted => after == before || Adds(before, n, after)
  }

  /** How a compare-and-swap rename ends. */
  predicate RenameEffect(before: Disk, after: Disk, source: Name, target: Name, expectedSource: File, expectedTarget: File,
                         r: Outcome<Stamp>)
  {
    match r
    case Done(st) => source in before.files && st.inode == expectedSource.stamp.inode && after == Moved(before, source, target, st.ctime)
    case Blocked(_) => after == before && !(Read(before, source) == Done(expectedSource) && Read(before, target) == Done(expectedTarget))
    case Interrupted => after == before
  }

  /** How publishing a journal value ends. */
  predicate JournalEffect(before: Disk, after: Disk, value: Journal, previous: Option<File>, r: Outcome<Stamp>) {
    match r
    case Done(st) => PendingFile !in before.files && st.inode == before.next && after == Put(before, JournalFile, File(Record(value), st))
    case Blocked(_) => Residue(before, after, value) && (PendingFile in before.files || !IsCurrent(before, previous))
    case Interrupted => Residue(before, after, value)
  }

  class Filesystem {
    var disk: Disk
    /** How many more primitive writes happen before the process stops; None never stops it. */
    var stopAfter: Option<nat>

    constructor (disk: Disk)
      ensures this.disk == disk && stopAfter == None
    {
      this.disk := disk;
      stopAfter := None;
    }

    method Tick() returns (alive: bool)
      modifies this`stopAfter
      ensures stopAfter.Some? <==> old(stopAfter).Some?
      ensures !alive ==> stopAfter.Some?
      ensures alive <==> old(stopAfter) != Some(0)
      ensures alive && stopAfter.Some? ==> old(stopAfter.value) == stopAfter.value + 1
    {
      match stopAfter
      case None => alive := true;
      case Some(n) =>
        alive := n > 0;
        if alive { stopAfter := Some(n - 1); }
    }

    /** Exclusive creation: the name appears empty before it holds `bytes`. */
    method Create(n: Name, bytes: Bytes) returns (r: Outcome<Stamp>)
      modifies this
      ensures stopAfter.Some? <==> old(stopAfter).Some?
      ensures CreateEffect(old(disk), disk, n, bytes, r)
      ensures r.Interrupted? ==> stopAfter.Some?
      ensures n !in old(disk.files) && old(stopAfter) == Some(1) ==> r.Interrupted? && n in disk.files
    {
      if n in disk.files { return Blocked(FileExists); }
      var alive := Tick();
      if !alive { return Interrupted; }
      var created: nat := *;
      var before := disk;
      var torn := File(Torn, Stamp(before.next, created));
      disk := Put(before, n, torn);
      alive := Tick();
      if !alive { return Interrupted; }
      var written: nat := *;
      disk := disk.(files := disk.files[n := File(bytes, Stamp(before.next, written))]);
      assert disk == Put(before, n, File(bytes, Stamp(before.next, written)));
      return Done(Stamp(before.next, written));
    }

    method Mkdir() returns (r: Outcome<nat>)
      modifies this
      ensures stopAfter.Some? <==> old(stopAfter).Some?
      ensures r.Blocked? <==> old(disk.backup).Some?
      ensures r.Blocked? ==> disk == old(disk)
      ensures r.Done? ==> r.value == old(disk.next)
      ensures r.Done? ==> disk == old(disk).(backup := Some(r.value), next := old(disk.next) + 1)
      ensures r.Interrupted? ==> stopAfter.Some? && disk == old(disk)
    {
      if disk.backup.Some? { return Blocked(FileExists); }
      var alive := Tick();
      if !alive { return Interrupted; }
      r := Done(disk.next);
      disk := disk.(backup := Some(disk.next), next := disk.next + 1);
    }

    /** Compare-and-swap replacement: both names must still be the files the caller saw. */
    method Rename(source: Name, target: Name, expectedSource: File, expectedTarget: File)
      returns (r: Outcome<Stamp>)
      requires source != target
      modifies this
      ensures stopAfter.Some? <==> old(stopAfter).Some?
      ensures RenameEffect(old(disk), disk, source, target, expectedSource, expectedTarget, r)
      ensures r.Interrupted? ==> stopAfter.Some?
    {
      var s :- Read(disk, source);
      var t :- Read(disk, target);
      if s != expectedSource || t != expectedTarget { return Blocked(InodeHashCas); }
      var alive := Tick();
      if !alive { return Interrupted; }
      var ctime: nat := *;
      disk := Moved(disk, source, target, ctime);
      return Done(Stamp(s.stamp.inode, ctime));
    }

    /** Publish a journal value: hard link the first time, CAS rename afterwards. A stop
        in here leaves the pending name behind, alone or linked to the journal. */
    method WriteJournal(value: Journal, previous: Option<File>) returns (r: Outcome<Stamp>)
      requires forall n :: n in disk.files ==> disk.files[n].stamp.inode < disk.next
      modifies this
      ensures stopAfter.Some? <==> old(stopAfter).Some?
      ensures JournalEffect(old(disk), disk, value, previous, r)
      ensures r.Interrupted? ==> stopAfter.Some?
      ensures PendingFile !in old(disk.files) && old(stopAfter) == Some(1) ==>
        r.Interrupted? && PendingFile in disk.files
    {
      var before := disk;
      var st :- Create(PendingFile, Record(value));
      var f := File(Record(value), st);
      assert disk == Put(before, PendingFile, f);
      if previous.Some? {
        var now :- Rename(PendingFile, JournalFile, f, previous.value);
        assert disk.files == before.files[JournalFile := File(Record(value), now)];
        return Done(now);
      }
      if JournalFile in disk.files { return Blocked(FileExists); }
      var alive := Tick();
      if !alive { return Interrupted; }
      disk := disk.(files := disk.files[JournalFile := f]);
      alive := Tick();
      if !alive { return Interrupted; }
      disk := disk.(files := disk.files - {PendingFile});
      assert disk.files == before.files[JournalFile := f];
      return Done(st);
    }
  }

}
