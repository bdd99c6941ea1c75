/** The installer of the upgrade helper and its append-only receipt
    (ops/c2/install-root-executor-helper.py). */
module HelperInstall {
  import opened Outcomes

  datatype Phase = Staged | Linked | Committed | RollbackIntent | RolledBack

  /** A line of the receipt. `previous` is the digest of all the lines before it, taken to be
      injective: the lines themselves. */
  datatype Row = Row(phase: Phase, previous: Option<seq<Row>>)

  /** A file that is created in place may be left unfinished. */
  datatype Slot = Missing | Partial | Whole

  /** The helper's one inode has up to two names; `torn` says that the receipt ends in an
      unfinished line. */
  datatype Disk = Disk(directory: bool, intent: Slot, copy: Slot, rows: seq<Row>, torn: bool, stage: Slot, target: bool, links: nat)

  function Names(d: Disk): nat { (if d.stage != Missing then 1 else 0) + if d.target then 1 else 0 }

  predicate Follows(last: Option<Phase>, next: Phase) {
    match last
    case None => next == Staged
    case Some(Staged) => next == Linked || next == RollbackIntent
    case Some(Linked) => next == Committed || next == RollbackIntent
    case Some(Committed) => next == RollbackIntent
    case Some(RollbackIntent) => next == RolledBack
    case Some(RolledBack) => false
  }

  function LastPhase(rows: seq<Row>): Option<Phase> { if rows == [] then None else Some(rows[|rows| - 1].phase) }

  /** Every line cites exactly what was written before it, and the phases follow one another. */
  ghost predicate Chained(rows: seq<Row>) {
    forall k :: 0 <= k < |rows| ==> rows[k].previous == (if k == 0 then None else Some(rows[..k])) && Follows(LastPhase(rows[..k]), rows[k].phase)
  }

  predicate Allowed(p: Phase, stage: bool, target: bool) {
    match p
    case Staged => stage && !target
    case Linked => target
    case Committed => !stage && target
    case RollbackIntent => true
    case RolledBack => !stage && !target
  }

  /** The disks that stopped installations and rollbacks leave behind. */
  ghost predicate Inv(d: Disk) {
    && Chained(d.rows) && d.links == Names(d)
    && (d.intent != Missing ==> d.directory) && (d.copy != Missing ==> d.intent == Whole)
    && (d.rows == [] ==> !d.target && (d.stage != Missing ==> d.copy == Whole) && (d.torn ==> d.stage == Whole))
    && (d.rows != [] ==> d.directory && d.intent == Whole && d.copy == Whole && d.stage != Partial)
    && (d.rows != [] ==> var p := d.rows[|d.rows| - 1].phase; Allowed(p, d.stage == Whole, d.target) || (p == Staged && d.stage == Whole && d.target))
  }

  /** What a rollback needs to find. An interrupted link, which the receipt does not know of yet,
      is the one whole state it turns down. */
  predicate Resumable(d: Disk) {
    && !d.torn && d.rows != [] && d.rows[|d.rows| - 1].phase != RolledBack
    && Allowed(d.rows[|d.rows| - 1].phase, d.stage == Whole, d.target)
  }

  /** Nothing of an installation is there. */
  predicate Clean(d: Disk) { !d.directory && d.stage == Missing && !d.target }

  /** The helper is installed under its one final name, or gone under both. */
  predicate Complete(d: Disk) {
    !d.torn && LastPhase(d.rows) == Some(Committed) && d.links == 1 && d.target && d.stage == Missing
  }

  predicate Gone(d: Disk) {
    !d.torn && LastPhase(d.rows) == Some(RolledBack) && d.links == 0 && !d.target && d.stage == Missing
  }

  /** The host passes the first `n` checks. */
  ghost predicate Meets(host: nat -> bool, n: nat) { forall i: nat :: i < n ==> host(i) }

  /** What the first refused check of an installation leaves. */
  ghost predicate HalfInstalled(host: nat -> bool, before: Disk, d: Disk) {
    if !host(0) then d == before
    else if !host(1) then !d.torn && LastPhase(d.rows) == Some(Staged) && d.stage == Whole && !d.target
    else !host(2) && !d.torn && LastPhase(d.rows) == Some(Linked) && d.stage == Missing && d.target
  }

  /** What the first refused check of a rollback leaves: before the second one only the intent is
      written, and before the third one both names are gone. */
  ghost predicate HalfRemoved(host: nat -> bool, before: Disk, d: Disk) {
    if !host(0) then d == before
    else if !host(1) then
      !d.torn && LastPhase(d.rows) == Some(RollbackIntent) && d.stage == before.stage && d.target == before.target
    else !host(2) && !d.torn && LastPhase(d.rows) == Some(RollbackIntent) && d.stage == Missing && !d.target
  }

  /** The writes of an installation up to and including the hard link. */
  const UNTIL_LINKED := 10

  datatype Mode = Install | Readback | Rollback

  datatype Status = Installed | Verified | TakenBack

  class Installer {
    var d: Disk
    /** Primitive writes left before the process stops, if it stops at all. */
    var stopAfter: Option<nat>
    /** Whether the host still looks as it should, check after check. */
    const host: nat -> bool
    var checks: nat
    /** The lines this process knows to be in the receipt. */
    var known: seq<Row>

    constructor (d: Disk, stopAfter: Option<nat>, host: nat -> bool)
      ensures this.d == d && this.stopAfter == stopAfter && this.host == host && checks == 0
    {
      this.d, this.stopAfter, this.host, checks, known := d, stopAfter, host, 0, [];
    }

    method Write(next: Disk) returns (r: Outcome<()>)
      modifies this`d, this`stopAfter
      ensures stopAfter.Some? <==> old(stopAfter).Some?
      ensures !r.Blocked? && (r.Interrupted? ==> old(stopAfter).Some?)
      ensures d == if r.Done? then next else old(d)
      ensures Spends(old(stopAfter), 1, r.Done?, stopAfter)
    {
      if stopAfter.Some? {
        if stopAfter.value == 0 { return Interrupted; }
        stopAfter := Some(stopAfter.value - 1);
      }
      d := next;
      r := Done(());
    }

    method Unchanged() returns (r: Outcome<()>)
      modifies this`checks
      ensures r == if host(old(checks)) then Done(()) else Blocked(HostRefused)
      ensures checks == old(checks) + 1
    {
      r := Need(host(checks), HostRefused);
      checks := checks + 1;
    }

    /** Appends one line, citing the digest of those before it. */
    method Save(phase: Phase) returns (r: Outcome<()>)
      requires Inv(d) && !d.torn && known == d.rows && Follows(LastPhase(d.rows), phase)
      requires d.directory && d.intent == Whole && d.copy == Whole && d.stage != Partial &&
        Allowed(phase, d.stage == Whole, d.target)
      requires d.rows == [] ==> d.stage == Whole
      modifies this`d, this`stopAfter, this`known
      ensures stopAfter.Some? <==> old(stopAfter).Some?
      ensures Inv(d) && !r.Blocked? && (r.Interrupted? ==> old(stopAfter).Some?)
      ensures !r.Done? ==> d == old(d).(torn := d.torn)
      ensures r.Done? ==> d == old(d).(rows := d.rows) && known == d.rows && LastPhase(d.rows) == Some(phase)
      ensures Spends(old(stopAfter), 2, r.Done?, stopAfter)
      ensures old(stopAfter) == Some(0) ==> d == old(d)
    {
      hide Inv;
      var row := Row(phase, if known == [] then None else Some(known));
      SaveKeeps(d, row);
      var _ :- Write(d.(torn := true));
      var _ :- Write(d.(rows := known + [row], torn := false));
      known := known + [row];
      return Done(());
    }

    /** load: the receipt must be whole, chained and in order. */
    method Load() returns (r: Outcome<()>)
      requires Inv(d)
      modifies this`known
      ensures r.Done? <==> d.directory && d.intent == Whole && d.copy == Whole && !d.torn && d.rows != []
      ensures r.Done? ==> known == d.rows
      ensures !r.Interrupted?
    {
      hide Inv;
      if !d.directory || d.intent != Whole || d.copy != Whole { return Blocked(UnknownBackup); }
      if d.torn || d.rows == [] { return Blocked(ReceiptSchema); }
      var prior: Option<seq<Row>>, last: Option<Phase> := None, None;
      ChainMeans(d);
      for k := 0 to |d.rows|
        invariant prior == (if k == 0 then None else Some(d.rows[..k])) && last == LastPhase(d.rows[..k])
      {
        assert d.rows[k].previous == prior && Follows(last, d.rows[k].phase);  // neither check can fail
        assert d.rows[..k + 1] == d.rows[..k] + [d.rows[k]];
        prior, last := Some(d.rows[..k + 1]), Some(d.rows[k].phase);
      }
      known := d.rows;
      r := Done(());
    }

    /** resources: the names on disk are those the last line allows. */
    method Resources() returns (r: Outcome<()>)
      requires d.rows != []
      ensures r.Done? <==> Allowed(d.rows[|d.rows| - 1].phase, d.stage == Whole, d.target)
      ensures !r.Interrupted?
    {
      r := Need(Allowed(d.rows[|d.rows| - 1].phase, d.stage == Whole, d.target), UnregisteredResource);
    }

    /** The backup directory, the intent, the reviewed copy and the staged helper. */
    method LayDown() returns (r: Outcome<()>)
      requires Inv(d) && !d.directory && d.stage == Missing && !d.target
      modifies this`d, this`stopAfter
      ensures stopAfter.Some? <==> old(stopAfter).Some?
      ensures Inv(d) && !r.Blocked? && (r.Interrupted? ==> old(stopAfter).Some?)
      ensures r.Done? ==> d == Disk(true, Whole, Whole, [], false, Whole, false, 1)
      ensures Spends(old(stopAfter), 7, r.Done?, stopAfter)
    {
      hide Chained;
      var _ :- Write(d.(directory := true));
      var _ :- Write(d.(intent := Partial));
      var _ :- Write(d.(intent := Whole));
      var _ :- Write(d.(copy := Partial));
      var _ :- Write(d.(copy := Whole));
      var _ :- Write(d.(stage := Partial, links := 1));
      var _ :- Write(d.(stage := Whole));
      return Done(());
    }

    /** Adds or removes one of the two names; `next` is the disk afterwards. */
    method Rename(next: Disk) returns (r: Outcome<()>)
      requires Inv(d) && d.rows != [] &&
        next == d.(stage := next.stage, target := next.target, links := Names(next)) && next.stage != Partial
      requires Allowed(d.rows[|d.rows| - 1].phase, next.stage == Whole, next.target) ||
        (d.rows[|d.rows| - 1].phase == Staged && next.stage == Whole && next.target)
      modifies this`d, this`stopAfter
      ensures stopAfter.Some? <==> old(stopAfter).Some?
      ensures Inv(d) && !r.Blocked? && (r.Interrupted? ==> old(stopAfter).Some?)
      ensures d == if r.Done? then next else old(d)
      ensures Spends(old(stopAfter), 1, r.Done?, stopAfter)
    {
      hide Chained, Allowed;
      r := Write(next);
    }

    /** The hard link, its line, and the end of the staged name. */
    method Link() returns (r: Outcome<()>)
      requires Inv(d) && !d.torn && known == d.rows && LastPhase(d.rows) == Some(Staged) && d.stage == Whole &&
        !d.target
      modifies this`d, this`stopAfter, this`known
      ensures stopAfter.Some? <==> old(stopAfter).Some?
      ensures Inv(d) && !r.Blocked? && (r.Interrupted? ==> old(stopAfter).Some?)
      ensures r.Done? ==>
        d == old(d).(rows := d.rows, stage := Missing, target := true, links := 1) &&
        known == d.rows && LastPhase(d.rows) == Some(Linked)
      ensures old(stopAfter) == Some(1) ==> d == old(d).(target := true, links := 2)
    {
      hide Inv;
      RollbackMeans(d);
      var _ :- Rename(d.(target := true, links := 2));
      var _ :- Save(Linked);
      var _ :- Rename(d.(stage := Missing, links := 1));
      return Done(());
    }

    /** Removes the staged name and then the final one, as far as they are there. */
    method Unname() returns (r: Outcome<()>)
      requires Inv(d) && LastPhase(d.rows) == Some(RollbackIntent)
      modifies this`d, this`stopAfter
      ensures stopAfter.Some? <==> old(stopAfter).Some?
      ensures Inv(d) && !r.Blocked? && (r.Interrupted? ==> old(stopAfter).Some?)
      ensures d == old(d).(stage := d.stage, target := d.target, links := d.links)
      ensures r.Done? ==> d.stage == Missing && !d.target && d.links == 0
    {
      hide Inv;
      RollbackMeans(d);
      if d.stage == Whole { var _ :- Rename(d.(stage := Missing, links := if d.target then 1 else 0)); }
      if d.target { var _ :- Rename(d.(target := false, links := 0)); }
      RollbackMeans(d);
      return Done(());
    }

    /** Installs the helper unless something of an installation is there already. A host that
        refuses one of the three checks stops it at that point. */
    method InstallHelper() returns (r: Outcome<Status>)
      requires Inv(d) && checks == 0
      modifies this
      ensures stopAfter.Some? <==> old(stopAfter).Some?
      ensures Inv(d) && (r.Interrupted? ==> old(stopAfter).Some?)
      ensures !Clean(old(d)) ==> r == Blocked(ExistingInstallState) && d == old(d)
      ensures Clean(old(d)) && r.Blocked? ==> r == Blocked(HostRefused) && HalfInstalled(host, old(d), d)
      ensures r.Done? ==> r.value == Installed && Clean(old(d)) && Meets(host, 3) && Complete(d)
      ensures Clean(old(d)) && Meets(host, 3) && old(stopAfter) == Some(UNTIL_LINKED) ==>
        !d.torn && LastPhase(d.rows) == Some(Staged) && d.stage == Whole && d.target
    {
      hide Inv;
      if d.target || d.stage != Missing || d.directory { return Blocked(ExistingInstallState); }
      var ok := Unchanged();
      if !ok.Done? { return ok.PropagateFailure(); }
      known := [];
      var _ :- LayDown();
      var _ :- Save(Staged);
      ok := Unchanged();
      if !ok.Done? { return ok.PropagateFailure(); }
      var _ :- Link();
      ok := Unchanged();
      if !ok.Done? { return ok.PropagateFailure(); }
      var _ :- Save(Committed);
      return Done(Installed);
    }

    method ReadbackHelper() returns (r: Outcome<Status>)
      requires Inv(d) && checks == 0
      modifies this`known, this`checks
      ensures !r.Interrupted?
      ensures r == Done(Verified) <==> Resumable(d) && LastPhase(d.rows) == Some(Committed) && host(0)
      ensures r.Done? ==> r.value == Verified
    {
      hide Inv;
      RollbackMeans(d);
      var _ :- Load();
      var _ :- Resources();
      var _ :- Unchanged();
      if known[|known| - 1].phase != Committed { return Blocked(InstallationNotCommitted); }
      return Done(Verified);
    }

    /** Takes the helper back, from exactly the resumable disks; any other it leaves as it was. A
        host that refuses one of the three checks stops it at that point. */
    method RollbackHelper() returns (r: Outcome<Status>)
      requires Inv(d) && checks == 0
      modifies this
      ensures stopAfter.Some? <==> old(stopAfter).Some?
      ensures Inv(d) && (r.Interrupted? ==> old(stopAfter).Some?)
      ensures !Resumable(old(d)) ==> r.Blocked? && d == old(d)
      ensures Resumable(old(d)) && r.Blocked? ==> r == Blocked(HostRefused) && HalfRemoved(host, old(d), d)
      ensures r.Done? ==> r.value == TakenBack && Resumable(old(d)) && Meets(host, 3) && Gone(d)
      ensures Resumable(old(d)) && LastPhase(old(d).rows) == Some(RollbackIntent) && !d.torn && !r.Done? ==>
        Resumable(d) && LastPhase(d.rows) == Some(RollbackIntent)
    {
      hide Inv;
      RollbackMeans(d);
      var _ :- Load();
      var _ :- Resources();
      var ok := Unchanged();
      if !ok.Done? { return ok.PropagateFailure(); }
      if known[|known| - 1].phase == RolledBack { return Blocked(AlreadyRolledBack); }
      if known[|known| - 1].phase != RollbackIntent { var _ :- Save(RollbackIntent); }
      ok := Unchanged();
      if !ok.Done? { return ok.PropagateFailure(); }
      var _ :- Unname();
      ok := Unchanged();
      if !ok.Done? { return ok.PropagateFailure(); }
      var _ :- Save(RolledBack);
      return Done(TakenBack);
    }

  }

  lemma ChainMeans(d: Disk)
    requires Inv(d)
    ensures forall k :: 0 <= k < |d.rows| ==>
      d.rows[k].previous == (if k == 0 then None else Some(d.rows[..k])) &&
      Follows(LastPhase(d.rows[..k]), d.rows[k].phase)
  {
  }

  /** What the invariant says about a disk with a receipt. */
  lemma RollbackMeans(d: Disk)
    requires Inv(d)
    ensures d.links == Names(d)
    ensures d.rows != [] ==> d.directory && d.intent == Whole && d.copy == Whole && d.stage != Partial
  {
  }

  /** Which disks a rollback turns down: those without a whole line, with a torn one, taken back
      already, or with both names but no line that says so. */
  lemma ResumableIff(d: Disk)
    requires Inv(d)
    ensures Resumable(d) <==>
      d.rows != [] && !d.torn && LastPhase(d.rows) != Some(RolledBack) && !(LastPhase(d.rows) == Some(Staged) && d.target)
  {
    hide Chained;
  }

  lemma SaveKeeps(d: Disk, row: Row)
    requires Inv(d) && !d.torn && Follows(LastPhase(d.rows), row.phase) &&
      row.previous == if d.rows == [] then None else Some(d.rows)
    requires d.directory && d.intent == Whole && d.copy == Whole && d.stage != Partial &&
      Allowed(row.phase, d.stage == Whole, d.target)
    requires d.rows == [] ==> d.stage == Whole
    ensures Inv(d.(torn := true)) && Inv(d.(rows := d.rows + [row], torn := false))
  {
    ChainedNext(d.rows, row);
    hide Chained, Follows;
  }

  lemma ChainedNext(rows: seq<Row>, row: Row)
    requires Chained(rows) && Follows(LastPhase(rows), row.phase) && row.previous == if rows == [] then None
      else Some(rows)
    ensures Chained(rows + [row])
  {
    var next := rows + [row];
    forall k | 0 <= k < |next| ensures next[..k] == rows[..k] {}
    assert rows[..|rows|] == rows;
  }

  datatype Attempt = Attempt(mode: Mode, stopAfter: Option<nat>, host: nat -> bool)

  /** What one run makes of the disk `d`, stopped or not, on any host, and what it reports. */
  ghost predicate Ran(a: Attempt, d: Disk, e: Disk, r: Outcome<Status>) {
    && (r.Interrupted? ==> a.stopAfter.Some?)
    && match a.mode
       case Install =>
         && (!Clean(d) ==> r == Blocked(ExistingInstallState) && e == d)
         && (Clean(d) && r.Blocked? ==> r == Blocked(HostRefused) && HalfInstalled(a.host, d, e))
         && (r.Done? ==> r.value == Installed && Clean(d) && Meets(a.host, 3) && Complete(e))
       case Readback =>
         && e == d && !r.Interrupted? && (r.Done? ==> r.value == Verified)
         && (r.Done? <==> Resumable(d) && LastPhase(d.rows) == Some(Committed) && a.host(0))
       case Rollback =>
         && (!Resumable(d) ==> r.Blocked? && e == d)
         && (Resumable(d) && r.Blocked? ==> r == Blocked(HostRefused) && HalfRemoved(a.host, d, e))
         && (r.Done? ==> r.value == TakenBack && Resumable(d) && Meets(a.host, 3) && Gone(e))
         && (Resumable(d) && LastPhase(d.rows) == Some(RollbackIntent) && !r.Done? && !e.torn ==>
           Resumable(e) && LastPhase(e.rows) == Some(RollbackIntent))
  }

  /** A run that is not stopped does its work exactly when the disk and the host permit it. */
  lemma UnstoppedRan(a: Attempt, d: Disk, e: Disk, r: Outcome<Status>)
    requires a.stopAfter.None? && Ran(a, d, e, r)
    ensures a.mode.Install? ==> (r == Done(Installed) <==> Clean(d) && Meets(a.host, 3))
    ensures a.mode.Rollback? ==> (r == Done(TakenBack) <==> Resumable(d) && Meets(a.host, 3))
  {
    hide Resumable, Complete, Gone;
  }

  method Perform(d: Disk, a: Attempt) returns (e: Disk, r: Outcome<Status>)
    requires Inv(d)
    ensures Inv(e) && Ran(a, d, e, r)
  {
    hide Inv, Resumable;
    var installer := new Installer(d, a.stopAfter, a.host);
    match a.mode {
      case Install => r := installer.InstallHelper();
      case Readback => r := installer.ReadbackHelper();
      case Rollback => r := installer.RollbackHelper();
    }
    e := installer.d;
  }

  /** However often installation, readback and rollback are started and stopped, the receipt
      between whole lines is one that the loader accepts, and the inode has exactly as many links
      as it has names; `disks` are the disks before and after each run. */
  method History(attempts: seq<Attempt>) returns (disks: seq<Disk>, results: seq<Outcome<Status>>)
    ensures |disks| == |attempts| + 1 && |results| == |attempts| &&
      disks[0] == Disk(false, Missing, Missing, [], false, Missing, false, 0)
    ensures forall n :: 0 <= n <= |attempts| ==> Inv(disks[n]) && disks[n].links == Names(disks[n])
    ensures forall n :: 0 <= n < |attempts| ==> Ran(attempts[n], disks[n], disks[n + 1], results[n])
  {
    var d := Disk(false, Missing, Missing, [], false, Missing, false, 0);
    disks, results := [d], [];
    assert Inv(d);
    hide Inv, Ran;
    RollbackMeans(d);
    for i := 0 to |attempts|
      invariant |disks| == i + 1 && |results| == i && disks[i] == d &&
        disks[0] == Disk(false, Missing, Missing, [], false, Missing, false, 0)
      invariant forall n :: 0 <= n <= i ==> Inv(disks[n]) && disks[n].links == Names(disks[n])
      invariant forall n :: 0 <= n < i ==> Ran(attempts[n], disks[n], disks[n + 1], results[n])
    {
      var e, r := Perform(d, attempts[i]);
      RollbackMeans(e);
      disks, results, d := disks + [e], results + [r], e;
    }
  }

  /** Once the intent to roll back is on disk, any number of stopped rollbacks can be followed by
      one that removes both names, unless one of them stopped in the middle of its last line. */
  method FinishRollback(d: Disk, stops: seq<nat>, host: nat -> bool)
    returns (disks: seq<Disk>, results: seq<Outcome<Status>>, e: Disk, r: Outcome<Status>)
    requires Inv(d) && Resumable(d) && LastPhase(d.rows) == Some(RollbackIntent) && forall i: nat :: host(i)
    ensures |disks| == |stops| + 1 && |results| == |stops| && disks[0] == d
    ensures forall n :: 0 <= n < |stops| ==>
      Ran(Attempt(Rollback, Some(stops[n]), host), disks[n], disks[n + 1], results[n])
    ensures Ran(Attempt(Rollback, None, host), disks[|stops|], e, r)
    ensures r.Done? || disks[|stops|].torn || exists n :: 0 <= n < |stops| && results[n].Done?
    ensures r.Done? ==> e.links == 0 && !e.target && e.stage == Missing && LastPhase(e.rows) == Some(RolledBack)
  {
    hide Inv;
    disks, results, e := [d], [], d;
    ghost var finished := false;
    for i := 0 to |stops|
      invariant |disks| == i + 1 && |results| == i && disks[0] == d && disks[i] == e && Inv(e)
      invariant forall n :: 0 <= n < i ==>
        Ran(Attempt(Rollback, Some(stops[n]), host), disks[n], disks[n + 1], results[n])
      invariant e.torn || (exists n :: 0 <= n < i && results[n].Done?) ||
        (Resumable(e) && LastPhase(e.rows) == Some(RollbackIntent))
    {
      ghost var earlier := results;
      var next, q := Perform(e, Attempt(Rollback, Some(stops[i]), host));
      disks, results, e := disks + [next], results + [q], next;
      assert forall n :: 0 <= n < i ==> results[n] == earlier[n];
      if q.Done? { assert results[i].Done?; }
    }
    e, r := Perform(e, Attempt(Rollback, None, host));
    RollbackMeans(e);
  }

  /** A concrete stop between the hard link and its line: everything is whole, and no rollback
      will ever take the helper back. */
  method StrandedHelper(host: nat -> bool) returns (r: Outcome<Status>)
    requires forall i: nat :: host(i)
    ensures r.Blocked?
  {
    var installer := new Installer(Disk(false, Missing, Missing, [], false, Missing, false, 0), Some(UNTIL_LINKED), host);
    var _ := installer.InstallHelper();
    assert !Resumable(installer.d);
    var left, q := Perform(installer.d, Attempt(Rollback, None, host));
    r := q;
  }
}
