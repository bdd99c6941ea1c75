/** Promotion and rollback of one release, stopped anywhere
    (ops/c2/publisher-promotion.py, class Transaction). */
module Promotion {
  import opened Outcomes
  import opened PromotionWorld

  /** The disk, with the history of everything that ever happened to it. */
  class Durable {
    var world: World
    var stopAfter: Option<nat>
    ghost var log: seq<World>
    /** Every complete release installed or proposed so far. */
    ghost var whole: set<Release>

    /** A disk as it was found. */
    constructor (world: World, ghost whole: set<Release>)
      requires Inv(world, whole)
      ensures Valid() && this.world == world && log == [world] && stopAfter == None && this.whole == whole
    {
      this.world, stopAfter, log, this.whole := world, None, [world], whole;
    }

    ghost predicate Valid()
      reads this
    {
      |log| > 0 && log[|log| - 1] == world && AllowedLog(log, whole) && Inv(world, whole)
    }

    /** The state this disk had before, with more history: guarded writes and nothing else. */
    twostate predicate Extends()
      reads this
    {
      && Valid() && old(whole) <= whole && 0 < old(|log|) && old(log) <= log
      && (forall i :: old(|log|) - 1 <= i < |log| - 1 ==> Guarded(log[i], log[i + 1], whole))
      && (stopAfter.Some? <==> old(stopAfter).Some?)
    }

    /** One primitive durable write, or the end of the process. */
    method Write(next: World) returns (r: Outcome<()>)
      requires Valid() && Guarded(world, next, whole) && Inv(next, whole)
      modifies this
      ensures Extends() && whole == old(whole)
      ensures !r.Blocked? && (r.Interrupted? ==> stopAfter.Some? && world == old(world))
      ensures r.Done? ==> world == next
      ensures Spends(old(stopAfter), 1, r.Done?, stopAfter)
    {
      hide Inv, Guarded, AllowedLog;
      if stopAfter.Some? {
        if stopAfter.value == 0 { return Interrupted; }
        stopAfter := Some(stopAfter.value - 1);
      }
      LogGrows(log, next, whole);
      world := next;
      log := log + [next];
      return Done(());
    }

    /** Services that passed the gate add to the ledger. */
    method Serve(ledger: nat)
      requires Valid() && world.interlock.None?
      modifies this
      ensures Valid() && whole == old(whole) && world == old(world).(ledger := ledger)
      ensures log == old(log) + [world] && stopAfter == old(stopAfter)
    {
      var next := world.(ledger := ledger);
      LogGrows(log, next, whole);
      world := next;
      log := log + [next];
    }

    /** A verified candidate joins the complete releases before anything of it is installed. */
    ghost method Propose(r: Release)
      requires Valid() && WellFormed(r) && CodecApproved(r)
      modifies this`whole
      ensures Extends() && whole == old(whole) + {r}
    {
      whole := whole + {r};
      WiderInv(world, old(whole), whole);
      forall i | 0 <= i < |log| - 1 ensures Allowed(log[i], log[i + 1], whole) {
        assert Allowed(log[i], log[i + 1], old(whole));
      }
    }
  }

  lemma WiderInv(w: World, whole: set<Release>, wider: set<Release>)
    requires Inv(w, whole) && whole <= wider && forall r :: r in wider ==> WellFormed(r) && CodecApproved(r)
    ensures Inv(w, wider)
  {
  }

  /** Everything the host is asked: idle services, wiring, provenance, Git, disk space. */
  class Host {
    const permits: nat -> bool
    var calls: nat

    constructor (permits: nat -> bool)
      ensures this.permits == permits && calls == 0
    {
      this.permits, calls := permits, 0;
    }

    ghost predicate Steady() { forall i: nat :: permits(i) }

    /** It permits the `n` checks from number `c` on. */
    ghost predicate Passes(c: nat, n: nat) { forall i :: c <= i < c + n ==> permits(i) }

    /** The last of the checks from number `c` on is the first it has refused. */
    ghost predicate Stopped(c: nat)
      reads this
    {
      c < calls && Passes(c, calls - c - 1) && !permits(calls - 1)
    }

    method Check() returns (r: Outcome<()>)
      modifies this`calls
      ensures calls == old(calls) + 1 && !r.Interrupted? && (r.Done? <==> permits(old(calls)))
    {
      r := Need(permits(calls), HostRefused);
      calls := calls + 1;
    }
  }

  class Transaction {
    const disk: Durable
    const host: Host

    constructor (disk: Durable, host: Host)
      ensures this.disk == disk && this.host == host
    {
      this.disk, this.host := disk, host;
    }

    /** `journal`: publish the interlock the first time, replace it afterwards. */
    method Journal(j: Journal) returns (r: Outcome<()>)
      requires disk.Valid() && InterlockInv(disk.world, Interlock(j, 1), disk.whole)
      modifies disk
      ensures disk.Extends() && disk.whole == old(disk.whole)
      ensures r.Interrupted? ==> disk.stopAfter.Some?
      ensures r.Blocked? <==> old(disk.world.interlock.Some? && disk.world.interlock.value.links != 1)
      ensures disk.world == old(disk.world).(interlock := disk.world.interlock)
      ensures r.Done? ==> disk.world.interlock == Some(Interlock(j, 1))
      ensures !r.Done? && old(disk.world.interlock.Some?) ==> disk.world == old(disk.world)
      ensures !r.Blocked? ==>
        Spends(old(disk.stopAfter), if old(disk.world.interlock.None?) then 2 else 1, r.Done?, disk.stopAfter)
    {
      hide Inv, InterlockInv, AllowedLog;
      JournalFits(disk.world, j, disk.whole);
      if disk.world.interlock.None? {
        var _ :- disk.Write(disk.world.(interlock := Some(Interlock(j, 2))));
      } else if disk.world.interlock.value.links != 1 {
        return Blocked(RootFile);
      }
      var _ :- disk.Write(disk.world.(interlock := Some(Interlock(j, 1))));
      return Done(());
    }

    /** `write` inside the directory of the transaction, never over an existing name: a temporary
        file, its link to the final name, and its removal. */
    method Place(identity: nat, next: Directory) returns (r: Outcome<()>)
      requires disk.Valid() && identity in disk.world.releases && Fits(disk.world, identity, next, disk.whole)
      requires Fits(disk.world, identity, disk.world.releases[identity], disk.whole) &&
        next.pending == disk.world.releases[identity].pending
      modifies disk
      ensures disk.Extends() && disk.whole == old(disk.whole)
      ensures !r.Blocked? && (r.Interrupted? ==> disk.stopAfter.Some?)
      ensures identity in disk.world.releases &&
        disk.world == old(disk.world).(releases := old(disk.world).releases[identity := disk.world.releases[identity]])
      ensures r.Done? ==> disk.world.releases[identity] == next
      ensures !r.Done? ==>
        disk.world.releases[identity] in {old(disk.world).releases[identity], Cut(old(disk.world).releases[identity]), Cut(next)}
      ensures Spends(old(disk.stopAfter), 3, r.Done?, disk.stopAfter)
      ensures old(disk.stopAfter) == Some(1) ==>
        disk.world.releases[identity] == Cut(old(disk.world).releases[identity])
    {
      hide Inv, Fits;
      ghost var before := disk.world;
      var d := disk.world.releases[identity];
      PlaceKeepsInv(before, identity, d, next, disk.whole);
      var _ :- disk.Write(disk.world.(releases := disk.world.releases[identity := Cut(d)]));
      assert before.releases[identity := Cut(d)][identity := Cut(next)] == before.releases[identity := Cut(next)];
      var _ :- disk.Write(disk.world.(releases := disk.world.releases[identity := Cut(next)]));
      assert before.releases[identity := Cut(next)][identity := next] == before.releases[identity := next];
      var _ :- disk.Write(disk.world.(releases := disk.world.releases[identity := next]));
      return Done(());
    }

    // ----- rollback -----

    /** Copy the backups over the files that differ from them. */
    method RestoreFiles(j: Journal, backups: seq<Content>) returns (r: Outcome<()>)
      requires disk.Valid() && disk.world.interlock == Some(Interlock(j, 1)) && j.targets != []
      requires backups == OldRelease(j).files && |backups| == TARGETS
      modifies disk
      ensures disk.Extends() && disk.whole == old(disk.whole)
      ensures !r.Blocked? && (r.Interrupted? ==> disk.stopAfter.Some?)
      ensures disk.world == old(disk.world).(live := disk.world.live) &&
        disk.world.live.publisher == old(disk.world.live.publisher)
      ensures r.Done? ==> disk.world.live.files == backups
    {
      hide AllowedLog;
      for i := 0 to TARGETS
        invariant disk.Extends() && disk.whole == old(disk.whole)
        invariant disk.world == old(disk.world).(live := disk.world.live) &&
          disk.world.live.publisher == old(disk.world.live.publisher)
        invariant forall k :: 0 <= k < i ==> disk.world.live.files[k] == backups[k]
      {
        if disk.world.live.files[i] != backups[i] {
          FileKeepsInv(disk.world, j, i, backups[i], disk.whole);
          var _ :- disk.Write(disk.world.(live := disk.world.live.(files := disk.world.live.files[i := backups[i]])));
        }
      }
      return Done(());
    }

    /** Journal `rolled_back`, leave rollback.json (never over an existing one) and lift the interlock. */
    method Finish(j: Journal) returns (r: Outcome<()>)
      requires disk.Valid() && disk.world.interlock == Some(Interlock(j, 1)) && j.targets != []
      requires disk.world.live == OldRelease(j)
      modifies disk
      ensures disk.Extends() && disk.whole == old(disk.whole)
      ensures disk.world.live == OldRelease(j)
      ensures r.Interrupted? ==> disk.stopAfter.Some?
      ensures r.Blocked? ==> r.code == NoClobber && old(disk.world.releases[j.identity].rollback.Some?)
      ensures r.Done? ==>
        old(disk.world.releases[j.identity].rollback.None?) && disk.world == RolledBackTo(old(disk.world), j)
      ensures disk.world.interlock.None? ==> r.Done?
    {
      hide Inv, InterlockInv, AllowedLog, Fits;
      var done := j.(phase := RolledBack);
      SameEnds(done, j);
      DoneFits(disk.world, j, disk.whole);
      var _ :- Journal(done);
      var d := disk.world.releases[j.identity];
      if d.rollback.Some? { return Blocked(NoClobber); }
      RollbackFits(disk.world, done, disk.whole);
      var _ :- Place(j.identity, d.(rollback := Some(done)));
      LiftFits(disk.world, done, disk.whole);
      assert disk.world.interlock == Some(Interlock(done, 1));  // remove_owned finds its own bytes
      var _ :- disk.Write(disk.world.(interlock := None));
      return Done(());
    }

    /** Put the old checkout and the old files back, record it and lift the interlock. The
        caller holds the exclusive locks and `j` is the published interlock. */
    method Rollback(j: Journal) returns (r: Outcome<()>)
      requires disk.Valid() && disk.world.interlock == Some(Interlock(j, 1))
      modifies disk, host`calls
      ensures disk.Extends() && disk.whole == old(disk.whole)
      ensures r.Interrupted? ==> disk.stopAfter.Some?
      ensures r.Done? ==>
        old(RollbackReady(disk.world)) && host.Passes(old(host.calls), RollbackChecks(old(disk.world), j))
      ensures old(disk.stopAfter.None? && RollbackReady(disk.world)) ==>
        host.Passes(old(host.calls), RollbackChecks(old(disk.world), j)) ==> r.Done?
      ensures !host.Passes(old(host.calls), RollbackChecks(old(disk.world), j)) ==>
        r.Blocked? && disk.world == old(disk.world)
      ensures r.Done? ==> disk.world == RolledBackTo(old(disk.world), j)
      ensures !r.Done? ==> disk.world.interlock.Some?
      // without a full backup, or off a custodian nobody approves, it refuses before its first write
      ensures old(j.targets == [] || !CodecApproved(disk.world.live)) ==>
        r.Blocked? && disk.world == old(disk.world)
      // with rollback.json already there it can only leave the restored state as it is
      ensures old(j.targets != [] && disk.world.releases[j.identity].rollback.Some?) ==>
        disk.world.live == OldRelease(j)
    {
      hide AllowedLog, RecordsFit, OthersEnded;
      if |j.targets| != TARGETS { return Blocked(UnknownTransaction); }
      var ledger :- Invariants(disk.world);
      assert ledger == j.ledger;  // rollback_state_changed cannot fail
      var _ :- host.Check();
      assert disk.world.live.publisher in {j.oldPublisher, j.newPublisher};  // nor unknown_publisher
      var backups := disk.world.releases[j.identity].backups;
      assert backups == OldRelease(j).files;  // nor unknown_backup, unknown_partial_state
      if disk.world.live.publisher != j.oldPublisher {
        var _ :- host.Check();
        SwitchKeepsInv(disk.world, j, j.oldPublisher, disk.whole);
        var _ :- disk.Write(disk.world.(live := disk.world.live.(publisher := j.oldPublisher)));
      }
      var _ :- RestoreFiles(j, backups);
      assert disk.world.live == OldRelease(j);
      assert Invariants(disk.world) == Done(j.ledger);  // the second reading agrees
      r := Finish(j);
    }

    /** `--rollback-interrupted` */
    method RollbackInterrupted() returns (r: Outcome<()>)
      requires disk.Valid()
      modifies disk, host`calls
      ensures disk.Extends() && disk.whole == old(disk.whole)
      ensures r.Interrupted? ==> disk.stopAfter.Some?
      ensures host.Steady() && old(disk.stopAfter).None? ==> (r.Done? <==> old(RollbackReady(disk.world)))
      ensures r.Done? ==>
        old(RollbackReady(disk.world)) &&
        disk.world == RolledBackTo(old(disk.world), old(disk.world).interlock.value.journal)
      // on any host: it needs its checks, and a refused one leaves everything as it is
      ensures old(RollbackReady(disk.world)) ==>
        var n := RollbackChecks(old(disk.world), old(disk.world).interlock.value.journal);
        && (old(disk.stopAfter).None? ==> (r.Done? <==> host.Passes(old(host.calls), n)))
        && (!host.Passes(old(host.calls), n) ==> r.Blocked? && disk.world == old(disk.world))
      ensures !r.Done? ==> disk.world.interlock.Some? == old(disk.world.interlock.Some?)
      ensures old(disk.world.interlock.None?) ==> disk.world == old(disk.world)
    {
      if disk.world.interlock.None? || disk.world.interlock.value.links != 1 { return Blocked(RootFile); }
      r := Rollback(disk.world.interlock.value.journal);
    }

    // ----- promote -----

    /** Stage the release: back every live file up, then journal that the backup is complete. */
    method Stage(identity: nat, candidate: Release) returns (r: Outcome<()>, j: Journal)
      requires disk.Valid() && WellFormed(candidate) && candidate in disk.whole && WellFormed(disk.world.live)
      requires disk.world.interlock == Some(Interlock(Opening(identity, disk.world, candidate), 1)) &&
        disk.world.live in disk.whole
      requires identity !in disk.world.releases
      modifies disk
      ensures disk.Extends() && disk.whole == old(disk.whole)
      ensures disk.world == old(disk.world).(interlock := disk.world.interlock,
        releases := disk.world.releases) && disk.world.interlock.Some?
      ensures r.Interrupted? ==> disk.stopAfter.Some?
      ensures !r.Blocked? && Spends(old(disk.stopAfter), STAGING, r.Done?, disk.stopAfter)
      ensures r.Done? ==>
        j == Complete(Opening(identity, old(disk.world), candidate), disk.world.live, candidate)
      ensures r.Done? ==>
        Staged(disk.world, j, candidate) &&
        disk.world.releases == old(disk.world.releases)[identity := Directory(disk.world.live.files, 0, None, None, 0)]
    {
      hide Inv, InterlockInv, AllowedLog, Fits;
      j := disk.world.interlock.value.journal;
      var opening := j;
      NewDirectoryFits(disk.world, identity, [], disk.whole);
      var _ :- disk.Write(disk.world.(releases := disk.world.releases[identity := Directory([], 0, None, None, 0)]));
      for i := 0 to TARGETS
        invariant disk.Extends() && disk.whole == old(disk.whole)
        invariant disk.world == old(disk.world).(releases := disk.world.releases) && j == opening
        invariant Spends(old(disk.stopAfter), 1 + 3 * i, true, disk.stopAfter)
        invariant disk.world.releases == old(disk.world.releases)[identity := Directory(disk.world.live.files[..i], 0, None, None, 0)]
      {
        var backups := disk.world.releases[identity].backups + [disk.world.live.files[i]];
        assert backups == disk.world.live.files[..i + 1];
        NewDirectoryFits(disk.world, identity, disk.world.live.files[..i], disk.whole);
        NewDirectoryFits(disk.world, identity, backups, disk.whole);
        var _ :- Place(identity, Directory(backups, 0, None, None, 0));
      }
      j := Complete(opening, disk.world.live, candidate);
      CompleteRecords(opening, disk.world.live, candidate);
      assert disk.world.live.files[..TARGETS] == disk.world.live.files;
      CompleteFits(disk.world, opening, candidate, disk.whole);
      var _ :- Journal(j);
      return Done(()), j;
    }

    /** Switch the checkout to the candidate's commit. */
    method SwitchCheckout(started: Journal, candidate: Release) returns (r: Outcome<()>, j: Journal)
      requires disk.Valid() && Staged(disk.world, started, candidate)
      requires disk.world.live == OldRelease(started)
      modifies disk, host`calls
      ensures disk.Extends() && disk.whole == old(disk.whole)
      ensures SameTransaction(started, j) && disk.world.interlock.Some? &&
        disk.world.releases == old(disk.world.releases) && disk.world.last == old(disk.world.last)
      ensures r.Interrupted? ==> disk.stopAfter.Some?
      ensures !r.Interrupted? ==> Staged(disk.world, j, candidate)
      ensures r.Done? ==>
        host.calls == old(host.calls) + SwitchChecks(started) &&
        host.Passes(old(host.calls), SwitchChecks(started))
      ensures r.Blocked? ==>
        SwitchChecks(started) == 1 && host.calls == old(host.calls) + 1 && !host.permits(old(host.calls))
      ensures r.Blocked? ==> disk.world.live == OldRelease(started)
      ensures r.Done? ==> disk.world.live == OldRelease(started).(publisher := candidate.publisher)
      ensures host.Steady() ==> Spends(old(disk.stopAfter), SwitchWrites(started), r.Done?, disk.stopAfter)
    {
      hide Inv, InterlockInv, AllowedLog;
      j := started.(phase := Switching);
      var _ :- Advance(j, candidate);
      if started.oldPublisher != started.newPublisher {
        var permitted := host.Check();
        if !permitted.Done? { return permitted, j; }
        SwitchKeepsInv(disk.world, j, j.newPublisher, disk.whole);
        var _ :- disk.Write(disk.world.(live := disk.world.live.(publisher := j.newPublisher)));
      }
      j := j.(phase := Publisher);
      var _ :- Advance(j, candidate);
      return Done(()), j;
    }

    /** The checkout, then the files. */
    method Install(started: Journal, candidate: Release) returns (r: Outcome<()>, j: Journal)
      requires disk.Valid() && Staged(disk.world, started, candidate)
      requires disk.world.live == OldRelease(started)
      modifies disk, host`calls
      ensures disk.Extends() && disk.whole == old(disk.whole)
      ensures SameTransaction(started, j) && disk.world.interlock.Some? &&
        disk.world.releases == old(disk.world.releases) && disk.world.last == old(disk.world.last)
      ensures r.Interrupted? ==> disk.stopAfter.Some?
      ensures r.Done? ==>
        host.calls == old(host.calls) + SwitchChecks(started) + FileChecks(started, TARGETS) &&
        host.Passes(old(host.calls), SwitchChecks(started) + FileChecks(started, TARGETS))
      ensures r.Blocked? ==>
        host.Stopped(old(host.calls)) &&
        Halts(started, candidate, host.calls - old(host.calls) - 1, disk.world.live)
      ensures !r.Interrupted? ==> Staged(disk.world, j, candidate)
      ensures r.Done? ==> disk.world.live == candidate
      ensures host.Steady() ==>
        forall i ::
        0 <= i < TARGETS && Replaced(started, i) &&
        old(disk.stopAfter) == Some(SwitchWrites(started) + FileWrites(started, i) + 1) ==>
        r.Interrupted? && MixedAt(disk.world, OldRelease(started), candidate, started.identity, i + 1)
    {
      hide Inv, InterlockInv, AllowedLog, MixedAt, Staged, HaltsAt, FileChecks, FileWrites, Replaced,
        OldRelease, NewRelease;
      r, j := SwitchCheckout(started, candidate);
      SameEnds(started, j);
      if !r.Done? { return; }
      var switched := j;
      SameWrites(started, switched);
      SameChecks(started, switched);
      SameHalts(started, switched, candidate);
      r, j := InstallFiles(switched, candidate);
      SameEnds(started, j);
    }

    /** Replace the files one after the other, journalling each. */
    method InstallFiles(started: Journal, candidate: Release) returns (r: Outcome<()>, j: Journal)
      requires disk.Valid() && Staged(disk.world, started, candidate)
      requires disk.world.live == OldRelease(started).(publisher := candidate.publisher)
      modifies disk, host`calls
      ensures disk.Extends() && disk.whole == old(disk.whole)
      ensures SameTransaction(started, j) && disk.world.interlock.Some? &&
        disk.world.releases == old(disk.world.releases) && disk.world.last == old(disk.world.last)
      ensures r.Interrupted? ==> disk.stopAfter.Some?
      ensures r.Done? ==>
        host.calls == old(host.calls) + FileChecks(started, TARGETS) &&
        host.Passes(old(host.calls), FileChecks(started, TARGETS))
      ensures r.Blocked? ==>
        host.Stopped(old(host.calls)) &&
        HaltsAt(started, candidate, host.calls - old(host.calls) - 1, disk.world.live)
      ensures !r.Interrupted? ==> Staged(disk.world, j, candidate)
      ensures r.Done? ==> disk.world.live == candidate
      ensures host.Steady() ==>
        forall i ::
        0 <= i < TARGETS && Replaced(started, i) && old(disk.stopAfter) == Some(FileWrites(started, i) + 1) ==>
        r.Interrupted? && MixedAt(disk.world, OldRelease(started), candidate, started.identity, i + 1)
    {
      hide Mixed, Inv, InterlockInv, AllowedLog, MixedAt, FileWrites, SwitchWrites, FileCost, FileChecks,
        FileCheck, Replaced, Staged,
        OldRelease, NewRelease;
      j := started;
      NoFileWrites(started);
      FileChecksNext(started, 0);
      StagedEnds(disk.world, j, candidate);
      MixedEnds(OldRelease(started), candidate);
      for i := 0 to TARGETS
        invariant disk.Extends() && disk.whole == old(disk.whole)
        invariant SameTransaction(started, j) && Staged(disk.world, j, candidate)
        invariant disk.world.releases == old(disk.world.releases) && disk.world.last == old(disk.world.last)
        invariant disk.world.live == Release(candidate.publisher, Mixed(OldRelease(started), candidate, i))
        invariant host.calls == old(host.calls) + FileChecks(started, i) &&
          host.Passes(old(host.calls), FileChecks(started, i))
        invariant host.Steady() ==> Spends(old(disk.stopAfter), FileWrites(started, i), true, disk.stopAfter)
      {
        SameSteps(started, j, i);
        FileWritesNext(started, i);
        FileChecksNext(started, i);
        MixedNext(OldRelease(started), candidate, i);
        if Replaced(started, i) { MixedNow(disk.world, j, OldRelease(started), candidate, i); }
        CutHere(started, i, old(disk.stopAfter), disk.stopAfter);
        r, j := InstallFile(j, i, candidate);
        assert r.Blocked? ==> HaltsBefore(started, candidate, i, host.calls - old(host.calls) - 1, disk.world.live);
        if !r.Done? { return; }
      }
      CutNowhere(started, old(disk.stopAfter), disk.stopAfter);
      StagedEnds(disk.world, j, candidate);
      return Done(()), j;
    }

    method InstallFile(started: Journal, i: nat, candidate: Release) returns (r: Outcome<()>, j: Journal)
      requires disk.Valid() && Staged(disk.world, started, candidate) && i < TARGETS
      requires disk.world.live.files[i] == OldRelease(started).files[i]
      modifies disk, host`calls
      ensures disk.Extends() && disk.whole == old(disk.whole)
      ensures SameTransaction(started, j) && disk.world.interlock.Some? &&
        disk.world.releases == old(disk.world.releases) && disk.world.last == old(disk.world.last)
      ensures r.Interrupted? ==> disk.stopAfter.Some?
      ensures r.Done? ==>
        host.calls == old(host.calls) + FileCheck(started, i) &&
        host.Passes(old(host.calls), FileCheck(started, i))
      ensures r.Blocked? ==>
        Replaced(started, i) && host.calls == old(host.calls) + 1 && !host.permits(old(host.calls))
      ensures r.Blocked? ==> disk.world.live == old(disk.world.live)
      ensures !r.Interrupted? ==> Staged(disk.world, j, candidate)
      ensures r.Done? ==>
        disk.world.live == old(disk.world.live).(files := old(disk.world.live.files)[i := candidate.files[i]])
      ensures host.Steady() ==> Spends(old(disk.stopAfter), FileCost(started, i), r.Done?, disk.stopAfter)
      ensures host.Steady() && Replaced(started, i) && old(disk.stopAfter) == Some(1) ==>
        disk.world == old(disk.world).(live := old(disk.world.live).(files := old(disk.world.live.files)[i := candidate.files[i]]))
    {
      j := started;
      assert disk.world.live.files[i] == j.targets[i].oldHash;  // live_identity_changed cannot fail
      assert candidate.files[i] == j.targets[i].newHash;
      if j.targets[i].oldHash != j.targets[i].newHash {
        var writable := host.Check();
        if !writable.Done? { return writable, j; }
        FileKeepsInv(disk.world, j, i, j.targets[i].newHash, disk.whole);
        var _ :- disk.Write(disk.world.(live := disk.world.live.(files := disk.world.live.files[i := j.targets[i].newHash])));
      }
      j := j.(phase := FileDone(i));
      var _ :- Advance(j, candidate);
      return Done(()), j;
    }

    /** Journal a later phase of the same transaction. */
    method Advance(j: Journal, ghost candidate: Release) returns (r: Outcome<()>)
      requires disk.Valid() && disk.world.interlock.Some? &&
        Staged(disk.world, disk.world.interlock.value.journal, candidate)
      requires SameTransaction(disk.world.interlock.value.journal, j)
      modifies disk
      ensures disk.Extends() && disk.whole == old(disk.whole)
      ensures !r.Blocked? && (r.Interrupted? ==> disk.stopAfter.Some? && disk.world == old(disk.world))
      ensures Spends(old(disk.stopAfter), 1, r.Done?, disk.stopAfter)
      ensures r.Done? ==>
        disk.world == old(disk.world).(interlock := Some(Interlock(j, 1))) && Staged(disk.world, j, candidate)
    {
      SameEnds(disk.world.interlock.value.journal, j);
      r := Journal(j);
    }

    /** Postflight, then the committed record, the receipt, the record of the last release and the
        end of the interlock. A record of the last release that was once cut before its unlink
        cannot be replaced any more. */
    method Commit(started: Journal, candidate: Release) returns (r: Outcome<()>, j: Journal)
      requires disk.Valid() && Staged(disk.world, started, candidate) && disk.world.live == candidate
      requires disk.world.releases[started.identity].receipt.None?
      modifies disk, host`calls
      ensures disk.Extends() && disk.whole == old(disk.whole)
      ensures SameTransaction(started, j) && disk.world.live == candidate
      ensures r.Interrupted? ==> disk.stopAfter.Some?
      ensures r.Done? ==> host.permits(old(host.calls))
      ensures host.calls == old(host.calls) + 1
      ensures r.Blocked? ==>
        !(host.permits(old(host.calls)) && old(LastReadable(disk.world))) && Staged(disk.world, j, candidate)
      ensures r.Done? ==>
        old(LastReadable(disk.world)) && disk.world == Committing(old(disk.world), j) &&
        j.phase == Phase.Committed
      ensures disk.world.interlock.None? ==> r.Done?
    {
      hide Inv, InterlockInv, AllowedLog, Fits, RecordsFit;
      j := started;
      var checked := host.Check();
      if !checked.Done? { return checked, j; }
      assert Invariants(disk.world) == Done(j.ledger) by { StagedFacts(disk.world, started, candidate, disk.whole); }  // postflight_mismatch cannot fail here
      j := j.(phase := Phase.Committed);
      var _ :- Advance(j, candidate);
      var d := disk.world.releases[j.identity];
      ReceiptFits(disk.world, j, candidate, disk.whole);
      var _ :- Place(j.identity, d.(receipt := Some(j)));
      var named := NameLast(j.identity);
      if !named.Done? { return named, j; }
      StagedFacts(disk.world, j, candidate, disk.whole);
      var _ :- disk.Write(disk.world.(interlock := None));
      return Done(()), j;
    }

    /** Publish or replace the record of the last release. */
    method NameLast(identity: nat) returns (r: Outcome<()>)
      requires disk.Valid()
      modifies disk
      ensures disk.Extends() && disk.whole == old(disk.whole)
      ensures r.Interrupted? ==> disk.stopAfter.Some?
      ensures r.Blocked? <==> !old(LastReadable(disk.world))
      ensures disk.world == old(disk.world).(last := disk.world.last)
      ensures r.Blocked? ==> disk.world == old(disk.world)
      ensures r.Done? ==> disk.world.last == Some(Last(identity, 1))
    {
      hide Inv, AllowedLog;
      LastKeepsInv(disk.world, Last(identity, 2), disk.whole);
      LastKeepsInv(disk.world, Last(identity, 1), disk.whole);
      if disk.world.last.None? {
        var _ :- disk.Write(disk.world.(last := Some(Last(identity, 2))));
      } else if disk.world.last.value.links != 1 {
        return Blocked(RootFile);
      }
      var _ :- disk.Write(disk.world.(last := Some(Last(identity, 1))));
      return Done(());
    }

    /** The candidate's own files: twelve kit files, the source bundle and the manifest. */
    method CopyCandidates(j: Journal, ghost candidate: Release) returns (r: Outcome<()>)
      requires disk.Valid() && Staged(disk.world, j, candidate)
      requires disk.world.releases[j.identity] == Directory(disk.world.live.files, 0, None, None, 0) &&
        disk.world.live == OldRelease(j)
      modifies disk
      ensures disk.Extends() && disk.whole == old(disk.whole)
      ensures !r.Blocked? && (r.Interrupted? ==> disk.stopAfter.Some?)
      ensures disk.world == old(disk.world).(releases := disk.world.releases) &&
        j.identity in disk.world.releases
      ensures r.Done? ==>
        disk.world.releases == old(disk.world.releases)[j.identity := Directory(disk.world.live.files, CANDIDATES, None, None, 0)]
      ensures Spends(old(disk.stopAfter), 3 * CANDIDATES, r.Done?, disk.stopAfter)
      ensures old(disk.stopAfter) == Some(1) ==> Stray(disk.world, OldRelease(j), j.identity)
    {
      hide Inv, InterlockInv, AllowedLog, Fits, RecordsFit, Stray;
      for i := 0 to CANDIDATES
        invariant disk.Extends() && disk.whole == old(disk.whole)
        invariant disk.world == old(disk.world).(releases := disk.world.releases)
        invariant disk.world.releases == old(disk.world.releases)[j.identity := Directory(disk.world.live.files, i, None, None, 0)]
        invariant Spends(old(disk.stopAfter), 3 * i, true, disk.stopAfter)
      {
        CandidateFits(disk.world, j, i, disk.whole);
        CandidateFits(disk.world, j, i + 1, disk.whole);
        var d := disk.world.releases[j.identity];
        StrayCut(disk.world, j);
        var _ :- Place(j.identity, d.(candidates := i + 1));
      }
      return Done(());
    }

    /** Back up, stage and check everything before the first live change. */
    method Prepare(identity: nat, candidate: Release) returns (r: Outcome<()>, j: Journal)
      requires disk.Valid() && WellFormed(candidate) && candidate in disk.whole
      requires disk.world.interlock == Some(Interlock(Opening(identity, disk.world, candidate), 1)) &&
        disk.world.live in disk.whole
      requires identity !in disk.world.releases
      modifies disk, host`calls
      ensures disk.Extends() && disk.whole == old(disk.whole) && disk.world.interlock.Some?
      ensures r.Interrupted? ==> disk.stopAfter.Some?
      ensures r.Done? ==> host.calls == old(host.calls) + 2 && host.Passes(old(host.calls), 2)
      ensures r.Blocked? ==> host.Stopped(old(host.calls)) && host.calls <= old(host.calls) + 2
      ensures disk.world.live == old(disk.world.live)
      ensures !r.Interrupted? ==> Staged(disk.world, j, candidate) && OldRelease(j) == disk.world.live
      ensures !r.Interrupted? ==> j.identity == identity && disk.world.last == old(disk.world.last)
      ensures !r.Interrupted? ==>
        disk.world.releases == old(disk.world.releases)[identity := Directory(disk.world.live.files, CANDIDATES, None, None, 0)]
      ensures host.Steady() ==> Spends(old(disk.stopAfter), PREPARING, r.Done?, disk.stopAfter)
      ensures old(disk.stopAfter) == Some(STAGING + 1) ==>
        r.Interrupted? && Stray(disk.world, old(disk.world.live), identity)
    {
      hide Inv, InterlockInv, AllowedLog, Stray;
      var staged: Journal;
      LiveFits(disk.world, disk.whole);
      r, staged := Stage(identity, candidate);
      j := staged;
      if !r.Done? { return; }
      CompleteRecords(Opening(identity, old(disk.world), candidate), disk.world.live, candidate);
      r := CopyCandidates(j, candidate);
      if !r.Done? { return; }
      r, j := Examine(staged, candidate);
      SameEnds(staged, j);
    }

    /** The checks of the candidate, with nothing live touched yet. */
    method Examine(staged: Journal, candidate: Release) returns (r: Outcome<()>, j: Journal)
      requires disk.Valid() && Staged(disk.world, staged, candidate)
      modifies disk, host`calls
      ensures disk.Extends() && disk.whole == old(disk.whole)
      ensures disk.world == old(disk.world).(interlock := disk.world.interlock) && disk.world.interlock.Some?
      ensures r.Interrupted? ==> disk.stopAfter.Some?
      ensures SameTransaction(staged, j) && (!r.Interrupted? ==> Staged(disk.world, j, candidate))
      ensures r.Done? ==> host.calls == old(host.calls) + 2 && host.Passes(old(host.calls), 2)
      ensures r.Blocked? ==> host.Stopped(old(host.calls)) && host.calls <= old(host.calls) + 2
      ensures host.Steady() ==> Spends(old(disk.stopAfter), 2, r.Done?, disk.stopAfter)
    {
      hide Inv, InterlockInv, AllowedLog, OldRelease, NewRelease;
      j := staged.(phase := CandidateStaged);
      SameEnds(staged, j);
      var _ :- Advance(j, candidate);
      r := host.Check();  // import_source and binaries
      if !r.Done? { return; }
      j := j.(phase := Prepared);
      SameEnds(staged, j);
      var _ :- Advance(j, candidate);
      r := host.Check();  // runtime_wiring and check_release
      // mid_promotion_head, state_changed and live_file_changed cannot fail: nothing live was touched
    }

    /** The body of `promote` after the intent is journalled. */
    method Attempt(identity: nat, candidate: Release) returns (r: Outcome<()>, j: Journal)
      requires disk.Valid() && WellFormed(candidate) && candidate in disk.whole
      requires disk.world.interlock == Some(Interlock(Opening(identity, disk.world, candidate), 1)) &&
        disk.world.live in disk.whole
      requires identity !in disk.world.releases
      modifies disk, host`calls
      ensures disk.Extends() && disk.whole == old(disk.whole)
      ensures r.Interrupted? ==> disk.stopAfter.Some?
      ensures r.Blocked? ==>
        (!host.Steady() || !old(LastReadable(disk.world))) && Staged(disk.world, j, candidate) &&
        OldRelease(j) == old(disk.world.live) && j.identity == identity
      ensures r.Done? ==>
        old(LastReadable(disk.world)) && disk.world.interlock.None? && disk.world.live == candidate &&
        Recorded(disk.world, old(disk.world), identity)
      ensures host.Steady() && old(disk.stopAfter) == Some(STAGING + 1) ==>
        r.Interrupted? && Stray(disk.world, old(disk.world.live), identity)
      ensures host.Steady() ==>
        forall i ::
        0 <= i < TARGETS &&
        old(disk.stopAfter) == Some(PREPARING + CutAfter(old(disk.world.live), candidate, i)) &&
        old(disk.world.live.files)[i] != candidate.files[i] ==>
        r.Interrupted? && MixedAt(disk.world, old(disk.world.live), candidate, identity, i + 1)
      ensures disk.world.interlock.None? ==> r.Done?
      ensures r.Blocked? && host.Steady() ==> disk.world.live == candidate
      ensures r.Done? ==> host.Passes(old(host.calls), Checks(old(disk.world.live), candidate))
      ensures r.Blocked? ==>
        Halted(old(disk.world.live), candidate, host.permits, old(host.calls), host.calls, disk.world.live)
    {
      hide Inv, InterlockInv, Staged, AllowedLog, Stray, MixedAt, Recorded, Committing, CutAfter, FileWrites,
        SwitchWrites, Replaced, FileChecks, SwitchChecks, Halts, Meets, MeetsFile, Changes;
      ghost var d0, c := disk.world, host.calls;
      LiveFits(disk.world, disk.whole);
      MeetsFirst(d0.live, candidate);
      r, j := Prepare(identity, candidate);
      if !r.Done? { return; }
      var prepared := j;
      assert disk.world.releases[identity].receipt.None?;
      StagedEnds(disk.world, j, candidate);
      WritesOf(j, d0.live, candidate);
      ChecksOf(j, d0.live, candidate);
      r, j := Install(j, candidate);
      SameEnds(prepared, j);
      if !r.Done? { return; }
      ghost var committing := disk.world;
      r, j := Commit(j, candidate);
      SameEnds(prepared, j);
      if !r.Done? { return; }
      CommittingRecords(d0, committing, j, candidate, identity);
    }

    /** From the journalled intent to the end, or back again. */
    method Carry(identity: nat, target: Release) returns (r: Outcome<()>)
      requires disk.Valid() && WellFormed(target) && target in disk.whole && WellFormed(disk.world.live)
      requires disk.world.interlock.None? && InventoryComplete(disk.world) && identity !in disk.world.releases
      modifies disk, host`calls
      ensures disk.Extends() && disk.whole == old(disk.whole)
      ensures r.Interrupted? ==> disk.stopAfter.Some?
      ensures r.Done? ==>
        old(LastReadable(disk.world)) && disk.world.interlock.None? && disk.world.live == target &&
        Recorded(disk.world, old(disk.world), identity)
      ensures r.Blocked? && disk.world.interlock.None? ==> disk.world.live == old(disk.world.live)
      ensures disk.world.interlock.None? ==> disk.world.live in {old(disk.world.live), target}
      ensures host.Steady() && old(disk.stopAfter.None?) ==>
        if old(LastReadable(disk.world)) then r.Done? else r.Blocked? && disk.world.interlock.None?
      ensures host.Steady() && old(disk.stopAfter) == Some(2 + STAGING + 1) ==>
        r.Interrupted? && Stray(disk.world, old(disk.world.live), identity)
      ensures host.Steady() ==>
        forall i ::
        0 <= i < TARGETS &&
        old(disk.stopAfter) == Some(2 + PREPARING + CutAfter(old(disk.world.live), target, i)) &&
        old(disk.world.live.files)[i] != target.files[i] ==>
        r.Interrupted? && MixedAt(disk.world, old(disk.world.live), target, identity, i + 1)
      ensures old(disk.stopAfter).None? ==>
        Answers(old(disk.world), host.permits, old(host.calls), target, identity, r.Blocked?, disk.world)
    {
      hide Answers, Meets, Checks, Inv, InterlockInv, AllowedLog, Stray, MixedAt, Recorded, RollbackReady,
        InventoryComplete, CutAfter;
      ghost var before, c := disk.world, host.calls;
      LiveFits(before, disk.whole);
      OpeningFits(before, identity, target, disk.whole);
      var _ :- Journal(Opening(identity, disk.world, target));
      var j;
      r, j := Attempt(identity, target);
      if r.Blocked? {
        LiveFits(disk.world, disk.whole);
        r := TakeBack(j, r, before, target, c);
      } else if r.Done? {
        PassedAnswers(before, host.permits, c, target, identity, disk.world);
        RecordedSame(disk.world, before, Some(Interlock(Opening(identity, before, target), 1)), identity);
      }
    }

    /** The failure branch of `promote`: roll back, then report the failure, or that of the rollback. */
    method TakeBack(j: Journal, failure: Outcome<()>, ghost before: World, ghost target: Release, ghost c: nat)
      returns (r: Outcome<()>)
      requires disk.Valid() && failure.Blocked? && WellFormed(before.live) && before.live in disk.whole
      requires Staged(disk.world, j, target) && OldRelease(j) == before.live && WellFormed(disk.world.live)
      requires Halted(before.live, target, host.permits, c, host.calls, disk.world.live)
      modifies disk, host`calls
      ensures disk.Extends() && disk.whole == old(disk.whole)
      ensures !r.Done? && (r.Interrupted? ==> disk.stopAfter.Some?)
      ensures disk.world.interlock.None? ==> disk.world.live == before.live
      ensures host.Steady() && old(disk.stopAfter.None? && disk.world.live == target) ==>
        r.Blocked? && disk.world.interlock.None?
      ensures old(disk.stopAfter).None? ==>
        Answers(before, host.permits, c, target, j.identity, r.Blocked?, disk.world)
    {
      hide Answers, Meets, Checks, Inv, InterlockInv, AllowedLog, RollbackReady, Staged;
      if disk.world.live == target { StagedFacts(disk.world, j, target, disk.whole); }
      ghost var halted, calls := disk.world, host.calls;
      StagedEnds(halted, j, target);
      ReadyIff(halted, j, target, disk.whole);
      var undone := Rollback(j);
      if undone.Done? || !CodecApproved(halted.live) || !host.Passes(calls, RollbackChecks(halted, j)) {
        RefusedAnswers(before, halted, j, host.permits, c, calls, target, disk.world);
      }
      r := if undone.Done? then failure else undone;
    }

    /** Promote commit `sha` with its twelve kit files. A failure after the backup is complete
        rolls back; the rollback itself may refuse and leave the interlock. */
    method Promote(sha: nat, kit: seq<Content>, identity: nat) returns (r: Outcome<bool>)
      requires disk.Valid() && |kit| == KIT
      modifies disk, host`calls
      ensures disk.Extends() && disk.whole == old(disk.whole) + {Candidate(sha, kit, identity)}
      ensures r.Interrupted? ==> disk.stopAfter.Some?
      // it starts nothing unless the inventory is complete, and refuses without a trace
      ensures !old(MayPromote(disk.world, sha, kit, identity)) ==> !r.Done?
      ensures old(disk.world.interlock.Some? || !InventoryComplete(disk.world)) ==>
        r.Blocked? && disk.world == old(disk.world)
      // undisturbed it succeeds exactly then, and otherwise leaves what was live
      ensures host.Steady() && old(disk.stopAfter.None?) ==>
        (r.Done? <==> old(MayPromote(disk.world, sha, kit, identity)))
      ensures host.Steady() && old(disk.stopAfter.None?) && r.Blocked? ==>
        disk.world.live == old(disk.world.live) && disk.world.interlock == old(disk.world.interlock)
      ensures r.Done? && r.value ==>
        disk.world.live == Candidate(sha, kit, identity) && disk.world.interlock.None?
      ensures r.Done? && r.value ==>
        Recorded(disk.world, old(disk.world), identity) && !Aligned(old(disk.world.live), sha, kit)
      ensures r.Done? && !r.value ==> disk.world == old(disk.world) && Aligned(disk.world.live, sha, kit)
      ensures r.Blocked? && disk.world.interlock.None? ==> disk.world.live == old(disk.world.live)
      ensures disk.world.interlock.None? ==>
        disk.world.live in {old(disk.world.live), Candidate(sha, kit, identity)}
      // where a stopped promotion leaves the disk
      ensures host.Steady() ==>
        StopsAt(old(disk.world), old(disk.stopAfter), r.Interrupted?, disk.world, sha, kit, identity)
      // a host that refuses one of the checks: nothing has happened yet, or the old release is back
      ensures old(disk.stopAfter.None? && MayPromote(disk.world, sha, kit, identity)) ==>
        Refused(old(disk.world), host.permits, old(host.calls), sha, kit, identity, r.Blocked?, disk.world)
    {
      hide Inv, InterlockInv, AllowedLog, Stray, MixedAt, Recorded, RollbackReady, CutAfter, Answers;
      ghost var before, c := disk.world, host.calls;
      disk.Propose(Candidate(sha, kit, identity));
      if disk.world.interlock.Some? { return Blocked(PendingPromotionRecovery); }
      if !InventoryComplete(disk.world) { return Blocked(UnknownReleaseStage); }
      var _ :- host.Check();
      LiveFits(disk.world, disk.whole);
      if Aligned(disk.world.live, sha, kit) { return Done(false); }
      if identity in disk.world.releases { return Blocked(ReplayedRelease); }
      var _ :- host.Check();
      var carried := Carry(identity, Candidate(sha, kit, identity));
      if disk.stopAfter.None? { RefusedLater(before, host.permits, c, sha, kit, identity, carried.Blocked?, disk.world); }
      if !carried.Done? { return carried.PropagateFailure(); }
      return Done(true);
    }

    /** `--rollback-last`: a deliberate rollback of the installed release. */
    method RollbackLast() returns (r: Outcome<()>)
      requires disk.Valid()
      modifies disk, host`calls
      ensures disk.Extends() && disk.whole == old(disk.whole)
      ensures r.Interrupted? ==> disk.stopAfter.Some?
      ensures r.Done? ==> old(MayRollBackLast(disk.world))
      ensures !old(MayRollBackLast(disk.world)) ==> r.Blocked? && disk.world == old(disk.world)
      ensures host.Steady() && old(disk.stopAfter.None?) ==> (r.Done? <==> old(MayRollBackLast(disk.world)))
      ensures disk.world.interlock.None? && disk.world != old(disk.world) ==> r.Done?
      ensures r.Done? ==>
        disk.world.interlock.None? && disk.world.live == OldRelease(old(LastReceipt(disk.world)).value)
      // on any host: it needs its checks, and refused the first of them it leaves everything as it is
      ensures old(disk.stopAfter.None? && MayRollBackLast(disk.world)) ==>
        (r.Done? <==> host.Passes(old(host.calls), 1 + RollbackChecks(old(disk.world), old(LastReceipt(disk.world)).value)))
      ensures !host.permits(old(host.calls)) ==> r.Blocked? && disk.world == old(disk.world)
    {
      hide Inv, InterlockInv, AllowedLog, RollbackReady, InventoryComplete;
      if disk.world.interlock.Some? { return Blocked(PendingPromotionRecovery); }
      if !InventoryComplete(disk.world) { return Blocked(UnknownReleaseStage); }
      var _ :- host.Check();
      if disk.world.last.None? { return Blocked(LastRelease); }
      if disk.world.last.value.links != 1 { return Blocked(RootFile); }
      var identity := disk.world.last.value.identity;
      if identity !in disk.world.releases { return Blocked(LastRelease); }
      var d := disk.world.releases[identity];
      if d.rollback.Some? { return Blocked(AlreadyRolledBack); }
      if d.receipt.None? { return Blocked(LastRelease); }
      var recorded := d.receipt.value;
      ReceiptEnds(disk.world, identity, disk.whole);
      if disk.world.live.publisher != recorded.newPublisher { return Blocked(NotCurrentRelease); }
      if disk.world.live.files != NewRelease(recorded).files { return Blocked(UnknownPartialState); }
      assert disk.world.live == NewRelease(recorded);
      var j := recorded.(ledger := disk.world.ledger);
      assert OldRelease(j) == OldRelease(recorded) && NewRelease(j) == NewRelease(recorded);
      ReopenedFits(disk.world, identity, j, disk.whole);
      var _ :- Journal(j);
      ReopenedReady(disk.world, j, disk.whole);
      r := Rollback(j);
    }
  }

  lemma SwitchKeepsInv(w: World, j: Journal, publisher: nat, whole: set<Release>)
    requires Inv(w, whole) && w.interlock == Some(Interlock(j, 1)) && j.targets != []
    requires publisher in {j.oldPublisher, j.newPublisher}
    requires w.releases[j.identity].rollback.Some? ==> publisher == j.oldPublisher
    ensures Inv(w.(live := w.live.(publisher := publisher)), whole)
  {
  }

  lemma FileKeepsInv(w: World, j: Journal, i: nat, c: Content, whole: set<Release>)
    requires Inv(w, whole) && w.interlock == Some(Interlock(j, 1)) && j.targets != [] && i < TARGETS
    requires |j.targets| == TARGETS && c in {j.targets[i].oldHash, j.targets[i].newHash}
    requires w.releases[j.identity].rollback.Some? ==> c == w.live.files[i]
    ensures Inv(w.(live := w.live.(files := w.live.files[i := c])), whole)
  {
  }

  /** The journal before anything is staged. */
  function Opening(identity: nat, w: World, candidate: Release): Journal {
    Journal(identity, Intent, w.live.publisher, candidate.publisher, w.ledger, [])
  }

  /** The journal once every live file has a backup. */
  function Complete(j: Journal, live: Release, candidate: Release): Journal
    requires WellFormed(live) && WellFormed(candidate)
  {
    j.(phase := BackedUp, targets := seq(TARGETS, i requires 0 <= i < TARGETS => Backup(live.files[i], candidate.files[i])))
  }

  predicate SameTransaction(j: Journal, k: Journal) {
    k.(phase := j.phase) == j
  }

  /** The interlock holds `j`, whose backups are complete, on the way to `candidate`. */
  ghost predicate Staged(w: World, j: Journal, candidate: Release) {
    && w.interlock == Some(Interlock(j, 1)) && |j.targets| == TARGETS && WellFormed(candidate)
    && NewRelease(j) == candidate
    && j.identity in w.releases && w.releases[j.identity].rollback.None?
  }

  lemma StagedEnds(w: World, j: Journal, candidate: Release)
    requires Staged(w, j, candidate)
    ensures NewRelease(j) == candidate && WellFormed(candidate) && WellFormed(OldRelease(j)) &&
      w.interlock == Some(Interlock(j, 1))
  {
  }

  lemma StagedFacts(w: World, j: Journal, candidate: Release, whole: set<Release>)
    requires Inv(w, whole) && Staged(w, j, candidate) && w.live == candidate
    ensures w.live in whole && CodecApproved(w.live) && j.ledger == w.ledger
    ensures Inv(w.(interlock := None), whole) && RollbackReady(w)
  {
    hide RecordsFit, OthersEnded;
  }

  lemma ReceiptFits(w: World, j: Journal, candidate: Release, whole: set<Release>)
    requires Inv(w, whole) && Staged(w, j, candidate) && j.phase == Phase.Committed
    ensures Fits(w, j.identity, w.releases[j.identity], whole)
    ensures Fits(w, j.identity, w.releases[j.identity].(receipt := Some(j)), whole)
  {
    hide OthersEnded;
  }

  lemma LastKeepsInv(w: World, last: Last, whole: set<Release>)
    requires Inv(w, whole)
    ensures Inv(w.(last := Some(last)), whole)
  {
    hide RecordsFit, Records;
  }

  lemma CandidateFits(w: World, j: Journal, n: nat, whole: set<Release>)
    requires Inv(w, whole) && w.interlock == Some(Interlock(j, 1)) && j.identity in w.releases
    ensures Fits(w, j.identity, w.releases[j.identity].(candidates := n), whole)
  {
    hide OthersEnded;
  }

  lemma NewDirectoryFits(w: World, identity: nat, backups: seq<Content>, whole: set<Release>)
    requires Inv(w, whole) && w.interlock.Some? && w.interlock.value.links == 1
    requires w.interlock.value.journal.identity == identity && w.interlock.value.journal.targets == []
    ensures Fits(w, identity, Directory(backups, 0, None, None, 0), whole)
    ensures Inv(w.(releases := w.releases[identity := Directory(backups, 0, None, None, 0)]), whole)
  {
    DirectoryKeepsInv(w, identity, Directory(backups, 0, None, None, 0), whole);
    hide Inv;
  }

  lemma PlaceKeepsInv(w: World, identity: nat, d: Directory, next: Directory, whole: set<Release>)
    requires Inv(w, whole) && identity in w.releases && d == w.releases[identity]
    requires Fits(w, identity, d, whole) && Fits(w, identity, next, whole)
    ensures Inv(w.(releases := w.releases[identity := Cut(d)]), whole)
    ensures Inv(w.(releases := w.releases[identity := Cut(next)]), whole)
    ensures Inv(w.(releases := w.releases[identity := next]), whole)
  {
    PendingFits(w, identity, d, d.candidates, d.pending + 1, whole);
    PendingFits(w, identity, next, next.candidates, next.pending + 1, whole);
    DirectoryKeepsInv(w, identity, Cut(d), whole);
    DirectoryKeepsInv(w, identity, Cut(next), whole);
    DirectoryKeepsInv(w, identity, next, whole);
    hide Inv, Fits;
  }

  lemma JournalFits(w: World, j: Journal, whole: set<Release>)
    requires Inv(w, whole) && InterlockInv(w, Interlock(j, 1), whole)
    ensures Inv(w.(interlock := Some(Interlock(j, 1))), whole)
    ensures w.interlock.None? ==> Inv(w.(interlock := Some(Interlock(j, 2))), whole)
  {
    InterlockKeepsInv(w, Interlock(j, 1), whole);
    if w.interlock.None? {
      assert InterlockInv(w, Interlock(j, 2), whole) by { hide RecordsFit, Records, OthersEnded, Between; }
      InterlockKeepsInv(w, Interlock(j, 2), whole);
    }
    hide Inv, InterlockInv;
  }

  /** The journal of a restored transaction, the record of its rollback, and its end. */
  lemma DoneFits(w: World, j: Journal, whole: set<Release>)
    requires Inv(w, whole) && w.interlock == Some(Interlock(j, 1)) && j.targets != [] && w.live == OldRelease(j)
    ensures j.identity in w.releases && InterlockInv(w, Interlock(j.(phase := RolledBack), 1), whole)
  {
    hide RecordsFit;
    SameEnds(j.(phase := RolledBack), j);
  }

  lemma RollbackFits(w: World, done: Journal, whole: set<Release>)
    requires Inv(w, whole) && w.interlock == Some(Interlock(done, 1)) && done.targets != [] &&
      w.live == OldRelease(done) && done.phase == RolledBack
    requires done.identity in w.releases && w.releases[done.identity].rollback.None?
    ensures Fits(w, done.identity, w.releases[done.identity], whole)
    ensures Fits(w, done.identity, w.releases[done.identity].(rollback := Some(done)), whole)
  {
    hide OthersEnded;
  }

  lemma LiftFits(w: World, j: Journal, whole: set<Release>)
    requires Inv(w, whole) && w.interlock == Some(Interlock(j, 1)) && j.targets != [] && w.live == OldRelease(j)
    ensures w.live in whole && Inv(w.(interlock := None), whole)
  {
    hide RecordsFit, OthersEnded;
  }

  lemma LiveFits(w: World, whole: set<Release>)
    requires Inv(w, whole)
    ensures WellFormed(w.live) && (w.interlock.None? ==> w.live in whole && CodecApproved(w.live))
  {
    hide RecordsFit;
  }

  lemma OpeningFits(w: World, identity: nat, candidate: Release, whole: set<Release>)
    requires Inv(w, whole) && w.interlock.None? && InventoryComplete(w) && identity !in w.releases
    ensures InterlockInv(w, Interlock(Opening(identity, w, candidate), 1), whole)
  {
    hide RecordsFit, Ended;
    assert w.releases.Keys - {identity} == w.releases.Keys && |w.releases.Keys| == |w.releases|;
  }

  /** The receipt of an installed release is complete. */
  lemma ReceiptEnds(w: World, identity: nat, whole: set<Release>)
    requires Inv(w, whole) && identity in w.releases && w.releases[identity].receipt.Some? &&
      w.releases[identity].rollback.None?
    ensures Records(w.releases[identity].receipt.value, w.releases[identity], whole)
    ensures w.releases[identity].receipt.value.identity == identity
  {
  }

  lemma ReopenedFits(w: World, identity: nat, j: Journal, whole: set<Release>)
    requires Inv(w, whole) && w.interlock.None? && InventoryComplete(w) && identity in w.releases
    requires w.releases[identity].rollback.None? && w.releases[identity].receipt.Some?
    requires j == w.releases[identity].receipt.value.(ledger := w.ledger) && w.live == NewRelease(j)
    ensures InterlockInv(w, Interlock(j, 1), whole)
  {
    ReceiptEnds(w, identity, whole);
    assert |w.releases.Keys - {identity}| <= |w.releases.Keys| == |w.releases|;
    assert OldRelease(j) == OldRelease(w.releases[identity].receipt.value) && NewRelease(j) == NewRelease(w.releases[identity].receipt.value);
    hide RecordsFit, Ended;
  }

  lemma ReopenedReady(w: World, j: Journal, whole: set<Release>)
    requires Inv(w, whole) && w.interlock == Some(Interlock(j, 1)) && j.targets != [] && w.live == NewRelease(j)
    requires j.identity in w.releases && w.releases[j.identity].rollback.None?
    ensures RollbackReady(w)
  {
    hide RecordsFit, OthersEnded;
  }

  /** A release directory with one write cut. */
  function Cut(d: Directory): Directory { d.(pending := d.pending + 1) }

  function Committing(w: World, j: Journal): World {
    w.(interlock := None, last := Some(Last(j.identity, 1)),
       releases := if j.identity in w.releases then w.releases[j.identity := w.releases[j.identity].(receipt := Some(j))] else w.releases)
  }

  /** The disk after a completed rollback. */
  function RolledBackTo(w: World, j: Journal): World {
    w.(live := OldRelease(j), interlock := None,
       releases := if j.identity in w.releases then w.releases[j.identity := w.releases[j.identity].(rollback := Some(j.(phase := RolledBack)))] else w.releases)
  }

  // ----- what a run passes through -----

  /** A candidate file is being written: everything is backed up and live is untouched. */
  predicate Stray(w: World, live: Release, identity: nat) {
    && w.live == live && w.interlock.Some? && w.interlock.value.links == 1
    && w.interlock.value.journal.identity == identity && w.interlock.value.journal.targets != [] &&
      OldRelease(w.interlock.value.journal) == live
    && identity in w.releases && w.releases[identity].rollback.None? && w.releases[identity].pending == 1
  }

  /** Exactly the first `n` files are replaced. */
  predicate MixedAt(w: World, live: Release, candidate: Release, identity: nat, n: nat) {
    && WellFormed(live) && WellFormed(candidate) && n <= TARGETS &&
      w.live == Release(candidate.publisher, Mixed(live, candidate, n))
    && w.interlock.Some? && w.interlock.value.links == 1 && w.interlock.value.journal.identity == identity &&
      w.interlock.value.journal.targets != []
    && OldRelease(w.interlock.value.journal) == live && NewRelease(w.interlock.value.journal) == candidate
    && identity in w.releases && w.releases[identity].rollback.None?
  }

  lemma StrayCut(w: World, j: Journal)
    requires w.interlock == Some(Interlock(j, 1)) && j.targets != [] && w.live == OldRelease(j) &&
      j.identity in w.releases
    requires w.releases[j.identity].rollback.None? && w.releases[j.identity].pending == 0
    ensures Stray(w.(releases := w.releases[j.identity := Cut(w.releases[j.identity])]), OldRelease(j), j.identity)
  {
  }

  /** Durable writes: for the backups and their journal, up to the last check before the switch,
      for the checkout, and for the first `n` files. */
  const STAGING: nat := 1 + 3 * TARGETS + 1
  const PREPARING: nat := STAGING + 3 * CANDIDATES + 2

  /** The checks of the host that a rollback, the switch, one file and the first `n` files need. */
  function RollbackChecks(w: World, j: Journal): nat { if w.live.publisher != j.oldPublisher then 2 else 1 }

  function SwitchChecks(j: Journal): nat { if j.oldPublisher != j.newPublisher then 1 else 0 }

  function FileCheck(j: Journal, i: nat): nat { if Replaced(j, i) then 1 else 0 }

  function FileChecks(j: Journal, n: nat): nat {
    if n == 0 then 0 else FileChecks(j, n - 1) + FileCheck(j, n - 1)
  }

  lemma FileChecksNext(j: Journal, i: nat)
    ensures FileChecks(j, 0) == 0 && FileChecks(j, i + 1) == FileChecks(j, i) + FileCheck(j, i)
    ensures FileCheck(j, i) == if Replaced(j, i) then 1 else 0
  {
  }

  /** What is live when check number `m` of the installation of the files of `j`, or of its whole
      installation, is refused. */
  ghost predicate HaltsAt(j: Journal, candidate: Release, m: nat, live: Release) {
    exists i :: 0 <= i < TARGETS && HaltsBefore(j, candidate, i, m, live)
  }

  ghost predicate HaltsBefore(j: Journal, candidate: Release, i: nat, m: nat, live: Release) {
    && Replaced(j, i) && m == FileChecks(j, i) && |j.targets| == TARGETS && WellFormed(candidate) && i < TARGETS
    && live == Release(candidate.publisher, Mixed(OldRelease(j), candidate, i))
  }

  ghost predicate Halts(j: Journal, candidate: Release, m: nat, live: Release) {
    if m < SwitchChecks(j) then live == OldRelease(j) else HaltsAt(j, candidate, m - SwitchChecks(j), live)
  }

  lemma {:induction false} SameFileChecks(j: Journal, k: Journal, n: nat)
    requires j.targets == k.targets
    ensures FileChecks(j, n) == FileChecks(k, n)
  {
    if n > 0 { SameFileChecks(j, k, n - 1); }
  }

  lemma SameChecks(j: Journal, k: Journal)
    requires SameTransaction(j, k)
    ensures SwitchChecks(j) == SwitchChecks(k) && forall n: nat :: FileChecks(j, n) == FileChecks(k, n)
  {
    forall n: nat ensures FileChecks(j, n) == FileChecks(k, n) { SameFileChecks(j, k, n); }
  }

  lemma SameHalts(j: Journal, k: Journal, candidate: Release)
    requires SameTransaction(j, k)
    ensures forall m, live :: HaltsAt(k, candidate, m, live) ==> HaltsAt(j, candidate, m, live)
  {
    SameChecks(j, k);
    SameEnds(j, k);
    hide FileChecks;
    forall m, live | HaltsAt(k, candidate, m, live) ensures HaltsAt(j, candidate, m, live) {
      var i :| 0 <= i < TARGETS && HaltsBefore(k, candidate, i, m, live);
      assert HaltsBefore(j, candidate, i, m, live);
    }
  }

  // ----- which check meets which release -----

  /** Exactly one check from number `c` on, the `k`-th, is refused before the rollback ends. */
  predicate Refuses(permits: nat -> bool, c: nat, k: nat) {
    (forall i :: c <= i < c + k ==> permits(i)) && !permits(c + k) && permits(c + k + 1) && permits(c + k + 2)
  }

  function Switches(live: Release, candidate: Release): nat { if live.publisher != candidate.publisher then 1 else 0 }

  /** How many of the first `n` files differ. */
  function Changes(live: Release, candidate: Release, n: nat): nat
    requires WellFormed(live) && WellFormed(candidate) && n <= TARGETS
  {
    if n == 0 then 0 else Changes(live, candidate, n - 1) + if live.files[n - 1] != candidate.files[n - 1] then 1 else 0
  }

  /** The checks after the intent is journalled: two before anything live is touched, one for the
      switch, one for each replaced file, and the postflight. */
  function Checks(live: Release, candidate: Release): nat
    requires WellFormed(live) && WellFormed(candidate)
  {
    3 + Switches(live, candidate) + Changes(live, candidate, TARGETS)
  }

  /** `now` is what is live when the `m`-th of them is made. */
  ghost predicate Meets(live: Release, candidate: Release, m: nat, now: Release)
    requires WellFormed(live) && WellFormed(candidate)
  {
    || (m < 2 + Switches(live, candidate) && now == live)
    || (exists i :: 0 <= i < TARGETS && MeetsFile(live, candidate, i, m, now))
    || (m == 2 + Switches(live, candidate) + Changes(live, candidate, TARGETS) && now == candidate)
  }

  ghost predicate MeetsFile(live: Release, candidate: Release, i: nat, m: nat, now: Release)
    requires WellFormed(live) && WellFormed(candidate) && i < TARGETS
  {
    && live.files[i] != candidate.files[i] && m == 2 + Switches(live, candidate) + Changes(live, candidate, i)
    && now == Release(candidate.publisher, Mixed(live, candidate, i))
  }

  /** What the refusal of a check leaves that found `now` live: the old release, recorded as rolled
      back and open to services, unless the rollback itself is refused. */
  ghost predicate Undone(before: World, now: Release, identity: nat, w: World) {
    && identity in w.releases && WellFormed(now)
    && if CodecApproved(now) then w.interlock.None? && w.live == before.live &&
      w.releases[identity].rollback.Some?
       else w.interlock.Some? && w.live == now && w.releases[identity].rollback.None?
  }

  lemma MeetsFirst(live: Release, candidate: Release)
    requires WellFormed(live) && WellFormed(candidate)
    ensures forall m: nat :: m < 2 ==> Meets(live, candidate, m, live)
    ensures Meets(live, candidate, Checks(live, candidate) - 1, candidate)
  {
  }

  lemma {:induction false} ChangesGrow(live: Release, candidate: Release, i: nat, n: nat)
    requires WellFormed(live) && WellFormed(candidate) && i < n <= TARGETS &&
      live.files[i] != candidate.files[i]
    ensures Changes(live, candidate, i) < Changes(live, candidate, n)
    decreases n
  {
    if n == i + 1 { } else if n > i + 1 { ChangesGrow(live, candidate, i, n - 1); }
  }

  lemma MeetsOne(live: Release, candidate: Release, m: nat, a: Release, b: Release)
    requires WellFormed(live) && WellFormed(candidate) && Meets(live, candidate, m, a) &&
      Meets(live, candidate, m, b)
    ensures a == b && m < Checks(live, candidate)
  {
    hide Changes;
    forall i | 0 <= i < TARGETS && live.files[i] != candidate.files[i] ensures Changes(live, candidate, i) < Changes(live, candidate, TARGETS) {
      ChangesGrow(live, candidate, i, TARGETS);
    }
    if i, k :| 0 <= i < TARGETS && 0 <= k < TARGETS && MeetsFile(live, candidate, i, m, a) && MeetsFile(live, candidate, k, m, b) {
      if i < k { ChangesGrow(live, candidate, i, k); }
      if k < i { ChangesGrow(live, candidate, k, i); }
    }
  }

  lemma {:induction false} ChangesOf(j: Journal, live: Release, candidate: Release, n: nat)
    requires WellFormed(live) && WellFormed(candidate) && n <= TARGETS
    requires forall i :: 0 <= i < TARGETS ==> (Replaced(j, i) <==> live.files[i] != candidate.files[i])
    ensures FileChecks(j, n) == Changes(live, candidate, n)
  {
    if n > 0 { ChangesOf(j, live, candidate, n - 1); }
  }

  lemma ChecksOf(j: Journal, live: Release, candidate: Release)
    requires WellFormed(live) && WellFormed(candidate) && OldRelease(j) == live && NewRelease(j) == candidate
    ensures SwitchChecks(j) == Switches(live, candidate) &&
      FileChecks(j, TARGETS) == Changes(live, candidate, TARGETS)
    ensures forall m: nat, now :: Halts(j, candidate, m, now) ==> Meets(live, candidate, m + 2, now)
  {
    WritesOf(j, live, candidate);
    forall n | 0 <= n <= TARGETS ensures FileChecks(j, n) == Changes(live, candidate, n) { ChangesOf(j, live, candidate, n); }
    assert SwitchChecks(j) == Switches(live, candidate) by { assert live.publisher == j.oldPublisher && candidate.publisher == j.newPublisher; }
    hide FileChecks, Changes, SwitchChecks, Switches, Halts, Meets, CutAfter;
    forall m: nat, now | Halts(j, candidate, m, now) ensures Meets(live, candidate, m + 2, now) { HaltsMeet(j, live, candidate, m, now); }
  }

  lemma HaltsMeet(j: Journal, live: Release, candidate: Release, m: nat, now: Release)
    requires WellFormed(live) && WellFormed(candidate) && OldRelease(j) == live &&
      SwitchChecks(j) == Switches(live, candidate)
    requires forall n :: 0 <= n <= TARGETS ==> FileChecks(j, n) == Changes(live, candidate, n)
    requires forall i :: 0 <= i < TARGETS ==> (Replaced(j, i) <==> live.files[i] != candidate.files[i])
    requires Halts(j, candidate, m, now)
    ensures Meets(live, candidate, m + 2, now)
  {
    hide FileChecks, Changes, SwitchChecks, Switches, Replaced, OldRelease;
    if m >= SwitchChecks(j) {
      var i :| 0 <= i < TARGETS && HaltsBefore(j, candidate, i, m - SwitchChecks(j), now);
      assert MeetsFile(live, candidate, i, m + 2, now);
    }
  }

  /** What a promotion of `target` over `before` answers to a host that refuses one of the checks,
      counted from number `c` on. */
  ghost predicate Answers(before: World, permits: nat -> bool, c: nat, target: Release, identity: nat, refused: bool, w: World) {
    WellFormed(before.live) && WellFormed(target) ==>
      forall m: nat, now :: Refuses(permits, c, m) && Meets(before.live, target, m, now) ==> refused && Undone(before, now, identity, w)
  }

  /** A run over `live` that has been refused: by the last of its checks, the first that was, or by
      none of them. */
  ghost predicate Halted(live: Release, target: Release, permits: nat -> bool, c: nat, calls: nat, now: Release)
    requires WellFormed(live) && WellFormed(target)
  {
    if c < calls && !permits(calls - 1) then (forall i :: c <= i < calls - 1 ==> permits(i)) && Meets(live, target, calls - c - 1, now)
    else forall i :: c <= i < c + Checks(live, target) ==> permits(i)
  }

  /** The same for a whole `promote`, whose first two checks come before anything is written. */
  ghost predicate Refused(before: World, permits: nat -> bool, c: nat, sha: nat, kit: seq<Content>, identity: nat, refused: bool, w: World)
    requires |kit| == KIT
  {
    WellFormed(before.live) && !Aligned(before.live, sha, kit) ==>
      && (!permits(c) || !permits(c + 1) ==> refused && w == before)
      && (permits(c) && permits(c + 1) ==> Answers(before, permits, c + 2, Candidate(sha, kit, identity), identity, refused, w))
  }

  lemma RefusedAnyway(before: World, permits: nat -> bool, c: nat, sha: nat, kit: seq<Content>, identity: nat,
    refused: bool, w: World)
    requires |kit| == KIT && Refused(before, permits, c, sha, kit, identity, refused, w)
    ensures Refused(before, permits, c, sha, kit, identity, true, w)
  {
  }

  lemma RefusedLater(before: World, permits: nat -> bool, c: nat, sha: nat, kit: seq<Content>, identity: nat,
    refused: bool, w: World)
    requires |kit| == KIT && permits(c) && permits(c + 1)
    requires Answers(before, permits, c + 2, Candidate(sha, kit, identity), identity, refused, w)
    ensures Refused(before, permits, c, sha, kit, identity, refused, w)
  {
  }

  /** Every check meets some release; every one before the first live change meets the old one. */
  lemma EveryCheckMeets(live: Release, candidate: Release, m: nat) returns (now: Release)
    requires WellFormed(live) && WellFormed(candidate) && m < Checks(live, candidate)
    ensures Meets(live, candidate, m, now)
    ensures m < 2 + Switches(live, candidate) ==> now == live
  {
    var before := 2 + Switches(live, candidate);
    if m < before {
      now := live;
    } else if m == Checks(live, candidate) - 1 {
      now := candidate;
    } else {
      var i := SomeFile(live, candidate, m - before, TARGETS);
      now := Release(candidate.publisher, Mixed(live, candidate, i));
      assert MeetsFile(live, candidate, i, m, now);
    }
  }

  lemma {:induction false} SomeFile(live: Release, candidate: Release, k: nat, n: nat) returns (i: nat)
    requires WellFormed(live) && WellFormed(candidate) && n <= TARGETS && k < Changes(live, candidate, n)
    ensures i < n && live.files[i] != candidate.files[i] && Changes(live, candidate, i) == k
    decreases n
  {
    if k < Changes(live, candidate, n - 1) { i := SomeFile(live, candidate, k, n - 1); } else { i := n - 1; }
  }

  lemma PassedAnswers(before: World, permits: nat -> bool, c: nat, target: Release, identity: nat, w: World)
    requires WellFormed(before.live) && WellFormed(target) && forall i ::
      c <= i < c + Checks(before.live, target) ==> permits(i)
    ensures Answers(before, permits, c, target, identity, false, w)
  {
    hide Meets, Checks;
    forall m: nat, now | Refuses(permits, c, m) && Meets(before.live, target, m, now) ensures false { MeetsOne(before.live, target, m, now, now); }
  }

  /** Where a run was refused is where its host refuses. */
  lemma RefusedAnswers(before: World, halted: World, j: Journal, permits: nat -> bool, c: nat, calls: nat,
    target: Release, w: World)
    requires WellFormed(before.live) && WellFormed(target) && WellFormed(halted.live) &&
      OldRelease(j) == before.live
    requires Staged(halted, j, target) && Halted(before.live, target, permits, c, calls, halted.live)
    requires w == RolledBackTo(halted, j) ||
      (w == halted && (!CodecApproved(halted.live) || !permits(calls) || !permits(calls + 1)))
    requires w == RolledBackTo(halted, j) ==> CodecApproved(halted.live)
    ensures Answers(before, permits, c, target, j.identity, true, w)
  {
    if c < calls && !permits(calls - 1) {
      hide Meets, Checks, Staged, OldRelease;
      assert Staged(halted, j, target);
      forall m: nat, now | Refuses(permits, c, m) && Meets(before.live, target, m, now) ensures Undone(before, now, j.identity, w) {
        assert calls - 1 == c + m;
        MeetsOne(before.live, target, m, now, halted.live);
        StagedUndone(before, halted, j, target, w);
      }
    } else {
      PassedAnswers(before, permits, c, target, j.identity, w);
    }
  }

  lemma StagedUndone(before: World, halted: World, j: Journal, target: Release, w: World)
    requires Staged(halted, j, target) && WellFormed(halted.live) && OldRelease(j) == before.live
    requires w == if CodecApproved(halted.live) then RolledBackTo(halted, j) else halted
    ensures Undone(before, halted.live, j.identity, w)
  {
  }

  /** A staged disk can be rolled back exactly if the host check accepts what is live. */
  lemma ReadyIff(w: World, j: Journal, candidate: Release, whole: set<Release>)
    requires Inv(w, whole) && Staged(w, j, candidate)
    ensures WellFormed(w.live) && (RollbackReady(w) <==> CodecApproved(w.live))
    ensures RollbackChecks(w, j) <= 2
  {
    hide RecordsFit, OthersEnded;
  }

  function SwitchWrites(j: Journal): nat { if j.oldPublisher != j.newPublisher then 3 else 2 }

  predicate Replaced(j: Journal, i: nat) { i < |j.targets| && j.targets[i].oldHash != j.targets[i].newHash }

  function FileWrites(j: Journal, n: nat): nat {
    if n == 0 then 0 else FileWrites(j, n - 1) + FileCost(j, n - 1)
  }

  lemma NoFileWrites(j: Journal)
    ensures FileWrites(j, 0) == 0
  {
  }

  lemma FileWritesNext(j: Journal, i: nat)
    ensures FileWrites(j, i + 1) == FileWrites(j, i) + FileCost(j, i)
  {
  }

  function FileCost(j: Journal, i: nat): nat { if Replaced(j, i) then 2 else 1 }

  lemma FileWritesGrow(j: Journal, n: nat)
    ensures forall m :: 0 <= m < n ==> FileWrites(j, m) + FileCost(j, m) <= FileWrites(j, n)
    ensures forall m :: n < m ==> FileWrites(j, n) + FileCost(j, n) <= FileWrites(j, m)
  {
    hide FileWrites, FileCost;
    forall m | 0 <= m < n ensures FileWrites(j, m) + FileCost(j, m) <= FileWrites(j, n) { FileWritesNext(j, m); WritesBetween(j, m + 1, n); }
    forall m | n < m ensures FileWrites(j, n) + FileCost(j, n) <= FileWrites(j, m) { FileWritesNext(j, n); WritesBetween(j, n + 1, m); }
  }

  /** A budget that ends right after a replacement ends at one file only. */
  lemma CutHere(j: Journal, i: nat, stop: Option<nat>, rest: Option<nat>)
    ensures Spends(stop, FileWrites(j, i), true, rest) && rest.Some? && rest.value < FileCost(j, i) ==>
      forall k :: 0 <= k && Replaced(j, k) && stop == Some(FileWrites(j, k) + 1) ==> k == i && rest == Some(1)
  {
    FileWritesGrow(j, i);
  }

  lemma CutNowhere(j: Journal, stop: Option<nat>, rest: Option<nat>)
    ensures Spends(stop, FileWrites(j, TARGETS), true, rest) ==>
      forall k :: 0 <= k < TARGETS && Replaced(j, k) ==> stop != Some(FileWrites(j, k) + 1)
  {
    FileWritesGrow(j, TARGETS);
  }

  lemma {:induction false} WritesBetween(j: Journal, m: nat, n: nat)
    requires m <= n
    ensures FileWrites(j, m) <= FileWrites(j, n)
  {
    if m < n { WritesBetween(j, m, n - 1); }
  }

  lemma SameSteps(j: Journal, k: Journal, i: nat)
    requires SameTransaction(j, k)
    ensures OldRelease(k) == OldRelease(j) && NewRelease(k) == NewRelease(j)
    ensures Replaced(k, i) == Replaced(j, i) && FileCost(k, i) == FileCost(j, i) &&
      FileCheck(k, i) == FileCheck(j, i) && k.identity == j.identity
    ensures forall next :: SameTransaction(k, next) ==> SameTransaction(j, next)
  {
  }

  lemma {:induction false} SameWrites(j: Journal, k: Journal)
    requires SameTransaction(j, k)
    ensures SwitchWrites(j) == SwitchWrites(k) && forall n: nat ::
      FileWrites(j, n) == FileWrites(k, n) && Replaced(j, n) == Replaced(k, n)
  {
    forall n: nat ensures FileWrites(j, n) == FileWrites(k, n) { SameFileWrites(j, k, n); }
  }

  lemma {:induction false} SameFileWrites(j: Journal, k: Journal, n: nat)
    requires j.targets == k.targets
    ensures FileWrites(j, n) == FileWrites(k, n)
  {
    if n > 0 { SameFileWrites(j, k, n - 1); }
  }

  /** Writes between the last check and the moment file `i` is replaced, if it changes. */
  function CutAfter(live: Release, candidate: Release, i: nat): nat
    requires WellFormed(live) && WellFormed(candidate) && i < TARGETS
  {
    var j := Complete(Journal(0, Intent, live.publisher, candidate.publisher, 0, []), live, candidate);
    SwitchWrites(j) + FileWrites(j, i) + 1
  }

  lemma WritesOf(j: Journal, live: Release, candidate: Release)
    requires WellFormed(live) && WellFormed(candidate) && OldRelease(j) == live && NewRelease(j) == candidate
    ensures forall i :: 0 <= i < TARGETS ==>
      CutAfter(live, candidate, i) == SwitchWrites(j) + FileWrites(j, i) + 1 &&
      (Replaced(j, i) <==> live.files[i] != candidate.files[i])
  {
    var k := Complete(Journal(0, Intent, live.publisher, candidate.publisher, 0, []), live, candidate);
    assert forall i :: 0 <= i < TARGETS ==> j.targets[i].oldHash == OldRelease(j).files[i] && j.targets[i].newHash == NewRelease(j).files[i];
    assert |j.targets| == |OldRelease(j).files| && j.targets == k.targets;
    forall i | 0 <= i < TARGETS ensures FileWrites(j, i) == FileWrites(k, i) { SameFileWrites(j, k, i); }
  }

  lemma MixedEnds(live: Release, candidate: Release)
    requires WellFormed(live) && WellFormed(candidate)
    ensures Mixed(live, candidate, 0) == live.files && Mixed(live, candidate, TARGETS) == candidate.files
  {
  }

  lemma MixedNext(live: Release, candidate: Release, i: nat)
    requires WellFormed(live) && WellFormed(candidate) && i < TARGETS
    ensures |Mixed(live, candidate, i)| == TARGETS && Mixed(live, candidate, i)[i] == live.files[i]
    ensures Mixed(live, candidate, i)[i := candidate.files[i]] == Mixed(live, candidate, i + 1)
  {
  }

  lemma MixedNow(w: World, j: Journal, live: Release, candidate: Release, i: nat)
    requires Staged(w, j, candidate) && OldRelease(j) == live && i < TARGETS && WellFormed(live)
    requires w.live == Release(candidate.publisher, Mixed(live, candidate, i))
    ensures MixedAt(w.(live := w.live.(files := w.live.files[i := candidate.files[i]])), live, candidate, j.identity, i + 1)
  {
    MixedNext(live, candidate, i);
  }

  lemma CompleteFits(w: World, opening: Journal, candidate: Release, whole: set<Release>)
    requires Inv(w, whole) && w.interlock == Some(Interlock(opening, 1)) && WellFormed(w.live) &&
      WellFormed(candidate)
    requires opening.oldPublisher == w.live.publisher && opening.newPublisher == candidate.publisher &&
      w.live in whole && candidate in whole
    requires opening.identity in w.releases &&
      w.releases[opening.identity] == Directory(w.live.files, 0, None, None, 0)
    ensures InterlockInv(w, Interlock(Complete(opening, w.live, candidate), 1), whole)
  {
    hide RecordsFit, OthersEnded;
    CompleteRecords(opening, w.live, candidate);
  }

  lemma CompleteRecords(j: Journal, live: Release, candidate: Release)
    requires WellFormed(live) && WellFormed(candidate) && j.oldPublisher == live.publisher &&
      j.newPublisher == candidate.publisher
    ensures OldRelease(Complete(j, live, candidate)) == live &&
      NewRelease(Complete(j, live, candidate)) == candidate
  {
  }

  lemma SameEnds(j: Journal, k: Journal)
    requires SameTransaction(j, k)
    ensures OldRelease(k) == OldRelease(j) && NewRelease(k) == NewRelease(j)
  {
  }

  /** The release a promotion installs: its kit and the two records naming it. */
  function Candidate(sha: nat, kit: seq<Content>, identity: nat): (r: Release)
    requires |kit| == KIT
    ensures WellFormed(r) && CodecApproved(r)
  {
    Release(sha, kit + [Authority(sha, identity), Automatic(sha, kit)])
  }

  /** `aligned`: the checkout, the kit and both records already name this commit. */
  predicate Aligned(live: Release, sha: nat, kit: seq<Content>)
    requires WellFormed(live)
  {
    && live.publisher == sha && live.files[..KIT] == kit
    && live.files[KIT].Authority? && live.files[KIT].source == sha
    && live.files[AUTO] == Automatic(sha, kit)
  }

  /** The aligned releases are those that a promotion of this commit leaves. */
  lemma AlignedIff(live: Release, sha: nat, kit: seq<Content>)
    requires WellFormed(live) && |kit| == KIT
    ensures Aligned(live, sha, kit) <==> exists identity :: live == Candidate(sha, kit, identity)
  {
    if Aligned(live, sha, kit) {
      assert live.files == live.files[..KIT] + [live.files[KIT], live.files[AUTO]];
      assert live == Candidate(sha, kit, live.files[KIT].build);
    }
  }

  /** The record of the last release can be read, and so replaced. */
  predicate LastReadable(w: World) { w.last.Some? ==> w.last.value.links == 1 }

  /** Exactly when an undisturbed promotion succeeds. */
  predicate MayPromote(w: World, sha: nat, kit: seq<Content>, identity: nat) {
    && w.interlock.None? && InventoryComplete(w)
    && ((WellFormed(w.live) && Aligned(w.live, sha, kit)) || (identity !in w.releases && LastReadable(w)))
  }

  function LastReceipt(w: World): Option<Journal> {
    if w.last.Some? && w.last.value.identity in w.releases then w.releases[w.last.value.identity].receipt else None
  }

  /** Exactly when an undisturbed deliberate rollback succeeds: the last committed release is the
      installed one and not rolled back. */
  predicate MayRollBackLast(w: World) {
    && w.interlock.None? && InventoryComplete(w) && LastReadable(w)
    && LastReceipt(w).Some? && w.releases[w.last.value.identity].rollback.None?
    && w.live == NewRelease(LastReceipt(w).value)
  }

  /** The last receipt leads from the release before to the one that is live now. */
  ghost predicate Recorded(w: World, before: World, identity: nat) {
    && w.last == Some(Last(identity, 1)) && identity in w.releases &&
      w.releases == before.releases[identity := w.releases[identity]]
    && Ended(identity, w.releases[identity])
    && w.releases[identity].rollback.None? && w.releases[identity].receipt.Some?
    && OldRelease(w.releases[identity].receipt.value) == before.live &&
      NewRelease(w.releases[identity].receipt.value) == w.live
  }

  lemma CommittingRecords(before: World, w: World, j: Journal, candidate: Release, identity: nat)
    requires WellFormed(before.live) &&
      w.releases == before.releases[identity := Directory(before.live.files, CANDIDATES, None, None, 0)]
    requires OldRelease(j) == before.live && NewRelease(j) == candidate && w.live == candidate
    requires j.identity == identity && j.phase == Phase.Committed
    ensures Recorded(Committing(w, j), before, identity)
    ensures Committing(w, j).interlock.None? && Committing(w, j).live == candidate
  {
    assert |OldRelease(j).files| == |j.targets|;
  }

  lemma RecordedSame(w: World, before: World, interlock: Option<Interlock>, identity: nat)
    requires Recorded(w, before.(interlock := interlock), identity)
    ensures Recorded(w, before, identity)
  {
  }

  /** An undisturbed promotion that starts and is stopped while the first candidate file is written
      or right after file `i` is replaced leaves exactly that. */
  ghost predicate StopsAt(before: World, stop: Option<nat>, interrupted: bool, w: World, sha: nat, kit: seq<Content>, identity: nat)
    requires |kit| == KIT
  {
    MayPromote(before, sha, kit, identity) && WellFormed(before.live) && !Aligned(before.live, sha, kit) ==>
      && (stop == Some(2 + STAGING + 1) ==> interrupted && Stray(w, before.live, identity))
      && forall i ::
        0 <= i < TARGETS &&
        stop == Some(2 + PREPARING + CutAfter(before.live, Candidate(sha, kit, identity), i)) &&
        before.live.files[i] != Candidate(sha, kit, identity).files[i] ==>
           interrupted && MixedAt(w, before.live, Candidate(sha, kit, identity), identity, i + 1)
  }

  // ----- what one call undoes -----

  /** An undisturbed promotion followed by a deliberate rollback brings back what was live before,
      exactly as long as the inventory has room for one more directory: the 1001st release goes
      live and can no longer be taken back. */
  method PromoteThenRollBack(t: Transaction, sha: nat, kit: seq<Content>, identity: nat)
    returns (r: Outcome<()>)
    requires t.disk.Valid() && |kit| == KIT && t.host.Steady() && t.disk.stopAfter.None? &&
      MayPromote(t.disk.world, sha, kit, identity)
    requires WellFormed(t.disk.world.live)
    modifies t.disk, t.host`calls
    ensures t.disk.Valid() && t.disk.world.interlock.None?
    ensures r.Done? <==>
      Aligned(old(t.disk.world.live), sha, kit) || |old(t.disk.world.releases)| < MAX_RELEASES
    ensures t.disk.world.live == if r.Done? then old(t.disk.world.live) else Candidate(sha, kit, identity)
  {
    hide Inv, AllowedLog, StopsAt, Aligned, InventoryComplete;
    var promoted := t.Promote(sha, kit, identity);
    r := Done(());
    if promoted.value {
      ghost var w := t.disk.world;
      OneMore(old(t.disk.world), w, identity);
      r := t.RollbackLast();
    }
  }

  lemma OneMore(before: World, w: World, identity: nat)
    requires InventoryComplete(before) && Recorded(w, before, identity) && w.interlock.None? &&
      identity !in before.releases
    ensures MayRollBackLast(w) <==> |before.releases| < MAX_RELEASES
    ensures OldRelease(LastReceipt(w).value) == before.live
  {
    assert w.releases.Keys == before.releases.Keys + {identity};
    assert |w.releases| == |before.releases| + 1;
  }

  // ----- after a stop -----

  /** No write inside the directory of the transaction was cut, and the inventory has room. */
  predicate NothingCut(w: World, identity: nat) {
    identity in w.releases && w.releases[identity].pending == 0 && |w.releases| <= MAX_RELEASES
  }

  lemma InventoryAfter(w: World, j: Journal, whole: set<Release>)
    requires Inv(w, whole) && w.interlock == Some(Interlock(j, 1)) && j.targets != [] &&
      Inv(RolledBackTo(w, j), whole)
    requires j.identity in w.releases
    ensures InventoryComplete(RolledBackTo(w, j)) <==> NothingCut(w, j.identity)
  {
    var n := RolledBackTo(w, j);
    assert n.releases.Keys == w.releases.Keys && |n.releases| == |n.releases.Keys| && |w.releases| == |w.releases.Keys|;
    assert RecordsFit(j.identity, n.releases[j.identity], whole);
  }

  /** Whatever a stopped process left: an undisturbed recovery succeeds exactly when the disk is
      ready for it, and the promotion after that exactly when no write inside the release
      directory was cut, the inventory has room, and the record of the last release is readable or
      not needed. */
  method RecoverThenPromote(t: Transaction, sha: nat, kit: seq<Content>, identity: nat)
    returns (recovered: Outcome<()>, promoted: Outcome<bool>)
    requires t.disk.Valid() && |kit| == KIT && t.host.Steady() && t.disk.stopAfter.None? &&
      t.disk.world.interlock.Some?
    modifies t.disk, t.host`calls
    ensures recovered.Done? <==> old(RollbackReady(t.disk.world))
    ensures !recovered.Done? ==> !promoted.Done?
    ensures recovered.Done? ==> (promoted.Done? <==>
      && NothingCut(old(t.disk.world), old(t.disk.world.interlock.value.journal.identity))
      && (Aligned(OldRelease(old(t.disk.world.interlock.value.journal)), sha, kit) ||
        (identity !in old(t.disk.world.releases) && old(LastReadable(t.disk.world)))))
  {
    hide Inv, InventoryComplete, Aligned, StopsAt;
    ghost var w := t.disk.world;
    ghost var j := w.interlock.value.journal;
    ghost var whole := t.disk.whole;
    recovered := t.RollbackInterrupted();
    if recovered.Done? {
      ReadyFacts(w, whole);
      InventoryAfter(w, j, whole);
    }
    promoted := t.Promote(sha, kit, identity);
  }

  /** The same for a deliberate rollback after the recovery: besides, the record of the last
      release must still name the release that is live again. */
  method RecoverThenRollBackLast(t: Transaction) returns (recovered: Outcome<()>, undone: Outcome<()>)
    requires t.disk.Valid() && t.host.Steady() && t.disk.stopAfter.None? && t.disk.world.interlock.Some?
    modifies t.disk, t.host`calls
    ensures recovered.Done? <==> old(RollbackReady(t.disk.world))
    ensures !recovered.Done? ==> !undone.Done?
    ensures recovered.Done? ==> (undone.Done? <==>
      && NothingCut(old(t.disk.world), old(t.disk.world.interlock.value.journal.identity))
      && Returnable(old(t.disk.world), old(t.disk.world.interlock.value.journal)))
  {
    hide Inv, InventoryComplete;
    ghost var w := t.disk.world;
    ghost var j := w.interlock.value.journal;
    ghost var whole := t.disk.whole;
    recovered := t.RollbackInterrupted();
    if recovered.Done? {
      ReadyFacts(w, whole);
      InventoryAfter(w, j, whole);
    }
    undone := t.RollbackLast();
  }

  lemma ReadyFacts(w: World, whole: set<Release>)
    requires Inv(w, whole) && RollbackReady(w)
    ensures w.interlock == Some(Interlock(w.interlock.value.journal, 1)) &&
      |OldRelease(w.interlock.value.journal).files| == TARGETS
  {
    hide RecordsFit, OthersEnded;
  }

  /** The record of the last release names another release than the transaction `j`, and that
      release is the one `j` started from. */
  predicate Returnable(w: World, j: Journal) {
    && LastReadable(w) && LastReceipt(w).Some? && w.last.value.identity != j.identity
    && w.releases[w.last.value.identity].rollback.None? && OldRelease(j) == NewRelease(LastReceipt(w).value)
  }

  // ----- two disks that promotions leave behind -----

  function Kit(custodian: nat): (kit: seq<Content>)
    ensures |kit| == KIT && forall i :: 0 <= i < KIT ==> kit[i] == Plain(custodian)
  {
    seq(KIT, i => Plain(custodian))
  }

  /** A first release, and a disk that holds nothing else. */
  method FirstRelease(stopAfter: nat) returns (disk: Durable)
    ensures fresh(disk) && disk.Valid() && disk.stopAfter == Some(stopAfter)
    ensures disk.world == World(Candidate(0, Kit(0), 0), None, map[], None, 0)
  {
    var live := Candidate(0, Kit(0), 0);
    disk := new Durable(World(live, None, map[], None, 0), {live});
    disk.stopAfter := Some(stopAfter);
  }

  /** A stop while the first candidate file is written: the recovery succeeds and the first
      release is live again, but no promotion starts any more. */
  method StrayCandidate(sha: nat, kit: seq<Content>, identity: nat)
    returns (recovered: Outcome<()>, promoted: Outcome<bool>)
    requires |kit| == KIT
    ensures recovered.Done? && !promoted.Done?
  {
    hide Inv, AllowedLog, MayPromote, RollbackReady, Stray, NothingCut, Aligned, Candidate, StopsAt,
      InventoryComplete, Kit, Recorded;
    var disk := FirstRelease(2 + STAGING + 1);
    var host := new Host(_ => true);
    var t := new Transaction(disk, host);
    FirstMayPromote(disk.world);
    ghost var live, before := disk.world.live, disk.world;
    var first := t.Promote(1, Kit(1), 1);
    StopsStray(before, first.Interrupted?, disk.world, 1, Kit(1), 1);
    StrayReady(disk.world, live, 1, disk.whole);
    disk.stopAfter := None;
    recovered, promoted := RecoverThenPromote(t, sha, kit, identity);
  }

  /** A stop right after a new custodian was installed: every backup is there, and the recovery
      refuses. */
  method StrandedPromotion() returns (recovered: Outcome<()>)
    ensures !recovered.Done?
  {
    hide Inv, AllowedLog, MayPromote, RollbackReady, MixedAt, Aligned, CutAfter, StopsAt, InventoryComplete,
      Recorded;
    var live, candidate := Candidate(0, Kit(0), 0), Candidate(1, Kit(1), 1);
    var disk := FirstRelease(2 + PREPARING + CutAfter(live, candidate, CUSTODIAN));
    var host := new Host(_ => true);
    var t := new Transaction(disk, host);
    FirstMayPromote(disk.world);
    ghost var before := disk.world;
    var first := t.Promote(1, Kit(1), 1);
    StopsMixed(before, first.Interrupted?, disk.world, disk.whole);
    disk.stopAfter := None;
    recovered := t.RollbackInterrupted();
  }

  lemma StopsMixed(before: World, interrupted: bool, w: World, whole: set<Release>)
    requires before.live == Candidate(0, Kit(0), 0) && MayPromote(before, 1, Kit(1), 1) &&
      !Aligned(before.live, 1, Kit(1)) && Inv(w, whole)
    requires StopsAt(before, Some(2 + PREPARING + CutAfter(before.live, Candidate(1, Kit(1), 1), CUSTODIAN)),
      interrupted, w, 1, Kit(1), 1)
    ensures !RollbackReady(w)
  {
    hide Inv, MayPromote, Aligned, CutAfter, RollbackReady, MixedAt;
    var live, candidate := before.live, Candidate(1, Kit(1), 1);
    assert live.files[CUSTODIAN] == Kit(0)[CUSTODIAN] && candidate.files[CUSTODIAN] == Kit(1)[CUSTODIAN];
    StrandedNotReady(w, live, candidate, whole);
  }

  lemma StopsStray(before: World, interrupted: bool, w: World, sha: nat, kit: seq<Content>, identity: nat)
    requires |kit| == KIT && StopsAt(before, Some(2 + STAGING + 1), interrupted, w, sha, kit, identity)
    requires MayPromote(before, sha, kit, identity) && WellFormed(before.live) &&
      !Aligned(before.live, sha, kit)
    ensures Stray(w, before.live, identity)
  {
  }

  lemma FirstMayPromote(w: World)
    requires w == World(Candidate(0, Kit(0), 0), None, map[], None, 0)
    ensures WellFormed(w.live) && MayPromote(w, 1, Kit(1), 1) && !Aligned(w.live, 1, Kit(1))
  {
  }

  lemma StrayReady(w: World, live: Release, identity: nat, whole: set<Release>)
    requires Inv(w, whole) && Stray(w, live, identity)
    ensures RollbackReady(w) && !NothingCut(w, identity) && w.interlock.value.journal.identity == identity
  {
  }

  lemma StrandedNotReady(w: World, live: Release, candidate: Release, whole: set<Release>)
    requires Inv(w, whole) && MixedAt(w, live, candidate, 1, 3) &&
      live.files[CUSTODIAN] != candidate.files[CUSTODIAN]
    ensures !RollbackReady(w)
  {
    CutCanRollBackIff(w, w.interlock.value, live, candidate, 3, whole);
  }

  // ----- whole histories -----

  datatype Command =
    | Promoting(sha: nat, kit: seq<Content>, identity: nat, stopAfter: Option<nat>, permits: nat -> bool)
    | Recovering(stopAfter: Option<nat>, permits: nat -> bool)
    | Deliberate(stopAfter: Option<nat>, permits: nat -> bool)
    | Serving(ledger: nat)

  ghost predicate Undisturbed(c: Command) {
    c.Serving? || (c.stopAfter.None? && forall i: nat :: c.permits(i))
  }

  /** What one command makes of the disk `a`, stopped and disturbed or not. */
  ghost predicate Means(c: Command, a: World, b: World) {
    match c
    case Promoting(sha, kit, identity, stop, permits) =>
      if |kit| != KIT then b == a else
        && (a.interlock.Some? || !InventoryComplete(a) ==> b == a)
        && (b.interlock.None? ==> b.live in {a.live, Candidate(sha, kit, identity)})
        && (Undisturbed(c) && MayPromote(a, sha, kit, identity) ==>
              if WellFormed(a.live) && Aligned(a.live, sha, kit) then b == a
              else b.interlock.None? && b.live == Candidate(sha, kit, identity) && Recorded(b, a, identity))
        && (stop.None? && MayPromote(a, sha, kit, identity) ==> Refused(a, permits, 0, sha, kit, identity, true, b))
        && (Undisturbed(c) && !MayPromote(a, sha, kit, identity) ==> b.live == a.live && b.interlock == a.interlock)
    case Recovering(stop, permits) =>
      && (a.interlock.None? ==> b == a)
      && (b.interlock.None? && a.interlock.Some? ==> RollbackReady(a) && b == RolledBackTo(a, a.interlock.value.journal))
      && (Undisturbed(c) ==> (b.interlock.None? <==> a.interlock.None? || RollbackReady(a)))
    case Deliberate(stop, permits) =>
      && (!MayRollBackLast(a) ==> b == a)
      && (b.interlock.None? ==> b == a || b.live == OldRelease(LastReceipt(a).value))
      && (Undisturbed(c) && MayRollBackLast(a) ==> b.interlock.None? && b.live == OldRelease(LastReceipt(a).value))
    case Serving(ledger) => b == if a.interlock.None? then a.(ledger := ledger) else a
  }

  function Proposed(commands: seq<Command>): set<Release> {
    if commands == [] then {} else
      Proposed(commands[..|commands| - 1]) + match commands[|commands| - 1]
        case Promoting(sha, kit, identity, _, _) => if |kit| == KIT then {Candidate(sha, kit, identity)} else {}
        case _ => {}
  }

  method Perform(disk: Durable, c: Command)
    requires disk.Valid()
    modifies disk
    ensures disk.Valid() && old(disk.log) <= disk.log && disk.whole == old(disk.whole) + Proposed([c])
    ensures Means(c, old(disk.world), disk.world)
  {
    hide Inv, AllowedLog, InventoryComplete, MayPromote, MayRollBackLast, RollbackReady, Recorded, Aligned,
      StopsAt, Refused;
    assert [c][..0] == [] && Proposed([]) == {};
    match c {
      case Promoting(sha, kit, identity, stop, permits) =>
        if |kit| == KIT {
          disk.stopAfter := stop;
          var host := new Host(permits);
          var t := new Transaction(disk, host);
          LiveFits(disk.world, disk.whole);
          ghost var before := disk.world;
          var r := t.Promote(sha, kit, identity);
          if stop.None? && MayPromote(before, sha, kit, identity) { RefusedAnyway(before, permits, 0, sha, kit, identity, r.Blocked?, disk.world); }
        }
      case Recovering(stop, permits) =>
        disk.stopAfter := stop;
        var host := new Host(permits);
        var t := new Transaction(disk, host);
        var _ := t.RollbackInterrupted();
      case Deliberate(stop, permits) =>
        disk.stopAfter := stop;
        var host := new Host(permits);
        var t := new Transaction(disk, host);
        var _ := t.RollbackLast();
      case Serving(ledger) =>
        if disk.world.interlock.None? { disk.Serve(ledger); }
    }
  }

  /** Any sequence of promotions and rollbacks, each stopped anywhere, with services working
      whenever the gate lets them: `worlds` are the disks before and after each of them. At every
      moment an absent interlock means a whole release, and a recovery afterwards succeeds
      exactly when the disk it finds is ready for it. */
  method History(disk: Durable, commands: seq<Command>) returns (worlds: seq<World>, r: Outcome<()>)
    requires disk.Valid() && disk.log == [disk.world] && disk.world.interlock.None?
    modifies disk
    ensures disk.Valid() && old(disk.log) <= disk.log && disk.whole == old(disk.whole) + Proposed(commands)
    ensures |worlds| == |commands| + 1 && worlds[0] == old(disk.world) && forall n :: 0 <= n < |worlds| ==>
      worlds[n] in disk.log
    ensures forall n :: 0 <= n < |commands| ==> Means(commands[n], worlds[n], worlds[n + 1])
    ensures r.Done? <==> RollbackReady(worlds[|commands|])
    ensures r.Done? ==>
      disk.world == RolledBackTo(worlds[|commands|], worlds[|commands|].interlock.value.journal)
    ensures !r.Done? ==> disk.world.interlock.Some? == worlds[|commands|].interlock.Some?
    ensures forall i :: 0 <= i < |disk.log| && disk.log[i].interlock.None? ==> disk.log[i].live in disk.whole
  {
    hide Inv, AllowedLog, Means, RollbackReady;
    ghost var start := disk.world;
    LiveFits(start, disk.whole);
    worlds := [disk.world];
    for n := 0 to |commands|
      invariant disk.Valid() && old(disk.log) <= disk.log &&
        disk.whole == old(disk.whole) + Proposed(commands[..n])
      invariant |worlds| == n + 1 && worlds[0] == start && worlds[n] == disk.world && forall m ::
        0 <= m <= n ==> worlds[m] in disk.log
      invariant forall m :: 0 <= m < n ==> Means(commands[m], worlds[m], worlds[m + 1])
    {
      ghost var log := disk.log;
      ProposedNext(commands, n);
      Perform(disk, commands[n]);
      assert forall m :: 0 <= m <= n ==> worlds[m] in disk.log;
      worlds := worlds + [disk.world];
    }
    assert commands[..|commands|] == commands;
    disk.stopAfter := None;
    var host := new Host(_ => true);
    var t := new Transaction(disk, host);
    r := t.RollbackInterrupted();
    forall i | 0 <= i < |disk.log| && disk.log[i].interlock.None? ensures disk.log[i].live in disk.whole {
      NoInterlockMeansWhole(disk.log, disk.whole, i);
    }
  }

  lemma ProposedNext(commands: seq<Command>, n: nat)
    requires n < |commands|
    ensures Proposed(commands[..n + 1]) == Proposed(commands[..n]) + Proposed([commands[n]])
  {
    assert commands[..n + 1][..n] == commands[..n];
    assert [commands[n]][..0] == [];
  }
}
