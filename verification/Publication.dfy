/** Staging and publishing snapshots beside other ingestors, any of whose connections may break
    at any statement (backend-go/internal/ingestion/ingestor.go). */
module Publication {
  import opened Outcomes
  import opened PublicationWorld

  /** A statement may be refused, or the connection may be lost before or after its effect. */
  datatype Fault = Answered | Refused | Lost | LostAfter

  /** The database server. `script` is what the other sessions do between two statements of ours,
      including the loss of our own connection; it may be anything the protocol allows them. */
  class Server {
    var d: Database
    var step: nat
    const script: nat -> seq<Event>
    const faults: nat -> Fault
    const clock: nat -> int

    constructor (d: Database, script: nat -> seq<Event>, faults: nat -> Fault, clock: nat -> int)
      ensures this.d == d && this.script == script && this.faults == faults && this.clock == clock
    {
      this.d, step, this.script, this.faults, this.clock := d, 0, script, faults, clock;
    }

    /** Nobody else is at work, and every statement is answered. */
    ghost predicate Calm() { forall i: nat :: script(i) == [] && faults(i).Answered? }

    method Others(me: Session)
      requires Inv(d)
      modifies this
      ensures Rely(me, old(d), d) && step == old(step) + 1
      ensures Calm() ==> d == old(d)
    {
      hide Inv, Rely, Apply, Legal;
      var events := script(step);
      step := step + 1;
      RelyOnward(me, d, d, d);
      for i := 0 to |events|
        invariant Inv(d) && Rely(me, old(d), d) && step == old(step) + 1
        invariant i == 0 ==> d == old(d)
      {
        if Legal(d, events[i]) && (events[i].s != me || events[i].Drop?) {
          OthersRely(me, d, events[i]);
          RelyMeans(me, d, Apply(d, events[i]));
          RelyOnward(me, old(d), d, Apply(d, events[i]));
          d := Apply(d, events[i]);
        }
      }
    }

    /** One statement of session `me`. `hit` tells whether it changed anything, `mid` is the
        database just before it takes effect. */
    method Exec(me: Session, e: Event) returns (ok: bool, hit: bool, ghost mid: Database)
      requires Inv(d) && e.s == me && !e.Drop? && (me in d.alive ==> Legal(d, e))
      modifies this
      ensures Inv(d) && Rely(me, old(d), mid) && Grows(old(d), d) && step == old(step) + 1
      ensures ok ==>
        me in d.alive && me in mid.alive && Legal(mid, e) && d == Apply(mid, e) && hit == (d != mid)
      ensures !ok && me in d.alive ==> d == mid
      ensures Calm() && me in old(d).alive ==> ok && mid == old(d)
    {
      hide Inv, Rely, Legal, Apply;
      Others(me);
      mid := d;
      ok, hit := false, false;
      RelyMeans(me, old(d), d);
      GrowsOnward(old(d), d, d);
      if me !in d.alive { return; }
      LegalStays(me, old(d), d, e);
      EffectsGrow(old(d), d, e);
      match faults(step)
      case Refused =>
      case Lost => d := Apply(d, Drop(me));
      case LostAfter => d := Apply(Apply(d, e), Drop(me));
      case Answered => d, ok, hit := Apply(d, e), true, Apply(d, e) != d;
    }

    /** A statement on tables outside this model. */
    method Touch(me: Session) returns (ok: bool)
      requires Inv(d)
      modifies this
      ensures Inv(d) && Grows(old(d), d) && (me in d.alive ==> Rely(me, old(d), d)) && step == old(step) + 1
      ensures ok ==> me in d.alive
      ensures Calm() && me in old(d).alive ==> ok && d == old(d)
    {
      hide Inv, Rely, Legal, Apply;
      Others(me);
      RelyMeans(me, old(d), d);
      ok := me in d.alive && faults(step).Answered?;
      if me in d.alive && (faults(step).Lost? || faults(step).LostAfter?) {
        DropGrows(old(d), d, me);
        d := Apply(d, Drop(me));
      }
    }

    /** The baseline query: the published snapshot with the greatest timestamp. */
    method Newest(me: Session) returns (ok: bool, row: Option<Id>, at: Option<int>)
      requires Inv(d)
      modifies this
      ensures Inv(d) && Grows(old(d), d) && (me in d.alive ==> Rely(me, old(d), d)) && step == old(step) + 1
      ensures ok ==> me in d.alive && row == Latest(d) && forall id: Id :: IsNewest(d, id) <==> row == Some(id)
      ensures ok ==> at == Floor(d, row)
      ensures Calm() && me in old(d).alive ==> ok && d == old(d)
    {
      ok := Touch(me);
      row, at := None, None;
      if ok {
        row, at := Latest(d), Floor(d, Latest(d));
        forall id: Id ensures IsNewest(d, id) <==> row == Some(id) { NewestIsLatest(d, id); }
      }
    }
  }

  function Floor(d: Database, row: Option<Id>): Option<int> {
    if row.None? then None else if row.value in d.snaps then d.snaps[row.value].at else None
  }

  lemma RelyMeans(me: Session, a: Database, b: Database)
    requires Rely(me, a, b)
    ensures Inv(b) && Grows(a, b)
  {
  }

  lemma EffectsGrow(o: Database, d: Database, e: Event)
    requires Inv(d) && Legal(d, e) && !e.Drop? && Grows(o, d)
    ensures Inv(Apply(d, e)) && Grows(o, Apply(d, e)) && Apply(d, e).alive == d.alive
    ensures var f := Apply(Apply(d, e), Drop(e.s)); Inv(f) && Grows(o, f) && e.s !in f.alive
    ensures var f := Apply(d, Drop(e.s)); Inv(f) && Grows(o, f) && e.s !in f.alive
  {
    LegalKeepsInv(d, e);
    LegalMoves(d, e);
    var n := Apply(d, e);
    GrowsOnward(o, d, n);
    assert n.alive == d.alive;
    DropGrows(o, n, e.s);
    DropGrows(o, d, e.s);
  }

  lemma DropGrows(o: Database, d: Database, s: Session)
    requires Inv(d) && Grows(o, d) && s in d.alive
    ensures Inv(Apply(d, Drop(s))) && Grows(o, Apply(d, Drop(s))) && s !in Apply(d, Drop(s)).alive
  {
  }

  // ----- the ingestor -----

  /** `me` has kept its connection only if its lock count moved by `change`; while it held the
      lock all along, nobody published. */
  ghost predicate Kept(me: Session, a: Database, b: Database, change: int) {
    && Inv(b) && Grows(a, b)
    && (me in b.alive ==> Held(b, me) == Held(a, me) + change && (Held(a, me) > 0 ==> b.chain == a.chain))
  }

  lemma KeptOnward(me: Session, a: Database, b: Database, m: int, c: Database, n: int)
    requires Kept(me, a, b, m) && Kept(me, b, c, n)
    requires me in c.alive && Held(a, me) > 0 ==> Held(a, me) + m > 0
    ensures Kept(me, a, c, m + n)
  {
  }

  lemma LockMeans(me: Session, a: Database, mid: Database)
    requires Rely(me, a, mid) && me in mid.alive
    ensures var b := Apply(mid, TryLock(me));
      Held(b, me) == Held(a, me) + (if mid.lock.None? || mid.lock.value.holder == me then 1 else 0) &&
      b.chain == mid.chain
    ensures var b := Apply(mid, Unlock(me));
      Held(a, me) > 0 ==> Held(b, me) == Held(a, me) - 1 && b.chain == mid.chain
    ensures Held(a, me) > 0 <==> Held(mid, me) > 0
  {
  }

  class Ingestor {
    const me: Session
    const server: Server

    constructor (me: Session, server: Server)
      ensures this.me == me && this.server == server
    {
      this.me, this.server := me, server;
    }

    /** This session's connection is up on a calm server. */
    ghost predicate Calm()
      reads server
    {
      me in server.d.alive && server.Calm()
    }

    method Lock() returns (ok: bool)
      requires Inv(server.d)
      modifies server
      ensures Kept(me, old(server.d), server.d, if ok then 1 else 0)
      ensures ok ==> me in server.d.alive
      ensures old(Calm()) ==>
        Calm() && server.d == Apply(old(server.d), TryLock(me)) && (ok <==> Free(old(server.d), me))
    {
      var sent, acquired, mid := server.Exec(me, TryLock(me));
      ok := sent && acquired;
      if sent { LockMeans(me, old(server.d), mid); }
    }

    /** A lock that cannot be released goes with its connection. */
    method Unlock()
      requires Inv(server.d) && (me in server.d.alive ==> Held(server.d, me) > 0)
      modifies server
      ensures Kept(me, old(server.d), server.d, -1)
      ensures old(Calm()) ==> server.d == Apply(old(server.d), PublicationWorld.Unlock(me))
    {
      var sent, released, mid := server.Exec(me, PublicationWorld.Unlock(me));
      if sent { LockMeans(me, old(server.d), mid); }
      if !sent || !released {
        if me in server.d.alive {
          DropGrows(old(server.d), server.d, me);
          server.d := Apply(server.d, Drop(me));
        }
      }
    }

    /** The same inside a transaction that a failed statement has aborted: the query is refused,
        so the connection is closed. */
    method UnlockAborted()
      requires Inv(server.d)
      modifies server
      ensures Kept(me, old(server.d), server.d, -1) && me !in server.d.alive
      ensures old(Calm()) ==> server.d == Apply(old(server.d), Drop(me))
    {
      hide Rely;
      var _ := server.Touch(me);
      if me in server.d.alive {
        DropGrows(old(server.d), server.d, me);
        server.d := Apply(server.d, Drop(me));
      }
    }

    /** DryRun: `valid` and `resolves` are the outcomes of validation and resolution. */
    method DryRun(valid: bool, resolves: bool) returns (ok: bool)
      requires Inv(server.d)
      modifies server
      ensures Kept(me, old(server.d), server.d, 0)
      ensures old(Calm()) ==>
        server.d == old(server.d) && (ok <==> valid && Free(old(server.d), me) && resolves)
    {
      hide Kept, Rely, Grows, Inv, Apply;
      ghost var d0 := server.d;
      KeptNone(me, d0);
      LockedStaging(d0, me, None, true, true);
      if !valid { return false; }
      ok := Lock();
      if !ok { return; }
      ghost var d1 := server.d;
      KeptMeans(me, d0, d1, 1);
      var row, at;
      ok, row, at := Baseline();
      ghost var d2 := server.d;
      KeptOn(me, d0, d1, d2);
      Unlock();
      KeptOnward(me, d0, d2, 1, server.d, -1);
      ok := ok && resolves;
    }

    /** The newest published snapshot, and what else belongs to it. */
    method Baseline() returns (ready: bool, row: Option<Id>, at: Option<int>)
      requires Inv(server.d) && (me in server.d.alive ==> Held(server.d, me) > 0)
      modifies server
      ensures Kept(me, old(server.d), server.d, 0)
      ensures ready ==> row == Latest(server.d) && at == Floor(server.d, row) && me in server.d.alive
      ensures old(Calm()) ==> server.d == old(server.d) && ready
    {
      hide Inv, Grows, Rely;
      ghost var d0 := server.d;
      KeptNone(me, d0);
      ready, row, at := server.Newest(me);
      ghost var d1 := server.d;
      TouchKept(me, d0, d1);
      KeptMeans(me, d0, d1, 0);
      if !ready { return; }
      ready := server.Touch(me);
      ghost var d2 := server.d;
      TouchKept(me, d1, d2);
      KeptMeans(me, d1, d2, 0);
      KeptOnward(me, d0, d1, 0, d2, 0);
      if ready { FloorStays(me, d1, d2); }
    }

    /** The statements of the staging transaction before its commit: `begun` if it was opened,
        `aborted` if one of them failed, as the first one does for a colliding id. `encodes` is
        the outcome of everything between them that is no statement. */
    method Write(id: Id, encodes: bool) returns (begun: bool, aborted: bool, ready: bool)
      requires Inv(server.d) && (me in server.d.alive ==> Held(server.d, me) > 0)
      modifies server
      ensures Kept(me, old(server.d), server.d, 0) && (aborted ==> begun && !ready) &&
        (ready ==> encodes && me in server.d.alive)
      ensures me in server.d.alive ==>
        Latest(server.d) == Latest(old(server.d)) &&
        Floor(server.d, Latest(server.d)) == Floor(old(server.d), Latest(old(server.d)))
      ensures old(Calm()) ==>
        server.d == old(server.d) && begun && (aborted <==> id in old(server.d).snaps) &&
        (ready <==> id !in old(server.d).snaps && encodes)
    {
      hide Inv, Grows, Rely, Latest, Floor;
      ghost var d0 := server.d;
      KeptNone(me, d0);
      aborted, ready := false, false;
      begun := server.Touch(me);
      ghost var d1 := server.d;
      StillSame(me, d0, d0, d1);
      if !begun { return; }
      var inserted := server.Touch(me);
      ghost var d2 := server.d;
      StillSame(me, d0, d1, d2);
      if !inserted || id in server.d.snaps { aborted := true; return; }
      if !encodes { return; }
      ready := server.Touch(me);
      StillSame(me, d0, d2, server.d);
      aborted := !ready;
    }

    /** Commits the staging transaction: a colliding id fails it. */
    method Insert(id: Id, row: Option<Id>) returns (sent: bool, stored: bool)
      requires Inv(server.d) && (me in server.d.alive ==> Held(server.d, me) > 0)
      modifies server
      ensures Kept(me, old(server.d), server.d, 0) && (sent ==> me in server.d.alive)
      ensures sent && stored ==> id in server.d.snaps && server.d.snaps[id] == Snap(Building, None, row, me)
      ensures old(Calm()) ==>
        Calm() && sent && server.d == Apply(old(server.d), PublicationWorld.Insert(me, id, row)) &&
        (stored <==> id !in old(server.d).snaps)
    {
      ghost var mid;
      sent, stored, mid := server.Exec(me, PublicationWorld.Insert(me, id, row));
    }

    /** The unconditional move to `validating`. */
    method StartValidation(id: Id) returns (ok: bool)
      requires Inv(server.d) && (me in server.d.alive ==> Held(server.d, me) > 0)
      requires id in server.d.snaps && server.d.snaps[id].owner == me && server.d.snaps[id].status == Building
      modifies server
      ensures Kept(me, old(server.d), server.d, 0)
      ensures ok ==> id in server.d.snaps && server.d.snaps[id].status == Validating
      ensures old(Calm()) ==> ok && server.d == Apply(old(server.d), PublicationWorld.Validate(me, id))
    {
      var hit;
      ghost var mid;
      ok, hit, mid := server.Exec(me, PublicationWorld.Validate(me, id));
    }

    /** Stage: `valid`, `encodes` and `resolves` are the outcomes of validation, of encoding the
        rows and of resolution, `draw` that of the random generator. */
    method Stage(valid: bool, draw: Option<Id>, encodes: bool, resolves: bool) returns (s: Option<Staged>)
      requires Inv(server.d)
      modifies server
      ensures s.Some? ==> Kept(me, old(server.d), server.d, 1)
      ensures s.None? ==> Kept(me, old(server.d), server.d, 0)
      ensures s.Some? ==> fresh(s.value) && s.value.engine == this && !s.value.done && !s.value.closed
      ensures s.Some? ==> s.value.Planned() && server.d.snaps[s.value.id].status == Validating
      ensures old(Calm()) ==> server.d == Staging(old(server.d), me, valid, draw, encodes, resolves)
      ensures old(Calm()) ==>
        (s.Some? <==> Stages(old(server.d), me, valid, draw, encodes) && resolves) &&
        (s.Some? ==> s.value.id == draw.value)
    {
      hide Inv, Grows, Apply, Kept, Rely, Legal, PlannedOn, Staging, Locked;
      s := None;
      ghost var d0 := server.d;
      KeptNone(me, d0);
      LockedStaging(d0, me, draw, encodes, resolves);
      NotStaging(d0, me, valid, draw, encodes, resolves);
      if !valid { return; }
      var locked := Lock();
      if !locked { return; }
      ghost var d1 := server.d;
      KeptMeans(me, d0, d1, 1);
      s := StageLocked(draw, encodes, resolves);
      KeptOnward(me, d0, d1, 1, server.d, if s.Some? then 0 else -1);
    }

    /** The rest of Stage, with the lock held. */
    method StageLocked(draw: Option<Id>, encodes: bool, resolves: bool) returns (s: Option<Staged>)
      requires Inv(server.d) && (me in server.d.alive ==> Held(server.d, me) > 0)
      modifies server
      ensures Kept(me, old(server.d), server.d, if s.Some? then 0 else -1)
      ensures s.Some? ==> fresh(s.value) && s.value.engine == this && !s.value.done && !s.value.closed
      ensures s.Some? ==> s.value.Planned() && server.d.snaps[s.value.id].status == Validating
      ensures old(Calm()) ==> server.d == Locked(old(server.d), me, draw, encodes, resolves)
      ensures old(Calm()) ==>
        (s.Some? <==> draw.Some? && encodes && draw.value !in old(server.d).snaps && resolves) &&
        (s.Some? ==> s.value.id == draw.value)
    {
      hide Inv, Grows, Apply, Kept, Rely, Legal, PlannedOn, Latest, Floor;
      s := None;
      ghost var d1 := server.d;
      var ready, row, at := Baseline();
      ghost var d2 := server.d;
      KeptMeans(me, d1, d2, 0);
      if !ready || draw.None? { Unlock(); KeptOnward(me, d1, d2, 0, server.d, -1); return; }
      var begun, aborted, written := Write(draw.value, encodes);
      ghost var d3 := server.d;
      KeptHeld(me, d1, d2, d3);
      if !written {
        if aborted { UnlockAborted(); } else { Unlock(); }
        KeptOnward(me, d1, d3, 0, server.d, -1);
        return;
      }
      var sent, stored := Insert(draw.value, row);
      ghost var d4 := server.d;
      KeptHeld(me, d1, d3, d4);
      if !sent || !stored {
        Unlock();
        KeptOnward(me, d1, d4, 0, server.d, -1);
        return;
      }
      var staged := new Staged(this, draw.value, row, at);
      InsertedPlanned(me, d3, d4, draw.value, row, at);
      s := Conclude(staged, resolves);
      KeptOnward(me, d1, d4, 0, server.d, if s.Some? then 0 else -1);
    }

    /** The snapshot is stored: it starts to validate, or the run ends as failed. */
    method Conclude(staged: Staged, resolves: bool) returns (s: Option<Staged>)
      requires Inv(server.d) && (me in server.d.alive ==> Held(server.d, me) > 0)
      requires staged.engine == this && !staged.done && !staged.closed && staged.Planned() &&
        server.d.snaps[staged.id].status == Building
      modifies server, staged
      ensures Kept(me, old(server.d), server.d, if s.Some? then 0 else -1)
      ensures s.Some? ==>
        s.value == staged && !staged.done && !staged.closed && staged.Planned() &&
        server.d.snaps[staged.id].status == Validating
      ensures old(Calm()) ==> (s.Some? <==> resolves)
      ensures old(Calm()) ==>
        server.d == if resolves then Apply(old(server.d), PublicationWorld.Validate(me, staged.id))
        else Apply(Apply(old(server.d), PublicationWorld.Fail(me, staged.id)), PublicationWorld.Unlock(me))
    {
      hide Inv, Grows, Apply, Kept, Rely, Legal, Latest, Floor;
      s := None;
      ghost var d0 := server.d;
      KeptNone(me, d0);
      if resolves {
        var moved := StartValidation(staged.id);
        KeptHeld(me, d0, d0, server.d);
        PlannedStays(d0, server.d, me, staged.id, staged.previous, staged.floor);
        if moved { return Some(staged); }
      }
      ghost var d1 := server.d;
      staged.Fail();
      KeptHeld(me, d0, d1, server.d);
      ghost var d2 := server.d;
      staged.Close();
      KeptOnward(me, d0, d2, 0, server.d, -1);
    }
  }

  predicate Free(d: Database, me: Session) { d.lock.None? || d.lock.value.holder == me }

  /** Whether an undisturbed run gets its snapshot stored. */
  predicate Stages(d: Database, me: Session, valid: bool, draw: Option<Id>, encodes: bool) {
    valid && Free(d, me) && draw.Some? && encodes && draw.value !in d.snaps
  }

  /** Whether it draws an id that is taken: the statement fails, the lock cannot be released in the
      aborted transaction, and the connection goes. */
  predicate Collides(d: Database, me: Session, valid: bool, draw: Option<Id>) {
    valid && Free(d, me) && draw.Some? && draw.value in d.snaps
  }

  /** What undisturbed staging leaves behind: the snapshot with the lock held once more, a failed
      snapshot when resolution fails, no connection and no lock after a collision, and nothing at
      all otherwise. */
  function Staging(d: Database, me: Session, valid: bool, draw: Option<Id>, encodes: bool, resolves: bool): Database {
    if Collides(d, me, valid, draw) then d.(alive := d.alive - {me}, lock := None)
    else if !Stages(d, me, valid, draw, encodes) then d
    else if resolves then d.(snaps := d.snaps[draw.value := Snap(Validating, None, Latest(d), me)], lock := Some(Lock(me, Held(d, me) + 1)))
    else d.(snaps := d.snaps[draw.value := Snap(PublicationWorld.Failed, None, Latest(d), me)])
  }

  /** The same from the moment the lock is taken. */
  function Locked(a: Database, me: Session, draw: Option<Id>, encodes: bool, resolves: bool): Database {
    if draw.Some? && draw.value in a.snaps then Apply(a, Drop(me))
    else if draw.None? || !encodes then Apply(a, PublicationWorld.Unlock(me))
    else
      var b := Apply(a, PublicationWorld.Insert(me, draw.value, Latest(a)));
      if resolves then Apply(b, PublicationWorld.Validate(me, draw.value))
      else Apply(Apply(b, PublicationWorld.Fail(me, draw.value)), PublicationWorld.Unlock(me))
  }

  lemma LockedStaging(d: Database, me: Session, draw: Option<Id>, encodes: bool, resolves: bool)
    requires Inv(d)
    ensures var a := Apply(d, TryLock(me));
      && a.snaps == d.snaps && (!Free(d, me) ==> a == d)
      && (Free(d, me) ==> Locked(a, me, draw, encodes, resolves) == Staging(d, me, true, draw, encodes, resolves))
  {
  }

  lemma NotStaging(d: Database, me: Session, valid: bool, draw: Option<Id>, encodes: bool, resolves: bool)
    ensures !valid || !Free(d, me) ==> Staging(d, me, valid, draw, encodes, resolves) == d
  {
  }

  /** A statement on other tables, for a session that has kept its lock since `a`. */
  lemma StillSame(me: Session, a: Database, b: Database, c: Database)
    requires Inv(a) && Kept(me, a, b, 0) && (me in a.alive ==> Held(a, me) > 0)
    requires Inv(c) && Grows(b, c) && (me in c.alive ==> Rely(me, b, c))
    ensures Kept(me, a, c, 0)
    ensures me in c.alive ==> Latest(c) == Latest(a) && Floor(c, Latest(c)) == Floor(a, Latest(a))
  {
    TouchKept(me, b, c);
    KeptOnward(me, a, b, 0, c, 0);
    if me in c.alive { FloorStays(me, a, c); }
  }

  lemma KeptHeld(me: Session, a: Database, b: Database, c: Database)
    requires Kept(me, a, b, 0) && Kept(me, b, c, 0) && (me in a.alive ==> Held(a, me) > 0)
    ensures Kept(me, a, c, 0) && Inv(c) && Grows(b, c) &&
      (me in c.alive ==> me in b.alive && Held(c, me) == Held(a, me) > 0)
  {
    KeptOnward(me, a, b, 0, c, 0);
  }

  lemma SameSessions(d: Database, e: Event)
    ensures !e.Drop? ==> Apply(d, e).alive == d.alive
  {
  }

  /** While the lock is held nothing but one's own statements moves it. */
  lemma KeptOn(me: Session, a: Database, b: Database, c: Database)
    requires Kept(me, a, b, 1) && Kept(me, b, c, 0)
    ensures Kept(me, a, c, 1) && Inv(c) && Grows(b, c) &&
      (me in c.alive ==> me in b.alive && Held(c, me) == Held(a, me) + 1)
  {
  }

  lemma InsertedPlanned(me: Session, a: Database, b: Database, id: Id, row: Option<Id>, at: Option<int>)
    requires Inv(a) && Kept(me, a, b, 0) && me in b.alive && Held(a, me) > 0 && row == Latest(a) &&
      at == Floor(a, row)
    requires id in b.snaps && b.snaps[id] == Snap(Building, None, row, me)
    ensures PlannedOn(b, me, id, row, at)
  {
  }

  lemma TouchKept(me: Session, a: Database, b: Database)
    requires Inv(b) && Grows(a, b) && (me in b.alive ==> Rely(me, a, b))
    ensures Kept(me, a, b, 0)
  {
  }

  lemma FloorStays(me: Session, a: Database, b: Database)
    requires Inv(a) && Kept(me, a, b, 0) && me in b.alive && Held(a, me) > 0
    ensures Latest(b) == Latest(a) && Floor(b, Latest(b)) == Floor(a, Latest(a))
  {
  }

  lemma KeptNone(me: Session, d: Database)
    requires Inv(d)
    ensures Kept(me, d, d, 0)
  {
  }

  /** What a staged run was planned on. */
  ghost predicate PlannedOn(d: Database, me: Session, id: Id, previous: Option<Id>, floor: Option<int>) {
    && id in d.snaps && d.snaps[id].owner == me && d.snaps[id].base == previous
    && (if previous.None? then floor.None?
      else previous.value in d.chain && previous.value in d.snaps && floor == d.snaps[previous.value].at)
  }

  lemma PlannedStays(a: Database, b: Database, me: Session, id: Id, previous: Option<Id>, floor: Option<int>)
    requires Inv(a) && Grows(a, b) && PlannedOn(a, me, id, previous, floor)
    ensures PlannedOn(b, me, id, previous, floor)
  {
  }

  lemma FailMeans(me: Session, a: Database, mid: Database, id: Id)
    requires Rely(me, a, mid) && Legal(mid, PublicationWorld.Fail(me, id)) && id in a.snaps &&
      a.snaps[id].owner == me
    ensures var b := Apply(mid, PublicationWorld.Fail(me, id));
      Kept(me, a, b, 0) && id in b.snaps && b.snaps[id].status == if a.snaps[id].status in {Building, Validating} then Failed else a.snaps[id].status
  {
    LegalKeepsInv(mid, PublicationWorld.Fail(me, id));
    LegalMoves(mid, PublicationWorld.Fail(me, id));
    GrowsOnward(a, mid, Apply(mid, PublicationWorld.Fail(me, id)));
  }

  /** The later of the clock and the instant right after the baseline. */
  predicate Dated(at: Option<int>, clock: int, floor: Option<int>) {
    && at.Some? && at.value >= clock && (floor.Some? ==> at.value > floor.value)
    && (at.value == clock || (floor.Some? && at.value == floor.value + 1))
  }

  lemma PublishMeans(me: Session, a: Database, mid: Database, id: Id, floor: Option<int>, now: int)
    requires Inv(a) && Rely(me, a, mid) && Held(a, me) > 0 && me in mid.alive && id in a.snaps &&
      a.snaps[id].owner == me && a.snaps[id].status == Validating
    requires Legal(mid, PublicationWorld.Publish(me, id, floor, now))
    ensures var b := Apply(mid, PublicationWorld.Publish(me, id, floor, now));
      b.chain == a.chain + [id] && id in b.snaps && b.snaps[id].status == Published && Dated(b.snaps[id].at, now, floor) && Held(b, me) == Held(a, me)
  {
  }

  class Staged {
    const engine: Ingestor
    const id: Id
    const previous: Option<Id>
    const floor: Option<int>
    var done: bool
    var closed: bool

    constructor (engine: Ingestor, id: Id, previous: Option<Id>, floor: Option<int>)
      ensures this.engine == engine && this.id == id && this.previous == previous && this.floor == floor &&
        !done && !closed
    {
      this.engine, this.id, this.previous, this.floor, done, closed := engine, id, previous, floor, false, false;
    }

    ghost predicate Planned()
      reads this, engine, engine.server
    {
      PlannedOn(engine.server.d, engine.me, id, previous, floor)
    }

    /** Keeps the snapshot as failed, unless it is published already. */
    method Fail()
      requires Inv(engine.server.d) && Planned()
      modifies this`done, engine.server
      ensures done && Planned() && Kept(engine.me, old(engine.server.d), engine.server.d, 0)
      ensures old(engine.Calm()) ==>
        engine.Calm() && engine.server.d == Apply(old(engine.server.d), PublicationWorld.Fail(engine.me, id))
    {
      hide Apply, Legal, Kept, Rely, Grows, Inv;
      if engine.me in engine.server.d.alive { FailLegal(engine.server.d, engine.me, id, previous, floor); }
      var sent, hit, mid := engine.server.Exec(engine.me, PublicationWorld.Fail(engine.me, id));
      PlannedStays(old(engine.server.d), engine.server.d, engine.me, id, previous, floor);
      if sent { FailMeans(engine.me, old(engine.server.d), mid, id); }
      SameSessions(old(engine.server.d), PublicationWorld.Fail(engine.me, id));
      SilentKept(engine.me, old(engine.server.d), mid, engine.server.d, sent);
      done := true;
    }

    /** Publish: succeeds only on top of the snapshot the run was planned against. */
    method Publish(writes: bool) returns (ok: bool)
      requires Inv(engine.server.d) && Planned()
      requires !closed && engine.me in engine.server.d.alive ==> Held(engine.server.d, engine.me) > 0
      modifies this, engine.server
      ensures Planned() && closed == old(closed) && Inv(engine.server.d) &&
        Grows(old(engine.server.d), engine.server.d)
      ensures engine.me in engine.server.d.alive ==>
        Held(engine.server.d, engine.me) == Held(old(engine.server.d), engine.me)
      ensures ok ==>
        !old(done) && !old(closed) && done && engine.me in engine.server.d.alive &&
        previous == Latest(old(engine.server.d))
      ensures ok ==>
        engine.server.d.chain == old(engine.server.d.chain) + [id] &&
        Dated(engine.server.d.snaps[id].at, engine.server.clock(old(engine.server.step) + 4), floor)
      ensures !ok ==>
        (old(done || closed) && engine.server.d == old(engine.server.d)) ||
        (done && Kept(engine.me, old(engine.server.d), engine.server.d, 0))
      ensures old(engine.Calm() && !done && !closed) ==>
        (ok <==> writes && previous == Latest(old(engine.server.d)) && RowMatches(old(engine.server.d)))
      ensures old(engine.Calm() && !done && !closed) && !ok ==>
        engine.server.d == Apply(old(engine.server.d), PublicationWorld.Fail(engine.me, id))
    {
      hide Apply, Legal, Kept, Rely, Grows, Inv, PlannedOn, Dated;
      ok := false;
      ghost var d0 := engine.server.d;
      KeptNone(engine.me, d0);
      KeptMeans(engine.me, d0, d0, 0);
      if done || closed { return; }
      var ready, now := Prepare(writes);
      ghost var d1 := engine.server.d;
      KeptMeans(engine.me, d0, d1, 0);
      if ready {
        ok := Commit(now);
        GrowsOnward(d0, d1, engine.server.d);
        if ok {
          StillThere(engine.me, d0, d1, d1);
          done := true;
          return;
        }
        KeptOnward(engine.me, d0, d1, 0, engine.server.d, 0);
      }
      ghost var d2 := engine.server.d;
      Fail();
      KeptOnward(engine.me, d0, d2, 0, engine.server.d, 0);
      KeptMeans(engine.me, d0, engine.server.d, 0);
    }

    /** The commit of the publishing transaction, with the update of the snapshot row in it. */
    method Commit(now: int) returns (ok: bool)
      requires Inv(engine.server.d) && Planned()
      requires engine.me in engine.server.d.alive ==>
        Held(engine.server.d, engine.me) > 0 && previous == Latest(engine.server.d) && engine.server.d.snaps[id].status == Validating
      modifies engine.server
      ensures Planned() && Inv(engine.server.d) && Grows(old(engine.server.d), engine.server.d)
      ensures ok ==> engine.me in engine.server.d.alive && engine.me in old(engine.server.d.alive)
      ensures ok ==>
        engine.server.d.chain == old(engine.server.d.chain) + [id] && id in engine.server.d.snaps &&
        Dated(engine.server.d.snaps[id].at, now, floor) && Held(engine.server.d, engine.me) == Held(old(engine.server.d), engine.me)
      ensures !ok ==> Kept(engine.me, old(engine.server.d), engine.server.d, 0)
      ensures old(engine.Calm()) ==> ok
    {
      hide Apply, Legal, Kept, Rely, Grows, Inv, PlannedOn, Dated;
      ghost var d1 := engine.server.d;
      KeptNone(engine.me, d1);
      if engine.me in d1.alive { PublishLegal(d1, engine.me, id, previous, floor, now); }
      var hit;
      ghost var mid;
      ok, hit, mid := engine.server.Exec(engine.me, PublicationWorld.Publish(engine.me, id, floor, now));
      PlannedStays(d1, engine.server.d, engine.me, id, previous, floor);
      if ok {
        StillThere(engine.me, d1, d1, mid);
        PublishMeans(engine.me, d1, mid, id, floor, now);
      } else {
        SilentKept(engine.me, d1, mid, engine.server.d, false);
      }
    }

    /** Begin, and the comparison with the newest published snapshot. */
    method Compare() returns (same: bool)
      requires Inv(engine.server.d) && Planned()
      requires engine.me in engine.server.d.alive ==> Held(engine.server.d, engine.me) > 0
      modifies engine.server
      ensures Inv(engine.server.d) && Planned() && Kept(engine.me, old(engine.server.d), engine.server.d, 0)
      ensures same ==> engine.server.step == old(engine.server.step) + 2
      ensures same ==> previous == Latest(engine.server.d)
      ensures old(engine.Calm()) ==>
        engine.server.d == old(engine.server.d) && (same <==> previous == Latest(old(engine.server.d)))
    {
      hide Kept, Rely, Grows, Inv, PlannedOn, Latest;
      ghost var d0 := engine.server.d;
      KeptNone(engine.me, d0);
      same := engine.server.Touch(engine.me);
      ghost var d1 := engine.server.d;
      TouchOn(engine.me, d0, d0, d1, id, previous, floor);
      if !same { return; }
      var read, current, at := engine.server.Newest(engine.me);
      TouchOn(engine.me, d0, d1, engine.server.d, id, previous, floor);
      same := read && current == previous;
    }

    /** Everything before the commit: the comparison, the writes and the update of the snapshot
        row, with the clock it reads. */
    method Prepare(writes: bool) returns (ready: bool, now: int)
      requires Inv(engine.server.d) && Planned()
      requires engine.me in engine.server.d.alive ==> Held(engine.server.d, engine.me) > 0
      modifies engine.server
      ensures Planned() && Kept(engine.me, old(engine.server.d), engine.server.d, 0)
      ensures ready ==>
        engine.server.step == old(engine.server.step) + 4 && now == engine.server.clock(engine.server.step)
      ensures ready && engine.me in engine.server.d.alive ==>
        previous == Latest(engine.server.d) && engine.server.d.snaps[id].status == Validating
      ensures old(engine.Calm()) ==>
        engine.server.d == old(engine.server.d) &&
        (ready <==> writes && previous == Latest(old(engine.server.d)) && RowMatches(old(engine.server.d)))
    {
      hide Kept, Rely, Grows, Inv, PlannedOn;
      ghost var d0 := engine.server.d;
      now := 0;
      ready := Compare();
      ghost var d1 := engine.server.d;
      if !ready { return; }
      ready := engine.server.Touch(engine.me);
      ghost var d2 := engine.server.d;
      TouchOn(engine.me, d0, d1, d2, id, previous, floor);
      if !ready || !writes { ready := false; return; }
      ready := engine.server.Touch(engine.me);
      now := engine.server.clock(engine.server.step);
      TouchOn(engine.me, d0, d2, engine.server.d, id, previous, floor);
      ready := ready && RowMatches(engine.server.d);
    }

    /** The update of the snapshot row finds it: `status='validating'`. */
    predicate RowMatches(d: Database) { id in d.snaps && d.snaps[id].status == Validating }

    /** Abandons the run if it is still open, and releases its lock once. */
    method Close()
      requires Inv(engine.server.d) && Planned()
      requires !closed && engine.me in engine.server.d.alive ==> Held(engine.server.d, engine.me) > 0
      modifies this, engine.server
      ensures closed && Planned()
      ensures if old(closed) then engine.server.d == old(engine.server.d)
        else done && Kept(engine.me, old(engine.server.d), engine.server.d, -1)
      ensures old(engine.Calm() && !closed) ==>
        engine.server.d == Apply(if old(done) then old(engine.server.d)
        else Apply(old(engine.server.d), PublicationWorld.Fail(engine.me, id)),
        PublicationWorld.Unlock(engine.me))
    {
      hide Apply, Legal, Kept, Rely, Grows, Inv, PlannedOn;
      if closed { return; }
      closed := true;
      ghost var start := engine.server.d;
      KeptNone(engine.me, start);
      if !done { Fail(); }
      ghost var failed := engine.server.d;
      KeptMeans(engine.me, start, failed, 0);
      engine.Unlock();
      KeptMeans(engine.me, failed, engine.server.d, -1);
      PlannedStays(failed, engine.server.d, engine.me, id, previous, floor);
      KeptOnward(engine.me, start, failed, 0, engine.server.d, -1);
    }
  }

  lemma KeptMeans(me: Session, a: Database, b: Database, n: int)
    requires Kept(me, a, b, n)
    ensures Inv(b) && Grows(a, b) && b.alive <= a.alive && (me in b.alive ==> Held(b, me) == Held(a, me) + n)
  {
  }

  /** A statement that leaves the snapshots alone, for a run that has kept its lock since `a`. */
  lemma TouchOn(me: Session, a: Database, b: Database, c: Database, id: Id, previous: Option<Id>, floor: Option<int>)
    requires Inv(b) && Kept(me, a, b, 0) && PlannedOn(b, me, id, previous, floor) &&
      (me in a.alive ==> Held(a, me) > 0)
    requires Inv(c) && Grows(b, c) && (me in c.alive ==> Rely(me, b, c))
    ensures Kept(me, a, c, 0) && PlannedOn(c, me, id, previous, floor) &&
      (me in c.alive ==> Latest(c) == Latest(b))
  {
  }

  lemma StillThere(me: Session, a: Database, b: Database, c: Database)
    requires Kept(me, a, b, 0) && Rely(me, b, c) && me in c.alive && (me in a.alive ==> Held(a, me) > 0)
    ensures me in b.alive && Held(b, me) == Held(a, me) > 0 && b.chain == a.chain
  {
  }

  lemma PublishLegal(d: Database, me: Session, id: Id, previous: Option<Id>, floor: Option<int>, now: int)
    requires Inv(d) && PlannedOn(d, me, id, previous, floor) && me in d.alive && Held(d, me) > 0 &&
      previous == Latest(d)
    ensures Legal(d, PublicationWorld.Publish(me, id, floor, now))
  {
  }

  lemma FailLegal(d: Database, me: Session, id: Id, previous: Option<Id>, floor: Option<int>)
    requires PlannedOn(d, me, id, previous, floor) && me in d.alive
    ensures Legal(d, PublicationWorld.Fail(me, id))
  {
  }

  lemma SilentKept(me: Session, a: Database, mid: Database, b: Database, sent: bool)
    requires Inv(b) && Grows(a, b) && Rely(me, a, mid) && (!sent && me in b.alive ==> b == mid)
    ensures !sent ==> Kept(me, a, b, 0)
  {
  }

  // ----- one ingestion -----

  /** The command: stage, publish, close. It never keeps the lock, and undisturbed it publishes
      exactly when the bundle is valid, the lock free, the id new and everything resolves; a run
      that got its snapshot stored and fails leaves it as failed. */
  method Ingest(engine: Ingestor, valid: bool, draw: Option<Id>, encodes: bool, resolves: bool, writes: bool)
    returns (ok: bool)
    requires Inv(engine.server.d) && Held(engine.server.d, engine.me) == 0
    modifies engine.server
    ensures Inv(engine.server.d) && Grows(old(engine.server.d), engine.server.d)
    ensures engine.me in engine.server.d.alive ==> Held(engine.server.d, engine.me) == 0
    ensures old(engine.Calm()) ==>
      (ok <==> Stages(old(engine.server.d), engine.me, valid, draw, encodes) && resolves && writes)
    ensures old(engine.Calm()) ==>
      engine.server.d.chain == old(engine.server.d).chain + if ok then [draw.value] else []
    ensures old(engine.Calm()) && !ok && Stages(old(engine.server.d), engine.me, valid, draw, encodes) ==>
      draw.value in engine.server.d.snaps && engine.server.d.snaps[draw.value].status == PublicationWorld.Failed
  {
    hide Inv, Grows, Kept, PlannedOn, Apply, Legal, Rely, Held, Staging;
    var me := engine.me;
    ghost var d0 := engine.server.d;
    var s := engine.Stage(valid, draw, encodes, resolves);
    ghost var d1 := engine.server.d;
    KeptMeans(me, d0, d1, if s.Some? then 1 else 0);
    StagingMeans(d0, me, valid, draw, encodes, resolves);
    if s.None? { return false; }
    PlannedBase(d1, me, s.value.id, s.value.previous, s.value.floor);
    ok := s.value.Publish(writes);
    ghost var d2 := engine.server.d;
    GrowsOnward(d0, d1, d2);
    NobodyReturns(d1, d2);
    if !ok { KeptMeans(me, d1, d2, 0); FailedThen(d1, me, s.value.id); }
    s.value.Close();
    KeptMeans(me, d2, engine.server.d, -1);
    GrowsOnward(d0, d2, engine.server.d);
    UnlockedThen(d2, me);
  }

  lemma NobodyReturns(a: Database, b: Database)
    requires Grows(a, b)
    ensures b.alive <= a.alive
  {
  }

  lemma StagingMeans(d: Database, me: Session, valid: bool, draw: Option<Id>, encodes: bool, resolves: bool)
    ensures var e := Staging(d, me, valid, draw, encodes, resolves);
      && e.chain == d.chain && (Stages(d, me, valid, draw, encodes) ==> e.alive == d.alive)
      && (Stages(d, me, valid, draw, encodes) ==>
        draw.value in e.snaps &&
        e.snaps[draw.value].status == (if resolves then Validating else PublicationWorld.Failed) &&
        e.snaps[draw.value].base == Latest(d))
  {
  }

  lemma PlannedBase(d: Database, me: Session, id: Id, previous: Option<Id>, floor: Option<int>)
    requires PlannedOn(d, me, id, previous, floor)
    ensures id in d.snaps && d.snaps[id].base == previous
  {
  }

  lemma FailedThen(d: Database, me: Session, id: Id)
    ensures var e := Apply(d, PublicationWorld.Fail(me, id));
      e.chain == d.chain && e.alive == d.alive &&
      (id in d.snaps && d.snaps[id].status == Validating ==> id in e.snaps && e.snaps[id].status == PublicationWorld.Failed)
  {
  }

  lemma UnlockedThen(d: Database, me: Session)
    ensures var e := Apply(d, PublicationWorld.Unlock(me)); e.chain == d.chain && e.snaps == d.snaps
  {
  }

  // ----- one process, start to end -----

  datatype Command =
    | Stage(valid: bool, draw: Option<Id>, encodes: bool, resolves: bool)
    | Publish(k: nat, writes: bool)
    | Close(k: nat)

  /** The open runs of one process, and what each was planned on. */
  ghost predicate AllPlanned(d: Database, engine: Ingestor, open: seq<Staged>) {
    forall s :: s in open ==> s.engine == engine && PlannedOn(d, engine.me, s.id, s.previous, s.floor)
  }

  ghost predicate AllOpen(open: seq<Staged>)
    reads open
  {
    (forall s :: s in open ==> !s.closed) && forall i, j :: 0 <= i < j < |open| ==> open[i] != open[j]
  }

  lemma PlansStay(a: Database, b: Database, engine: Ingestor, open: seq<Staged>)
    requires Inv(a) && Grows(a, b) && AllPlanned(a, engine, open)
    ensures AllPlanned(b, engine, open) && b.alive <= a.alive
  {
  }

  /** A process may stage, publish and close any number of runs in any order over one connection.
      As long as that connection lives it holds the lock once for every open run, and not at all
      when it has closed them; the chain of publications stays intact throughout. */
  method Serve(engine: Ingestor, commands: seq<Command>)
    requires Inv(engine.server.d) && Held(engine.server.d, engine.me) == 0
    modifies engine.server
    ensures Inv(engine.server.d) && Grows(old(engine.server.d), engine.server.d)
    ensures engine.me in engine.server.d.alive ==> Held(engine.server.d, engine.me) == 0
  {
    hide Inv, Grows, Kept, PlannedOn, Held, AllPlanned;
    var me := engine.me;
    GrowsOnward(engine.server.d, engine.server.d, engine.server.d);
    var open: seq<Staged> := [];
    NothingPlanned(engine.server.d, engine);
    for c := 0 to |commands|
      invariant Inv(engine.server.d) && Grows(old(engine.server.d), engine.server.d)
      invariant AllPlanned(engine.server.d, engine, open) && AllOpen(open) && forall s :: s in open ==> fresh(s)
      invariant me in engine.server.d.alive ==> Held(engine.server.d, me) == |open|
    {
      ghost var before := engine.server.d;
      match commands[c] {
        case Stage(valid, draw, encodes, resolves) => open := StageOne(engine, open, valid, draw, encodes, resolves);
        case Publish(k, writes) => if k < |open| { assert open[k] in open; PublishOne(engine, open, k, writes); }
        case Close(k) => if k < |open| { assert open[k] in open; open := CloseOne(engine, open, k); }
      }
      GrowsOnward(before, before, before);
      GrowsOnward(old(engine.server.d), before, engine.server.d);
    }
    while open != []
      invariant Inv(engine.server.d) && Grows(old(engine.server.d), engine.server.d)
      invariant AllPlanned(engine.server.d, engine, open) && AllOpen(open) && forall s :: s in open ==> fresh(s)
      invariant me in engine.server.d.alive ==> Held(engine.server.d, me) == |open|
    {
      ghost var before := engine.server.d;
      assert open[0] in open;
      open := CloseOne(engine, open, 0);
      GrowsOnward(old(engine.server.d), before, engine.server.d);
    }
  }

  lemma NothingPlanned(d: Database, engine: Ingestor)
    ensures AllPlanned(d, engine, [])
  {
  }

  method StageOne(engine: Ingestor, open: seq<Staged>, valid: bool, draw: Option<Id>, encodes: bool,
    resolves: bool) returns (next: seq<Staged>)
    requires Inv(engine.server.d) && AllPlanned(engine.server.d, engine, open) && AllOpen(open)
    requires engine.me in engine.server.d.alive ==> Held(engine.server.d, engine.me) == |open|
    modifies engine.server
    ensures Inv(engine.server.d) && Grows(old(engine.server.d), engine.server.d)
    ensures AllPlanned(engine.server.d, engine, next) && AllOpen(next) && forall s :: s in next ==>
      s in open || fresh(s)
    ensures engine.me in engine.server.d.alive ==> Held(engine.server.d, engine.me) == |next|
  {
    hide Inv, Grows, Kept, PlannedOn, Held;
    ghost var before := engine.server.d;
    var s := engine.Stage(valid, draw, encodes, resolves);
    KeptMeans(engine.me, before, engine.server.d, if s.Some? then 1 else 0);
    PlansStay(before, engine.server.d, engine, open);
    next := if s.Some? then open + [s.value] else open;
  }

  method PublishOne(engine: Ingestor, open: seq<Staged>, k: nat, writes: bool)
    requires Inv(engine.server.d) && AllPlanned(engine.server.d, engine, open) && AllOpen(open)
    requires engine.me in engine.server.d.alive ==> Held(engine.server.d, engine.me) == |open|
    requires k < |open|
    modifies engine.server, open[k]
    ensures Inv(engine.server.d) && Grows(old(engine.server.d), engine.server.d)
    ensures AllPlanned(engine.server.d, engine, open) && AllOpen(open)
    ensures engine.me in engine.server.d.alive ==> Held(engine.server.d, engine.me) == |open|
  {
    hide Inv, Grows, Kept, PlannedOn, Held;
    ghost var before := engine.server.d;
    assert open[k] in open;
    var ok := open[k].Publish(writes);
    PlansStay(before, engine.server.d, engine, open);
  }

  method CloseOne(engine: Ingestor, open: seq<Staged>, k: nat) returns (next: seq<Staged>)
    requires Inv(engine.server.d) && AllPlanned(engine.server.d, engine, open) && AllOpen(open)
    requires engine.me in engine.server.d.alive ==> Held(engine.server.d, engine.me) == |open|
    requires k < |open|
    modifies engine.server, open[k]
    ensures Inv(engine.server.d) && Grows(old(engine.server.d), engine.server.d)
    ensures next == open[..k] + open[k + 1..] && open[k].closed && forall s :: s in next ==> s in open
    ensures AllPlanned(engine.server.d, engine, next) && AllOpen(next)
    ensures engine.me in engine.server.d.alive ==> Held(engine.server.d, engine.me) == |next|
  {
    hide Inv, Grows, Kept, PlannedOn, Held;
    ghost var before := engine.server.d;
    next := open[..k] + open[k + 1..];
    assert open[k] in open;
    assert forall i :: 0 <= i < |next| ==> next[i] == open[if i < k then i else i + 1];
    assert forall s :: s in next ==> s in open && s != open[k];
    open[k].Close();
    KeptMeans(engine.me, before, engine.server.d, -1);
    PlansStay(before, engine.server.d, engine, next);
  }
}
