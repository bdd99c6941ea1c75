/** The published catalogue as concurrent ingestors see it: snapshots, the advisory lock and the
    statements sessions may issue (backend-go/internal/ingestion/ingestor.go). */
module PublicationWorld {
  import opened Outcomes

  type Session = nat
  type Id = nat

  datatype Status = Building | Validating | Published | Failed

  /** `base` is the snapshot its run was planned against, `owner` the session that staged it. */
  datatype Snap = Snap(status: Status, at: Option<int>, base: Option<Id>, owner: Session)

  datatype Lock = Lock(holder: Session, count: nat)

  /** `chain` lists the published snapshots in the order of their publication. */
  datatype Database = Database(snaps: map<Id, Snap>, lock: Option<Lock>, alive: set<Session>, chain: seq<Id>)

  datatype Event =
    | TryLock(s: Session)
    | Unlock(s: Session)
    | Drop(s: Session)
    | Insert(s: Session, id: Id, base: Option<Id>)
    | Validate(s: Session, id: Id)
    | Fail(s: Session, id: Id)
    | Publish(s: Session, id: Id, floor: Option<int>, now: int)

  function Held(d: Database, s: Session): nat {
    if d.lock.Some? && d.lock.value.holder == s then d.lock.value.count else 0
  }

  function Max(a: int, b: int): int { if a > b then a else b }

  /** The timestamp of a publication: the clock, but at least a millisecond after the baseline. */
  function Stamp(now: int, floor: Option<int>): int { if floor.None? then now else Max(now, floor.value + 1) }

  /** What each statement does; the conditions are those of its SQL text. */
  function Apply(d: Database, e: Event): Database {
    match e
    case TryLock(s) =>
      if d.lock.None? then d.(lock := Some(Lock(s, 1)))
      else if d.lock.value.holder == s then d.(lock := Some(Lock(s, d.lock.value.count + 1)))
      else d
    case Unlock(s) =>
      if Held(d, s) > 1 then d.(lock := Some(Lock(s, Held(d, s) - 1))) else if Held(d, s) == 1 then d.(lock := None) else d
    case Drop(s) => d.(alive := d.alive - {s}, lock := if Held(d, s) > 0 then None else d.lock)
    case Insert(s, id, base) => if id in d.snaps then d else d.(snaps := d.snaps[id := Snap(Building, None, base, s)])
    case Validate(s, id) => if id in d.snaps then d.(snaps := d.snaps[id := d.snaps[id].(status := Validating)]) else d
    case Fail(s, id) =>
      if id in d.snaps && d.snaps[id].status in {Building, Validating} then d.(snaps := d.snaps[id := d.snaps[id].(status := Failed)]) else d
    case Publish(s, id, floor, now) =>
      if id in d.snaps && d.snaps[id].status == Validating
      then d.(snaps := d.snaps[id := d.snaps[id].(status := Published, at := Some(Stamp(now, floor)))], chain := d.chain + [id]) else d
  }

  function Latest(d: Database): Option<Id> { if d.chain == [] then None else Some(d.chain[|d.chain| - 1]) }

  /** The published snapshots form one chain: each one's baseline is its immediate predecessor,
      and their timestamps strictly increase. */
  ghost predicate Linked(snaps: map<Id, Snap>, chain: seq<Id>) {
    && (forall i :: 0 <= i < |chain| ==> chain[i] in snaps && snaps[chain[i]].at.Some?)
    && (forall i, j :: 0 <= i < j < |chain| ==> snaps[chain[i]].at.value < snaps[chain[j]].at.value)
    && (forall i :: 0 <= i < |chain| ==> snaps[chain[i]].base == if i == 0 then None else Some(chain[i - 1]))
  }

  ghost predicate Inv(d: Database) {
    && (d.lock.Some? ==> d.lock.value.holder in d.alive && d.lock.value.count > 0)
    && (forall id :: id in d.snaps ==>
      (d.snaps[id].status == Published <==> id in d.chain) && (d.snaps[id].at.Some? <==> id in d.chain))
    && (forall id :: id in d.chain ==> id in d.snaps)
    && Linked(d.snaps, d.chain)
  }

  lemma LinkedFrame(snaps: map<Id, Snap>, chain: seq<Id>, other: map<Id, Snap>)
    requires Linked(snaps, chain) && forall id :: id in chain ==> id in other && other[id] == snaps[id]
    ensures Linked(other, chain)
  {
  }

  lemma LinkedNext(snaps: map<Id, Snap>, chain: seq<Id>, id: Id)
    requires Linked(snaps, chain) && id in snaps && snaps[id].at.Some?
    requires chain == [] ==> snaps[id].base == None
    requires chain != [] ==>
      snaps[id].base == Some(chain[|chain| - 1]) && snaps[chain[|chain| - 1]].at.value < snaps[id].at.value
    ensures Linked(snaps, chain + [id])
  {
    var last := |chain|;
    forall i | 0 <= i < last ensures snaps[chain[i]].at.value < snaps[id].at.value {
      assert i < last - 1 ==> snaps[chain[i]].at.value < snaps[chain[last - 1]].at.value;
    }
  }

  /** The client's part of the protocol. The staging and publishing statements are sent only by
      the session that holds the lock and only for its own snapshots; the unconditional move to
      `validating` only while the snapshot is being built, and a publication only on top of the
      baseline it was planned against. */
  predicate Legal(d: Database, e: Event) {
    && e.s in d.alive
    && match e
       case Insert(s, id, base) => Held(d, s) > 0
       case Validate(s, id) => Held(d, s) > 0 && id in d.snaps && d.snaps[id].owner == s && d.snaps[id].status == Building
       case Fail(s, id) => id in d.snaps && d.snaps[id].owner == s
       case Publish(s, id, floor, now) =>
         Held(d, s) > 0 && id in d.snaps && d.snaps[id].owner == s && d.snaps[id].base == Latest(d)
         && floor == (if Latest(d).None? then None else if Latest(d).value in d.snaps then d.snaps[Latest(d).value].at else None)
       case _ => true
  }

  lemma LegalKeepsInv(d: Database, e: Event)
    requires Inv(d) && Legal(d, e)
    ensures Inv(Apply(d, e))
  {
    hide Linked;
    var n := Apply(d, e);
    if n.chain == d.chain {
      LinkedFrame(d.snaps, d.chain, n.snaps);
    } else {
      PublishLinks(d, e);
    }
  }

  lemma PublishLinks(d: Database, e: Event)
    requires e.Publish? && Inv(d) && Legal(d, e) && Apply(d, e).chain != d.chain
    ensures Linked(Apply(d, e).snaps, Apply(d, e).chain)
  {
    var n := Apply(d, e);
    assert e.id !in d.chain;
    LinkedFrame(d.snaps, d.chain, n.snaps);
    if d.chain != [] { assert d.chain[|d.chain| - 1] in d.chain && d.chain[|d.chain| - 1] in d.snaps; }
    LinkedNext(n.snaps, d.chain, e.id);
  }

  predicate Moves(a: Status, b: Status) {
    a == b || (a == Building && b in {Validating, Failed}) || (a == Validating && b in {Published, Failed})
  }

  /** Building moves to validating to published, or to failed; published snapshots never change,
      none disappears, and the chain only grows. */
  ghost predicate Grows(a: Database, b: Database) {
    && a.chain <= b.chain && b.alive <= a.alive
    && forall id :: id in a.snaps ==>
      id in b.snaps && b.snaps[id].owner == a.snaps[id].owner && b.snaps[id].base == a.snaps[id].base &&
      (a.snaps[id].status in {Published, Failed} ==> b.snaps[id] == a.snaps[id])
  }

  lemma LegalMoves(d: Database, e: Event)
    requires Inv(d) && Legal(d, e)
    ensures Grows(d, Apply(d, e))
    ensures forall id :: id in d.snaps ==> Moves(d.snaps[id].status, Apply(d, e).snaps[id].status)
  {
  }

  /** What session `me` can count on while other sessions act: as long as it stays connected its
      lock count and its own snapshots stand still, and while it holds the lock the chain does. */
  ghost predicate Rely(me: Session, a: Database, b: Database) {
    && Inv(b) && Grows(a, b)
    && (me in b.alive ==> Held(b, me) == Held(a, me))
    && (forall id :: id in a.snaps && a.snaps[id].owner == me ==> b.snaps[id] == a.snaps[id])
    && (me in b.alive && Held(a, me) > 0 ==> b.chain == a.chain)
  }

  lemma OthersRely(me: Session, d: Database, e: Event)
    requires Inv(d) && Legal(d, e) && (e.s != me || e.Drop?)
    ensures Rely(me, d, Apply(d, e))
  {
    LegalKeepsInv(d, e);
    LegalMoves(d, e);
  }

  lemma RelyOnward(me: Session, a: Database, b: Database, c: Database)
    requires Inv(a)
    ensures Rely(me, a, a)
    ensures Rely(me, a, b) && Rely(me, b, c) ==> Rely(me, a, c)
  {
  }

  /** What a session may do stays legal while others act. */
  lemma LegalStays(me: Session, a: Database, b: Database, e: Event)
    requires Inv(a) && Rely(me, a, b) && e.s == me && Legal(a, e) && me in b.alive
    ensures Legal(b, e)
  {
  }

  // ----- whole runs -----

  function After(d: Database, events: seq<Event>): Database {
    if events == [] then d else Apply(After(d, events[..|events| - 1]), events[|events| - 1])
  }

  ghost predicate AllLegal(d: Database, events: seq<Event>) {
    forall i :: 0 <= i < |events| ==> Legal(After(d, events[..i]), events[i])
  }

  lemma {:induction false} HistoryKeepsChain(d: Database, events: seq<Event>)
    requires Inv(d) && AllLegal(d, events)
    ensures Inv(After(d, events)) && Grows(d, After(d, events))
  {
    hide Inv, Grows, Apply, Legal;
    GrowsOnward(d, d, d);
    if events != [] {
      var n, init := |events| - 1, events[..|events| - 1];
      forall i | 0 <= i < n ensures Legal(After(d, init[..i]), init[i]) { assert init[..i] == events[..i]; }
      HistoryKeepsChain(d, init);
      var m := After(d, init);
      LegalKeepsInv(m, events[n]);
      LegalMoves(m, events[n]);
      GrowsOnward(d, m, Apply(m, events[n]));
    }
  }

  lemma GrowsOnward(a: Database, b: Database, c: Database)
    ensures Grows(a, a)
    ensures Grows(a, b) && Grows(b, c) ==> Grows(a, c)
  {
  }

  /** The row that the baseline query returns: the published snapshot with the greatest timestamp. */
  ghost predicate IsNewest(d: Database, id: Id) {
    && id in d.snaps && d.snaps[id].status == Published && d.snaps[id].at.Some?
    && forall k :: k in d.snaps && d.snaps[k].status == Published && d.snaps[k].at.Some? ==>
      d.snaps[k].at.value < d.snaps[id].at.value || (d.snaps[k].at == d.snaps[id].at && k <= id)
  }

  lemma NewestIsLatest(d: Database, id: Id)
    requires Inv(d)
    ensures IsNewest(d, id) <==> Latest(d) == Some(id)
  {
  }
}
