/** Why applying the same corrections twice changes nothing (pipeline/src/mapping/overrides.ts:20),
    and exactly when it does. */
module Idempotence {
  import opened Counting
  import opened Outcomes
  import opened Overrides

  lemma OneMember(id: Id)
    ensures CanonicalKey({id}) == KeyOf(id)
  {
  }

  /** A group's new key can only be the old one, or free. */
  lemma NobodyElse(d: Dictionary, k: Key, id: Id, other: Id)
    requires Named(d) && id in Members(d, k) && other in Members(d, KeyOf(id))
    ensures k == KeyOf(id)
  {
  }

  /** What becomes of the group `q` when `moving` is taken out of the group `k`. */
  ghost predicate Regrouped(d: Dictionary, k: Key, moving: set<Id>, e: Dictionary, q: Key)
    requires k in d.canonicals
  {
    var rest := Members(d, k) - moving;
    if q in Keys(moving) then
      q in e.canonicals && e.canonicals[q] == Alone(d.canonicals[k]) && Members(e, q) == {q.id}
    else if rest != {} && q == CanonicalKey(rest) then
      q in e.canonicals && e.canonicals[q] == d.canonicals[k] && Members(e, q) == rest
    else if q == k then
      q !in e.canonicals && Members(e, q) == {}
    else
      (q in e.canonicals <==> q in d.canonicals) && (q in d.canonicals ==> e.canonicals[q] == d.canonicals[q]) && Members(e, q) == Members(d, q)
  }

  lemma TakenRegroups(d: Dictionary, k: Key, moving: set<Id>, q: Key)
    requires Named(d) && k in d.canonicals && moving <= Members(d, k)
    ensures Regrouped(d, k, moving, Taken(d, k, moving), q)
  {
    var rest, e := Members(d, k) - moving, Taken(d, k, moving);
    if rest != {} {
      var m := Least(rest);
      assert m in Members(d, k);
      if Members(d, KeyOf(m)) != {} {
        var other :| other in Members(d, KeyOf(m));
        NobodyElse(d, k, m, other);
      }
    }
    if q in Keys(moving) {
      assert q.id in moving && q.id in Members(d, k);
      if Members(d, q) != {} {
        var other :| other in Members(d, q);
        NobodyElse(d, k, q.id, other);
      }
    }
  }

  predicate Stamp(c: Card) { c == Alone(c) }

  /** What corrections never take back. */
  ghost predicate Evolves(x: Dictionary, y: Dictionary) {
    && (forall q :: Firm(x, q) ==> Firm(y, q))
    && (forall id :: id in x.products ==>
      id in y.products &&
      (x.products[id] in x.canonicals && y.products[id] in y.canonicals ==>
      y.canonicals[y.products[id]].category == x.canonicals[x.products[id]].category))
    && (forall q :: q in y.canonicals && q.Foreign? ==>
      q in x.canonicals && Members(y, q) == Members(x, q) &&
      y.canonicals[q].category == x.canonicals[q].category)
    && (forall q :: q in x.canonicals && q.Foreign? && Members(x, q) == {} ==> q in y.canonicals)
    && (forall id :: Isolated(x, id) ==> Isolated(y, id))
    && (forall id ::
      Isolated(x, id) && KeyOf(id) in x.canonicals && Stamp(x.canonicals[KeyOf(id)]) && KeyOf(id) in y.canonicals ==>
      Stamp(y.canonicals[KeyOf(id)]))
  }

  lemma SplitRegroups(x: Dictionary, s: Split, y: Dictionary)
    requires Named(x) && SplitOne(x, s) == Ok(y)
    ensures s.key !in x.canonicals || Leaving(x, s) == {} ==> y == x
    ensures s.key in x.canonicals && Leaving(x, s) != {} ==>
      forall q :: Regrouped(x, s.key, Leaving(x, s), y, q)
  {
    if s.key in x.canonicals && Leaving(x, s) != {} {
      forall q ensures Regrouped(x, s.key, Leaving(x, s), y, q) { TakenRegroups(x, s.key, Leaving(x, s), q); }
    }
  }

  lemma RegroupedNamed(x: Dictionary, k: Key, moving: set<Id>, y: Dictionary)
    requires Named(x) && k in x.canonicals && moving <= Members(x, k) && moving != {}
    requires forall q :: Regrouped(x, k, moving, y, q)
    ensures Named(y)
  {
    forall id | id in y.products ensures y.products[id] in y.canonicals {
      assert id in Members(y, y.products[id]);
      assert Regrouped(x, k, moving, y, y.products[id]);
      assert Members(y, y.products[id]) == Members(x, y.products[id]) ==> id in x.products;
    }
    forall q | q in y.canonicals && q.KeyOf? ensures q.id in Members(y, q) {
      assert Regrouped(x, k, moving, y, q);
    }
  }

  lemma RegroupedSound(x: Dictionary, k: Key, moving: set<Id>, y: Dictionary)
    requires Sound(x) && k in x.canonicals && moving <= Members(x, k) && moving != {}
    requires forall q :: Regrouped(x, k, moving, y, q)
    ensures Sound(y)
  {
    RegroupedNamed(x, k, moving, y);
    hide Named;
    forall q | q in y.canonicals && q.KeyOf? ensures Firm(y, q) {
      assert Regrouped(x, k, moving, y, q);
      OneMember(q.id);
    }
  }

  lemma RegroupedEvolves(x: Dictionary, k: Key, moving: set<Id>, y: Dictionary)
    requires Named(x) && k in x.canonicals && moving <= Members(x, k) && moving != {} &&
      y.products.Keys == x.products.Keys
    requires forall q :: Regrouped(x, k, moving, y, q)
    ensures Evolves(x, y)
  {
    forall q
      ensures Firm(x, q) ==> Firm(y, q)
      ensures q in y.canonicals && q.Foreign? ==>
        q in x.canonicals && Members(y, q) == Members(x, q) &&
        y.canonicals[q].category == x.canonicals[q].category
      ensures q in x.canonicals && q.Foreign? && Members(x, q) == {} ==> q in y.canonicals
    {
      RegroupedKey(x, k, moving, y, q);
    }
    forall id | id in x.products && x.products[id] in x.canonicals && y.products[id] in y.canonicals
      ensures y.canonicals[y.products[id]].category == x.canonicals[x.products[id]].category
    {
      var q := y.products[id];
      assert Regrouped(x, k, moving, y, q) && id in Members(y, q);
      if Members(y, q) == Members(x, q) { assert id in Members(x, q); }
    }
    forall id | Isolated(x, id)
      ensures Isolated(y, id) && (KeyOf(id) in x.canonicals && Stamp(x.canonicals[KeyOf(id)]) && KeyOf(id) in y.canonicals ==> Stamp(y.canonicals[KeyOf(id)]))
    {
      RegroupedAlone(x, k, moving, y, id);
    }
  }

  lemma RegroupedKey(x: Dictionary, k: Key, moving: set<Id>, y: Dictionary, q: Key)
    requires Named(x) && k in x.canonicals && moving <= Members(x, k) && moving != {}
    requires Regrouped(x, k, moving, y, q)
    ensures Firm(x, q) ==> Firm(y, q)
    ensures q in y.canonicals && q.Foreign? ==>
      q in x.canonicals && Members(y, q) == Members(x, q) &&
      y.canonicals[q].category == x.canonicals[q].category
    ensures q in x.canonicals && q.Foreign? && Members(x, q) == {} ==> q in y.canonicals
  {
    if Firm(x, q) {
      assert q.id in Members(x, q);
      if q.id in moving { OneMember(q.id); }
      var rest := Members(x, k) - moving;
      if q == k && q.id !in moving {
        assert q.id in rest;
        assert Least(rest) in Members(x, k);
      }
    }
  }

  lemma RegroupedAlone(x: Dictionary, k: Key, moving: set<Id>, y: Dictionary, id: Id)
    requires Named(x) && k in x.canonicals && moving <= Members(x, k) && moving != {}
    requires forall q :: Regrouped(x, k, moving, y, q)
    requires Isolated(x, id)
    ensures Isolated(y, id)
    ensures KeyOf(id) in x.canonicals && Stamp(x.canonicals[KeyOf(id)]) && KeyOf(id) in y.canonicals ==>
      Stamp(y.canonicals[KeyOf(id)])
  {
    var q, rest := KeyOf(id), Members(x, k) - moving;
    assert Regrouped(x, k, moving, y, q);
    assert id in Members(x, q);
    if q == k {
      assert moving == {id};
    } else {
      assert q !in Keys(moving);
      assert id !in rest;
    }
    assert id in Members(y, q);
  }

  lemma SplitEvolves(x: Dictionary, s: Split, y: Dictionary)
    requires Named(x) && SplitOne(x, s) == Ok(y)
    ensures Named(y) && Evolves(x, y) && (Sound(x) ==> Sound(y))
  {
    SplitRegroups(x, s, y);
    if y != x {
      assert y.products.Keys == x.products.Keys;
      hide Regrouped, SplitOne;
      RegroupedNamed(x, s.key, Leaving(x, s), y);
      if Sound(x) { RegroupedSound(x, s.key, Leaving(x, s), y); }
      RegroupedEvolves(x, s.key, Leaving(x, s), y);
    }
  }

  // ----- an entry that has taken effect has nothing left to do -----

  ghost predicate Settled(e: Dictionary, s: Split) {
    if s.ids.None? then
      if s.key.KeyOf? then Isolated(e, s.key.id) && s.key in e.canonicals && Stamp(e.canonicals[s.key])
      else s.key in e.canonicals && Members(e, s.key) == {}
    else
      && (forall id :: id in s.ids.value ==> Isolated(e, id))
      && (forall i, j :: 0 <= i < j < |s.ids.value| && s.ids.value[i] == s.ids.value[j] ==> KeyOf(s.ids.value[i]) != s.key)
      && (s.key.KeyOf? && s.key.id in s.ids.value && s.key in e.canonicals ==> Stamp(e.canonicals[s.key]))
  }

  /** The one kind of entry that never settles: it dissolved a group whose key was not hashed. */
  ghost predicate Dissolved(e: Dictionary, s: Split) {
    s.ids.None? && s.key.Foreign? && s.key !in e.canonicals
  }

  lemma SettledStays(x: Dictionary, y: Dictionary, s: Split)
    requires Named(x) && Named(y) && Settled(x, s) && Evolves(x, y)
    ensures Settled(y, s)
  {
  }

  lemma IdleSettles(x: Dictionary, s: Split)
    requires Named(x) && SplitOne(x, s) == Ok(x)
    requires s.key !in x.canonicals || Leaving(x, s) == {}
    ensures Settled(x, s)
  {
    if s.ids.Some? {
      forall id | id in s.ids.value ensures Isolated(x, id) && KeyOf(id) != s.key {
        if s.key in x.canonicals { assert id !in Leaving(x, s); }
      }
    }
  }

  lemma TakenSettles(x: Dictionary, s: Split, y: Dictionary)
    requires Named(x) && s.key in x.canonicals && Leaving(x, s) != {}
    requires s.ids.Some? ==> !Repeats(s.ids.value, Members(x, s.key)) && forall id :: id in s.ids.value ==>
      id in Members(x, s.key) || Isolated(x, id)
    requires forall q :: Regrouped(x, s.key, Leaving(x, s), y, q)
    requires Evolves(x, y)
    ensures Settled(y, s) || Dissolved(y, s)
  {
    var moving := Leaving(x, s);
    forall id | id in moving
      ensures Isolated(y, id) && KeyOf(id) in y.canonicals && Stamp(y.canonicals[KeyOf(id)])
    {
      assert Regrouped(x, s.key, moving, y, KeyOf(id)) && KeyOf(id) in Keys(moving);
      assert id in Members(y, KeyOf(id));
    }
    assert Regrouped(x, s.key, moving, y, s.key);
    if s.key.KeyOf? { assert s.key.id in Members(x, s.key); }
  }

  lemma SplitSettles(x: Dictionary, s: Split, y: Dictionary)
    requires Named(x) && SplitOne(x, s) == Ok(y)
    ensures Settled(y, s) || Dissolved(y, s)
  {
    SplitRegroups(x, s, y);
    if s.key in x.canonicals && Leaving(x, s) != {} {
      SplitEvolves(x, s, y);
      hide Named, Regrouped, Evolves, Isolated, Taken, Leaving;
      TakenSettles(x, s, y);
    } else {
      IdleSettles(x, s);
    }
  }

  lemma SettledIdle(e: Dictionary, s: Split)
    requires Named(e) && Settled(e, s)
    ensures SplitOne(e, s) == Ok(e)
  {
    if s.key in e.canonicals {
      if s.ids.Some? {
        forall id | id in Leaving(e, s) ensures id == s.key.id && s.key.KeyOf? { assert Isolated(e, id); }
      }
      if Leaving(e, s) != {} {
        var id :| id in Leaving(e, s);
        assert Leaving(e, s) == {id} && Isolated(e, id) && s.key == KeyOf(id);
        TakenAgain(e, id);
      }
    }
  }

  lemma TakenAgain(e: Dictionary, id: Id)
    requires Isolated(e, id) && KeyOf(id) in e.canonicals && Stamp(e.canonicals[KeyOf(id)])
    ensures Taken(e, KeyOf(id), {id}) == e
    ensures KeyOf(id) !in Rest(e, KeyOf(id), {}).canonicals
  {
  }

  // ----- whole runs -----

  /** Corrections only ever take groups apart, and lose no product. */
  ghost predicate Refines(x: Dictionary, y: Dictionary) {
    && y.products.Keys == x.products.Keys
    && forall a, b :: a in y.products && b in y.products && y.products[a] == y.products[b] ==>
      x.products[a] == x.products[b]
  }

  lemma SplitRefines(x: Dictionary, s: Split, y: Dictionary)
    requires Named(x) && SplitOne(x, s) == Ok(y)
    ensures Refines(x, y)
  {
    SplitRegroups(x, s, y);
    if y != x {
      var moving := Leaving(x, s);
      assert y.products.Keys == x.products.Keys;
      forall a, b | a in y.products && b in y.products && y.products[a] == y.products[b] ensures x.products[a] == x.products[b] {
        var q := y.products[a];
        assert Regrouped(x, s.key, moving, y, q);
        assert a in Members(y, q) && b in Members(y, q);
        if Members(y, q) == Members(x, q) { assert a in Members(x, q) && b in Members(x, q); }
      }
    }
  }

  lemma {:induction false} SplitsEvolve(x: Dictionary, splits: seq<Split>, y: Dictionary)
    requires Named(x) && Splits(x, splits) == Ok(y)
    ensures Named(y) && Evolves(x, y) && Refines(x, y) && (Sound(x) ==> Sound(y))
    decreases |splits|
  {
    EvolvesOnward(x, x, y);
    if splits != [] {
      var m := SplitOne(x, splits[0]).value;
      hide Named, Sound, SplitOne, Evolves, Refines;
      SplitEvolves(x, splits[0], m);
      SplitRefines(x, splits[0], m);
      SplitsEvolve(m, splits[1..], y);
      EvolvesOnward(x, m, y);
    }
  }

  lemma EvolvesOnward(x: Dictionary, m: Dictionary, y: Dictionary)
    ensures Evolves(x, x) && Refines(x, x)
    ensures Named(m) && Evolves(x, m) && Evolves(m, y) ==> Evolves(x, y)
    ensures Refines(x, m) && Refines(m, y) ==> Refines(x, y)
  {
    if Named(m) && Evolves(x, m) && Evolves(m, y) {
      forall id | Isolated(x, id) ensures Isolated(m, id) && KeyOf(id) in m.canonicals { assert m.products[id] in m.canonicals; }
      hide Firm, Stamp;
    }
  }

  /** After a successful run every entry is settled, or dissolved a group of the start. */
  lemma {:induction false} SplitsSettle(x: Dictionary, splits: seq<Split>, y: Dictionary)
    requires Named(x) && Splits(x, splits) == Ok(y)
    ensures forall s :: s in splits ==> Settled(y, s) || (Dissolved(y, s) && s.key in x.canonicals)
    decreases |splits|
  {
    if splits != [] {
      var s := splits[0];
      var m := SplitOne(x, s).value;
      SplitEvolves(x, s, m);
      SplitSettles(x, s, m);
      SplitsEvolve(m, splits[1..], y);
      SplitsSettle(m, splits[1..], y);
      hide Named, Settled, Isolated, Stamp, Splits;
      if Settled(m, s) { SettledStays(m, y, s); }
      forall t | t in splits ensures Settled(y, t) || (Dissolved(y, t) && t.key in x.canonicals) {
        assert t == s || t in splits[1..];
      }
    }
  }

  /** Some entry takes members from the group `k`. */
  ghost predicate Tapped(d: Dictionary, splits: seq<Split>, k: Key) { exists s :: s in splits && s.key == k && Leaving(d, s) != {} }

  /** A key that is not hashed survives exactly when no entry takes anything from its group. */
  lemma {:induction false} SplitsKeep(x: Dictionary, splits: seq<Split>, y: Dictionary, k: Key)
    requires Named(x) && Splits(x, splits) == Ok(y) && k in x.canonicals && k.Foreign?
    ensures k !in y.canonicals <==> Tapped(x, splits, k)
    decreases |splits|
  {
    if splits != [] {
      var s := splits[0];
      var m := SplitOne(x, s).value;
      hide Named, SplitOne, Leaving;
      SplitEvolves(x, s, m);
      ForeignKept(x, s, m, k);
      SplitsEvolve(m, splits[1..], y);
      hide Isolated, Stamp;
      assert splits == [s] + splits[1..];
      if k in m.canonicals {
        SplitsKeep(m, splits[1..], y, k);
        forall t: Split | t.key == k ensures Leaving(m, t) == Leaving(x, t) { SameLeaving(x, m, t); }
      } else {
        assert s in splits;
      }
    }
  }

  /** A hashed key vanishes only if some entry takes members from its group. */
  lemma {:induction false} HashedKept(x: Dictionary, splits: seq<Split>, y: Dictionary, k: Key)
    requires Named(x) && Splits(x, splits) == Ok(y) && k in x.canonicals && k.KeyOf? && k !in y.canonicals
    ensures Tapped(x, splits, k)
    decreases |splits|
  {
    if splits != [] {
      var s := splits[0];
      var m := SplitOne(x, s).value;
      SplitEvolves(x, s, m);
      SplitRefines(x, s, m);
      SplitRegroups(x, s, m);
      if k in m.canonicals {
        HashedKept(m, splits[1..], y, k);
        hide Evolves, SplitOne, Splits;
        var t :| t in splits[1..] && t.key == k && Leaving(m, t) != {};
        assert k.id in Members(m, k) && k.id in Members(x, k);
        forall a | a in Members(m, k) ensures a in Members(x, k) { assert m.products[a] == m.products[k.id]; }
        assert Leaving(m, t) <= Leaving(x, t) && t in splits;
      } else {
        assert Leaving(x, s) != {} ==> Regrouped(x, s.key, Leaving(x, s), m, k);
        assert s.key == k && s in splits;
      }
    }
  }

  lemma SameLeaving(x: Dictionary, m: Dictionary, t: Split)
    requires Members(m, t.key) == Members(x, t.key)
    ensures Leaving(m, t) == Leaving(x, t)
  {
  }

  lemma ForeignKept(x: Dictionary, s: Split, m: Dictionary, k: Key)
    requires Named(x) && SplitOne(x, s) == Ok(m) && k in x.canonicals && k.Foreign?
    ensures k in m.canonicals <==> !(s.key == k && Leaving(x, s) != {})
  {
  }

  lemma {:induction false} SplitsIdle(e: Dictionary, splits: seq<Split>)
    requires Named(e) && forall s :: s in splits ==> Settled(e, s) || Dissolved(e, s)
    ensures Splits(e, splits) == if exists s :: s in splits && Dissolved(e, s) then Err(UnknownCanonical)
      else Ok(e)
    decreases |splits|
  {
    if splits != [] {
      var s := splits[0];
      forall t | t in splits ensures t == s || t in splits[1..] {}
      if Dissolved(e, s) {
        assert s in splits && SplitOne(e, s) == Err(UnknownCanonical);
      } else {
        SettledIdle(e, s);
        SplitsIdle(e, splits[1..]);
      }
    }
  }

  lemma {:induction false} LastMoveFixed(moves: seq<Move>, k: Key, c: nat)
    ensures LastMove(moves, k, LastMove(moves, k, c)) == LastMove(moves, k, c)
    ensures (forall m :: m in moves ==> m.key != k) ==> LastMove(moves, k, c) == c
  {
    if moves != [] {
      LastMoveFixed(moves[..|moves| - 1], k, c);
      if moves[|moves| - 1].key != k { LastMoveAgain(moves[..|moves| - 1], k, c, LastMove(moves[..|moves| - 1], k, c)); }
    }
  }

  lemma {:induction false} LastMoveAgain(moves: seq<Move>, k: Key, c: nat, z: nat)
    requires LastMove(moves, k, c) == z
    ensures LastMove(moves, k, z) == z
  {
    if moves != [] && moves[|moves| - 1].key != k { LastMoveAgain(moves[..|moves| - 1], k, c, z); }
  }

  /** The entries a second run stumbles over, readable from the input alone: a group whose key
      is not hashed loses members although a move names its key, or to an entry without ids. */
  ghost predicate Stumbles(d: Dictionary, o: Corrections) { MovedAway(d, o) || TornApart(d, o) }

  ghost predicate MovedAway(d: Dictionary, o: Corrections) {
    exists s :: s in o.splits && s.key.Foreign? && s.key in d.canonicals && Leaving(d, s) != {} && exists m :: m in o.moves && m.key == s.key
  }

  ghost predicate TornApart(d: Dictionary, o: Corrections) {
    exists s :: s in o.splits && s.key.Foreign? && s.key in d.canonicals && Leaving(d, s) != {} && s.ids.None?
  }

  lemma StageParts(d: Dictionary, o: Corrections, d2: Dictionary)
    requires Named(d)
    ensures var m := Recategorised(d, o.moves);
      Named(m) && Refines(d, m) && (Sound(d) ==> Sound(m)) && forall k ::
      Members(m, k) == Members(d, k) && (Firm(m, k) <==> Firm(d, k))
    ensures var e := Stamped(d2, o.approvals);
      Named(d2) ==> Named(e) && Evolves(d2, e) && Refines(d2, e) && (Sound(d2) ==> Sound(e))
  {
    forall k ensures Members(Recategorised(d, o.moves), k) == Members(d, k) {}
    forall k ensures Members(Stamped(d2, o.approvals), k) == Members(d2, k) {}
  }

  /** The category moves of a second run find nothing to change. */
  lemma MovesIdle(d: Dictionary, moves: seq<Move>, e: Dictionary)
    requires Moved(d, moves).Ok?
    requires forall k :: k in d.canonicals && k in e.canonicals ==>
      e.canonicals[k].category == Recategorised(d, moves).canonicals[k].category
    ensures Recategorised(e, moves) == e
  {
    forall k | k in e.canonicals ensures LastMove(moves, k, e.canonicals[k].category) == e.canonicals[k].category {
      if k in d.canonicals {
        LastMoveFixed(moves, k, d.canonicals[k].category);
      } else {
        LastMoveFixed(moves, k, e.canonicals[k].category);
      }
    }
  }

  // ----- the main results -----

  /** The dictionaries between the three stages. */
  ghost predicate Stages(d: Dictionary, o: Corrections, d1: Dictionary, d2: Dictionary, e: Dictionary) {
    && d1 == Recategorised(d, o.moves) && Splits(d1, o.splits) == Ok(d2) && e == Stamped(d2, o.approvals)
    && Named(d1) && Named(d2) && Named(e) && Evolves(d1, d2) && Evolves(d2, e)
    && d1.canonicals.Keys == d.canonicals.Keys && e.canonicals.Keys == d2.canonicals.Keys &&
      d1.products == d.products && e.products == d2.products
    && (forall k :: Firm(d1, k) <==> Firm(d, k))
  }

  lemma StagesOf(d: Dictionary, o: Corrections, e: Dictionary) returns (d1: Dictionary, d2: Dictionary)
    requires Named(d) && Apply(d, o) == Ok(e)
    ensures Stages(d, o, d1, d2, e)
    ensures Refines(d, e) && (Sound(d) ==> Sound(e)) && Evolves(d1, e)
  {
    d1 := Recategorised(d, o.moves);
    d2 := Splits(d1, o.splits).value;
    assert e.canonicals.Keys == d2.canonicals.Keys && d1.canonicals.Keys == d.canonicals.Keys;
    hide Named, Sound, Firm, Evolves, Refines, Splits, Recategorised;
    StageParts(d, o, d2);
    SplitsEvolve(d1, o.splits, d2);
    EvolvesOnward(d, d1, d2);
    EvolvesOnward(d1, d2, e);
    EvolvesOnward(d, d2, e);
  }

  /** A successful application loses no product, keeps every hashed key in its own group, and only
      ever takes groups apart; keys made from the least member stay, and if all are of that kind,
      they remain so. */
  lemma ApplyKeeps(d: Dictionary, o: Corrections, e: Dictionary)
    requires Named(d) && Apply(d, o) == Ok(e)
    ensures Named(e) && Refines(d, e)
    ensures forall k :: Firm(d, k) ==> Firm(e, k)
    ensures (Sound(d) ==> Sound(e)) && (Keyed(d) ==> Keyed(e))
  {
    var d1, d2 := StagesOf(d, o, e);
    hide Named, Sound, Firm, Refines, Splits, Apply, Recategorised, Stamped, Stamp, Isolated, Members;
    if Keyed(d) {
      forall k | k in e.canonicals ensures k.KeyOf? { if k.Foreign? { assert k in d1.canonicals.Keys; } }
    }
  }

  /** Every entry is settled at the end, or dissolved a group of the given dictionary. */
  lemma EntriesAfter(d: Dictionary, o: Corrections, e: Dictionary)
    requires Named(d) && Apply(d, o) == Ok(e)
    ensures forall s :: s in o.splits ==> Settled(e, s) || (Dissolved(e, s) && s.key in d.canonicals)
  {
    var d1, d2 := StagesOf(d, o, e);
    hide Named, Sound, Firm, Refines, Settled, Evolves, Splits, Recategorised, Stamped, Apply;
    SplitsSettle(d1, o.splits, d2);
    forall s | s in o.splits ensures Settled(e, s) || (Dissolved(e, s) && s.key in d.canonicals) {
      if Settled(d2, s) { SettledStays(d2, e, s); }
      assert Dissolved(d2, s) ==> s.key in d1.canonicals.Keys && s.key !in e.canonicals.Keys;
    }
  }

  /** A key made from the least member stays; another hashed key is known at the end exactly if its
      own product is still filed under it, and vanishes only if some entry takes members from its
      group; a key that is not hashed vanishes exactly if one does. All that stay keep their category. */
  lemma KeysAfter(d: Dictionary, o: Corrections, e: Dictionary, k: Key)
    requires Named(d) && Apply(d, o) == Ok(e) && k in d.canonicals
    ensures Firm(d, k) ==> k in e.canonicals
    ensures k.KeyOf? ==> k.id in e.products && (k in e.canonicals <==> e.products[k.id] == k)
    ensures k.KeyOf? && k !in e.canonicals ==> Tapped(d, o.splits, k)
    ensures k.Foreign? ==> (k !in e.canonicals <==> Tapped(d, o.splits, k))
    ensures k in e.canonicals ==> e.canonicals[k].category == Recategorised(d, o.moves).canonicals[k].category
  {
    hide *;
    var d1, d2 := StagesOf(d, o, e);
    StageKeys(d, o, d1, d2, e, k);
    TappedSame(d, d1, o.splits, k);
    if k in e.canonicals { CategoryKept(d1, e, k); }
    if Firm(d, k) { FirmStays(d1, e, k); }
    if k.KeyOf? {
      HashedFiled(d, e, k);
      if k !in d2.canonicals { HashedKept(d1, o.splits, d2, k); }
    } else {
      SplitsKeep(d1, o.splits, d2, k);
    }
  }

  lemma StageKeys(d: Dictionary, o: Corrections, d1: Dictionary, d2: Dictionary, e: Dictionary, k: Key)
    requires Stages(d, o, d1, d2, e)
    ensures (k in d1.canonicals <==> k in d.canonicals) && (k in e.canonicals <==> k in d2.canonicals) &&
      (Firm(d1, k) <==> Firm(d, k))
    ensures d1 == Recategorised(d, o.moves) && d1.products == d.products
    ensures Named(d1) && Named(d2) && Named(e) && Splits(d1, o.splits) == Ok(d2)
  {
    hide Named, Firm, Evolves, Splits, Recategorised, Stamped;
    assert k in d1.canonicals.Keys <==> k in d.canonicals.Keys;
    assert k in e.canonicals.Keys <==> k in d2.canonicals.Keys;
  }

  lemma TappedSame(d: Dictionary, e: Dictionary, splits: seq<Split>, k: Key)
    requires d.products == e.products
    ensures Tapped(d, splits, k) <==> Tapped(e, splits, k)
  {
    assert Members(d, k) == Members(e, k);
    assert forall s: Split :: s.key == k ==> Leaving(d, s) == Leaving(e, s);
  }

  lemma FirmStays(x: Dictionary, y: Dictionary, k: Key)
    requires Evolves(x, y) && Firm(x, k)
    ensures k in y.canonicals
  {
  }

  lemma HashedFiled(d: Dictionary, e: Dictionary, k: Key)
    requires Named(d) && Named(e) && Refines(d, e) && k in d.canonicals && k.KeyOf?
    ensures k.id in e.products && (k in e.canonicals <==> e.products[k.id] == k)
  {
    assert k.id in Members(d, k);
    assert k in e.canonicals ==> k.id in Members(e, k);
  }

  lemma CategoryKept(x: Dictionary, y: Dictionary, k: Key)
    requires Named(x) && Named(y) && Evolves(x, y) && k in x.canonicals && k in y.canonicals
    ensures y.canonicals[k].category == x.canonicals[k].category
  {
    if k.KeyOf? { assert k.id in Members(x, k) && k.id in Members(y, k); }
  }

  /** A move names a key that the dictionary does not know. */
  predicate Unfiled(e: Dictionary, o: Corrections) { exists m :: m in o.moves && m.key !in e.canonicals }

  lemma SecondMoves(d: Dictionary, o: Corrections, e: Dictionary)
    requires Named(d) && Apply(d, o) == Ok(e)
    ensures Moved(e, o.moves) == if Unfiled(e, o) then Err(UnknownCanonical) else Ok(e)
  {
    forall k | k in d.canonicals && k in e.canonicals
      ensures e.canonicals[k].category == Recategorised(d, o.moves).canonicals[k].category
    {
      KeysAfter(d, o, e, k);
    }
    MovesIdle(d, o.moves, e);
    hide Named, Splits, Stamped, Leaving, Recategorised;
  }

  lemma SecondSplits(d: Dictionary, o: Corrections, e: Dictionary)
    requires Named(d) && Apply(d, o) == Ok(e)
    ensures Splits(e, o.splits) == if TornApart(d, o) then Err(UnknownCanonical) else Ok(e)
  {
    hide Named, Isolated, Stamp, Splits, Stamped, Recategorised, Evolves, Refines, Sound, Apply, Stages;
    var d1, d2 := StagesOf(d, o, e);
    assert Named(e) by { StageKeys(d, o, d1, d2, e, Foreign(0)); }
    EntriesAfter(d, o, e);
    SplitsIdle(e, o.splits);
    forall s | s in o.splits && s.key in d.canonicals && s.key.Foreign? && s.ids.None?
      ensures Dissolved(e, s) <==> Leaving(d, s) != {}
    {
      KeysAfter(d, o, e, s.key);
      if Dissolved(e, s) {
        var t :| t in o.splits && t.key == s.key && Leaving(d, t) != {};
        assert Leaving(d, t) <= Leaving(d, s);
      }
    }
    hide Leaving;
  }

  lemma SecondApprovals(d: Dictionary, o: Corrections, e: Dictionary)
    requires Named(d) && Apply(d, o) == Ok(e)
    ensures Approvals(e, o.approvals) == Ok(e)
  {
    var d2 := Splits(Recategorised(d, o.moves), o.splits).value;
    hide Named, Splits, Recategorised, Moved;
    assert forall k :: k in o.approvals ==> k in d2.canonicals;
    assert Stamped(e, o.approvals) == e;
  }

  /** Whatever the keys are made from: a split gives every leaving product a card of its own,
      approved and with the content and category of its former group, files the others under their
      own hashed key with the old card, and touches nothing else. If that key already names another
      group, the two are joined without a word and the other card is lost. */
  lemma SplitMeans(d: Dictionary, s: Split, e: Dictionary)
    requires (forall id :: id in d.products ==> d.products[id] in d.canonicals) && SplitOne(d, s) == Ok(e)
    requires s.key in d.canonicals && Leaving(d, s) != {}
    ensures forall id :: id in Leaving(d, s) ==>
      Isolated(e, id) && KeyOf(id) in e.canonicals && e.canonicals[KeyOf(id)] == Alone(d.canonicals[s.key])
    ensures var rest := Members(d, s.key) - Leaving(d, s); rest != {} ==> var k := CanonicalKey(rest);
      k in e.canonicals && e.canonicals[k] == d.canonicals[s.key] && Members(e, k) == rest + (if k == s.key then {} else Members(d, k))
    ensures forall k ::
      k != s.key && k !in Keys(Leaving(d, s)) &&
      (Members(d, s.key) - Leaving(d, s) != {} ==> k != CanonicalKey(Members(d, s.key) - Leaving(d, s))) ==>
      (k in e.canonicals <==> k in d.canonicals) && (k in d.canonicals ==> e.canonicals[k] == d.canonicals[k]) && Members(e, k) == Members(d, k)
  {
    var moving, rest := Leaving(d, s), Members(d, s.key) - Leaving(d, s);
    assert e == Taken(d, s.key, moving) && moving <= Members(d, s.key);
    TakenAlone(d, s, e);
    if rest != {} { TakenRest(d, s.key, moving, rest); }
    hide Taken, SplitOne, Leaving, Isolated;
    forall k | k != s.key && k !in Keys(moving) && (rest != {} ==> k != CanonicalKey(rest))
      ensures (k in e.canonicals <==> k in d.canonicals) &&
        (k in d.canonicals ==> e.canonicals[k] == d.canonicals[k]) && Members(e, k) == Members(d, k)
    {
      TakenElsewhere(d, s.key, moving, k);
    }
  }

  lemma TakenElsewhere(d: Dictionary, key: Key, moving: set<Id>, k: Key)
    requires key in d.canonicals && moving <= Members(d, key) && k != key && k !in Keys(moving)
    requires Members(d, key) - moving != {} ==> k != CanonicalKey(Members(d, key) - moving)
    ensures var e := Taken(d, key, moving);
      (k in e.canonicals <==> k in d.canonicals) &&
      (k in d.canonicals ==> e.canonicals[k] == d.canonicals[k]) && Members(e, k) == Members(d, k)
  {
  }

  lemma TakenRest(d: Dictionary, key: Key, moving: set<Id>, rest: set<Id>)
    requires key in d.canonicals && moving <= Members(d, key) && rest == Members(d, key) - moving && rest != {}
    ensures var e, k := Taken(d, key, moving), CanonicalKey(rest);
      k in e.canonicals && e.canonicals[k] == d.canonicals[key] && Members(e, k) == rest + (if k == key then {} else Members(d, k))
  {
    assert Least(rest) in rest && KeyOf(Least(rest)) !in Keys(moving);
  }

  lemma TakenAlone(d: Dictionary, s: Split, e: Dictionary)
    requires (forall id :: id in d.products ==> d.products[id] in d.canonicals) && s.key in d.canonicals &&
      !Collides(d, s)
    requires e == Taken(d, s.key, Leaving(d, s))
    ensures forall id :: id in Leaving(d, s) ==>
      Isolated(e, id) && KeyOf(id) in e.canonicals && e.canonicals[KeyOf(id)] == Alone(d.canonicals[s.key])
  {
    var moving := Leaving(d, s);
    var rest := Rest(d, s.key, Members(d, s.key) - moving);
    RestPoints(d, s.key, moving);
    forall id | id in moving ensures Isolated(e, id) && KeyOf(id) in e.canonicals && e.canonicals[KeyOf(id)] == Alone(d.canonicals[s.key]) {
      assert KeyOf(id) in Keys(moving) && KeyOf(id) !in rest.canonicals;
      assert id in Members(e, KeyOf(id));
      assert forall other :: other in Members(e, KeyOf(id)) ==> other == id;
    }
  }

  lemma RestPoints(d: Dictionary, key: Key, moving: set<Id>)
    requires (forall id :: id in d.products ==> d.products[id] in d.canonicals) && key in d.canonicals &&
      moving <= Members(d, key)
    ensures var rest := Rest(d, key, Members(d, key) - moving);
      rest.products.Keys == d.products.Keys && forall other :: other in rest.products && other !in moving ==> rest.products[other] in rest.canonicals
  {
    var remaining := Members(d, key) - moving;
    forall other | other in d.products && other !in moving ensures Rest(d, key, remaining).products[other] in Rest(d, key, remaining).canonicals {
      assert d.products[other] == key ==> other in remaining;
    }
  }

  /** Where hashed keys name their own members, no group is joined to another. */
  lemma NeverJoins(d: Dictionary, k: Key, rest: set<Id>)
    requires Named(d) && rest <= Members(d, k) && rest != {} && CanonicalKey(rest) != k
    ensures CanonicalKey(rest) !in d.canonicals && Members(d, CanonicalKey(rest)) == {}
  {
    assert Least(rest) in Members(d, k);
  }

  /** Applying the same corrections again returns the same dictionary, unless a move names a key
      that the first run has retired, or an entry without ids dissolved a group whose key is not
      hashed: then, and only then, the second run stops at an unknown key. */
  lemma ApplyTwice(d: Dictionary, o: Corrections, e: Dictionary)
    requires Named(d) && Apply(d, o) == Ok(e)
    ensures Apply(e, o) == if Unfiled(e, o) || TornApart(d, o) then Err(UnknownCanonical) else Ok(e)
  {
    SecondMoves(d, o, e);
    SecondSplits(d, o, e);
    SecondApprovals(d, o, e);
    hide Named, Splits, Moved, Approvals, Unfiled, TornApart;
  }

  /** Where hashed keys are made from the least member, both can be read from the input: an entry
      takes members out of a group whose key is not hashed, and either names no ids or has its key
      moved. */
  lemma SoundApplyTwice(d: Dictionary, o: Corrections, e: Dictionary)
    requires Sound(d) && Apply(d, o) == Ok(e)
    ensures Apply(e, o) == if Stumbles(d, o) then Err(UnknownCanonical) else Ok(e)
  {
    ApplyTwice(d, o, e);
    hide Named, Splits, Approvals, TornApart, Leaving, Recategorised, Stamped;
    assert forall m :: m in o.moves ==> m.key in d.canonicals;
    forall k | k in d.canonicals ensures k !in e.canonicals <==> k.Foreign? && exists s :: s in o.splits && s.key == k && Leaving(d, s) != {} {
      KeysAfter(d, o, e, k);
      if k.KeyOf? { assert Firm(d, k); }
    }
    hide Apply, Firm;
  }

  /** For a dictionary as the builder leaves it the promise holds without exception. */
  lemma KeyedApplyTwice(d: Dictionary, o: Corrections, e: Dictionary)
    requires Keyed(d) && Apply(d, o) == Ok(e)
    ensures Keyed(e) && Apply(e, o) == Ok(e)
  {
    hide Named, Apply, Refines;
    ApplyKeeps(d, o, e);
    SoundApplyTwice(d, o, e);
  }

  /** The collision check of a split fires exactly for an id listed twice, or for one whose own
      key names another card; the second never happens where hashed keys name their own members. */
  lemma CollidesIffRepeated(d: Dictionary, s: Split)
    requires s.key in d.canonicals
    ensures Collides(d, s) <==>
      (s.ids.Some? && Repeats(s.ids.value, Members(d, s.key))) ||
      exists id :: id in Leaving(d, s) && KeyOf(id) in d.canonicals && KeyOf(id) != s.key
    ensures Named(d) ==> !exists id :: id in Leaving(d, s) && KeyOf(id) in d.canonicals && KeyOf(id) != s.key
  {
    hide Repeats;
    var rest := Members(d, s.key) - Leaving(d, s);
    forall id | id in Leaving(d, s) ensures KeyOf(id) in Rest(d, s.key, rest).canonicals <==> KeyOf(id) in d.canonicals && KeyOf(id) != s.key {
      if rest != {} { assert Least(rest) != id; }
    }
    if Named(d) {
      forall id | id in Leaving(d, s) && KeyOf(id) in d.canonicals ensures KeyOf(id) == s.key {
        assert id in Members(d, KeyOf(id)) && id in Members(d, s.key);
      }
    }
  }

  /** So a run whose entries list no id twice never reports a collision. */
  lemma {:induction false} NoCollision(d: Dictionary, splits: seq<Split>)
    requires Named(d) && forall s :: s in splits && s.ids.Some? ==> Distinct(s.ids.value)
    ensures Splits(d, splits) != Err(KeyCollision)
    decreases |splits|
  {
    if splits != [] {
      var s := splits[0];
      assert s in splits;
      if s.key in d.canonicals { CollidesIffRepeated(d, s); }
      if SplitOne(d, s).Ok? {
        SplitEvolves(d, s, SplitOne(d, s).value);
        forall t | t in splits[1..] ensures t in splits {}
        NoCollision(SplitOne(d, s).value, splits[1..]);
      }
    }
  }

  /** A hand-written key: the first run dissolves its group, the second does not know it. */
  lemma HandWrittenKey() returns (d: Dictionary, o: Corrections, e: Dictionary)
    ensures Named(d) && Apply(d, o) == Ok(e) && Apply(e, o) == Err(UnknownCanonical)
  {
    var c := Card(0, 0, Ai, 0.9, Pending);
    var k, s := Foreign(0), Split(Foreign(0), None);
    d, o := Dictionary(map[k := c], map[1 := k, 2 := k]), Corrections([], [s], []);
    assert Members(d, k) == {1, 2};
    assert Recategorised(d, []) == d;
    var f := Taken(d, k, {1, 2});
    assert !Collides(d, s);
    assert SplitOne(d, s) == Ok(f) && Splits(f, []) == Ok(f) && o.splits[1..] == [];
    e := Stamped(f, []);
    assert Apply(d, o) == Ok(e);
    assert 1 in Leaving(d, s) && s in o.splits;
    ApplyTwice(d, o, e);
  }

  /** A key that names no member of its group, because the product it was made from is filed
      elsewhere: the second application succeeds, and changes the dictionary. */
  lemma ForeignFounder() returns (d: Dictionary, o: Corrections, e: Dictionary, f: Dictionary)
    ensures !Named(d) && Apply(d, o) == Ok(e) && Apply(e, o) == Ok(f) && f != e
  {
    var c, one, two, three := Card(0, 0, Ai, 0.9, Pending), KeyOf(1), KeyOf(2), KeyOf(3);
    d := Dictionary(map[one := c, three := c], map[1 := three, 2 := one, 3 := three]);
    o := Corrections([], [Split(one, None), Split(three, Some([3]))], []);
    var m := Dictionary(map[two := Alone(c), three := c], map[1 := three, 2 := two, 3 := three]);
    e := Dictionary(map[two := Alone(c), one := c, three := Alone(c)], map[1 := one, 2 := two, 3 := three]);
    f := Dictionary(map[two := Alone(c), one := Alone(c), three := Alone(c)], map[1 := one, 2 := two, 3 := three]);
    FirstRun(c, d, m);
    FirstRunOn(c, m, e);
    SecondRun(c, e, f);
    TwoSplits(d, o, m, e);
    TwoSplits(e, o, f, f);
    assert e.canonicals[one] != f.canonicals[one] && 1 !in Members(d, one);
    hide Apply;
  }

  lemma TwoSplits(d: Dictionary, o: Corrections, m: Dictionary, e: Dictionary)
    requires o.moves == [] && o.approvals == [] && |o.splits| == 2 && SplitOne(d, o.splits[0]) == Ok(m) &&
      SplitOne(m, o.splits[1]) == Ok(e)
    ensures Apply(d, o) == Ok(e)
  {
    hide SplitOne;
    assert Recategorised(d, []) == d && Stamped(e, []) == e;
    assert o.splits[1..] == [o.splits[1]] && o.splits[1..][1..] == [];
    assert Splits(e, []) == Ok(e) && Splits(m, o.splits[1..]) == Ok(e);
  }

  lemma FirstRun(c: Card, d: Dictionary, m: Dictionary)
    requires c == Card(0, 0, Ai, 0.9, Pending) &&
      d == Dictionary(map[KeyOf(1) := c, KeyOf(3) := c], map[1 := KeyOf(3), 2 := KeyOf(1), 3 := KeyOf(3)])
    requires m == Dictionary(map[KeyOf(2) := Alone(c), KeyOf(3) := c], map[1 := KeyOf(3), 2 := KeyOf(2), 3 := KeyOf(3)])
    ensures SplitOne(d, Split(KeyOf(1), None)) == Ok(m)
  {
    hide SplitOne, Isolated, Leaving, Repeats, Place, Relocate;
    var rest := Dictionary(map[KeyOf(3) := c], d.products);
    assert Members(d, KeyOf(1)) == {2} && Members(d, KeyOf(1)) - {2} == {};
    assert Rest(d, KeyOf(1), {}) == rest by { assert d.canonicals - {KeyOf(1)} == rest.canonicals; }
    PlacesOne(rest, 2, Alone(c), m);
    TakesOut(d, Split(KeyOf(1), None), {2}, m);
  }

  lemma FirstRunOn(c: Card, m: Dictionary, e: Dictionary)
    requires c == Card(0, 0, Ai, 0.9, Pending) &&
      m == Dictionary(map[KeyOf(2) := Alone(c), KeyOf(3) := c], map[1 := KeyOf(3), 2 := KeyOf(2), 3 := KeyOf(3)])
    requires e == Dictionary(map[KeyOf(2) := Alone(c), KeyOf(1) := c, KeyOf(3) := Alone(c)],
      map[1 := KeyOf(1), 2 := KeyOf(2), 3 := KeyOf(3)])
    ensures SplitOne(m, Split(KeyOf(3), Some([3]))) == Ok(e)
  {
    hide SplitOne, Isolated, Leaving, Repeats, Place, Relocate;
    assert Members(m, KeyOf(3)) == {1, 3} && Members(m, KeyOf(3)) - {3} == {1};
    OneMember(1);
    var rest := Dictionary(map[KeyOf(2) := Alone(c), KeyOf(1) := c], map[1 := KeyOf(1), 2 := KeyOf(2), 3 := KeyOf(3)]);
    assert Rest(m, KeyOf(3), {1}) == rest by { assert (m.canonicals - {KeyOf(3)})[KeyOf(1) := c] == rest.canonicals; }
    PlacesOne(rest, 3, Alone(c), e);
    assert Elements([3]) == {3};
    TakesOut(m, Split(KeyOf(3), Some([3])), {3}, e);
  }

  lemma SecondRun(c: Card, e: Dictionary, f: Dictionary)
    requires c == Card(0, 0, Ai, 0.9, Pending)
    requires e == Dictionary(map[KeyOf(2) := Alone(c), KeyOf(1) := c, KeyOf(3) := Alone(c)],
      map[1 := KeyOf(1), 2 := KeyOf(2), 3 := KeyOf(3)])
    requires f == Dictionary(map[KeyOf(2) := Alone(c), KeyOf(1) := Alone(c), KeyOf(3) := Alone(c)],
      map[1 := KeyOf(1), 2 := KeyOf(2), 3 := KeyOf(3)])
    ensures SplitOne(e, Split(KeyOf(1), None)) == Ok(f) && SplitOne(f, Split(KeyOf(3), Some([3]))) == Ok(f)
  {
    assert Members(e, KeyOf(1)) == {1} && Members(f, KeyOf(3)) == {3};
    assert Elements([3]) == {3} && Taken(e, KeyOf(1), {1}) == f;
    TakesOut(e, Split(KeyOf(1), None), {1}, f);
    TakenAgain(f, 3);
    TakesOut(f, Split(KeyOf(3), Some([3])), {3}, f);
  }

  lemma PlacesOne(rest: Dictionary, id: Id, c: Card, e: Dictionary)
    requires id in rest.products &&
      e == Dictionary(rest.canonicals[KeyOf(id) := c], rest.products[id := KeyOf(id)])
    ensures Dictionary(Place(rest.canonicals, {id}, c), Relocate(rest.products, {id})) == e
  {
    assert Keys({id}) == {KeyOf(id)};
    assert Place(rest.canonicals, {id}, c) == e.canonicals && Relocate(rest.products, {id}) == e.products;
  }

  lemma TakesOut(d: Dictionary, s: Split, moving: set<Id>, e: Dictionary)
    requires s.key in d.canonicals &&
      moving == (if s.ids.Some? then Elements(s.ids.value) else Members(d, s.key)) && moving != {} &&
      moving <= Members(d, s.key)
    requires s.ids.Some? ==> |s.ids.value| == 1
    requires forall id :: id in moving ==> KeyOf(id) !in Rest(d, s.key, Members(d, s.key) - moving).canonicals
    requires Taken(d, s.key, moving) == e
    ensures SplitOne(d, s) == Ok(e)
  {
    hide Taken, Rest, Isolated;
    assert Leaving(d, s) == moving;
    if s.ids.Some? { forall id | id in s.ids.value ensures id in Members(d, s.key) { assert id in Elements(s.ids.value); } }
  }
}
