/** What corrections do to the cards and groups of a dictionary (pipeline/src/mapping/overrides.ts). */
module Corrections {
  import opened Outcomes
  import opened Overrides
  import opened Idempotence

  /** The card that isolation leaves: for its own product alone, approved by hand. */
  ghost predicate Lone(y: Dictionary, k: Key) {
    && k in y.canonicals && k.KeyOf? && Members(y, k) == {k.id}
    && y.canonicals[k].matchedBy == Deterministic && y.canonicals[k].confidence == 1.0 &&
      y.canonicals[k].review == Approved
  }

  /** The card `k` of `y` is for some of the products that the card `q` of `x` was for, and is
      that card unless its product has been isolated. */
  ghost predicate From(x: Dictionary, y: Dictionary, k: Key, q: Key) {
    && k in y.canonicals && q in x.canonicals && Members(y, k) <= Members(x, q)
    && (Members(y, k) == {} ==> k == q && Members(x, q) == {})
    && y.canonicals[k].content == x.canonicals[q].content &&
      y.canonicals[k].category == x.canonicals[q].category
    && (y.canonicals[k] == x.canonicals[q] || Lone(y, k))
  }

  ghost predicate Comes(x: Dictionary, y: Dictionary, k: Key) { exists q :: From(x, y, k, q) }

  lemma SplitComes(x: Dictionary, s: Split, y: Dictionary, k: Key)
    requires Named(x) && SplitOne(x, s) == Ok(y) && k in y.canonicals
    ensures Comes(x, y, k)
  {
    SplitRegroups(x, s, y);
    if s.key !in x.canonicals || Leaving(x, s) == {} {
      assert From(x, y, k, k);
    } else {
      TakenFrom(x, s.key, Leaving(x, s), y, k);
    }
  }

  lemma TakenFrom(x: Dictionary, key: Key, moving: set<Id>, y: Dictionary, k: Key)
    requires key in x.canonicals && moving <= Members(x, key) && k in y.canonicals &&
      Regrouped(x, key, moving, y, k)
    ensures Comes(x, y, k)
  {
    var rest := Members(x, key) - moving;
    if k in Keys(moving) || (rest != {} && k == CanonicalKey(rest)) {
      assert From(x, y, k, key);
    } else {
      assert From(x, y, k, k);
    }
  }

  lemma FromOnward(x: Dictionary, m: Dictionary, y: Dictionary, k: Key, p: Key, q: Key)
    requires Named(m) && Named(y) && Evolves(m, y) && From(x, m, p, q) && From(m, y, k, p)
    ensures From(x, y, k, q)
  {
    if y.canonicals[k] == m.canonicals[p] && Lone(m, p) {
      assert Members(y, k) == {p.id} && p.id in Members(m, p);
    }
  }

  lemma {:induction false} SplitsCome(x: Dictionary, splits: seq<Split>, y: Dictionary, k: Key)
    requires Named(x) && Splits(x, splits) == Ok(y) && k in y.canonicals
    ensures Comes(x, y, k)
    decreases |splits|
  {
    hide Named, SplitOne, Evolves, Refines, From, Sound;
    if splits == [] {
      SameFrom(x, k);
    } else {
      var m := SplitOne(x, splits[0]).value;
      SplitEvolves(x, splits[0], m);
      SplitsEvolve(m, splits[1..], y);
      SplitsCome(m, splits[1..], y, k);
      var p :| From(m, y, k, p);
      assert p in m.canonicals by { FromKnown(m, y, k, p); }
      SplitComes(x, splits[0], m, p);
      var q :| From(x, m, p, q);
      FromOnward(x, m, y, k, p, q);
    }
  }

  lemma SameFrom(x: Dictionary, k: Key)
    requires k in x.canonicals
    ensures From(x, x, k, k)
  {
  }

  lemma FromKnown(x: Dictionary, y: Dictionary, k: Key, q: Key)
    requires From(x, y, k, q)
    ensures q in x.canonicals
  {
  }

  // ----- moves -----

  /** `c` is where the last of the moves that name `k` leads, or still `before`. */
  ghost predicate MovedTo(moves: seq<Move>, k: Key, before: nat, c: nat) {
    && (forall i ::
      0 <= i < |moves| && moves[i].key == k && (forall j :: i < j < |moves| ==> moves[j].key != k) ==>
      c == moves[i].to)
    && ((forall i :: 0 <= i < |moves| ==> moves[i].key != k) ==> c == before)
  }

  lemma {:induction false} LastMoveMeans(moves: seq<Move>, k: Key, before: nat)
    ensures MovedTo(moves, k, before, LastMove(moves, k, before))
  {
    if moves != [] {
      var n := |moves| - 1;
      if moves[n].key != k {
        LastMoveMeans(moves[..n], k, before);
        var c := LastMove(moves, k, before);
        forall i | 0 <= i < |moves| && moves[i].key == k && (forall j :: i < j < |moves| ==> moves[j].key != k) ensures c == moves[i].to {
          assert moves[..n][i] == moves[i];
        }
      }
    }
  }

  // ----- the whole -----

  /** Where the card `k` of the result comes from, and what has become of it. */
  ghost predicate Traced(d: Dictionary, o: Corrections, e: Dictionary, k: Key, q: Key) {
    && k in e.canonicals && q in d.canonicals && Members(e, k) <= Members(d, q) &&
      (Members(e, k) == {} ==> k == q)
    && var was, now := d.canonicals[q], e.canonicals[k];
      && now.content == was.content && MovedTo(o.moves, q, was.category, now.category)
      && ((now.matchedBy == was.matchedBy && now.confidence == was.confidence && now.review == if k in o.approvals then Approved else was.review) || Lone(e, k))
  }

  /** Every card of the result is for products of one earlier card. It has that card's content, the
      category of the last move that names it, and its verdict, unless it is approved by an entry or
      its product has been isolated. */
  lemma ApplyTraces(d: Dictionary, o: Corrections, e: Dictionary, k: Key)
    requires Named(d) && Apply(d, o) == Ok(e) && k in e.canonicals
    ensures exists q :: Traced(d, o, e, k, q)
  {
    var d1, d2 := StagesOf(d, o, e);
    assert k in d2.canonicals.Keys && Named(d1) && Splits(d1, o.splits) == Ok(d2) by { hide Named, Evolves; }
    SplitsCome(d1, o.splits, d2, k);
    var q :| From(d1, d2, k, q);
    assert e == Stamped(d2, o.approvals) && d1 == Recategorised(d, o.moves);
    FromTraced(d, o, d1, d2, k, q);
  }

  lemma FromTraced(d: Dictionary, o: Corrections, d1: Dictionary, d2: Dictionary, k: Key, q: Key)
    requires d1 == Recategorised(d, o.moves) && From(d1, d2, k, q)
    ensures Traced(d, o, Stamped(d2, o.approvals), k, q)
  {
    LastMoveMeans(o.moves, q, d.canonicals[q].category);
    var e := Stamped(d2, o.approvals);
    assert Members(e, k) == Members(d2, k) && Members(d1, q) == Members(d, q);
    hide MovedTo, LastMove;
  }

  /** A success knows every key it was given to move or approve, and approves those. */
  lemma ApprovedAfter(d: Dictionary, o: Corrections, e: Dictionary)
    requires Apply(d, o) == Ok(e)
    ensures forall k :: k in o.approvals ==> k in e.canonicals && e.canonicals[k].review == Approved
    ensures forall m :: m in o.moves ==> m.key in d.canonicals
  {
    hide Splits;
  }

  /** After a success every product that an entry lists by its id is alone in a group of its own. */
  lemma ListedAlone(d: Dictionary, o: Corrections, e: Dictionary, s: Split, id: Id)
    requires Named(d) && Apply(d, o) == Ok(e) && s in o.splits && s.ids.Some? && id in s.ids.value
    ensures Members(e, KeyOf(id)) == {id}
  {
    hide Named, Evolves, Splits, Recategorised, Refines, Sound, Firm;
    var d1, d2 := StagesOf(d, o, e);
    SplitsSettle(d1, o.splits, d2);
    assert Isolated(d2, id) && e.products == d2.products;
    assert Members(e, KeyOf(id)) == Members(d2, KeyOf(id));
  }

  // ----- corrections that cannot fail -----

  /** An entry that takes members from a group of the dictionary, each once. */
  predicate Orderly(d: Dictionary, s: Split) {
    s.key in d.canonicals && (s.ids.Some? ==> Distinct(s.ids.value) && forall id :: id in s.ids.value ==> id in Members(d, s.key))
  }

  /** Known moves, orderly entries about different groups, and approvals of keys that stay, succeed. */
  lemma OrderlySucceeds(d: Dictionary, o: Corrections)
    requires Named(d) && (forall m :: m in o.moves ==> m.key in d.canonicals)
    requires (forall s :: s in o.splits ==> Orderly(d, s)) &&
      (forall i, j :: 0 <= i < j < |o.splits| ==> o.splits[i].key != o.splits[j].key)
    requires forall k :: k in o.approvals ==> k in d.canonicals && forall s :: s in o.splits ==> s.key != k
    ensures Apply(d, o).Ok?
  {
    hide Named, Splits, Orderly, Evolves, Refines, Sound, Firm;
    var d1 := Recategorised(d, o.moves);
    assert d1.canonicals.Keys == d.canonicals.Keys;
    assert Moved(d, o.moves) == Ok(d1);
    StageParts(d, o, d);
    forall s | s in o.splits ensures Orderly(d1, s) {
      OrderlyKnown(d, s);
      assert s.key in d1.canonicals.Keys;
      SameOrderly(d, d1, s);
    }
    SplitsSucceed(d1, o.splits);
    var d2 := Splits(d1, o.splits).value;
    forall k | k in o.approvals ensures k in d2.canonicals {
      assert k in d1.canonicals.Keys;
      Untouched(d1, o.splits, d2, k);
    }
  }

  lemma SameOrderly(d: Dictionary, e: Dictionary, s: Split)
    requires Orderly(d, s) && s.key in e.canonicals && Members(e, s.key) == Members(d, s.key)
    ensures Orderly(e, s)
  {
  }

  lemma OrderlySplits(x: Dictionary, s: Split)
    requires Named(x) && Orderly(x, s)
    ensures SplitOne(x, s).Ok?
  {
    CollidesIffRepeated(x, s);
    hide Collides;
  }

  /** An entry does not touch the other groups. */
  lemma OthersUntouched(x: Dictionary, s: Split, y: Dictionary, q: Key)
    requires Named(x) && SplitOne(x, s) == Ok(y) && q in x.canonicals && q != s.key
    ensures q in y.canonicals && Members(y, q) == Members(x, q) && y.canonicals[q] == x.canonicals[q]
  {
    SplitRegroups(x, s, y);
    if s.key in x.canonicals && Leaving(x, s) != {} {
      assert Regrouped(x, s.key, Leaving(x, s), y, q);
      if q.KeyOf? { assert q.id in Members(x, q); }
    }
  }

  lemma {:induction false} SplitsSucceed(x: Dictionary, splits: seq<Split>)
    requires Named(x) && (forall s :: s in splits ==> Orderly(x, s))
    requires forall i, j :: 0 <= i < j < |splits| ==> splits[i].key != splits[j].key
    ensures Splits(x, splits).Ok?
    decreases |splits|
  {
    if splits != [] {
      hide Named, SplitOne, Orderly, Evolves, Sound;
      var s := splits[0];
      assert s in splits;
      OrderlySplits(x, s);
      var m := SplitOne(x, s).value;
      SplitEvolves(x, s, m);
      forall t | t in splits[1..] ensures Orderly(m, t) {
        assert t in splits;
        assert t.key in x.canonicals by { OrderlyKnown(x, t); }
        OthersUntouched(x, s, m, t.key);
        SameOrderly(x, m, t);
      }
      SplitsSucceed(m, splits[1..]);
    }
  }

  lemma OrderlyKnown(x: Dictionary, s: Split)
    requires Orderly(x, s)
    ensures s.key in x.canonicals
  {
  }

  lemma {:induction false} Untouched(x: Dictionary, splits: seq<Split>, y: Dictionary, q: Key)
    requires Named(x) && Splits(x, splits) == Ok(y) && q in x.canonicals && forall s :: s in splits ==>
      s.key != q
    ensures q in y.canonicals && Members(y, q) == Members(x, q) && y.canonicals[q] == x.canonicals[q]
    decreases |splits|
  {
    if splits != [] {
      hide Named, SplitOne, Evolves, Sound;
      var m := SplitOne(x, splits[0]).value;
      SplitEvolves(x, splits[0], m);
      OthersUntouched(x, splits[0], m, q);
      Untouched(m, splits[1..], y, q);
    }
  }

  /** No entry names the product, its group or a group-mate by whom its group may be called. */
  ghost predicate LeftAlone(d: Dictionary, splits: seq<Split>, id: Id) {
    id in d.products && forall s :: s in splits ==>
      if s.ids.Some? then id !in s.ids.value
      else s.key != d.products[id] && (s.key.KeyOf? ==> s.key.id !in Members(d, d.products[id]))
  }

  /** Two products of a group that no entry names stay together. */
  lemma StayTogether(d: Dictionary, o: Corrections, e: Dictionary, a: Id, b: Id)
    requires Named(d) && Apply(d, o) == Ok(e) && a in d.products && b in d.products &&
      d.products[a] == d.products[b]
    requires LeftAlone(d, o.splits, a) && LeftAlone(d, o.splits, b)
    ensures a in e.products && b in e.products && e.products[a] == e.products[b]
  {
    hide Named, Evolves, Splits, Recategorised, Refines, Sound, Firm, LeftAlone, Apply;
    var d1, d2 := StagesOf(d, o, e);
    SameAlone(d, d1, o.splits, a);
    SameAlone(d, d1, o.splits, b);
    SplitsStay(d1, o.splits, d2, a, b);
  }

  lemma SameAlone(d: Dictionary, d1: Dictionary, splits: seq<Split>, id: Id)
    requires d1.products == d.products && LeftAlone(d, splits, id)
    ensures LeftAlone(d1, splits, id)
  {
    assert Members(d1, d1.products[id]) == Members(d, d.products[id]);
  }

  lemma {:induction false} SplitsStay(x: Dictionary, splits: seq<Split>, y: Dictionary, a: Id, b: Id)
    requires Named(x) && Splits(x, splits) == Ok(y) && a in x.products && b in x.products &&
      x.products[a] == x.products[b]
    requires LeftAlone(x, splits, a) && LeftAlone(x, splits, b)
    ensures a in y.products && b in y.products && y.products[a] == y.products[b]
    decreases |splits|
  {
    if splits != [] {
      var s := splits[0];
      var m := SplitOne(x, s).value;
      SplitEvolves(x, s, m);
      SplitRefines(x, s, m);
      hide Named, Sound, Evolves, SplitOne, Refines, LeftAlone, Splits;
      LeftAloneParts(x, splits, a);
      LeftAloneParts(x, splits, b);
      SplitStays(x, s, m, a, b);
      LeftAloneOnward(x, m, splits[1..], a);
      LeftAloneOnward(x, m, splits[1..], b);
      assert Splits(m, splits[1..]) == Ok(y) by { SplitsStep(x, splits, m, y); }
      SplitsStay(m, splits[1..], y, a, b);
    }
  }

  lemma SplitStays(x: Dictionary, s: Split, m: Dictionary, a: Id, b: Id)
    requires Named(x) && SplitOne(x, s) == Ok(m) && a in x.products && b in x.products &&
      x.products[a] == x.products[b]
    requires LeftAlone(x, [s], a) && LeftAlone(x, [s], b)
    ensures a in m.products && b in m.products && m.products[a] == m.products[b]
    ensures OnlyRenamed(x, m, a) && OnlyRenamed(x, m, b)
  {
  }

  /** Its group has kept its key or taken that of one of its members. */
  ghost predicate OnlyRenamed(x: Dictionary, m: Dictionary, id: Id) {
    && id in x.products && id in m.products && Members(m, m.products[id]) <= Members(x, x.products[id])
    && (m.products[id] == x.products[id] || (m.products[id].KeyOf? && m.products[id].id in Members(x, x.products[id])))
  }

  lemma LeftAloneParts(x: Dictionary, splits: seq<Split>, id: Id)
    requires splits != [] && LeftAlone(x, splits, id)
    ensures LeftAlone(x, [splits[0]], id) && LeftAlone(x, splits[1..], id)
  {
    assert splits[0] in splits && forall t :: t in splits[1..] ==> t in splits;
  }

  lemma LeftAloneOnward(x: Dictionary, m: Dictionary, splits: seq<Split>, id: Id)
    requires LeftAlone(x, splits, id) && OnlyRenamed(x, m, id)
    ensures LeftAlone(m, splits, id)
  {
  }

  lemma SplitsStep(x: Dictionary, splits: seq<Split>, m: Dictionary, y: Dictionary)
    requires splits != [] && SplitOne(x, splits[0]) == Ok(m) && Splits(x, splits) == Ok(y)
    ensures Splits(m, splits[1..]) == Ok(y)
  {
    hide SplitOne;
  }
}
