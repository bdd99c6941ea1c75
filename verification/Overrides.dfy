/** Manual corrections of the product dictionary (pipeline/src/mapping/overrides.ts) and the
    builder that names its groups (pipeline/src/mapping/dictionary.ts). */
module Overrides {
  import opened Counting
  import opened Outcomes

  datatype Error = UnknownCanonical | NotAMember | KeyCollision | WithoutMembers

  /** Product identities, numbered in their sort order. */
  type Id = nat

  /** The truncated SHA-256 of an identity, taken to be injective, or any other string. */
  datatype Key = KeyOf(id: Id) | Foreign(n: nat)

  datatype MatchMethod = Deterministic | Ai
  datatype Review = Approved | Pending

  /** `content` stands for name, brand and attributes, which no override touches. */
  datatype Card = Card(content: nat, category: nat, matchedBy: MatchMethod, confidence: real, review: Review)

  datatype Dictionary = Dictionary(canonicals: map<Key, Card>, products: map<Id, Key>)

  datatype Move = Move(key: Key, to: nat)
  datatype Split = Split(key: Key, ids: Option<seq<Id>>)
  datatype Corrections = Corrections(moves: seq<Move>, splits: seq<Split>, approvals: seq<Key>)

  predicate Distinct(s: seq<Id>) { forall i, j :: 0 <= i < j < |s| ==> s[i] != s[j] }

  function Members(d: Dictionary, k: Key): set<Id> {
    set id | id in d.products && d.products[id] == k
  }

  ghost predicate IsLeast(s: set<Id>, m: Id) { m in s && forall x :: x in s ==> m <= x }

  lemma LeastExists(s: set<Id>, a: Id)
    requires a in s
    ensures exists m :: IsLeast(s, m)
  {
    if !IsLeast(s, a) {
      var b :| b in s && b < a;
      LeastExists(s, b);
    }
  }

  /** The first identity in sort order. */
  function Least(s: set<Id>): (m: Id)
    requires s != {}
    ensures m in s && forall x :: x in s ==> m <= x
  {
    assert exists m :: m in s && forall x :: x in s ==> m <= x by {
      var a :| a in s;
      LeastExists(s, a);
      var m :| IsLeast(s, m);
    }
    var m :| m in s && forall x :: x in s ==> m <= x;
    m
  }

  function CanonicalKey(members: set<Id>): Key
    requires members != {}
  {
    KeyOf(Least(members))
  }

  /** A hashed key made from the least member of its group. */
  ghost predicate Firm(d: Dictionary, k: Key) {
    k in d.canonicals && k.KeyOf? && Members(d, k) != {} && k == CanonicalKey(Members(d, k))
  }

  /** Products point at cards, as the reader of the file insists, and a hashed key is made from
      one of its members, though others may have joined that sort before it. Other keys may be any
      strings and may name empty groups. */
  ghost predicate Named(d: Dictionary) {
    && (forall id :: id in d.products ==> d.products[id] in d.canonicals)
    && (forall k :: k in d.canonicals && k.KeyOf? ==> k.id in Members(d, k))
  }

  /** Besides, every hashed key is firm. */
  ghost predicate Sound(d: Dictionary) {
    Named(d) && forall k :: k in d.canonicals && k.KeyOf? ==> Firm(d, k)
  }

  /** Every key is hashed, as the builder leaves them. */
  ghost predicate Keyed(d: Dictionary) {
    Sound(d) && forall k :: k in d.canonicals ==> k.KeyOf?
  }

  // ----- what each stage computes -----

  function LastMove(moves: seq<Move>, k: Key, category: nat): nat {
    if moves == [] then category
    else if moves[|moves| - 1].key == k then moves[|moves| - 1].to
    else LastMove(moves[..|moves| - 1], k, category)
  }

  function Recategorised(d: Dictionary, moves: seq<Move>): Dictionary {
    d.(canonicals := map k | k in d.canonicals :: d.canonicals[k].(category := LastMove(moves, k, d.canonicals[k].category)))
  }

  function Moved(d: Dictionary, moves: seq<Move>): Result<Dictionary, Error> {
    if exists m :: m in moves && m.key !in d.canonicals then Err(UnknownCanonical) else Ok(Recategorised(d, moves))
  }

  predicate Isolated(d: Dictionary, id: Id) {
    id in d.products && d.products[id] == KeyOf(id) && Members(d, KeyOf(id)) == {id}
  }

  /** What isolation makes of a card. */
  function Alone(c: Card): Card { c.(matchedBy := Deterministic, confidence := 1.0, review := Approved) }

  function Keys(ids: set<Id>): set<Key> { set id | id in ids :: KeyOf(id) }

  function Place(base: map<Key, Card>, ids: set<Id>, c: Card): map<Key, Card> {
    map q | q in base.Keys + Keys(ids) :: if q in Keys(ids) then c else base[q]
  }

  function Relocate(products: map<Id, Key>, ids: set<Id>): map<Id, Key> {
    map id | id in products :: if id in ids then KeyOf(id) else products[id]
  }

  function Renamed(products: map<Id, Key>, ids: set<Id>, k: Key): map<Id, Key> {
    map id | id in products :: if id in ids then k else products[id]
  }

  /** The group `k` without its moving members: the rest stays together under its own key. */
  function Rest(d: Dictionary, k: Key, remaining: set<Id>): Dictionary
    requires k in d.canonicals
  {
    if remaining == {} then d.(canonicals := d.canonicals - {k})
    else Dictionary((d.canonicals - {k})[CanonicalKey(remaining) := d.canonicals[k]], Renamed(d.products, remaining, CanonicalKey(remaining)))
  }

  /** `moving` leaves the group `k`, one card each. */
  function Taken(d: Dictionary, k: Key, moving: set<Id>): Dictionary
    requires k in d.canonicals
  {
    var rest := Rest(d, k, Members(d, k) - moving);
    Dictionary(Place(rest.canonicals, moving, Alone(d.canonicals[k])), Relocate(rest.products, moving))
  }

  /** The members a split entry takes out of its group. */
  function Leaving(d: Dictionary, s: Split): set<Id> {
    if s.ids.None? then Members(d, s.key) else Elements(s.ids.value) * Members(d, s.key)
  }

  predicate Repeats(ids: seq<Id>, among: set<Id>) {
    exists i, j :: 0 <= i < j < |ids| && ids[i] == ids[j] && ids[i] in among
  }

  predicate Collides(d: Dictionary, s: Split)
    requires s.key in d.canonicals
  {
    || (s.ids.Some? && Repeats(s.ids.value, Members(d, s.key)))
    || exists id :: id in Leaving(d, s) && KeyOf(id) in Rest(d, s.key, Members(d, s.key) - Leaving(d, s)).canonicals
  }

  function SplitOne(d: Dictionary, s: Split): Result<Dictionary, Error> {
    if s.key !in d.canonicals then
      if s.ids.Some? && forall id :: id in s.ids.value ==> Isolated(d, id) then Ok(d) else Err(UnknownCanonical)
    else if s.ids.Some? && exists id :: id in s.ids.value && id !in Members(d, s.key) && !Isolated(d, id) then Err(NotAMember)
    else if Leaving(d, s) == {} then Ok(d)
    else if Collides(d, s) then Err(KeyCollision)
    else Ok(Taken(d, s.key, Leaving(d, s)))
  }

  function Splits(d: Dictionary, splits: seq<Split>): Result<Dictionary, Error>
    decreases |splits|
  {
    if splits == [] then Ok(d) else
      var e :- SplitOne(d, splits[0]);
      Splits(e, splits[1..])
  }

  function Stamped(d: Dictionary, approvals: seq<Key>): Dictionary {
    d.(canonicals := map k | k in d.canonicals :: if k in approvals then d.canonicals[k].(review := Approved) else d.canonicals[k])
  }

  function Approvals(d: Dictionary, approvals: seq<Key>): Result<Dictionary, Error> {
    if exists k :: k in approvals && k !in d.canonicals then Err(UnknownCanonical) else Ok(Stamped(d, approvals))
  }

  function Apply(d: Dictionary, o: Corrections): Result<Dictionary, Error> {
    var moved :- Moved(d, o.moves);
    var split :- Splits(moved, o.splits);
    Approvals(split, o.approvals)
  }

  // ----- the program -----

  method MembersOf(d: Dictionary, k: Key) returns (ids: seq<Id>)
    ensures Elements(ids) == Members(d, k) && Distinct(ids)
  {
    ids := [];
    var left := d.products.Keys;
    while left != {}
      invariant left <= d.products.Keys && Distinct(ids)
      invariant forall id :: id in ids <==> id in Members(d, k) && id !in left
    {
      var id :| id in left;
      if d.products[id] == k { ids := ids + [id]; }
      left := left - {id};
    }
  }

  /** The third statement of a split: those that are still in the group, in the order given. */
  method StillIn(d: Dictionary, k: Key, ids: seq<Id>) returns (moving: seq<Id>)
    ensures Elements(moving) == Elements(ids) * Members(d, k)
    ensures Distinct(moving) <==> !Repeats(ids, Members(d, k))
  {
    moving := [];
    for i := 0 to |ids|
      invariant forall id :: id in moving <==> id in ids[..i] && id in Members(d, k)
      invariant Distinct(moving) <==> !Repeats(ids[..i], Members(d, k))
    {
      ghost var was := moving;
      assert ids[..i + 1] == ids[..i] + [ids[i]];
      if ids[i] in d.products && d.products[ids[i]] == k {
        moving := moving + [ids[i]];
        RepeatsGrows(ids[..i], ids[i], Members(d, k));
        assert Distinct(moving) <==> Distinct(was) && ids[i] !in was by { DistinctGrows(was, ids[i]); }
      } else {
        RepeatsGrows(ids[..i], ids[i], Members(d, k));
      }
    }
    assert ids[..|ids|] == ids;
  }

  lemma DistinctGrows(s: seq<Id>, x: Id)
    ensures Distinct(s + [x]) <==> Distinct(s) && x !in s
  {
    var t := s + [x];
    if x in s {
      var i :| 0 <= i < |s| && s[i] == x;
      assert t[i] == t[|s|];
    }
    if !Distinct(s) {
      var i, j :| 0 <= i < j < |s| && s[i] == s[j];
      assert t[i] == t[j];
    }
  }

  lemma RepeatsGrows(s: seq<Id>, x: Id, among: set<Id>)
    ensures Repeats(s + [x], among) <==> Repeats(s, among) || (x in s && x in among)
  {
    var t := s + [x];
    if Repeats(s, among) {
      var i, j :| 0 <= i < j < |s| && s[i] == s[j] && s[i] in among;
      assert t[i] == t[j] && t[i] in among;
    }
    if x in s && x in among {
      var i :| 0 <= i < |s| && s[i] == x;
      assert t[i] == t[|s|] && t[i] in among;
    }
  }

  method ApplyOne(d: Dictionary, s: Split) returns (r: Result<Dictionary, Error>)
    ensures r == SplitOne(d, s)
  {
    hide Isolated, Place, Relocate, CanonicalKey, Repeats;
    if s.key !in d.canonicals {
      if s.ids.Some? {
        if forall id :: id in s.ids.value ==> Isolated(d, id) { return Ok(d); }
      }
      return Err(UnknownCanonical);
    }
    var original := d.canonicals[s.key];
    var members := MembersOf(d, s.key);
    var ids := if s.ids.Some? then s.ids.value else members;
    forall id | id in members ensures id in Members(d, s.key) { assert id in Elements(members); }
    for i := 0 to |ids|
      invariant forall j :: 0 <= j < i ==> ids[j] in Members(d, s.key) || Isolated(d, ids[j])
    {
      if !(ids[i] in d.products && d.products[ids[i]] == s.key) && !Isolated(d, ids[i]) {
        assert ids[i] in ids;
        return Err(NotAMember);
      }
    }
    var moving := StillIn(d, s.key, ids);
    assert Elements(moving) == Leaving(d, s);
    if moving == [] { return Ok(d); }
    assert moving[0] in Elements(moving);
    var remaining := (set id | id in members && id !in moving);
    assert remaining == Members(d, s.key) - Leaving(d, s) by {
      forall id ensures id in members <==> id in Members(d, s.key) { assert id in members <==> id in Elements(members); }
      forall id ensures id in moving <==> id in Leaving(d, s) { assert id in moving <==> id in Elements(moving); }
    }
    var rest := d.(canonicals := d.canonicals - {s.key});
    if remaining != {} {
      var newKey := CanonicalKey(remaining);
      rest := Dictionary(rest.canonicals[newKey := original], Renamed(d.products, remaining, newKey));
    }
    forall id | id in moving ensures id in rest.products { assert id in Elements(moving); }
    assert Collides(d, s) <==> !Distinct(moving) || exists id :: id in moving && KeyOf(id) in rest.canonicals by {
      MembersNeverRepeat(d, s, ids, members);
      forall id ensures id in moving <==> id in Leaving(d, s) { assert id in moving <==> id in Elements(moving); }
    }
    r := Isolate(rest, moving, Alone(original));
  }

  /** The last loop of a split. */
  method Isolate(rest: Dictionary, moving: seq<Id>, c: Card) returns (r: Result<Dictionary, Error>)
    requires forall id :: id in moving ==> id in rest.products
    ensures r ==
      if !Distinct(moving) || exists id :: id in moving && KeyOf(id) in rest.canonicals then Err(KeyCollision)
      else Ok(Dictionary(Place(rest.canonicals, Elements(moving), c), Relocate(rest.products, Elements(moving))))
  {
    hide Place, Relocate, Elements;
    var canonicals, products := rest.canonicals, rest.products;
    PlaceNone(rest, c);
    for i := 0 to |moving|
      invariant Distinct(moving[..i]) && forall j :: 0 <= j < i ==> KeyOf(moving[j]) !in rest.canonicals
      invariant canonicals == Place(rest.canonicals, Elements(moving[..i]), c)
      invariant products == Relocate(rest.products, Elements(moving[..i]))
    {
      var key := KeyOf(moving[i]);
      if key in canonicals {
        CollisionMeans(rest.canonicals, moving, i, c);
        return Err(KeyCollision);
      }
      PlaceNext(rest, moving, i, c);
      canonicals := canonicals[key := c];
      products := products[moving[i] := key];
    }
    assert moving[..|moving|] == moving;
    r := Ok(Dictionary(canonicals, products));
  }

  lemma PlaceNone(rest: Dictionary, c: Card)
    ensures Place(rest.canonicals, Elements([]), c) == rest.canonicals
    ensures Relocate(rest.products, Elements([])) == rest.products
  {
  }

  lemma PlaceNext(rest: Dictionary, moving: seq<Id>, i: nat, c: Card)
    requires i < |moving| && moving[i] in rest.products && Distinct(moving[..i])
    requires KeyOf(moving[i]) !in Place(rest.canonicals, Elements(moving[..i]), c)
    ensures KeyOf(moving[i]) !in rest.canonicals && Distinct(moving[..i + 1])
    ensures Place(rest.canonicals, Elements(moving[..i]), c)[KeyOf(moving[i]) := c] == Place(rest.canonicals,
      Elements(moving[..i + 1]), c)
    ensures Relocate(rest.products,
      Elements(moving[..i]))[moving[i] := KeyOf(moving[i])] == Relocate(rest.products,
      Elements(moving[..i + 1]))
  {
    assert moving[..i + 1] == moving[..i] + [moving[i]];
    DistinctGrows(moving[..i], moving[i]);
    assert Elements(moving[..i + 1]) == Elements(moving[..i]) + {moving[i]};
    assert moving[i] !in moving[..i] by {
      assert KeyOf(moving[i]) !in Keys(Elements(moving[..i]));
      assert moving[i] !in Elements(moving[..i]);
    }
    assert Keys(Elements(moving[..i + 1])) == Keys(Elements(moving[..i])) + {KeyOf(moving[i])};
  }

  lemma MembersNeverRepeat(d: Dictionary, s: Split, ids: seq<Id>, members: seq<Id>)
    requires ids == (if s.ids.Some? then s.ids.value else members)
    requires Distinct(members)
    ensures s.ids.None? ==> !Repeats(ids, Members(d, s.key))
  {
  }

  lemma CollisionMeans(base: map<Key, Card>, moving: seq<Id>, i: nat, c: Card)
    requires i < |moving| && KeyOf(moving[i]) in Place(base, Elements(moving[..i]), c)
    ensures !Distinct(moving) || KeyOf(moving[i]) in base
  {
  }

  method ApplyMoves(dict: Dictionary, moves: seq<Move>) returns (r: Result<Dictionary, Error>)
    ensures r == Moved(dict, moves)
  {
    var d := dict;
    for i := 0 to |moves|
      invariant forall j :: 0 <= j < i ==> moves[j].key in dict.canonicals
      invariant d == Recategorised(dict, moves[..i])
    {
      var m := moves[i];
      if m.key !in d.canonicals { assert m in moves; return Err(UnknownCanonical); }
      d := d.(canonicals := d.canonicals[m.key := d.canonicals[m.key].(category := m.to)]);
      assert moves[..i + 1][..i] == moves[..i];
    }
    assert moves[..|moves|] == moves;
    r := Ok(d);
  }

  method ApplyApprovals(dict: Dictionary, approvals: seq<Key>) returns (r: Result<Dictionary, Error>)
    ensures r == Approvals(dict, approvals)
  {
    var d := dict;
    for i := 0 to |approvals|
      invariant forall j :: 0 <= j < i ==> approvals[j] in dict.canonicals
      invariant d == Stamped(dict, approvals[..i])
    {
      var k := approvals[i];
      if k !in d.canonicals { assert k in approvals; return Err(UnknownCanonical); }
      d := d.(canonicals := d.canonicals[k := d.canonicals[k].(review := Approved)]);
      assert approvals[..i + 1] == approvals[..i] + [k];
    }
    assert approvals[..|approvals|] == approvals;
    r := Ok(d);
  }

  /** applyOverrides: moves, then splits, then approvals, on a copy of the dictionary. */
  method ApplyOverrides(dict: Dictionary, o: Corrections) returns (r: Result<Dictionary, Error>)
    ensures r == Apply(dict, o)
  {
    var d :- ApplyMoves(dict, o.moves);
    ghost var moved := d;
    for i := 0 to |o.splits|
      invariant Splits(d, o.splits[i..]) == Splits(moved, o.splits)
    {
      assert o.splits[i..][1..] == o.splits[i + 1..];
      d :- ApplyOne(d, o.splits[i]);
    }
    r := ApplyApprovals(d, o.approvals);
  }
}
