/** The prepared bundle and its validation (backend-go/internal/ingestion/bundle.go). */
module Bundles {
  import opened Counting
  import opened Outcomes

  /** Text that trims to nothing, or any other. */
  datatype Text = Blank(n: nat) | Word(n: nat)

  datatype Float = Finite(value: real) | NotFinite

  /** Store codes; the three known ones are 0, 1 and 2. */
  type StoreCode = nat

  const STORES: seq<StoreCode> := [0, 1, 2]
  const MAX_INT32 := 0x7FFF_FFFF
  const MIN_INT32 := -0x8000_0000

  predicate KnownStore(s: StoreCode) { s < 3 }

  datatype Identity = Identity(store: StoreCode, id: Text)

  /** `rest` stands for the fields that are only compared. */
  datatype Raw = Raw(store: StoreCode, id: Text, name: Text, price: int, oldPrice: Option<int>, rest: nat)
  {
    function Key(): Identity { Identity(store, id) }
  }

  datatype MatchMethod = Barcode | Deterministic | Ai | Manual | OtherMethod
  datatype Review = Approved | Pending | Rejected | OtherReview

  datatype Member = Member(raw: Raw, matchedBy: MatchMethod, confidence: Option<Float>, review: Review)

  datatype Group = Group(name: Text, category: Text, image: bool, scalarAttributes: bool, members: seq<Member>)

  datatype Source = Source(store: StoreCode, captured: bool, productCount: Option<int>, errorCount: int)

  /** `versioned` and `generated` say that the version is 1.0 and the timestamp parses. */
  datatype Bundle = Bundle(versioned: bool, generated: bool, raws: seq<Raw>, groups: seq<Group>, sources: seq<Source>)

  predicate RawValid(p: Raw) {
    && KnownStore(p.store) && p.id.Word? && p.name.Word? && 0 < p.price <= MAX_INT32
    && (p.oldPrice.Some? ==> MIN_INT32 <= p.oldPrice.value <= MAX_INT32)
  }

  predicate GroupValid(g: Group) { g.name.Word? && g.category.Word? && g.members != [] && g.scalarAttributes }

  predicate MemberValid(m: Member) {
    && !m.matchedBy.OtherMethod? && !m.review.OtherReview?
    && m.confidence.Some? && m.confidence.value.Finite? && 0.0 <= m.confidence.value.value <= 1.0
  }

  predicate SourceValid(s: Source) {
    KnownStore(s.store) && s.errorCount >= 0 && s.captured && (s.productCount.Some? ==> s.productCount.value >= 0)
  }

  /** All members, group by group. */
  function Flat(groups: seq<Group>): seq<Member> {
    if groups == [] then [] else Flat(groups[..|groups| - 1]) + groups[|groups| - 1].members
  }

  ghost predicate DistinctRaws(raws: seq<Raw>) { forall i, j :: 0 <= i < j < |raws| ==> raws[i].Key() != raws[j].Key() }

  ghost predicate DistinctMembers(ms: seq<Member>) { forall i, j :: 0 <= i < j < |ms| ==> ms[i].raw.Key() != ms[j].raw.Key() }

  ghost predicate DistinctSources(ss: seq<Source>) { forall i, j :: 0 <= i < j < |ss| ==> ss[i].store != ss[j].store }

  /** The groups partition the raw products: every member is one of them, unchanged, no raw
      product is a member twice, and each is a member once. */
  ghost predicate Partitions(raws: seq<Raw>, groups: seq<Group>) {
    && DistinctRaws(raws)
    && (forall m :: m in Flat(groups) ==> m.raw in raws)
    && DistinctMembers(Flat(groups))
    && (forall p :: p in raws ==> exists m :: m in Flat(groups) && m.raw == p)
  }

  ghost predicate Accepted(b: Bundle) {
    && b.versioned && b.generated
    && (forall p :: p in b.raws ==> RawValid(p))
    && (forall g :: g in b.groups ==> GroupValid(g))
    && (forall m :: m in Flat(b.groups) ==> MemberValid(m))
    && (forall s :: s in b.sources ==> SourceValid(s))
    && Partitions(b.raws, b.groups)
    && DistinctSources(b.sources) && (b.sources == [] || |b.sources| == 3)
  }

  /** The loop over the raw products. */
  method CheckRaws(raws: seq<Raw>) returns (ok: bool, raw: map<Identity, Raw>)
    ensures ok <==> DistinctRaws(raws) && forall p :: p in raws ==> RawValid(p)
    ensures ok ==> Indexed(raws, raw)
  {
    raw := map[];
    for i := 0 to |raws|
      invariant DistinctRaws(raws[..i]) && (forall p :: p in raws[..i] ==> RawValid(p)) &&
        Indexed(raws[..i], raw)
    {
      var p := raws[i];
      assert p in raws;
      if !(KnownStore(p.store) && p.id.Word? && p.name.Word? && 0 < p.price <= MAX_INT32) { return false, raw; }
      if p.oldPrice.Some? && (p.oldPrice.value < MIN_INT32 || p.oldPrice.value > MAX_INT32) { return false, raw; }
      if p.Key() in raw {
        assert exists j :: 0 <= j < i && raws[j].Key() == p.Key() by {
          var j :| 0 <= j < |raws[..i]| && raws[..i][j] == raw[p.Key()];
        }
        return false, raw;
      }
      assert raws[..i + 1] == raws[..i] + [p];
      IndexedNext(raws[..i], raw, p);
      raw := raw[p.Key() := p];
    }
    assert raws[..|raws|] == raws;
    ok := true;
  }

  ghost predicate Indexed(raws: seq<Raw>, raw: map<Identity, Raw>) {
    && (forall p :: p in raws ==> p.Key() in raw && raw[p.Key()] == p)
    && (forall k :: k in raw ==> raw[k] in raws && raw[k].Key() == k)
  }

  lemma IndexedNext(raws: seq<Raw>, raw: map<Identity, Raw>, p: Raw)
    requires DistinctRaws(raws) && Indexed(raws, raw) && p.Key() !in raw
    ensures DistinctRaws(raws + [p]) && Indexed(raws + [p], raw[p.Key() := p])
  {
  }

  /** The identities met so far. */
  ghost predicate Seen(ms: seq<Member>, seen: set<Identity>) {
    && (forall m :: m in ms ==> m.raw.Key() in seen)
    && (forall k :: k in seen ==> exists m :: m in ms && m.raw.Key() == k)
  }

  lemma SeenNext(ms: seq<Member>, seen: set<Identity>, m: Member)
    requires DistinctMembers(ms) && Seen(ms, seen)
    ensures Seen(ms + [m], seen + {m.raw.Key()})
    ensures DistinctMembers(ms + [m]) <==> m.raw.Key() !in seen
  {
    var next := ms + [m];
    if m.raw.Key() in seen {
      var n :| n in ms && n.raw.Key() == m.raw.Key();
      var i :| 0 <= i < |ms| && ms[i] == n;
      assert next[i].raw.Key() == next[|ms|].raw.Key();
    }
    forall k | k in seen + {m.raw.Key()} ensures exists n :: n in next && n.raw.Key() == k {
      if k in seen {
        var n :| n in ms && n.raw.Key() == k;
        assert n in next;
      } else {
        assert m in next;
      }
    }
  }

  /** A prefix of the members that fails is enough to reject. */
  lemma {:induction false} FlatPrefix(groups: seq<Group>, i: nat, j: nat)
    requires i < |groups| && j <= |groups[i].members|
    ensures Flat(groups[..i]) + groups[i].members[..j] <= Flat(groups)
    decreases |groups|
  {
    var n := |groups| - 1;
    if i < n {
      assert groups[..n][..i] == groups[..i];
      FlatPrefix(groups[..n], i, j);
    }
  }

  lemma PrefixFacts(part: seq<Member>, whole: seq<Member>)
    requires part <= whole
    ensures DistinctMembers(whole) ==> DistinctMembers(part)
    ensures forall m :: m in part ==> m in whole
  {
  }

  ghost predicate MembersPass(raws: seq<Raw>, ms: seq<Member>) {
    (forall m :: m in ms ==> MemberValid(m) && m.raw in raws) && DistinctMembers(ms)
  }

  /** The loop over the members of one group; `before` lists those of the groups before it. */
  method CheckMembers(raws: seq<Raw>, raw: map<Identity, Raw>, ghost before: seq<Member>, ms: seq<Member>, met: set<Identity>)
    returns (ok: bool, seen: set<Identity>)
    requires Indexed(raws, raw) && MembersPass(raws, before) && Seen(before, met)
    ensures ok <==> MembersPass(raws, before + ms)
    ensures ok ==> Seen(before + ms, seen)
  {
    hide Indexed, MemberValid, Seen;
    seen := met;
    assert before + ms[..0] == before;
    for j := 0 to |ms|
      invariant MembersPass(raws, before + ms[..j]) && Seen(before + ms[..j], seen)
    {
      var m := ms[j];
      MemberNext(raws, raw, before + ms[..j], seen, m);
      assert before + ms[..j + 1] == (before + ms[..j]) + [m] && before + ms[..j + 1] <= before + ms;
      PrefixFacts(before + ms[..j + 1], before + ms);
      if m.raw.Key() !in raw || m.raw.Key() in seen || raw[m.raw.Key()] != m.raw { return false, seen; }
      if m.matchedBy.OtherMethod? || m.review.OtherReview? { return false, seen; }
      if m.confidence.None? || m.confidence.value.NotFinite? || !(0.0 <= m.confidence.value.value <= 1.0) { return false, seen; }
      seen := seen + {m.raw.Key()};
    }
    assert ms[..|ms|] == ms;
    ok := true;
  }

  lemma MemberNext(raws: seq<Raw>, raw: map<Identity, Raw>, ms: seq<Member>, seen: set<Identity>, m: Member)
    requires Indexed(raws, raw) && MembersPass(raws, ms) && Seen(ms, seen)
    ensures m.raw in raws <==> m.raw.Key() in raw && raw[m.raw.Key()] == m.raw
    ensures MemberValid(m) <==>
      !m.matchedBy.OtherMethod? && !m.review.OtherReview? && m.confidence.Some? && m.confidence.value.Finite? &&
      0.0 <= m.confidence.value.value <= 1.0
    ensures MembersPass(raws, ms + [m]) <==> MemberValid(m) && m.raw in raws && m.raw.Key() !in seen
    ensures Seen(ms + [m], seen + {m.raw.Key()})
  {
    SeenNext(ms, seen, m);
    assert m in ms + [m];
  }

  /** The loop over the groups. */
  method CheckGroups(raws: seq<Raw>, raw: map<Identity, Raw>, groups: seq<Group>)
    returns (ok: bool, seen: set<Identity>)
    requires Indexed(raws, raw)
    ensures ok <==> (forall g :: g in groups ==> GroupValid(g)) && MembersPass(raws, Flat(groups))
    ensures ok ==> Seen(Flat(groups), seen)
  {
    hide MembersPass, Indexed;
    seen := {};
    assert MembersPass(raws, []) by { NonePass(raws); }
    for i := 0 to |groups|
      invariant forall g :: g in groups[..i] ==> GroupValid(g)
      invariant MembersPass(raws, Flat(groups[..i])) && Seen(Flat(groups[..i]), seen)
    {
      var g := groups[i];
      assert g in groups;
      if !g.name.Word? || !g.category.Word? || |g.members| == 0 || !g.scalarAttributes { return false, seen; }
      FlatPrefix(groups, i, |g.members|);
      assert g.members[..|g.members|] == g.members;
      assert groups[..i + 1][..i] == groups[..i] && groups[..i + 1] == groups[..i] + [g];
      if MembersPass(raws, Flat(groups)) { PassPrefix(raws, Flat(groups[..i + 1]), Flat(groups)); }
      var passed, met := CheckMembers(raws, raw, Flat(groups[..i]), g.members, seen);
      if !passed { return false, seen; }
      seen := met;
    }
    assert groups[..|groups|] == groups;
    ok := true;
  }

  lemma NonePass(raws: seq<Raw>)
    ensures MembersPass(raws, [])
  {
  }

  lemma PassPrefix(raws: seq<Raw>, part: seq<Member>, whole: seq<Member>)
    requires part <= whole && MembersPass(raws, whole)
    ensures MembersPass(raws, part)
  {
  }

  method CheckSources(sources: seq<Source>) returns (ok: bool)
    ensures ok <==>
      DistinctSources(sources) && (forall s :: s in sources ==> SourceValid(s)) &&
      (sources == [] || |sources| == 3)
  {
    var seen: set<StoreCode> := {};
    for i := 0 to |sources|
      invariant DistinctSources(sources[..i]) && (forall s :: s in sources[..i] ==> SourceValid(s))
      invariant seen == set s | s in sources[..i] :: s.store
      invariant |seen| == i
    {
      var s := sources[i];
      assert sources[..i + 1] == sources[..i] + [s] && s in sources;
      if !KnownStore(s.store) || s.store in seen || s.errorCount < 0 {
        if s.store in seen { ghost var j :| 0 <= j < |sources[..i]| && sources[..i][j].store == s.store; assert sources[j].store == s.store; }
        return false;
      }
      if !s.captured { return false; }
      if s.productCount.Some? && s.productCount.value < 0 { return false; }
      forall t | t in sources[..i] ensures t.store != s.store { assert t.store in seen; }
      seen := seen + {s.store};
    }
    assert sources[..|sources|] == sources;
    ok := sources == [] || |seen| == 3;
  }

  lemma CountsAgree(raws: seq<Raw>, raw: map<Identity, Raw>, ms: seq<Member>, seen: set<Identity>)
    requires Indexed(raws, raw) && Seen(ms, seen) && forall m :: m in ms ==> m.raw in raws
    ensures |seen| == |raw.Keys| <==> forall p :: p in raws ==> exists m :: m in ms && m.raw == p
  {
    assert seen <= raw.Keys;
    if |seen| == |raw.Keys| {
      SubsetSize(seen, raw.Keys);
      forall p | p in raws ensures exists m :: m in ms && m.raw == p {
        var m :| m in ms && m.raw.Key() == p.Key();
        assert m.raw == p;
      }
    }
    if forall p :: p in raws ==> exists m :: m in ms && m.raw == p {
      forall k | k in raw ensures k in seen {
        var m :| m in ms && m.raw == raw[k];
      }
      assert seen == raw.Keys;
    }
  }

  /** Validation accepts exactly the bundles whose groups partition the raw products and whose
      fields are in range. */
  method Validate(b: Bundle) returns (ok: bool)
    ensures ok <==> Accepted(b)
  {
    if !b.versioned || !b.generated { return false; }
    var rawsOk, raw := CheckRaws(b.raws);
    if !rawsOk { return false; }
    var groupsOk, seen := CheckGroups(b.raws, raw, b.groups);
    if !groupsOk { return false; }
    CountsAgree(b.raws, raw, Flat(b.groups), seen);
    if |seen| != |raw.Keys| { return false; }
    ok := CheckSources(b.sources);
  }
}
