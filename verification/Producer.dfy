/** From classified products to a bundle the ingestor accepts (pipeline/src/cli/match.ts,
    pipeline/src/mapping/scope.ts, pipeline/src/mapping/publish.ts, pipeline/src/agent/bundle.ts). */
module Producer {
  import opened Outcomes
  import opened Bundles
  import opened Clusters
  import opened Matching
  import opened Surviving
  import Resolve

  // ----- what is published -----

  function Isolate(c: Cluster, ms: seq<Product>): seq<Cluster> {
    if ms == [] then [] else Isolate(c, ms[..|ms| - 1]) + [c.(members := [ms[|ms| - 1]])]
  }

  function Pick(ms: seq<Product>, weighed: bool): seq<Product> {
    if ms == [] then [] else Pick(ms[..|ms| - 1], weighed) + if ms[|ms| - 1].weighed == weighed then [ms[|ms| - 1]] else []
  }

  function Separate(c: Cluster): seq<Cluster> {
    if |c.members| < 2 then [c]
    else if c.review == Pending then Isolate(c, c.members)
    else if Pick(c.members, true) == [] || Pick(c.members, false) == [] then [c]
    else [c.(members := Pick(c.members, false))] + Isolate(c, Pick(c.members, true))
  }

  /** isolateForPublish. */
  function ForPublish(cs: seq<Cluster>): seq<Cluster> {
    if cs == [] then [] else ForPublish(cs[..|cs| - 1]) + Separate(cs[|cs| - 1])
  }

  /** A published group of several is approved, of one store each, of one shape, and either all
      weighed or all by the piece. */
  ghost predicate Publishable(c: Cluster) {
    && c.members != [] && !c.matchedBy.OtherMethod? && 0.0 <= c.confidence <= 1.0 &&
      (c.review == Approved || c.review == Pending)
    && (|c.members| > 1 ==>
      c.review == Approved && Guarded(c.members) && forall p, q :: p in c.members && q in c.members ==>
      p.weighed == q.weighed)
  }

  lemma {:induction false} IsolateMeans(c: Cluster, ms: seq<Product>)
    requires Matched(c)
    ensures All(Isolate(c, ms)) == ms && forall k :: k in Isolate(c, ms) ==> Publishable(k)
  {
    if ms != [] {
      IsolateMeans(c, ms[..|ms| - 1]);
      assert ms == ms[..|ms| - 1] + [ms[|ms| - 1]];
      AllLast(Isolate(c, ms[..|ms| - 1]), c.(members := [ms[|ms| - 1]]));
    }
  }

  lemma {:induction false} PickMembers(ms: seq<Product>, w: bool)
    ensures forall p :: p in Pick(ms, w) <==> p in ms && p.weighed == w
  {
    if ms != [] {
      PickMembers(ms[..|ms| - 1], w);
      assert ms == ms[..|ms| - 1] + [ms[|ms| - 1]];
    }
  }

  lemma {:induction false} PickSplits(ms: seq<Product>)
    ensures multiset(Pick(ms, false) + Pick(ms, true)) == multiset(ms)
  {
    if ms != [] {
      var init, m := ms[..|ms| - 1], ms[|ms| - 1];
      PickSplits(init);
      assert ms == init + [m];
      Shuffle(Pick(init, false), Pick(init, true), init, m);
    }
  }

  lemma GuardedLast(ms: seq<Product>, m: Product)
    ensures Guarded(ms + [m]) ==> Guarded(ms) && forall p :: p in ms ==>
      p.raw.store != m.raw.store && p.shape == m.shape
    ensures Guarded(ms) && (forall p :: p in ms ==> p.raw.store != m.raw.store && p.shape == m.shape) ==>
      Guarded(ms + [m])
  {
    var all := ms + [m];
    assert forall i :: 0 <= i < |ms| ==> all[i] == ms[i] && ms[i] in ms;
    if Guarded(all) {
      assert all[|ms|].shape == all[0].shape;
    }
  }

  /** Picking keeps the order, so a guarded list stays guarded. */
  lemma {:induction false} PickGuarded(ms: seq<Product>, w: bool)
    requires Guarded(ms)
    ensures Guarded(Pick(ms, w))
  {
    if ms != [] {
      var init, m := ms[..|ms| - 1], ms[|ms| - 1];
      assert ms == init + [m] && Pick(init, w) + [] == Pick(init, w);
      hide Guarded;
      GuardedLast(init, m);
      PickGuarded(init, w);
      PickMembers(init, w);
      GuardedLast(Pick(init, w), m);
    }
  }

  lemma SeparateMeans(c: Cluster)
    requires Matched(c)
    ensures multiset(All(Separate(c))) == multiset(c.members) && forall k :: k in Separate(c) ==> Publishable(k)
  {
    hide All, Guarded, Isolate, Pick;
    var pieces, weighed := Pick(c.members, false), Pick(c.members, true);
    PickMembers(c.members, false);
    PickMembers(c.members, true);
    OneCluster(c);
    IsolateMeans(c, c.members);
    if |c.members| > 1 && c.review == Approved && pieces != [] && weighed != [] {
      MixedApart(c);
    } else if |c.members| > 1 && c.review == Approved {
      NotMixed(c.members);
    }
  }

  /** The parts of a mixed cluster. */
  lemma MixedApart(c: Cluster)
    requires Matched(c) && |c.members| > 1 && c.review == Approved && Pick(c.members, false) != []
    ensures var out := [c.(members := Pick(c.members, false))] + Isolate(c, Pick(c.members, true));
      multiset(All(out)) == multiset(c.members) && forall k :: k in out ==> Publishable(k)
  {
    hide All, Guarded, Isolate, Pick;
    var pieces, weighed := Pick(c.members, false), Pick(c.members, true);
    PickSplits(c.members);
    PickMembers(c.members, false);
    PickGuarded(c.members, false);
    IsolateMeans(c, weighed);
    OneCluster(c.(members := pieces));
    AllAppend([c.(members := pieces)], Isolate(c, weighed));
  }

  lemma NotMixed(ms: seq<Product>)
    ensures Pick(ms, false) == [] || Pick(ms, true) == [] ==> forall p, q :: p in ms && q in ms ==>
      p.weighed == q.weighed
  {
    PickMembers(ms, false);
    PickMembers(ms, true);
    hide Pick;
    assert forall p :: p in ms ==> p in Pick(ms, p.weighed);
  }

  /** Two members of a cluster reach the site together exactly when it is approved and they are
      both sold by the piece, or all its members are weighed; every published part keeps the
      verdict of its cluster. */
  lemma TogetherIff(c: Cluster, p: Product, q: Product)
    requires p in c.members && q in c.members && p != q && c.review in {Approved, Pending}
    ensures (exists k :: k in Separate(c) && p in k.members && q in k.members) <==>
      c.review == Approved && ((!p.weighed && !q.weighed) || forall m :: m in c.members ==> m.weighed)
    ensures forall k :: k in Separate(c) ==> k == c.(members := k.members)
  {
    var pieces, weighed := Pick(c.members, false), Pick(c.members, true);
    PickMembers(c.members, false);
    PickMembers(c.members, true);
    IsolateAlone(c, c.members);
    IsolateAlone(c, weighed);
    hide Pick, Isolate;
    assert (forall m :: m in c.members ==> m.weighed) <==> pieces == [] by {
      if pieces != [] { assert pieces[0] in pieces; }
    }
    assert weighed == [] ==> !p.weighed && !q.weighed;
    if c.review == Approved {
      assert Separate(c)[0].members == if pieces == [] || weighed == [] then c.members else pieces;
      assert Separate(c)[0] in Separate(c);
    }
  }

  lemma {:induction false} IsolateAlone(c: Cluster, ms: seq<Product>)
    ensures forall k :: k in Isolate(c, ms) ==> |k.members| == 1 && k == c.(members := k.members)
  {
    if ms != [] { IsolateAlone(c, ms[..|ms| - 1]); }
  }

  /** Nothing is lost on the way to the site, and no unfinished or mixed group gets there. */
  lemma {:induction false} ForPublishMeans(cs: seq<Cluster>)
    requires forall c :: c in cs ==> Matched(c)
    ensures multiset(All(ForPublish(cs))) == multiset(All(cs)) && forall k :: k in ForPublish(cs) ==>
      Publishable(k)
  {
    if cs != [] {
      var init, c := cs[..|cs| - 1], cs[|cs| - 1];
      ForPublishMeans(init);
      SeparateMeans(c);
      AllAppend(ForPublish(init), Separate(c));
    }
  }

  /** The published parts are those of the clusters, one cluster after the other. */
  lemma {:induction false} ForPublishHas(cs: seq<Cluster>, k: Cluster)
    ensures k in ForPublish(cs) <==> exists c :: c in cs && k in Separate(c)
  {
    hide Separate;
    if cs != [] {
      var init, c := cs[..|cs| - 1], cs[|cs| - 1];
      ForPublishHas(init, k);
      assert cs == init + [c];
    }
  }

  lemma SeparateWithin(c: Cluster, k: Cluster)
    requires k in Separate(c)
    ensures forall p :: p in k.members ==> p in c.members
  {
    IsolateWithin(c, c.members, k);
    IsolateWithin(c, Pick(c.members, true), k);
    PickMembers(c.members, true);
    PickMembers(c.members, false);
    hide Isolate, Pick;
  }

  lemma {:induction false} IsolateWithin(c: Cluster, ms: seq<Product>, k: Cluster)
    ensures k in Isolate(c, ms) ==> forall p :: p in k.members ==> p in ms
  {
    if ms != [] { IsolateWithin(c, ms[..|ms| - 1], k); }
  }

  // ----- the bundle -----

  const IMAGE_ORDER: seq<StoreCode> := [0, 1, 3, 2]

  function FirstPicture(ms: seq<Product>, store: StoreCode): Option<Product> {
    if ms == [] then None
    else if ms[0].raw.store == store && ms[0].image then Some(ms[0])
    else FirstPicture(ms[1..], store)
  }

  /** The member that names the group: the first with a usable picture in the given order of the
      stores, or else simply the first. */
  function LeadIn(ms: seq<Product>, order: seq<StoreCode>): Product
    requires ms != []
  {
    if order == [] then ms[0] else
      var p := FirstPicture(ms, order[0]);
      if p.Some? then p.value else LeadIn(ms, order[1..])
  }

  function Lead(ms: seq<Product>): Product
    requires ms != []
  {
    LeadIn(ms, IMAGE_ORDER)
  }

  /** The leading member has the first usable picture in the order of the stores, or is the first. */
  lemma LeadMeans(ms: seq<Product>)
    requires ms != []
    ensures Lead(ms) in ms
    ensures Lead(ms).image <==> exists p :: p in ms && p.image && (p.raw.store in IMAGE_ORDER || p == ms[0])
    ensures Lead(ms).image && Lead(ms).raw.store in IMAGE_ORDER ==>
      forall i, j :: 0 <= i < j < |IMAGE_ORDER| && Lead(ms).raw.store == IMAGE_ORDER[j] ==> !Pictured(ms, IMAGE_ORDER[i])
    ensures (forall s :: s in IMAGE_ORDER ==> !Pictured(ms, s)) ==> Lead(ms) == ms[0]
  {
    hide FirstPicture, Pictured;
    FirstPictureMeans(ms, 0);
    FirstPictureMeans(ms, 1);
    FirstPictureMeans(ms, 2);
    FirstPictureMeans(ms, 3);
    LeadUnfolds(ms);
    forall p | p in ms && p.image ensures Pictured(ms, p.raw.store) { PicturedBy(ms, p); }
  }

  predicate Pictured(ms: seq<Product>, store: StoreCode) { exists p :: p in ms && p.image && p.raw.store == store }

  lemma PicturedBy(ms: seq<Product>, p: Product)
    requires p in ms && p.image
    ensures Pictured(ms, p.raw.store)
  {
  }

  lemma LeadUnfolds(ms: seq<Product>)
    requires ms != []
    ensures Lead(ms) ==
      if FirstPicture(ms, 0).Some? then FirstPicture(ms, 0).value
      else if FirstPicture(ms, 1).Some? then FirstPicture(ms, 1).value
      else if FirstPicture(ms, 3).Some? then FirstPicture(ms, 3).value
      else if FirstPicture(ms, 2).Some? then FirstPicture(ms, 2).value
      else ms[0]
  {
    hide FirstPicture;
    assert IMAGE_ORDER == [0, 1, 3, 2] && IMAGE_ORDER[1..] == [1, 3, 2] && [1, 3, 2][1..] == [3, 2] && [3, 2][1..] == [2] && [2][1..] == [];
    assert LeadIn(ms, [2]) == if FirstPicture(ms, 2).Some? then FirstPicture(ms, 2).value else ms[0];
    assert LeadIn(ms, [3, 2]) == if FirstPicture(ms, 3).Some? then FirstPicture(ms, 3).value else LeadIn(ms, [2]);
    assert LeadIn(ms, [1, 3, 2]) == if FirstPicture(ms, 1).Some? then FirstPicture(ms, 1).value else LeadIn(ms, [3, 2]);
  }

  lemma {:induction false} FirstPictureMeans(ms: seq<Product>, store: StoreCode)
    ensures match FirstPicture(ms, store)
      case None => !Pictured(ms, store)
      case Some(p) => p in ms && p.image && p.raw.store == store && Pictured(ms, store)
  {
    if ms != [] {
      FirstPictureMeans(ms[1..], store);
      assert ms == [ms[0]] + ms[1..];
    }
  }

  /** A group of the bundle says what its cluster says. */
  ghost predicate Says(g: Group, c: Cluster) {
    && c.members != [] && |g.members| == |c.members|
    && g.name == Lead(c.members).display && g.category == Lead(c.members).category &&
      g.image == Lead(c.members).image
    && forall i :: 0 <= i < |c.members| ==>
      g.members[i] == Member(c.members[i].raw, c.matchedBy, Some(Finite(c.confidence)), c.review)
  }

  lemma GroupsSay(cs: seq<Cluster>, gs: seq<Group>)
    requires (forall c :: c in cs ==> c.members != []) && gs == GroupsOf(cs)
    ensures |gs| == |cs| && forall i :: 0 <= i < |cs| ==> Says(gs[i], cs[i])
  {
    hide Lead;
    forall i | 0 <= i < |cs| ensures Says(gs[i], cs[i]) { assert cs[i] in cs; }
  }

  function MembersOf(c: Cluster): seq<Member> {
    seq(|c.members|, i requires 0 <= i < |c.members| => Member(c.members[i].raw, c.matchedBy, Some(Finite(c.confidence)), c.review))
  }

  function GroupOf(c: Cluster): Group
    requires c.members != []
  {
    Group(Lead(c.members).display, Lead(c.members).category, Lead(c.members).image, true, MembersOf(c))
  }

  function RawsOf(ps: seq<Product>): seq<Raw> { seq(|ps|, i requires 0 <= i < |ps| => ps[i].raw) }

  function GroupsOf(cs: seq<Cluster>): seq<Group>
    requires forall c :: c in cs ==> c.members != []
  {
    seq(|cs|, i requires 0 <= i < |cs| => assert cs[i] in cs; GroupOf(cs[i]))
  }

  /** The file of one store, without its products. */
  datatype SourceMeta = SourceMeta(store: StoreCode, errorCount: int)

  function RunsOf(sources: seq<SourceMeta>, raws: seq<Raw>): seq<Source> {
    seq(|sources|, i requires 0 <= i < |sources| => Source(sources[i].store, true, Some(Resolve.InStore(raws, sources[i].store)), sources[i].errorCount))
  }

  lemma RawsAppend(a: seq<Product>, b: seq<Product>)
    ensures RawsOf(a + b) == RawsOf(a) + RawsOf(b)
  {
  }

  lemma GroupsAppend(cs: seq<Cluster>, i: nat)
    requires i < |cs| && forall c :: c in cs ==> c.members != []
    ensures cs[i].members != [] && (forall c :: c in cs[..i + 1] ==> c.members != [])
    ensures GroupsOf(cs[..i + 1]) == GroupsOf(cs[..i]) + [GroupOf(cs[i])]
  {
    hide GroupOf;
    assert cs[i] in cs;
  }

  lemma NothingBuilt()
    ensures RawsOf(All([])) == [] && GroupsOf([]) == []
  {
  }

  /** buildBundle. */
  method BuildBundle(cs: seq<Cluster>, sources: seq<SourceMeta>) returns (b: Bundle)
    requires forall c :: c in cs ==> c.members != []
    ensures b == Bundle(true, true, RawsOf(All(cs)), GroupsOf(cs), RunsOf(sources, RawsOf(All(cs))))
  {
    hide All, GroupOf, RawsOf, GroupsOf;
    var raws: seq<Raw>, groups: seq<Group> := [], [];
    NothingBuilt();
    for i := 0 to |cs|
      invariant raws == RawsOf(All(cs[..i])) && groups == GroupsOf(cs[..i])
    {
      assert cs[i] in cs && cs[..i + 1] == cs[..i] + [cs[i]];
      AllLast(cs[..i], cs[i]);
      RawsAppend(All(cs[..i]), cs[i].members);
      GroupsAppend(cs, i);
      raws := raws + RawsOf(cs[i].members);
      groups := groups + [GroupOf(cs[i])];
    }
    assert cs[..|cs|] == cs;
    b := Bundle(true, true, raws, groups, RunsOf(sources, raws));
  }

  /** The members of the bundle are those of the clusters, one by one. */
  lemma {:induction false} FlatOf(cs: seq<Cluster>)
    requires forall c :: c in cs ==> c.members != []
    ensures |Flat(GroupsOf(cs))| == |All(cs)|
    ensures forall i :: 0 <= i < |All(cs)| ==> Flat(GroupsOf(cs))[i].raw == All(cs)[i].raw
  {
    if cs != [] {
      FlatOf(cs[..|cs| - 1]);
      FlatNext(cs, cs[|cs| - 1]);
      hide GroupOf, GroupsOf, MembersOf;
    }
  }

  lemma FlatNext(cs: seq<Cluster>, c: Cluster)
    requires cs != [] && c == cs[|cs| - 1] && forall k :: k in cs ==> k.members != []
    ensures Flat(GroupsOf(cs)) == Flat(GroupsOf(cs[..|cs| - 1])) + MembersOf(c)
    ensures |MembersOf(c)| == |c.members| && forall i :: 0 <= i < |c.members| ==>
      MembersOf(c)[i].raw == c.members[i].raw
  {
    hide Lead;
    var n := |cs| - 1;
    assert cs[n] in cs && forall k :: k in cs[..n] ==> k in cs;
    assert GroupsOf(cs)[..n] == GroupsOf(cs[..n]) && GroupsOf(cs)[n] == GroupOf(c);
  }

  lemma {:induction false} FlatValid(cs: seq<Cluster>)
    requires forall c :: c in cs ==> c.members != [] && Publishable(c)
    ensures forall m :: m in Flat(GroupsOf(cs)) ==> MemberValid(m)
  {
    if cs != [] {
      FlatValid(cs[..|cs| - 1]);
      var c := cs[|cs| - 1];
      FlatNext(cs, c);
      assert c in cs;
      assert forall m :: m in MembersOf(c) ==> MemberValid(m) by { hide Guarded; }
      hide GroupOf, GroupsOf, MembersOf, Publishable, MemberValid;
    }
  }

  /** The declared counts are those the ingestor finds. */
  lemma CountsAgree(cs: seq<Cluster>, sources: seq<SourceMeta>, b: Bundle)
    requires forall c :: c in cs ==> c.members != []
    requires b == Bundle(true, true, RawsOf(All(cs)), GroupsOf(cs), RunsOf(sources, RawsOf(All(cs))))
    ensures Resolve.CountsMatch(b)
  {
  }

  ghost predicate SourcesFit(sources: seq<SourceMeta>) {
    && (forall s :: s in sources ==> KnownStore(s.store) && s.errorCount >= 0)
    && (forall i, j :: 0 <= i < j < |sources| ==> sources[i].store != sources[j].store)
    && (sources == [] || |sources| == 3)
  }

  lemma RunsFit(sources: seq<SourceMeta>, raws: seq<Raw>)
    ensures var runs := RunsOf(sources, raws);
      SourcesFit(sources) <==> DistinctSources(runs) && (forall s :: s in runs ==> SourceValid(s)) && (runs == [] || |runs| == 3)
  {
    var runs := RunsOf(sources, raws);
    assert forall i :: 0 <= i < |sources| ==> sources[i] in sources && runs[i] in runs && runs[i].store == sources[i].store;
    if forall s :: s in sources ==> KnownStore(s.store) && s.errorCount >= 0 {
      forall s | s in runs ensures SourceValid(s) { var i :| 0 <= i < |runs| && runs[i] == s; assert sources[i] in sources; }
    }
  }

  /** Clusters make a partition exactly when their products are distinct. */
  lemma Partition(cs: seq<Cluster>)
    requires forall c :: c in cs ==> c.members != []
    ensures Partitions(RawsOf(All(cs)), GroupsOf(cs)) <==> DistinctProducts(All(cs))
  {
    var raws, ms := RawsOf(All(cs)), Flat(GroupsOf(cs));
    FlatOf(cs);
    forall m | m in ms ensures m.raw in raws {
      var i :| 0 <= i < |ms| && ms[i] == m;
      assert raws[i] == m.raw;
    }
    forall p | p in raws ensures exists m :: m in ms && m.raw == p {
      var i :| 0 <= i < |raws| && raws[i] == p;
      assert ms[i] in ms && ms[i].raw == p;
    }
    assert forall i :: 0 <= i < |raws| ==> raws[i].Key() == All(cs)[i].Key() == ms[i].raw.Key();
  }

  /** The ingestor accepts the bundle of publishable clusters exactly when no product is in it
      twice, every product is a valid row of a known store, every group has a name and a category,
      and the source files are those of the three stores. */
  lemma AcceptedIff(cs: seq<Cluster>, sources: seq<SourceMeta>, b: Bundle)
    requires forall c :: c in cs ==> c.members != [] && Publishable(c)
    requires b == Bundle(true, true, RawsOf(All(cs)), GroupsOf(cs), RunsOf(sources, RawsOf(All(cs))))
    ensures Accepted(b) <==>
      && DistinctProducts(All(cs))
      && (forall p :: p in All(cs) ==> RawValid(p.raw))
      && (forall c :: c in cs ==> Lead(c.members).display.Word? && Lead(c.members).category.Word?)
      && SourcesFit(sources)
  {
    hide Partitions, DistinctSources, Lead, All, Publishable, SourcesFit, RawValid, GroupValid, MemberValid,
      SourceValid, DistinctProducts;
    Partition(cs);
    FlatOf(cs);
    FlatValid(cs);
    RunsFit(sources, b.raws);
    assert (forall p :: p in b.raws ==> RawValid(p)) <==> forall p :: p in All(cs) ==> RawValid(p.raw) by { RawsMapped(All(cs)); }
    assert (forall g :: g in b.groups ==> GroupValid(g)) <==>
      forall c :: c in cs ==> Lead(c.members).display.Word? && Lead(c.members).category.Word? by { GroupsMapped(cs); }
  }

  lemma RawsMapped(ps: seq<Product>)
    ensures (forall p :: p in RawsOf(ps) ==> RawValid(p)) <==> forall p :: p in ps ==> RawValid(p.raw)
  {
    assert forall i :: 0 <= i < |ps| ==> ps[i] in ps && RawsOf(ps)[i] in RawsOf(ps) && RawsOf(ps)[i] == ps[i].raw;
  }

  lemma GroupsMapped(cs: seq<Cluster>)
    requires forall c :: c in cs ==> c.members != []
    ensures (forall g :: g in GroupsOf(cs) ==> GroupValid(g)) <==>
      forall c :: c in cs ==> Lead(c.members).display.Word? && Lead(c.members).category.Word?
  {
    var gs := GroupsOf(cs);
    hide Lead;
    forall i | 0 <= i < |cs|
      ensures cs[i] in cs && gs[i] in gs
      ensures GroupValid(gs[i]) <==> Lead(cs[i].members).display.Word? && Lead(cs[i].members).category.Word?
    {
      assert gs[i] == GroupOf(cs[i]);
    }
  }

  // ----- the whole run -----

  /** Confidences lie between 0 and 1, as the schema of a reply demands. */
  ghost predicate Answers(replies: nat -> Option<Reply>) {
    forall n: nat :: replies(n).Some? ==> InRange(replies(n).value)
  }

  lemma DistinctPart(items: seq<Product>, part: seq<Product>)
    requires DistinctProducts(items) && multiset(part) <= multiset(items)
    ensures DistinctProducts(part)
  {
    DistinctNoTwice(items);
    forall i, j | 0 <= i < j < |part| ensures part[i].Key() != part[j].Key() {
      assert part[i] in multiset(part) && part[j] in multiset(part);
      Counted(items, part[i]);
      TwiceCounts(part, i, j);
      if part[i].Key() == part[j].Key() { DistinctMeansEqual(items, part[i], part[j]); }
    }
  }

  /** What the blocks turn into, block by block. */
  function MatchedBlocks(blocks: seq<seq<Product>>, first: nat -> Option<Reply>, second: nat -> Option<Reply>, similar: Similarity): seq<Cluster> {
    if blocks == [] then [] else
      var n := |blocks| - 1;
      MatchedBlocks(blocks[..n], first, second, similar) + MatchedBlock(blocks[n], first(n), second(n), similar)
  }

  /** Some block leaves some product twice. */
  ghost predicate AnyDoubles(blocks: seq<seq<Product>>, first: nat -> Option<Reply>, second: nat -> Option<Reply>, similar: Similarity, scope: set<Text>) {
    exists n :: 0 <= n < |blocks| && BlockDoubles(blocks[n], Chosen(first(n), second(n)), similar, scope)
  }

  lemma AnyDoublesNext(blocks: seq<seq<Product>>, first: nat -> Option<Reply>, second: nat -> Option<Reply>,
    similar: Similarity, scope: set<Text>)
    requires blocks != []
    ensures var k := |blocks| - 1; AnyDoubles(blocks, first, second, similar, scope) <==>
      AnyDoubles(blocks[..k], first, second, similar, scope) || BlockDoubles(blocks[k], Chosen(first(k), second(k)), similar, scope)
  {
    hide BlockDoubles;
    var k := |blocks| - 1;
    if AnyDoubles(blocks[..k], first, second, similar, scope) {
      var n :| 0 <= n < k && BlockDoubles(blocks[..k][n], Chosen(first(n), second(n)), similar, scope);
      assert BlockDoubles(blocks[n], Chosen(first(n), second(n)), similar, scope);
    }
    if n :| 0 <= n < k && BlockDoubles(blocks[n], Chosen(first(n), second(n)), similar, scope) {
      assert BlockDoubles(blocks[..k][n], Chosen(first(n), second(n)), similar, scope);
    }
  }

  /** Blocks of distinct products, whatever the model answers: every product ends up in a cluster,
      and the filter leaves none twice exactly when no block does. */
  lemma {:induction false} MatchedBlocksMean(blocks: seq<seq<Product>>, first: nat -> Option<Reply>,
    second: nat -> Option<Reply>, similar: Similarity, scope: set<Text>)
    requires Answers(first) && Answers(second) && DistinctProducts(Concat(blocks))
    ensures var cs := MatchedBlocks(blocks, first, second, similar);
      && (forall p :: p in multiset(All(cs)) <==> p in Concat(blocks)) && (forall c :: c in cs ==> Matched(c))
      && (NoTwice(Left(cs, scope)) <==> !AnyDoubles(blocks, first, second, similar, scope))
      && forall p :: p in Left(cs, scope) ==> p in Concat(blocks)
  {
    hide All, Matched, Repeats, InRange, OneStore, MatchedBlock, DistinctProducts, Left, NoTwice, AnyDoubles,
      BlockDoubles;
    if blocks == [] {
      NothingDoubles(first, second, similar, scope);
    } else {
      var n := |blocks| - 1;
      var init, more := MatchedBlocks(blocks[..n], first, second, similar), MatchedBlock(blocks[n], first(n), second(n), similar);
      ConcatApart(Concat(blocks[..n]), blocks[n]);
      MatchedBlocksMean(blocks[..n], first, second, similar, scope);
      MatchedBlockMeans(blocks[n], first(n), second(n), similar);
      BlockTwiceIff(blocks[n], first(n), second(n), similar, scope);
      AnyDoublesNext(blocks, first, second, similar, scope);
      AllAppend(init, more);
      LeftAppend(init, more, scope);
      Apart(Left(init, scope), Left(more, scope));
    }
  }

  ghost predicate NoneRepeats(blocks: seq<seq<Product>>, first: nat -> Option<Reply>, second: nat -> Option<Reply>) {
    forall n :: 0 <= n < |blocks| ==> !RepeatsOn(blocks[n], Chosen(first(n), second(n)))
  }

  lemma NoneRepeatsNext(blocks: seq<seq<Product>>, first: nat -> Option<Reply>, second: nat -> Option<Reply>)
    requires blocks != []
    ensures var k := |blocks| - 1; NoneRepeats(blocks, first, second) <==>
      NoneRepeats(blocks[..k], first, second) && !RepeatsOn(blocks[k], Chosen(first(k), second(k)))
  {
    hide RepeatsOn;
    var k := |blocks| - 1;
    assert forall n :: 0 <= n < k ==> blocks[..k][n] == blocks[n];
  }

  /** Every product ends up in exactly one cluster precisely when no reply repeats itself. */
  lemma {:induction false} PlacedOnceIff(blocks: seq<seq<Product>>, first: nat -> Option<Reply>,
    second: nat -> Option<Reply>, similar: Similarity)
    requires Answers(first) && Answers(second) && DistinctProducts(Concat(blocks))
    ensures var cs := MatchedBlocks(blocks, first, second, similar);
      && (forall p :: p in All(cs) <==> p in Concat(blocks))
      && (NoTwice(All(cs)) <==> NoneRepeats(blocks, first, second))
      && (multiset(All(cs)) == multiset(Concat(blocks)) <==> NoTwice(All(cs)))
  {
    hide All, Repeats, InRange, OneStore, MatchedBlock, DistinctProducts, NoTwice, NoneRepeats;
    if blocks == [] {
      NothingRepeats(first, second);
    } else {
      var n := |blocks| - 1;
      var init, more := MatchedBlocks(blocks[..n], first, second, similar), MatchedBlock(blocks[n], first(n), second(n), similar);
      ConcatApart(Concat(blocks[..n]), blocks[n]);
      PlacedOnceIff(blocks[..n], first, second, similar);
      MatchedBlockMeans(blocks[n], first(n), second(n), similar);
      DistinctNoTwice(blocks[n]);
      forall p ensures p in All(more) <==> p in blocks[n] { assert p in multiset(All(more)) <==> p in blocks[n]; }
      Permutes(All(more), blocks[n]);
      AllAppend(init, more);
      Apart(All(init), All(more));
      DistinctNoTwice(Concat(blocks));
      Permutes(All(init + more), Concat(blocks));
      NoneRepeatsNext(blocks, first, second);
    }
  }

  lemma NothingRepeats(first: nat -> Option<Reply>, second: nat -> Option<Reply>)
    ensures All([]) == [] && NoTwice([]) && NoneRepeats([], first, second)
  {
  }

  /** A block key names the category. */
  ghost predicate KeysNameCategories(items: seq<Product>) {
    forall p, q :: p in items && q in items && p.block == q.block ==> p.category == q.category
  }

  /** So a product is published twice exactly when a reply repeats itself on a block in scope. */
  lemma AnyDoublesIff(items: seq<Product>, maxSize: nat, blocks: seq<seq<Product>>, first: nat -> Option<Reply>,
    second: nat -> Option<Reply>, similar: Similarity, scope: set<Text>)
    requires DistinctProducts(Concat(blocks)) && KeysNameCategories(items) && forall b :: b in blocks ==>
      IsBlock(items, maxSize, b)
    ensures AnyDoubles(blocks, first, second, similar, scope) <==>
      exists n :: 0 <= n < |blocks| && RepeatsOn(blocks[n], Chosen(first(n), second(n))) && blocks[n][0].category in scope
  {
    hide RepeatsOn, BlockDoubles, DistinctProducts;
    forall n | 0 <= n < |blocks|
      ensures blocks[n] != [] &&
        (BlockDoubles(blocks[n], Chosen(first(n), second(n)), similar, scope) <==>
        RepeatsOn(blocks[n], Chosen(first(n), second(n))) && blocks[n][0].category in scope)
    {
      assert blocks[n] in blocks;
      BlockOfOneKey(items, maxSize, blocks[n]);
      BlockDistinct(blocks, n);
      assert forall p :: p in blocks[n] ==> p.category == blocks[n][0].category by { assert blocks[n][0] in blocks[n]; hide IsBlock; }
      CategoryDoublesIff(blocks[n], Chosen(first(n), second(n)), similar, scope);
    }
    hide IsBlock;
  }

  lemma {:induction false} BlockDistinct(blocks: seq<seq<Product>>, k: nat)
    requires k < |blocks| && DistinctProducts(Concat(blocks))
    ensures DistinctProducts(blocks[k])
  {
    var n := |blocks| - 1;
    ConcatApart(Concat(blocks[..n]), blocks[n]);
    if k < n { BlockDistinct(blocks[..n], k); }
  }

  lemma ConcatApart(a: seq<Product>, b: seq<Product>)
    requires DistinctProducts(a + b)
    ensures DistinctProducts(a) && DistinctProducts(b) && forall p :: p in a ==> p !in b
  {
    var t := a + b;
    forall i, j | 0 <= i < j < |a| ensures a[i].Key() != a[j].Key() { assert t[i].Key() != t[j].Key(); }
    forall i, j | 0 <= i < j < |b| ensures b[i].Key() != b[j].Key() { assert t[|a| + i].Key() != t[|a| + j].Key(); }
    forall i, j | 0 <= i < |a| && 0 <= j < |b| ensures a[i] != b[j] { assert t[i].Key() != t[|a| + j].Key(); }
  }

  lemma NothingDoubles(first: nat -> Option<Reply>, second: nat -> Option<Reply>, similar: Similarity, scope: set<Text>)
    ensures All([]) == [] && Left([], scope) == [] && NoTwice([]) &&
      !AnyDoubles([], first, second, similar, scope)
  {
  }

  lemma {:induction false} MatchedBlocksHave(blocks: seq<seq<Product>>, first: nat -> Option<Reply>, second: nat -> Option<Reply>,
    similar: Similarity, c: Cluster)
    ensures c in MatchedBlocks(blocks, first, second, similar) <==>
      exists n :: 0 <= n < |blocks| && c in MatchedBlock(blocks[n], first(n), second(n), similar)
  {
    hide MatchedBlock;
    if blocks != [] {
      var n := |blocks| - 1;
      MatchedBlocksHave(blocks[..n], first, second, similar, c);
      if k :| 0 <= k < n && c in MatchedBlock(blocks[..n][k], first(k), second(k), similar) {
        assert c in MatchedBlock(blocks[k], first(k), second(k), similar);
      }
      if k :| 0 <= k < |blocks| && c in MatchedBlock(blocks[k], first(k), second(k), similar) {
        if k < n { assert c in MatchedBlock(blocks[..n][k], first(k), second(k), similar); }
      }
    }
  }

  /** The `n`-th suggestion about a block leaves `p` and `q` together, with a confidence of at least
      0.95, both by the piece or with weighed products only, and with nothing out of scope. */
  ghost predicate Joins(block: seq<Product>, reply: Option<Reply>, similar: Similarity, scope: set<Text>, n: nat, p: Product, q: Product) {
    && !OneStore(block) && reply.Some? && n < |reply.value|
    && var ms := Together(block, reply.value, similar, n);
      && p in ms && q in ms && reply.value[n].confidence >= 0.95
      && (forall m :: m in ms ==> m.category in scope)
      && ((!p.weighed && !q.weighed) || forall m :: m in ms ==> m.weighed)
  }

  ghost predicate Joined(blocks: seq<seq<Product>>, first: nat -> Option<Reply>, second: nat -> Option<Reply>,
    similar: Similarity, scope: set<Text>, p: Product, q: Product)
  {
    exists b, n :: 0 <= b < |blocks| && 0 <= n && Joins(blocks[b], Chosen(first(b), second(b)), similar, scope, n, p, q)
  }

  ghost predicate Shared(cs: seq<Cluster>, p: Product, q: Product) { exists k :: k in cs && p in k.members && q in k.members }

  /** Two products are published as one exactly when a suggestion joins them. */
  lemma SharedIff(blocks: seq<seq<Product>>, first: nat -> Option<Reply>, second: nat -> Option<Reply>, similar: Similarity,
    scope: set<Text>, p: Product, q: Product)
    requires p != q
    ensures Shared(ForPublish(InScope(MatchedBlocks(blocks, first, second, similar), scope)), p, q) <==>
      Joined(blocks, first, second, similar, scope, p, q)
  {
    hide MatchedBlocks, InScope, ForPublish, Joins;
    var cs := InScope(MatchedBlocks(blocks, first, second, similar), scope);
    if Shared(ForPublish(cs), p, q) {
      var k :| k in ForPublish(cs) && p in k.members && q in k.members;
      var b, n := PublishedComes(blocks, first, second, similar, scope, p, q, k);
    }
    if Joined(blocks, first, second, similar, scope, p, q) {
      var b, n :| 0 <= b < |blocks| && 0 <= n && Joins(blocks[b], Chosen(first(b), second(b)), similar, scope, n, p, q);
      JoinsShared(blocks, first, second, similar, scope, p, q, b, n);
    }
  }

  /** A published group of several carries the verdict of the suggestion it comes from. */
  lemma PublishedComes(blocks: seq<seq<Product>>, first: nat -> Option<Reply>, second: nat -> Option<Reply>, similar: Similarity,
    scope: set<Text>, p: Product, q: Product, k: Cluster) returns (b: nat, n: nat)
    requires p != q && k in ForPublish(InScope(MatchedBlocks(blocks, first, second, similar), scope)) &&
      p in k.members && q in k.members
    ensures b < |blocks| && Joins(blocks[b], Chosen(first(b), second(b)), similar, scope, n, p, q)
    ensures k.matchedBy == Ai && k.confidence == Chosen(first(b), second(b)).value[n].confidence &&
      k.review == Approved
  {
    hide MatchedBlocks, InScope, ForPublish, Separate, MatchedBlock, Together, OneStore, Select, Used;
    var all := MatchedBlocks(blocks, first, second, similar);
    ForPublishHas(InScope(all, scope), k);
    var c :| c in InScope(all, scope) && k in Separate(c);
    InScopeMeans(all, scope);
    SeparateWithin(c, k);
    assert !IsSingle(c);
    MatchedBlocksHave(blocks, first, second, similar, c);
    b :| 0 <= b < |blocks| && c in MatchedBlock(blocks[b], first(b), second(b), similar);
    ChosenGroups(blocks[b], first(b), second(b), similar, c);
    n :| 0 <= n < |Chosen(first(b), second(b)).value| && ClusterOf(blocks[b], Chosen(first(b), second(b)).value, similar, n, c);
    TogetherIff(c, p, q);
  }

  lemma JoinsShared(blocks: seq<seq<Product>>, first: nat -> Option<Reply>, second: nat -> Option<Reply>, similar: Similarity,
    scope: set<Text>, p: Product, q: Product, b: nat, n: nat)
    requires p != q && b < |blocks| && Joins(blocks[b], Chosen(first(b), second(b)), similar, scope, n, p, q)
    ensures Shared(ForPublish(InScope(MatchedBlocks(blocks, first, second, similar), scope)), p, q)
  {
    hide MatchedBlocks, InScope, ForPublish, Separate, MatchedBlock, OneStore, Select, Used, Ranked, Kept;
    var all, reply := MatchedBlocks(blocks, first, second, similar), Chosen(first(b), second(b)).value;
    var c := Cluster(Together(blocks[b], reply, similar, n), Ai, reply[n].confidence, Approved);
    assert ClusterOf(blocks[b], reply, similar, n, c);
    assert !IsSingle(c);
    ChosenGroups(blocks[b], first(b), second(b), similar, c);
    MatchedBlocksHave(blocks, first, second, similar, c);
    InScopeMeans(all, scope);
    TogetherIff(c, p, q);
    var k :| k in Separate(c) && p in k.members && q in k.members;
    ForPublishHas(InScope(all, scope), k);
  }

  method MatchAll(blocks: seq<seq<Product>>, first: nat -> Option<Reply>, second: nat -> Option<Reply>,
    similar: Similarity) returns (cs: seq<Cluster>)
    ensures cs == MatchedBlocks(blocks, first, second, similar)
  {
    cs := [];
    for i := 0 to |blocks|
      invariant cs == MatchedBlocks(blocks[..i], first, second, similar)
    {
      var more := MatchBlock(blocks[i], first(i), second(i), similar);
      assert blocks[..i + 1][..i] == blocks[..i];
      cs := cs + more;
    }
    assert blocks[..|blocks|] == blocks;
  }

  /** The whole run on distinct products, whatever the model answers: every product is matched,
      only finished groups are published, and the ingestor accepts the bundle exactly when no
      suggestion leaves a product twice and the rows, the names and the source files are in order. */
  method Produce(items: seq<Product>, maxSize: nat, first: nat -> Option<Reply>, second: nat -> Option<Reply>,
    similar: Similarity, scope: set<Text>, sources: seq<SourceMeta>)
    returns (blocks: seq<seq<Product>>, published: seq<Cluster>, b: Bundle)
    requires DistinctProducts(items) && maxSize > 0 && Answers(first) && Answers(second)
    ensures multiset(Concat(blocks)) == multiset(items) && forall k :: k in blocks ==>
      IsBlock(items, maxSize, k)
    ensures published == ForPublish(InScope(MatchedBlocks(blocks, first, second, similar), scope))
    ensures forall p :: p in multiset(All(MatchedBlocks(blocks, first, second, similar))) <==> p in items
    ensures multiset(All(published)) == multiset(Left(MatchedBlocks(blocks, first, second, similar), scope))
    ensures forall c :: c in published ==> Publishable(c)
    ensures Resolve.CountsMatch(b) && b.raws == RawsOf(All(published)) && |b.groups| == |published|
    ensures forall i :: 0 <= i < |published| ==> Says(b.groups[i], published[i])
    ensures forall p, q :: p != q ==>
      (Shared(published, p, q) <==> Joined(blocks, first, second, similar, scope, p, q))
    ensures Partitions(b.raws, b.groups) <==> !AnyDoubles(blocks, first, second, similar, scope)
    ensures Accepted(b) <==>
      && !AnyDoubles(blocks, first, second, similar, scope)
      && (forall p :: p in All(published) ==> RawValid(p.raw))
      && (forall c :: c in published ==> c.members != [] && Lead(c.members).display.Word? && Lead(c.members).category.Word?)
      && SourcesFit(sources)
  {
    hide All, Publishable, Lead, SourcesFit, Partitions, Accepted, InScope, ForPublish, MatchedBlocks, IsBlock,
      AnyDoubles, DistinctProducts, NoTwice, Says, Shared, Joined;
    blocks := BuildBlocks(items, maxSize);
    DistinctPart(items, Concat(blocks));
    var clusters := MatchAll(blocks, first, second, similar);
    MatchedBlocksMean(blocks, first, second, similar, scope);
    SameItems(items, Concat(blocks));
    var scoped := InScope(clusters, scope);
    InScopeMeans(clusters, scope);
    published := ForPublish(scoped);
    ForPublishMeans(scoped);
    assert forall c :: c in published ==> c.members != [] by { NoneEmpty(published); }
    b := BuildBundle(published, sources);
    GroupsSay(published, b.groups);
    forall p, q | p != q ensures Shared(published, p, q) <==> Joined(blocks, first, second, similar, scope, p, q) {
      SharedIff(blocks, first, second, similar, scope, p, q);
    }
    PublishedDistinct(items, Left(clusters, scope), All(published));
    Partition(published);
    CountsAgree(published, sources, b);
    AcceptedIff(published, sources, b);
  }

  lemma SameItems(a: seq<Product>, b: seq<Product>)
    requires multiset(a) == multiset(b)
    ensures forall p :: p in a <==> p in b
  {
    forall p ensures p in a <==> p in b { assert p in multiset(a) <==> p in multiset(b); }
  }

  lemma PublishedDistinct(items: seq<Product>, left: seq<Product>, published: seq<Product>)
    requires DistinctProducts(items) && multiset(published) == multiset(left) && forall p :: p in left ==>
      p in items
    ensures DistinctProducts(published) <==> NoTwice(left)
  {
    SameItems(published, left);
    NoTwiceCounts(published);
    NoTwiceCounts(left);
    if NoTwice(published) {
      forall i, j | 0 <= i < j < |published| ensures published[i].Key() != published[j].Key() {
        if published[i].Key() == published[j].Key() { DistinctMeansEqual(items, published[i], published[j]); }
      }
    }
  }

  lemma NoneEmpty(cs: seq<Cluster>)
    requires forall c :: c in cs ==> Publishable(c)
    ensures forall c :: c in cs ==> c.members != []
  {
  }
}
