/** What resolution guarantees about canonical identities (backend-go/internal/ingestion/plan.go). */
module Identities {
  import opened Outcomes
  import opened Bundles
  import opened Counting
  import opened Resolve

  // ----- the checks before the groups -----

  /** The raw rows of a store. */
  function RowsOf(raws: seq<Raw>, s: StoreCode): set<nat> { set i: nat | i < |raws| && raws[i].store == s }

  /** A store that is there, and whose rows have not dropped by more than `maxDrop` per cent. */
  predicate Stands(b: Bundle, counts: map<StoreCode, nat>, maxDrop: real, s: StoreCode) {
    var now := |RowsOf(b.raws, s)|;
    now > 0 && (s in counts && counts[s] > 0 ==> 100.0 * (counts[s] - now) as real <= maxDrop * counts[s] as real)
  }

  /** A source that declares another number of products than it has rows. */
  predicate Miscounts(b: Bundle, m: Source) {
    m.productCount.Some? && m.productCount.value != |RowsOf(b.raws, m.store)|
  }

  lemma {:induction false} InStoreRows(raws: seq<Raw>, s: StoreCode)
    ensures InStore(raws, s) == |RowsOf(raws, s)|
  {
    if raws == [] {
      assert RowsOf(raws, s) == {};
    } else {
      var n := |raws| - 1;
      InStoreRows(raws[..n], s);
      assert RowsOf(raws, s) == RowsOf(raws[..n], s) + if raws[n].store == s then {n} else {};
    }
  }

  lemma StandsIff(b: Bundle, counts: map<StoreCode, nat>, maxDrop: real, s: StoreCode)
    ensures Stands(b, counts, maxDrop, s) <==> InStore(b.raws, s) != 0 && !Dropped(counts, b.raws, s, maxDrop)
    ensures InStore(b.raws, s) == 0 <==> RowsOf(b.raws, s) == {}
  {
    InStoreRows(b.raws, s);
    var before: int, now: int := Before(counts, s), InStore(b.raws, s);
    if before > 0 { Quotient((before - now) as real * 100.0, before as real, maxDrop); }
  }

  lemma Quotient(x: real, y: real, z: real)
    requires y > 0.0
    ensures x / y > z <==> x > z * y
  {
    assert x == x / y * y;
    if x / y > z { assert (x / y - z) * y > 0.0; } else { assert (z - x / y) * y >= 0.0; }
  }

  /** What is wrong with a store that does not stand. */
  function Loss(b: Bundle, s: StoreCode): Failure { if RowsOf(b.raws, s) == {} then RequiredSourceMissing else StoreCountDrop }

  /** The error of a resolution is that of the first store that is missing or has dropped, else
      that of a miscounted source, else that of the groups. */
  lemma ResolutionMeans(b: Bundle, previous: Previous, counts: map<StoreCode, nat>, categories: set<Text>, maxDrop: real,
    recluster: bool, random: nat -> Option<Id>)
    ensures var r := Resolution(b, previous, counts, categories, maxDrop, recluster, random);
      && (forall s :: 0 <= s < 3 && !Stands(b, counts, maxDrop, s) && (forall t :: 0 <= t < s ==> Stands(b, counts, maxDrop, t)) ==>
            r == Err(Loss(b, s)))
      && ((forall s :: 0 <= s < 3 ==> Stands(b, counts, maxDrop, s)) ==>
            r == if exists m :: m in b.sources && Miscounts(b, m) then Err(SourceCountMismatch)
                 else Turns(b.groups, previous, categories, recluster, random, |b.groups|))
      && ((exists s :: 0 <= s < 3 && !Stands(b, counts, maxDrop, s)) <==>
        r == Err(RequiredSourceMissing) || r == Err(StoreCountDrop))
  {
    hide Turns, Stands, Miscounts, StoreChecks, CountsMatch, RowsOf;
    StoreChecksMean(b, counts, maxDrop);
    MiscountsIff(b);
    TurnsErrors(b.groups, previous, categories, recluster, random, |b.groups|);
  }

  lemma StoreChecksMean(b: Bundle, counts: map<StoreCode, nat>, maxDrop: real)
    ensures StoreChecks(b, counts, maxDrop, |STORES|) ==
      if !Stands(b, counts, maxDrop, 0) then Err(Loss(b, 0))
      else if !Stands(b, counts, maxDrop, 1) then Err(Loss(b, 1))
      else if !Stands(b, counts, maxDrop, 2) then Err(Loss(b, 2))
      else Ok(())
  {
    hide Stands, InStore, Dropped, RowsOf;
    StandsIff(b, counts, maxDrop, 0);
    StandsIff(b, counts, maxDrop, 1);
    StandsIff(b, counts, maxDrop, 2);
    var none, one, two := StoreChecks(b, counts, maxDrop, 0), StoreChecks(b, counts, maxDrop, 1), StoreChecks(b, counts, maxDrop, 2);
    assert one == if !Stands(b, counts, maxDrop, 0) then Err(Loss(b, 0)) else Ok(());
    assert two == if one.Err? then one else if !Stands(b, counts, maxDrop, 1) then Err(Loss(b, 1)) else Ok(());
  }

  lemma MiscountsIff(b: Bundle)
    ensures CountsMatch(b) <==> !exists m :: m in b.sources && Miscounts(b, m)
  {
    forall s ensures InStore(b.raws, s) == |RowsOf(b.raws, s)| { InStoreRows(b.raws, s); }
  }

  lemma {:induction false} TurnsErrors(gs: seq<Group>, previous: Previous, categories: set<Text>, recluster: bool,
    random: nat -> Option<Id>, n: nat)
    requires n <= |gs|
    ensures var r := Turns(gs, previous, categories, recluster, random, n);
      r.Err? ==> r.error in {UnknownCategory, MergeConflict, SplitConflict, IdentityGeneration}
  {
    if n > 0 { TurnsErrors(gs, previous, categories, recluster, random, n - 1); }
  }

  /** The bundle passes everything before its groups. */
  ghost predicate Checked(b: Bundle, counts: map<StoreCode, nat>, maxDrop: real) {
    (forall s :: 0 <= s < 3 ==> Stands(b, counts, maxDrop, s)) && !exists m :: m in b.sources && Miscounts(b, m)
  }

  /** Exactly when a bundle resolves, in either mode. */
  lemma ResolvesIff(b: Bundle, previous: Previous, counts: map<StoreCode, nat>, categories: set<Text>, maxDrop: real,
    recluster: bool, random: nat -> Option<Id>)
    ensures Resolution(b, previous, counts, categories, maxDrop, recluster, random).Ok? <==>
      && Checked(b, counts, maxDrop)
      && (recluster || !Splits(b.groups, previous, |b.groups|))
      && forall i :: 0 <= i < |b.groups| ==> Fits(b.groups, previous, categories, recluster, random, i)
  {
    hide Resolution, Turns, Stands, Miscounts, Splits, Fits;
    ResolutionMeans(b, previous, counts, categories, maxDrop, recluster, random);
    if s :| 0 <= s < 3 && !Stands(b, counts, maxDrop, s) {}
    if recluster {
      ReclusterSucceeds(b.groups, previous, categories, random, |b.groups|);
    } else {
      StrictSucceeds(b.groups, previous, categories, random, |b.groups|);
    }
  }

  // ----- the counters of the report -----

  predicate Crosses(g: Group) { exists m, k :: m in g.members && k in g.members && m.raw.store != k.raw.store }

  /** Two of its members had different ids, or one had two. */
  predicate Mixes(previous: Previous, g: Group) {
    exists m, k, a, b :: m in g.members && k in g.members && a in Lookup(previous, m.raw.Key()) && b in Lookup(previous, k.raw.Key()) && a != b
  }

  predicate Returns(previous: Previous, g: Group) { exists m :: m in g.members && Lookup(previous, m.raw.Key()) != [] }

  lemma CrossesIff(g: Group)
    ensures TwoStores(g.members) <==> Crosses(g)
  {
    if TwoStores(g.members) {
      var i, j :| 0 <= i < j < |g.members| && g.members[i].raw.store != g.members[j].raw.store;
      assert g.members[i] in g.members && g.members[j] in g.members;
    }
    if Crosses(g) {
      var m, k :| m in g.members && k in g.members && m.raw.store != k.raw.store;
      var i :| 0 <= i < |g.members| && g.members[i] == m;
      var j :| 0 <= j < |g.members| && g.members[j] == k;
      assert i < j || j < i;
    }
  }

  lemma MixesIff(previous: Previous, g: Group)
    ensures Merges(previous, g) <==> Mixes(previous, g)
  {
    hide Votes, Lookup;
    forall id
      ensures Votes(previous, g.members, id) > 0 <==> exists m :: m in g.members && id in Lookup(previous, m.raw.Key())
    {
      VotesPositive(previous, g.members, id);
    }
    if Merges(previous, g) {
      var a, b :| a != b && Votes(previous, g.members, a) > 0 && Votes(previous, g.members, b) > 0;
      var m :| m in g.members && a in Lookup(previous, m.raw.Key());
      var k :| k in g.members && b in Lookup(previous, k.raw.Key());
    }
    if Mixes(previous, g) {
      var m, k, a, b :| m in g.members && k in g.members && a in Lookup(previous, m.raw.Key()) && b in Lookup(previous, k.raw.Key()) && a != b;
      assert Votes(previous, g.members, a) > 0 && Votes(previous, g.members, b) > 0;
    }
  }

  lemma ReturnsIff(previous: Previous, g: Group)
    ensures Known(previous, g) <==> Returns(previous, g)
  {
    hide Votes, Lookup;
    forall id
      ensures Votes(previous, g.members, id) > 0 <==> exists m :: m in g.members && id in Lookup(previous, m.raw.Key())
    {
      VotesPositive(previous, g.members, id);
    }
    if Known(previous, g) {
      var a :| Votes(previous, g.members, a) > 0;
      var m :| m in g.members && a in Lookup(previous, m.raw.Key());
    }
    if Returns(previous, g) {
      var m :| m in g.members && Lookup(previous, m.raw.Key()) != [];
      var a := Lookup(previous, m.raw.Key())[0];
      assert a in Lookup(previous, m.raw.Key());
      assert Votes(previous, g.members, a) > 0;
    }
  }

  function CrossingGroups(gs: seq<Group>, n: nat): set<int>
    requires n <= |gs|
  {
    set i | 0 <= i < n && Crosses(gs[i])
  }

  function PicturedGroups(gs: seq<Group>, n: nat): set<int>
    requires n <= |gs|
  {
    set i | 0 <= i < n && gs[i].image
  }

  function MixedGroups(gs: seq<Group>, previous: Previous, n: nat): set<int>
    requires n <= |gs|
  {
    set i | 0 <= i < n && Mixes(previous, gs[i])
  }

  function KeptGroups(out: seq<Resolved>): set<int> { set i | 0 <= i < |out| && out[i].reused }

  function NewGroups(out: seq<Resolved>): set<int> { set i | 0 <= i < |out| && !out[i].reused }

  /** New groups some member of which had an id. */
  function SplitGroups(gs: seq<Group>, previous: Previous, out: seq<Resolved>): set<int>
    requires |out| <= |gs|
  {
    set i | 0 <= i < |out| && !out[i].reused && Returns(previous, gs[i])
  }

  ghost predicate Counters(gs: seq<Group>, previous: Previous, p: Progress)
    requires |p.out| <= |gs|
  {
    && p.report.matched == |CrossingGroups(gs, |p.out|)|
    && p.report.images == |PicturedGroups(gs, |p.out|)|
    && p.report.merged == |MixedGroups(gs, previous, |p.out|)|
    && p.report.split == |SplitGroups(gs, previous, p.out)|
    && p.report.reused == |KeptGroups(p.out)|
    && p.report.created == |NewGroups(p.out)|
  }

  /** Every counter of the report is the number of the groups it is about. */
  lemma {:induction false} CountersMean(gs: seq<Group>, previous: Previous, categories: set<Text>, recluster: bool,
    random: nat -> Option<Id>, n: nat, p: Progress)
    requires n <= |gs| && Turns(gs, previous, categories, recluster, random, n) == Ok(p)
    ensures |p.out| == n && Counters(gs, previous, p)
  {
    hide BestOf, Merges, Known, TwoStores, Crosses, Mixes, Returns, Counters;
    if n == 0 {
      NoCounters(gs, previous, p);
    } else {
      var q := Turns(gs, previous, categories, recluster, random, n - 1).value;
      CountersMean(gs, previous, categories, recluster, random, n - 1, q);
      CrossesIff(gs[n - 1]);
      MixesIff(previous, gs[n - 1]);
      ReturnsIff(previous, gs[n - 1]);
      CountersNext(gs, previous, n - 1, q, p);
    }
  }

  lemma NoCounters(gs: seq<Group>, previous: Previous, p: Progress)
    requires p == Progress([], {}, Report(0, 0, 0, 0, 0, 0))
    ensures Counters(gs, previous, p)
  {
  }

  lemma CountersNext(gs: seq<Group>, previous: Previous, n: nat, q: Progress, p: Progress)
    requires n < |gs| && |q.out| == n && Counters(gs, previous, q) && |p.out| == n + 1 && p.out[..n] == q.out
    requires p.report.matched == q.report.matched + if Crosses(gs[n]) then 1 else 0
    requires p.report.images == q.report.images + if gs[n].image then 1 else 0
    requires p.report.merged == q.report.merged + if Mixes(previous, gs[n]) then 1 else 0
    requires p.report.split == q.report.split + if !p.out[n].reused && Returns(previous, gs[n]) then 1 else 0
    requires p.report.reused == q.report.reused + if p.out[n].reused then 1 else 0
    requires p.report.created == q.report.created + if p.out[n].reused then 0 else 1
    ensures Counters(gs, previous, p)
  {
    assert p.out == q.out + [p.out[n]];
    CrossingNext(gs, n);
    PicturedNext(gs, n);
    MixedNext(gs, previous, n);
    SplitNext(gs, previous, q.out, p.out[n]);
    KeptGroupsNext(q.out, p.out[n]);
    NewNext(q.out, p.out[n]);
    hide Crosses, Mixes, Returns, CrossingGroups, PicturedGroups, MixedGroups, SplitGroups, KeptGroups,
      NewGroups;
  }

  lemma CrossingNext(gs: seq<Group>, n: nat)
    requires n < |gs|
    ensures |CrossingGroups(gs, n + 1)| == |CrossingGroups(gs, n)| + if Crosses(gs[n]) then 1 else 0
  {
    hide Crosses;
    SizeNext(CrossingGroups(gs, n), CrossingGroups(gs, n + 1), n);
  }

  lemma PicturedNext(gs: seq<Group>, n: nat)
    requires n < |gs|
    ensures |PicturedGroups(gs, n + 1)| == |PicturedGroups(gs, n)| + if gs[n].image then 1 else 0
  {
    SizeNext(PicturedGroups(gs, n), PicturedGroups(gs, n + 1), n);
  }

  lemma MixedNext(gs: seq<Group>, previous: Previous, n: nat)
    requires n < |gs|
    ensures |MixedGroups(gs, previous, n + 1)| == |MixedGroups(gs, previous, n)| + if Mixes(previous, gs[n]) then 1 else 0
  {
    hide Mixes;
    SizeNext(MixedGroups(gs, previous, n), MixedGroups(gs, previous, n + 1), n);
  }

  lemma SplitNext(gs: seq<Group>, previous: Previous, q: seq<Resolved>, last: Resolved)
    requires |q| < |gs|
    ensures |SplitGroups(gs, previous, q + [last])| == |SplitGroups(gs, previous, q)| + if !last.reused &&
      Returns(previous, gs[|q|]) then 1 else 0
  {
    hide Returns;
    assert forall i :: 0 <= i < |q| ==> (q + [last])[i] == q[i];
    SizeNext(SplitGroups(gs, previous, q), SplitGroups(gs, previous, q + [last]), |q|);
  }

  lemma KeptGroupsNext(q: seq<Resolved>, last: Resolved)
    ensures |KeptGroups(q + [last])| == |KeptGroups(q)| + if last.reused then 1 else 0
  {
    assert forall i :: 0 <= i < |q| ==> (q + [last])[i] == q[i];
    SizeNext(KeptGroups(q), KeptGroups(q + [last]), |q|);
  }

  lemma NewNext(q: seq<Resolved>, last: Resolved)
    ensures |NewGroups(q + [last])| == |NewGroups(q)| + if !last.reused then 1 else 0
  {
    assert forall i :: 0 <= i < |q| ==> (q + [last])[i] == q[i];
    SizeNext(NewGroups(q), NewGroups(q + [last]), |q|);
  }

  /** The ids known for each member. */
  function Lookups(previous: Previous, ms: seq<Member>): seq<seq<Id>> {
    seq(|ms|, i requires 0 <= i < |ms| => Lookup(previous, ms[i].raw.Key()))
  }

  /** Votes are places: how often `id` is listed for a member. */
  lemma {:induction false} VotesMean(previous: Previous, ms: seq<Member>, id: Id)
    ensures Votes(previous, ms, id) == |Places(Lookups(previous, ms), id)|
  {
    if ms != [] {
      var n := |ms| - 1;
      VotesMean(previous, ms[..n], id);
      PlacesNext(Lookups(previous, ms[..n]), Lookup(previous, ms[n].raw.Key()), id);
      hide Lookup;
      assert Lookups(previous, ms) == Lookups(previous, ms[..n]) + [Lookup(previous, ms[n].raw.Key())];
    }
  }

  /** No stored canonical id is the empty string. */
  ghost predicate Nonempty(previous: Previous) {
    forall k, id :: k in previous && id in previous[k] ==> id != 0
  }

  /** A group votes for exactly the ids its members had. */
  lemma {:induction false} VotesPositive(previous: Previous, ms: seq<Member>, id: Id)
    ensures Votes(previous, ms, id) > 0 <==> exists m :: m in ms && id in Lookup(previous, m.raw.Key())
  {
    if ms != [] {
      var init, m := ms[..|ms| - 1], ms[|ms| - 1];
      VotesPositive(previous, init, id);
      CountPositive(Lookup(previous, m.raw.Key()), id);
      assert ms == init + [m];
    }
  }

  function Ballots(previous: Previous, ms: seq<Member>): nat {
    if ms == [] then 0 else Ballots(previous, ms[..|ms| - 1]) + |Lookup(previous, ms[|ms| - 1].raw.Key())|
  }

  lemma {:induction false} VotesBounded(previous: Previous, ms: seq<Member>, id: Id)
    ensures Votes(previous, ms, id) <= Ballots(previous, ms)
  {
    if ms != [] {
      VotesBounded(previous, ms[..|ms| - 1], id);
      CountPositive(Lookup(previous, ms[|ms| - 1].raw.Key()), id);
    }
  }

  lemma BestExists(gs: seq<Group>, previous: Previous, recluster: bool, i: nat, id: Id)
    requires i < |gs| && Eligible(gs, previous, recluster, i, id)
    ensures exists b: Id :: IsBest(gs, previous, recluster, i, b)
    decreases Ballots(previous, gs[i].members) - Votes(previous, gs[i].members, id), id
  {
    VotesBounded(previous, gs[i].members, id);
    if !IsBest(gs, previous, recluster, i, id) {
      var c: Id :| Eligible(gs, previous, recluster, i, c) &&
        !(Votes(previous, gs[i].members, id) > Votes(previous, gs[i].members, c) ||
          (Votes(previous, gs[i].members, id) == Votes(previous, gs[i].members, c) && id <= c));
      VotesBounded(previous, gs[i].members, c);
      BestExists(gs, previous, recluster, i, c);
    }
  }

  /** The id a group keeps is the best of the eligible ones; it keeps none only if none is
      eligible (or the best is the empty string). */
  lemma BestMeans(gs: seq<Group>, previous: Previous, recluster: bool, i: nat)
    requires i < |gs|
    ensures var b := BestOf(gs, previous, recluster, i);
      if exists id: Id :: Eligible(gs, previous, recluster, i, id) then IsBest(gs, previous, recluster, i, b) else b == 0
  {
    if id: Id :| Eligible(gs, previous, recluster, i, id) {
      BestExists(gs, previous, recluster, i, id);
    } else {
      forall id: Id ensures !IsBest(gs, previous, recluster, i, id) {}
    }
  }

  lemma OwnerUnique(gs: seq<Group>, previous: Previous, id: Id, i: nat, j: nat)
    requires IsOwner(gs, previous, id, i) && IsOwner(gs, previous, id, j)
    ensures i == j
  {
  }

  /** Every id with a surviving member has an owner. */
  lemma OwnerExists(gs: seq<Group>, previous: Previous, id: Id, i: nat) returns (o: nat)
    requires i < |gs| && Votes(previous, gs[i].members, id) > 0
    ensures IsOwner(gs, previous, id, o)
  {
    LeaderLeads(gs, previous, id, |gs|);
    o := Leader(gs, previous, id, |gs|).value;
    LeaderOwns(gs, previous, id, o);
  }

  /** A group carries the best of its eligible ids, or else a new one. */
  ghost predicate Placed(gs: seq<Group>, previous: Previous, recluster: bool, random: nat -> Option<Id>, i: nat, r: Resolved)
    requires i < |gs|
  {
    var best := BestOf(gs, previous, recluster, i);
    r.group == gs[i] && if best != 0 then r.reused && r.id == best else !r.reused && random(i) == Some(r.id)
  }

  /** The outcome, group by group: kept ids are pairwise distinct, and kept and new groups add up. */
  ghost predicate Shape(gs: seq<Group>, previous: Previous, recluster: bool, random: nat -> Option<Id>, n: nat, p: Progress)
    requires n <= |gs|
  {
    && |p.out| == n && p.report.reused + p.report.created == n && p.report.reused == |p.used| &&
      p.report.split <= p.report.created
    && (forall i :: 0 <= i < n ==> Placed(gs, previous, recluster, random, i, p.out[i]))
    && KeptOnce(p.out, p.used)
  }

  /** What one group needs by itself. */
  ghost predicate Fits(gs: seq<Group>, previous: Previous, categories: set<Text>, recluster: bool, random: nat -> Option<Id>, i: nat)
    requires i < |gs|
  {
    && gs[i].category in categories && (recluster || !Merges(previous, gs[i]))
    && (BestOf(gs, previous, recluster, i) == 0 ==> random(i).Some?)
  }

  lemma TurnMeans(gs: seq<Group>, previous: Previous, categories: set<Text>, recluster: bool,
    random: nat -> Option<Id>, p: Progress, i: nat)
    requires i < |gs|
    ensures var r, best := Turn(gs, previous, categories, recluster, random(i), p, i),
      BestOf(gs, previous, recluster, i);
      && (r.Ok? <==> Fits(gs, previous, categories, recluster, random, i) && (best != 0 ==> best !in p.used))
      && (r.Err? && recluster && (best != 0 ==> best !in p.used) ==> r.error == UnknownCategory || r.error == IdentityGeneration)
      && (r.Ok? ==> exists last :: Placed(gs, previous, recluster, random, i, last) && Extends(p, last, r.value))
  {
    hide BestOf, Merges, Known, TwoStores;
    var r := Turn(gs, previous, categories, recluster, random(i), p, i);
    if r.Ok? {
      var last := r.value.out[|p.out|];
      assert Placed(gs, previous, recluster, random, i, last) && Extends(p, last, r.value);
    }
  }

  /** One more group on top of `p`. */
  ghost predicate Extends(p: Progress, last: Resolved, q: Progress) {
    && q.out == p.out + [last]
    && (last.reused ==> last.id !in p.used) && q.used == p.used + (if last.reused then {last.id} else {})
    && q.report.reused == p.report.reused + (if last.reused then 1 else 0) &&
      q.report.created == p.report.created + (if last.reused then 0 else 1)
    && p.report.split <= q.report.split <= p.report.split + (if last.reused then 0 else 1)
  }

  /** No kept id occurs twice, and `used` lists exactly the kept ones. */
  ghost predicate KeptOnce(out: seq<Resolved>, used: set<Id>) {
    && (forall i, j :: 0 <= i < j < |out| && out[i].reused && out[j].reused ==> out[i].id != out[j].id)
    && (forall id :: id in used <==> exists i :: 0 <= i < |out| && out[i].reused && out[i].id == id)
  }

  lemma KeptNext(out: seq<Resolved>, used: set<Id>, last: Resolved)
    requires KeptOnce(out, used) && (last.reused ==> last.id !in used)
    ensures KeptOnce(out + [last], used + if last.reused then {last.id} else {})
  {
    var next, keys := out + [last], used + if last.reused then {last.id} else {};
    forall id ensures id in keys <==> exists i :: 0 <= i < |next| && next[i].reused && next[i].id == id {
      if id in used {
        var i :| 0 <= i < |out| && out[i].reused && out[i].id == id;
        assert next[i] == out[i];
      } else if last.reused && id == last.id {
        assert next[|out|].reused && next[|out|].id == id;
      }
    }
  }

  lemma ShapeNext(gs: seq<Group>, previous: Previous, recluster: bool, random: nat -> Option<Id>, n: nat,
    p: Progress, last: Resolved, q: Progress)
    requires n < |gs| && Shape(gs, previous, recluster, random, n, p) &&
      Placed(gs, previous, recluster, random, n, last) && Extends(p, last, q)
    ensures Shape(gs, previous, recluster, random, n + 1, q)
  {
    hide Placed, KeptOnce;
    KeptNext(p.out, p.used, last);
    forall i | 0 <= i < n ensures q.out[i] == p.out[i] {}
  }

  lemma {:induction false} TurnsShape(gs: seq<Group>, previous: Previous, categories: set<Text>,
    recluster: bool, random: nat -> Option<Id>, n: nat, p: Progress)
    requires n <= |gs| && Turns(gs, previous, categories, recluster, random, n) == Ok(p)
    ensures Shape(gs, previous, recluster, random, n, p)
  {
    if n > 0 {
      var q := Turns(gs, previous, categories, recluster, random, n - 1).value;
      TurnsShape(gs, previous, categories, recluster, random, n - 1, q);
      TurnMeans(gs, previous, categories, recluster, random, q, n - 1);
      hide Turn, Shape, Placed, Extends;
      var last :| Placed(gs, previous, recluster, random, n - 1, last) && Extends(q, last, p);
      ShapeNext(gs, previous, recluster, random, n - 1, q, last, p);
    }
  }

  // ----- reclustering -----

  /** Reclustering never reports a merge or split conflict: it succeeds exactly when every
      category is known and every new identity can be drawn. */
  lemma {:induction false} ReclusterSucceeds(gs: seq<Group>, previous: Previous, categories: set<Text>,
    random: nat -> Option<Id>, n: nat)
    requires n <= |gs|
    ensures var r := Turns(gs, previous, categories, true, random, n);
      && (r.Ok? <==> forall i :: 0 <= i < n ==> Fits(gs, previous, categories, true, random, i))
      && (r.Err? ==> r.error == UnknownCategory || r.error == IdentityGeneration)
  {
    hide Turn, BestOf, Fits, Shape, Placed, Extends;
    if n > 0 {
      ReclusterSucceeds(gs, previous, categories, random, n - 1);
      var r := Turns(gs, previous, categories, true, random, n - 1);
      if r.Ok? {
        TurnMeans(gs, previous, categories, true, random, r.value, n - 1);
        TurnsShape(gs, previous, categories, true, random, n - 1, r.value);
        NeverUsed(gs, previous, random, n - 1, r.value);
      }
    }
  }

  lemma NeverUsed(gs: seq<Group>, previous: Previous, random: nat -> Option<Id>, n: nat, p: Progress)
    requires n < |gs| && Shape(gs, previous, true, random, n, p)
    ensures BestOf(gs, previous, true, n) != 0 ==> BestOf(gs, previous, true, n) !in p.used
  {
  }

  /** What becomes of a previous id with a surviving member: its owner, the group with the
      greatest claim to it, carries it on, or carries on another id it owns that has at least
      as many votes there. Nobody else carries it. */
  lemma Fate(gs: seq<Group>, previous: Previous, categories: set<Text>, random: nat -> Option<Id>, p: Progress,
    id: Id, i: nat) returns (o: nat)
    requires Nonempty(previous) && Turns(gs, previous, categories, true, random, |gs|) == Ok(p)
    requires i < |gs| && Votes(previous, gs[i].members, id) > 0
    ensures |p.out| == |gs| && IsOwner(gs, previous, id, o) && p.out[o].reused
    ensures p.out[o].id == id ||
      Votes(previous, gs[o].members, p.out[o].id) >= Votes(previous, gs[o].members, id)
    ensures forall j :: 0 <= j < |gs| && p.out[j].reused && p.out[j].id == id ==> j == o
  {
    TurnsShape(gs, previous, categories, true, random, |gs|, p);
    o := OwnerExists(gs, previous, id, i);
    assert Eligible(gs, previous, true, o, id);
    BestMeans(gs, previous, true, o);
    var b := BestOf(gs, previous, true, o);
    VotesPositive(previous, gs[o].members, b);
    assert b != 0;
    assert Placed(gs, previous, true, random, o, p.out[o]);
    forall j | 0 <= j < |gs| && p.out[j].reused && p.out[j].id == id ensures j == o {
      assert Placed(gs, previous, true, random, j, p.out[j]);
      BestMeans(gs, previous, true, j);
      OwnerUnique(gs, previous, id, j, o);
    }
  }

  // ----- without reclustering -----

  /** Two groups claim one previous id. */
  ghost predicate Splits(gs: seq<Group>, previous: Previous, n: nat)
    requires n <= |gs|
  {
    exists i, j :: 0 <= i < j < n && BestOf(gs, previous, false, i) != 0 && BestOf(gs, previous, false, i) == BestOf(gs, previous, false, j)
  }

  /** Without reclustering a bundle resolves exactly when every category is known, no group
      mixes two previous ids, no two groups share one, and new identities can be drawn. */
  lemma {:induction false} StrictSucceeds(gs: seq<Group>, previous: Previous, categories: set<Text>,
    random: nat -> Option<Id>, n: nat)
    requires n <= |gs|
    ensures Turns(gs, previous, categories, false, random, n).Ok? <==>
      !Splits(gs, previous, n) && forall i :: 0 <= i < n ==> Fits(gs, previous, categories, false, random, i)
  {
    hide Turn, BestOf, Fits, Shape, Placed, Extends, Splits;
    NoSplits(gs, previous);
    if n > 0 {
      StrictSucceeds(gs, previous, categories, random, n - 1);
      var r := Turns(gs, previous, categories, false, random, n - 1);
      if r.Ok? {
        TurnMeans(gs, previous, categories, false, random, r.value, n - 1);
        TurnsShape(gs, previous, categories, false, random, n - 1, r.value);
        SplitsNext(gs, previous, random, n - 1, r.value);
      }
      if Splits(gs, previous, n - 1) { SplitsStay(gs, previous, n - 1); }
    }
  }

  lemma NoSplits(gs: seq<Group>, previous: Previous)
    ensures !Splits(gs, previous, 0)
  {
  }

  lemma SplitsStay(gs: seq<Group>, previous: Previous, n: nat)
    requires n < |gs| && Splits(gs, previous, n)
    ensures Splits(gs, previous, n + 1)
  {
  }

  lemma SplitsNext(gs: seq<Group>, previous: Previous, random: nat -> Option<Id>, n: nat, p: Progress)
    requires n < |gs| && Shape(gs, previous, false, random, n, p) && !Splits(gs, previous, n)
    ensures Splits(gs, previous, n + 1) <==>
      BestOf(gs, previous, false, n) != 0 && BestOf(gs, previous, false, n) in p.used
  {
    hide BestOf;
    var best := BestOf(gs, previous, false, n);
    forall i | 0 <= i < n
      ensures p.out[i].reused == (BestOf(gs, previous, false, i) != 0)
      ensures p.out[i].reused ==> p.out[i].id == BestOf(gs, previous, false, i)
    {
      assert Placed(gs, previous, false, random, i, p.out[i]);
    }
    hide Placed;
    if best != 0 && best in p.used { var i :| 0 <= i < n && p.out[i].reused && p.out[i].id == best; }
    if Splits(gs, previous, n + 1) {
      var i, j :| 0 <= i < j < n + 1 && BestOf(gs, previous, false, i) != 0 && BestOf(gs, previous, false, i) == BestOf(gs, previous, false, j);
      assert p.out[i].reused;
    }
  }

  /** Every known member keeps its previous identity, and had only that one. */
  lemma StrictKeeps(gs: seq<Group>, previous: Previous, categories: set<Text>, random: nat -> Option<Id>,
    p: Progress, i: nat, m: Member)
    requires Nonempty(previous) && Turns(gs, previous, categories, false, random, |gs|) == Ok(p)
    requires i < |gs| && m in gs[i].members && Lookup(previous, m.raw.Key()) != []
    ensures |p.out| == |gs| && p.out[i].reused && forall id :: id in Lookup(previous, m.raw.Key()) <==>
      id == p.out[i].id
  {
    TurnsShape(gs, previous, categories, false, random, |gs|, p);
    StrictSucceeds(gs, previous, categories, random, |gs|);
    var ids := Lookup(previous, m.raw.Key());
    forall id | id in ids ensures Votes(previous, gs[i].members, id) > 0 && id != 0 { VotesPositive(previous, gs[i].members, id); }
    assert ids[0] in ids;
    assert Eligible(gs, previous, false, i, ids[0]);
    BestMeans(gs, previous, false, i);
    assert Placed(gs, previous, false, random, i, p.out[i]);
    var best := BestOf(gs, previous, false, i);
    assert Fits(gs, previous, categories, false, random, i) && !Merges(previous, gs[i]);
    forall id | id in ids ensures id == best {}
  }

  /** Two members known to the baseline share a canonical identity afterwards exactly when they
      shared one before. */
  lemma PartitionStable(gs: seq<Group>, previous: Previous, categories: set<Text>, random: nat -> Option<Id>,
    p: Progress, i: nat, m: Member, j: nat, k: Member)
    requires Nonempty(previous) && Turns(gs, previous, categories, false, random, |gs|) == Ok(p)
    requires i < |gs| && m in gs[i].members && Lookup(previous, m.raw.Key()) != []
    requires j < |gs| && k in gs[j].members && Lookup(previous, k.raw.Key()) != []
    ensures |p.out| == |gs|
    ensures p.out[i].id == p.out[j].id <==>
      exists id :: id in Lookup(previous, m.raw.Key()) && id in Lookup(previous, k.raw.Key())
  {
    StrictKeeps(gs, previous, categories, random, p, i, m);
    StrictKeeps(gs, previous, categories, random, p, j, k);
    assert p.out[i].id in Lookup(previous, m.raw.Key());
  }
}
