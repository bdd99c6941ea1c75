/** Which canonical identity each group of a new bundle gets (backend-go/internal/ingestion/plan.go). */
module Resolve {
  import opened Outcomes
  import opened Bundles
  import opened Counting

  /** Canonical ids in their string order; 0 is the empty string. */
  type Id = nat

  datatype Failure =
    | RequiredSourceMissing | StoreCountDrop | SourceCountMismatch | UnknownCategory
    | MergeConflict | SplitConflict | IdentityGeneration

  datatype Resolved = Resolved(group: Group, id: Id, reused: bool)

  datatype Report = Report(matched: nat, images: nat, merged: nat, split: nat, reused: nat, created: nat)

  /** What the main loop has built so far. */
  datatype Progress = Progress(out: seq<Resolved>, used: set<Id>, report: Report)

  /** The canonical ids each identity had in the published snapshot. */
  type Previous = map<Identity, seq<Id>>

  function Lookup(previous: Previous, k: Identity): seq<Id> { if k in previous then previous[k] else [] }

  /** How many members of a group belonged to `id`. */
  function Votes(previous: Previous, ms: seq<Member>, id: Id): nat {
    if ms == [] then 0 else Votes(previous, ms[..|ms| - 1], id) + Count(Lookup(previous, ms[|ms| - 1].raw.Key()), id)
  }

  /** A claim of group `i` outweighs that of group `j`: votes, then members, then position. */
  predicate Outweighs(gs: seq<Group>, previous: Previous, id: Id, i: nat, j: nat)
    requires i < |gs| && j < |gs|
  {
    var a, b := Votes(previous, gs[i].members, id), Votes(previous, gs[j].members, id);
    a > b || (a == b && (|gs[i].members| > |gs[j].members| || (|gs[i].members| == |gs[j].members| && i <= j)))
  }

  ghost predicate IsOwner(gs: seq<Group>, previous: Previous, id: Id, i: nat) {
    && i < |gs| && Votes(previous, gs[i].members, id) > 0
    && forall j: nat :: j < |gs| && Votes(previous, gs[j].members, id) > 0 ==> Outweighs(gs, previous, id, i, j)
  }

  /** The ids group `i` may keep. */
  ghost predicate Eligible(gs: seq<Group>, previous: Previous, recluster: bool, i: nat, id: Id)
    requires i < |gs|
  {
    Votes(previous, gs[i].members, id) > 0 && (recluster ==> IsOwner(gs, previous, id, i))
  }

  ghost predicate IsBest(gs: seq<Group>, previous: Previous, recluster: bool, i: nat, id: Id)
    requires i < |gs|
  {
    && Eligible(gs, previous, recluster, i, id)
    && forall c :: Eligible(gs, previous, recluster, i, c) ==>
      Votes(previous, gs[i].members, id) > Votes(previous, gs[i].members, c) ||
      (Votes(previous, gs[i].members, id) == Votes(previous, gs[i].members, c) && id <= c)
  }

  /** The id group `i` keeps, or the empty string. */
  ghost function BestOf(gs: seq<Group>, previous: Previous, recluster: bool, i: nat): Id
    requires i < |gs|
  {
    if exists id: Id :: IsBest(gs, previous, recluster, i, id) then var id: Id :| IsBest(gs, previous, recluster, i, id); id else 0
  }

  /** Members of one group come from two previous ids. */
  ghost predicate Merges(previous: Previous, g: Group) {
    exists a, b :: a != b && Votes(previous, g.members, a) > 0 && Votes(previous, g.members, b) > 0
  }

  ghost predicate Known(previous: Previous, g: Group) { exists a :: Votes(previous, g.members, a) > 0 }

  predicate TwoStores(ms: seq<Member>) { exists i, j :: 0 <= i < j < |ms| && ms[i].raw.store != ms[j].raw.store }

  /** One turn of the main loop; `random` is what the random generator returns for the group. */
  ghost function Turn(gs: seq<Group>, previous: Previous, categories: set<Text>, recluster: bool, random: Option<Id>,
    p: Progress, i: nat): Result<Progress, Failure>
    requires i < |gs|
  {
    var g, best := gs[i], BestOf(gs, previous, recluster, i);
    var r := p.report;
    if g.category !in categories then Err(UnknownCategory)
    else if Merges(previous, g) && !recluster then Err(MergeConflict)
    else if best != 0 && best in p.used then Err(SplitConflict)
    else if best == 0 && random.None? then Err(IdentityGeneration)
    else Ok(Progress(
      p.out + [Resolved(g, if best != 0 then best else random.value, best != 0)],
      if best != 0 then p.used + {best} else p.used,
      Report(r.matched + (if TwoStores(g.members) then 1 else 0), r.images + (if g.image then 1 else 0),
             r.merged + (if Merges(previous, g) then 1 else 0), r.split + (if best == 0 && Known(previous, g) then 1 else 0),
             r.reused + (if best != 0 then 1 else 0), r.created + (if best != 0 then 0 else 1))))
  }

  ghost function Turns(gs: seq<Group>, previous: Previous, categories: set<Text>, recluster: bool, random: nat -> Option<Id>, n: nat): Result<Progress, Failure>
    requires n <= |gs|
  {
    if n == 0 then Ok(Progress([], {}, Report(0, 0, 0, 0, 0, 0))) else
      var p :- Turns(gs, previous, categories, recluster, random, n - 1);
      Turn(gs, previous, categories, recluster, random(n - 1), p, n - 1)
  }

  function InStore(raws: seq<Raw>, s: StoreCode): nat {
    if raws == [] then 0 else InStore(raws[..|raws| - 1], s) + if raws[|raws| - 1].store == s then 1 else 0
  }

  function Before(counts: map<StoreCode, nat>, s: StoreCode): nat { if s in counts then counts[s] else 0 }

  predicate Dropped(counts: map<StoreCode, nat>, raws: seq<Raw>, s: StoreCode, maxDrop: real) {
    TooFew(Before(counts, s), InStore(raws, s), maxDrop)
  }

  predicate TooFew(before: nat, now: nat, maxDrop: real) {
    before > 0 && (before - now) as real * 100.0 / before as real > maxDrop
  }

  /** The checks before the main loop, store by store in their fixed order. */
  function StoreChecks(b: Bundle, counts: map<StoreCode, nat>, maxDrop: real, n: nat): Result<(), Failure>
    requires n <= |STORES|
  {
    if n == 0 then Ok(()) else
      var _ :- StoreChecks(b, counts, maxDrop, n - 1);
      if InStore(b.raws, STORES[n - 1]) == 0 then Err(RequiredSourceMissing)
      else if Dropped(counts, b.raws, STORES[n - 1], maxDrop) then Err(StoreCountDrop)
      else Ok(())
  }

  predicate CountsMatch(b: Bundle) {
    forall s :: s in b.sources && s.productCount.Some? ==> s.productCount.value == InStore(b.raws, s.store)
  }

  ghost function Resolution(b: Bundle, previous: Previous, counts: map<StoreCode, nat>, categories: set<Text>,
    maxDrop: real, recluster: bool, random: nat -> Option<Id>): Result<Progress, Failure>
  {
    var _ :- StoreChecks(b, counts, maxDrop, |STORES|);
    if !CountsMatch(b) then Err(SourceCountMismatch)
    else Turns(b.groups, previous, categories, recluster, random, |b.groups|)
  }

  // ----- the program -----

  /** votes[i]. */
  method CountVotes(previous: Previous, ms: seq<Member>) returns (votes: map<Id, nat>)
    ensures Tallied(previous, ms, votes)
  {
    votes := map[];
    for i := 0 to |ms|
      invariant Tallied(previous, ms[..i], votes)
    {
      var ids := Lookup(previous, ms[i].raw.Key());
      assert ms[..i + 1][..i] == ms[..i];
      for j := 0 to |ids|
        invariant forall id ::
          (id in votes <==> Votes(previous, ms[..i], id) + Count(ids[..j], id) > 0) &&
          (id in votes ==> votes[id] == Votes(previous, ms[..i], id) + Count(ids[..j], id))
      {
        assert ids[..j + 1][..j] == ids[..j];
        votes := votes[ids[j] := (if ids[j] in votes then votes[ids[j]] else 0) + 1];
      }
      assert ids[..|ids|] == ids;
    }
    assert ms[..|ms|] == ms;
  }

  ghost predicate Tallied(previous: Previous, ms: seq<Member>, votes: map<Id, nat>) {
    forall id :: (id in votes <==> Votes(previous, ms, id) > 0) && (id in votes ==> votes[id] == Votes(previous, ms, id))
  }

  /** The owner of an id among the first `n` groups. */
  function Leader(gs: seq<Group>, previous: Previous, id: Id, n: nat): Option<nat>
    requires n <= |gs|
    ensures Leader(gs, previous, id, n).Some? ==> Leader(gs, previous, id, n).value < n
  {
    if n == 0 then None else
      var l, v := Leader(gs, previous, id, n - 1), Votes(previous, gs[n - 1].members, id);
      if v > 0 && (l.None? || v > Votes(previous, gs[l.value].members, id) ||
        (v == Votes(previous, gs[l.value].members, id) && |gs[n - 1].members| > |gs[l.value].members|))
      then Some(n - 1) else l
  }

  lemma {:induction false} LeaderLeads(gs: seq<Group>, previous: Previous, id: Id, n: nat)
    requires n <= |gs|
    ensures match Leader(gs, previous, id, n)
      case None => forall j :: 0 <= j < n ==> Votes(previous, gs[j].members, id) == 0
      case Some(i) =>
        Votes(previous, gs[i].members, id) > 0 &&
        forall j :: 0 <= j < n && Votes(previous, gs[j].members, id) > 0 ==> Outweighs(gs, previous, id, i, j)
  {
    if n > 0 { LeaderLeads(gs, previous, id, n - 1); }
  }

  /** The owner loop finds the group with the greatest claim, in whatever order the votes of a
      group are visited. */
  lemma LeaderOwns(gs: seq<Group>, previous: Previous, id: Id, i: nat)
    ensures Leader(gs, previous, id, |gs|) == Some(i) <==> IsOwner(gs, previous, id, i)
  {
    LeaderLeads(gs, previous, id, |gs|);
    if IsOwner(gs, previous, id, i) {
      var l := Leader(gs, previous, id, |gs|).value;
      assert Outweighs(gs, previous, id, i, l) && Outweighs(gs, previous, id, l, i);
    }
  }

  ghost predicate Led(gs: seq<Group>, previous: Previous, id: Id, n: nat, owner: map<Id, nat>)
    requires n <= |gs|
  {
    (id in owner <==> Leader(gs, previous, id, n).Some?) && (id in owner ==> Leader(gs, previous, id, n) == Some(owner[id]))
  }

  ghost predicate Owned(gs: seq<Group>, previous: Previous, owner: map<Id, nat>) {
    forall id :: Led(gs, previous, id, |gs|, owner)
  }

  lemma LedNext(gs: seq<Group>, previous: Previous, id: Id, n: nat, owner: map<Id, nat>)
    requires n < |gs| && Led(gs, previous, id, n, owner)
    ensures id in owner ==> owner[id] < n && Votes(previous, gs[owner[id]].members, id) > 0
    ensures Votes(previous, gs[n].members, id) == 0 ==> Led(gs, previous, id, n + 1, owner)
    ensures Votes(previous, gs[n].members, id) > 0 ==>
      if id !in owner || Votes(previous, gs[n].members, id) > Votes(previous, gs[owner[id]].members, id) ||
        (Votes(previous, gs[n].members, id) == Votes(previous, gs[owner[id]].members, id) &&
         |gs[n].members| > |gs[owner[id]].members|)
      then Led(gs, previous, id, n + 1, owner[id := n]) else Led(gs, previous, id, n + 1, owner)
  {
    LeaderLeads(gs, previous, id, n);
  }

  method FindOwners(gs: seq<Group>, previous: Previous, votes: seq<map<Id, nat>>) returns (owner: map<Id, nat>)
    requires |votes| == |gs| && forall i :: 0 <= i < |gs| ==> Tallied(previous, gs[i].members, votes[i])
    ensures Owned(gs, previous, owner)
  {
    owner := map[];
    assert forall id :: Led(gs, previous, id, 0, owner);
    hide Led, Votes, Leader;
    for i := 0 to |gs|
      invariant forall id :: Led(gs, previous, id, i, owner)
    {
      var left := votes[i].Keys;
      assert Tallied(previous, gs[i].members, votes[i]);
      forall id | id !in left ensures Led(gs, previous, id, i + 1, owner) { LedNext(gs, previous, id, i, owner); }
      while left != {}
        invariant left <= votes[i].Keys
        invariant forall id ::
          if id in left then Led(gs, previous, id, i, owner) else Led(gs, previous, id, i + 1, owner)
      {
        var id :| id in left;
        var n := votes[i][id];
        LedNext(gs, previous, id, i, owner);
        ghost var was := owner;
        if id in owner {
          assert Tallied(previous, gs[owner[id]].members, votes[owner[id]]);
        }
        if id !in owner || n > votes[owner[id]][id] || (n == votes[owner[id]][id] && |gs[i].members| > |gs[owner[id]].members|) { owner := owner[id := i]; }
        forall c | c != id ensures if c in left then Led(gs, previous, c, i, owner) else Led(gs, previous, c, i + 1, owner) {
          LedElsewhere(gs, previous, c, if c in left then i else i + 1, was, owner);
        }
        left := left - {id};
      }
    }
  }

  lemma LedElsewhere(gs: seq<Group>, previous: Previous, c: Id, n: nat, was: map<Id, nat>, owner: map<Id, nat>)
    requires n <= |gs| && Led(gs, previous, c, n, was) && (c in owner <==> c in was) &&
      (c in owner ==> owner[c] == was[c])
    ensures Led(gs, previous, c, n, owner)
  {
  }

  /** The choice of the id a group keeps: most votes, then the smallest id. */
  method Choose(gs: seq<Group>, previous: Previous, recluster: bool, i: nat, votes: map<Id, nat>,
    owner: map<Id, nat>) returns (best: Id)
    requires i < |gs| && Tallied(previous, gs[i].members, votes)
    requires Owned(gs, previous, owner)
    ensures best == BestOf(gs, previous, recluster, i)
  {
    hide Leader, Front, Led, Votes, Eligible;
    best := 0;
    FrontNone(gs, previous, recluster, i);
    var most, left := 0, votes.Keys;
    assert votes.Keys - left == {};
    while left != {}
      invariant left <= votes.Keys
      invariant Front(gs, previous, recluster, i, votes.Keys - left, best, most)
    {
      var id :| id in left;
      var n := votes[id];
      OwnerKnown(gs, previous, id, i, owner);
      FrontNext(gs, previous, recluster, i, votes.Keys - left, best, most, id);
      assert votes.Keys - left + {id} == votes.Keys - (left - {id});
      left := left - {id};
      if !recluster || (id in owner && owner[id] == i) {
        if n > most || (n == most && id < best) { best, most := id, n; }
      }
    }
    assert votes.Keys - left == votes.Keys;
    FrontIsBest(gs, previous, recluster, i, votes.Keys, best, most);
  }

  /** `best` leads the eligible ids among those already looked at. */
  ghost predicate Front(gs: seq<Group>, previous: Previous, recluster: bool, i: nat, looked: set<Id>, best: Id, most: nat)
    requires i < |gs|
  {
    && (most == 0 ==> best == 0 && forall c :: c in looked ==> !Eligible(gs, previous, recluster, i, c))
    && (most > 0 ==> Eligible(gs, previous, recluster, i, best) && most == Votes(previous, gs[i].members, best))
    && forall c :: c in looked && Eligible(gs, previous, recluster, i, c) ==>
      most > Votes(previous, gs[i].members, c) || (most == Votes(previous, gs[i].members, c) && best <= c)
  }

  lemma OwnerKnown(gs: seq<Group>, previous: Previous, id: Id, i: nat, owner: map<Id, nat>)
    requires i < |gs| && Led(gs, previous, id, |gs|, owner)
    ensures id in owner && owner[id] == i <==> IsOwner(gs, previous, id, i)
    ensures forall recluster :: Eligible(gs, previous, recluster, i, id) <==>
      Votes(previous, gs[i].members, id) > 0 && (!recluster || (id in owner && owner[id] == i))
  {
    LeaderOwns(gs, previous, id, i);
  }

  lemma FrontNone(gs: seq<Group>, previous: Previous, recluster: bool, i: nat)
    requires i < |gs|
    ensures Front(gs, previous, recluster, i, {}, 0, 0)
  {
  }

  lemma FrontNext(gs: seq<Group>, previous: Previous, recluster: bool, i: nat, looked: set<Id>, best: Id, most: nat, id: Id)
    requires i < |gs| && Front(gs, previous, recluster, i, looked, best, most)
    ensures var n := Votes(previous, gs[i].members, id);
      if Eligible(gs, previous, recluster, i, id) && (n > most || (n == most && id < best))
      then Front(gs, previous, recluster, i, looked + {id}, id, n)
      else Front(gs, previous, recluster, i, looked + {id}, best, most)
  {
  }

  lemma FrontIsBest(gs: seq<Group>, previous: Previous, recluster: bool, i: nat, looked: set<Id>, best: Id, most: nat)
    requires i < |gs| && Front(gs, previous, recluster, i, looked, best, most)
    requires forall id :: id in looked <==> Votes(previous, gs[i].members, id) > 0
    ensures best == BestOf(gs, previous, recluster, i)
  {
    if most > 0 {
      assert IsBest(gs, previous, recluster, i, best);
      var b := BestOf(gs, previous, recluster, i);
      assert IsBest(gs, previous, recluster, i, b);
    } else {
      forall id ensures !IsBest(gs, previous, recluster, i, id) {}
    }
  }

  method CheckStores(b: Bundle, counts: map<StoreCode, nat>, maxDrop: real) returns (r: Result<(), Failure>)
    ensures var checked := StoreChecks(b, counts, maxDrop, |STORES|);
      r == if checked.Err? then checked else if CountsMatch(b) then Ok(()) else Err(SourceCountMismatch)
  {
    hide TooFew;
    var perStore: map<StoreCode, nat> := map[0 := 0, 1 := 0, 2 := 0];
    for i := 0 to |b.raws|
      invariant 0 in perStore && 1 in perStore && 2 in perStore
      invariant forall s ::
        if s in perStore then perStore[s] == InStore(b.raws[..i], s) else InStore(b.raws[..i], s) == 0
    {
      var s := b.raws[i].store;
      assert b.raws[..i + 1][..i] == b.raws[..i];
      perStore := perStore[s := (if s in perStore then perStore[s] else 0) + 1];
    }
    assert b.raws[..|b.raws|] == b.raws;
    for i := 0 to |STORES|
      invariant StoreChecks(b, counts, maxDrop, i).Ok?
    {
      var s := STORES[i];
      if perStore[s] == 0 { FirstFailure(b, counts, maxDrop, i + 1); return Err(RequiredSourceMissing); }
      if TooFew(Before(counts, s), perStore[s], maxDrop) { FirstFailure(b, counts, maxDrop, i + 1); return Err(StoreCountDrop); }
    }
    for i := 0 to |b.sources|
      invariant forall j :: 0 <= j < i && b.sources[j].productCount.Some? ==>
        b.sources[j].productCount.value == InStore(b.raws, b.sources[j].store)
    {
      var s := b.sources[i];
      if s.productCount.Some? && s.productCount.value != (if s.store in perStore then perStore[s.store] else 0) { return Err(SourceCountMismatch); }
    }
    r := Ok(());
  }

  lemma {:induction false} FirstFailure(b: Bundle, counts: map<StoreCode, nat>, maxDrop: real, n: nat)
    requires n <= |STORES| && StoreChecks(b, counts, maxDrop, n).Err?
    ensures StoreChecks(b, counts, maxDrop, |STORES|) == StoreChecks(b, counts, maxDrop, n)
    decreases |STORES| - n
  {
  }

  lemma {:induction false} TurnsFail(gs: seq<Group>, previous: Previous, categories: set<Text>, recluster: bool,
    random: nat -> Option<Id>, n: nat)
    requires n <= |gs| && Turns(gs, previous, categories, recluster, random, n).Err?
    ensures Turns(gs, previous, categories, recluster, random, |gs|) == Turns(gs, previous, categories, recluster, random, n)
    decreases |gs| - n
  {
    if n < |gs| {
      assert Turns(gs, previous, categories, recluster, random, n + 1) == Turns(gs, previous, categories, recluster, random, n);
      TurnsFail(gs, previous, categories, recluster, random, n + 1);
    }
  }

  /** The number of chains of a group. */
  method CountChains(ms: seq<Member>) returns (two: bool)
    ensures two == TwoStores(ms)
  {
    var chains: set<StoreCode> := {};
    for i := 0 to |ms|
      invariant chains == set m | m in ms[..i] :: m.raw.store
    {
      assert ms[..i + 1] == ms[..i] + [ms[i]];
      chains := chains + {ms[i].raw.store};
    }
    assert ms[..|ms|] == ms;
    two := |chains| >= 2;
    ChainsCounted(ms, chains);
  }

  lemma ChainsCounted(ms: seq<Member>, chains: set<StoreCode>)
    requires chains == set m | m in ms :: m.raw.store
    ensures |chains| >= 2 <==> TwoStores(ms)
  {
    AtLeastTwo(chains);
    if a, b :| a in chains && b in chains && a != b {
      var i :| 0 <= i < |ms| && ms[i].raw.store == a;
      var j :| 0 <= j < |ms| && ms[j].raw.store == b;
      assert i < j || j < i;
    }
    if TwoStores(ms) {
      var i, j :| 0 <= i < j < |ms| && ms[i].raw.store != ms[j].raw.store;
      assert ms[i] in ms && ms[j] in ms;
      assert ms[i].raw.store in chains && ms[j].raw.store in chains;
    }
  }

  lemma TallyMeans(previous: Previous, g: Group, votes: map<Id, nat>)
    requires Tallied(previous, g.members, votes)
    ensures |votes| > 1 <==> Merges(previous, g)
    ensures |votes| > 0 <==> Known(previous, g)
  {
    AtLeastTwo(votes.Keys);
    assert |votes| == |votes.Keys|;
    if |votes| > 0 { var a :| a in votes; }
    if Known(previous, g) {
      var a :| Votes(previous, g.members, a) > 0;
      assert a in votes;
    }
    assert |votes| > 1 ==> Merges(previous, g);
    if Merges(previous, g) {
      var a, b :| a != b && Votes(previous, g.members, a) > 0 && Votes(previous, g.members, b) > 0;
      assert a in votes.Keys && b in votes.Keys;
    }
  }

  /** The body of the main loop. */
  method Place(gs: seq<Group>, previous: Previous, categories: set<Text>, recluster: bool, random: Option<Id>,
    p: Progress, i: nat, votes: map<Id, nat>, owner: map<Id, nat>)
    returns (r: Result<Progress, Failure>)
    requires i < |gs| && Tallied(previous, gs[i].members, votes) && Owned(gs, previous, owner)
    ensures r == Turn(gs, previous, categories, recluster, random, p, i)
  {
    hide BestOf, TwoStores, Merges, Known, Owned, Tallied, Votes, Leader;
    var g, counts := gs[i], p.report;
    if g.category !in categories { return Err(UnknownCategory); }
    var two := CountChains(g.members);
    TallyMeans(previous, g, votes);
    if |votes| > 1 && !recluster { return Err(MergeConflict); }
    var best := Choose(gs, previous, recluster, i, votes, owner);
    var matched, images := counts.matched + (if two then 1 else 0), counts.images + (if g.image then 1 else 0);
    var merged := counts.merged + (if |votes| > 1 then 1 else 0);
    if best != 0 {
      if best in p.used { return Err(SplitConflict); }
      var report := Report(matched, images, merged, counts.split, counts.reused + 1, counts.created);
      return Ok(Progress(p.out + [Resolved(g, best, true)], p.used + {best}, report));
    }
    var split := counts.split + (if |votes| > 0 then 1 else 0);
    if random.None? { return Err(IdentityGeneration); }
    var report := Report(matched, images, merged, split, counts.reused, counts.created + 1);
    r := Ok(Progress(p.out + [Resolved(g, random.value, false)], p.used, report));
  }

  /** resolve: the outcome does not depend on the order in which any map is visited. */
  method ResolveBundle(b: Bundle, previous: Previous, counts: map<StoreCode, nat>, categories: set<Text>,
    maxDrop: real, recluster: bool, random: nat -> Option<Id>)
    returns (r: Result<Progress, Failure>)
    ensures r == Resolution(b, previous, counts, categories, maxDrop, recluster, random)
  {
    hide StoreChecks, CountsMatch, Turn, Owned, Tallied;
    var stores := CheckStores(b, counts, maxDrop);
    if stores.Err? { return Err(stores.error); }
    var gs := b.groups;
    var votes: seq<map<Id, nat>> := [];
    for i := 0 to |gs|
      invariant |votes| == i && forall j :: 0 <= j < i ==> Tallied(previous, gs[j].members, votes[j])
    {
      var v := CountVotes(previous, gs[i].members);
      votes := votes + [v];
    }
    var owner := FindOwners(gs, previous, votes);
    var p := Progress([], {}, Report(0, 0, 0, 0, 0, 0));
    for i := 0 to |gs|
      invariant Turns(gs, previous, categories, recluster, random, i) == Ok(p)
    {
      var next := Place(gs, previous, categories, recluster, random(i), p, i, votes[i], owner);
      assert next == Turns(gs, previous, categories, recluster, random, i + 1);
      if next.Err? { TurnsFail(gs, previous, categories, recluster, random, i + 1); return next; }
      p := next.value;
    }
    r := Ok(p);
  }
}
