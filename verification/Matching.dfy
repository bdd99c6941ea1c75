/** Matching one block with the help of a language model (pipeline/src/agent/match.ts). */
module Matching {
  import opened Outcomes
  import opened Bundles
  import opened Clusters
  import opened Counting

  type Similarity = (Product, Product) -> real

  function Insert(similar: Similarity, anchor: Product, x: Product, s: seq<Product>): (r: seq<Product>)
    ensures multiset(r) == multiset(s) + multiset{x}
  {
    if s == [] || similar(anchor, x) >= similar(anchor, s[0]) then [x] + s else
      assert s == [s[0]] + s[1..];
      [s[0]] + Insert(similar, anchor, x, s[1..])
  }

  /** The stable sort, most similar to the anchor first. */
  function Ranked(similar: Similarity, anchor: Product, s: seq<Product>): (r: seq<Product>)
    ensures multiset(r) == multiset(s)
  {
    if s == [] then [] else
      assert s == [s[0]] + s[1..];
      Insert(similar, anchor, s[0], Ranked(similar, anchor, s[1..]))
  }

  ghost predicate Descends(similar: Similarity, anchor: Product, s: seq<Product>) {
    forall i, j :: 0 <= i < j < |s| ==> similar(anchor, s[i]) >= similar(anchor, s[j])
  }

  lemma {:induction false} InsertDescends(similar: Similarity, anchor: Product, x: Product, s: seq<Product>)
    requires Descends(similar, anchor, s)
    ensures Descends(similar, anchor, Insert(similar, anchor, x, s))
  {
    if s != [] && similar(anchor, x) < similar(anchor, s[0]) {
      var rest := Insert(similar, anchor, x, s[1..]);
      InsertDescends(similar, anchor, x, s[1..]);
      forall j | 0 <= j < |rest| ensures similar(anchor, s[0]) >= similar(anchor, rest[j]) {
        assert rest[j] in multiset(rest);
        if rest[j] != x {
          assert rest[j] in multiset(s[1..]);
          var i :| 0 <= i < |s[1..]| && s[1..][i] == rest[j];
          assert s[0] == s[0] && s[i + 1] == rest[j];
        }
      }
    }
  }

  lemma {:induction false} RankedDescends(similar: Similarity, anchor: Product, s: seq<Product>)
    ensures Descends(similar, anchor, Ranked(similar, anchor, s))
  {
    if s != [] {
      RankedDescends(similar, anchor, s[1..]);
      InsertDescends(similar, anchor, s[0], Ranked(similar, anchor, s[1..]));
    }
  }

  /** One product a store, all of the anchor's shape. */
  ghost predicate Guarded(ms: seq<Product>) {
    && (forall i, j :: 0 <= i < j < |ms| ==> ms[i].raw.store != ms[j].raw.store)
    && forall i :: 0 <= i < |ms| ==> ms[i].shape == ms[0].shape
  }

  /** Where two products of one store compete, the one more similar to the anchor is kept. */
  ghost predicate Winners(similar: Similarity, anchor: Product, kept: seq<Product>, seen: seq<Product>) {
    forall m :: m in seen && m.shape == anchor.shape ==>
      exists k :: k in kept && k.raw.store == m.raw.store && (k == anchor || similar(anchor, k) >= similar(anchor, m))
  }

  predicate Taken(kept: seq<Product>, store: StoreCode) { exists k :: k in kept && k.raw.store == store }

  lemma KeepNext(similar: Similarity, anchor: Product, kept: seq<Product>, seen: seq<Product>, m: Product)
    requires kept != [] && kept[0] == anchor && Guarded(kept) && Winners(similar, anchor, kept, seen)
    requires forall k :: k in kept ==> k == anchor || similar(anchor, k) >= similar(anchor, m)
    ensures m.shape == anchor.shape && !Taken(kept, m.raw.store) ==>
      Guarded(kept + [m]) && Winners(similar, anchor, kept + [m], seen + [m])
    ensures m.shape != anchor.shape || Taken(kept, m.raw.store) ==> Winners(similar, anchor, kept, seen + [m])
  {
  }

  /** Whether the guards turn a ranked member away. */
  predicate Ejects(anchor: Product, kept: seq<Product>, m: Product) { m.shape != anchor.shape || Taken(kept, m.raw.store) }

  function Kept(anchor: Product, ranked: seq<Product>): seq<Product> {
    if ranked == [] then [anchor] else
      var kept, m := Kept(anchor, ranked[..|ranked| - 1]), ranked[|ranked| - 1];
      if Ejects(anchor, kept, m) then kept else kept + [m]
  }

  function Ejected(anchor: Product, ranked: seq<Product>): seq<Product> {
    if ranked == [] then [] else
      var init, m := ranked[..|ranked| - 1], ranked[|ranked| - 1];
      Ejected(anchor, init) + if Ejects(anchor, Kept(anchor, init), m) then [m] else []
  }

  lemma {:induction false} KeptAmong(anchor: Product, ranked: seq<Product>)
    ensures forall k :: k in Kept(anchor, ranked) ==> k == anchor || k in ranked
  {
    if ranked != [] {
      KeptAmong(anchor, ranked[..|ranked| - 1]);
      assert ranked == ranked[..|ranked| - 1] + [ranked[|ranked| - 1]];
    }
  }

  lemma KeptBefore(similar: Similarity, anchor: Product, ranked: seq<Product>, n: nat)
    requires Descends(similar, anchor, ranked) && n < |ranked|
    ensures forall k :: k in Kept(anchor, ranked[..n]) ==>
      k == anchor || similar(anchor, k) >= similar(anchor, ranked[n])
  {
    KeptAmong(anchor, ranked[..n]);
    forall k | k in ranked[..n] ensures similar(anchor, k) >= similar(anchor, ranked[n]) {
      var i :| 0 <= i < n && ranked[i] == k;
    }
  }

  /** What holds of the two lists once the products `seen` have been looked at. */
  ghost predicate Sifted(similar: Similarity, anchor: Product, kept: seq<Product>, ejected: seq<Product>, seen: seq<Product>) {
    && multiset(kept + ejected) == multiset(seen)
    && kept != [] && kept[0] == anchor && Guarded(kept) && Winners(similar, anchor, kept, seen)
  }

  lemma SiftedNext(similar: Similarity, anchor: Product, kept: seq<Product>, ejected: seq<Product>, seen: seq<Product>, m: Product)
    requires Sifted(similar, anchor, kept, ejected, seen)
    requires forall k :: k in kept ==> k == anchor || similar(anchor, k) >= similar(anchor, m)
    ensures if Ejects(anchor, kept, m) then Sifted(similar, anchor, kept, ejected + [m], seen + [m])
      else Sifted(similar, anchor, kept + [m], ejected, seen + [m])
  {
    hide Guarded, Winners;
    KeepNext(similar, anchor, kept, seen, m);
    Shuffle(kept, ejected, seen, m);
  }

  lemma {:induction false} KeptMeans(similar: Similarity, anchor: Product, ranked: seq<Product>)
    requires Descends(similar, anchor, ranked)
    ensures Sifted(similar, anchor, Kept(anchor, ranked), Ejected(anchor, ranked), [anchor] + ranked)
  {
    hide Sifted, Ejects, Descends;
    if ranked == [] {
      assert [anchor] + ranked == [anchor];
      SiftedFirst(similar, anchor);
    } else {
      var n := |ranked| - 1;
      var init, m := ranked[..n], ranked[n];
      DescendsBefore(similar, anchor, ranked, n);
      KeptMeans(similar, anchor, init);
      KeptBefore(similar, anchor, ranked, n);
      SiftedNext(similar, anchor, Kept(anchor, init), Ejected(anchor, init), [anchor] + init, m);
      assert [anchor] + init + [m] == [anchor] + ranked;
      assert Ejected(anchor, init) + [] == Ejected(anchor, init);
    }
  }

  lemma SiftedFirst(similar: Similarity, anchor: Product)
    ensures Sifted(similar, anchor, [anchor], [], [anchor])
  {
    KeepFirst(similar, anchor);
    assert [anchor] + [] == [anchor];
  }

  lemma DescendsBefore(similar: Similarity, anchor: Product, ranked: seq<Product>, n: nat)
    requires Descends(similar, anchor, ranked) && n <= |ranked|
    ensures Descends(similar, anchor, ranked[..n])
  {
  }

  /** The loop over the ranked members. */
  method Sift(anchor: Product, ranked: seq<Product>) returns (kept: seq<Product>, ejected: seq<Product>)
    ensures kept == Kept(anchor, ranked) && ejected == Ejected(anchor, ranked)
  {
    kept, ejected := [anchor], [];
    for n := 0 to |ranked|
      invariant kept == Kept(anchor, ranked[..n]) && ejected == Ejected(anchor, ranked[..n])
    {
      var m := ranked[n];
      assert ranked[..n + 1][..n] == ranked[..n];
      if m.shape != anchor.shape || Taken(kept, m.raw.store) { ejected := ejected + [m]; } else { kept := kept + [m]; }
    }
    assert ranked[..|ranked|] == ranked;
  }

  lemma Shuffle(kept: seq<Product>, ejected: seq<Product>, seen: seq<Product>, m: Product)
    requires multiset(kept + ejected) == multiset(seen)
    ensures multiset((kept + [m]) + ejected) == multiset(seen + [m])
    ensures multiset(kept + (ejected + [m])) == multiset(seen + [m])
  {
  }

  lemma KeepFirst(similar: Similarity, anchor: Product)
    ensures Guarded([anchor]) && Winners(similar, anchor, [anchor], [anchor])
  {
  }

  function Guards(cluster: Cluster, similar: Similarity): seq<Cluster>
    requires cluster.members != []
  {
    if |cluster.members| < 2 then [cluster] else
      var anchor, ranked := cluster.members[0], Ranked(similar, cluster.members[0], cluster.members[1..]);
      [cluster.(members := Kept(anchor, ranked))] + Singles(Ejected(anchor, ranked))
  }

  method ApplyGuards(cluster: Cluster, similar: Similarity) returns (out: seq<Cluster>)
    requires cluster.members != []
    ensures out == Guards(cluster, similar)
  {
    if |cluster.members| < 2 { return [cluster]; }
    var anchor, others := cluster.members[0], cluster.members[1..];
    var kept, ejected := Sift(anchor, Ranked(similar, anchor, others));
    out := [cluster.(members := kept)] + Singles(ejected);
  }

  /** Nothing is lost, the kept group is led by the anchor, is guarded and keeps its verdict, the
      most similar product of each store wins, and what is ejected becomes single again. */
  lemma GuardsMean(cluster: Cluster, similar: Similarity)
    requires cluster.members != []
    ensures var out := Guards(cluster, similar);
      && out != [] && multiset(All(out)) == multiset(cluster.members)
      && out[0] == cluster.(members := out[0].members) && out[0].members != [] &&
        out[0].members[0] == cluster.members[0]
      && Guarded(out[0].members) && Winners(similar, cluster.members[0], out[0].members, cluster.members)
      && forall i :: 1 <= i < |out| ==> IsSingle(out[i])
  {
    hide Guarded, Ranked, All, Winners, Descends, Singles, Kept, Ejected;
    var anchor, others := cluster.members[0], cluster.members[1..];
    assert cluster.members == [anchor] + others;
    if |cluster.members| < 2 {
      OneCluster(cluster);
      KeepFirst(similar, anchor);
      assert cluster.members == [anchor];
    } else {
      RankedDescends(similar, anchor, others);
      var ranked := Ranked(similar, anchor, others);
      KeptMeans(similar, anchor, ranked);
      Assemble(cluster.(members := Kept(anchor, ranked)), Ejected(anchor, ranked));
      Prefixed(anchor, ranked, others);
      WinnersPermuted(similar, anchor, Kept(anchor, ranked), [anchor] + ranked, cluster.members);
    }
  }

  /** A group that is guarded already stays whole. */
  lemma GuardedStays(cluster: Cluster, similar: Similarity)
    requires cluster.members != [] && Guarded(cluster.members)
    ensures |Guards(cluster, similar)| == 1 &&
      multiset(Guards(cluster, similar)[0].members) == multiset(cluster.members)
  {
    GuardsMean(cluster, similar);
    hide Guards, All;
    var out, ms := Guards(cluster, similar), cluster.members;
    AllFirst(out);
    if |out| == 1 {
      assert out[1..] == [] && All([]) == [] by { NoClusters(); }
    } else {
      AllFirst(out[1..]);
      var e := out[1..][0].members[0];
      assert e in ms by { assert e in multiset(All(out)); }
      var k :| k in out[0].members && k.raw.store == e.raw.store;
      assert k in ms by { assert k in multiset(All(out)); }
      Counted(ms, e);
      assert false;
    }
  }

  lemma AllFirst(cs: seq<Cluster>)
    requires cs != []
    ensures All(cs) == cs[0].members + All(cs[1..])
  {
    OneCluster(cs[0]);
    AllAppend([cs[0]], cs[1..]);
    assert cs == [cs[0]] + cs[1..];
  }

  lemma NoClusters()
    ensures All([]) == []
  {
  }

  predicate IsSingle(c: Cluster) { |c.members| == 1 && c == Single(c.members[0]) }

  lemma Assemble(c: Cluster, ejected: seq<Product>)
    ensures All([c] + Singles(ejected)) == c.members + ejected
    ensures forall i :: 1 <= i < |[c] + Singles(ejected)| ==> IsSingle(([c] + Singles(ejected))[i])
  {
    hide All, Singles;
    OneCluster(c);
    AllAppend([c], Singles(ejected));
    SinglesAll(ejected);
    var singles := Singles(ejected);
    forall i | 1 <= i < |[c] + singles| ensures IsSingle(([c] + singles)[i]) {
      assert singles[i - 1] in singles;
    }
  }

  lemma Prefixed(anchor: Product, a: seq<Product>, b: seq<Product>)
    requires multiset(a) == multiset(b)
    ensures multiset([anchor] + a) == multiset([anchor] + b)
  {
  }

  lemma WinnersPermuted(similar: Similarity, anchor: Product, kept: seq<Product>, a: seq<Product>, b: seq<Product>)
    requires Winners(similar, anchor, kept, a) && multiset(a) == multiset(b)
    ensures Winners(similar, anchor, kept, b)
  {
    forall m | m in b ensures m in a { assert m in multiset(b); }
  }

  lemma OneCluster(c: Cluster)
    ensures All([c]) == c.members
  {
  }

  // ----- one block -----

  /** A parsed answer of the model; confidences are between 0 and 1 by its schema. */
  datatype Suggestion = Suggestion(ids: seq<Identity>, confidence: real)
  type Reply = seq<Suggestion>

  /** Every member lies in one group, and groups of several are guarded and confident enough. */
  ghost predicate Matched(c: Cluster) {
    && c.members != [] && !c.matchedBy.OtherMethod? && 0.0 <= c.confidence <= 1.0
    && (|c.members| > 1 ==>
      Guarded(c.members) && c.matchedBy == Ai && c.confidence >= 0.8 &&
      c.review == if c.confidence >= 0.95 then Approved else Pending)
    && (c.review == Approved || c.review == Pending)
  }

  predicate InBlock(block: seq<Product>, id: Identity) { exists p :: p in block && p.Key() == id }

  /** The lookup by id; later entries win. */
  function ById(block: seq<Product>, id: Identity): (p: Product)
    requires InBlock(block, id)
    ensures p in block && p.Key() == id
  {
    var last := block[|block| - 1];
    if last.Key() == id then last else
      assert exists p :: p in block[..|block| - 1] && p.Key() == id by {
        var p :| p in block && p.Key() == id;
        assert block == block[..|block| - 1] + [last];
      }
      ById(block[..|block| - 1], id)
  }

  /** The products a suggestion selects: those of the block that no earlier one used. */
  function Select(block: seq<Product>, used: set<Identity>, ids: seq<Identity>): seq<Product> {
    if ids == [] then [] else
      var id := ids[|ids| - 1];
      Select(block, used, ids[..|ids| - 1]) + if InBlock(block, id) && id !in used then [ById(block, id)] else []
  }

  predicate Wanted(block: seq<Product>, used: set<Identity>, id: Identity) { InBlock(block, id) && id !in used }

  /** A suggestion lists a product it selects twice. */
  ghost predicate ListsTwice(block: seq<Product>, used: set<Identity>, ids: seq<Identity>) {
    exists i, j :: 0 <= i < j < |ids| && ids[i] == ids[j] && Wanted(block, used, ids[i])
  }

  ghost predicate NoTwice(s: seq<Product>) { forall i, j :: 0 <= i < j < |s| ==> s[i] != s[j] }

  lemma {:induction false} Counted(s: seq<Product>, p: Product)
    ensures NoTwice(s) ==> multiset(s)[p] == if p in s then 1 else 0
  {
    if s != [] {
      Counted(s[1..], p);
      assert s == [s[0]] + s[1..];
    }
  }

  /** Listing the same products, one list without repetition: the other is a permutation of it
      exactly when it repeats nothing either. */
  lemma Permutes(s: seq<Product>, block: seq<Product>)
    requires NoTwice(block) && forall p :: p in s <==> p in block
    ensures multiset(s) == multiset(block) <==> NoTwice(s)
  {
    forall p ensures NoTwice(s) ==> multiset(s)[p] == multiset(block)[p] {
      Counted(s, p);
      Counted(block, p);
    }
    if !NoTwice(s) {
      var i, j :| 0 <= i < j < |s| && s[i] == s[j];
      Counted(block, s[i]);
      assert s == s[..j] + [s[j]] + s[j + 1..] && s[i] in s[..j];
      assert s[i] in multiset(s[..j]);
      assert multiset(s)[s[i]] >= 2;
    }
  }

  lemma DistinctMeansEqual(block: seq<Product>, p: Product, q: Product)
    requires DistinctProducts(block) && p in block && q in block && p.Key() == q.Key()
    ensures p == q
  {
  }

  lemma {:induction false} SelectMembers(block: seq<Product>, used: set<Identity>, ids: seq<Identity>)
    requires DistinctProducts(block)
    ensures forall p :: p in Select(block, used, ids) <==> p in block && p.Key() in ids && p.Key() !in used
  {
    if ids != [] {
      var init, id := ids[..|ids| - 1], ids[|ids| - 1];
      SelectMembers(block, used, init);
      assert ids == init + [id];
      forall p | p in block && Wanted(block, used, id) && p.Key() == id ensures p == ById(block, id) {
        DistinctMeansEqual(block, p, ById(block, id));
      }
    }
  }

  lemma {:induction false} SelectTwice(block: seq<Product>, used: set<Identity>, ids: seq<Identity>)
    requires DistinctProducts(block)
    ensures NoTwice(Select(block, used, ids)) <==> !ListsTwice(block, used, ids)
  {
    if ids != [] {
      var init, id := ids[..|ids| - 1], ids[|ids| - 1];
      SelectTwice(block, used, init);
      SelectMembers(block, used, init);
      assert ids == init + [id];
      ListsNext(block, used, init, id);
      hide ListsTwice, NoTwice, DistinctProducts;
      var s := Select(block, used, init);
      if Wanted(block, used, id) {
        assert ById(block, id) in s <==> id in init;
        OnceMore(s, ById(block, id));
      } else {
        assert Select(block, used, ids) == s + [] == s;
      }
    }
  }

  lemma OnceMore(s: seq<Product>, q: Product)
    ensures NoTwice(s + [q]) <==> NoTwice(s) && q !in s
  {
    var t := s + [q];
    if NoTwice(t) {
      forall i | 0 <= i < |s| ensures s[i] != q { assert t[i] != t[|s|]; }
      forall i, j | 0 <= i < j < |s| ensures s[i] != s[j] { assert t[i] != t[j]; }
    }
  }

  lemma ListsNext(block: seq<Product>, used: set<Identity>, init: seq<Identity>, id: Identity)
    ensures ListsTwice(block, used, init + [id]) <==>
      ListsTwice(block, used, init) || (Wanted(block, used, id) && id in init)
  {
    var ids := init + [id];
    if ListsTwice(block, used, init) {
      var i, j :| 0 <= i < j < |init| && init[i] == init[j] && Wanted(block, used, init[i]);
      assert ids[i] == ids[j] && Wanted(block, used, ids[i]);
    }
    if Wanted(block, used, id) && id in init {
      var i :| 0 <= i < |init| && init[i] == id;
      assert ids[i] == ids[|init|] && Wanted(block, used, ids[i]);
    }
  }

  /** The products of the block that the first suggestions use. */
  function Used(block: seq<Product>, reply: Reply): set<Identity> {
    if reply == [] then {} else
      Used(block, reply[..|reply| - 1]) + set p | p in block && p.Key() in reply[|reply| - 1].ids :: p.Key()
  }

  /** What all suggestions select, one after the other. */
  function Selected(block: seq<Product>, reply: Reply): seq<Product> {
    if reply == [] then [] else
      Selected(block, reply[..|reply| - 1]) + Select(block, Used(block, reply[..|reply| - 1]), reply[|reply| - 1].ids)
  }

  /** Some suggestion lists a product of the block twice that no earlier suggestion mentions. */
  ghost predicate Repeats(block: seq<Product>, reply: Reply) {
    exists n :: 0 <= n < |reply| && ListsTwice(block, Used(block, reply[..n]), reply[n].ids)
  }

  lemma {:induction false} SelectedMeans(block: seq<Product>, reply: Reply)
    requires DistinctProducts(block)
    ensures forall p :: p in Selected(block, reply) <==> p in block && p.Key() in Used(block, reply)
    ensures NoTwice(Selected(block, reply)) <==> !Repeats(block, reply)
  {
    hide ListsTwice, Select, NoTwice, DistinctProducts;
    if reply == [] {
      NoneTwice();
    } else {
      var init, last := reply[..|reply| - 1], reply[|reply| - 1];
      var used := Used(block, init);
      SelectedMeans(block, init);
      SelectMembers(block, used, last.ids);
      SelectTwice(block, used, last.ids);
      RepeatsNext(block, init, last);
      assert reply == init + [last];
      Apart(Selected(block, init), Select(block, used, last.ids));
    }
  }

  lemma NoneTwice()
    ensures NoTwice([])
  {
  }

  lemma Apart(a: seq<Product>, b: seq<Product>)
    requires forall p :: p in a ==> p !in b
    ensures NoTwice(a + b) <==> NoTwice(a) && NoTwice(b)
  {
    var t := a + b;
    if NoTwice(t) {
      forall i, j | 0 <= i < j < |a| ensures a[i] != a[j] { assert t[i] != t[j]; }
      forall i, j | 0 <= i < j < |b| ensures b[i] != b[j] { assert t[|a| + i] != t[|a| + j]; }
    }
    if NoTwice(a) && NoTwice(b) {
      forall i, j | 0 <= i < j < |t| ensures t[i] != t[j] {
        if i < |a| <= j { assert t[i] in a && t[j] in b; }
      }
    }
  }

  lemma RepeatsNext(block: seq<Product>, init: Reply, last: Suggestion)
    ensures Repeats(block, init + [last]) <==>
      Repeats(block, init) || ListsTwice(block, Used(block, init), last.ids)
  {
    var reply := init + [last];
    forall n | 0 <= n < |init| ensures reply[..n] == init[..n] && reply[n] == init[n] {}
    assert reply[..|init|] == init && reply[|init|] == last;
  }

  /** The clusters one suggestion turns into. */
  function Settled(members: seq<Product>, confidence: real, similar: Similarity): seq<Cluster>
    requires members != []
  {
    if |members| == 1 || confidence < 0.8 then Singles(members)
    else Guards(Cluster(members, Ai, confidence, if confidence >= 0.95 then Approved else Pending), similar)
  }

  method Settle(members: seq<Product>, confidence: real, similar: Similarity) returns (out: seq<Cluster>)
    requires members != []
    ensures out == Settled(members, confidence, similar)
  {
    if |members| == 1 || confidence < 0.8 { return Singles(members); }
    out := ApplyGuards(Cluster(members, Ai, confidence, if confidence >= 0.95 then Approved else Pending), similar);
  }

  lemma SettledMeans(members: seq<Product>, confidence: real, similar: Similarity)
    requires members != [] && 0.0 <= confidence <= 1.0
    ensures var out := Settled(members, confidence, similar);
      multiset(All(out)) == multiset(members) && forall c :: c in out ==> Matched(c)
  {
    hide All, Guarded, Winners, Guards;
    var out := Settled(members, confidence, similar);
    if |members| == 1 || confidence < 0.8 {
      SinglesMatched(members);
    } else {
      GuardsMean(Cluster(members, Ai, confidence, if confidence >= 0.95 then Approved else Pending), similar);
      assert forall c :: c in out ==> c == out[0] || IsSingle(c);
    }
  }

  predicate OneStore(block: seq<Product>) { forall i, j :: 0 <= i < j < |block| ==> block[i].raw.store == block[j].raw.store }

  predicate InRange(reply: Reply) { forall s :: s in reply ==> 0.0 <= s.confidence <= 1.0 }

  /** What the model's answers amount to: the first usable one of two. */
  function Chosen(first: Option<Reply>, second: Option<Reply>): Option<Reply> { if first.Some? then first else second }

  /** The clusters that the suggestions turn into, one after the other. */
  function Suggested(block: seq<Product>, reply: Reply, similar: Similarity): seq<Cluster> {
    if reply == [] then [] else
      var init, last := reply[..|reply| - 1], reply[|reply| - 1];
      var members := Select(block, Used(block, init), last.ids);
      Suggested(block, init, similar) + if members == [] then [] else Settled(members, last.confidence, similar)
  }

  /** The products that no suggestion used, in order. */
  function Unused(block: seq<Product>, used: set<Identity>): seq<Product> {
    if block == [] then [] else
      Unused(block[..|block| - 1], used) + if block[|block| - 1].Key() in used then [] else [block[|block| - 1]]
  }

  function MatchedBlock(block: seq<Product>, first: Option<Reply>, second: Option<Reply>, similar: Similarity): seq<Cluster> {
    var reply := Chosen(first, second);
    if OneStore(block) || reply.None? then Singles(block)
    else Suggested(block, reply.value, similar) + Singles(Unused(block, Used(block, reply.value)))
  }

  /** The identities a suggestion uses up. */
  lemma {:induction false} SelectKeys(block: seq<Product>, used: set<Identity>, ids: seq<Identity>)
    ensures (set p | p in Select(block, used, ids) :: p.Key()) == set p | p in block && p.Key() in ids && p.Key() !in used :: p.Key()
  {
    if ids != [] {
      var init, id := ids[..|ids| - 1], ids[|ids| - 1];
      SelectKeys(block, used, init);
      assert ids == init + [id];
      var now, before := set p | p in Select(block, used, ids) :: p.Key(), set p | p in Select(block, used, init) :: p.Key();
      if Wanted(block, used, id) {
        assert Select(block, used, ids) == Select(block, used, init) + [ById(block, id)];
        assert now == before + {id};
      } else {
        assert Select(block, used, ids) == Select(block, used, init) + [] == Select(block, used, init);
      }
    }
  }

  method LeftOver(block: seq<Product>, used: set<Identity>) returns (left: seq<Product>)
    ensures left == Unused(block, used)
  {
    left := [];
    for n := 0 to |block|
      invariant left == Unused(block[..n], used)
    {
      assert block[..n + 1][..n] == block[..n];
      if block[n].Key() !in used { left := left + [block[n]]; }
    }
    assert block[..|block|] == block;
  }

  /** The number of stores in a block. */
  method CountStores(block: seq<Product>) returns (one: bool)
    ensures one == OneStore(block)
  {
    var stores: set<StoreCode> := {};
    for i := 0 to |block|
      invariant stores == set p | p in block[..i] :: p.raw.store
    {
      assert block[..i + 1] == block[..i] + [block[i]];
      stores := stores + {block[i].raw.store};
    }
    assert block[..|block|] == block;
    one := |stores| < 2;
    StoresCounted(block, stores);
  }

  lemma StoresCounted(block: seq<Product>, stores: set<StoreCode>)
    requires stores == set p | p in block :: p.raw.store
    ensures |stores| < 2 <==> OneStore(block)
  {
    AtLeastTwo(stores);
    if a, b :| a in stores && b in stores && a != b {
      var i :| 0 <= i < |block| && block[i].raw.store == a;
      var j :| 0 <= j < |block| && block[j].raw.store == b;
      assert i < j || j < i;
    }
    if !OneStore(block) {
      var i, j :| 0 <= i < j < |block| && block[i].raw.store != block[j].raw.store;
      assert block[i] in block && block[j] in block;
      assert block[i].raw.store in stores && block[j].raw.store in stores;
    }
  }

  /** The two attempts: the second one is made only if the first brings no usable reply. */
  method Ask(first: Option<Reply>, second: Option<Reply>) returns (reply: Option<Reply>, asked: nat)
    ensures first.Some? ==> reply == first && asked == 1
    ensures first.None? ==> reply == second && asked == 2
  {
    reply, asked := None, 0;
    while asked < 2 && reply.None?
      invariant asked <= 2 && (asked == 0 ==> reply == None) && (asked == 1 ==> reply == first)
      invariant asked == 2 ==> first == None && reply == second
      decreases 2 - asked
    {
      reply := if asked == 0 then first else second;
      asked := asked + 1;
    }
  }

  /** matchBlock, with its set of used ids. */
  method MatchBlock(block: seq<Product>, first: Option<Reply>, second: Option<Reply>, similar: Similarity)
    returns (out: seq<Cluster>)
    ensures out == MatchedBlock(block, first, second, similar)
  {
    hide Settled, Select;
    var one := CountStores(block);
    if one { return Singles(block); }
    var reply, asked := Ask(first, second);
    if reply.None? { return Singles(block); }
    var used: set<Identity> := {};
    out := [];
    for n := 0 to |reply.value|
      invariant used == Used(block, reply.value[..n]) && out == Suggested(block, reply.value[..n], similar)
    {
      var s := reply.value[n];
      var members := Select(block, used, s.ids);
      assert reply.value[..n + 1][..n] == reply.value[..n];
      SelectKeys(block, used, s.ids);
      used := used + set p | p in members :: p.Key();
      if |members| > 0 {
        var more := Settle(members, s.confidence, similar);
        out := out + more;
      }
    }
    assert reply.value[..|reply.value|] == reply.value;
    var left := LeftOver(block, used);
    out := out + Singles(left);
  }

  // ----- what the block turns into -----

  lemma SinglesMatched(block: seq<Product>)
    ensures All(Singles(block)) == block && forall c :: c in Singles(block) ==> Matched(c)
  {
    SinglesAll(block);
  }

  lemma DistinctNoTwice(block: seq<Product>)
    requires DistinctProducts(block)
    ensures NoTwice(block)
  {
  }

  lemma {:induction false} UnusedMeans(block: seq<Product>, used: set<Identity>)
    requires DistinctProducts(block)
    ensures NoTwice(Unused(block, used)) && forall p :: p in Unused(block, used) <==>
      p in block && p.Key() !in used
  {
    if block != [] {
      var init, p := block[..|block| - 1], block[|block| - 1];
      UnusedMeans(init, used);
      assert block == init + [p] && p !in init;
      OnceMore(Unused(init, used), p);
      assert Unused(init, used) + [] == Unused(init, used);
    }
  }

  lemma {:induction false} SuggestedMeans(block: seq<Product>, reply: Reply, similar: Similarity)
    requires InRange(reply)
    ensures multiset(All(Suggested(block, reply, similar))) == multiset(Selected(block, reply))
    ensures forall c :: c in Suggested(block, reply, similar) ==> Matched(c)
  {
    hide All, Matched, Settled, Select;
    if reply == [] {
      NoClusters();
    } else {
      var init, last := reply[..|reply| - 1], reply[|reply| - 1];
      SuggestedMeans(block, init, similar);
      var members := Select(block, Used(block, init), last.ids);
      assert last in reply;
      if members != [] {
        SettledMeans(members, last.confidence, similar);
        AllAppend(Suggested(block, init, similar), Settled(members, last.confidence, similar));
      } else {
        assert Suggested(block, init, similar) + [] == Suggested(block, init, similar);
        assert Selected(block, init) + [] == Selected(block, init);
      }
    }
  }

  /** Every product of a block is placed, and in exactly one cluster unless a suggestion lists one
      twice. */
  lemma MatchedBlockMeans(block: seq<Product>, first: Option<Reply>, second: Option<Reply>, similar: Similarity)
    requires DistinctProducts(block) && (first.Some? ==> InRange(first.value)) &&
      (second.Some? ==> InRange(second.value))
    ensures var out := MatchedBlock(block, first, second, similar);
      && (forall c :: c in out ==> Matched(c))
      && (forall p :: p in multiset(All(out)) <==> p in block)
      && (multiset(All(out)) == multiset(block) <==>
        OneStore(block) || Chosen(first, second).None? || !Repeats(block, Chosen(first, second).value))
  {
    hide Repeats, Matched, All, NoTwice, Selected, Used, DistinctProducts;
    var reply := Chosen(first, second);
    if OneStore(block) || reply.None? {
      SinglesMatched(block);
    } else {
      var flat, left := Selected(block, reply.value), Unused(block, Used(block, reply.value));
      var out := Suggested(block, reply.value, similar);
      SuggestedMeans(block, reply.value, similar);
      UnusedMeans(block, Used(block, reply.value));
      AllAppend(out, Singles(left));
      SinglesMatched(left);
      SelectedMeans(block, reply.value);
      Apart(flat, left);
      DistinctNoTwice(block);
      Permutes(flat + left, block);
      assert multiset(All(out + Singles(left))) == multiset(flat + left);
    }
  }

  /** What the `n`-th suggestion keeps together, if it is confident enough. */
  function Together(block: seq<Product>, reply: Reply, similar: Similarity, n: nat): seq<Product>
    requires n < |reply|
  {
    var ms := Select(block, Used(block, reply[..n]), reply[n].ids);
    if |ms| < 2 || reply[n].confidence < 0.8 then [] else Kept(ms[0], Ranked(similar, ms[0], ms[1..]))
  }

  /** The cluster that the `n`-th suggestion leaves: confident enough, of what the guards keep
      together, with its confidence, and approved only from 0.95 on. */
  ghost predicate ClusterOf(block: seq<Product>, reply: Reply, similar: Similarity, n: nat, c: Cluster)
    requires n < |reply|
  {
    && |Select(block, Used(block, reply[..n]), reply[n].ids)| > 1 && reply[n].confidence >= 0.8
    && c.members == Together(block, reply, similar, n) && c.matchedBy == Ai &&
      c.confidence == reply[n].confidence
    && (c.review == Approved || c.review == Pending) && (c.review == Approved <==> reply[n].confidence >= 0.95)
  }

  ghost predicate Clustered(block: seq<Product>, reply: Reply, similar: Similarity, c: Cluster) {
    exists n :: 0 <= n < |reply| && ClusterOf(block, reply, similar, n, c)
  }

  lemma ClusteredNext(block: seq<Product>, reply: Reply, similar: Similarity, c: Cluster)
    requires reply != []
    ensures Clustered(block, reply, similar, c) <==>
      Clustered(block, reply[..|reply| - 1], similar, c) || ClusterOf(block, reply, similar, |reply| - 1, c)
  {
    var k := |reply| - 1;
    hide Used, Select, Ranked, Kept;
    forall n | 0 <= n < k ensures ClusterOf(block, reply[..k], similar, n, c) <==> ClusterOf(block, reply, similar, n, c) {
      assert reply[..k][..n] == reply[..n];
    }
    if Clustered(block, reply[..k], similar, c) {
      var n :| 0 <= n < k && ClusterOf(block, reply[..k], similar, n, c);
      assert ClusterOf(block, reply, similar, n, c);
    }
  }

  /** A cluster that is no single product comes from one confident suggestion, and every such
      suggestion comes out. */
  lemma {:induction false} SuggestedClusters(block: seq<Product>, reply: Reply, similar: Similarity, c: Cluster)
    requires !IsSingle(c)
    ensures c in Suggested(block, reply, similar) <==> Clustered(block, reply, similar, c)
  {
    hide Select, Used, Ranked, Kept, Clustered, Settled, IsSingle, ClusterOf;
    if reply == [] {
      NothingClustered(block, similar, c);
    } else {
      var k := |reply| - 1;
      var members := Select(block, Used(block, reply[..k]), reply[k].ids);
      SuggestedClusters(block, reply[..k], similar, c);
      ClusteredNext(block, reply, similar, c);
      if members == [] {
        assert Suggested(block, reply, similar) == Suggested(block, reply[..k], similar) + [] == Suggested(block, reply[..k], similar);
        assert !ClusterOf(block, reply, similar, k, c) by { NoneSelected(block, reply, similar, k, c); }
      } else {
        SettledClusters(block, reply, similar, k, c);
      }
    }
  }

  lemma NoneSelected(block: seq<Product>, reply: Reply, similar: Similarity, n: nat, c: Cluster)
    requires n < |reply| && Select(block, Used(block, reply[..n]), reply[n].ids) == []
    ensures !ClusterOf(block, reply, similar, n, c)
  {
  }

  lemma NothingClustered(block: seq<Product>, similar: Similarity, c: Cluster)
    ensures !Clustered(block, [], similar, c)
  {
  }

  lemma SettledClusters(block: seq<Product>, reply: Reply, similar: Similarity, n: nat, c: Cluster)
    requires n < |reply| && !IsSingle(c)
    requires var members := Select(block, Used(block, reply[..n]), reply[n].ids); members != []
    ensures c in Settled(Select(block, Used(block, reply[..n]), reply[n].ids), reply[n].confidence, similar) <==>
      ClusterOf(block, reply, similar, n, c)
  {
    hide Ranked, Kept, Select, Used, Settled;
    SettledParts(Select(block, Used(block, reply[..n]), reply[n].ids), reply[n].confidence, similar, c);
  }

  lemma SettledParts(members: seq<Product>, confidence: real, similar: Similarity, c: Cluster)
    requires members != [] && !IsSingle(c)
    ensures c in Settled(members, confidence, similar) <==>
      && |members| > 1 && confidence >= 0.8 &&
        c.members == Kept(members[0], Ranked(similar, members[0], members[1..]))
      && c.matchedBy == Ai && c.confidence == confidence && c.review == if confidence >= 0.95 then Approved
        else Pending
  {
    hide Ranked, Kept, Ejected, Singles;
    SinglesAll(members);
    if |members| > 1 && confidence >= 0.8 {
      SinglesAll(Ejected(members[0], Ranked(similar, members[0], members[1..])));
    }
  }

  lemma ChosenGroups(block: seq<Product>, first: Option<Reply>, second: Option<Reply>, similar: Similarity, c: Cluster)
    requires !IsSingle(c)
    ensures c in MatchedBlock(block, first, second, similar) <==>
      !OneStore(block) && Chosen(first, second).Some? && Clustered(block, Chosen(first, second).value, similar, c)
  {
    hide Suggested, Clustered, OneStore;
    var reply := Chosen(first, second);
    SinglesAll(block);
    if !OneStore(block) && reply.Some? {
      SuggestedClusters(block, reply.value, similar, c);
      SinglesAll(Unused(block, Used(block, reply.value)));
    }
  }

  /** What a block ends up with besides single products is exactly what its confident suggestions
      leave: those of the first reply, or of the second one if there is no first. */
  lemma GroupedIff(block: seq<Product>, first: Option<Reply>, second: Option<Reply>, similar: Similarity, c: Cluster)
    requires !IsSingle(c)
    ensures first.Some? ==>
      (c in MatchedBlock(block, first, second, similar) <==> !OneStore(block) && Clustered(block, first.value, similar, c))
    ensures first.None? && second.Some? ==>
      (c in MatchedBlock(block, first, second, similar) <==> !OneStore(block) && Clustered(block, second.value, similar, c))
    ensures first.None? && second.None? ==> c !in MatchedBlock(block, first, second, similar)
  {
    hide MatchedBlock, Clustered, OneStore;
    ChosenGroups(block, first, second, similar, c);
  }

  /** A confident suggestion whose products need no guarding keeps them all together. */
  lemma GuardedSuggestion(block: seq<Product>, reply: Reply, similar: Similarity, n: nat)
    requires n < |reply| && reply[n].confidence >= 0.8
    requires var ms := Select(block, Used(block, reply[..n]), reply[n].ids); |ms| > 1 && Guarded(ms)
    ensures multiset(Together(block, reply, similar, n)) == multiset(Select(block, Used(block, reply[..n]), reply[n].ids))
  {
    GuardedStays(Cluster(Select(block, Used(block, reply[..n]), reply[n].ids), Ai, reply[n].confidence, Pending), similar);
  }
}
