/** What the publication filter leaves of the matched clusters, and which products it leaves twice
    (pipeline/src/mapping/scope.ts, pipeline/src/agent/match.ts). */
module Surviving {
  import opened Outcomes
  import opened Bundles
  import opened Clusters
  import opened Matching

  /** filterClustersByScope: only clusters that lie in the published categories entirely. */
  function InScope(cs: seq<Cluster>, scope: set<Text>): seq<Cluster> {
    if cs == [] then [] else
      InScope(cs[..|cs| - 1], scope) + if forall m :: m in cs[|cs| - 1].members ==> m.category in scope then [cs[|cs| - 1]] else []
  }

  lemma {:induction false} InScopeMeans(cs: seq<Cluster>, scope: set<Text>)
    ensures forall c :: c in InScope(cs, scope) <==>
      c in cs && forall m :: m in c.members ==> m.category in scope
  {
    if cs != [] {
      InScopeMeans(cs[..|cs| - 1], scope);
      assert cs == cs[..|cs| - 1] + [cs[|cs| - 1]];
    }
  }

  lemma {:induction false} InScopeBelow(cs: seq<Cluster>, scope: set<Text>)
    ensures multiset(All(InScope(cs, scope))) <= multiset(All(cs))
  {
    hide All;
    if cs != [] {
      var init, c := cs[..|cs| - 1], cs[|cs| - 1];
      InScopeBelow(init, scope);
      assert cs == init + [c] && InScope(init, scope) + [] == InScope(init, scope);
      AllLast(init, c);
      AllLast(InScope(init, scope), c);
      Below(All(InScope(init, scope)), All(init), c.members);
    }
  }

  lemma Below(a: seq<Product>, b: seq<Product>, c: seq<Product>)
    requires multiset(a) <= multiset(b)
    ensures multiset(a + c) <= multiset(b + c) && multiset(a) <= multiset(b + c)
  {
  }

  /** The products that survive the filter. */
  function Left(cs: seq<Cluster>, scope: set<Text>): seq<Product> { All(InScope(cs, scope)) }

  lemma {:induction false} LeftAppend(a: seq<Cluster>, b: seq<Cluster>, scope: set<Text>)
    ensures InScope(a + b, scope) == InScope(a, scope) + InScope(b, scope)
    ensures Left(a + b, scope) == Left(a, scope) + Left(b, scope)
  {
    if b == [] {
      assert a + b == a && InScope(a, scope) + [] == InScope(a, scope);
    } else {
      assert (a + b)[..|a + b| - 1] == a + b[..|b| - 1];
      LeftAppend(a, b[..|b| - 1], scope);
    }
    AllAppend(InScope(a, scope), InScope(b, scope));
  }

  lemma LeftAmong(cs: seq<Cluster>, scope: set<Text>)
    ensures forall p :: p in Left(cs, scope) ==> p in All(cs)
  {
    InScopeBelow(cs, scope);
    forall p | p in Left(cs, scope) ensures p in All(cs) { assert p in multiset(Left(cs, scope)); }
  }

  lemma {:induction false} LeftSingles(ms: seq<Product>, scope: set<Text>, p: Product)
    ensures multiset(Left(Singles(ms), scope))[p] == if p.category in scope then multiset(ms)[p] else 0
  {
    if ms != [] {
      var init, m := ms[..|ms| - 1], ms[|ms| - 1];
      LeftSingles(init, scope, p);
      assert ms == init + [m];
      LeftAppend(Singles(init), [Single(m)], scope);
      OneLeft(Single(m), scope);
    }
  }

  lemma OneLeft(c: Cluster, scope: set<Text>)
    ensures Left([c], scope) == if forall m :: m in c.members ==> m.category in scope then c.members else []
  {
    assert [c][..0] == [] && InScope([], scope) == [];
    OneCluster(c);
    NoClusters();
  }

  lemma NoTwiceCounts(s: seq<Product>)
    ensures NoTwice(s) <==> forall p :: p in s ==> multiset(s)[p] < 2
  {
    forall p | NoTwice(s) ensures multiset(s)[p] < 2 { Counted(s, p); }
    if i, j :| 0 <= i < j < |s| && s[i] == s[j] { TwiceCounts(s, i, j); }
  }

  lemma TwiceCounts(s: seq<Product>, i: nat, j: nat)
    requires i < j < |s|
    ensures s[i] == s[j] ==> multiset(s)[s[i]] >= 2
  {
    assert s == s[..j] + [s[j]] + s[j + 1..] && s[i] in s[..j];
    assert s[i] in multiset(s[..j]);
  }

  /** What the guards keep together of a suggestion. */
  function KeptOf(members: seq<Product>, similar: Similarity): seq<Product>
    requires members != []
  {
    Kept(members[0], Ranked(similar, members[0], members[1..]))
  }

  /** A suggestion that lists `p` more than once leaves it twice on the site: `p` is in scope, and
      at most one of its copies goes down with a group that is not. */
  ghost predicate LeavesTwice(members: seq<Product>, confidence: real, similar: Similarity, scope: set<Text>, p: Product)
    requires members != []
  {
    && p.category in scope && multiset(members)[p] >= 2
    && (multiset(members)[p] > 2 || confidence < 0.8 || p !in KeptOf(members, similar) || forall m ::
      m in KeptOf(members, similar) ==> m.category in scope)
  }

  lemma GuardsCount(members: seq<Product>, similar: Similarity, p: Product)
    requires |members| > 1
    ensures var ejected := Ejected(members[0], Ranked(similar, members[0], members[1..]));
      multiset(members)[p] == multiset(ejected)[p] + if p in KeptOf(members, similar) then 1 else 0
  {
    var ranked := Ranked(similar, members[0], members[1..]);
    RankedDescends(similar, members[0], members[1..]);
    KeptMeans(similar, members[0], ranked);
    Counted(KeptOf(members, similar), p);
    Prefixed(members[0], ranked, members[1..]);
    assert members == [members[0]] + members[1..];
    hide Ranked, Kept, Ejected, Winners, Descends;
  }

  lemma SettledCount(members: seq<Product>, confidence: real, similar: Similarity, scope: set<Text>, p: Product)
    requires members != []
    ensures multiset(Left(Settled(members, confidence, similar), scope))[p] >= 2 <==>
      LeavesTwice(members, confidence, similar, scope, p)
  {
    hide Ranked, Kept, Ejected, Left, Singles;
    if |members| == 1 || confidence < 0.8 {
      LeftSingles(members, scope, p);
    } else {
      var ejected := Ejected(members[0], Ranked(similar, members[0], members[1..]));
      var kept := Cluster(KeptOf(members, similar), Ai, confidence, if confidence >= 0.95 then Approved else Pending);
      LeftAppend([kept], Singles(ejected), scope);
      OneLeft(kept, scope);
      LeftSingles(ejected, scope, p);
      GuardsCount(members, similar, p);
      KeptOnce(members, similar, p);
    }
  }

  lemma KeptOnce(members: seq<Product>, similar: Similarity, p: Product)
    requires members != []
    ensures multiset(KeptOf(members, similar))[p] == if p in KeptOf(members, similar) then 1 else 0
  {
    RankedDescends(similar, members[0], members[1..]);
    KeptMeans(similar, members[0], Ranked(similar, members[0], members[1..]));
    Counted(KeptOf(members, similar), p);
  }

  /** The products that the `n`-th suggestion selects. */
  function SelectedBy(block: seq<Product>, reply: Reply, n: nat): seq<Product>
    requires n < |reply|
  {
    Select(block, Used(block, reply[..n]), reply[n].ids)
  }

  /** The `n`-th suggestion leaves some product twice. */
  ghost predicate Doubles(block: seq<Product>, reply: Reply, similar: Similarity, scope: set<Text>, n: nat)
    requires n < |reply|
  {
    var ms := SelectedBy(block, reply, n);
    ms != [] && exists p :: p in ms && LeavesTwice(ms, reply[n].confidence, similar, scope, p)
  }

  lemma SettledTwice(members: seq<Product>, confidence: real, similar: Similarity, scope: set<Text>)
    requires members != []
    ensures NoTwice(Left(Settled(members, confidence, similar), scope)) <==>
      forall p :: p in members ==> !LeavesTwice(members, confidence, similar, scope, p)
  {
    var left := Left(Settled(members, confidence, similar), scope);
    NoTwiceCounts(left);
    hide Left, Settled, LeavesTwice;
    forall p ensures multiset(left)[p] >= 2 <==> LeavesTwice(members, confidence, similar, scope, p) { SettledCount(members, confidence, similar, scope, p); }
    forall p | LeavesTwice(members, confidence, similar, scope, p) ensures p in members { TwiceListed(members, confidence, similar, scope, p); }
    forall p | multiset(left)[p] >= 2 ensures p in left {}
  }

  lemma TwiceListed(members: seq<Product>, confidence: real, similar: Similarity, scope: set<Text>, p: Product)
    requires members != [] && LeavesTwice(members, confidence, similar, scope, p)
    ensures p in members
  {
  }

  ghost predicate SomeDoubles(block: seq<Product>, reply: Reply, similar: Similarity, scope: set<Text>) {
    exists n :: 0 <= n < |reply| && Doubles(block, reply, similar, scope, n)
  }

  lemma DoublesNext(block: seq<Product>, reply: Reply, similar: Similarity, scope: set<Text>)
    requires reply != []
    ensures SomeDoubles(block, reply, similar, scope) <==>
      SomeDoubles(block, reply[..|reply| - 1], similar, scope) || Doubles(block, reply, similar, scope, |reply| - 1)
  {
    hide Select, Used, LeavesTwice;
    var k := |reply| - 1;
    forall n | 0 <= n < k ensures Doubles(block, reply[..k], similar, scope, n) <==> Doubles(block, reply, similar, scope, n) {
      assert reply[..k][..n] == reply[..n];
      assert SelectedBy(block, reply[..k], n) == SelectedBy(block, reply, n);
    }
    if SomeDoubles(block, reply[..k], similar, scope) {
      var n :| 0 <= n < k && Doubles(block, reply[..k], similar, scope, n);
      assert Doubles(block, reply, similar, scope, n);
    }
  }

  lemma {:induction false} SuggestedTwice(block: seq<Product>, reply: Reply, similar: Similarity, scope: set<Text>)
    requires DistinctProducts(block) && InRange(reply)
    ensures NoTwice(Left(Suggested(block, reply, similar), scope)) <==>
      !SomeDoubles(block, reply, similar, scope)
  {
    hide Left, Select, Used, Settled, LeavesTwice, DistinctProducts, NoTwice, SomeDoubles;
    if reply == [] {
      NothingLeft(block, similar, scope);
    } else {
      var k := |reply| - 1;
      var init, last := reply[..k], SelectedBy(block, reply, k);
      assert InRange(init);
      SuggestedTwice(block, init, similar, scope);
      DoublesNext(block, reply, similar, scope);
      if last == [] {
        assert Suggested(block, reply, similar) == Suggested(block, init, similar) + [] == Suggested(block, init, similar);
      } else {
        var rest, more := Suggested(block, init, similar), Settled(last, reply[k].confidence, similar);
        LeftAppend(rest, more, scope);
        SettledTwice(last, reply[k].confidence, similar, scope);
        LeftOfSuggested(block, init, similar, scope);
        assert reply[k] in reply;
        LeftOfSettled(last, reply[k].confidence, similar, scope);
        SelectMembers(block, Used(block, init), reply[k].ids);
        Apart(Left(rest, scope), Left(more, scope));
      }
    }
  }

  lemma NothingLeft(block: seq<Product>, similar: Similarity, scope: set<Text>)
    ensures Left([], scope) == [] && NoTwice([]) && !SomeDoubles(block, [], similar, scope)
  {
  }

  lemma LeftOfSuggested(block: seq<Product>, reply: Reply, similar: Similarity, scope: set<Text>)
    requires DistinctProducts(block) && InRange(reply)
    ensures forall p :: p in Left(Suggested(block, reply, similar), scope) ==>
      p in block && p.Key() in Used(block, reply)
  {
    hide Left, Used, Selected, Suggested, All, NoTwice, Repeats, DistinctProducts, Matched;
    var cs := Suggested(block, reply, similar);
    LeftAmong(cs, scope);
    SuggestedMeans(block, reply, similar);
    SelectedMeans(block, reply);
    forall p | p in Left(cs, scope) ensures p in Selected(block, reply) { assert p in multiset(All(cs)); }
  }

  lemma LeftOfSettled(members: seq<Product>, confidence: real, similar: Similarity, scope: set<Text>)
    requires members != [] && 0.0 <= confidence <= 1.0
    ensures forall p :: p in Left(Settled(members, confidence, similar), scope) ==> p in members
  {
    hide Left, Settled, All, Matched;
    var cs := Settled(members, confidence, similar);
    LeftAmong(cs, scope);
    SettledMeans(members, confidence, similar);
    forall p | p in Left(cs, scope) ensures p in members { assert p in multiset(All(cs)); }
  }

  /** A block leaves some product twice. */
  ghost predicate BlockDoubles(block: seq<Product>, reply: Option<Reply>, similar: Similarity, scope: set<Text>) {
    !OneStore(block) && reply.Some? && SomeDoubles(block, reply.value, similar, scope)
  }

  /** Exactly when a block leaves no product twice on the site. */
  lemma BlockTwiceIff(block: seq<Product>, first: Option<Reply>, second: Option<Reply>, similar: Similarity, scope: set<Text>)
    requires DistinctProducts(block) && (first.Some? ==> InRange(first.value)) &&
      (second.Some? ==> InRange(second.value))
    ensures NoTwice(Left(MatchedBlock(block, first, second, similar), scope)) <==>
      !BlockDoubles(block, Chosen(first, second), similar, scope)
    ensures forall p :: p in Left(MatchedBlock(block, first, second, similar), scope) ==> p in block
  {
    hide Left, NoTwice, Suggested, SomeDoubles, OneStore, Used, Unused, Singles, DistinctProducts;
    var reply := Chosen(first, second);
    DistinctNoTwice(block);
    SinglesOnce(block, scope);
    if !OneStore(block) && reply.Some? {
      var suggested, unused := Suggested(block, reply.value, similar), Unused(block, Used(block, reply.value));
      SuggestedTwice(block, reply.value, similar, scope);
      UnusedMeans(block, Used(block, reply.value));
      SinglesOnce(unused, scope);
      LeftAppend(suggested, Singles(unused), scope);
      LeftOfSuggested(block, reply.value, similar, scope);
      Apart(Left(suggested, scope), Left(Singles(unused), scope));
    }
  }

  lemma SinglesOnce(ms: seq<Product>, scope: set<Text>)
    ensures NoTwice(ms) ==> NoTwice(Left(Singles(ms), scope))
    ensures forall p :: p in Left(Singles(ms), scope) ==> p in ms
  {
    NoTwiceCounts(Left(Singles(ms), scope));
    SinglesAll(ms);
    LeftAmong(Singles(ms), scope);
    hide Left, Singles, NoTwice;
    if NoTwice(ms) {
      forall p ensures multiset(Left(Singles(ms), scope))[p] < 2 {
        Counted(ms, p);
        LeftSingles(ms, scope, p);
      }
    }
  }

  /** Where everything is in scope, a block leaves a product twice exactly when a suggestion lists
      one twice. */
  lemma AllInScope(block: seq<Product>, reply: Reply, similar: Similarity, scope: set<Text>)
    requires DistinctProducts(block) && forall p :: p in block ==> p.category in scope
    ensures SomeDoubles(block, reply, similar, scope) <==> Repeats(block, reply)
  {
    hide LeavesTwice, Select, Used, ListsTwice, NoTwice, DistinctProducts;
    forall n | 0 <= n < |reply| ensures Doubles(block, reply, similar, scope, n) <==> ListsTwice(block, Used(block, reply[..n]), reply[n].ids) {
      var ms := SelectedBy(block, reply, n);
      SelectTwice(block, Used(block, reply[..n]), reply[n].ids);
      SelectMembers(block, Used(block, reply[..n]), reply[n].ids);
      NoTwiceCounts(ms);
      if ms == [] { NothingLeft(block, similar, scope); } else { TwiceInScope(ms, reply[n].confidence, similar, scope); }
    }
    if SomeDoubles(block, reply, similar, scope) {
      var n :| 0 <= n < |reply| && Doubles(block, reply, similar, scope, n);
      assert ListsTwice(block, Used(block, reply[..n]), reply[n].ids);
    }
    if Repeats(block, reply) {
      var n :| 0 <= n < |reply| && ListsTwice(block, Used(block, reply[..n]), reply[n].ids);
      assert Doubles(block, reply, similar, scope, n);
    }
  }

  lemma TwiceInScope(members: seq<Product>, confidence: real, similar: Similarity, scope: set<Text>)
    requires members != [] && forall p :: p in members ==> p.category in scope
    ensures forall p :: p in members ==>
      (LeavesTwice(members, confidence, similar, scope, p) <==> multiset(members)[p] >= 2)
  {
    var ranked := Ranked(similar, members[0], members[1..]);
    KeptAmong(members[0], ranked);
    forall m | m in KeptOf(members, similar) ensures m in members {
      if m != members[0] { assert m in multiset(ranked); assert m in multiset(members[1..]); }
    }
  }

  /** A suggestion that lists every id once leaves nothing twice, whatever the scope. */
  lemma OnceNeverDoubles(block: seq<Product>, reply: Reply, similar: Similarity, scope: set<Text>)
    requires DistinctProducts(block) && !Repeats(block, reply)
    ensures !SomeDoubles(block, reply, similar, scope)
  {
    hide Select, Used, ListsTwice, NoTwice, DistinctProducts, KeptOf;
    forall n | 0 <= n < |reply| ensures !Doubles(block, reply, similar, scope, n) {
      var ms := SelectedBy(block, reply, n);
      assert !ListsTwice(block, Used(block, reply[..n]), reply[n].ids);
      SelectTwice(block, Used(block, reply[..n]), reply[n].ids);
      NoTwiceCounts(ms);
    }
  }

  /** A reply repeats itself on a block that is offered to the model. */
  ghost predicate RepeatsOn(block: seq<Product>, reply: Option<Reply>) {
    !OneStore(block) && reply.Some? && Repeats(block, reply.value)
  }

  /** A block key names the category, so a block is in scope as a whole: it leaves a product twice
      exactly when it is in scope and a suggestion lists one twice. */
  lemma CategoryDoublesIff(block: seq<Product>, reply: Option<Reply>, similar: Similarity, scope: set<Text>)
    requires DistinctProducts(block) && block != [] && forall p :: p in block ==>
      p.category == block[0].category
    ensures BlockDoubles(block, reply, similar, scope) <==>
      RepeatsOn(block, reply) && block[0].category in scope
  {
    hide Repeats, OneStore, Doubles, DistinctProducts;
    if reply.Some? {
      if block[0].category in scope {
        AllInScope(block, reply.value, similar, scope);
      } else {
        forall n | 0 <= n < |reply.value| ensures !Doubles(block, reply.value, similar, scope, n) { OutOfScope(block, reply.value, similar, scope, n); }
      }
    }
  }

  lemma OutOfScope(block: seq<Product>, reply: Reply, similar: Similarity, scope: set<Text>, n: nat)
    requires DistinctProducts(block) && n < |reply| && forall p :: p in block ==> p.category !in scope
    ensures !Doubles(block, reply, similar, scope, n)
  {
    hide Select, Used, DistinctProducts, KeptOf;
    SelectMembers(block, Used(block, reply[..n]), reply[n].ids);
  }

  /** A concrete reply that names one of two products twice. */
  lemma DoubledReply(similar: Similarity) returns (block: seq<Product>, reply: Reply)
    ensures DistinctProducts(block) && InRange(reply) && RepeatsOn(block, Some(reply))
    ensures BlockDoubles(block, Some(reply), similar, {Word(0)}) &&
      !BlockDoubles(block, Some(reply), similar, {Word(1)})
  {
    var a := Product(Raw(0, Word(0), Word(0), 1, None, 0), Word(0), Word(0), 0, 0, 0, false, true);
    var b := a.(raw := Raw(1, Word(0), Word(0), 1, None, 0));
    var ids := [a.Key(), b.Key(), a.Key()];
    block, reply := [a, b], [Suggestion(ids, 0.9)];
    assert block[0].raw.store != block[1].raw.store;
    assert InBlock(block, a.Key()) by { assert a in block; }
    assert Used(block, reply[..0]) == {};
    assert ids[0] == ids[2] && Wanted(block, Used(block, reply[..0]), ids[0]);
    assert ListsTwice(block, Used(block, reply[..0]), reply[0].ids);
    CategoryDoublesIff(block, Some(reply), similar, {Word(0)});
    CategoryDoublesIff(block, Some(reply), similar, {Word(1)});
  }
}
