/** Products, their clusters and the blocks they are matched in (pipeline/src/agent/block.ts,
    pipeline/src/agent/match.ts, pipeline/src/mapping/publish.ts, pipeline/src/mapping/scope.ts). */
module Clusters {
  import opened Bundles
  import opened Outcomes

  /** A classified product. `raw` is the row it becomes, `shape` its four size attributes,
      `block` its block key, `initial` the first letter of its brand; `image` tells whether its
      picture has an https address. */
  datatype Product = Product(raw: Raw, category: Text, display: Text, shape: nat, block: nat, initial: nat, weighed: bool, image: bool)
  {
    function Key(): Identity { raw.Key() }
  }

  datatype Cluster = Cluster(members: seq<Product>, matchedBy: MatchMethod, confidence: real, review: Review)

  function Single(m: Product): Cluster { Cluster([m], Deterministic, 1.0, Approved) }

  function Concat(lists: seq<seq<Product>>): seq<Product> {
    if lists == [] then [] else Concat(lists[..|lists| - 1]) + lists[|lists| - 1]
  }

  /** All members, cluster by cluster. */
  function All(cs: seq<Cluster>): seq<Product> {
    if cs == [] then [] else All(cs[..|cs| - 1]) + cs[|cs| - 1].members
  }

  lemma {:induction false} AllAppend(a: seq<Cluster>, b: seq<Cluster>)
    ensures All(a + b) == All(a) + All(b)
  {
    if b == [] {
      assert a + b == a;
    } else {
      assert (a + b)[..|a + b| - 1] == a + b[..|b| - 1];
      AllAppend(a, b[..|b| - 1]);
    }
  }

  lemma AllLast(cs: seq<Cluster>, c: Cluster)
    ensures All(cs + [c]) == All(cs) + c.members
  {
  }

  function Singles(ms: seq<Product>): seq<Cluster> {
    if ms == [] then [] else Singles(ms[..|ms| - 1]) + [Single(ms[|ms| - 1])]
  }

  lemma {:induction false} SinglesAll(ms: seq<Product>)
    ensures All(Singles(ms)) == ms && forall c :: c in Singles(ms) ==>
      |c.members| == 1 && c == Single(c.members[0])
  {
    if ms != [] {
      SinglesAll(ms[..|ms| - 1]);
      assert ms == ms[..|ms| - 1] + [ms[|ms| - 1]];
    }
  }

  ghost predicate DistinctProducts(ps: seq<Product>) { forall i, j :: 0 <= i < j < |ps| ==> ps[i].Key() != ps[j].Key() }

  // ----- blocks -----

  lemma {:induction false} ConcatUpdate(lists: seq<seq<Product>>, k: nat, x: Product)
    requires k < |lists|
    ensures multiset(Concat(lists[k := lists[k] + [x]])) == multiset(Concat(lists)) + multiset{x}
  {
    var n := |lists| - 1;
    var next := lists[k := lists[k] + [x]];
    if k == n {
      assert next[..n] == lists[..n];
    } else {
      ConcatUpdate(lists[..n], k, x);
      assert next[..n] == lists[..n][k := lists[..n][k] + [x]];
    }
  }

  /** The items of one key, in their order. */
  function Having(items: seq<Product>, key: Product -> nat, k: nat): seq<Product> {
    if items == [] then [] else
      Having(items[..|items| - 1], key, k) + if key(items[|items| - 1]) == k then [items[|items| - 1]] else []
  }

  lemma {:induction false} HavingMembers(items: seq<Product>, key: Product -> nat, k: nat)
    ensures forall p :: p in Having(items, key, k) <==> p in items && key(p) == k
  {
    if items != [] {
      HavingMembers(items[..|items| - 1], key, k);
      assert items == items[..|items| - 1] + [items[|items| - 1]];
    }
  }

  lemma {:induction false} NoneHaving(items: seq<Product>, key: Product -> nat, k: nat)
    requires forall p :: p in items ==> key(p) != k
    ensures Having(items, key, k) == []
  {
    if items != [] { NoneHaving(items[..|items| - 1], key, k); }
  }

  lemma HavingNext(items: seq<Product>, key: Product -> nat, k: nat, x: Product)
    ensures Having(items + [x], key, k) == Having(items, key, k) + if key(x) == k then [x] else []
  {
    assert (items + [x])[..|items|] == items;
  }

  /** Every group consists of the items of one key, no two of the same. */
  ghost predicate Grouped(groups: seq<seq<Product>>, items: seq<Product>, key: Product -> nat) {
    && (forall i :: 0 <= i < |groups| ==> groups[i] != [] && groups[i] == Having(items, key, key(groups[i][0])))
    && (forall i, j :: 0 <= i < j < |groups| ==> key(groups[i][0]) != key(groups[j][0]))
    && (forall p :: p in items ==> exists i :: 0 <= i < |groups| && key(groups[i][0]) == key(p))
  }

  lemma GroupedUpdate(groups: seq<seq<Product>>, items: seq<Product>, key: Product -> nat, k: nat, x: Product)
    requires Grouped(groups, items, key) && k < |groups| && key(groups[k][0]) == key(x)
    ensures Grouped(groups[k := groups[k] + [x]], items + [x], key)
  {
    var next := groups[k := groups[k] + [x]];
    hide Having;
    forall i | 0 <= i < |next| ensures next[i] != [] && next[i][0] == groups[i][0] && next[i] == Having(items + [x], key, key(next[i][0])) {
      HavingNext(items, key, key(groups[i][0]), x);
      assert i < k ==> key(groups[i][0]) != key(groups[k][0]);
      assert i > k ==> key(groups[k][0]) != key(groups[i][0]);
    }
    forall p | p in items + [x] ensures exists i :: 0 <= i < |next| && key(next[i][0]) == key(p) {
      if p in items {
        var i :| 0 <= i < |groups| && key(groups[i][0]) == key(p);
        assert key(next[i][0]) == key(p);
      } else {
        assert key(next[k][0]) == key(p);
      }
    }
  }

  lemma GroupedAppend(groups: seq<seq<Product>>, items: seq<Product>, key: Product -> nat, x: Product)
    requires Grouped(groups, items, key) && forall i :: 0 <= i < |groups| ==> key(groups[i][0]) != key(x)
    ensures Grouped(groups + [[x]], items + [x], key)
  {
    var next := groups + [[x]];
    hide Having;
    HavingNext(items, key, key(x), x);
    NoneHaving(items, key, key(x));
    forall i | 0 <= i < |groups| ensures next[i] == Having(items + [x], key, key(next[i][0])) {
      HavingNext(items, key, key(groups[i][0]), x);
    }
    forall p | p in items + [x] ensures exists i :: 0 <= i < |next| && key(next[i][0]) == key(p) {
      if p in items {
        var i :| 0 <= i < |groups| && key(groups[i][0]) == key(p);
        assert key(next[i][0]) == key(p);
      } else {
        assert key(next[|groups|][0]) == key(p);
      }
    }
  }

  /** Grouping through an insertion-ordered map. */
  method GroupBy(items: seq<Product>, key: Product -> nat) returns (groups: seq<seq<Product>>)
    ensures multiset(Concat(groups)) == multiset(items) && Grouped(groups, items, key)
  {
    hide Concat, Grouped;
    groups := [];
    NoLists(key);
    for n := 0 to |items|
      invariant multiset(Concat(groups)) == multiset(items[..n]) && Grouped(groups, items[..n], key)
    {
      var it := items[n];
      assert items[..n + 1] == items[..n] + [it];
      var found := Find(groups, items[..n], key, key(it));
      if found.Some? {
        var k := found.value;
        ConcatUpdate(groups, k, it);
        GroupedUpdate(groups, items[..n], key, k, it);
        groups := groups[k := groups[k] + [it]];
      } else {
        ConcatLast(groups, [it]);
        GroupedAppend(groups, items[..n], key, it);
        groups := groups + [[it]];
      }
    }
    assert items[..|items|] == items;
  }

  lemma NoLists(key: Product -> nat)
    ensures Concat([]) == [] && Grouped([], [], key)
  {
  }

  lemma ConcatLast(lists: seq<seq<Product>>, last: seq<Product>)
    ensures Concat(lists + [last]) == Concat(lists) + last
  {
  }

  /** The lookup of the map. */
  method Find(groups: seq<seq<Product>>, ghost items: seq<Product>, key: Product -> nat, sought: nat)
    returns (found: Option<nat>)
    requires Grouped(groups, items, key)
    ensures forall i :: 0 <= i < |groups| ==> groups[i] != []
    ensures found.Some? ==> found.value < |groups| && key(groups[found.value][0]) == sought
    ensures found.None? ==> forall i :: 0 <= i < |groups| ==> key(groups[i][0]) != sought
  {
    for k := 0 to |groups|
      invariant forall i :: 0 <= i < k ==> key(groups[i][0]) != sought
    {
      if key(groups[k][0]) == sought { return Some(k); }
    }
    found := None;
  }

  function Start(maxSize: nat, n: nat): nat { n * maxSize }

  lemma StartNext(maxSize: nat, n: nat)
    ensures Start(maxSize, 0) == 0 && Start(maxSize, n + 1) == Start(maxSize, n) + maxSize
  {
    assert (n + 1) * maxSize == n * maxSize + maxSize;
  }

  function From(part: seq<Product>, maxSize: nat, i: nat): seq<Product> {
    if i >= |part| then [] else part[i..if i + maxSize < |part| then i + maxSize else |part|]
  }

  /** The `n`-th slice of a list. */
  function Cut(part: seq<Product>, maxSize: nat, n: nat): seq<Product> {
    From(part, maxSize, Start(maxSize, n))
  }

  function BlockKey(p: Product): nat { p.block }

  function Initial(p: Product): nat { p.initial }

  /** What a block is: all products of one block key, or, when those are too many, a slice of
      those that share a brand initial as well. */
  ghost predicate IsBlock(items: seq<Product>, maxSize: nat, b: seq<Product>) {
    && 0 < |b| <= maxSize
    && var g := Having(items, BlockKey, b[0].block);
       if |g| <= maxSize then b == g else exists n: nat :: b == Cut(Having(g, Initial, b[0].initial), maxSize, n)
  }

  /** The slices of one brand group. */
  method Slice(part: seq<Product>, maxSize: nat) returns (out: seq<seq<Product>>)
    requires maxSize > 0
    ensures Concat(out) == part && forall n :: 0 <= n < |out| ==>
      0 < |out[n]| <= maxSize && out[n] == Cut(part, maxSize, n)
  {
    hide Start, Concat;
    out := [];
    var i := 0;
    StartNext(maxSize, 0);
    assert Concat(out) == part[..0] by { NoLists(Initial); }
    while i < |part|
      invariant i == Start(maxSize, |out|) && Concat(out) == part[..if i < |part| then i else |part|]
      invariant forall n :: 0 <= n < |out| ==> 0 < |out[n]| <= maxSize && out[n] == Cut(part, maxSize, n)
      decreases |part| - i
    {
      var end := if i + maxSize < |part| then i + maxSize else |part|;
      ConcatLast(out, part[i..end]);
      assert part[..end] == part[..i] + part[i..end];
      StartNext(maxSize, |out|);
      out := out + [part[i..end]];
      i := i + maxSize;
    }
    assert part[..|part|] == part;
  }

  lemma {:induction false} ConcatAppend(a: seq<seq<Product>>, b: seq<seq<Product>>)
    ensures Concat(a + b) == Concat(a) + Concat(b)
  {
    if b == [] {
      assert a + b == a;
    } else {
      assert (a + b)[..|a + b| - 1] == a + b[..|b| - 1];
      ConcatAppend(a, b[..|b| - 1]);
    }
  }

  /** The parts of an oversized group: by brand initial, then in slices. */
  method SplitGroup(ghost items: seq<Product>, g: seq<Product>, maxSize: nat) returns (out: seq<seq<Product>>)
    requires 0 < maxSize < |g| && g == Having(items, BlockKey, g[0].block)
    ensures multiset(Concat(out)) == multiset(g) && forall b :: b in out ==> IsBlock(items, maxSize, b)
  {
    var parts := GroupBy(g, Initial);
    out := [];
    for i := 0 to |parts|
      invariant Concat(out) == Concat(parts[..i]) && forall b :: b in out ==> IsBlock(items, maxSize, b)
    {
      var slices := Slice(parts[i], maxSize);
      forall b | b in slices ensures IsBlock(items, maxSize, b) { SlicesAreBlocks(items, g, parts[i], slices, maxSize, b); }
      ConcatAppend(out, slices);
      assert parts[..i + 1][..i] == parts[..i];
      out := out + slices;
    }
    assert parts[..|parts|] == parts;
  }

  lemma SlicesAreBlocks(items: seq<Product>, g: seq<Product>, part: seq<Product>, slices: seq<seq<Product>>,
    maxSize: nat, b: seq<Product>)
    requires 0 < maxSize < |g| && g == Having(items, BlockKey, g[0].block)
    requires part != [] && part == Having(g, Initial, Initial(part[0])) && b in slices
    requires forall n :: 0 <= n < |slices| ==> 0 < |slices[n]| <= maxSize && slices[n] == Cut(part, maxSize, n)
    ensures IsBlock(items, maxSize, b)
  {
    var n :| 0 <= n < |slices| && slices[n] == b;
    assert b == Cut(part, maxSize, n) && b[0] in part;
    HavingMembers(items, BlockKey, g[0].block);
    HavingMembers(g, Initial, Initial(part[0]));
    assert b[0].block == g[0].block && b[0].initial == part[0].initial;
  }

  /** buildBlocks: every item lands in exactly one block. */
  method BuildBlocks(items: seq<Product>, maxSize: nat) returns (out: seq<seq<Product>>)
    requires maxSize > 0
    ensures multiset(Concat(out)) == multiset(items)
    ensures forall b :: b in out ==> IsBlock(items, maxSize, b)
  {
    var groups := GroupBy(items, BlockKey);
    out := [];
    hide Having, Cut;
    for i := 0 to |groups|
      invariant multiset(Concat(out)) == multiset(Concat(groups[..i])) && forall b :: b in out ==>
        IsBlock(items, maxSize, b)
    {
      var g := groups[i];
      assert groups[..i + 1][..i] == groups[..i] && BlockKey(g[0]) == g[0].block;
      if |g| <= maxSize {
        assert (out + [g])[..|out|] == out;
        out := out + [g];
      } else {
        var parts := SplitGroup(items, g, maxSize);
        ConcatAppend(out, parts);
        out := out + parts;
      }
    }
    assert groups[..|groups|] == groups;
  }

  lemma {:induction false} ConcatHas(lists: seq<seq<Product>>, p: Product)
    ensures p in Concat(lists) <==> exists i :: 0 <= i < |lists| && p in lists[i]
  {
    if lists != [] {
      var n := |lists| - 1;
      ConcatHas(lists[..n], p);
      if i :| 0 <= i < |lists| && p in lists[i] && i < n { assert p in lists[..n][i]; }
    }
  }

  /** Products of one block key that are not too many are offered together. */
  lemma SameBlock(items: seq<Product>, maxSize: nat, blocks: seq<seq<Product>>, p: Product)
    requires multiset(Concat(blocks)) == multiset(items) &&
      (forall b :: b in blocks ==> IsBlock(items, maxSize, b))
    requires p in items && |Having(items, BlockKey, p.block)| <= maxSize
    ensures Having(items, BlockKey, p.block) in blocks
  {
    assert p in multiset(Concat(blocks));
    ConcatHas(blocks, p);
    var i :| 0 <= i < |blocks| && p in blocks[i];
    var b := blocks[i];
    BlockOfOneKey(items, maxSize, b);
  }

  lemma BlockOfOneKey(items: seq<Product>, maxSize: nat, b: seq<Product>)
    requires IsBlock(items, maxSize, b)
    ensures forall p :: p in b ==> p in items && p.block == b[0].block
  {
    var g := Having(items, BlockKey, b[0].block);
    HavingMembers(items, BlockKey, b[0].block);
    HavingMembers(g, Initial, b[0].initial);
  }
}
