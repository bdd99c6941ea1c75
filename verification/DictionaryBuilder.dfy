/** The builder of the dictionary (pipeline/src/mapping/dictionary.ts:46-74). */
module DictionaryBuilder {
  import opened Counting
  import opened Outcomes
  import opened Overrides

  datatype Group = Group(members: seq<Id>, card: Card)

  /** The identity that names a group. */
  function Head(g: Group): (h: Id)
    requires g.members != []
    ensures h in g.members && forall x :: x in g.members ==> h <= x
  {
    assert g.members[0] in Elements(g.members);
    assert forall x :: x in g.members ==> x in Elements(g.members);
    Least(Elements(g.members))
  }

  /** A later group takes over the products it shares with an earlier one. */
  function WithGroup(d: Dictionary, g: Group): Dictionary
    requires g.members != []
  {
    Dictionary(d.canonicals[KeyOf(Head(g)) := g.card], Assigned(d.products, g.members, KeyOf(Head(g))))
  }

  function Assigned(products: map<Id, Key>, members: seq<Id>, k: Key): map<Id, Key> {
    map id | id in products.Keys + Elements(members) :: if id in members then k else products[id]
  }

  function Build(groups: seq<Group>): Result<Dictionary, Error> {
    if groups == [] then Ok(Dictionary(map[], map[])) else
      var d :- Build(groups[..|groups| - 1]);
      var g := groups[|groups| - 1];
      if g.members == [] then Err(WithoutMembers)
      else if KeyOf(Head(g)) in d.canonicals then Err(KeyCollision)
      else Ok(WithGroup(d, g))
  }

  lemma {:induction false} FirstErrorStays(groups: seq<Group>, i: nat)
    requires i <= |groups| && Build(groups[..i]).Err?
    ensures Build(groups) == Build(groups[..i])
  {
    if i < |groups| {
      assert groups[..|groups| - 1][..i] == groups[..i];
      FirstErrorStays(groups[..|groups| - 1], i);
    } else {
      assert groups[..i] == groups;
    }
  }

  lemma AssignedNext(products: map<Id, Key>, members: seq<Id>, j: nat, k: Key)
    requires j < |members|
    ensures Assigned(products, members[..j], k)[members[j] := k] == Assigned(products, members[..j + 1], k)
    ensures j == 0 ==> Assigned(products, members[..j], k) == products
  {
  }

  method BuildDictionary(groups: seq<Group>) returns (r: Result<Dictionary, Error>)
    ensures r == Build(groups)
  {
    hide Assigned;
    var d := Dictionary(map[], map[]);
    for i := 0 to |groups|
      invariant Build(groups[..i]) == Ok(d)
    {
      var g := groups[i];
      assert groups[..i + 1][..i] == groups[..i];
      if g.members == [] { FirstErrorStays(groups, i + 1); return Err(WithoutMembers); }
      var key := KeyOf(Head(g));
      if key in d.canonicals { FirstErrorStays(groups, i + 1); return Err(KeyCollision); }
      var products := d.products;
      AssignedNext(d.products, g.members, 0, key);
      for j := 0 to |g.members|
        invariant products == Assigned(d.products, g.members[..j], key)
      {
        AssignedNext(d.products, g.members, j, key);
        products := products[g.members[j] := key];
      }
      assert g.members[..|g.members|] == g.members;
      d := Dictionary(d.canonicals[key := g.card], products);
    }
    assert groups[..|groups|] == groups;
    r := Ok(d);
  }

  /** Group `i` lists `id`, and no later one does. */
  ghost predicate ListedLast(groups: seq<Group>, id: Id, i: nat) {
    i < |groups| && id in groups[i].members && forall j :: i < j < |groups| ==> id !in groups[j].members
  }

  ghost predicate Listed(groups: seq<Group>, id: Id) { exists i: nat :: ListedLast(groups, id, i) }

  /** The products are those that some group lists, each under the name of the last group that
      does. */
  lemma ProductsListed(groups: seq<Group>, d: Dictionary)
    requires Build(groups) == Ok(d)
    ensures forall g :: g in groups ==> g.members != []
    ensures forall id :: id in d.products <==> Listed(groups, id)
    ensures forall id, i: nat :: ListedLast(groups, id, i) ==>
      id in d.products && d.products[id] == KeyOf(Head(groups[i]))
  {
    hide Build, ListedLast, Listed;
    BuildCards(groups, d);
    forall id ensures id in d.products <==> Listed(groups, id) { ProductListed(groups, d, id); }
    forall id, i: nat | ListedLast(groups, id, i)
      ensures i < |groups| && groups[i].members != [] && id in d.products &&
        d.products[id] == KeyOf(Head(groups[i]))
    {
      ProductListed(groups, d, id);
    }
  }

  lemma {:induction false} ProductListed(groups: seq<Group>, d: Dictionary, id: Id)
    requires Build(groups) == Ok(d)
    ensures id in d.products <==> Listed(groups, id)
    ensures forall i: nat :: ListedLast(groups, id, i) ==>
      i < |groups| && groups[i].members != [] && id in d.products && d.products[id] == KeyOf(Head(groups[i]))
  {
    if groups != [] {
      var n := |groups| - 1;
      var init, g := groups[..n], groups[n];
      var b := Build(init).value;
      ProductListed(init, b, id);
      hide Build, Head;
      assert groups == init + [g];
      forall i: nat | i < n ensures ListedLast(groups, id, i) <==> id !in g.members && ListedLast(init, id, i) {
        LastOfMore(init, g, id, i);
      }
      if id in g.members {
        assert ListedLast(groups, id, n);
      } else if Listed(init, id) {
        var i: nat :| ListedLast(init, id, i);
        assert ListedLast(groups, id, i);
      }
    }
  }

  lemma LastOfMore(init: seq<Group>, g: Group, id: Id, i: nat)
    requires i < |init|
    ensures ListedLast(init + [g], id, i) <==> id !in g.members && ListedLast(init, id, i)
  {
    var groups := init + [g];
    assert groups[|init|] == g && forall j :: 0 <= j < |init| ==> groups[j] == init[j];
  }

  /** The first group that is empty, or has the name of an earlier one. */
  ghost predicate Fails(groups: seq<Group>, i: nat, e: Error) {
    && i < |groups| && (forall j :: 0 <= j < i ==> groups[j].members != [])
    && (forall j, k :: 0 <= j < k < i ==> Head(groups[j]) != Head(groups[k]))
    && if groups[i].members == [] then e == WithoutMembers
       else e == KeyCollision && exists j :: 0 <= j < i && Head(groups[j]) == Head(groups[i])
  }

  /** Every group has members, and no two have the same least one. */
  ghost predicate Named(groups: seq<Group>) {
    (forall g :: g in groups ==> g.members != []) && forall i, j :: 0 <= i < j < |groups| ==> Head(groups[i]) != Head(groups[j])
  }

  /** The build succeeds exactly when the groups can be named, and otherwise reports the first
      group that cannot. */
  lemma {:induction false} BuildsIff(groups: seq<Group>)
    ensures Build(groups).Ok? <==> Named(groups)
    ensures Build(groups).Err? ==> exists i: nat :: Fails(groups, i, Build(groups).error)
  {
    if groups != [] {
      var n := |groups| - 1;
      var init := groups[..n];
      BuildsIff(init);
      hide Head, WithGroup, Fails, Named;
      NamedNext(groups);
      if Build(init).Err? {
        var i: nat :| Fails(init, i, Build(init).error);
        FailsStill(groups, i, Build(groups).error);
      } else {
        BuildCards(init, Build(init).value);
        KeyTaken(groups, Build(init).value);
      }
    }
  }

  lemma FailsStill(groups: seq<Group>, i: nat, e: Error)
    requires groups != [] && Fails(groups[..|groups| - 1], i, e)
    ensures Fails(groups, i, e)
  {
    hide Head;
    var init := groups[..|groups| - 1];
    assert forall j :: 0 <= j <= i ==> init[j] == groups[j];
  }

  lemma NamedNext(groups: seq<Group>)
    requires groups != []
    ensures var n := |groups| - 1;
      Named(groups) <==>
      Named(groups[..n]) && groups[n].members != [] &&
      forall i :: 0 <= i < n && groups[i].members != [] ==> Head(groups[i]) != Head(groups[n])
  {
    hide Head;
    var n := |groups| - 1;
    assert groups == groups[..n] + [groups[n]];
  }

  lemma KeyTaken(groups: seq<Group>, b: Dictionary)
    requires groups != [] && Named(groups[..|groups| - 1])
    requires var init := groups[..|groups| - 1];
      && (forall k :: k in b.canonicals ==> k.KeyOf? && exists i :: 0 <= i < |init| && k.id == Head(init[i]))
      && forall i :: 0 <= i < |init| ==> KeyOf(Head(init[i])) in b.canonicals
    ensures var n := |groups| - 1;
      && (groups[n].members == [] ==> Fails(groups, n, WithoutMembers))
      && (groups[n].members != [] && KeyOf(Head(groups[n])) in b.canonicals ==> Fails(groups, n, KeyCollision))
      && (groups[n].members != [] && KeyOf(Head(groups[n])) !in b.canonicals ==>
            forall i :: 0 <= i < n && groups[i].members != [] ==> Head(groups[i]) != Head(groups[n]))
  {
    hide Head;
    var n := |groups| - 1;
    var init := groups[..n];
    forall i | 0 <= i < n ensures groups[i] == init[i] && groups[i].members != [] { assert init[i] in init; }
    if groups[n].members != [] && KeyOf(Head(groups[n])) in b.canonicals {
      var i :| 0 <= i < n && KeyOf(Head(groups[n])).id == Head(init[i]);
      assert Head(groups[i]) == Head(groups[n]);
    }
  }

  /** Every group is still named by one of its products. */
  ghost predicate OwnHeads(d: Dictionary) {
    forall k :: k in d.canonicals && k.KeyOf? ==> k.id in d.products && d.products[k.id] == k
  }

  lemma HeadedKeyed(d: Dictionary)
    requires forall k :: k in d.canonicals ==> k.KeyOf?
    requires forall id :: id in d.products ==> d.products[id] in d.canonicals && d.products[id].id <= id
    ensures Keyed(d) <==> OwnHeads(d)
  {
    forall k | k in d.canonicals
      ensures k.id in d.products && d.products[k.id] == k <==>
        Members(d, k) != {} && k == CanonicalKey(Members(d, k))
    {
      if Members(d, k) != {} {
        var least := Least(Members(d, k));
        assert least in Members(d, k);
        if k.id in d.products && d.products[k.id] == k { assert k.id in Members(d, k); }
      } else if k.id in d.products {
        assert k.id !in Members(d, k);
      }
    }
  }

  /** No group lists the naming member of an earlier one. */
  ghost predicate HeadsStay(groups: seq<Group>)
    requires forall g :: g in groups ==> g.members != []
  {
    forall i, j :: 0 <= i < j < |groups| ==> Head(groups[i]) !in groups[j].members
  }

  /** One card a group, under the hash of its least member, and nothing else. */
  lemma {:induction false} BuildCards(groups: seq<Group>, d: Dictionary)
    requires Build(groups) == Ok(d)
    ensures forall g :: g in groups ==> g.members != []
    ensures forall k :: k in d.canonicals ==>
      k.KeyOf? && exists i :: 0 <= i < |groups| && k.id == Head(groups[i])
    ensures forall i :: 0 <= i < |groups| ==>
      KeyOf(Head(groups[i])) in d.canonicals && d.canonicals[KeyOf(Head(groups[i]))] == groups[i].card
  {
    if groups != [] {
      var init, g := groups[..|groups| - 1], groups[|groups| - 1];
      var b := Build(init).value;
      BuildCards(init, b);
      assert d == WithGroup(b, g);
      hide Assigned, Build, Head;
      assert groups == init + [g];
      forall k | k in d.canonicals ensures k.KeyOf? && exists i :: 0 <= i < |groups| && k.id == Head(groups[i]) {
        if k in b.canonicals {
          var i :| 0 <= i < |init| && k.id == Head(init[i]);
          assert groups[i] == init[i];
        } else {
          assert k.id == Head(groups[|init|]);
        }
      }
      forall i | 0 <= i < |groups| ensures KeyOf(Head(groups[i])) in d.canonicals && d.canonicals[KeyOf(Head(groups[i]))] == groups[i].card {
        if i < |init| { assert groups[i] == init[i]; }
      }
    }
  }

  lemma {:induction false} BuildProducts(groups: seq<Group>, d: Dictionary)
    requires Build(groups) == Ok(d)
    ensures forall id :: id in d.products ==>
      d.products[id] in d.canonicals && d.products[id].KeyOf? && d.products[id].id <= id
  {
    if groups != [] { BuildProducts(groups[..|groups| - 1], Build(groups[..|groups| - 1]).value); }
  }

  lemma {:induction false} BuildHeads(groups: seq<Group>, d: Dictionary)
    requires Build(groups) == Ok(d)
    ensures (forall g :: g in groups ==> g.members != []) && (OwnHeads(d) <==> HeadsStay(groups))
  {
    hide OwnHeads, HeadsStay, WithGroup;
    if groups == [] {
      NoHeads();
    } else {
      var init, g := groups[..|groups| - 1], groups[|groups| - 1];
      var b := Build(init).value;
      BuildHeads(init, b);
      BuildCards(init, b);
      assert groups == init + [g];
      HeadsStayNext(init, g, b);
    }
  }

  lemma NoHeads()
    ensures OwnHeads(Dictionary(map[], map[])) && HeadsStay([])
  {
  }

  lemma HeadsStayNext(init: seq<Group>, g: Group, b: Dictionary)
    requires g.members != [] && (forall h :: h in init ==> h.members != []) && KeyOf(Head(g)) !in b.canonicals
    requires forall k :: k in b.canonicals ==> k.KeyOf? && exists i :: 0 <= i < |init| && k.id == Head(init[i])
    requires forall i :: 0 <= i < |init| ==> KeyOf(Head(init[i])) in b.canonicals
    requires OwnHeads(b) <==> HeadsStay(init)
    ensures OwnHeads(WithGroup(b, g)) <==> HeadsStay(init + [g])
  {
    var groups, d, n := init + [g], WithGroup(b, g), |init|;
    if HeadsStay(groups) {
      forall i, j | 0 <= i < j < n ensures Head(init[i]) !in init[j].members { assert groups[i] == init[i] && groups[j] == init[j]; }
      forall k | k in d.canonicals ensures k.id in d.products && d.products[k.id] == k {
        if k in b.canonicals {
          var i :| 0 <= i < n && k.id == Head(init[i]);
          assert Head(groups[i]) !in groups[n].members;
        }
      }
    } else {
      var i, j :| 0 <= i < j < |groups| && Head(groups[i]) in groups[j].members;
      assert groups[i] == init[i];
      var k := KeyOf(Head(init[i]));
      if j == n {
        assert k in d.canonicals && d.products[k.id] != k;
      } else {
        assert groups[j] == init[j];
        var q :| q in b.canonicals && q.KeyOf? && !(q.id in b.products && b.products[q.id] == q);
        assert q in d.canonicals && q != KeyOf(Head(g));
      }
    }
  }

  /** The built dictionary satisfies the invariant of the corrections exactly when no group
      lists the naming member of an earlier one, as is the case for disjoint groups. */
  lemma BuiltKeyed(groups: seq<Group>, d: Dictionary)
    requires Build(groups) == Ok(d)
    ensures (forall g :: g in groups ==> g.members != []) && (Keyed(d) <==> HeadsStay(groups))
  {
    BuildCards(groups, d);
    BuildProducts(groups, d);
    BuildHeads(groups, d);
    HeadedKeyed(d);
  }

  predicate Disjoint(groups: seq<Group>) {
    forall i, j, x :: 0 <= i < j < |groups| && x in groups[i].members ==> x !in groups[j].members
  }

  /** Disjoint nonempty groups are always built. Whatever corrections then succeed, succeed again
      without effect. */
  lemma DisjointBuilds(groups: seq<Group>)
    requires Disjoint(groups) && forall g :: g in groups ==> g.members != []
    ensures Build(groups).Ok? && Keyed(Build(groups).value)
  {
    hide Keyed, Disjoint, Build;
    DisjointHeads(groups);
    BuildsIff(groups);
    BuiltKeyed(groups, Build(groups).value);
  }

  lemma DisjointHeads(groups: seq<Group>)
    requires Disjoint(groups) && forall g :: g in groups ==> g.members != []
    ensures HeadsStay(groups)
  {
    forall i, j | 0 <= i < j < |groups| ensures Head(groups[i]) !in groups[j].members { assert groups[i] in groups; }
  }
}
