/** The sections a daily crawl needs: a greedy set cover of the published products
    (pipeline/src/mapping/dana-scope.ts, pipeline/src/mapping/dina-scope.ts). */
module ScopeCover {
  import opened Counting

  /** Section names, numbered in their sort order. */
  type Section = nat

  /** `inRoot` is the root test of Dana, `wanted` the category rule. */
  datatype Product = Product(id: nat, inRoot: bool, sections: seq<Section>, wanted: bool)

  /** An entry of the insertion-ordered map of products still to be covered. */
  datatype Entry = Entry(id: nat, sections: seq<Section>)

  /** How often a section is listed among the products still to be covered. */
  function Gain(u: seq<Entry>, x: Section): nat {
    if u == [] then 0 else Gain(u[..|u| - 1], x) + Count(u[|u| - 1].sections, x)
  }

  /** How many products list a section, counting repetitions. */
  function Size(ps: seq<Product>, x: Section): nat {
    if ps == [] then 0 else Size(ps[..|ps| - 1], x) + if ps[|ps| - 1].inRoot then Count(ps[|ps| - 1].sections, x) else 0
  }

  /** What stays when every product of a section is covered. */
  function Without(u: seq<Entry>, x: Section): seq<Entry> {
    if u == [] then []
    else Without(u[..|u| - 1], x) + if x in u[|u| - 1].sections then [] else [u[|u| - 1]]
  }

  predicate Sectioned(u: seq<Entry>) { forall e :: e in u ==> e.sections != [] }

  ghost predicate Listed(u: seq<Entry>, x: Section) { exists e :: e in u && x in e.sections }

  lemma {:induction false} GainPositive(u: seq<Entry>, x: Section)
    ensures Gain(u, x) > 0 <==> Listed(u, x)
  {
    if u != [] {
      var init, e := u[..|u| - 1], u[|u| - 1];
      GainPositive(init, x);
      CountPositive(e.sections, x);
      assert u == init + [e];
      if Listed(u, x) {
        var f :| f in u && x in f.sections;
        assert f in init || f == e;
      }
    }
  }

  lemma {:induction false} WithoutMembers(u: seq<Entry>, x: Section)
    ensures forall e :: e in Without(u, x) <==> e in u && x !in e.sections
    ensures |Without(u, x)| <= |u|
    ensures Listed(u, x) ==> |Without(u, x)| < |u|
  {
    if u != [] {
      WithoutMembers(u[..|u| - 1], x);
      assert u == u[..|u| - 1] + [u[|u| - 1]];
    }
  }

  /** The sort order of the candidates: gain down, size up, name up. */
  predicate Before(u: seq<Entry>, ps: seq<Product>, a: Section, b: Section) {
    || Gain(u, a) > Gain(u, b)
    || (Gain(u, a) == Gain(u, b) && (Size(ps, a) < Size(ps, b) || (Size(ps, a) == Size(ps, b) && a <= b)))
  }

  ghost predicate IsBest(u: seq<Entry>, ps: seq<Product>, b: Section) {
    Gain(u, b) > 0 && forall c :: Gain(u, c) > 0 ==> Before(u, ps, b, c)
  }

  ghost predicate Covers(chosen: set<Section>, u: seq<Entry>) {
    forall e :: e in u ==> exists x :: x in chosen && x in e.sections
  }

  /** A run of the greedy loop up to the products `left`: each choice is the best of what its
      predecessors left over. */
  ghost predicate Partial(u: seq<Entry>, ps: seq<Product>, chosen: seq<Section>, left: seq<Entry>)
    decreases |chosen|
  {
    if chosen == [] then left == u
    else u != [] && IsBest(u, ps, chosen[0]) && Partial(Without(u, chosen[0]), ps, chosen[1..], left)
  }

  ghost predicate Run(u: seq<Entry>, ps: seq<Product>, chosen: seq<Section>) { Partial(u, ps, chosen, []) }

  lemma {:induction false} PartialNext(u: seq<Entry>, ps: seq<Product>, chosen: seq<Section>, left: seq<Entry>, b: Section)
    requires Partial(u, ps, chosen, left) && left != [] && IsBest(left, ps, b)
    ensures Partial(u, ps, chosen + [b], Without(left, b))
    decreases |chosen|
  {
    if chosen == [] {
      assert ([] + [b])[1..] == [];
    } else {
      PartialNext(Without(u, chosen[0]), ps, chosen[1..], left, b);
      assert (chosen + [b])[1..] == chosen[1..] + [b];
    }
  }

  lemma {:induction false} RunUnique(u: seq<Entry>, ps: seq<Product>, a: seq<Section>, b: seq<Section>)
    requires Run(u, ps, a) && Run(u, ps, b)
    ensures a == b
    decreases |a|
  {
    if a != [] {
      assert Before(u, ps, a[0], b[0]) && Before(u, ps, b[0], a[0]);
      RunUnique(Without(u, a[0]), ps, a[1..], b[1..]);
      assert a == [a[0]] + a[1..] && b == [b[0]] + b[1..];
    }
  }

  /** Everything is covered, and no section is chosen twice. */
  lemma {:induction false} RunCovers(u: seq<Entry>, ps: seq<Product>, chosen: seq<Section>)
    requires Run(u, ps, chosen)
    ensures Covers(Elements(chosen), u)
    ensures forall i, j :: 0 <= i < j < |chosen| ==> chosen[i] != chosen[j]
    ensures forall x :: x in chosen ==> Listed(u, x)
    decreases |chosen|
  {
    if chosen != [] {
      var b, rest := chosen[0], chosen[1..];
      var left := Without(u, b);
      WithoutMembers(u, b);
      RunCovers(left, ps, rest);
      forall e | e in u ensures exists x :: x in Elements(chosen) && x in e.sections {
        if b in e.sections {
          assert b in chosen;
        } else {
          assert e in left;
          var x :| x in Elements(rest) && x in e.sections;
          assert x in chosen;
        }
      }
      GainPositive(u, b);
      forall x | x in rest ensures x != b && Listed(u, x) {
        var e :| e in left && x in e.sections;
        assert e in u;
      }
      forall x | x in chosen ensures Listed(u, x) { assert x == b || x in rest; }
      forall i, j | 0 <= i < j < |chosen| ensures chosen[i] != chosen[j] {
        assert chosen[j] == rest[j - 1];
        if i > 0 { assert chosen[i] == rest[i - 1]; }
      }
    }
  }

  /** The products that none of the sections `done` covers. */
  ghost predicate StillOpen(u: seq<Entry>, done: seq<Section>, left: seq<Entry>) {
    forall e :: e in left <==> e in u && forall x :: x in done ==> x !in e.sections
  }

  /** Of the sections of `left`, `b` has the largest gain, the smallest size among those, and the
      first name among those again. */
  ghost predicate Foremost(left: seq<Entry>, ps: seq<Product>, b: Section) {
    && Listed(left, b)
    && (forall c :: Listed(left, c) ==> Gain(left, c) <= Gain(left, b))
    && (forall c :: Listed(left, c) && Gain(left, c) == Gain(left, b) ==> Size(ps, b) <= Size(ps, c))
    && forall c :: Listed(left, c) && Gain(left, c) == Gain(left, b) && Size(ps, c) == Size(ps, b) ==> b <= c
  }

  /** Every choice is the foremost section of the products that no earlier choice covers. */
  lemma {:induction false} ChoiceMeans(u: seq<Entry>, ps: seq<Product>, chosen: seq<Section>, i: nat)
    returns (left: seq<Entry>)
    requires Run(u, ps, chosen) && i < |chosen|
    ensures StillOpen(u, chosen[..i], left) && Foremost(left, ps, chosen[i])
    decreases i
  {
    hide Foremost, IsBest, StillOpen, Without;
    if i == 0 {
      left := u;
      BestMeans(u, ps, chosen[0]);
      NothingDone(u);
    } else {
      var rest := chosen[1..];
      left := ChoiceMeans(Without(u, chosen[0]), ps, rest, i - 1);
      assert chosen[..i] == [chosen[0]] + rest[..i - 1];
      StillOpenNext(u, chosen[0], rest[..i - 1], left);
    }
  }

  lemma BestMeans(u: seq<Entry>, ps: seq<Product>, b: Section)
    requires IsBest(u, ps, b)
    ensures Foremost(u, ps, b)
  {
    hide Gain, Size, Listed;
    forall c ensures Listed(u, c) <==> Gain(u, c) > 0 { GainPositive(u, c); }
  }

  lemma NothingDone(u: seq<Entry>)
    ensures StillOpen(u, [], u)
  {
  }

  lemma StillOpenNext(u: seq<Entry>, x: Section, done: seq<Section>, left: seq<Entry>)
    requires StillOpen(Without(u, x), done, left)
    ensures StillOpen(u, [x] + done, left)
  {
    WithoutMembers(u, x);
  }

  /** What the two counts of a section count: the places where it is listed. */
  lemma {:induction false} GainMeans(u: seq<Entry>, x: Section)
    ensures Gain(u, x) == |Places(seq(|u|, i requires 0 <= i < |u| => u[i].sections), x)|
  {
    if u != [] {
      var n := |u| - 1;
      var init := seq(n, i requires 0 <= i < n => u[i].sections);
      GainMeans(u[..n], x);
      assert init == seq(n, i requires 0 <= i < n => u[..n][i].sections);
      PlacesNext(init, u[n].sections, x);
      assert seq(|u|, i requires 0 <= i < |u| => u[i].sections) == init + [u[n].sections];
    }
  }

  function RootSections(ps: seq<Product>): seq<seq<Section>> {
    seq(|ps|, i requires 0 <= i < |ps| => if ps[i].inRoot then ps[i].sections else [])
  }

  lemma {:induction false} SizeMeans(ps: seq<Product>, x: Section)
    ensures Size(ps, x) == |Places(RootSections(ps), x)|
  {
    if ps != [] {
      var n := |ps| - 1;
      var last: seq<Section> := if ps[n].inRoot then ps[n].sections else [];
      SizeMeans(ps[..n], x);
      PlacesNext(RootSections(ps[..n]), last, x);
      assert RootSections(ps) == RootSections(ps[..n]) + [last];
    }
  }

  // ----- how far the greedy choice is from the best one -----

  function Hits(u: seq<Entry>, x: Section): nat {
    if u == [] then 0 else Hits(u[..|u| - 1], x) + if x in u[|u| - 1].sections then 1 else 0
  }

  lemma {:induction false} HitsLeave(u: seq<Entry>, x: Section)
    ensures |Without(u, x)| + Hits(u, x) == |u|
    ensures Hits(u, x) <= Gain(u, x)
  {
    if u != [] {
      HitsLeave(u[..|u| - 1], x);
      CountPositive(u[|u| - 1].sections, x);
    }
  }

  lemma {:induction false} GainShrinks(u: seq<Entry>, x: Section, c: Section)
    ensures Gain(Without(u, x), c) <= Gain(u, c)
  {
    if u != [] {
      var init := u[..|u| - 1];
      GainShrinks(init, x, c);
      if x in u[|u| - 1].sections {
        assert Without(u, x) == Without(init, x);
      } else {
        assert Without(u, x)[..|Without(u, x)| - 1] == Without(init, x);
      }
    }
  }

  /** If no section of a cover is listed more than `top` times, the products left are at most
      `top` times the cover. */
  lemma {:induction false} CoverBound(u: seq<Entry>, cover: set<Section>, top: nat)
    requires Covers(cover, u) && forall c :: c in cover ==> Gain(u, c) <= top
    ensures |u| <= top * |cover|
    decreases |cover|
  {
    if u != [] {
      assert u[0] in u;
      var c :| c in cover && c in u[0].sections;
      var left, fewer := Without(u, c), cover - {c};
      HitsLeave(u, c);
      CoverLess(u, cover, c);
      forall d | d in fewer ensures Gain(left, d) <= top { GainShrinks(u, c, d); }
      hide Covers, Gain, Without, Hits;
      CoverBound(left, fewer, top);
      assert |cover| == |fewer| + 1;
      OneFactorMore(top, |fewer|);
    }
  }

  lemma OneFactorMore(top: nat, n: nat)
    ensures top * (n + 1) == top * n + top
  {
  }

  lemma CoverLess(u: seq<Entry>, cover: set<Section>, c: Section)
    requires Covers(cover, u) && c in cover
    ensures Covers(cover - {c}, Without(u, c))
  {
  }

  /** The greedy step: the best section's gain times the size of any cover is at least the
      number of products still uncovered. */
  lemma GreedyStep(u: seq<Entry>, ps: seq<Product>, b: Section, cover: set<Section>)
    requires IsBest(u, ps, b) && Covers(cover, u)
    ensures Gain(u, b) * |cover| >= |u|
  {
    CoverBound(u, cover, Gain(u, b));
  }

  function Harmonic(n: nat): real {
    if n == 0 then 0.0 else Harmonic(n - 1) + 1.0 / n as real
  }

  lemma {:induction false} HarmonicDrop(n: nat, h: nat)
    requires 0 < n && h <= n
    ensures (Harmonic(n) - Harmonic(n - h)) * n as real >= h as real
  {
    if h > 0 {
      HarmonicDrop(n, h - 1);
      var k := n - h + 1;
      assert Harmonic(k) == Harmonic(k - 1) + 1.0 / k as real;
      Reciprocal(k, n);
    }
  }

  lemma Reciprocal(k: nat, n: nat)
    requires 0 < k <= n
    ensures (1.0 / k as real) * n as real >= 1.0
  {
  }

  /** `most` bounds how often one product lists one section. */
  ghost predicate Multiplicity(u: seq<Entry>, most: nat) {
    forall e, x :: e in u ==> Count(e.sections, x) <= most
  }

  lemma {:induction false} GainWithin(u: seq<Entry>, x: Section, most: nat)
    requires Multiplicity(u, most)
    ensures Gain(u, x) <= most * Hits(u, x)
  {
    if u != [] {
      var e := u[|u| - 1];
      assert e in u;
      GainWithin(u[..|u| - 1], x, most);
      CountPositive(e.sections, x);
      OneFactorMore(most, Hits(u[..|u| - 1], x));
    }
  }

  lemma Scaled(w: real, d: real, r: real, h: real)
    requires r > 0.0 && w >= 0.0 && d * r >= h && w * h >= r
    ensures w * d >= 1.0
  {
  }

  /** What a cover of `size` sections allows the greedy loop for `n` products. */
  function Budget(most: nat, size: nat, n: nat): real { (most * size) as real * Harmonic(n) }

  /** The drop of the harmonic number pays for one choice. */
  lemma Paid(n: nat, h: nat, most: nat, size: nat, gain: nat)
    requires 0 < n && h <= n && gain * size >= n && gain <= most * h
    ensures Budget(most, size, n) >= 1.0 + Budget(most, size, n - h)
  {
    HarmonicDrop(n, h);
    Weight(n, h, most, size, gain);
    hide Harmonic;
    var w, d := (most * size) as real, Harmonic(n) - Harmonic(n - h);
    AsReal(most * size, h);
    Scaled(w, d, n as real, h as real);
    assert w * d == w * Harmonic(n) - w * Harmonic(n - h);
  }

  lemma AsReal(a: nat, b: nat)
    ensures (a * b) as real == a as real * b as real
  {
  }

  lemma Weight(n: nat, h: nat, most: nat, size: nat, gain: nat)
    requires gain * size >= n && gain <= most * h
    ensures (most * size) * h >= n
  {
  }

  lemma BoundStep(u: seq<Entry>, ps: seq<Product>, b: Section, cover: set<Section>, most: nat)
    requires u != [] && IsBest(u, ps, b) && Covers(cover, u) && Multiplicity(u, most)
    ensures Covers(cover, Without(u, b)) && Multiplicity(Without(u, b), most)
    ensures Budget(most, |cover|, |u|) >= 1.0 + Budget(most, |cover|, |Without(u, b)|)
  {
    WithoutMembers(u, b);
    HitsLeave(u, b);
    GreedyStep(u, ps, b, cover);
    GainWithin(u, b, most);
    hide Gain, Hits, Without, Budget;
    Paid(|u|, Hits(u, b), most, |cover|, Gain(u, b));
  }

  /** For every cover of the products, the greedy choice is at most the harmonic number of their
      count times as large; a product listing a section up to `most` times costs that factor. */
  lemma {:induction false} GreedyBound(u: seq<Entry>, ps: seq<Product>, chosen: seq<Section>, cover: set<Section>, most: nat)
    requires Run(u, ps, chosen) && Covers(cover, u) && Multiplicity(u, most)
    ensures |chosen| as real <= Budget(most, |cover|, |u|)
    decreases |chosen|
  {
    if chosen == [] {
      assert Harmonic(|u|) == 0.0;
    } else {
      hide Budget;
      BoundStep(u, ps, chosen[0], cover, most);
      GreedyBound(Without(u, chosen[0]), ps, chosen[1..], cover, most);
    }
  }

  // ----- the program -----

  method Gains(u: seq<Entry>) returns (gain: map<Section, nat>)
    ensures forall x :: (x in gain <==> Gain(u, x) > 0) && (x in gain ==> gain[x] == Gain(u, x))
  {
    gain := map[];
    for i := 0 to |u|
      invariant forall x :: (x in gain <==> Gain(u[..i], x) > 0) && (x in gain ==> gain[x] == Gain(u[..i], x))
    {
      var secs := u[i].sections;
      assert u[..i + 1][..i] == u[..i];
      for j := 0 to |secs|
        invariant forall x ::
          (x in gain <==> Gain(u[..i], x) + Count(secs[..j], x) > 0) &&
          (x in gain ==> gain[x] == Gain(u[..i], x) + Count(secs[..j], x))
      {
        assert secs[..j + 1][..j] == secs[..j];
        gain := gain[secs[j] := (if secs[j] in gain then gain[secs[j]] else 0) + 1];
      }
      assert secs[..|secs|] == secs;
    }
    assert u[..|u|] == u;
  }

  predicate Precedes(gain: map<Section, nat>, size: map<Section, nat>, a: Section, b: Section)
    requires a in gain && b in gain && a in size && b in size
  {
    gain[a] > gain[b] || (gain[a] == gain[b] && (size[a] < size[b] || (size[a] == size[b] && a <= b)))
  }

  /** The first of the candidates in their sort order. */
  method Best(u: seq<Entry>, ps: seq<Product>, gain: map<Section, nat>, size: map<Section, nat>)
    returns (best: Section)
    requires gain.Keys != {} && forall x ::
      (x in gain <==> Gain(u, x) > 0) && (x in gain ==> gain[x] == Gain(u, x))
    requires forall x :: x in gain ==> x in size && size[x] == Size(ps, x)
    ensures IsBest(u, ps, best)
  {
    hide Gain, Size;
    best :| best in gain;
    var rest := gain.Keys;
    while rest != {}
      invariant best in gain && rest <= gain.Keys
      invariant forall c :: c in gain && c !in rest ==> Before(u, ps, best, c)
    {
      var c :| c in rest;
      rest := rest - {c};
      if Precedes(gain, size, c, best) { best := c; }
    }
  }

  /** The greedy loop. */
  method Choose(ps: seq<Product>, u: seq<Entry>, size: map<Section, nat>)
    returns (chosen: seq<Section>, covered: nat)
    requires Sectioned(u) && forall x :: Listed(u, x) ==> x in size && size[x] == Size(ps, x)
    ensures Run(u, ps, chosen) && covered == |u|
  {
    hide Gain, Size, Partial;
    var uncovered := u;
    chosen, covered := [], 0;
    assert Partial(u, ps, chosen, uncovered) by { PartialNone(u, ps); }
    while uncovered != []
      invariant Partial(u, ps, chosen, uncovered) && covered + |uncovered| == |u|
      invariant forall e :: e in uncovered ==> e in u
      decreases |uncovered|
    {
      var gain := Gains(uncovered);
      forall x ensures x in gain <==> Listed(uncovered, x) { GainPositive(uncovered, x); }
      assert uncovered[0] in uncovered && Listed(uncovered, uncovered[0].sections[0]);
      var best := Best(uncovered, ps, gain, size);
      PartialNext(u, ps, chosen, uncovered, best);
      GainPositive(uncovered, best);
      WithoutMembers(uncovered, best);
      chosen := chosen + [best];
      var left, done := Delete(uncovered, best);
      uncovered, covered := left, covered + done;
    }
  }

  lemma PartialNone(u: seq<Entry>, ps: seq<Product>)
    ensures Partial(u, ps, [], u)
  {
  }

  method Delete(u: seq<Entry>, best: Section) returns (left: seq<Entry>, done: nat)
    ensures left == Without(u, best) && |left| + done == |u|
  {
    left, done := [], 0;
    for i := 0 to |u|
      invariant left == Without(u[..i], best) && |left| + done == i
    {
      assert u[..i + 1][..i] == u[..i];
      if best in u[i].sections { done := done + 1; } else { left := left + [u[i]]; }
    }
    assert u[..|u|] == u;
  }

  // ----- from the scraped file to the scope file -----

  /** Setting a key of an insertion-ordered map. */
  function Put(u: seq<Entry>, id: nat, secs: seq<Section>): seq<Entry> {
    if u == [] then [Entry(id, secs)]
    else if u[0].id == id then [Entry(id, secs)] + u[1..]
    else [u[0]] + Put(u[1..], id, secs)
  }

  predicate InScope(p: Product) { p.inRoot && p.wanted }

  predicate Coverable(p: Product) { InScope(p) && p.sections != [] }

  function Uncovered(ps: seq<Product>): seq<Entry> {
    if ps == [] then [] else
      var u, p := Uncovered(ps[..|ps| - 1]), ps[|ps| - 1];
      if Coverable(p) then Put(u, p.id, p.sections) else u
  }

  function Wanted(ps: seq<Product>): nat {
    if ps == [] then 0 else Wanted(ps[..|ps| - 1]) + if InScope(ps[|ps| - 1]) then 1 else 0
  }

  function Unsectioned(ps: seq<Product>): nat {
    if ps == [] then 0 else Unsectioned(ps[..|ps| - 1]) + if InScope(ps[|ps| - 1]) && ps[|ps| - 1].sections == [] then 1 else 0
  }

  predicate HasId(u: seq<Entry>, id: nat) { exists e :: e in u && e.id == id }

  ghost predicate DistinctIds(u: seq<Entry>) { forall i, j :: 0 <= i < j < |u| ==> u[i].id != u[j].id }

  lemma DistinctFirst(u: seq<Entry>)
    requires u != []
    ensures DistinctIds(u) <==> DistinctIds(u[1..]) && forall e :: e in u[1..] ==> e.id != u[0].id
  {
  }

  lemma {:induction false} PutFacts(u: seq<Entry>, id: nat, secs: seq<Section>)
    requires DistinctIds(u)
    ensures forall e :: e in Put(u, id, secs) <==> e == Entry(id, secs) || (e in u && e.id != id)
    ensures |Put(u, id, secs)| == |u| + if HasId(u, id) then 0 else 1
    ensures DistinctIds(Put(u, id, secs))
  {
    var put := Put(u, id, secs);
    if u != [] {
      hide DistinctIds;
      assert u == [u[0]] + u[1..];
      assert u[0] in u;
      DistinctFirst(u);
      HasFirst(u, id);
      DistinctFirst(put);
      if u[0].id == id {
        assert put[1..] == u[1..];
      } else {
        PutFacts(u[1..], id, secs);
        assert put[1..] == Put(u[1..], id, secs);
      }
    }
  }

  lemma HasFirst(u: seq<Entry>, id: nat)
    requires u != []
    ensures HasId(u, id) <==> u[0].id == id || HasId(u[1..], id)
  {
  }

  /** The sections of the last coverable product with an id; none if there is no such product. */
  function Latest(ps: seq<Product>, id: nat): seq<Section> {
    if ps == [] then []
    else if Coverable(ps[|ps| - 1]) && ps[|ps| - 1].id == id then ps[|ps| - 1].sections
    else Latest(ps[..|ps| - 1], id)
  }

  lemma {:induction false} LatestMeans(ps: seq<Product>, id: nat)
    ensures Latest(ps, id) != [] <==> exists i :: 0 <= i < |ps| && Coverable(ps[i]) && ps[i].id == id
    ensures forall i ::
      0 <= i < |ps| && Coverable(ps[i]) && ps[i].id == id &&
      (forall j :: i < j < |ps| && Coverable(ps[j]) ==> ps[j].id != id) ==>
      Latest(ps, id) == ps[i].sections
  {
    if ps != [] {
      var n, init := |ps| - 1, ps[..|ps| - 1];
      LatestMeans(init, id);
      assert forall i :: 0 <= i < n ==> init[i] == ps[i];
    }
  }

  /** Two coverable products under one id: the second takes the first one's place. */
  ghost predicate Repeated(ps: seq<Product>) {
    exists i, j :: 0 <= i < j < |ps| && Coverable(ps[i]) && Coverable(ps[j]) && ps[i].id == ps[j].id
  }

  lemma RepeatedNext(ps: seq<Product>)
    requires ps != []
    ensures Repeated(ps) <==>
      Repeated(ps[..|ps| - 1]) || (Coverable(ps[|ps| - 1]) && Latest(ps[..|ps| - 1], ps[|ps| - 1].id) != [])
  {
    var n, init, p := |ps| - 1, ps[..|ps| - 1], ps[|ps| - 1];
    assert forall i :: 0 <= i < n ==> init[i] == ps[i];
    LatestMeans(init, p.id);
    hide Latest;
    if Repeated(ps) && !Repeated(init) {
      var i, j :| 0 <= i < j < |ps| && Coverable(ps[i]) && Coverable(ps[j]) && ps[i].id == ps[j].id;
      assert j == n && Coverable(init[i]);
    }
    if Repeated(init) {
      var i, j :| 0 <= i < j < |init| && Coverable(init[i]) && Coverable(init[j]) && init[i].id == init[j].id;
      assert Coverable(ps[i]) && Coverable(ps[j]);
    }
  }

  /** The products to cover are the coverable ones, the last under each id; those and the
      unsectioned ones make up the scope exactly when no id repeats. */
  lemma {:induction false} UncoveredFacts(ps: seq<Product>)
    ensures DistinctIds(Uncovered(ps))
    ensures forall e :: e in Uncovered(ps) <==> e.sections != [] && e.sections == Latest(ps, e.id)
    ensures |Uncovered(ps)| + Unsectioned(ps) <= Wanted(ps)
    ensures |Uncovered(ps)| + Unsectioned(ps) == Wanted(ps) <==> !Repeated(ps)
  {
    if ps != [] {
      var init, p := ps[..|ps| - 1], ps[|ps| - 1];
      var u := Uncovered(init);
      UncoveredFacts(init);
      assert HasId(u, p.id) <==> Latest(init, p.id) != [] by {
        if Latest(init, p.id) != [] { assert Entry(p.id, Latest(init, p.id)) in u; }
      }
      RepeatedNext(ps);
      hide Repeated, HasId;
      if Coverable(p) { PutFacts(u, p.id, p.sections); }
    }
  }

  lemma {:induction false} ListedSized(ps: seq<Product>, x: Section)
    ensures Listed(Uncovered(ps), x) ==> Size(ps, x) > 0
  {
    if Listed(Uncovered(ps), x) {
      UncoveredFacts(ps);
      var e :| e in Uncovered(ps) && x in e.sections;
      LatestSized(ps, e.id, x);
    }
  }

  lemma {:induction false} LatestSized(ps: seq<Product>, id: nat, x: Section)
    requires x in Latest(ps, id)
    ensures Size(ps, x) > 0
  {
    var p := ps[|ps| - 1];
    if Coverable(p) && p.id == id { CountPositive(p.sections, x); } else { LatestSized(ps[..|ps| - 1], id, x); }
  }

  /** The products in the root that the category rule wants, and those of them without sections. */
  function WantedProducts(ps: seq<Product>): set<int> { set i | 0 <= i < |ps| && ps[i].inRoot && ps[i].wanted }

  function BareProducts(ps: seq<Product>): set<int> { set i | 0 <= i < |ps| && ps[i].inRoot && ps[i].wanted && ps[i].sections == [] }

  lemma {:induction false} CountersMean(ps: seq<Product>)
    ensures Wanted(ps) == |WantedProducts(ps)| && Unsectioned(ps) == |BareProducts(ps)|
  {
    if ps != [] {
      var init, p := ps[..|ps| - 1], ps[|ps| - 1];
      CountersMean(init);
      assert ps == init + [p];
      WantedNext(init, p);
      BareNext(init, p);
      hide WantedProducts, BareProducts;
    }
  }

  lemma WantedNext(init: seq<Product>, p: Product)
    ensures |WantedProducts(init + [p])| == |WantedProducts(init)| + if p.inRoot && p.wanted then 1 else 0
  {
    assert forall i :: 0 <= i < |init| ==> (init + [p])[i] == init[i];
    SizeNext(WantedProducts(init), WantedProducts(init + [p]), |init|);
  }

  lemma BareNext(init: seq<Product>, p: Product)
    ensures |BareProducts(init + [p])| == |BareProducts(init)| + if p.inRoot && p.wanted &&
      p.sections == [] then 1 else 0
  {
    assert forall i :: 0 <= i < |init| ==> (init + [p])[i] == init[i];
    SizeNext(BareProducts(init), BareProducts(init + [p]), |init|);
  }

  datatype Scope = Scope(sections: seq<Section>, coveredProducts: nat, scopeProducts: nat, unsectionedProducts: nat)

  predicate Ascending(s: seq<Section>) { forall i, j :: 0 <= i < j < |s| ==> s[i] <= s[j] }

  function Insert(x: Section, s: seq<Section>): (r: seq<Section>)
    ensures multiset(r) == multiset(s) + multiset{x}
  {
    if s == [] || x <= s[0] then [x] + s else
      assert s == [s[0]] + s[1..];
      [s[0]] + Insert(x, s[1..])
  }

  lemma {:induction false} InsertAscends(x: Section, s: seq<Section>)
    requires Ascending(s)
    ensures Ascending(Insert(x, s))
  {
    if s != [] && x > s[0] {
      var rest := Insert(x, s[1..]);
      InsertAscends(x, s[1..]);
      forall j | 0 <= j < |rest| ensures s[0] <= rest[j] {
        assert rest[j] in multiset(rest);
        if rest[j] != x {
          assert rest[j] in multiset(s[1..]);
          var i :| 0 <= i < |s[1..]| && s[1..][i] == rest[j];
          assert s[0] <= s[i + 1];
        }
      }
    }
  }

  /** The sort of the listed sections. */
  function Sorted(s: seq<Section>): (r: seq<Section>)
    ensures Ascending(r) && multiset(r) == multiset(s)
  {
    if s == [] then [] else
      assert s == [s[0]] + s[1..];
      InsertAscends(s[0], Sorted(s[1..]));
      Insert(s[0], Sorted(s[1..]))
  }

  /** The first loop: section sizes, the products to cover, and the counters. */
  method Collect(ps: seq<Product>)
    returns (size: map<Section, nat>, u: seq<Entry>, wanted: nat, unsectioned: nat)
    ensures forall x :: (x in size <==> Size(ps, x) > 0) && (x in size ==> size[x] == Size(ps, x))
    ensures u == Uncovered(ps) && wanted == Wanted(ps) && unsectioned == Unsectioned(ps)
  {
    size, u, wanted, unsectioned := map[], [], 0, 0;
    for i := 0 to |ps|
      invariant forall x :: (x in size <==> Size(ps[..i], x) > 0) && (x in size ==> size[x] == Size(ps[..i], x))
      invariant u == Uncovered(ps[..i]) && wanted == Wanted(ps[..i]) && unsectioned == Unsectioned(ps[..i])
    {
      var p := ps[i];
      assert ps[..i + 1][..i] == ps[..i];
      if !p.inRoot { continue; }
      for j := 0 to |p.sections|
        invariant forall x ::
          (x in size <==> Size(ps[..i], x) + Count(p.sections[..j], x) > 0) &&
          (x in size ==> size[x] == Size(ps[..i], x) + Count(p.sections[..j], x))
      {
        assert p.sections[..j + 1][..j] == p.sections[..j];
        size := size[p.sections[j] := (if p.sections[j] in size then size[p.sections[j]] else 0) + 1];
      }
      assert p.sections[..|p.sections|] == p.sections;
      if p.wanted {
        wanted := wanted + 1;
        if |p.sections| > 0 { u := Put(u, p.id, p.sections); } else { unsectioned := unsectioned + 1; }
      }
    }
    assert ps[..|ps|] == ps;
  }

  /** computeDanaScope. */
  method ComputeDanaScope(ps: seq<Product>) returns (r: Scope)
    ensures exists chosen :: Run(Uncovered(ps), ps, chosen) && r.sections == Sorted(chosen)
    ensures r.coveredProducts == |Uncovered(ps)| && r.scopeProducts == Wanted(ps) &&
      r.unsectionedProducts == Unsectioned(ps)
  {
    var size, u, wanted, unsectioned := Collect(ps);
    forall x | Listed(u, x) ensures x in size { ListedSized(ps, x); }
    UncoveredFacts(ps);
    var chosen, covered := Choose(ps, u, size);
    r := Scope(Sorted(chosen), covered, wanted, unsectioned);
  }

  /** What the scope file promises for any scraped file: every coverable product, the last under
      its id, lies in a listed section. */
  lemma ScopeCovers(ps: seq<Product>, chosen: seq<Section>, i: nat)
    requires Run(Uncovered(ps), ps, chosen)
    requires i < |ps| && Coverable(ps[i]) && forall j :: i < j < |ps| && Coverable(ps[j]) ==>
      ps[j].id != ps[i].id
    ensures exists x :: x in Sorted(chosen) && x in ps[i].sections
  {
    var u := Uncovered(ps);
    UncoveredFacts(ps);
    LatestMeans(ps, ps[i].id);
    RunCovers(u, ps, chosen);
    var e := Entry(ps[i].id, ps[i].sections);
    assert e in u;
    var x :| x in Elements(chosen) && x in e.sections;
    assert x in multiset(chosen) && x in multiset(Sorted(chosen));
  }

  // ----- Dina: the same loop over de-duplicated category ids -----

  function Dedup(ids: seq<Section>): (r: seq<Section>)
    ensures forall x :: (x in r <==> x in ids) && Count(r, x) <= 1
  {
    if ids == [] then [] else
      var init, x := Dedup(ids[..|ids| - 1]), ids[|ids| - 1];
      CountPositive(init, x);
      assert ids == ids[..|ids| - 1] + [x];
      assert (init + [x])[..|init|] == init;
      if x in init then init else init + [x]
  }

  /** dinaCategoryIds on every product; Dina has no root test. */
  function DinaProducts(ps: seq<Product>): seq<Product> {
    seq(|ps|, i requires 0 <= i < |ps| => Product(ps[i].id, true, Dedup(ps[i].sections), ps[i].wanted))
  }

  lemma {:induction false} DinaDistinct(ps: seq<Product>)
    ensures Multiplicity(Uncovered(DinaProducts(ps)), 1)
  {
    var qs := DinaProducts(ps);
    UncoveredFacts(qs);
    forall e, x | e in Uncovered(qs) ensures Count(e.sections, x) <= 1 {
      LatestSource(qs, e.id);
    }
  }

  lemma {:induction false} LatestSource(ps: seq<Product>, id: nat)
    ensures Latest(ps, id) == [] || exists i :: 0 <= i < |ps| && ps[i].sections == Latest(ps, id)
  {
    if ps != [] {
      var init := ps[..|ps| - 1];
      LatestSource(init, id);
      if !(Coverable(ps[|ps| - 1]) && ps[|ps| - 1].id == id) && Latest(ps, id) != [] {
        var i :| 0 <= i < |init| && init[i].sections == Latest(init, id);
        assert ps[i] == init[i];
      } else if Latest(ps, id) != [] {
        assert ps[|ps| - 1].sections == Latest(ps, id);
      }
    }
  }

  /** computeDinaScope, with its bound: no covering set of categories is smaller by more than the
      harmonic factor. */
  method ComputeDinaScope(raw: seq<Product>) returns (r: Scope)
    ensures exists chosen ::
      Run(Uncovered(DinaProducts(raw)), DinaProducts(raw), chosen) && r.sections == Sorted(chosen)
    ensures r.coveredProducts == |Uncovered(DinaProducts(raw))| && r.scopeProducts == Wanted(DinaProducts(raw))
    ensures forall cover :: Covers(cover, Uncovered(DinaProducts(raw))) ==>
      |r.sections| as real <= Budget(1, |cover|, r.coveredProducts)
  {
    var ps := DinaProducts(raw);
    var size, u, wanted, unsectioned := Collect(ps);
    forall x | Listed(u, x) ensures x in size { ListedSized(ps, x); }
    UncoveredFacts(ps);
    DinaDistinct(raw);
    var chosen, covered := Choose(ps, u, size);
    r := Scope(Sorted(chosen), covered, wanted, unsectioned);
    assert |r.sections| == |multiset(r.sections)| == |multiset(chosen)|;
    forall cover | Covers(cover, u) ensures |r.sections| as real <= Budget(1, |cover|, covered) {
      GreedyBound(u, ps, chosen, cover, 1);
    }
  }
}
