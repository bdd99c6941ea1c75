/** Counting in sequences and sets. */
module Counting {

  function Elements<T(==)>(s: seq<T>): set<T> { set x | x in s }

  /** How often `x` occurs. */
  function Count<T(==)>(s: seq<T>, x: T): nat {
    if s == [] then 0 else Count(s[..|s| - 1], x) + if s[|s| - 1] == x then 1 else 0
  }

  lemma {:induction false} CountPositive<T>(s: seq<T>, x: T)
    ensures Count(s, x) > 0 <==> x in s
    ensures Count(s, x) <= |s|
  {
    if s != [] {
      CountPositive(s[..|s| - 1], x);
      assert s == s[..|s| - 1] + [s[|s| - 1]];
    }
  }

  lemma SubsetSize<T>(a: set<T>, b: set<T>)
    requires a <= b
    ensures |a| <= |b| && (|a| == |b| ==> a == b)
  {
    if a != {} {
      var x :| x in a;
      SubsetSize(a - {x}, b - {x});
    }
  }

  lemma AtLeastTwo<T>(s: set<T>)
    ensures |s| >= 2 <==> exists a, b :: a in s && b in s && a != b
  {
    if |s| >= 2 {
      var a :| a in s;
      assert s == {a} + (s - {a});
      var b :| b in s - {a};
    }
    if a, b :| a in s && b in s && a != b { SubsetSize({a, b}, s); }
  }

  lemma SizeNext(a: set<int>, b: set<int>, n: int)
    requires n !in a && b - {n} == a
    ensures |b| == |a| + if n in b then 1 else 0
  {
    assert b == if n in b then a + {n} else a;
  }

  function PlacesOf<T(==)>(s: seq<T>, x: T): set<int> { set j | 0 <= j < |s| && s[j] == x }

  lemma {:induction false} CountMeans<T>(s: seq<T>, x: T)
    ensures Count(s, x) == |PlacesOf(s, x)|
  {
    if s == [] {
      assert PlacesOf(s, x) == {};
    } else {
      var init := s[..|s| - 1];
      CountMeans(init, x);
      SizeNext(PlacesOf(init, x), PlacesOf(s, x), |s| - 1);
    }
  }

  /** The places of `x` in all the lists. */
  function Places<T(==)>(lists: seq<seq<T>>, x: T): set<(int, int)> {
    set i, j | 0 <= i < |lists| && j in PlacesOf(lists[i], x) :: (i, j)
  }

  lemma PlacesNext<T>(lists: seq<seq<T>>, last: seq<T>, x: T)
    ensures |Places(lists + [last], x)| == |Places(lists, x)| + Count(last, x)
  {
    var n, all := |lists|, lists + [last];
    CountMeans(last, x);
    hide PlacesOf, Count;
    var found := PlacesOf(last, x);
    var here: set<(int, int)> := set j | j in found :: (n, j);
    assert forall j :: (j in found ==> (n, j) in here) && ((n, j) in here ==> j in found);
    assert forall y :: y in here ==> y.0 == n;
    SameSize(found, here, n);
    forall i | 0 <= i < n ensures all[i] == lists[i] {}
    assert Places(all, x) == Places(lists, x) + here;
  }

  lemma SameSize<T>(s: set<T>, t: set<(int, T)>, n: int)
    requires (forall j :: j in s <==> (n, j) in t) && forall y :: y in t ==> y.0 == n
    ensures |t| == |s|
  {
    if s == {} {
      assert forall y :: y in t ==> y == (n, y.1) && y.1 in s;
      assert t == {};
    } else {
      var j :| j in s;
      SameSize(s - {j}, t - {(n, j)}, n);
    }
  }
}
