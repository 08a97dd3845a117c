/** Finite sums over sets, used for per-worker and per-flux totals, sizes of sets, and lists put together. */
module Sums {

  /** The sum of f over the elements of s. */
  ghost function Sum<T(!new)>(s: set<T>, f: T -> int): int
  {
    if s == {} then 0
    else
      var x :| x in s;
      f(x) + Sum(s - {x}, f)
  }

  /** The worker ids 0, ..., n - 1. */
  ghost function Ids(n: nat): (ids: set<nat>)
    ensures forall i: nat :: i in ids <==> i < n
    ensures |ids| == n
  {
    if n == 0 then {} else Ids(n - 1) + {n - 1}
  }

  /** Any element may be taken out first. */
  lemma {:induction false} SumTake<T(!new)>(s: set<T>, f: T -> int, x: T)
    requires x in s
    ensures Sum(s, f) == f(x) + Sum(s - {x}, f)
    decreases |s|
  {
    var y :| y in s && Sum(s, f) == f(y) + Sum(s - {y}, f);
    if y != x {
      SumTake(s - {y}, f, x);
      SumTake(s - {x}, f, y);
      assert s - {y} - {x} == s - {x} - {y};
    }
  }

  lemma {:induction false} SumSame<T(!new)>(s: set<T>, f: T -> int, g: T -> int)
    requires forall x :: x in s ==> f(x) == g(x)
    ensures Sum(s, f) == Sum(s, g)
    decreases |s|
  {
    if s != {} {
      var x :| x in s;
      SumTake(s, f, x);
      SumTake(s, g, x);
      SumSame(s - {x}, f, g);
    }
  }

  /** Changing f at one element of s changes the sum by the difference there. */
  lemma SumChange<T(!new)>(s: set<T>, f: T -> int, g: T -> int, x: T)
    requires x in s
    requires forall y :: y in s && y != x ==> f(y) == g(y)
    ensures Sum(s, g) == Sum(s, f) - f(x) + g(x)
  {
    SumTake(s, f, x);
    SumTake(s, g, x);
    SumSame(s - {x}, f, g);
  }

  lemma {:induction false} SumAdd<T(!new)>(s: set<T>, f: T -> int, g: T -> int, h: T -> int)
    requires forall x :: x in s ==> h(x) == f(x) + g(x)
    ensures Sum(s, h) == Sum(s, f) + Sum(s, g)
    decreases |s|
  {
    if s != {} {
      var x :| x in s;
      SumTake(s, f, x);
      SumTake(s, g, x);
      SumTake(s, h, x);
      SumAdd(s - {x}, f, g, h);
    }
  }

  lemma {:induction false} SumLe<T(!new)>(s: set<T>, f: T -> int, g: T -> int)
    requires forall x :: x in s ==> f(x) <= g(x)
    ensures Sum(s, f) <= Sum(s, g)
    decreases |s|
  {
    if s != {} {
      var x :| x in s;
      SumTake(s, f, x);
      SumTake(s, g, x);
      SumLe(s - {x}, f, g);
    }
  }

  /** If f never exceeds g and the sums agree, then f and g agree everywhere on s. */
  lemma SumTight<T(!new)>(s: set<T>, f: T -> int, g: T -> int)
    requires forall x :: x in s ==> f(x) <= g(x)
    requires Sum(s, f) == Sum(s, g)
    ensures forall x :: x in s ==> f(x) == g(x)
  {
    forall x | x in s ensures f(x) == g(x) {
      SumTake(s, f, x);
      SumTake(s, g, x);
      SumLe(s - {x}, f, g);
    }
  }

  // ----- Sizes of sets -----

  lemma SubsetSize<T>(a: set<T>, b: set<T>)
    requires a <= b
    ensures |a| <= |b|
  {
    assert b == a + (b - a);
  }

  lemma SubsetSameSize<T>(a: set<T>, b: set<T>)
    requires a <= b && |a| == |b|
    ensures a == b
  {
    assert |b - a| == 0;
  }

  // ----- Lists put together -----

  function Flatten<T>(parts: seq<seq<T>>): seq<T> {
    if parts == [] then [] else Flatten(parts[..|parts| - 1]) + parts[|parts| - 1]
  }

  function LengthAt<T>(parts: seq<seq<T>>, i: nat): int {
    if i < |parts| then |parts[i]| else 0
  }

  lemma {:induction false} FlattenLength<T>(parts: seq<seq<T>>)
    ensures |Flatten(parts)| == Sum(Ids(|parts|), (i: nat) => LengthAt(parts, i))
    decreases |parts|
  {
    if parts != [] {
      var last: nat := |parts| - 1;
      var front := parts[..last];
      FlattenLength(front);
      SumTake(Ids(|parts|), (i: nat) => LengthAt(parts, i), last);
      assert Ids(|parts|) - {last} == Ids(last);
      SumSame(Ids(last), (i: nat) => LengthAt(parts, i), (i: nat) => LengthAt(front, i));
    }
  }

  lemma {:induction false} FlattenHas<T>(parts: seq<seq<T>>, x: T)
    ensures x in Flatten(parts) <==> exists i :: 0 <= i < |parts| && x in parts[i]
    decreases |parts|
  {
    if parts != [] {
      var front := parts[..|parts| - 1];
      FlattenHas(front, x);
      if i :| 0 <= i < |parts| && x in parts[i] {
        assert i < |front| ==> front[i] == parts[i];
      }
      if i :| 0 <= i < |front| && x in front[i] {
        assert parts[i] == front[i];
      }
    }
  }

  /** A part of a collection that has as many elements is all of it. */
  lemma PartSameSize<T>(a: multiset<T>, b: multiset<T>)
    requires a <= b && |a| == |b|
    ensures a == b
  {
    assert b == a + (b - a);
    assert |b - a| == 0;
  }
}
