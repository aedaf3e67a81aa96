/**
Python's `sorted` (stable), as a function, together with `Filter` and the facts the
log parsers, the simulator and the planners need: sorting permutes, orders, leaves
ordered input alone, and commutes with filtering.
*/
module Sorting {

  ghost predicate TotalPreorder<T(!new)>(le: (T, T) -> bool) {
    && (forall x, y :: le(x, y) || le(y, x))
    && (forall x, y, z :: le(x, y) && le(y, z) ==> le(x, z))
  }

  ghost predicate SortedBy<T>(le: (T, T) -> bool, xs: seq<T>) {
    forall i, j | 0 <= i < j < |xs| :: le(xs[i], xs[j])
  }

  lemma SortedSnoc<T(!new)>(le: (T, T) -> bool, xs: seq<T>, x: T)
    ensures SortedBy(le, xs + [x]) <==> SortedBy(le, xs) && forall y | y in xs :: le(y, x)
  {
    var r := xs + [x];
    if SortedBy(le, r) {
      assert forall i, j | 0 <= i < j < |xs| :: xs[i] == r[i] && xs[j] == r[j];
      forall y | y in xs ensures le(y, x) {
        var i :| 0 <= i < |xs| && xs[i] == y;
        assert r[i] == y && r[|xs|] == x;
      }
    }
  }

  lemma SortedAppend<T(!new)>(le: (T, T) -> bool, xs: seq<T>, ys: seq<T>)
    requires SortedBy(le, xs) && SortedBy(le, ys) && forall x, y | x in xs && y in ys :: le(x, y)
    ensures SortedBy(le, xs + ys)
  {
    var r := xs + ys;
    forall i, j | 0 <= i < j < |r| ensures le(r[i], r[j]) {
      assert r[i] == if i < |xs| then xs[i] else ys[i - |xs|];
      assert r[j] == if j < |xs| then xs[j] else ys[j - |xs|];
    }
  }

  /** Inserts `x` before the first element it may precede, so equal elements keep their order. */
  function Insert<T>(le: (T, T) -> bool, x: T, xs: seq<T>): seq<T> {
    if xs == [] || le(x, xs[0]) then [x] + xs else [xs[0]] + Insert(le, x, xs[1..])
  }

  function Sort<T>(le: (T, T) -> bool, xs: seq<T>): seq<T> {
    if xs == [] then [] else Insert(le, xs[0], Sort(le, xs[1..]))
  }

  function Filter<T>(p: T -> bool, xs: seq<T>): seq<T> {
    if xs == [] then []
    else if p(xs[0]) then [xs[0]] + Filter(p, xs[1..])
    else Filter(p, xs[1..])
  }

  lemma {:induction false} InsertPermutes<T>(le: (T, T) -> bool, x: T, xs: seq<T>)
    ensures multiset(Insert(le, x, xs)) == multiset{x} + multiset(xs)
    ensures |Insert(le, x, xs)| == |xs| + 1
  {
    if xs != [] && !le(x, xs[0]) {
      InsertPermutes(le, x, xs[1..]);
      assert xs == [xs[0]] + xs[1..];
    }
  }

  lemma {:induction false} SortPermutes<T>(le: (T, T) -> bool, xs: seq<T>)
    ensures multiset(Sort(le, xs)) == multiset(xs)
    ensures |Sort(le, xs)| == |xs|
  {
    if xs != [] {
      SortPermutes(le, xs[1..]);
      InsertPermutes(le, xs[0], Sort(le, xs[1..]));
      assert xs == [xs[0]] + xs[1..];
    }
  }

  lemma SameElements<T(!new)>(xs: seq<T>, ys: seq<T>)
    requires multiset(xs) == multiset(ys)
    ensures forall x :: x in xs <==> x in ys
  {
    forall x ensures x in xs <==> x in ys {
      assert x in xs <==> x in multiset(xs);
      assert x in ys <==> x in multiset(ys);
    }
  }

  lemma SortElements<T(!new)>(le: (T, T) -> bool, xs: seq<T>)
    ensures forall x :: x in Sort(le, xs) <==> x in xs
  {
    SortPermutes(le, xs);
    SameElements(Sort(le, xs), xs);
  }

  lemma {:induction false} InsertSorted<T(!new)>(le: (T, T) -> bool, x: T, xs: seq<T>)
    requires TotalPreorder(le) && SortedBy(le, xs)
    ensures SortedBy(le, Insert(le, x, xs))
  {
    if xs != [] && !le(x, xs[0]) {
      InsertSorted(le, x, xs[1..]);
      var rest := Insert(le, x, xs[1..]);
      InsertPermutes(le, x, xs[1..]);
      forall j | 0 <= j < |rest| ensures le(xs[0], rest[j]) {
        assert rest[j] in multiset(rest);
        assert rest[j] == x || rest[j] in xs[1..];
      }
    }
  }

  lemma {:induction false} SortSorts<T(!new)>(le: (T, T) -> bool, xs: seq<T>)
    requires TotalPreorder(le)
    ensures SortedBy(le, Sort(le, xs))
  {
    if xs != [] {
      SortSorts(le, xs[1..]);
      InsertSorted(le, xs[0], Sort(le, xs[1..]));
    }
  }

  lemma {:induction false} SortOfSorted<T>(le: (T, T) -> bool, xs: seq<T>)
    requires SortedBy(le, xs)
    ensures Sort(le, xs) == xs
  {
    if xs != [] {
      SortOfSorted(le, xs[1..]);
      assert xs == [xs[0]] + xs[1..];
      if |xs| > 1 {
        assert le(xs[0], xs[1]);
      }
    }
  }

  /** Stability at the head: a sort puts first the earliest of the least elements. */
  lemma {:induction false} SortHead<T(!new)>(le: (T, T) -> bool, xs: seq<T>) returns (i: nat)
    requires TotalPreorder(le) && xs != []
    ensures i < |xs| && Sort(le, xs) != [] && Sort(le, xs)[0] == xs[i]
    ensures forall j | 0 <= j < |xs| :: le(xs[i], xs[j])
    ensures forall j | 0 <= j < i :: !le(xs[j], xs[i])
  {
    var rest := xs[1..];
    i := 0;
    if rest != [] {
      var k := SortHead(le, rest);
      if !le(xs[0], rest[k]) {
        i := k + 1;
      }
      forall j | 0 <= j < |xs| ensures le(xs[i], xs[j]) {
        assert j > 0 ==> le(rest[k], rest[j - 1]);
      }
      forall j | 0 <= j < i ensures !le(xs[j], xs[i]) {
        assert j > 0 ==> !le(rest[j - 1], rest[k]);
      }
    }
  }

  lemma {:induction false} FilterAppend<T>(p: T -> bool, xs: seq<T>, ys: seq<T>)
    ensures Filter(p, xs + ys) == Filter(p, xs) + Filter(p, ys)
  {
    if xs == [] {
      assert xs + ys == ys;
    } else {
      assert (xs + ys)[1..] == xs[1..] + ys;
      FilterAppend(p, xs[1..], ys);
    }
  }

  lemma {:induction false} FilterElements<T(!new)>(p: T -> bool, xs: seq<T>)
    ensures forall x :: x in Filter(p, xs) <==> x in xs && p(x)
  {
    if xs != [] {
      FilterElements(p, xs[1..]);
      assert xs == [xs[0]] + xs[1..];
    }
  }

  lemma {:induction false} FilterInsert<T(!new)>(p: T -> bool, le: (T, T) -> bool, x: T, xs: seq<T>)
    requires TotalPreorder(le) && SortedBy(le, xs)
    ensures Filter(p, Insert(le, x, xs)) == if p(x) then Insert(le, x, Filter(p, xs)) else Filter(p, xs)
  {
    if xs == [] {
    } else if le(x, xs[0]) {
      FilterElements(p, xs);
      var kept := Filter(p, xs);
      assert ([x] + xs)[1..] == xs;
      if kept != [] {
        assert kept[0] in xs;
        assert le(x, kept[0]);
      }
    } else {
      FilterInsert(p, le, x, xs[1..]);
      var rest := Insert(le, x, xs[1..]);
      assert ([xs[0]] + rest)[1..] == rest;
    }
  }

  /** Stability: filtering a sorted stream is sorting the filtered stream. */
  lemma {:induction false} FilterSort<T(!new)>(p: T -> bool, le: (T, T) -> bool, xs: seq<T>)
    requires TotalPreorder(le)
    ensures Filter(p, Sort(le, xs)) == Sort(le, Filter(p, xs))
  {
    if xs != [] {
      FilterSort(p, le, xs[1..]);
      SortSorts(le, xs[1..]);
      FilterInsert(p, le, xs[0], Sort(le, xs[1..]));
    }
  }

  ghost predicate DistinctBy<T, K>(key: T -> K, xs: seq<T>) {
    forall i, j | 0 <= i < j < |xs| :: key(xs[i]) != key(xs[j])
  }

  lemma {:induction false} InsertDistinct<T(!new), K>(le: (T, T) -> bool, key: T -> K, x: T, xs: seq<T>)
    ensures DistinctBy(key, Insert(le, x, xs)) <==>
            DistinctBy(key, xs) && forall y | y in xs :: key(y) != key(x)
  {
    if xs == [] || le(x, xs[0]) {
      HeadDistinct(key, x, xs);
    } else {
      var h, t := xs[0], xs[1..];
      var rest := Insert(le, x, t);
      assert xs == [h] + t;
      InsertDistinct(le, key, x, t);
      InsertElements(le, x, t);
      HeadDistinct(key, h, rest);
      HeadDistinct(key, h, t);
    }
  }

  lemma InsertElements<T(!new)>(le: (T, T) -> bool, x: T, xs: seq<T>)
    ensures forall y :: y in Insert(le, x, xs) <==> y == x || y in xs
  {
    InsertPermutes(le, x, xs);
    assert multiset([x] + xs) == multiset{x} + multiset(xs);
    SameElements(Insert(le, x, xs), [x] + xs);
  }

  lemma HeadDistinct<T, K>(key: T -> K, x: T, xs: seq<T>)
    ensures DistinctBy(key, [x] + xs) <==> DistinctBy(key, xs) && forall y | y in xs :: key(y) != key(x)
  {
    var r := [x] + xs;
    if DistinctBy(key, r) {
      assert forall i, j | 0 <= i < j < |xs| :: xs[i] == r[i + 1] && xs[j] == r[j + 1];
      forall y | y in xs ensures key(y) != key(x) {
        var i :| 0 <= i < |xs| && xs[i] == y;
        assert r[0] == x && r[i + 1] == y;
      }
    }
    if DistinctBy(key, xs) && forall y | y in xs :: key(y) != key(x) {
      forall i, j | 0 <= i < j < |r| ensures key(r[i]) != key(r[j]) {
        assert r[j] == xs[j - 1];
        if i > 0 {
          assert r[i] == xs[i - 1];
        }
      }
    }
  }

  lemma LastDistinct<T, K>(key: T -> K, xs: seq<T>, x: T)
    ensures DistinctBy(key, xs + [x]) <==> DistinctBy(key, xs) && forall y | y in xs :: key(y) != key(x)
  {
    var r := xs + [x];
    assert forall i | 0 <= i < |xs| :: r[i] == xs[i];
    if DistinctBy(key, r) {
      forall y | y in xs ensures key(y) != key(x) {
        var i :| 0 <= i < |xs| && xs[i] == y;
        assert key(r[i]) != key(r[|xs|]);
      }
    }
  }

  lemma {:induction false} FilterDistinct<T(!new), K>(p: T -> bool, key: T -> K, xs: seq<T>)
    requires DistinctBy(key, xs)
    ensures DistinctBy(key, Filter(p, xs))
  {
    if xs != [] {
      FilterDistinct(p, key, xs[1..]);
      FilterElements(p, xs[1..]);
      assert xs == [xs[0]] + xs[1..];
      HeadDistinct(key, xs[0], xs[1..]);
      HeadDistinct(key, xs[0], Filter(p, xs[1..]));
    }
  }

  lemma {:induction false} SortDistinct<T(!new), K>(le: (T, T) -> bool, key: T -> K, xs: seq<T>)
    ensures DistinctBy(key, Sort(le, xs)) <==> DistinctBy(key, xs)
  {
    if xs != [] {
      var x, rest := xs[0], xs[1..];
      SortDistinct(le, key, rest);
      var sorted := Sort(le, rest);
      InsertDistinct(le, key, x, sorted);
      SortPermutes(le, rest);
      SameElements(sorted, rest);
      HeadDistinct(key, x, rest);
      assert xs == [x] + rest;
      forall y | y in sorted ensures y in rest {}
      forall y | y in rest ensures y in sorted {}
    }
  }
}
