/** Shared vocabulary: options, filtering in order, and the two-part sort key
    (a time, then an id) by which both the ledger validator and the custody
    timeline put their rows in order. */
module Basics {

  datatype Option<+T> = None | Some(value: T)

  /** The elements of xs that satisfy p, in order. */
  function Filter<T>(p: T -> bool, xs: seq<T>): seq<T> {
    if xs == [] then []
    else
      var front := Filter(p, xs[..|xs| - 1]);
      var last := xs[|xs| - 1];
      if p(last) then front + [last] else front
  }

  lemma FilterAppend<T>(p: T -> bool, xs: seq<T>, x: T)
    ensures Filter(p, xs + [x]) == Filter(p, xs) + if p(x) then [x] else []
  {
    assert (xs + [x])[..|xs|] == xs;
  }

  lemma {:induction false} FilterMember<T>(p: T -> bool, xs: seq<T>, x: T)
    ensures x in Filter(p, xs) <==> x in xs && p(x)
  {
    if xs != [] {
      var front := xs[..|xs| - 1];
      FilterMember(p, front, x);
      assert xs == front + [xs[|xs| - 1]];
    }
  }

  lemma {:induction false} FilterConcat<T>(p: T -> bool, xs: seq<T>, ys: seq<T>)
    ensures Filter(p, xs + ys) == Filter(p, xs) + Filter(p, ys)
  {
    if ys == [] {
      assert xs + ys == xs;
    } else {
      var front, last := ys[..|ys| - 1], ys[|ys| - 1];
      assert ys == front + [last] && xs + ys == (xs + front) + [last];
      FilterConcat(p, xs, front);
      FilterAppend(p, xs + front, last);
      FilterAppend(p, front, last);
    }
  }

  /** Sorting keys. Database ids (uuids compared bytewise, or serial numbers)
      are natural numbers; times are microseconds. */
  datatype Key = Key(time: int, id: int)

  predicate Before(a: Key, b: Key) {
    a.time < b.time || (a.time == b.time && a.id < b.id)
  }

  /** xs is strictly increasing by key. */
  ghost predicate Ascending<T>(key: T -> Key, xs: seq<T>) {
    forall i, j | 0 <= i < j < |xs| :: Before(key(xs[i]), key(xs[j]))
  }

  ghost predicate DistinctKeys<T>(key: T -> Key, xs: seq<T>) {
    forall i, j | 0 <= i < j < |xs| :: key(xs[i]) != key(xs[j])
  }

  function InsertBy<T>(key: T -> Key, x: T, xs: seq<T>): seq<T> {
    if xs == [] || Before(key(xs[|xs| - 1]), key(x)) then xs + [x]
    else InsertBy(key, x, xs[..|xs| - 1]) + [xs[|xs| - 1]]
  }

  /** What a query ending in ORDER BY time ASC, id ASC returns. */
  function SortBy<T>(key: T -> Key, xs: seq<T>): seq<T> {
    if xs == [] then [] else InsertBy(key, xs[|xs| - 1], SortBy(key, xs[..|xs| - 1]))
  }

  lemma {:induction false} InsertByKeepsRows<T>(key: T -> Key, x: T, xs: seq<T>)
    ensures multiset(InsertBy(key, x, xs)) == multiset(xs) + multiset{x}
  {
    if xs == [] || Before(key(xs[|xs| - 1]), key(x)) {
    } else {
      var front := xs[..|xs| - 1];
      InsertByKeepsRows(key, x, front);
      assert xs == front + [xs[|xs| - 1]];
    }
  }

  lemma {:induction false} InsertByAscends<T>(key: T -> Key, x: T, xs: seq<T>)
    requires Ascending(key, xs)
    requires forall y | y in xs :: key(y) != key(x)
    ensures Ascending(key, InsertBy(key, x, xs))
  {
    if xs == [] || Before(key(xs[|xs| - 1]), key(x)) {
    } else {
      var front, last := xs[..|xs| - 1], xs[|xs| - 1];
      InsertByAscends(key, x, front);
      InsertByKeepsRows(key, x, front);
      var r := InsertBy(key, x, front);
      forall i | 0 <= i < |r| ensures Before(key(r[i]), key(last)) {
        assert r[i] in multiset(r);
        assert r[i] in front || r[i] == x;
      }
    }
  }

  lemma {:induction false} SortByKeepsRows<T>(key: T -> Key, xs: seq<T>)
    ensures multiset(SortBy(key, xs)) == multiset(xs)
    ensures |SortBy(key, xs)| == |xs|
  {
    if xs != [] {
      var front, last := xs[..|xs| - 1], xs[|xs| - 1];
      SortByKeepsRows(key, front);
      InsertByKeepsRows(key, last, SortBy(key, front));
      assert xs == front + [last];
    }
    assert |multiset(SortBy(key, xs))| == |SortBy(key, xs)|;
  }

  lemma SortByMember<T>(key: T -> Key, xs: seq<T>, x: T)
    ensures x in SortBy(key, xs) <==> x in xs
  {
    SortByKeepsRows(key, xs);
    assert x in SortBy(key, xs) <==> x in multiset(SortBy(key, xs));
    assert x in xs <==> x in multiset(xs);
  }

  lemma {:induction false} SortByAscends<T>(key: T -> Key, xs: seq<T>)
    requires DistinctKeys(key, xs)
    ensures Ascending(key, SortBy(key, xs))
  {
    if xs != [] {
      var front, last := xs[..|xs| - 1], xs[|xs| - 1];
      SortByAscends(key, front);
      forall y | y in SortBy(key, front) ensures key(y) != key(last) {
        SortByMember(key, front, y);
      }
      InsertByAscends(key, last, SortBy(key, front));
    }
  }

  /** Sorting changes nothing exactly when the rows already ascend. */
  lemma {:induction false} SortByFixpoint<T>(key: T -> Key, xs: seq<T>)
    requires DistinctKeys(key, xs)
    ensures SortBy(key, xs) == xs <==> Ascending(key, xs)
  {
    SortByAscends(key, xs);
    if Ascending(key, xs) {
      SortByAscending(key, xs);
    }
  }

  lemma {:induction false} SortByAscending<T>(key: T -> Key, xs: seq<T>)
    requires Ascending(key, xs)
    ensures SortBy(key, xs) == xs
  {
    if xs != [] {
      SortByAscending(key, xs[..|xs| - 1]);
    }
  }

  lemma SortOfTwo<T>(key: T -> Key, x: T, y: T)
    ensures SortBy(key, [x, y]) == if Before(key(x), key(y)) then [x, y] else [y, x]
  {
    assert [x, y][..1] == [x] && [x][..0] == [];
    assert SortBy(key, [x]) == InsertBy(key, x, []) == [x];
    assert SortBy(key, [x, y]) == InsertBy(key, y, [x]);
    assert InsertBy(key, y, []) == [y];
  }

  /** Nothing comes after the last row of a sorted list, ties or not. */
  lemma {:induction false} LastIsGreatest<T>(key: T -> Key, xs: seq<T>, x: T)
    requires x in xs
    ensures SortBy(key, xs) != [] && !Before(key(SortBy(key, xs)[|SortBy(key, xs)| - 1]), key(x))
  {
    var front, last := xs[..|xs| - 1], xs[|xs| - 1];
    var sorted := SortBy(key, front);
    if x in front {
      LastIsGreatest(key, front, x);
    } else {
      assert x == last;
    }
    assert sorted == [] || Before(key(sorted[|sorted| - 1]), key(last)) ==> SortBy(key, xs) == sorted + [last];
  }

  /** Replacing a row by one with the same key replaces it in the sorted list. */
  lemma {:induction false} InsertByEdit<T>(key: T -> Key, x: T, xs: seq<T>, n: nat, y: T) returns (m: nat)
    requires n < |xs| && key(y) == key(xs[n])
    ensures m < |InsertBy(key, x, xs)| && InsertBy(key, x, xs)[m] == xs[n]
    ensures InsertBy(key, x, xs[n := y]) == InsertBy(key, x, xs)[m := y]
  {
    var front, last := xs[..|xs| - 1], xs[|xs| - 1];
    if Before(key(last), key(x)) {
      m := n;
    } else if n == |xs| - 1 {
      assert xs[n := y][..|xs| - 1] == front;
      m := |InsertBy(key, x, front)|;
    } else {
      m := InsertByEdit(key, x, front, n, y);
      assert xs[n := y][..|xs| - 1] == front[n := y];
    }
  }

  lemma {:induction false} InsertByReplace<T>(key: T -> Key, x: T, y: T, xs: seq<T>) returns (m: nat)
    requires key(x) == key(y)
    ensures m < |InsertBy(key, x, xs)| && InsertBy(key, x, xs)[m] == x
    ensures InsertBy(key, y, xs) == InsertBy(key, x, xs)[m := y]
  {
    if xs == [] || Before(key(xs[|xs| - 1]), key(x)) {
      m := |xs|;
    } else {
      m := InsertByReplace(key, x, y, xs[..|xs| - 1]);
    }
  }

  lemma {:induction false} SortByEdit<T>(key: T -> Key, xs: seq<T>, n: nat, y: T) returns (m: nat)
    requires n < |xs| && key(y) == key(xs[n])
    ensures m < |SortBy(key, xs)| && SortBy(key, xs)[m] == xs[n] && SortBy(key, xs[n := y]) == SortBy(key, xs)[m := y]
  {
    var front, last := xs[..|xs| - 1], xs[|xs| - 1];
    if n == |xs| - 1 {
      assert xs[n := y][..|xs| - 1] == front;
      m := InsertByReplace(key, last, y, SortBy(key, front));
    } else {
      m := SortByEdit(key, front, n, y);
      assert xs[n := y][..|xs| - 1] == front[n := y];
      m := InsertByEdit(key, last, SortBy(key, front), m, y);
    }
  }

  /** Replacing a row that is kept by another that is kept. */
  lemma {:induction false} FilterEdit<T>(p: T -> bool, xs: seq<T>, n: nat, y: T) returns (m: nat)
    requires n < |xs| && p(xs[n]) && p(y)
    ensures m < |Filter(p, xs)| && Filter(p, xs)[m] == xs[n] && Filter(p, xs[n := y]) == Filter(p, xs)[m := y]
  {
    var front := xs[..|xs| - 1];
    if n == |xs| - 1 {
      assert xs[n := y][..|xs| - 1] == front;
      m := |Filter(p, front)|;
    } else {
      m := FilterEdit(p, front, n, y);
      assert xs[n := y][..|xs| - 1] == front[n := y];
    }
  }
}
