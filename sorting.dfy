// Python's stable `list.sort` / `sorted`, as an insertion sort over a
// comparison, and Python's ordering of strings (code point by code point,
// a proper prefix first).
module Sorting {

  /** `le` orders every pair and is transitive. */
  ghost predicate TotalPreorder<T(!new)>(le: (T, T) -> bool)
  {
    (forall a, b :: le(a, b) || le(b, a)) &&
    (forall a, b, c :: le(a, b) && le(b, c) ==> le(a, c))
  }

  predicate SortedBy<T>(xs: seq<T>, le: (T, T) -> bool)
  {
    forall i, j :: 0 <= i < j < |xs| ==> le(xs[i], xs[j])
  }

  /** Puts x in front of the first element it does not follow; x going
      before its equals is what keeps the sort stable. */
  function InsertBy<T>(x: T, xs: seq<T>, le: (T, T) -> bool): (r: seq<T>)
    ensures |r| == |xs| + 1
    ensures multiset(r) == multiset(xs) + multiset{x}
    decreases |xs|
  {
    if xs == [] || le(x, xs[0]) then [x] + xs
    else
      assert xs == [xs[0]] + xs[1..];
      [xs[0]] + InsertBy(x, xs[1..], le)
  }

  /** The stable sort of xs under le. */
  function SortBy<T>(xs: seq<T>, le: (T, T) -> bool): (r: seq<T>)
    ensures |r| == |xs|
    ensures multiset(r) == multiset(xs)
    decreases |xs|
  {
    if xs == [] then []
    else
      assert xs == [xs[0]] + xs[1..];
      InsertBy(xs[0], SortBy(xs[1..], le), le)
  }

  lemma {:induction false} InsertSorted<T(!new)>(x: T, xs: seq<T>, le: (T, T) -> bool)
    requires TotalPreorder(le) && SortedBy(xs, le)
    ensures SortedBy(InsertBy(x, xs, le), le)
    decreases |xs|
  {
    if xs != [] && !le(x, xs[0]) {
      var rest := InsertBy(x, xs[1..], le);
      InsertSorted(x, xs[1..], le);
      var r := [xs[0]] + rest;
      forall j | 0 < j < |r| ensures le(r[0], r[j]) {
        assert r[j] in multiset(rest);
        assert r[j] in multiset(xs[1..]) + multiset{x};
        if r[j] != x {
          assert r[j] in xs[1..];
          var k :| 0 <= k < |xs[1..]| && xs[1..][k] == r[j];
          assert xs[k + 1] == r[j];
        }
      }
    }
  }

  /** The result of SortBy is ordered by le. */
  lemma {:induction false} SortSorted<T(!new)>(xs: seq<T>, le: (T, T) -> bool)
    requires TotalPreorder(le)
    ensures SortedBy(SortBy(xs, le), le)
    decreases |xs|
  {
    if xs != [] {
      SortSorted(xs[1..], le);
      InsertSorted(xs[0], SortBy(xs[1..], le), le);
    }
  }

  /** Sorting a list that is already in order leaves it as it is. */
  lemma {:induction false} SortOfSorted<T>(xs: seq<T>, le: (T, T) -> bool)
    requires SortedBy(xs, le)
    ensures SortBy(xs, le) == xs
    decreases |xs|
  {
    if xs != [] {
      var tail := xs[1..];
      assert SortedBy(tail, le) by {
        forall i, j | 0 <= i < j < |tail| ensures le(tail[i], tail[j]) {
          assert tail[i] == xs[i + 1] && tail[j] == xs[j + 1];
        }
      }
      SortOfSorted(tail, le);
      assert tail == [] || le(xs[0], tail[0]);
      assert [xs[0]] + tail == xs;
    }
  }

  /** The elements of xs that tie with y under le, in their order in xs. */
  function Ties<T>(xs: seq<T>, le: (T, T) -> bool, y: T): (r: seq<T>)
    ensures |r| <= |xs|
    ensures forall k :: 0 <= k < |r| ==> le(r[k], y) && le(y, r[k])
    decreases |xs|
  {
    if xs == [] then []
    else (if le(xs[0], y) && le(y, xs[0]) then [xs[0]] else []) + Ties(xs[1..], le, y)
  }

  /** Inserting x keeps the elements tying with y in order, x first among them:
      the elements InsertBy passes over do not tie with x. */
  lemma {:induction false} InsertKeepsTies<T(!new)>(x: T, xs: seq<T>, le: (T, T) -> bool, y: T)
    requires TotalPreorder(le)
    ensures Ties(InsertBy(x, xs, le), le, y) == Ties([x] + xs, le, y)
    decreases |xs|
  {
    assert ([x] + xs)[1..] == xs;
    if xs != [] && !le(x, xs[0]) {
      var r := [xs[0]] + InsertBy(x, xs[1..], le);
      assert r[1..] == InsertBy(x, xs[1..], le);
      InsertKeepsTies(x, xs[1..], le, y);
      assert ([x] + xs[1..])[1..] == xs[1..];
      // xs[0] and x cannot both tie with y, since x does not precede xs[0]
      assert !(le(x, y) && le(y, x) && le(xs[0], y) && le(y, xs[0]));
    }
  }

  /** SortBy is stable: the elements that tie with any y keep their input order. */
  lemma {:induction false} SortStable<T(!new)>(xs: seq<T>, le: (T, T) -> bool, y: T)
    requires TotalPreorder(le)
    ensures Ties(SortBy(xs, le), le, y) == Ties(xs, le, y)
    decreases |xs|
  {
    if xs != [] {
      var rest := SortBy(xs[1..], le);
      SortStable(xs[1..], le, y);
      InsertKeepsTies(xs[0], rest, le, y);
      assert ([xs[0]] + rest)[1..] == rest;
    }
  }

  // ---------------------------------------------------------------------
  // Python's string order

  /** `a <= b` for Python strings. */
  predicate StrLe(a: string, b: string)
    decreases |a|
  {
    a == [] || (b != [] && (a[0] < b[0] || (a[0] == b[0] && StrLe(a[1..], b[1..]))))
  }

  lemma {:induction false} StrLeTotal(a: string, b: string)
    ensures StrLe(a, b) || StrLe(b, a)
    decreases |a|
  {
    if a != [] && b != [] && a[0] == b[0] {
      StrLeTotal(a[1..], b[1..]);
    }
  }

  lemma {:induction false} StrLeTrans(a: string, b: string, c: string)
    requires StrLe(a, b) && StrLe(b, c)
    ensures StrLe(a, c)
    decreases |a|
  {
    if a != [] && b != [] && c != [] && a[0] == b[0] && b[0] == c[0] {
      StrLeTrans(a[1..], b[1..], c[1..]);
    }
  }

  /** Two strings each at most the other are equal. */
  lemma {:induction false} StrLeAntisymmetric(a: string, b: string)
    requires StrLe(a, b) && StrLe(b, a)
    ensures a == b
    decreases |a|
  {
    if a != [] {
      StrLeAntisymmetric(a[1..], b[1..]);
      assert a == [a[0]] + a[1..] && b == [b[0]] + b[1..];
    }
  }

  function StrOrder(): (le: (string, string) -> bool)
    ensures TotalPreorder(le)
    ensures forall a, b :: le(a, b) == StrLe(a, b)
  {
    forall a, b ensures StrLe(a, b) || StrLe(b, a) { StrLeTotal(a, b); }
    forall a, b, c | StrLe(a, b) && StrLe(b, c) ensures StrLe(a, c) { StrLeTrans(a, b, c); }
    (a, b) => StrLe(a, b)
  }

  /** `sorted(names)` for distinct names lists them in strictly increasing order. */
  lemma SortedStringsStrict(names: seq<string>)
    requires forall i, j :: 0 <= i < j < |names| ==> names[i] != names[j]
    ensures forall i, j :: 0 <= i < j < |SortBy(names, StrOrder())| ==>
      StrLe(SortBy(names, StrOrder())[i], SortBy(names, StrOrder())[j]) &&
      SortBy(names, StrOrder())[i] != SortBy(names, StrOrder())[j]
  {
    var le := StrOrder();
    var r := SortBy(names, le);
    SortSorted(names, le);
    DistinctPermutation(names, r);
  }

  /** A permutation of a list without repeats has no repeats. */
  /** Each element of a permutation of xs sits somewhere in xs. */
  lemma PermutationIndex<T>(xs: seq<T>, ys: seq<T>, k: int)
    requires multiset(xs) == multiset(ys) && 0 <= k < |ys|
    ensures exists m :: 0 <= m < |xs| && xs[m] == ys[k]
  {
    assert ys[k] in multiset(ys);
    assert ys[k] in xs;
  }

  lemma DistinctPermutation<T>(xs: seq<T>, ys: seq<T>)
    requires multiset(xs) == multiset(ys)
    requires forall i, j :: 0 <= i < j < |xs| ==> xs[i] != xs[j]
    ensures forall i, j :: 0 <= i < j < |ys| ==> ys[i] != ys[j]
  {
    forall i, j | 0 <= i < j < |ys| ensures ys[i] != ys[j] {
      MultiplicityOne(xs, ys[i]);
      OneCopy(ys, i, j);
    }
  }

  lemma {:induction false} MultiplicityOne<T>(xs: seq<T>, y: T)
    requires forall i, j :: 0 <= i < j < |xs| ==> xs[i] != xs[j]
    ensures multiset(xs)[y] <= 1
    decreases |xs|
  {
    if xs != [] {
      assert xs == [xs[0]] + xs[1..];
      MultiplicityOne(xs[1..], y);
      if xs[0] == y {
        assert y !in xs[1..] by {
          forall k | 0 <= k < |xs[1..]| ensures xs[1..][k] != y {
            assert xs[1..][k] == xs[k + 1];
          }
        }
      }
    }
  }

  /** An element occurring at most once is not repeated at a later position. */
  lemma OneCopy<T>(ys: seq<T>, i: int, j: int)
    requires 0 <= i < j < |ys| && multiset(ys)[ys[i]] <= 1
    ensures ys[i] != ys[j]
  {
    assert ys == ys[..j] + [ys[j]] + ys[j + 1..];
    assert ys[i] in ys[..j];
  }
}
