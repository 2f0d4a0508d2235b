// Order-preserving de-duplication, the `seen`-set loop the server writes
// wherever a list of codes or labels is cleaned.
module Lists {

  predicate Distinct<T(==)>(xs: seq<T>)
  {
    forall i, j :: 0 <= i < j < |xs| ==> xs[i] != xs[j]
  }

  /** Each value at its first occurrence, in the order first seen. */
  function Dedup<T(==)>(xs: seq<T>): (r: seq<T>)
    ensures forall x :: x in r ==> x in xs
    decreases |xs|
  {
    if xs == [] then []
    else
      var d := Dedup(xs[..|xs| - 1]);
      var x := xs[|xs| - 1];
      if x in d then d else d + [x]
  }

  /** The de-duplication step of one more value. */
  function DedupStep<T(==)>(seen: seq<T>, x: T): seq<T>
  {
    if x in seen then seen else seen + [x]
  }

  lemma DedupSnoc<T>(xs: seq<T>, i: int)
    requires 0 <= i < |xs|
    ensures Dedup(xs[..i + 1]) == DedupStep(Dedup(xs[..i]), xs[i])
  {
    assert xs[..i + 1][..i] == xs[..i];
  }

  /** The position of the first occurrence of x. */
  function FirstIndex<T(==)>(xs: seq<T>, x: T): (k: nat)
    requires x in xs
    ensures k < |xs| && xs[k] == x && x !in xs[..k]
  {
    if xs[0] == x then 0
    else
      assert x in xs[1..];
      var k := FirstIndex(xs[1..], x);
      assert xs[..k + 1] == [xs[0]] + xs[1..][..k];
      k + 1
  }

  lemma FirstIndexInit<T>(xs: seq<T>, x: T)
    requires |xs| > 0 && x in xs[..|xs| - 1]
    ensures FirstIndex(xs, x) == FirstIndex(xs[..|xs| - 1], x)
  {
    var init := xs[..|xs| - 1];
    assert xs[..FirstIndex(init, x)] == init[..FirstIndex(init, x)];
  }

  lemma FirstIndexLast<T>(xs: seq<T>)
    requires |xs| > 0 && xs[|xs| - 1] !in xs[..|xs| - 1]
    ensures FirstIndex(xs, xs[|xs| - 1]) == |xs| - 1
  {
    assert xs[..|xs| - 1][..FirstIndex(xs, xs[|xs| - 1])] == xs[..FirstIndex(xs, xs[|xs| - 1])];
  }

  /** The result holds exactly the values of the input, once each. */
  lemma {:induction false} DedupMembers<T>(xs: seq<T>)
    ensures forall x :: x in Dedup(xs) <==> x in xs
    ensures Distinct(Dedup(xs))
    decreases |xs|
  {
    if xs != [] {
      var init := xs[..|xs| - 1];
      DedupMembers(init);
      assert xs == init + [xs[|xs| - 1]];
    }
  }

  /** The values come in the order of their first occurrences. */
  lemma {:induction false} DedupOrder<T>(xs: seq<T>)
    ensures forall i, j :: 0 <= i < j < |Dedup(xs)| ==>
      FirstIndex(xs, Dedup(xs)[i]) < FirstIndex(xs, Dedup(xs)[j])
    decreases |xs|
  {
    DedupMembers(xs);
    if xs != [] {
      var init := xs[..|xs| - 1];
      var x := xs[|xs| - 1];
      DedupOrder(init);
      DedupMembers(init);
      var d := Dedup(init);
      forall y | y in d
        ensures FirstIndex(xs, y) == FirstIndex(init, y)
      {
        FirstIndexInit(xs, y);
      }
      if x !in d {
        FirstIndexLast(xs);
        forall i | 0 <= i < |d|
          ensures FirstIndex(xs, d[i]) < |xs| - 1
        {
          assert d[i] in d;
        }
      }
    }
  }

  lemma DedupMeaning<T>(xs: seq<T>)
    ensures forall x :: x in Dedup(xs) <==> x in xs
    ensures Distinct(Dedup(xs))
    ensures forall i, j :: 0 <= i < j < |Dedup(xs)| ==>
      FirstIndex(xs, Dedup(xs)[i]) < FirstIndex(xs, Dedup(xs)[j])
  {
    DedupMembers(xs);
    DedupOrder(xs);
  }

  /** De-duplicating a duplicate-free list changes nothing. */
  lemma {:induction false} DedupDistinct<T>(xs: seq<T>)
    requires Distinct(xs)
    ensures Dedup(xs) == xs
    decreases |xs|
  {
    if xs != [] {
      var init := xs[..|xs| - 1];
      DedupDistinct(init);
      DedupMeaning(init);
      assert xs[|xs| - 1] !in init;
      assert xs == init + [xs[|xs| - 1]];
    }
  }

  /** De-duplication is idempotent. */
  lemma DedupIdempotent<T>(xs: seq<T>)
    ensures Dedup(Dedup(xs)) == Dedup(xs)
  {
    DedupMeaning(xs);
    DedupDistinct(Dedup(xs));
  }

  // ---------------------------------------------------------------------
  // Filtering

  /** A non-empty list is its front followed by its last element. */
  lemma InitLast<T>(xs: seq<T>)
    requires xs != []
    ensures xs[..|xs| - 1] + [xs[|xs| - 1]] == xs
  {
  }

  /** The front of a concatenation is its first part. */
  lemma AppendPrefix<T>(xs: seq<T>, ys: seq<T>)
    ensures (xs + ys)[..|xs|] == xs
  {
  }

  /** `[f(x) for x in xs]`. */
  function MapAll<A, B>(xs: seq<A>, f: A -> B): (r: seq<B>)
    ensures |r| == |xs| && forall i :: 0 <= i < |xs| ==> r[i] == f(xs[i])
    decreases |xs|
  {
    if xs == [] then [] else MapAll(xs[..|xs| - 1], f) + [f(xs[|xs| - 1])]
  }

  lemma MapAllSnoc<A, B>(xs: seq<A>, f: A -> B, k: int)
    requires 0 <= k < |xs|
    ensures MapAll(xs[..k + 1], f) == MapAll(xs[..k], f) + [f(xs[k])]
  {
    assert xs[..k + 1][..k] == xs[..k];
  }

  /** `[x for x in xs if keep(x)]`. */
  function Filter<T>(xs: seq<T>, keep: T -> bool): (r: seq<T>)
    ensures |r| <= |xs|
    decreases |xs|
  {
    if xs == [] then []
    else Filter(xs[..|xs| - 1], keep) + (if keep(xs[|xs| - 1]) then [xs[|xs| - 1]] else [])
  }

  /** r can be obtained from xs by deleting elements. */
  predicate Subsequence<T(==)>(r: seq<T>, xs: seq<T>)
    decreases |xs|
  {
    if r == [] then true
    else if xs == [] then false
    else if r[|r| - 1] == xs[|xs| - 1] then Subsequence(r[..|r| - 1], xs[..|xs| - 1])
    else Subsequence(r, xs[..|xs| - 1])
  }

  /** The filter keeps exactly the values that pass, in their order. */
  lemma {:induction false} FilterMeaning<T>(xs: seq<T>, keep: T -> bool)
    ensures forall x :: x in Filter(xs, keep) <==> x in xs && keep(x)
    ensures Subsequence(Filter(xs, keep), xs)
    decreases |xs|
  {
    if xs != [] {
      var init := xs[..|xs| - 1];
      var x := xs[|xs| - 1];
      FilterMeaning(init, keep);
      assert xs == init + [x];
      var f := Filter(init, keep);
      if keep(x) {
        assert (f + [x])[..|f|] == f;
      } else {
        assert Filter(xs, keep) == f;
        SubsequenceSnoc(f, init, x);
      }
    }
  }

  lemma {:induction false} SubsequenceSnoc<T>(r: seq<T>, xs: seq<T>, x: T)
    requires Subsequence(r, xs)
    ensures Subsequence(r, xs + [x])
    decreases |xs|, 1
  {
    assert (xs + [x])[..|xs|] == xs;
    if r != [] && r[|r| - 1] == x {
      SubsequenceDrop(r, xs);
    }
  }

  /** Dropping the last element of a subsequence keeps it a subsequence. */
  lemma {:induction false} SubsequenceDrop<T>(r: seq<T>, xs: seq<T>)
    requires r != [] && Subsequence(r, xs)
    ensures Subsequence(r[..|r| - 1], xs)
    decreases |xs|, 0
  {
    var init := xs[..|xs| - 1];
    assert init + [xs[|xs| - 1]] == xs;
    if r[|r| - 1] == xs[|xs| - 1] {
      SubsequenceSnoc(r[..|r| - 1], init, xs[|xs| - 1]);
    } else {
      SubsequenceDrop(r, init);
      SubsequenceSnoc(r[..|r| - 1], init, xs[|xs| - 1]);
    }
  }
}
