// Grouping a list by a key into a dictionary of lists, keys in the order
// first seen: the `setdefault(key, []).append(x)` loop the server uses to
// gather schools by district.
module Grouping {
  import opened Lists

  /** The key of each element, in order. */
  function KeySeq<T, K>(xs: seq<T>, key: T -> K): (r: seq<K>)
    ensures |r| == |xs| && forall i :: 0 <= i < |xs| ==> r[i] == key(xs[i])
  {
    seq(|xs|, i requires 0 <= i < |xs| => key(xs[i]))
  }

  function HasKey<T, K(==)>(key: T -> K, k: K): T -> bool
  {
    x => key(x) == k
  }

  /** The elements with key k, in order. */
  function GroupOf<T, K(==)>(xs: seq<T>, key: T -> K, k: K): seq<T>
  {
    Filter(xs, HasKey(key, k))
  }

  lemma GroupSnoc<T, K>(xs: seq<T>, key: T -> K, k: K, i: nat)
    requires i < |xs|
    ensures GroupOf(xs[..i + 1], key, k) == GroupOf(xs[..i], key, k) + (if key(xs[i]) == k then [xs[i]] else [])
  {
    assert xs[..i + 1][..i] == xs[..i];
  }

  lemma DedupKeySnoc<T, K>(xs: seq<T>, key: T -> K, i: nat)
    requires i < |xs|
    ensures Dedup(KeySeq(xs[..i + 1], key)) == DedupStep(Dedup(KeySeq(xs[..i], key)), key(xs[i]))
  {
    assert KeySeq(xs[..i + 1], key) == KeySeq(xs, key)[..i + 1];
    assert KeySeq(xs[..i], key) == KeySeq(xs, key)[..i];
    DedupSnoc(KeySeq(xs, key), i);
  }

  /** A key no element carries has an empty group. */
  lemma {:induction false} NoneOfKey<T, K>(xs: seq<T>, key: T -> K, k: K)
    requires k !in KeySeq(xs, key)
    ensures GroupOf(xs, key, k) == []
    decreases |xs|
  {
    if xs != [] {
      var n := |xs|;
      assert KeySeq(xs, key)[n - 1] == key(xs[n - 1]);
      assert KeySeq(xs[..n - 1], key) == KeySeq(xs, key)[..n - 1];
      NoneOfKey(xs[..n - 1], key, k);
    }
  }

  /** The grouping loop: every key once, in the order first seen, with the
      elements that carry it, in their order. */
  method GroupBy<T, K(==)>(xs: seq<T>, key: T -> K) returns (grouped: map<K, seq<T>>, order: seq<K>)
    ensures order == Dedup(KeySeq(xs, key))
    ensures forall k :: k in grouped <==> k in order
    ensures forall k :: k in grouped ==> grouped[k] == GroupOf(xs, key, k)
  {
    grouped := map[];
    order := [];
    for i := 0 to |xs|
      invariant order == Dedup(KeySeq(xs[..i], key))
      invariant forall k :: k in grouped <==> k in order
      invariant forall k :: k in grouped ==> grouped[k] == GroupOf(xs[..i], key, k)
    {
      var x := xs[i];
      var k := key(x);
      DedupKeySnoc(xs, key, i);
      DedupMeaning(KeySeq(xs[..i], key));
      forall m {
        GroupSnoc(xs, key, m, i);
      }
      if k in grouped {
        grouped := grouped[k := grouped[k] + [x]];
      } else {
        assert k !in Dedup(KeySeq(xs[..i], key));
        assert k !in KeySeq(xs[..i], key);
        NoneOfKey(xs[..i], key, k);
        grouped := grouped[k := [x]];
        order := order + [k];
      }
    }
    assert xs[..|xs|] == xs;
  }

  // ---------------------------------------------------------------------
  // The groups split the list

  /** The sizes of the groups of the given keys, added up. */
  function GroupSizes<T, K(==)>(xs: seq<T>, key: T -> K, keys: seq<K>): nat
    decreases |keys|
  {
    if keys == [] then 0 else GroupSizes(xs, key, keys[..|keys| - 1]) + |GroupOf(xs, key, keys[|keys| - 1])|
  }

  function KeyIn<T, K(==)>(key: T -> K, keys: seq<K>): T -> bool
  {
    x => key(x) in keys
  }

  /** The elements whose key is k or among keys, when k is not among them,
      are those of either kind. */
  lemma {:induction false} SplitCount<T, K>(xs: seq<T>, key: T -> K, keys: seq<K>, k: K)
    requires k !in keys
    ensures |Filter(xs, KeyIn(key, keys + [k]))| == |Filter(xs, KeyIn(key, keys))| + |GroupOf(xs, key, k)|
    decreases |xs|
  {
    if xs != [] {
      SplitCount(xs[..|xs| - 1], key, keys, k);
      var x := xs[|xs| - 1];
      assert KeyIn(key, keys + [k])(x) <==> KeyIn(key, keys)(x) || HasKey(key, k)(x);
    }
  }

  lemma {:induction false} GroupSizesCount<T, K>(xs: seq<T>, key: T -> K, keys: seq<K>)
    requires Distinct(keys)
    ensures GroupSizes(xs, key, keys) == |Filter(xs, KeyIn(key, keys))|
    decreases |keys|
  {
    if keys == [] {
      NoKeys(xs, key);
    } else {
      var init := keys[..|keys| - 1];
      var k := keys[|keys| - 1];
      assert keys == init + [k];
      assert k !in init;
      GroupSizesCount(xs, key, init);
      SplitCount(xs, key, init, k);
    }
  }

  lemma {:induction false} NoKeys<T, K>(xs: seq<T>, key: T -> K)
    ensures Filter(xs, KeyIn(key, [])) == []
    decreases |xs|
  {
    if xs != [] {
      NoKeys(xs[..|xs| - 1], key);
    }
  }

  lemma {:induction false} AllKeys<T, K>(xs: seq<T>, key: T -> K, keys: seq<K>)
    requires forall i :: 0 <= i < |xs| ==> key(xs[i]) in keys
    ensures Filter(xs, KeyIn(key, keys)) == xs
    decreases |xs|
  {
    if xs != [] {
      AllKeys(xs[..|xs| - 1], key, keys);
      assert xs == xs[..|xs| - 1] + [xs[|xs| - 1]];
    }
  }

  /** Every element is in exactly one group: the group sizes add up to the
      length of the list. */
  lemma GroupsCover<T, K>(xs: seq<T>, key: T -> K)
    ensures GroupSizes(xs, key, Dedup(KeySeq(xs, key))) == |xs|
  {
    var keys := Dedup(KeySeq(xs, key));
    DedupMeaning(KeySeq(xs, key));
    GroupSizesCount(xs, key, keys);
    assert forall i :: 0 <= i < |xs| ==> key(xs[i]) in KeySeq(xs, key);
    AllKeys(xs, key, keys);
  }
}
