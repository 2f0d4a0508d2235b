// The `percent_complete` template filter: the share of completed activities
// as a whole percentage, as text.
module ActivityProgress {
  import opened Wrappers
  import opened Text

  /** q is a nearest integer to n / d (d > 0): |n / d - q| <= 1/2, in
      integers. */
  predicate Nearest(q: int, n: int, d: int)
  {
    2 * n - d <= 2 * (q * d) <= 2 * n + d
  }

  /** n / d lies exactly halfway between two integers, q being one of them. */
  predicate Tie(q: int, n: int, d: int)
  {
    2 * (q * d) == 2 * n - d || 2 * (q * d) == 2 * n + d
  }

  lemma MulMono(a: int, b: int, c: int)
    requires a <= b && c > 0
    ensures a * c <= b * c
  {
    assert b * c - a * c == (b - a) * c;
  }

  lemma MulStep(f: int, k: int, d: int)
    ensures (f + k) * d == f * d + k * d
  {
  }

  /** Python's `round` of the exact ratio n / d for d > 0: to the nearest
      integer, and to the even one on a tie. */
  function RoundPos(n: int, d: int): (q: int)
    requires d > 0
    ensures Nearest(q, n, d) && (Tie(q, n, d) ==> q % 2 == 0)
  {
    var f := n / d;
    var r := n % d;
    assert n == f * d + r && 0 <= r < d;
    MulStep(f, 1, d);
    if 2 * r < d then f
    else if 2 * r > d then f + 1
    else if f % 2 == 0 then f
    else f + 1
  }

  /** The same for either sign of d: n / d == (-n) / (-d). */
  function RoundHalfEven(n: int, d: int): (q: int)
    requires d != 0
    ensures d > 0 ==> q == RoundPos(n, d)
    ensures d < 0 ==> q == RoundPos(-n, -d)
  {
    if d > 0 then RoundPos(n, d) else RoundPos(-n, -d)
  }

  /** The nearest integer is unique except on a tie, where the two
      candidates differ in parity: so the contract of RoundPos pins its
      result down. */
  lemma NearestUnique(q: int, q': int, n: int, d: int)
    requires d > 0
    requires Nearest(q, n, d) && (Tie(q, n, d) ==> q % 2 == 0)
    requires Nearest(q', n, d) && (Tie(q', n, d) ==> q' % 2 == 0)
    ensures q == q'
  {
    if q != q' {
      var lo, hi := if q < q' then q else q', if q < q' then q' else q;
      MulMono(lo + 1, hi, d);
      MulStep(lo, 1, d);
      assert Tie(lo, n, d) && Tie(hi, n, d);
      MulMono(lo + 2, hi, d);
      MulStep(lo, 2, d);
    }
  }

  /** `percent_complete(completed, total)`. The arguments are what `int()`
      makes of the filter's inputs, None where it raises; any failure gives
      "0". */
  function PercentComplete(completed: Option<int>, total: Option<int>): (r: string)
    ensures completed.None? || total.None? || total == Some(0) ==> r == "0"
    ensures completed.Some? && total.Some? && total.value != 0 ==>
      r == IntToString(RoundHalfEven(100 * completed.value, total.value))
  {
    if completed.None? || total.None? then "0"
    else if total.value == 0 then "0"
    else IntToString(RoundHalfEven(100 * completed.value, total.value))
  }

  /** A nearest integer to n / d with 0 <= n <= 100 * d lies in 0..100. */
  lemma NearestInPercentRange(p: int, n: int, d: int)
    requires d > 0 && 0 <= n <= 100 * d && Nearest(p, n, d)
    ensures 0 <= p <= 100
  {
    if p > 100 {
      MulMono(101, p, d);
    } else if p < 0 {
      MulMono(p, -1, d);
    }
  }

  /** With 0 <= completed <= total and total > 0 the percentage is a whole
      number from 0 to 100, 100 exactly when all are complete and 0 when
      none is. */
  lemma PercentCompleteRange(completed: int, total: int)
    requires 0 <= completed <= total && total > 0
    ensures var p := RoundHalfEven(100 * completed, total);
      PercentComplete(Some(completed), Some(total)) == IntToString(p) &&
      0 <= p <= 100 &&
      (completed == total ==> p == 100) &&
      (completed == 0 ==> p == 0)
  {
    var n := 100 * completed;
    var p := RoundPos(n, total);
    MulMono(completed, total, 100);
    NearestInPercentRange(p, n, total);
    if completed == total {
      assert Nearest(100, n, total) && !Tie(100, n, total);
      NearestUnique(p, 100, n, total);
    }
    if completed == 0 {
      assert Nearest(0, n, total) && !Tie(0, n, total);
      NearestUnique(p, 0, n, total);
    }
  }

  /** Halves go to the even neighbour: 1 of 8 (12.5 %) shows as "12", 3 of
      8 (37.5 %) as "38". */
  lemma HalvesToEven()
    ensures RoundHalfEven(100, 8) == 12 && RoundHalfEven(300, 8) == 38
  {
  }
}
