// String helpers shared by the model: whitespace trimming, ASCII case
// mapping, splitting and joining on one character, decimal rendering and the
// two integer parsers the system relies on (Python's int() of a stripped
// string and JavaScript's lenient parseInt).
module Text {
  import opened Wrappers

  predicate IsSpace(c: char)
  {
    c == ' ' || c == '\t' || c == '\n' || c == '\r' || c == '\U{000B}' || c == '\U{000C}'
  }

  predicate AllSpace(s: string)
  {
    forall i :: 0 <= i < |s| ==> IsSpace(s[i])
  }

  /** The number of whitespace characters at the start of s. */
  function LeadingSpaces(s: string): (n: nat)
    ensures n <= |s| && (n == |s| || !IsSpace(s[n]))
    ensures forall i :: 0 <= i < n ==> IsSpace(s[i])
  {
    if |s| > 0 && IsSpace(s[0]) then
      var n := LeadingSpaces(s[1..]);
      assert forall i :: 1 <= i < n + 1 ==> s[i] == s[1..][i - 1];
      n + 1
    else 0
  }

  /** The length of s without its trailing whitespace. */
  function TrailingStart(s: string): (m: nat)
    ensures m <= |s| && (m == 0 || !IsSpace(s[m - 1]))
    ensures forall i :: m <= i < |s| ==> IsSpace(s[i])
  {
    if |s| > 0 && IsSpace(s[|s| - 1]) then
      var m := TrailingStart(s[..|s| - 1]);
      assert forall i :: m <= i < |s| - 1 ==> s[i] == s[..|s| - 1][i];
      m
    else |s|
  }

  function TrimLeft(s: string): string
    decreases |s|
  {
    if |s| > 0 && IsSpace(s[0]) then TrimLeft(s[1..]) else s
  }

  function TrimRight(s: string): string
    decreases |s|
  {
    if |s| > 0 && IsSpace(s[|s| - 1]) then TrimRight(s[..|s| - 1]) else s
  }

  /** Python's str.strip() and JavaScript's String.prototype.trim() on the
      whitespace characters above. */
  function Trim(s: string): string
  {
    TrimRight(TrimLeft(s))
  }

  /** A string is blank when nothing is left after trimming. */
  predicate IsBlank(s: string)
  {
    Trim(s) == ""
  }

  lemma {:induction false} TrimLeftIs(s: string)
    ensures TrimLeft(s) == s[LeadingSpaces(s)..]
    decreases |s|
  {
    if |s| > 0 && IsSpace(s[0]) {
      TrimLeftIs(s[1..]);
      assert s[1..][LeadingSpaces(s[1..])..] == s[LeadingSpaces(s)..];
    }
  }

  lemma {:induction false} TrimRightIs(s: string)
    ensures TrimRight(s) == s[..TrailingStart(s)]
    decreases |s|
  {
    if |s| > 0 && IsSpace(s[|s| - 1]) {
      TrimRightIs(s[..|s| - 1]);
      assert s[..|s| - 1][..TrailingStart(s[..|s| - 1])] == s[..TrailingStart(s)];
    }
  }

  /** No whitespace at either end. */
  predicate Trimmed(s: string)
  {
    s == "" || (!IsSpace(s[0]) && !IsSpace(s[|s| - 1]))
  }

  /** Trim removes the leading and trailing whitespace and nothing else. */
  lemma TrimShape(s: string)
    ensures Trimmed(Trim(s))
    ensures exists i, j :: 0 <= i <= j <= |s| && Trim(s) == s[i..j] &&
                          (forall k :: 0 <= k < i ==> IsSpace(s[k])) && (forall k :: j <= k < |s| ==> IsSpace(s[k]))
  {
    var n := LeadingSpaces(s);
    TrimLeftIs(s);
    var l := s[n..];
    var m := TrailingStart(l);
    TrimRightIs(l);
    assert Trim(s) == l[..m];
    assert l[..m] == s[n..n + m];
    forall k | n + m <= k < |s| ensures IsSpace(s[k]) {
      assert s[k] == l[k - n];
    }
    if m > 0 {
      assert l[0] == s[n];
    }
  }

  lemma TrimIsTrimmed(s: string)
    ensures Trimmed(Trim(s))
  {
    TrimShape(s);
  }

  lemma BlankIffAllSpace(s: string)
    ensures IsBlank(s) <==> AllSpace(s)
  {
    TrimShape(s);
    var i, j :| 0 <= i <= j <= |s| && Trim(s) == s[i..j] &&
      (forall k :: 0 <= k < i ==> IsSpace(s[k])) && (forall k :: j <= k < |s| ==> IsSpace(s[k]));
    if IsBlank(s) {
      assert i == j;
    }
  }

  /** Text with no whitespace at either end is left as it is by Trim. */
  lemma TrimmedFixed(s: string)
    requires Trimmed(s)
    ensures Trim(s) == s
  {
  }

  lemma TrimIdempotent(s: string)
    ensures Trim(Trim(s)) == Trim(s)
  {
    TrimIsTrimmed(s);
    TrimmedFixed(Trim(s));
  }

  /** Trimming only removes characters, so it keeps a string free of c. */
  lemma TrimFree(s: string, c: char)
    requires forall i :: 0 <= i < |s| ==> s[i] != c
    ensures forall i :: 0 <= i < |Trim(s)| ==> Trim(s)[i] != c
  {
    TrimShape(s);
    var i, j :| 0 <= i <= j <= |s| && Trim(s) == s[i..j];
    forall k | 0 <= k < |Trim(s)| ensures Trim(s)[k] != c {
      assert Trim(s)[k] == s[i + k];
    }
  }

  function LowerChar(c: char): char
  {
    if 'A' <= c <= 'Z' then (c as int + 32) as char else c
  }

  function UpperChar(c: char): char
  {
    if 'a' <= c <= 'z' then (c as int - 32) as char else c
  }

  function Lower(s: string): (r: string)
    ensures |r| == |s| && forall i :: 0 <= i < |s| ==> r[i] == LowerChar(s[i])
  {
    if s == "" then "" else [LowerChar(s[0])] + Lower(s[1..])
  }

  /** A text without capitals is its own lower case. */
  lemma NoCapitals(v: string)
    requires forall i :: 0 <= i < |v| ==> !('A' <= v[i] <= 'Z')
    ensures Lower(v) == v
  {
  }

  function Upper(s: string): (r: string)
    ensures |r| == |s| && forall i :: 0 <= i < |s| ==> r[i] == UpperChar(s[i])
  {
    if s == "" then "" else [UpperChar(s[0])] + Upper(s[1..])
  }

  predicate StartsWith(s: string, p: string)
  {
    |p| <= |s| && s[..|p|] == p
  }

  predicate EndsWith(s: string, p: string)
  {
    |p| <= |s| && s[|s| - |p|..] == p
  }

  /** `p in s` for strings: `p` occurs somewhere in `s`. */
  predicate Contains(s: string, p: string)
    decreases |s|
  {
    StartsWith(s, p) || (|s| > 0 && Contains(s[1..], p))
  }

  /** Python's `s[:n]` for n >= 0. */
  function Take(s: string, n: nat): (r: string)
    ensures |r| <= n && |r| <= |s| && r == s[..|r|]
    ensures |s| <= n ==> r == s
  {
    if |s| <= n then s else s[..n]
  }

  // ---------------------------------------------------------------------
  // Splitting and joining on one separator character

  function Split(s: string, c: char): (r: seq<string>)
    ensures |r| >= 1
    decreases |s|
  {
    if |s| == 0 then [""]
    else
      var rest := Split(s[1..], c);
      if s[0] == c then [""] + rest else [[s[0]] + rest[0]] + rest[1..]
  }

  function Join(parts: seq<string>, c: char): string
  {
    if |parts| == 0 then ""
    else if |parts| == 1 then parts[0]
    else parts[0] + [c] + Join(parts[1..], c)
  }

  /** `sep.join(parts)` for a separator of any length. */
  function JoinWith(parts: seq<string>, sep: string): string
  {
    if |parts| == 0 then ""
    else if |parts| == 1 then parts[0]
    else parts[0] + sep + JoinWith(parts[1..], sep)
  }

  predicate Free(s: string, c: char)
  {
    forall i :: 0 <= i < |s| ==> s[i] != c
  }

  lemma {:induction false} SplitFree(s: string, c: char)
    requires Free(s, c)
    ensures Split(s, c) == [s]
    decreases |s|
  {
    if |s| > 0 {
      SplitFree(s[1..], c);
      assert [s[0]] + s[1..] == s;
    }
  }

  lemma {:induction false} SplitAfterFree(p: string, c: char, rest: string)
    requires Free(p, c)
    ensures Split(p + [c] + rest, c) == [p] + Split(rest, c)
    decreases |p|
  {
    var s := p + [c] + rest;
    if |p| == 0 {
      assert s[1..] == rest;
    } else {
      assert s[1..] == p[1..] + [c] + rest;
      SplitAfterFree(p[1..], c, rest);
      assert [p[0]] + p[1..] == p;
    }
  }

  /** No part of a split holds the separator. */
  lemma {:induction false} SplitPartsFree(s: string, c: char)
    ensures forall k :: 0 <= k < |Split(s, c)| ==> Free(Split(s, c)[k], c)
    decreases |s|
  {
    if |s| > 0 {
      SplitPartsFree(s[1..], c);
      var rest := Split(s[1..], c);
      if s[0] != c {
        assert Free(rest[0], c);
        assert Free([s[0]] + rest[0], c);
      }
    }
  }

  /** Splitting a join gives the parts back when no part holds the separator. */
  lemma {:induction false} SplitJoin(parts: seq<string>, c: char)
    requires |parts| >= 1
    requires forall k :: 0 <= k < |parts| ==> Free(parts[k], c)
    ensures Split(Join(parts, c), c) == parts
    decreases |parts|
  {
    if |parts| == 1 {
      SplitFree(parts[0], c);
    } else {
      SplitAfterFree(parts[0], c, Join(parts[1..], c));
      SplitJoin(parts[1..], c);
      assert [parts[0]] + parts[1..] == parts;
    }
  }

  /** Keep the non-empty parts, as JavaScript's `filter(Boolean)` does on strings. */
  function NonEmpty(parts: seq<string>): (r: seq<string>)
    ensures forall k :: 0 <= k < |r| ==> r[k] != ""
    ensures forall k :: 0 <= k < |parts| && parts[k] != "" ==> parts[k] in r
    ensures forall x :: x in r ==> x in parts
  {
    if |parts| == 0 then []
    else if parts[0] == "" then NonEmpty(parts[1..])
    else [parts[0]] + NonEmpty(parts[1..])
  }

  lemma {:induction false} NonEmptyKeeps(parts: seq<string>)
    requires forall k :: 0 <= k < |parts| ==> parts[k] != ""
    ensures NonEmpty(parts) == parts
  {
    if |parts| > 0 {
      NonEmptyKeeps(parts[1..]);
    }
  }

  // ---------------------------------------------------------------------
  // Decimal numbers

  predicate IsDigit(c: char) { '0' <= c <= '9' }

  predicate AllDigits(s: string)
  {
    forall i :: 0 <= i < |s| ==> IsDigit(s[i])
  }

  function DigitChar(d: nat): char
    requires d < 10
  {
    ('0' as int + d) as char
  }

  function DigitValue(c: char): nat
    requires IsDigit(c)
  {
    c as int - '0' as int
  }

  /** `String(n)` / `str(n)` for a natural number. */
  function NatToString(n: nat): (r: string)
    ensures |r| >= 1 && AllDigits(r)
    ensures |r| > 1 ==> r[0] != '0'
    decreases n
  {
    if n < 10 then [DigitChar(n)] else NatToString(n / 10) + [DigitChar(n % 10)]
  }

  /** `String(i)` / `str(i)` for any integer. */
  function IntToString(i: int): string
  {
    if i < 0 then "-" + NatToString(-i) else NatToString(i)
  }

  /** The value of a string of decimal digits. */
  function DigitsValue(s: string): nat
    requires AllDigits(s)
    decreases |s|
  {
    if |s| == 0 then 0 else DigitsValue(s[..|s| - 1]) * 10 + DigitValue(s[|s| - 1])
  }

  lemma {:induction false} DigitsOfNat(n: nat)
    ensures DigitsValue(NatToString(n)) == n
    decreases n
  {
    var s := NatToString(n);
    if n >= 10 {
      DigitsOfNat(n / 10);
      assert s[..|s| - 1] == NatToString(n / 10);
    }
  }

  /** The quotient of a by d is k when a lies in [k * d, k * d + d). */
  lemma DivIs(a: int, d: int, k: int)
    requires d > 0 && k * d <= a < k * d + d
    ensures a / d == k
  {
    var q := a / d;
    assert a == q * d + a % d;
    MulStep(k, q, d);
    MulStep(q, k, d);
  }

  /** A larger factor gives a product at least one more multiple of d. */
  lemma MulStep(x: int, y: int, d: int)
    requires d > 0
    ensures x < y ==> x * d + d <= y * d
  {
    if x < y {
      var e := y - x - 1;
      assert y * d == x * d + d + e * d;
      assert e * d >= 0;
    }
  }

  /** A strict parse of an optional sign followed by one or more digits, as
      Python's `int()` accepts once the text has been stripped. */
  function ParseIntStrict(s: string): (r: Option<int>)
    ensures r.Some? ==> |s| >= 1
  {
    if |s| >= 2 && s[0] == '-' && AllDigits(s[1..]) then Some(-(DigitsValue(s[1..]) as int))
    else if |s| >= 2 && s[0] == '+' && AllDigits(s[1..]) then Some(DigitsValue(s[1..]))
    else if |s| >= 1 && AllDigits(s) then Some(DigitsValue(s))
    else None
  }

  /** Python's `int(str(x).strip())`: `None` where Python raises ValueError. */
  function PyInt(s: string): Option<int>
  {
    ParseIntStrict(Trim(s))
  }

  lemma StrictOfDigits(d: string)
    requires |d| >= 1 && AllDigits(d)
    ensures ParseIntStrict(d) == Some(DigitsValue(d) as int)
    ensures ParseIntStrict("-" + d) == Some(-(DigitsValue(d) as int))
  {
    assert d[0] != '-' && d[0] != '+';
    assert ("-" + d)[1..] == d;
  }

  lemma PyIntOfString(i: int)
    ensures PyInt(IntToString(i)) == Some(i)
  {
    var n: nat := if i < 0 then -i else i;
    var d := NatToString(n);
    DigitsOfNat(n);
    StrictOfDigits(d);
    assert IsDigit(d[0]) && IsDigit(d[|d| - 1]);
    TrimmedFixed(IntToString(i));
  }

  /** The longest run of digits at the start of `s`. */
  function LeadingDigits(s: string): (r: string)
    ensures |r| <= |s| && AllDigits(r) && r == s[..|r|]
    ensures |r| == |s| || !IsDigit(s[|r|])
  {
    if |s| > 0 && IsDigit(s[0]) then
      var rest := LeadingDigits(s[1..]);
      assert [s[0]] + s[1..][..|rest|] == s[..|rest| + 1];
      [s[0]] + rest
    else ""
  }

  /** A JavaScript number produced by parseInt: an integer or NaN. */
  datatype JsInt = Int(i: int) | NaN
  {
    function Plus(k: int): JsInt
    {
      match this
      case Int(v) => Int(v + k)
      case NaN => NaN
    }

    /** `String(x)` of such a number. */
    function ToString(): string
    {
      match this
      case Int(v) => IntToString(v)
      case NaN => "NaN"
    }

    /** `x || 0`: NaN and 0 are falsy. */
    function OrZero(): int
    {
      match this
      case Int(v) => v
      case NaN => 0
    }
  }

  /** JavaScript's `parseInt(s, 10)`: leading whitespace, an optional sign,
      then the longest run of digits; NaN when there is none. */
  function ParseInt(s: string): (r: JsInt)
  {
    var t := TrimLeft(s);
    if |t| > 0 && (t[0] == '-' || t[0] == '+') then
      var d := LeadingDigits(t[1..]);
      if d == "" then NaN else if t[0] == '-' then Int(-(DigitsValue(d) as int)) else Int(DigitsValue(d))
    else
      var d := LeadingDigits(t);
      if d == "" then NaN else Int(DigitsValue(d))
  }

  lemma LeadingDigitsAll(s: string)
    requires AllDigits(s)
    ensures LeadingDigits(s) == s
  {
    if |s| > 0 {
      LeadingDigitsAll(s[1..]);
    }
  }

  lemma LenientOfDigits(d: string)
    requires |d| >= 1 && AllDigits(d)
    ensures ParseInt(d) == Int(DigitsValue(d))
  {
    LeadingDigitsAll(d);
    assert d[0] != '-' && d[0] != '+' && !IsSpace(d[0]);
    assert TrimLeft(d) == d;
  }

  lemma LenientOfNegDigits(d: string)
    requires |d| >= 1 && AllDigits(d)
    ensures ParseInt("-" + d) == Int(-(DigitsValue(d) as int))
  {
    var t := "-" + d;
    LeadingDigitsAll(d);
    assert t[0] == '-' && !IsSpace(t[0]);
    assert TrimLeft(t) == t;
    assert t[1..] == d;
  }

  lemma ParseIntOfString(i: int)
    ensures ParseInt(IntToString(i)) == Int(i)
  {
    var n: nat := if i < 0 then -i else i;
    DigitsOfNat(n);
    if i < 0 {
      LenientOfNegDigits(NatToString(n));
    } else {
      LenientOfDigits(NatToString(n));
    }
  }

  /** `parseInt(value || '0', 10) || 0`, the count reading used throughout
      the submission form: blank and non-numeric text read as 0. */
  function CountOf(value: string): int
  {
    if value == "" then 0 else ParseInt(value).OrZero()
  }

  /** `parseInt(counter.value || '0', 10)`: the reading of a formset counter. */
  function CounterValue(t: string): JsInt
  {
    ParseInt(if t == "" then "0" else t)
  }

  lemma CounterOfNat(k: nat)
    ensures CounterValue(NatToString(k)) == Int(k)
  {
    ParseIntOfString(k);
  }
}
