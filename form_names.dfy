// Names of form controls as the Django formsets render them and as the
// submission page script rewrites them.
module FormNames {
  import opened Wrappers
  import opened Text

  /** A control's name or id attribute. Formset names have the shape
      `<prefix>-<index>-<field>` and are kept in that structure, so that a
      regular-expression rename of the index becomes a structural update;
      every other name is `Unindexed`. Prefixes, indices and fields contain no
      '-'. `Unindexed("")` stands for a missing attribute. */
  datatype Name = Indexed(prefix: string, index: string, field: string) | Unindexed(text: string)

  /** The attribute's text. */
  function Flat(n: Name): string
  {
    match n
    case Indexed(p, i, f) => p + "-" + i + "-" + f
    case Unindexed(t) => t
  }

  /** A control inside a row or section: name, id attribute and value. */
  datatype Field = Field(name: Name, elemId: Name, value: string)

  /** A hidden input the script appends to the form, with its name as text. */
  datatype Hidden = Hidden(name: string, value: string)

  /** What `\d+` matches as a whole index. */
  predicate IsIndex(s: string)
  {
    |s| > 0 && AllDigits(s)
  }

  predicate IndexedAs(n: Name, prefix: string)
  {
    n.Indexed? && n.prefix == prefix && IsIndex(n.index)
  }

  /** `name.replace(/^<prefix>-\d+-/, "<prefix>-<i>-")`. */
  function Reindex(n: Name, prefix: string, i: nat): (r: Name)
    ensures IndexedAs(n, prefix) ==> r == Indexed(prefix, NatToString(i), n.field)
    ensures !IndexedAs(n, prefix) ==> r == n
    ensures IndexedAs(r, prefix) <==> IndexedAs(n, prefix)
  {
    if IndexedAs(n, prefix) then Indexed(prefix, NatToString(i), n.field) else n
  }

  /** The hidden inputs left after removing every one whose name is in `names`. */
  function Without(hs: seq<Hidden>, names: set<string>): (r: seq<Hidden>)
    ensures |r| <= |hs|
    ensures forall k :: 0 <= k < |r| ==> r[k].name !in names && r[k] in hs
    ensures forall h :: h in hs && h.name !in names ==> h in r
  {
    if hs == [] then []
    else if hs[0].name in names then Without(hs[1..], names)
    else [hs[0]] + Without(hs[1..], names)
  }

  /** How many hidden inputs carry the name `n`. */
  function CountNamed(hs: seq<Hidden>, n: string): nat
  {
    if hs == [] then 0 else (if hs[0].name == n then 1 else 0) + CountNamed(hs[1..], n)
  }

  lemma {:induction false} CountNamedAppend(a: seq<Hidden>, b: seq<Hidden>, n: string)
    ensures CountNamed(a + b, n) == CountNamed(a, n) + CountNamed(b, n)
  {
    if a == [] {
      assert a + b == b;
    } else {
      assert (a + b)[1..] == a[1..] + b;
      CountNamedAppend(a[1..], b, n);
    }
  }

  lemma {:induction false} CountWithout(hs: seq<Hidden>, names: set<string>, n: string)
    requires n in names
    ensures CountNamed(Without(hs, names), n) == 0
  {
    if hs != [] {
      CountWithout(hs[1..], names, n);
      if hs[0].name !in names {
        CountNamedAppend([hs[0]], Without(hs[1..], names), n);
      }
    }
  }

  /** Removing every input of two names and appending one of each leaves
      exactly one input of each name, after all the other inputs. */
  lemma ReplacePair(hs: seq<Hidden>, a: Hidden, b: Hidden)
    requires a.name != b.name
    ensures var r := Without(hs, {a.name, b.name}) + [a, b];
      CountNamed(r, a.name) == 1 && CountNamed(r, b.name) == 1 &&
      r[|r| - 2] == a && r[|r| - 1] == b &&
      (forall h :: h in hs && h.name != a.name && h.name != b.name ==> h in r)
  {
    var w := Without(hs, {a.name, b.name});
    CountWithout(hs, {a.name, b.name}, a.name);
    CountWithout(hs, {a.name, b.name}, b.name);
    CountNamedAppend(w, [a, b], a.name);
    CountNamedAppend(w, [a, b], b.name);
    assert [a, b][1..] == [b];
    assert CountNamed([b], a.name) == 0 && CountNamed([b], b.name) == 1 by {
      assert [b][1..] == [];
    }
  }

  /** The value of the first input named n (`querySelector`). */
  function Lookup(hs: seq<Hidden>, n: string): (r: Option<string>)
    ensures r.Some? <==> exists k :: 0 <= k < |hs| && hs[k].name == n
  {
    if hs == [] then None
    else if hs[0].name == n then Some(hs[0].value)
    else
      var r := Lookup(hs[1..], n);
      assert forall k :: 1 <= k < |hs| ==> hs[k] == hs[1..][k - 1];
      r
  }

  /** Sets the value of the first input named n. */
  function SetFirst(hs: seq<Hidden>, n: string, v: string): (r: seq<Hidden>)
    ensures |r| == |hs|
  {
    if hs == [] then []
    else if hs[0].name == n then [Hidden(n, v)] + hs[1..]
    else [hs[0]] + SetFirst(hs[1..], n, v)
  }

  /** Creates the input with value v unless one with that name exists. */
  function Ensure(hs: seq<Hidden>, n: string, v: string): seq<Hidden>
  {
    if Lookup(hs, n).Some? then hs else hs + [Hidden(n, v)]
  }

  lemma {:induction false} LookupAppend(a: seq<Hidden>, b: seq<Hidden>, n: string)
    ensures Lookup(a + b, n) == if Lookup(a, n).Some? then Lookup(a, n) else Lookup(b, n)
  {
    if a == [] {
      assert a + b == b;
    } else {
      assert (a + b)[1..] == a[1..] + b;
      LookupAppend(a[1..], b, n);
    }
  }

  lemma {:induction false} LookupWithout(hs: seq<Hidden>, names: set<string>, n: string)
    requires n !in names
    ensures Lookup(Without(hs, names), n) == Lookup(hs, n)
  {
    if hs != [] {
      LookupWithout(hs[1..], names, n);
      if hs[0].name !in names {
        LookupAppend([hs[0]], Without(hs[1..], names), n);
      }
    }
  }

  lemma {:induction false} LookupSetFirst(hs: seq<Hidden>, n: string, v: string, m: string)
    ensures Lookup(SetFirst(hs, n, v), m) ==
      if m == n && Lookup(hs, n).Some? then Some(v) else Lookup(hs, m)
  {
    if hs != [] && hs[0].name != n {
      LookupSetFirst(hs[1..], n, v, m);
    }
  }
}
