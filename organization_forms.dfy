// The school profile form's handling of a school's strands (the SHS
// checkboxes plus a free-form list of other programs), and the school form's
// checks on the optional head-user account it can create.
module OrganizationForms {
  import opened Wrappers
  import opened Text
  import opened Json
  import opened Lists
  import Constants

  // ---------------------------------------------------------------------
  // Strands as text

  /** The labels of a list of strands. */
  function Labels(strands: seq<Constants.Strand>): (r: seq<string>)
    ensures |r| == |strands| && forall i :: 0 <= i < |strands| ==> r[i] == strands[i].name
  {
    seq(|strands|, i requires 0 <= i < |strands| => strands[i].name)
  }

  function Strs(xs: seq<string>): (r: seq<Json>)
    ensures |r| == |xs| && forall i :: 0 <= i < |xs| ==> r[i] == JStr(xs[i])
  {
    seq(|xs|, i requires 0 <= i < |xs| => JStr(xs[i]))
  }

  /** The stripped, non-empty items of a comma split, in order. */
  function Items(parts: seq<string>): (r: seq<string>)
    ensures forall k :: 0 <= k < |r| ==> r[k] != "" && Trimmed(r[k])
    decreases |parts|
  {
    if parts == [] then []
    else
      TrimIsTrimmed(parts[0]);
      (if Trim(parts[0]) != "" then [Trim(parts[0])] else []) + Items(parts[1..])
  }

  /** `json.loads` only ever yields a list from text that starts with '['
      once stripped: the one fact about the parser the model relies on. */
  ghost predicate ListsNeedBracket(parse: string -> Option<Json>)
  {
    forall t :: parse(t).Some? && parse(t).value.JArr? ==> |t| > 0 && t[0] == '['
  }

  /** `clean_strands`: a list passes through, an empty value gives [], a
      string is stripped and read as a JSON list when it is one, and is
      otherwise split on commas into its stripped non-empty items; any other
      value gives []. `parse` is `json.loads`, None where it raises. */
  function CleanStrands(value: Json, parse: string -> Option<Json>): (r: seq<Json>)
    ensures value.JArr? ==> r == value.items
    ensures !value.JArr? && !PyTruthy(value) ==> r == []
    ensures value.JStr? && !(parse(Trim(value.s)).Some? && parse(Trim(value.s)).value.JArr?) ==>
      r == Strs(Items(Split(Trim(value.s), ',')))
    ensures !value.JArr? && !value.JStr? ==> r == []
  {
    match value
    case JArr(items) => items
    case JStr(s) =>
      if s == "" then []
      else
        var stripped := Trim(s);
        var parsed := parse(stripped);
        if parsed.Some? && parsed.value.JArr? then parsed.value.items
        else Strs(Items(Split(stripped, ',')))
    case _ => []
  }

  /** The items of a comma-split text are stripped, non-empty and hold no
      comma. */
  lemma {:induction false} ItemsShape(parts: seq<string>)
    requires forall k :: 0 <= k < |parts| ==> Free(parts[k], ',')
    ensures forall k :: 0 <= k < |Items(parts)| ==> Free(Items(parts)[k], ',')
    decreases |parts|
  {
    if parts != [] {
      ItemsShape(parts[1..]);
      TrimFree(parts[0], ',');
    }
  }

  lemma TextItemsShape(s: string, parse: string -> Option<Json>)
    requires !(parse(Trim(s)).Some? && parse(Trim(s)).value.JArr?)
    ensures forall k :: 0 <= k < |CleanStrands(JStr(s), parse)| ==>
      CleanStrands(JStr(s), parse)[k].JStr? && CleanStrands(JStr(s), parse)[k].s != "" &&
      Trimmed(CleanStrands(JStr(s), parse)[k].s) && Free(CleanStrands(JStr(s), parse)[k].s, ',')
  {
    SplitPartsFree(Trim(s), ',');
    ItemsShape(Split(Trim(s), ','));
  }

  // Joining with ", " and splitting again

  function PadRest(xs: seq<string>): (r: seq<string>)
    ensures |r| == |xs| && forall i :: 0 <= i < |xs| ==> r[i] == " " + xs[i]
  {
    seq(|xs|, i requires 0 <= i < |xs| => " " + xs[i])
  }

  lemma JoinWithPad(x: string, t: seq<string>)
    ensures JoinWith([" " + x] + t, ", ") == " " + JoinWith([x] + t, ", ")
  {
    if t != [] {
      assert ([" " + x] + t)[1..] == t;
      assert ([x] + t)[1..] == t;
    }
  }

  lemma {:induction false} JoinAsCommaJoin(a: string, r: seq<string>)
    ensures JoinWith([a] + r, ", ") == Join([a] + PadRest(r), ',')
    decreases |r|
  {
    if r != [] {
      var t := r[1..];
      JoinAsCommaJoin(" " + r[0], t);
      PadRestCons(r);
      JoinWithPad(r[0], t);
      ConsParts(r);
      JoinWithCons(a, r, ", ");
      JoinCons(a, PadRest(r), ',');
      CommaSpace(a, JoinWith(r, ", "));
    }
  }

  lemma JoinWithCons(a: string, r: seq<string>, sep: string)
    requires r != []
    ensures JoinWith([a] + r, sep) == a + sep + JoinWith(r, sep)
  {
    assert ([a] + r)[1..] == r;
  }

  lemma JoinCons(a: string, r: seq<string>, c: char)
    requires r != []
    ensures Join([a] + r, c) == a + [c] + Join(r, c)
  {
    assert ([a] + r)[1..] == r;
  }

  lemma PadRestCons(r: seq<string>)
    requires r != []
    ensures PadRest(r) == [" " + r[0]] + PadRest(r[1..])
  {
  }

  lemma CommaSpace(a: string, x: string)
    ensures a + ", " + x == a + [','] + (" " + x)
  {
  }

  lemma TrimPadded(p: string)
    requires Trimmed(p)
    ensures Trim(" " + p) == p
  {
    assert (" " + p)[1..] == p;
    assert TrimLeft(" " + p) == TrimLeft(p) == p;
    assert TrimRight(p) == p;
  }

  lemma {:induction false} ItemsOfPadded(r: seq<string>)
    requires forall k :: 0 <= k < |r| ==> r[k] != "" && Trimmed(r[k])
    ensures Items(PadRest(r)) == r
    decreases |r|
  {
    if r != [] {
      TrimPadded(r[0]);
      assert PadRest(r)[1..] == PadRest(r[1..]);
      ItemsOfPadded(r[1..]);
    }
  }

  lemma {:induction false} JoinEnds(parts: seq<string>)
    requires |parts| >= 1 && forall k :: 0 <= k < |parts| ==> parts[k] != ""
    ensures var j := JoinWith(parts, ", "); |j| > 0 && j[0] == parts[0][0] && j[|j| - 1] == parts[|parts| - 1][|parts[|parts| - 1]| - 1]
    decreases |parts|
  {
    if |parts| > 1 {
      JoinEnds(parts[1..]);
    }
  }

  lemma FreePadded(p: string)
    requires Free(p, ',')
    ensures Free(" " + p, ',')
  {
    forall i | 0 <= i < |" " + p| ensures (" " + p)[i] != ',' {
      if i > 0 {
        assert (" " + p)[i] == p[i - 1];
      }
    }
  }

  lemma ItemsCons(a: string, t: seq<string>)
    ensures Items([a] + t) == (if Trim(a) != "" then [Trim(a)] else []) + Items(t)
  {
    assert ([a] + t)[1..] == t;
  }

  lemma PaddedFree(a: string, r: seq<string>)
    requires Free(a, ',') && forall k :: 0 <= k < |r| ==> Free(r[k], ',')
    ensures forall k :: 0 <= k < |[a] + PadRest(r)| ==> Free(([a] + PadRest(r))[k], ',')
  {
    var padded := [a] + PadRest(r);
    forall k | 0 <= k < |padded| ensures Free(padded[k], ',') {
      if k == 0 {
        assert padded[k] == a;
      } else {
        assert padded[k] == PadRest(r)[k - 1] == " " + r[k - 1];
        FreePadded(r[k - 1]);
      }
    }
  }

  /** The comma-separated form of "a, b, c": "a", " b", " c". */
  function Padded(parts: seq<string>): seq<string>
    requires parts != []
  {
    [parts[0]] + PadRest(parts[1..])
  }

  lemma ItemsOfPaddedParts(parts: seq<string>)
    requires parts != []
    requires forall k :: 0 <= k < |parts| ==> parts[k] != "" && Trimmed(parts[k])
    ensures Items(Padded(parts)) == parts
  {
    var a, r := parts[0], parts[1..];
    ItemsCons(a, PadRest(r));
    TrimmedFixed(a);
    ItemsOfPadded(r);
    ConsParts(parts);
  }

  lemma SplitPadded(parts: seq<string>)
    requires parts != []
    requires forall k :: 0 <= k < |parts| ==> Free(parts[k], ',')
    ensures Split(Join(Padded(parts), ','), ',') == Padded(parts)
  {
    PaddedFree(parts[0], parts[1..]);
    SplitJoin(Padded(parts), ',');
  }

  lemma JoinAsPadded(parts: seq<string>)
    requires parts != []
    ensures JoinWith(parts, ", ") == Join(Padded(parts), ',')
  {
    JoinAsCommaJoin(parts[0], parts[1..]);
    ConsParts(parts);
  }

  lemma ConsParts<T>(xs: seq<T>)
    requires xs != []
    ensures [xs[0]] + xs[1..] == xs
  {
  }

  lemma JoinedSplit(parts: seq<string>)
    requires parts != []
    requires forall k :: 0 <= k < |parts| ==> parts[k] != "" && Trimmed(parts[k]) && Free(parts[k], ',')
    ensures Items(Split(JoinWith(parts, ", "), ',')) == parts
  {
    SplitPadded(parts);
    JoinAsPadded(parts);
    ItemsOfPaddedParts(parts);
  }

  /** Items written out as "a, b, c" read back as the same items: the text
      the form pre-fills (`", ".join(others)`) is understood again on
      submission. */
  lemma JoinedText(parts: seq<string>)
    requires parts != []
    requires forall k :: 0 <= k < |parts| ==> parts[k] != "" && Trimmed(parts[k])
    ensures JoinWith(parts, ", ") != "" && JoinWith(parts, ", ")[0] == parts[0][0]
    ensures Trim(JoinWith(parts, ", ")) == JoinWith(parts, ", ")
  {
    var text := JoinWith(parts, ", ");
    JoinEnds(parts);
    assert Trimmed(parts[0]) && Trimmed(parts[|parts| - 1]);
    assert Trimmed(text);
    TrimmedFixed(text);
  }

  lemma JoinedItemsRoundTrip(parts: seq<string>, parse: string -> Option<Json>)
    requires ListsNeedBracket(parse)
    requires parts != []
    requires forall k :: 0 <= k < |parts| ==> parts[k] != "" && Trimmed(parts[k]) && Free(parts[k], ',')
    requires parts[0][0] != '['
    ensures CleanStrands(JStr(JoinWith(parts, ", ")), parse) == Strs(parts)
  {
    var text := JoinWith(parts, ", ");
    JoinedText(parts);
    assert !(parse(Trim(text)).Some? && parse(Trim(text)).value.JArr?);
    JoinedSplit(parts);
    assert Items(Split(Trim(text), ',')) == parts;
    assert CleanStrands(JStr(text), parse) == Strs(Items(Split(Trim(text), ',')));
  }

  // ---------------------------------------------------------------------
  // The form's initial values

  /** The strings among a stored JSON list, in order. */
  function StringsOf(xs: seq<Json>): (r: seq<string>)
    ensures forall s :: s in r <==> JStr(s) in xs
    decreases |xs|
  {
    if xs == [] then []
    else
      var last := xs[|xs| - 1];
      assert forall s :: JStr(s) in xs <==> JStr(s) in xs[..|xs| - 1] || last == JStr(s);
      StringsOf(xs[..|xs| - 1]) + (if last.JStr? then [last.s] else [])
  }

  function IsKnown(known: seq<string>): string -> bool { s => s in known }
  function IsOther(known: seq<string>): string -> bool { s => s !in known }

  /** What `SchoolProfileForm.__init__` pre-fills for an unbound form on a
      profile with strands: the known SHS labels become the ticked boxes,
      the rest the free-form text joined with ", " (None where it leaves
      the field alone). A profile without strands, or a bound form, gets
      neither. */
  datatype Initial = Initial(shs: Option<seq<string>>, others: Option<string>)

  /** `__init__` with the labels of the SHS strands the form offers. */
  function ProfileInitial(strands: seq<Json>, bound: bool): Initial
  {
    InitialFor(strands, bound, Labels(Constants.ShsStrands))
  }

  function InitialFor(strands: seq<Json>, bound: bool, known: seq<string>): (r: Initial)
    ensures (bound || strands == []) ==> r == Initial(None, None)
    ensures !bound && strands != [] ==>
      r.shs == Some(Filter(StringsOf(strands), IsKnown(known))) &&
      (r.others.Some? <==> Filter(StringsOf(strands), IsOther(known)) != []) &&
      (r.others.Some? ==> r.others.value == JoinWith(Filter(StringsOf(strands), IsOther(known)), ", "))
  {
    if bound || strands == [] then Initial(None, None)
    else
      var others := Filter(StringsOf(strands), IsOther(known));
      Initial(Some(Filter(StringsOf(strands), IsKnown(known))), if others != [] then Some(JoinWith(others, ", ")) else None)
  }

  lemma InitialSplitsStrands(strands: seq<Json>, known: seq<string>)
    requires strands != []
    ensures var r := InitialFor(strands, false, known);
      (forall s :: s in r.shs.value <==> JStr(s) in strands && s in known) &&
      (r.others.None? <==> forall s :: JStr(s) in strands ==> s in known)
  {
    FilterMeaning(StringsOf(strands), IsKnown(known));
    FilterMeaning(StringsOf(strands), IsOther(known));
    var others := Filter(StringsOf(strands), IsOther(known));
    if others != [] {
      assert others[0] in others;
    }
  }

  // ---------------------------------------------------------------------
  // Combining the two fields

  /** The stripped non-empty strings of a list, in order: what survives the
      `isinstance(s, str)` and `s.strip()` tests of `clean`. */
  function StrandTexts(xs: seq<Json>): (r: seq<string>)
    ensures forall k :: 0 <= k < |r| ==> r[k] != "" && Trimmed(r[k])
    decreases |xs|
  {
    if xs == [] then []
    else
      var last := xs[|xs| - 1];
      if last.JStr? then TrimIsTrimmed(last.s); StrandTexts(xs[..|xs| - 1]) + (if Trim(last.s) != "" then [Trim(last.s)] else [])
      else StrandTexts(xs[..|xs| - 1])
  }

  lemma StrandTextsSnoc(xs: seq<Json>, i: nat)
    requires i < |xs|
    ensures StrandTexts(xs[..i + 1]) ==
      StrandTexts(xs[..i]) + (if xs[i].JStr? && Trim(xs[i].s) != "" then [Trim(xs[i].s)] else [])
  {
    assert xs[..i + 1][..i] == xs[..i];
  }

  /** The strands `clean` stores: the ticked SHS labels followed by the
      free-form items, stripped, non-empty, and each only at its first
      occurrence. */
  function CombinedStrands(shs: seq<string>, others: seq<Json>): seq<string>
  {
    Dedup(StrandTexts(Strs(shs) + others))
  }

  lemma DedupSnocSeq(ys: seq<string>, t: string)
    ensures Dedup(ys + [t]) == DedupStep(Dedup(ys), t)
  {
    DedupSnoc(ys + [t], |ys|);
    assert (ys + [t])[..|ys| + 1] == ys + [t];
    assert (ys + [t])[..|ys|] == ys;
  }

  /** `SchoolProfileForm.clean`: the loop with a `seen` set. */
  method CleanProfile(shs: seq<string>, others: seq<Json>) returns (combined: seq<string>)
    ensures combined == CombinedStrands(shs, others)
  {
    var items := Strs(shs) + others;
    combined := [];
    var seen: set<string> := {};
    for i := 0 to |items|
      invariant combined == Dedup(StrandTexts(items[..i]))
      invariant forall x :: x in seen <==> x in combined
    {
      var s := items[i];
      ghost var prev := StrandTexts(items[..i]);
      StrandTextsSnoc(items, i);
      if s.JStr? {
        var s2 := Trim(s.s);
        if s2 != "" {
          assert StrandTexts(items[..i + 1]) == prev + [s2];
          DedupSnocSeq(prev, s2);
          if s2 !in seen {
            combined := combined + [s2];
            seen := seen + {s2};
          }
        } else {
          assert StrandTexts(items[..i + 1]) == prev;
        }
      } else {
        assert StrandTexts(items[..i + 1]) == prev;
      }
    }
    assert items[..|items|] == items;
  }

  lemma {:induction false} StrandTextsOfStrings(xs: seq<string>)
    requires forall k :: 0 <= k < |xs| ==> xs[k] != "" && Trimmed(xs[k])
    ensures StrandTexts(Strs(xs)) == xs
    decreases |xs|
  {
    if xs != [] {
      var n := |xs|;
      assert Strs(xs)[..n - 1] == Strs(xs[..n - 1]);
      StrandTextsOfStrings(xs[..n - 1]);
      TrimmedFixed(xs[n - 1]);
      assert xs == xs[..n - 1] + [xs[n - 1]];
    }
  }

  lemma {:induction false} StrandTextsAppend(a: seq<Json>, b: seq<Json>)
    ensures StrandTexts(a + b) == StrandTexts(a) + StrandTexts(b)
    decreases |b|
  {
    if b != [] {
      var n := |b|;
      assert (a + b)[..|a + b| - 1] == a + b[..n - 1];
      assert (a + b)[|a + b| - 1] == b[n - 1];
      StrandTextsAppend(a, b[..n - 1]);
    } else {
      assert a + b == a;
    }
  }

  /** What `clean` stores is stripped, non-empty, duplicate-free, and holds
      exactly the stripped non-empty strings of the two fields, the ticked
      labels first. */
  lemma CombinedMeaning(shs: seq<string>, others: seq<Json>)
    ensures var r := CombinedStrands(shs, others);
      Distinct(r) &&
      (forall k :: 0 <= k < |r| ==> r[k] != "" && Trimmed(r[k])) &&
      (forall x :: x in r <==> x in StrandTexts(Strs(shs)) || x in StrandTexts(others)) &&
      (forall i, j :: 0 <= i < j < |r| ==>
        FirstIndex(StrandTexts(Strs(shs) + others), r[i]) < FirstIndex(StrandTexts(Strs(shs) + others), r[j]))
  {
    var all := StrandTexts(Strs(shs) + others);
    DedupMeaning(all);
    StrandTextsAppend(Strs(shs), others);
    var r := CombinedStrands(shs, others);
    forall k | 0 <= k < |r| ensures r[k] != "" && Trimmed(r[k]) {
      assert r[k] in all;
    }
  }

  lemma {:induction false} FilterDistinct<T>(xs: seq<T>, keep: T -> bool)
    requires Distinct(xs)
    ensures Distinct(Filter(xs, keep))
    decreases |xs|
  {
    if xs != [] {
      var init := xs[..|xs| - 1];
      FilterDistinct(init, keep);
      FilterMeaning(init, keep);
      if keep(xs[|xs| - 1]) {
        assert xs[|xs| - 1] !in init;
      }
    }
  }

  lemma {:induction false} FilterAllStrings(xs: seq<string>, keep: string -> bool)
    requires forall k :: 0 <= k < |xs| ==> xs[k] != "" && Trimmed(xs[k])
    ensures forall k :: 0 <= k < |Filter(xs, keep)| ==> Filter(xs, keep)[k] != "" && Trimmed(Filter(xs, keep)[k])
  {
    FilterMeaning(xs, keep);
    forall k | 0 <= k < |Filter(xs, keep)| ensures Filter(xs, keep)[k] != "" && Trimmed(Filter(xs, keep)[k]) {
      assert Filter(xs, keep)[k] in xs;
    }
  }

  lemma {:induction false} StringsOfStrs(xs: seq<string>)
    ensures StringsOf(Strs(xs)) == xs
    decreases |xs|
  {
    if xs != [] {
      var n := |xs|;
      assert Strs(xs)[..n - 1] == Strs(xs[..n - 1]);
      StringsOfStrs(xs[..n - 1]);
      assert xs == xs[..n - 1] + [xs[n - 1]];
    }
  }

  /** What the free-form box holds when the pre-filled form is submitted
      unchanged: the pre-filled text, or nothing. */
  function Typed(init: Initial): Json
  {
    JStr(init.others.GetOr(""))
  }

  lemma PartsDistinct(strands: seq<string>, known: seq<string>)
    requires Distinct(strands)
    ensures Distinct(Filter(strands, IsKnown(known)) + Filter(strands, IsOther(known)))
  {
    var shs := Filter(strands, IsKnown(known));
    var others := Filter(strands, IsOther(known));
    FilterMeaning(strands, IsKnown(known));
    FilterMeaning(strands, IsOther(known));
    FilterDistinct(strands, IsKnown(known));
    FilterDistinct(strands, IsOther(known));
    forall i, j | 0 <= i < j < |shs + others| ensures (shs + others)[i] != (shs + others)[j] {
      if i < |shs| && j >= |shs| {
        assert (shs + others)[i] in shs;
        assert (shs + others)[j] in others;
      }
    }
  }

  lemma OthersTextRoundTrip(strands: seq<string>, known: seq<string>, parse: string -> Option<Json>)
    requires ListsNeedBracket(parse)
    requires strands != []
    requires forall k :: 0 <= k < |strands| ==> strands[k] != "" && Trimmed(strands[k])
    requires forall k :: 0 <= k < |strands| && IsOther(known)(strands[k]) ==> Free(strands[k], ',') && strands[k][0] != '['
    ensures CleanStrands(Typed(InitialFor(Strs(strands), false, known)), parse) == Strs(Filter(strands, IsOther(known)))
  {
    var others := Filter(strands, IsOther(known));
    TypedOthers(strands, known);
    if others != [] {
      OthersShape(strands, known);
      JoinedItemsRoundTrip(others, parse);
    } else {
      EmptyTextNoStrands(parse);
    }
  }

  /** The text field's initial value is the others joined, or empty. */
  lemma TypedOthers(strands: seq<string>, known: seq<string>)
    requires strands != []
    ensures var others := Filter(strands, IsOther(known));
      Typed(InitialFor(Strs(strands), false, known)) == JStr(if others != [] then JoinWith(others, ", ") else "")
  {
    StringsOfStrs(strands);
    assert Strs(strands) != [];
  }

  lemma EmptyTextNoStrands(parse: string -> Option<Json>)
    ensures CleanStrands(JStr(""), parse) == Strs([])
  {
  }

  lemma OthersShape(strands: seq<string>, known: seq<string>)
    requires forall k :: 0 <= k < |strands| ==> strands[k] != "" && Trimmed(strands[k])
    requires forall k :: 0 <= k < |strands| && IsOther(known)(strands[k]) ==> Free(strands[k], ',') && strands[k][0] != '['
    ensures var others := Filter(strands, IsOther(known));
      (forall k :: 0 <= k < |others| ==> others[k] != "" && Trimmed(others[k]) && Free(others[k], ',')) &&
      (others != [] ==> others[0][0] != '[')
  {
    var others := Filter(strands, IsOther(known));
    FilterMeaning(strands, IsOther(known));
    forall k | 0 <= k < |others| ensures others[k] != "" && Trimmed(others[k]) && Free(others[k], ',') && others[k][0] != '[' {
      assert others[k] in strands;
    }
  }

  /** Opening a profile's form and submitting it unchanged keeps its
      strands: the stored list comes back with the SHS labels first and the
      other items after them, each in its old order, so as a set it is
      unchanged. The strands are taken as the form itself writes them
      (stripped, non-empty, distinct), the free-form ones free of commas and
      not starting with '['. */
  lemma ResubmitKeepsStrands(strands: seq<string>, known: seq<string>, parse: string -> Option<Json>)
    requires ListsNeedBracket(parse)
    requires strands != [] && Distinct(strands)
    requires forall k :: 0 <= k < |strands| ==> strands[k] != "" && Trimmed(strands[k])
    requires forall k :: 0 <= k < |strands| && IsOther(known)(strands[k]) ==> Free(strands[k], ',') && strands[k][0] != '['
    ensures InitialFor(Strs(strands), false, known).shs == Some(Filter(strands, IsKnown(known)))
    ensures CombinedStrands(Filter(strands, IsKnown(known)), CleanStrands(Typed(InitialFor(Strs(strands), false, known)), parse)) ==
      Filter(strands, IsKnown(known)) + Filter(strands, IsOther(known))
  {
    StringsOfStrs(strands);
    var shs := Filter(strands, IsKnown(known));
    var others := Filter(strands, IsOther(known));
    OthersTextRoundTrip(strands, known, parse);
    FilterAllStrings(strands, IsKnown(known));
    FilterAllStrings(strands, IsOther(known));
    StrandTextsAppend(Strs(shs), Strs(others));
    StrandTextsOfStrings(shs);
    StrandTextsOfStrings(others);
    PartsDistinct(strands, known);
    DedupDistinct(shs + others);
  }

  /** The strands come back as the same set. */
  lemma ResubmitSameSet(strands: seq<string>, known: seq<string>)
    ensures forall x :: x in Filter(strands, IsKnown(known)) + Filter(strands, IsOther(known)) <==> x in strands
  {
    FilterMeaning(strands, IsKnown(known));
    FilterMeaning(strands, IsOther(known));
  }

  /** What the textarea shows as written: a ModelForm's initial data from
      the instance take precedence over a field's `initial`, so the text is
      `str` of the stored list, each string in single quotes. */
  function ListRepr(xs: seq<string>): string
  {
    "[" + JoinWith(seq(|xs|, i requires 0 <= i < |xs| => "'" + xs[i] + "'"), ", ") + "]"
  }

  /** As written, submitting the form unchanged over the strands SPED and
      ALS (no SHS label among them) stores the two fragments of the shown
      text, `['SPED'` and `'ALS']`, in place of the strands; `json.loads`
      refuses the single-quoted text. */
  lemma ResubmitAsWrittenFragments(known: seq<string>, parse: string -> Option<Json>)
    requires "SPED" !in known && "ALS" !in known
    requires parse("['SPED', 'ALS']").None?
    ensures ListRepr(["SPED", "ALS"]) == "['SPED', 'ALS']"
    ensures CombinedStrands(Filter(["SPED", "ALS"], IsKnown(known)), CleanStrands(JStr(ListRepr(["SPED", "ALS"])), parse)) ==
      ["['SPED'", "'ALS']"]
  {
    var parts := ["['SPED'", "'ALS']"];
    ShownFragments();
    FragmentsCleaned(parse);
    NoKnownStrand(known);
    FragmentsKept();
  }

  lemma FragmentsKept()
    ensures CombinedStrands([], Strs(["['SPED'", "'ALS']"])) == ["['SPED'", "'ALS']"]
  {
    var a, b := "['SPED'", "'ALS']";
    assert a[0] == '[' && a[|a| - 1] == '\'' && b[0] == '\'' && b[|b| - 1] == ']';
    CombinedTexts([a, b]);
  }

  /** Distinct stripped non-empty free-form strings are stored as they are. */
  lemma CombinedTexts(xs: seq<string>)
    requires Distinct(xs) && forall k :: 0 <= k < |xs| ==> xs[k] != "" && Trimmed(xs[k])
    ensures CombinedStrands([], Strs(xs)) == xs
  {
    assert Strs([]) + Strs(xs) == Strs(xs);
    StrandTextsOfStrings(xs);
    DedupDistinct(xs);
  }

  lemma ShownFragments()
    ensures ListRepr(["SPED", "ALS"]) == JoinWith(["['SPED'", "'ALS']"], ", ") == "['SPED', 'ALS']"
  {
    var strands := ["SPED", "ALS"];
    var quoted := seq(|strands|, i requires 0 <= i < |strands| => "'" + strands[i] + "'");
    assert quoted[0] == "'SPED'" && quoted[1] == "'ALS'";
    assert quoted[1..] == ["'ALS'"];
    assert JoinWith(quoted, ", ") == "'SPED', 'ALS'";
    var parts := ["['SPED'", "'ALS']"];
    assert parts[1..] == ["'ALS']"];
    assert JoinWith(parts, ", ") == "['SPED'" + ", " + "'ALS']";
  }

  lemma FragmentsCleaned(parse: string -> Option<Json>)
    requires parse("['SPED', 'ALS']").None?
    ensures CleanStrands(JStr("['SPED', 'ALS']"), parse) == Strs(["['SPED'", "'ALS']"])
  {
    var parts := ["['SPED'", "'ALS']"];
    assert JoinWith(parts, ", ") == "['SPED', 'ALS']";
    assert Free(parts[0], ',') && Free(parts[1], ',');
    JoinedText(parts);
    JoinedSplit(parts);
  }

  lemma NoKnownStrand(known: seq<string>)
    requires "SPED" !in known && "ALS" !in known
    ensures Filter(["SPED", "ALS"], IsKnown(known)) == []
  {
    var strands := ["SPED", "ALS"];
    assert strands[..1] == ["SPED"];
    assert Filter(strands[..1], IsKnown(known)) == [];
  }

  // ---------------------------------------------------------------------
  // SchoolForm.clean

  /** The fields `SchoolForm.clean` reads; None stands for a field Django
      left out of `cleaned_data` or left blank. */
  datatype SchoolFormData = SchoolFormData(
    createUser: bool, username: Option<string>, password: Option<string>,
    role: Option<string>, sectionCount: nat, hasPsdsDistrict: bool)

  predicate Given(v: Option<string>)
  {
    v.Some? && v.value != ""
  }

  const UsernameRequired := "Username is required when creating a user"
  const PasswordRequired := "Password is required when creating a user"
  const SectionsRequired := "Section Admins must be assigned to at least one section"
  const DistrictRequired := "District is required for PSDS role"

  /** The field errors `SchoolForm.clean` adds, in its order. */
  function SchoolFormErrors(f: SchoolFormData): (errs: seq<(string, string)>)
    ensures !f.createUser ==> errs == []
    ensures ("username", UsernameRequired) in errs <==> f.createUser && !Given(f.username)
    ensures ("user_password", PasswordRequired) in errs <==> f.createUser && !Given(f.password)
    ensures ("assigned_sections", SectionsRequired) in errs <==>
      f.createUser && f.role == Some("section_admin") && f.sectionCount == 0
    ensures ("psds_district", DistrictRequired) in errs <==>
      f.createUser && f.role == Some("psds") && !f.hasPsdsDistrict
    ensures |errs| <= 3
  {
    if !f.createUser then []
    else
      (if !Given(f.username) then [("username", UsernameRequired)] else []) +
      (if !Given(f.password) then [("user_password", PasswordRequired)] else []) +
      (if f.role == Some("section_admin") && f.sectionCount == 0 then [("assigned_sections", SectionsRequired)] else []) +
      (if f.role == Some("psds") && !f.hasPsdsDistrict then [("psds_district", DistrictRequired)] else [])
  }

  /** The form is clean exactly when no account is requested, or the
      account has a username, a password, and what its role needs. */
  lemma SchoolFormValid(f: SchoolFormData)
    ensures SchoolFormErrors(f) == [] <==>
      !f.createUser ||
      (Given(f.username) && Given(f.password) &&
       (f.role == Some("section_admin") ==> f.sectionCount > 0) &&
       (f.role == Some("psds") ==> f.hasPsdsDistrict))
  {
    var errs := SchoolFormErrors(f);
    if errs != [] {
      assert errs[0] in errs;
    }
  }
}
