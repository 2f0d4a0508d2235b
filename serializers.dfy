// The submit-time serialisers of the submission page and the hydrators that
// read their output back when the page loads: the learning-competency list,
// the non-mastery reasons CSV, the interventions JSON and the reading / RMA
// difficulty JSON. Each textarea or hidden input is modelled by its value;
// the serialisers are methods that compute the value they store.
module Serializers {
  import opened Wrappers
  import opened Text
  import opened Json
  import Lists

  // ---------------------------------------------------------------------
  // Least-learned competencies (LLC) list

  /** `/\d+\./.test(l)`: a digit directly followed by '.' somewhere in l. */
  predicate HasEnumerator(l: string)
  {
    exists i :: 0 <= i < |l| - 1 && IsDigit(l[i]) && l[i + 1] == '.'
  }

  /** The line a cleaned list keeps for l: its trimmed text, when that is
      non-empty and enumerated. */
  function Kept(l: string): seq<string>
  {
    var t := Trim(l);
    if t != "" && HasEnumerator(t) then [t] else []
  }

  /** `lines.map(l => l.trim()).filter(l => l && /\d+\./.test(l))`. */
  function CleanLines(lines: seq<string>): (r: seq<string>)
    ensures |r| <= |lines|
  {
    if lines == [] then []
    else CleanLines(lines[..|lines| - 1]) + Kept(lines[|lines| - 1])
  }

  /** The submit handler's rewrite of the LLC textarea: the trimmed
      enumerated lines joined by newlines, or the text unchanged when no
      line is kept. */
  function LlcCleaned(value: string): string
  {
    var cleaned := CleanLines(Split(value, '\n'));
    if |cleaned| > 0 then Join(cleaned, '\n') else value
  }

  predicate CleanLine(l: string)
  {
    l != "" && HasEnumerator(l) && Trimmed(l) && Free(l, '\n')
  }

  lemma KeptShape(l: string)
    requires Free(l, '\n')
    ensures forall k :: 0 <= k < |Kept(l)| ==> CleanLine(Kept(l)[k])
  {
    TrimIsTrimmed(l);
    TrimFree(l, '\n');
  }

  lemma KeptClean(l: string)
    requires CleanLine(l)
    ensures Kept(l) == [l]
  {
    TrimmedFixed(l);
  }

  lemma {:induction false} CleanLinesShape(lines: seq<string>)
    requires forall k :: 0 <= k < |lines| ==> Free(lines[k], '\n')
    ensures forall k :: 0 <= k < |CleanLines(lines)| ==> CleanLine(CleanLines(lines)[k])
  {
    if lines != [] {
      var init := lines[..|lines| - 1];
      assert forall k :: 0 <= k < |init| ==> init[k] == lines[k];
      CleanLinesShape(init);
      KeptShape(lines[|lines| - 1]);
    }
  }

  lemma {:induction false} CleanLinesFixed(lines: seq<string>)
    requires forall k :: 0 <= k < |lines| ==> CleanLine(lines[k])
    ensures CleanLines(lines) == lines
  {
    if lines != [] {
      var init, last := lines[..|lines| - 1], lines[|lines| - 1];
      forall k | 0 <= k < |init| ensures CleanLine(init[k]) {
        assert init[k] == lines[k];
      }
      CleanLinesFixed(init);
      KeptClean(last);
      assert CleanLines(lines) == init + [last];
      Lists.InitLast(lines);
    }
  }

  /** Submitting twice stores the same LLC text as submitting once. */
  lemma LlcIdempotent(value: string)
    ensures LlcCleaned(LlcCleaned(value)) == LlcCleaned(value)
  {
    var lines := Split(value, '\n');
    SplitPartsFree(value, '\n');
    var cleaned := CleanLines(lines);
    if |cleaned| > 0 {
      CleanLinesShape(lines);
      SplitJoin(cleaned, '\n');
      CleanLinesFixed(cleaned);
    }
  }

  /** The text the page puts in an empty LLC textarea. */
  const LlcPlaceholder := "1. \n2. \n3. \n4. "

  /** initializeSLPCompetenciesAndReasons: a blank LLC textarea gets the
      enumerated placeholder. */
  function LlcInitial(value: string): (r: string)
    ensures IsBlank(value) ==> r == LlcPlaceholder
    ensures !IsBlank(value) ==> r == value
  {
    if Trim(value) == "" then LlcPlaceholder else value
  }

  // ---------------------------------------------------------------------
  // Non-mastery reasons

  /** A reason checkbox: its value (code), the text of its label, and whether it is checked. */
  datatype ReasonChoice = ReasonChoice(code: string, caption: string, checked: bool)

  function CheckedCode(b: ReasonChoice): seq<string>
  {
    if b.checked then [b.code] else []
  }

  function CheckedCodes(boxes: seq<ReasonChoice>): (r: seq<string>)
    ensures |r| <= |boxes|
  {
    if boxes == [] then []
    else CheckedCodes(boxes[..|boxes| - 1]) + CheckedCode(boxes[|boxes| - 1])
  }

  lemma CheckedCodesStep(boxes: seq<ReasonChoice>, i: nat)
    requires i < |boxes|
    ensures CheckedCodes(boxes[..i + 1]) == CheckedCodes(boxes[..i]) + CheckedCode(boxes[i])
  {
    assert boxes[..i + 1][..i] == boxes[..i];
  }

  lemma {:induction false} InCheckedCodes(boxes: seq<ReasonChoice>, c: string)
    ensures c in CheckedCodes(boxes) <==> exists i :: 0 <= i < |boxes| && boxes[i].code == c && boxes[i].checked
  {
    if boxes != [] {
      var init := boxes[..|boxes| - 1];
      InCheckedCodes(init, c);
      assert forall i :: 0 <= i < |init| ==> init[i] == boxes[i];
    }
  }

  /** The submit handler's value for the hidden `-non_mastery_reasons` input. */
  method SerializeReasons(boxes: seq<ReasonChoice>) returns (csv: string)
    ensures csv == Join(CheckedCodes(boxes), ',')
  {
    var codes: seq<string> := [];
    var i := 0;
    while i < |boxes|
      invariant 0 <= i <= |boxes|
      invariant codes == CheckedCodes(boxes[..i])
    {
      CheckedCodesStep(boxes, i);
      if boxes[i].checked {
        codes := codes + [boxes[i].code];
      }
      i := i + 1;
    }
    assert boxes[..i] == boxes;
    csv := Join(codes, ',');
  }

  /** `(value || '').split(',').filter(Boolean)`: the codes the page reads back. */
  function StoredCodes(csv: string): (r: seq<string>)
    ensures forall k :: 0 <= k < |r| ==> r[k] != "" && Free(r[k], ',')
  {
    SplitPartsFree(csv, ',');
    var r := NonEmpty(Split(csv, ','));
    assert forall k :: 0 <= k < |r| ==> r[k] in Split(csv, ',');
    r
  }

  /** Codes that are non-empty and hold no comma round-trip through the CSV. */
  lemma ReasonsRoundTrip(codes: seq<string>)
    requires forall k :: 0 <= k < |codes| ==> codes[k] != "" && Free(codes[k], ',')
    ensures StoredCodes(Join(codes, ',')) == codes
  {
    if codes == [] {
      assert Split("", ',') == [""];
    } else {
      SplitJoin(codes, ',');
      NonEmptyKeeps(codes);
    }
  }

  function FirstWithCode(boxes: seq<ReasonChoice>, c: string): (r: Option<nat>)
    ensures r.Some? ==> r.value < |boxes| && boxes[r.value].code == c
    ensures r.Some? ==> forall j :: 0 <= j < r.value ==> boxes[j].code != c
    ensures r.None? ==> forall j :: 0 <= j < |boxes| ==> boxes[j].code != c
  {
    if boxes == [] then None
    else if boxes[0].code == c then Some(0)
    else
      match FirstWithCode(boxes[1..], c)
      case None => None
      case Some(k) => Some(k + 1)
  }

  /** `codes.forEach(code => section.querySelector(
      input.reason-choice[value=code]).checked = true)`. */
  function Restored(boxes: seq<ReasonChoice>, codes: seq<string>): (r: seq<ReasonChoice>)
    ensures |r| == |boxes|
  {
    seq(|boxes|, i requires 0 <= i < |boxes| =>
      boxes[i].(checked := boxes[i].checked || (boxes[i].code in codes && FirstWithCode(boxes, boxes[i].code) == Some(i))))
  }

  predicate DistinctCodes(boxes: seq<ReasonChoice>)
  {
    forall i, j :: 0 <= i < j < |boxes| ==> boxes[i].code != boxes[j].code
  }

  function Unchecked(boxes: seq<ReasonChoice>): (r: seq<ReasonChoice>)
    ensures |r| == |boxes|
  {
    seq(|boxes|, i requires 0 <= i < |boxes| => boxes[i].(checked := false))
  }

  /** Loading a page whose checkboxes start unchecked restores exactly the
      selection that was submitted, when the checkbox values are distinct,
      non-empty and comma-free. */
  lemma ReasonsRestoreSelection(boxes: seq<ReasonChoice>)
    requires DistinctCodes(boxes)
    requires forall k :: 0 <= k < |boxes| ==> boxes[k].code != "" && Free(boxes[k].code, ',')
    ensures Restored(Unchecked(boxes), StoredCodes(Join(CheckedCodes(boxes), ','))) == boxes
  {
    CheckedCodesClean(boxes);
    ReasonsRoundTrip(CheckedCodes(boxes));
    forall i | 0 <= i < |boxes| ensures Restored(Unchecked(boxes), CheckedCodes(boxes))[i] == boxes[i] {
      RestoredAt(boxes, i);
    }
  }

  lemma {:induction false} CheckedCodesClean(boxes: seq<ReasonChoice>)
    requires forall k :: 0 <= k < |boxes| ==> boxes[k].code != "" && Free(boxes[k].code, ',')
    ensures forall k :: 0 <= k < |CheckedCodes(boxes)| ==> CheckedCodes(boxes)[k] != "" && Free(CheckedCodes(boxes)[k], ',')
  {
    if boxes != [] {
      var init := boxes[..|boxes| - 1];
      assert forall k :: 0 <= k < |init| ==> init[k] == boxes[k];
      CheckedCodesClean(init);
    }
  }

  /** Box i ends checked exactly when it was submitted checked. */
  lemma RestoredAt(boxes: seq<ReasonChoice>, i: nat)
    requires DistinctCodes(boxes) && i < |boxes|
    ensures Restored(Unchecked(boxes), CheckedCodes(boxes))[i] == boxes[i]
  {
    var u := Unchecked(boxes);
    var c := boxes[i].code;
    var codes := CheckedCodes(boxes);
    InCheckedCodes(boxes, c);
    if c in codes {
      var j :| 0 <= j < |boxes| && boxes[j].code == c && boxes[j].checked;
      assert j == i;
    }
    assert (c in codes) == boxes[i].checked;
    UncheckedDistinct(boxes);
    FirstOfDistinct(u, i);
    assert u[i] == boxes[i].(checked := false);
  }

  lemma UncheckedDistinct(boxes: seq<ReasonChoice>)
    requires DistinctCodes(boxes)
    ensures DistinctCodes(Unchecked(boxes))
  {
    var u := Unchecked(boxes);
    forall a, b | 0 <= a < b < |u| ensures u[a].code != u[b].code {
      assert u[a].code == boxes[a].code && u[b].code == boxes[b].code;
    }
  }

  lemma {:induction false} FirstOfDistinct(boxes: seq<ReasonChoice>, i: nat)
    requires DistinctCodes(boxes) && i < |boxes|
    ensures FirstWithCode(boxes, boxes[i].code) == Some(i)
  {
    if i > 0 {
      var tail := boxes[1..];
      assert DistinctCodes(tail) by {
        forall a, b | 0 <= a < b < |tail| ensures tail[a].code != tail[b].code {
          assert tail[a] == boxes[a + 1] && tail[b] == boxes[b + 1];
        }
      }
      FirstOfDistinct(tail, i - 1);
      assert tail[i - 1] == boxes[i];
    }
  }

  /** `codes.includes('f')`: the 'Other' box decides whether the free-text reason shows. */
  function OtherSelected(csv: string): bool
  {
    "f" in StoredCodes(csv)
  }

  // ---------------------------------------------------------------------
  // Interventions per reason

  /** An `intervention-textarea` with its `data-reason-code`. */
  datatype InterventionArea = InterventionArea(code: string, value: string)

  function FirstArea(areas: seq<InterventionArea>, code: string): Option<string>
  {
    if areas == [] then None
    else if areas[0].code == code then Some(areas[0].value)
    else FirstArea(areas[1..], code)
  }

  /** The trimmed text of the first textarea for the code, or ''. */
  function InterventionText(areas: seq<InterventionArea>, code: string): string
  {
    match FirstArea(areas, code)
    case Some(v) => Trim(v)
    case None => ""
  }

  function InterventionEntry(box: ReasonChoice, areas: seq<InterventionArea>): Json
  {
    JObj([("code", JStr(box.code)), ("reason", JStr(Trim(box.caption))),
          ("intervention", JStr(InterventionText(areas, box.code)))])
  }

  function EntriesOf(sel: seq<ReasonChoice>, areas: seq<InterventionArea>): (r: seq<Json>)
    ensures |r| == |sel|
    ensures forall k :: 0 <= k < |sel| ==> r[k] == InterventionEntry(sel[k], areas)
  {
    seq(|sel|, k requires 0 <= k < |sel| => InterventionEntry(sel[k], areas))
  }

  /** The stored list: one entry per checked reason, in page order. */
  function InterventionEntries(boxes: seq<ReasonChoice>, areas: seq<InterventionArea>): seq<Json>
  {
    EntriesOf(Selected(boxes), areas)
  }

  lemma SelectedStep(boxes: seq<ReasonChoice>, i: nat)
    requires i < |boxes|
    ensures Selected(boxes[..i + 1]) == Selected(boxes[..i]) + (if boxes[i].checked then [boxes[i]] else [])
  {
    assert boxes[..i + 1][..i] == boxes[..i];
  }

  lemma EntriesSnoc(sel: seq<ReasonChoice>, b: ReasonChoice, areas: seq<InterventionArea>)
    ensures EntriesOf(sel + [b], areas) == EntriesOf(sel, areas) + [InterventionEntry(b, areas)]
  {
  }

  /** The submit handler's value for the `interventions-storage` textarea:
      one {code, reason, intervention} object per checked reason, in order. */
  method SerializeInterventions(boxes: seq<ReasonChoice>, areas: seq<InterventionArea>) returns (stored: Stored)
    ensures stored == Stringify(JArr(InterventionEntries(boxes, areas)))
  {
    var data: seq<Json> := [];
    var i := 0;
    while i < |boxes|
      invariant 0 <= i <= |boxes|
      invariant data == EntriesOf(Selected(boxes[..i]), areas)
    {
      SelectedStep(boxes, i);
      if boxes[i].checked {
        EntriesSnoc(Selected(boxes[..i]), boxes[i], areas);
        var intervention := InterventionText(areas, boxes[i].code);
        data := data + [JObj([("code", JStr(boxes[i].code)), ("reason", JStr(Trim(boxes[i].caption))),
                              ("intervention", JStr(intervention))])];
      }
      i := i + 1;
    }
    assert boxes[..i] == boxes;
    stored := Stringify(JArr(data));
  }

  /** What rebuildInterventionsFor shows per selected reason: its number,
      its label, and the textarea for its code with the saved text. */
  datatype BuiltPair = BuiltPair(number: nat, reason: string, code: string, value: string)

  /** `storage.value ? JSON.parse(storage.value) : []`, with a parse failure read as []. */
  function SavedValue(stored: Stored): Json
  {
    if IsEmptyText(stored) then JArr([])
    else
      match Parse(stored)
      case Some(v) => v
      case None => JArr([])
  }

  /** `saved.find(s => s.code === code)`; reading `.code` of null throws. */
  function FindByCode(saved: seq<Json>, code: string): Result<Option<Json>>
  {
    if saved == [] then Ok(None)
    else if saved[0] == JNull then Err("TypeError: reading 'code' of null")
    else if Member(saved[0], "code") == Some(JStr(code)) then Ok(Some(saved[0]))
    else FindByCode(saved[1..], code)
  }

  /** The label of a selected reason; 'Other' takes the free text when it is not blank. */
  function ShownReason(box: ReasonChoice, other: Option<string>): string
  {
    if box.code == "f" && other.Some? && Trim(other.value) != "" then Trim(other.value) else Trim(box.caption)
  }

  function Selected(boxes: seq<ReasonChoice>): (r: seq<ReasonChoice>)
    ensures |r| == |CheckedCodes(boxes)|
    ensures forall k :: 0 <= k < |r| ==> r[k].checked
  {
    if boxes == [] then []
    else Selected(boxes[..|boxes| - 1]) + (if boxes[|boxes| - 1].checked then [boxes[|boxes| - 1]] else [])
  }

  /** The textarea value for one selected reason. */
  function SavedIntervention(saved: seq<Json>, code: string): Result<string>
  {
    match FindByCode(saved, code)
    case Err(e) => Err(e)
    case Ok(None) => Ok("")
    case Ok(Some(m)) => Ok(MemberOrEmpty(m, "intervention"))
  }

  function BuildPairs(sel: seq<ReasonChoice>, other: Option<string>, saved: seq<Json>, first: nat): Result<seq<BuiltPair>>
    decreases |sel|
  {
    if sel == [] then Ok([])
    else
      match SavedIntervention(saved, sel[0].code)
      case Err(e) => Err(e)
      case Ok(v) =>
        match BuildPairs(sel[1..], other, saved, first + 1)
        case Err(e) => Err(e)
        case Ok(rest) => Ok([BuiltPair(first, ShownReason(sel[0], other), sel[0].code, v)] + rest)
  }

  /** rebuildInterventionsFor: nothing when no reason is selected; a saved
      value that is not a list makes `saved.find` throw. */
  function Rebuilt(boxes: seq<ReasonChoice>, other: Option<string>, stored: Stored): Result<seq<BuiltPair>>
  {
    var sel := Selected(boxes);
    if sel == [] then Ok([])
    else
      var saved := SavedValue(stored);
      if !saved.JArr? then Err("TypeError: saved.find is not a function")
      else BuildPairs(sel, other, saved.items, 1)
  }

  lemma EntryMembers(box: ReasonChoice, areas: seq<InterventionArea>)
    ensures Member(InterventionEntry(box, areas), "code") == Some(JStr(box.code))
    ensures Member(InterventionEntry(box, areas), "intervention") == Some(JStr(InterventionText(areas, box.code)))
  {
    ThreeMembers(InterventionEntry(box, areas).members);
  }

  lemma ThreeMembers(ms: seq<(string, Json)>)
    requires |ms| == 3 && ms[0].0 == "code" && ms[1].0 == "reason" && ms[2].0 == "intervention"
    ensures Member(JObj(ms), "code") == Some(ms[0].1)
    ensures Member(JObj(ms), "intervention") == Some(ms[2].1)
  {
    MemberOfBuilt(ms, 0);
  }

  /** `find` stops at the entry built for the first selected reason with
      that code, whose intervention text depends on the code alone. */
  lemma {:induction false} FindInEntries(sel: seq<ReasonChoice>, areas: seq<InterventionArea>, code: string, j: nat)
    requires j < |sel| && sel[j].code == code
    ensures SavedIntervention(EntriesOf(sel, areas), code) == Ok(InterventionText(areas, code))
    decreases |sel|
  {
    if sel[0].code == code {
      FoundFirst(sel, areas, code);
    } else {
      assert sel[1..][j - 1] == sel[j];
      FindInEntries(sel[1..], areas, code, j - 1);
      FoundLater(sel, areas, code);
    }
  }

  lemma FoundFirst(sel: seq<ReasonChoice>, areas: seq<InterventionArea>, code: string)
    requires sel != [] && sel[0].code == code
    ensures SavedIntervention(EntriesOf(sel, areas), code) == Ok(InterventionText(areas, code))
  {
    FindHead(sel, areas);
    EntryIntervention(sel[0], areas);
  }

  lemma FoundLater(sel: seq<ReasonChoice>, areas: seq<InterventionArea>, code: string)
    requires sel != [] && sel[0].code != code
    requires SavedIntervention(EntriesOf(sel[1..], areas), code) == Ok(InterventionText(areas, code))
    ensures SavedIntervention(EntriesOf(sel, areas), code) == Ok(InterventionText(areas, code))
  {
    FindSkip(sel, areas, code);
    EntriesTail(sel, areas);
  }

  lemma EntryIntervention(box: ReasonChoice, areas: seq<InterventionArea>)
    ensures MemberOrEmpty(InterventionEntry(box, areas), "intervention") == InterventionText(areas, box.code)
  {
    EntryMembers(box, areas);
  }

  lemma FindHead(sel: seq<ReasonChoice>, areas: seq<InterventionArea>)
    requires sel != []
    ensures FindByCode(EntriesOf(sel, areas), sel[0].code) == Ok(Some(InterventionEntry(sel[0], areas)))
  {
    EntryMembers(sel[0], areas);
  }

  lemma FindSkip(sel: seq<ReasonChoice>, areas: seq<InterventionArea>, code: string)
    requires sel != [] && sel[0].code != code
    ensures FindByCode(EntriesOf(sel, areas), code) == FindByCode(EntriesOf(sel, areas)[1..], code)
  {
    EntryMembers(sel[0], areas);
  }

  lemma EntriesTail(sel: seq<ReasonChoice>, areas: seq<InterventionArea>)
    requires sel != []
    ensures EntriesOf(sel, areas)[1..] == EntriesOf(sel[1..], areas)
  {
  }

  /** The pairs the rebuild is meant to show, numbered from `first`. */
  function ShownPairs(sel: seq<ReasonChoice>, other: Option<string>, areas: seq<InterventionArea>, first: nat): (r: seq<BuiltPair>)
    ensures |r| == |sel|
    ensures forall k :: 0 <= k < |sel| ==>
      r[k] == BuiltPair(first + k, ShownReason(sel[k], other), sel[k].code, InterventionText(areas, sel[k].code))
  {
    seq(|sel|, k requires 0 <= k < |sel| =>
      BuiltPair(first + k, ShownReason(sel[k], other), sel[k].code, InterventionText(areas, sel[k].code)))
  }

  lemma {:induction false} BuildFromEntries(sel: seq<ReasonChoice>, saved: seq<Json>, areas: seq<InterventionArea>,
                                            other: Option<string>, first: nat)
    requires forall k :: 0 <= k < |sel| ==> SavedIntervention(saved, sel[k].code) == Ok(InterventionText(areas, sel[k].code))
    ensures BuildPairs(sel, other, saved, first) == Ok(ShownPairs(sel, other, areas, first))
    decreases |sel|
  {
    if sel != [] {
      assert forall k :: 0 <= k < |sel[1..]| ==> sel[1..][k] == sel[k + 1];
      BuildFromEntries(sel[1..], saved, areas, other, first + 1);
      BuildStep(sel, other, saved, first, InterventionText(areas, sel[0].code),
                ShownPairs(sel[1..], other, areas, first + 1));
      ShownCons(sel, other, areas, first);
    }
  }

  lemma BuildStep(sel: seq<ReasonChoice>, other: Option<string>, saved: seq<Json>, first: nat, v: string, rest: seq<BuiltPair>)
    requires sel != [] && SavedIntervention(saved, sel[0].code) == Ok(v)
    requires BuildPairs(sel[1..], other, saved, first + 1) == Ok(rest)
    ensures BuildPairs(sel, other, saved, first) == Ok([BuiltPair(first, ShownReason(sel[0], other), sel[0].code, v)] + rest)
  {
  }

  lemma ShownCons(sel: seq<ReasonChoice>, other: Option<string>, areas: seq<InterventionArea>, first: nat)
    requires sel != []
    ensures ShownPairs(sel, other, areas, first) ==
      [BuiltPair(first, ShownReason(sel[0], other), sel[0].code, InterventionText(areas, sel[0].code))] +
      ShownPairs(sel[1..], other, areas, first + 1)
  {
  }

  /** Reloading what was submitted shows, for each selected reason in
      order, its number, its label and the trimmed intervention text that
      was typed for its code. */
  lemma InterventionsRoundTrip(boxes: seq<ReasonChoice>, areas: seq<InterventionArea>, other: Option<string>)
    ensures Rebuilt(boxes, other, Stringify(JArr(InterventionEntries(boxes, areas)))) ==
      Ok(ShownPairs(Selected(boxes), other, areas, 1))
  {
    var sel := Selected(boxes);
    if sel != [] {
      forall k | 0 <= k < |sel|
        ensures SavedIntervention(EntriesOf(sel, areas), sel[k].code) == Ok(InterventionText(areas, sel[k].code))
      {
        FindInEntries(sel, areas, sel[k].code, k);
      }
      BuildFromEntries(sel, EntriesOf(sel, areas), areas, other, 1);
    }
  }

  function Prepend(pairs: seq<BuiltPair>, r: Result<seq<BuiltPair>>): Result<seq<BuiltPair>>
  {
    match r
    case Err(e) => Err(e)
    case Ok(rest) => Ok(pairs + rest)
  }

  /** rebuildInterventionsFor, building one numbered pair per selected reason. */
  method RebuildInterventions(boxes: seq<ReasonChoice>, other: Option<string>, stored: Stored)
    returns (built: Result<seq<BuiltPair>>)
    ensures built == Rebuilt(boxes, other, stored)
  {
    var sel := Selected(boxes);
    if sel == [] {
      return Ok([]);
    }
    var saved := SavedValue(stored);
    if !saved.JArr? {
      return Err("TypeError: saved.find is not a function");
    }
    var pairs: seq<BuiltPair> := [];
    var i := 0;
    assert sel[0..] == sel;
    assert Prepend(pairs, BuildPairs(sel, other, saved.items, 1)) == BuildPairs(sel, other, saved.items, 1) by {
      var r := BuildPairs(sel, other, saved.items, 1);
      if r.Ok? {
        assert pairs + r.value == r.value;
      }
    }
    while i < |sel|
      invariant 0 <= i <= |sel|
      invariant BuildPairs(sel, other, saved.items, 1) == Prepend(pairs, BuildPairs(sel[i..], other, saved.items, i + 1))
    {
      BuildUnfold(sel, other, saved.items, i);
      var v := SavedIntervention(saved.items, sel[i].code);
      if v.Err? {
        return Err(v.error);
      }
      var pair := BuiltPair(i + 1, ShownReason(sel[i], other), sel[i].code, v.value);
      PrependStep(pairs, pair, BuildPairs(sel[i + 1..], other, saved.items, i + 2));
      pairs := pairs + [pair];
      i := i + 1;
    }
    assert pairs + [] == pairs;
    built := Ok(pairs);
  }

  lemma BuildUnfold(sel: seq<ReasonChoice>, other: Option<string>, saved: seq<Json>, i: nat)
    requires i < |sel|
    ensures BuildPairs(sel[i..], other, saved, i + 1) ==
      match SavedIntervention(saved, sel[i].code)
      case Err(e) => Err(e)
      case Ok(v) => Prepend([BuiltPair(i + 1, ShownReason(sel[i], other), sel[i].code, v)], BuildPairs(sel[i + 1..], other, saved, i + 2))
  {
    assert sel[i..][1..] == sel[i + 1..];
  }

  lemma PrependStep(pairs: seq<BuiltPair>, pair: BuiltPair, r: Result<seq<BuiltPair>>)
    ensures Prepend(pairs, Prepend([pair], r)) == Prepend(pairs + [pair], r)
  {
    if r.Ok? {
      assert pairs + ([pair] + r.value) == (pairs + [pair]) + r.value;
    }
  }

  // ---------------------------------------------------------------------
  // Reading and RMA difficulty plans

  /** A difficulty/intervention pair of textareas; None for a missing one. */
  datatype PairEl = PairEl(difficulty: Option<string>, intervention: Option<string>)

  /** A `-difficulty-grade` block: its data-grade attribute and its pairs. */
  datatype GradeEl = GradeEl(grade: Option<string>, pairs: seq<PairEl>)

  function FieldText(o: Option<string>): string
  {
    match o
    case Some(v) => Trim(v)
    case None => ""
  }

  /** The trimmed (difficulty, intervention) of each pair not blank on both sides. */
  function KeptPair(p: PairEl): seq<(string, string)>
  {
    var d, i := FieldText(p.difficulty), FieldText(p.intervention);
    if d != "" || i != "" then [(d, i)] else []
  }

  function KeptTexts(ps: seq<PairEl>): (r: seq<(string, string)>)
    ensures |r| <= |ps|
    ensures forall k :: 0 <= k < |r| ==> r[k].0 != "" || r[k].1 != ""
  {
    if ps == [] then []
    else KeptTexts(ps[..|ps| - 1]) + KeptPair(ps[|ps| - 1])
  }

  lemma KeptTextsStep(ps: seq<PairEl>, i: nat)
    requires i < |ps|
    ensures KeptTexts(ps[..i + 1]) == KeptTexts(ps[..i]) + KeptPair(ps[i])
  {
    assert ps[..i + 1][..i] == ps[..i];
  }

  function PairJson(p: (string, string)): Json
  {
    JObj([("difficulty", JStr(p.0)), ("intervention", JStr(p.1))])
  }

  function PairJsons(kt: seq<(string, string)>): (r: seq<Json>)
    ensures |r| == |kt|
    ensures forall k :: 0 <= k < |kt| ==> r[k] == PairJson(kt[k])
  {
    seq(|kt|, k requires 0 <= k < |kt| => PairJson(kt[k]))
  }

  function GradeEntry(g: GradeEl): Json
  {
    JObj([("grade", match g.grade case Some(s) => JStr(s) case None => JNull),
          ("pairs", JArr(PairJsons(KeptTexts(g.pairs))))])
  }

  /** The stored document: one {grade, pairs} entry per grade block, in order. */
  function DifficultyDoc(grades: seq<GradeEl>): Json
  {
    JArr(seq(|grades|, k requires 0 <= k < |grades| => GradeEntry(grades[k])))
  }

  /** The submit handler's value for a difficulty storage textarea (reading,
      RMA pre-test and RMA end-of-year plans are built alike). */
  method SerializeDifficulties(grades: seq<GradeEl>) returns (stored: Stored)
    ensures stored == Stringify(DifficultyDoc(grades))
  {
    var data: seq<Json> := [];
    var g := 0;
    while g < |grades|
      invariant 0 <= g <= |grades|
      invariant |data| == g && forall k :: 0 <= k < g ==> data[k] == GradeEntry(grades[k])
    {
      var ps := grades[g].pairs;
      var pairs: seq<(string, string)> := [];
      var i := 0;
      while i < |ps|
        invariant 0 <= i <= |ps|
        invariant pairs == KeptTexts(ps[..i])
      {
        KeptTextsStep(ps, i);
        var difficulty := FieldText(ps[i].difficulty);
        var intervention := FieldText(ps[i].intervention);
        if difficulty != "" || intervention != "" {
          pairs := pairs + [(difficulty, intervention)];
        }
        i := i + 1;
      }
      assert ps[..i] == ps;
      var grade := match grades[g].grade case Some(s) => JStr(s) case None => JNull;
      data := data + [JObj([("grade", grade), ("pairs", JArr(PairJsons(pairs)))])];
      g := g + 1;
    }
    assert data == seq(|grades|, k requires 0 <= k < |grades| => GradeEntry(grades[k]));
    stored := Stringify(JArr(data));
  }

  /** `entry.pairs || []`; a truthy non-list makes `pairs.forEach` throw. */
  function PairList(entry: Json): Result<seq<Json>>
  {
    match Member(entry, "pairs")
    case None => Ok([])
    case Some(v) =>
      if !Truthy(v) then Ok([])
      else if v.JArr? then Ok(v.items)
      else Err("TypeError: pairs.forEach is not a function")
  }

  /** Fills one pair of textareas from a saved pair; reading a field of null throws. */
  function FillOne(p: PairEl, saved: Json): Result<PairEl>
  {
    if (p.difficulty.Some? || p.intervention.Some?) && saved == JNull then Err("TypeError: reading of null")
    else Ok(PairEl(if p.difficulty.Some? then Some(MemberOrEmpty(saved, "difficulty")) else None,
                   if p.intervention.Some? then Some(MemberOrEmpty(saved, "intervention")) else None))
  }

  /** The idx-th saved pair fills the idx-th pair of textareas; extra saved
      pairs are ignored and extra textareas keep their text. */
  function FillPairs(ps: seq<PairEl>, saved: seq<Json>): (r: Result<seq<PairEl>>)
    ensures r.Ok? ==> |r.value| == |ps|
    decreases |ps|
  {
    if ps == [] || saved == [] then Ok(ps)
    else
      match FillOne(ps[0], saved[0])
      case Err(e) => Err(e)
      case Ok(p) =>
        match FillPairs(ps[1..], saved[1..])
        case Err(e) => Err(e)
        case Ok(rest) => Ok([p] + rest)
  }

  function FirstGrade(grades: seq<GradeEl>, text: string): (r: Option<nat>)
    ensures r.Some? ==> r.value < |grades| && grades[r.value].grade == Some(text)
  {
    if grades == [] then None
    else if grades[0].grade == Some(text) then Some(0)
    else
      match FirstGrade(grades[1..], text)
      case None => None
      case Some(k) => Some(k + 1)
  }

  /** One saved entry: find the block `[data-grade="${entry.grade}"]` and
      fill its pairs. */
  function ApplyEntry(grades: seq<GradeEl>, entry: Json): (r: Result<seq<GradeEl>>)
    ensures r.Ok? ==> |r.value| == |grades| && forall k :: 0 <= k < |grades| ==> r.value[k].grade == grades[k].grade
  {
    if entry == JNull then Err("TypeError: reading 'grade' of null")
    else
      match FirstGrade(grades, MemberText(entry, "grade"))
      case None => Ok(grades)
      case Some(k) =>
        match PairList(entry)
        case Err(e) => Err(e)
        case Ok(saved) =>
          match FillPairs(grades[k].pairs, saved)
          case Err(e) => Err(e)
          case Ok(ps) => Ok(grades[k := grades[k].(pairs := ps)])
  }

  function ApplyEntries(grades: seq<GradeEl>, entries: seq<Json>): (r: Result<seq<GradeEl>>)
    ensures r.Ok? ==> |r.value| == |grades| && forall k :: 0 <= k < |grades| ==> r.value[k].grade == grades[k].grade
    decreases |entries|
  {
    if entries == [] then Ok(grades)
    else
      match ApplyEntries(grades, entries[..|entries| - 1])
      case Err(e) => Err(e)
      case Ok(g) => ApplyEntry(g, entries[|entries| - 1])
  }

  /** initializeReadingDifficulties / initializeRMADifficulties: a saved
      value that is not a list makes `saved.forEach` throw. */
  function Hydrated(grades: seq<GradeEl>, stored: Stored): Result<seq<GradeEl>>
  {
    var saved := SavedValue(stored);
    if !saved.JArr? then Err("TypeError: saved.forEach is not a function")
    else ApplyEntries(grades, saved.items)
  }

  /** Unparseable or empty storage leaves every textarea as rendered. */
  lemma UnparseableLeavesForm(grades: seq<GradeEl>, text: string)
    ensures Hydrated(grades, Raw(text)) == Ok(grades)
  {
  }

  /** Reference definition of what reloading shows in a block: the kept
      pairs move up into the first textareas, the rest keep their text. */
  function SetPair(p: PairEl, t: (string, string)): PairEl
  {
    PairEl(if p.difficulty.Some? then Some(t.0) else None, if p.intervention.Some? then Some(t.1) else None)
  }

  function Refill(ps: seq<PairEl>, kt: seq<(string, string)>): (r: seq<PairEl>)
    ensures |r| == |ps|
    ensures forall k :: 0 <= k < |ps| ==> r[k] == if k < |kt| then SetPair(ps[k], kt[k]) else ps[k]
    decreases |ps|
  {
    if ps == [] || kt == [] then ps
    else [SetPair(ps[0], kt[0])] + Refill(ps[1..], kt[1..])
  }

  lemma {:induction false} FillPairsJson(ps: seq<PairEl>, kt: seq<(string, string)>)
    ensures FillPairs(ps, PairJsons(kt)) == Ok(Refill(ps, kt))
    decreases |ps|
  {
    if ps != [] && kt != [] {
      var j := PairJsons(kt);
      assert j[0] == PairJson(kt[0]);
      MemberOfBuilt(PairJson(kt[0]).members, 0);
      MemberOfBuilt(PairJson(kt[0]).members, 1);
      assert FillOne(ps[0], j[0]) == Ok(SetPair(ps[0], kt[0]));
      assert j[1..] == PairJsons(kt[1..]);
      FillPairsJson(ps[1..], kt[1..]);
    }
  }

  predicate DistinctGrades(grades: seq<GradeEl>)
  {
    (forall k :: 0 <= k < |grades| ==> grades[k].grade.Some?) &&
    (forall i, j :: 0 <= i < j < |grades| ==> grades[i].grade != grades[j].grade)
  }

  function Compacted(grades: seq<GradeEl>, n: nat): (r: seq<GradeEl>)
    requires n <= |grades|
    ensures |r| == |grades|
  {
    seq(|grades|, k requires 0 <= k < |grades| =>
      if k < n then grades[k].(pairs := Refill(grades[k].pairs, KeptTexts(grades[k].pairs))) else grades[k])
  }

  lemma EntryApplies(grades: seq<GradeEl>, n: nat)
    requires DistinctGrades(grades) && n < |grades|
    ensures ApplyEntry(Compacted(grades, n), GradeEntry(grades[n])) == Ok(Compacted(grades, n + 1))
  {
    var c := Compacted(grades, n);
    GradeEntryMembers(grades[n]);
    assert forall j :: 0 <= j < |c| ==> c[j].grade == grades[j].grade;
    FirstGradeOf(c, n);
    FillPairsJson(grades[n].pairs, KeptTexts(grades[n].pairs));
    CompactedStep(grades, n);
  }

  lemma GradeEntryMembers(g: GradeEl)
    requires g.grade.Some?
    ensures MemberText(GradeEntry(g), "grade") == g.grade.value
    ensures PairList(GradeEntry(g)) == Ok(PairJsons(KeptTexts(g.pairs)))
  {
    MemberOfBuilt(GradeEntry(g).members, 0);
  }

  lemma CompactedStep(grades: seq<GradeEl>, n: nat)
    requires n < |grades|
    ensures var c := Compacted(grades, n);
      c[n := c[n].(pairs := Refill(grades[n].pairs, KeptTexts(grades[n].pairs)))] == Compacted(grades, n + 1)
  {
  }

  lemma {:induction false} FirstGradeOf(grades: seq<GradeEl>, n: nat)
    requires n < |grades| && grades[n].grade.Some?
    requires forall j :: 0 <= j < n ==> grades[j].grade != grades[n].grade
    ensures FirstGrade(grades, grades[n].grade.value) == Some(n)
  {
    if n > 0 {
      FirstGradeOf(grades[1..], n - 1);
    }
  }

  lemma {:induction false} ApplyEntriesPrefix(grades: seq<GradeEl>, n: nat)
    requires DistinctGrades(grades) && n <= |grades|
    ensures var doc := seq(|grades|, k requires 0 <= k < |grades| => GradeEntry(grades[k]));
      ApplyEntries(grades, doc[..n]) == Ok(Compacted(grades, n))
  {
    var doc := seq(|grades|, k requires 0 <= k < |grades| => GradeEntry(grades[k]));
    if n == 0 {
      assert Compacted(grades, 0) == grades;
    } else {
      ApplyEntriesPrefix(grades, n - 1);
      assert doc[..n][..n - 1] == doc[..n - 1];
      EntryApplies(grades, n - 1);
    }
  }

  /** Reloading a submitted plan puts back, in every grade block, the
      trimmed non-blank pairs in order, moved up into the first textareas. */
  lemma DifficultiesRoundTrip(grades: seq<GradeEl>)
    requires DistinctGrades(grades)
    ensures Hydrated(grades, Stringify(DifficultyDoc(grades))) == Ok(Compacted(grades, |grades|))
  {
    var doc := seq(|grades|, k requires 0 <= k < |grades| => GradeEntry(grades[k]));
    ApplyEntriesPrefix(grades, |grades|);
    assert doc[..|grades|] == doc;
  }

  predicate FilledPair(p: PairEl)
  {
    p.difficulty.Some? && p.intervention.Some? &&
    Trimmed(p.difficulty.value) && Trimmed(p.intervention.value) &&
    (p.difficulty.value != "" || p.intervention.value != "")
  }

  /** A block whose pairs all have both textareas, trimmed text and no
      blank-on-both-sides pair comes back exactly as it was. */
  lemma RefillIdentity(ps: seq<PairEl>)
    requires forall k :: 0 <= k < |ps| ==> FilledPair(ps[k])
    ensures Refill(ps, KeptTexts(ps)) == ps
  {
    KeptAllFilled(ps);
  }

  lemma {:induction false} KeptAllFilled(ps: seq<PairEl>)
    requires forall k :: 0 <= k < |ps| ==> FilledPair(ps[k])
    ensures |KeptTexts(ps)| == |ps|
    ensures forall k :: 0 <= k < |ps| ==> FilledPair(ps[k]) && KeptTexts(ps)[k] == (ps[k].difficulty.value, ps[k].intervention.value)
  {
    if ps != [] {
      var init := ps[..|ps| - 1];
      assert forall k :: 0 <= k < |init| ==> init[k] == ps[k];
      KeptAllFilled(init);
      KeptFilled(ps[|ps| - 1]);
    }
  }

  lemma KeptFilled(p: PairEl)
    requires FilledPair(p)
    ensures KeptPair(p) == [(p.difficulty.value, p.intervention.value)]
  {
    TrimmedFixed(p.difficulty.value);
    TrimmedFixed(p.intervention.value);
  }
}
