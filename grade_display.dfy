// How the submission page summarises an SLP grade block (completed over
// offered subjects and the rounded percentage), hides the senior high
// subjects of strands the school did not select, and reads a grade number
// off a label for ordering the performance snapshot.
module GradeDisplay {
  import opened Wrappers
  import opened Text
  import opened Json
  import opened Constants

  /** One subject accordion: its `data-subject-key`, whether its style hides
      it, its `data-offered` attribute, and whether it holds a "complete"
      status badge. */
  datatype SubjectAccordion = SubjectAccordion(key: Option<string>, hidden: bool, offered: Option<string>, complete: bool)

  /** The three stats elements of a grade header, each absent or holding
      its text (the bar holds its width). */
  datatype GradeStats = GradeStats(count: Option<string>, width: Option<string>, percentage: Option<string>)

  /** A grade accordion: its `data-grade`, its subjects container (when
      present) and its stats block (when present). */
  datatype GradeAccordion = GradeAccordion(grade: Option<string>, subjects: Option<seq<SubjectAccordion>>, stats: Option<GradeStats>)

  /** `(data-offered || 'true') !== 'false'`. */
  predicate IsOffered(a: SubjectAccordion)
  {
    a.offered.None? || a.offered.value != "false"
  }

  /** A subject that takes part in the grade's completion. */
  predicate Counts(a: SubjectAccordion)
  {
    !a.hidden && IsOffered(a)
  }

  function OfferedCount(subs: seq<SubjectAccordion>): nat
  {
    if |subs| == 0 then 0
    else OfferedCount(subs[..|subs| - 1]) + (if Counts(subs[|subs| - 1]) then 1 else 0)
  }

  function CompletedCount(subs: seq<SubjectAccordion>): nat
  {
    if |subs| == 0 then 0
    else CompletedCount(subs[..|subs| - 1]) + (if Counts(subs[|subs| - 1]) && subs[|subs| - 1].complete then 1 else 0)
  }

  lemma CountsStep(subs: seq<SubjectAccordion>, i: nat)
    requires i < |subs|
    ensures OfferedCount(subs[..i + 1]) == OfferedCount(subs[..i]) + (if Counts(subs[i]) then 1 else 0)
    ensures CompletedCount(subs[..i + 1]) == CompletedCount(subs[..i]) + (if Counts(subs[i]) && subs[i].complete then 1 else 0)
  {
    assert subs[..i + 1][..i] == subs[..i];
  }

  /** No more subjects are complete than are offered and shown. */
  lemma {:induction false} CompletedAtMostOffered(subs: seq<SubjectAccordion>)
    ensures CompletedCount(subs) <= OfferedCount(subs) <= |subs|
  {
    if |subs| > 0 {
      CompletedAtMostOffered(subs[..|subs| - 1]);
    }
  }

  /** `Math.round(completed / total * 100)` on the exact ratio (halves round
      up), 0 without subjects: the percentage nearest to the ratio. */
  function RoundedPercent(c: nat, t: nat): (p: int)
    ensures t == 0 ==> p == 0
    ensures t > 0 ==> 2 * t * p - t <= 200 * c < 2 * t * p + t
  {
    if t == 0 then 0
    else
      var q := (200 * c + t) / (2 * t);
      var r := (200 * c + t) % (2 * t);
      assert 200 * c + t == 2 * t * q + r && 0 <= r < 2 * t;
      q
  }

  lemma MulSign(t: int, d: int)
    requires t > 0
    ensures d > 0 ==> t * d > 0
    ensures d <= 0 ==> t * d <= 0
  {
  }

  lemma MulLeCancel(t: int, x: int, y: int)
    requires t > 0 && t * x <= t * y
    ensures x <= y
  {
    MulSign(t, x - y);
    assert t * (x - y) == t * x - t * y;
  }

  lemma MulLtCancel(t: int, x: int, y: int)
    requires t > 0 && t * x < t * y
    ensures x < y
  {
    MulSign(t, y - x);
    assert t * (y - x) == t * y - t * x;
  }

  /** With completed <= total the percentage lies in 0..100, is 100 when
      every subject is complete and 0 when none is. */
  lemma PercentRange(c: nat, t: nat)
    requires c <= t
    ensures 0 <= RoundedPercent(c, t) <= 100
    ensures 0 < t && c == t ==> RoundedPercent(c, t) == 100
    ensures c == 0 ==> RoundedPercent(c, t) == 0
  {
    if t > 0 {
      var p := RoundedPercent(c, t);
      assert 2 * t * p - t == t * (2 * p - 1) && 2 * t * p + t == t * (2 * p + 1);
      MulLtCancel(t, 0, 2 * p + 1);
      MulLeCancel(t, 2 * p - 1, 200);
      if c == t {
        MulLtCancel(t, 200, 2 * p + 1);
      }
      if c == 0 {
        MulLeCancel(t, 2 * p - 1, 0);
      }
    }
  }

  function CountText(c: nat, t: nat): string
  {
    NatToString(c) + "/" + NatToString(t) + " subjects"
  }

  function PercentText(p: int): string
  {
    IntToString(p) + "%"
  }

  /** The text of a stats element that exists, left absent otherwise. */
  function SetText(e: Option<string>, v: string): Option<string>
  {
    if e.Some? then Some(v) else None
  }

  /** recalcGradeCompletionFor: the stats block, when the grade has a
      subjects container, shows the completed and offered counts of the
      shown subjects and their rounded percentage. */
  function Recalculated(ga: GradeAccordion): GradeAccordion
  {
    if ga.subjects.None? || ga.stats.None? then ga
    else
      var subs := ga.subjects.value;
      var c := CompletedCount(subs);
      var t := OfferedCount(subs);
      var p := RoundedPercent(c, t);
      var st := ga.stats.value;
      ga.(stats := Some(GradeStats(SetText(st.count, CountText(c, t)), SetText(st.width, PercentText(p)),
                                   SetText(st.percentage, PercentText(p)))))
  }

  /** The counting loop of recalcGradeCompletionFor. */
  method Tally(subs: seq<SubjectAccordion>) returns (completed: nat, total: nat)
    ensures completed == CompletedCount(subs) && total == OfferedCount(subs)
    ensures completed <= total <= |subs|
  {
    completed, total := 0, 0;
    var i := 0;
    while i < |subs|
      invariant 0 <= i <= |subs|
      invariant completed == CompletedCount(subs[..i]) && total == OfferedCount(subs[..i])
    {
      CountsStep(subs, i);
      if Counts(subs[i]) {
        total := total + 1;
        if subs[i].complete {
          completed := completed + 1;
        }
      }
      i := i + 1;
    }
    assert subs[..i] == subs;
    CompletedAtMostOffered(subs);
  }

  // ---------------------------------------------------------------------
  // Strand hiding

  /** The parsed `data-shs-unselected` list; an absent or empty attribute
      reads as '[]', and text that is not JSON, or JSON that is not a list,
      gives no prefixes. */
  function Unselected(formPresent: bool, dataset: Option<Stored>): seq<Json>
  {
    if !formPresent then []
    else
      var stored := if dataset.None? || dataset.value == Raw("") then Serialized(JArr([])) else dataset.value;
      match Parse(stored)
      case None => []
      case Some(v) => if v.JArr? then v.items else []
  }

  function KeyOf(a: SubjectAccordion): string
  {
    if a.key.Some? then a.key.value else ""
  }

  /** `pref && key.indexOf(pref) === 0` for one list item. */
  predicate PrefixOf(pref: Json, key: string)
  {
    Truthy(pref) && StartsWith(key, ToText(pref))
  }

  /** `unselected.some(...)`: the key starts with some truthy item. */
  predicate MatchesUnselected(key: string, prefs: seq<Json>)
  {
    exists i :: 0 <= i < |prefs| && PrefixOf(prefs[i], key)
  }

  function HideSubject(a: SubjectAccordion, prefs: seq<Json>): SubjectAccordion
  {
    if MatchesUnselected(KeyOf(a), prefs) then a.(hidden := true) else a
  }

  function HideAll(subs: seq<SubjectAccordion>, prefs: seq<Json>): (r: seq<SubjectAccordion>)
    ensures |r| == |subs| && forall i :: 0 <= i < |subs| ==> r[i] == HideSubject(subs[i], prefs)
  {
    seq(|subs|, i requires 0 <= i < |subs| => HideSubject(subs[i], prefs))
  }

  predicate IsSeniorGrade(ga: GradeAccordion)
  {
    ga.grade == Some("Grade 11") || ga.grade == Some("Grade 12")
  }

  /** What one grade accordion becomes: Grade 11 and Grade 12 blocks with a
      subjects container hide their matching subjects and are recalculated;
      every other block is left alone. */
  function HideGrade(ga: GradeAccordion, prefs: seq<Json>): GradeAccordion
  {
    if !IsSeniorGrade(ga) || ga.subjects.None? then ga
    else Recalculated(ga.(subjects := Some(HideAll(ga.subjects.value, prefs))))
  }

  /** applyUnselectedStrandHidingFromDataset over the page's grade blocks. */
  function StrandsHidden(grades: seq<GradeAccordion>, prefs: seq<Json>): seq<GradeAccordion>
  {
    if |prefs| == 0 then grades
    else seq(|grades|, i requires 0 <= i < |grades| => HideGrade(grades[i], prefs))
  }

  /** Hiding only ever hides: a hidden subject stays hidden, a subject of a
      grade other than 11 and 12 is untouched, and in those two grades a
      subject ends hidden exactly when it was hidden or its key starts with
      an unselected prefix. Nothing but the hidden flags and the stats
      changes. */
  lemma HidingOnlyHides(grades: seq<GradeAccordion>, prefs: seq<Json>, g: nat, j: nat)
    requires g < |grades| && grades[g].subjects.Some? && j < |grades[g].subjects.value|
    ensures var out := StrandsHidden(grades, prefs);
      var before := grades[g].subjects.value[j];
      |out| == |grades| && out[g].grade == grades[g].grade &&
      out[g].subjects.Some? && |out[g].subjects.value| == |grades[g].subjects.value| &&
      var after := out[g].subjects.value[j];
      after.key == before.key && after.offered == before.offered && after.complete == before.complete &&
      (before.hidden ==> after.hidden) &&
      (!IsSeniorGrade(grades[g]) ==> after == before) &&
      (IsSeniorGrade(grades[g]) ==> (after.hidden <==> before.hidden || MatchesUnselected(KeyOf(before), prefs)))
  {
  }

  /** An empty, missing or unparseable list, or a page without the form,
      changes nothing. */
  lemma NothingToHide(grades: seq<GradeAccordion>, formPresent: bool, dataset: Option<Stored>)
    requires !formPresent || dataset.None? || dataset.value == Raw("") ||
             (dataset.value.Raw? && dataset.value.text != "")
    ensures StrandsHidden(grades, Unselected(formPresent, dataset)) == grades
  {
  }

  /** Hiding subjects never raises the number of offered or completed
      subjects of a grade. */
  lemma {:induction false} HidingLowersCounts(subs: seq<SubjectAccordion>, prefs: seq<Json>)
    ensures OfferedCount(HideAll(subs, prefs)) <= OfferedCount(subs)
    ensures CompletedCount(HideAll(subs, prefs)) <= CompletedCount(subs)
  {
    if |subs| > 0 {
      var n := |subs| - 1;
      var init := subs[..n];
      HidingLowersCounts(init, prefs);
      var h := HideAll(subs, prefs);
      assert h[..n] == HideAll(init, prefs);
      assert h[n] == HideSubject(subs[n], prefs);
    }
  }

  /** `unselected.some(...)` for one key. */
  method AnyPrefixMatches(key: string, prefs: seq<Json>) returns (b: bool)
    ensures b == MatchesUnselected(key, prefs)
  {
    var i := 0;
    while i < |prefs|
      invariant 0 <= i <= |prefs|
      invariant forall k :: 0 <= k < i ==> !PrefixOf(prefs[k], key)
    {
      if PrefixOf(prefs[i], key) {
        return true;
      }
      i := i + 1;
    }
    return false;
  }

  /** The grade blocks of the page and the form's dataset attribute. */
  class GradePage {
    var formPresent: bool
    var dataset: Option<Stored>
    var grades: seq<GradeAccordion>

    constructor (formPresent0: bool, dataset0: Option<Stored>, grades0: seq<GradeAccordion>)
      ensures formPresent == formPresent0 && dataset == dataset0 && grades == grades0
    {
      formPresent := formPresent0;
      dataset := dataset0;
      grades := grades0;
    }

    /** recalcGradeCompletionFor on block g. */
    method RecalcGradeCompletionFor(g: nat)
      requires g < |grades|
      modifies this
      ensures formPresent == old(formPresent) && dataset == old(dataset)
      ensures grades == old(grades)[g := Recalculated(old(grades)[g])]
    {
      var ga := grades[g];
      if ga.subjects.None? {
        return;
      }
      var completed, total := Tally(ga.subjects.value);
      var pct := RoundedPercent(completed, total);
      if ga.stats.Some? {
        var st := ga.stats.value;
        var st' := GradeStats(SetText(st.count, CountText(completed, total)), SetText(st.width, PercentText(pct)),
                              SetText(st.percentage, PercentText(pct)));
        grades := grades[g := ga.(stats := Some(st'))];
      }
    }

    /** The subject loop for one senior grade block. */
    static method HideMatching(subs: seq<SubjectAccordion>, prefs: seq<Json>) returns (out: seq<SubjectAccordion>)
      ensures out == HideAll(subs, prefs)
    {
      out := subs;
      var j := 0;
      while j < |subs|
        invariant 0 <= j <= |subs| && |out| == |subs|
        invariant forall k :: 0 <= k < j ==> out[k] == HideSubject(subs[k], prefs)
        invariant forall k :: j <= k < |subs| ==> out[k] == subs[k]
      {
        var matches := AnyPrefixMatches(KeyOf(subs[j]), prefs);
        if matches {
          out := out[j := subs[j].(hidden := true)];
        }
        j := j + 1;
      }
    }

    /** applyUnselectedStrandHidingFromDataset. */
    method ApplyUnselectedStrandHiding()
      modifies this
      ensures formPresent == old(formPresent) && dataset == old(dataset)
      ensures grades == StrandsHidden(old(grades), Unselected(old(formPresent), old(dataset)))
    {
      var prefs := Unselected(formPresent, dataset);
      if |prefs| == 0 {
        return;
      }
      var g := 0;
      while g < |grades|
        invariant 0 <= g <= |grades| && |grades| == |old(grades)|
        invariant formPresent == old(formPresent) && dataset == old(dataset)
        invariant forall k :: 0 <= k < g ==> grades[k] == HideGrade(old(grades)[k], prefs)
        invariant forall k :: g <= k < |grades| ==> grades[k] == old(grades)[k]
      {
        var ga := grades[g];
        if IsSeniorGrade(ga) && ga.subjects.Some? {
          var subs := HideMatching(ga.subjects.value, prefs);
          grades := grades[g := ga.(subjects := Some(subs))];
          RecalcGradeCompletionFor(g);
        }
        g := g + 1;
      }
    }
  }

  // ---------------------------------------------------------------------
  // gradeToNum

  /** Whether "grade" (any case) followed by whitespace and digits starts at
      i, and then the value of those digits: one match of
      `/Grade\s+(\d+)/i`. */
  function GradeMatchAt(t: string, i: nat): Option<nat>
    requires i <= |t|
  {
    if i + 5 > |t| || Lower(t[i..i + 5]) != "grade" then None
    else
      var rest := t[i + 5..];
      var sp := LeadingSpaces(rest);
      if sp == 0 then None
      else
        var d := LeadingDigits(rest[sp..]);
        if d == "" then None else Some(DigitsValue(d))
  }

  /** The leftmost match at or after i. */
  function FirstGradeMatch(t: string, i: nat): Option<nat>
    requires i <= |t|
    decreases |t| - i
  {
    if i == |t| then None
    else if GradeMatchAt(t, i).Some? then GradeMatchAt(t, i)
    else FirstGradeMatch(t, i + 1)
  }

  /** gradeToNum: 999 for a missing or empty label, 0 for "Kinder" in any
      case, the number of the first "Grade <n>", 999 otherwise. */
  function GradeToNum(text: Option<string>): int
  {
    if text.None? || text.value == "" then 999
    else
      var t := Trim(text.value);
      if Lower(t) == "kinder" then 0
      else
        match FirstGradeMatch(t, 0)
        case Some(n) => n
        case None => 999
  }

  lemma LabelMatchAt(d: string, n: nat)
    requires d == NatToString(n)
    ensures GradeMatchAt("Grade " + d, 0) == Some(n)
  {
    var x := "Grade " + d;
    assert x[0..5] == "Grade";
    assert Lower("Grade") == "grade";
    var rest := x[5..];
    assert rest == " " + d;
    assert rest[0] == ' ' && !IsSpace(rest[1]);
    assert LeadingSpaces(rest) == 1;
    assert rest[1..] == d;
    LeadingDigitsAll(d);
    DigitsOfNat(n);
  }

  lemma LabelTrimmed(d: string, n: nat)
    requires d == NatToString(n)
    ensures Trim("Grade " + d) == "Grade " + d
    ensures Lower("Grade " + d) != "kinder"
  {
    var x := "Grade " + d;
    assert x[0] == 'G' && x[|x| - 1] == d[|d| - 1];
    TrimmedFixed(x);
    assert |Lower(x)| == |x| && |x| >= 7;
  }

  /** "Grade <n>" reads back as n. */
  lemma GradeToNumOfLabel(n: nat)
    ensures GradeToNum(Some("Grade " + NatToString(n))) == n
  {
    var d := NatToString(n);
    LabelTrimmed(d, n);
    LabelMatchAt(d, n);
  }

  lemma OneDigitLabels()
    ensures forall n :: 1 <= n <= 9 ==> GradeNumberToLabel[n] == "Grade " + NatToString(n)
  {
    forall n | 1 <= n <= 9 ensures GradeNumberToLabel[n] == "Grade " + NatToString(n) {
      assert NatToString(n) == [DigitChar(n)];
    }
  }

  lemma TwoDigitLabels()
    ensures forall n :: 10 <= n <= 12 ==> GradeNumberToLabel[n] == "Grade " + NatToString(n)
  {
    assert NatToString(10) == "10" && NatToString(11) == "11" && NatToString(12) == "12";
  }

  /** The labels of grades 1 to 12 are "Grade <n>". */
  lemma GradeLabelsSpelled()
    ensures GradeNumberToLabel[0] == "Kinder"
    ensures forall n :: 1 <= n <= 12 ==> GradeNumberToLabel[n] == "Grade " + NatToString(n)
  {
    OneDigitLabels();
    TwoDigitLabels();
  }

  lemma KinderReadsBack()
    ensures GradeToNum(Some("Kinder")) == 0
  {
    assert Trimmed("Kinder");
    TrimmedFixed("Kinder");
    assert Lower("Kinder") == "kinder";
  }

  /** Every label of the grade table reads back as its grade number, so
      the snapshot order by gradeToNum is grade order. */
  lemma GradeTableReadsBack()
    ensures forall n :: 0 <= n <= 12 ==> GradeToNum(Some(GradeNumberToLabel[n])) == n
  {
    GradeLabelsSpelled();
    forall n | 0 <= n <= 12 ensures GradeToNum(Some(GradeNumberToLabel[n])) == n {
      if n == 0 {
        KinderReadsBack();
      } else {
        GradeToNumOfLabel(n);
      }
    }
  }
}
