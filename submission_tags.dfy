// The template filters of the submission pages: the status badge, whether
// an SLP subject is complete, its status word, and the grouping of the SLP
// rows into grade blocks with their completion figures.
module SubmissionTags {
  import opened Wrappers
  import opened Text
  import opened Lists
  import opened Sorting
  import opened ServerRows
  import opened SubmissionLifecycle

  // ---------------------------------------------------------------------
  // Status badges

  /** The status a stored value names, if any. */
  function KnownStatus(code: string): (r: Option<Status>)
    ensures r.Some? ==> StatusCode(r.value) == code
    ensures r.None? ==> forall s :: StatusCode(s) != code
  {
    if code == "draft" then Some(Draft)
    else if code == "submitted" then Some(Submitted)
    else if code == "returned" then Some(Returned)
    else if code == "noted" then Some(Noted)
    else None
  }

  /** The display label of a status choice. */
  function StatusLabel(s: Status): string
  {
    match s
    case Draft => "Draft"
    case Submitted => "Submitted"
    case Returned => "Returned"
    case Noted => "Noted"
  }

  /** `status_badge_class`: "badge badge--<status>" for the four statuses,
      "badge" for anything else. */
  function StatusBadgeClass(code: string): (r: string)
    ensures KnownStatus(code).Some? ==> r == "badge badge--" + code
    ensures KnownStatus(code).None? ==> r == "badge"
  {
    match KnownStatus(code)
    case Some(s) => "badge badge--" + StatusCode(s)
    case None => "badge"
  }

  datatype Badge = Badge(text: string, cssClass: string)

  /** `status_badge`: the choice label, or the raw value when it names no
      status, with the class above. */
  function StatusBadge(code: string): (b: Badge)
    ensures b.cssClass == StatusBadgeClass(code)
    ensures KnownStatus(code).Some? ==> b.text == StatusLabel(KnownStatus(code).value)
    ensures KnownStatus(code).None? ==> b.text == code
  {
    match KnownStatus(code)
    case Some(s) => Badge(StatusLabel(s), StatusBadgeClass(code))
    case None => Badge(code, StatusBadgeClass(code))
  }

  /** Every status has its own badge class and label, and an unknown value
      shows as itself with the plain class. */
  lemma BadgesOfStatuses(s: Status, t: Status, other: string)
    requires forall u :: StatusCode(u) != other
    ensures StatusBadge(StatusCode(s)) == Badge(StatusLabel(s), "badge badge--" + StatusCode(s))
    ensures s != t ==> StatusBadgeClass(StatusCode(s)) != StatusBadgeClass(StatusCode(t))
    ensures StatusBadge(other) == Badge(other, "badge")
  {
    StatusCodeInjective(s, t);
    if s != t {
      var a := StatusBadgeClass(StatusCode(s));
      var b := StatusBadgeClass(StatusCode(t));
      assert a[13..] == StatusCode(s) && b[13..] == StatusCode(t);
    }
  }

  // ---------------------------------------------------------------------
  // Subject completion

  /** An SLP form as the filters see it: its row, and the overall strategy of
      the row's analysis, None when the row has no analysis. */
  datatype SlpForm = SlpForm(row: SlpRow, strategy: Option<string>)

  /** `bool(x and x.strip())`. */
  predicate Filled(x: string)
  {
    !IsBlank(x)
  }

  /** `is_subject_complete`. */
  predicate IsSubjectComplete(f: SlpForm)
  {
    var r := f.row;
    !r.isOffered ||
    (r.enrolment > 0 && BandSum(r) == r.enrolment &&
     Filled(r.topThreeLlc) && Filled(r.interventionPlan) &&
     f.strategy.Some? && Filled(f.strategy.value))
  }

  datatype SubjectStatus = NotApplicable | NotStarted | Complete | Incomplete

  function SubjectStatusCode(s: SubjectStatus): string
  {
    match s
    case NotApplicable => "not-applicable"
    case NotStarted => "not-started"
    case Complete => "complete"
    case Incomplete => "incomplete"
  }

  /** Whether anything has been entered for an offered subject. */
  predicate HasAnyData(r: SlpRow)
  {
    r.enrolment > 0 || Filled(r.topThreeLlc) || Filled(r.interventionPlan) ||
    r.nonMasteryReasons != "" || r.nonMasteryOther != ""
  }

  /** `get_subject_status`. */
  function GetSubjectStatus(f: SlpForm): (st: SubjectStatus)
    ensures st == NotApplicable <==> !f.row.isOffered
    ensures st == NotStarted <==> f.row.isOffered && !HasAnyData(f.row)
  {
    if !f.row.isOffered then NotApplicable
    else if !HasAnyData(f.row) then NotStarted
    else if IsSubjectComplete(f) then Complete
    else Incomplete
  }

  /** For an offered subject the status word agrees with the completion check
      in both directions: a complete subject always has data, so it is never
      "not started". */
  lemma StatusAgreesWithCompletion(f: SlpForm)
    requires f.row.isOffered
    ensures GetSubjectStatus(f) == Complete <==> IsSubjectComplete(f)
    ensures GetSubjectStatus(f) == Incomplete ==> HasAnyData(f.row) && !IsSubjectComplete(f)
  {
    if IsSubjectComplete(f) {
      assert f.row.enrolment > 0;
    }
  }

  /** A complete offered subject counts exactly its enrolment, has a top-three
      LLC, an intervention plan and an overall strategy. */
  lemma CompleteSubjectMeaning(f: SlpForm)
    requires f.row.isOffered && IsSubjectComplete(f)
    ensures f.row.enrolment > 0 && BandSum(f.row) == f.row.enrolment
    ensures Trim(f.row.topThreeLlc) != "" && Trim(f.row.interventionPlan) != ""
    ensures f.strategy.Some? && Trim(f.strategy.value) != ""
  {
  }

  // ---------------------------------------------------------------------
  // Grade blocks

  /** The first `Token` characters of s that are not white space. */
  function Token(s: string): (r: string)
    ensures |r| <= |s| && r == s[..|r|]
    ensures forall i :: 0 <= i < |r| ==> !IsSpace(r[i])
    ensures |r| == |s| || IsSpace(s[|r|])
    decreases |s|
  {
    if s == "" || IsSpace(s[0]) then "" else [s[0]] + Token(s[1..])
  }

  /** `s.split()`: the maximal runs of characters that are not white space. */
  function Words(s: string): (ws: seq<string>)
    ensures forall k :: 0 <= k < |ws| ==> ws[k] != "" && forall i :: 0 <= i < |ws[k]| ==> !IsSpace(ws[k][i])
    decreases |s|
  {
    if s == "" then []
    else if IsSpace(s[0]) then Words(s[1..])
    else
      var w := Token(s);
      [w] + Words(s[|w|..])
  }

  /** The sort key of a grade label: the number after its first word, 0 for
      a one-word label, None where `int()` raises. */
  function GradeKey(lab: string): Option<int>
  {
    var ws := Words(lab);
    if |ws| > 1 then PyInt(ws[1]) else Some(0)
  }

  lemma {:induction false} TokenOfWord(w: string, rest: string)
    requires forall i :: 0 <= i < |w| ==> !IsSpace(w[i])
    requires rest == "" || IsSpace(rest[0])
    ensures Token(w + rest) == w
    decreases |w|
  {
    if w != "" {
      assert (w + rest)[1..] == w[1..] + rest;
      TokenOfWord(w[1..], rest);
    } else {
      assert w + rest == rest;
    }
  }

  predicate IsWord(w: string)
  {
    w != "" && forall i :: 0 <= i < |w| ==> !IsSpace(w[i])
  }

  lemma WordsOfWord(w: string)
    requires IsWord(w)
    ensures Words(w) == [w]
  {
    TokenOfWord(w, "");
    assert w + "" == w;
    assert w[|w|..] == "";
  }

  lemma WordsOfTwo(w: string, d: string)
    requires IsWord(w) && IsWord(d)
    ensures Words(w + " " + d) == [w, d]
  {
    var s := w + " " + d;
    assert s == w + (" " + d);
    TokenOfWord(w, " " + d);
    assert s[|w|..] == " " + d;
    assert (" " + d)[1..] == d;
    WordsOfWord(d);
  }

  lemma NumberIsWord(n: nat)
    ensures IsWord(NatToString(n)) && PyInt(NatToString(n)) == Some(n)
  {
    var d := NatToString(n);
    DigitsOfNat(n);
    forall i | 0 <= i < |d| ensures !IsSpace(d[i]) {
      assert IsDigit(d[i]);
    }
    PyIntOfString(n);
  }

  /** A label of two words sorts by the number its second word spells: the
      key of "Grade 7" is 7; a label of one word, such as "Kinder", has key
      0. */
  lemma GradeKeyOfLabel(w: string, n: nat)
    requires IsWord(w)
    ensures GradeKey(w + " " + NatToString(n)) == Some(n)
    ensures GradeKey(w) == Some(0)
  {
    NumberIsWord(n);
    WordsOfTwo(w, NatToString(n));
    WordsOfWord(w);
  }

  /** The labels in the order first seen, as the grouping dictionary keeps
      its keys. */
  function LabelSeq(forms: seq<SlpForm>): (r: seq<string>)
    ensures |r| == |forms| && forall k :: 0 <= k < |forms| ==> r[k] == forms[k].row.gradeLabel
  {
    seq(|forms|, k requires 0 <= k < |forms| => forms[k].row.gradeLabel)
  }

  function HasLabel(lab: string): SlpForm -> bool
  {
    (f: SlpForm) => f.row.gradeLabel == lab
  }

  /** `grouped[label]`: the forms with that label, in their order. */
  function SubjectsOf(forms: seq<SlpForm>, lab: string): seq<SlpForm>
  {
    Filter(forms, HasLabel(lab))
  }

  function OfferedCount(subs: seq<SlpForm>): (n: nat)
    ensures n <= |subs|
  {
    if subs == [] then 0
    else OfferedCount(subs[..|subs| - 1]) + (if subs[|subs| - 1].row.isOffered then 1 else 0)
  }

  function CompletedCount(subs: seq<SlpForm>): (n: nat)
    ensures n <= OfferedCount(subs)
  {
    if subs == [] then 0
    else
      var f := subs[|subs| - 1];
      CompletedCount(subs[..|subs| - 1]) + (if f.row.isOffered && IsSubjectComplete(f) then 1 else 0)
  }

  /** `int(completed / total * 100)` on the exact ratio, 0 without offered
      subjects; at most 100. */
  function CompletionPercent(completed: nat, total: nat): (p: nat)
    requires completed <= total
    ensures total == 0 ==> p == 0
    ensures total > 0 ==> p * total <= 100 * completed < p * total + total
    ensures p <= 100 && (0 < total && completed == total ==> p == 100)
  {
    if total == 0 then 0
    else
      var p := (100 * completed) / total;
      assert 100 * completed == p * total + (100 * completed) % total;
      assert completed == total ==> p == 100 by {
        if completed == total {
          DivIs(100 * total, total, 100);
        }
      }
      p
  }

  datatype GradeGroup = GradeGroup(gradeLabel: string, subjects: seq<SlpForm>, total: nat, completed: nat, percentage: nat)

  /** The block of one label. */
  function GroupOf(forms: seq<SlpForm>, lab: string): GradeGroup
  {
    var subs := SubjectsOf(forms, lab);
    GradeGroup(lab, subs, OfferedCount(subs), CompletedCount(subs),
      CompletionPercent(CompletedCount(subs), OfferedCount(subs)))
  }

  /** The blocks of the given labels, in their order. */
  function GroupsFor(forms: seq<SlpForm>, labels: seq<string>): (gs: seq<GradeGroup>)
    ensures GroupLabels(gs) == labels
  {
    if labels == [] then []
    else
      var init := GroupsFor(forms, labels[..|labels| - 1]);
      var g := GroupOf(forms, labels[|labels| - 1]);
      assert GroupLabels(init + [g]) == GroupLabels(init) + [g.gradeLabel];
      init + [g]
  }

  /** The labels of the blocks, in order. */
  function GroupLabels(gs: seq<GradeGroup>): (ls: seq<string>)
    ensures |ls| == |gs| && forall k :: 0 <= k < |gs| ==> ls[k] == gs[k].gradeLabel
  {
    seq(|gs|, k requires 0 <= k < |gs| => gs[k].gradeLabel)
  }

  lemma {:induction false} GroupsForAt(forms: seq<SlpForm>, labels: seq<string>, k: nat)
    requires k < |labels|
    ensures GroupsFor(forms, labels)[k] == GroupOf(forms, labels[k])
  {
    if k < |labels| - 1 {
      GroupsForAt(forms, labels[..|labels| - 1], k);
    }
  }

  predicate KeysParse(labels: seq<string>, key: string -> Option<int>)
  {
    forall k :: 0 <= k < |labels| ==> key(labels[k]).Some?
  }

  function KeyOrder(key: string -> Option<int>): (string, string) -> bool
  {
    (a: string, b: string) => key(a).GetOr(0) <= key(b).GetOr(0)
  }

  lemma KeyOrderTotal(key: string -> Option<int>)
    ensures TotalPreorder(KeyOrder(key))
  {
  }

  /** The labels of the blocks, in order. */
  function SortedLabels(forms: seq<SlpForm>, key: string -> Option<int>): seq<string>
  {
    SortBy(Dedup(LabelSeq(forms)), KeyOrder(key))
  }

  /** The grouping over a sort key: one block per label, by key; Err where a
      label's key does not parse. */
  function GroupedBy(forms: seq<SlpForm>, key: string -> Option<int>): Result<seq<GradeGroup>>
  {
    if !KeysParse(Dedup(LabelSeq(forms)), key) then Err("invalid literal for int()")
    else Ok(GroupsFor(forms, SortedLabels(forms, key)))
  }

  /** `group_slp_by_grade` as a value. */
  function Grouped(forms: seq<SlpForm>): Result<seq<GradeGroup>>
  {
    GroupedBy(forms, GradeKey)
  }

  /** The sorted labels are the labels of the forms, each once, in
      nondecreasing key order. */
  lemma SortedLabelsMeaning(forms: seq<SlpForm>, key: string -> Option<int>)
    ensures var sorted := SortedLabels(forms, key);
      Distinct(sorted) &&
      (forall l :: l in sorted <==> l in LabelSeq(forms)) &&
      (forall k, j :: 0 <= k < j < |sorted| ==> key(sorted[k]).GetOr(0) <= key(sorted[j]).GetOr(0))
  {
    var labels := Dedup(LabelSeq(forms));
    var sorted := SortedLabels(forms, key);
    DedupMeaning(LabelSeq(forms));
    KeyOrderTotal(key);
    SortSorted(labels, KeyOrder(key));
    DistinctPermutation(labels, sorted);
    forall l
      ensures l in sorted <==> l in labels
    {
      assert l in sorted <==> l in multiset(sorted);
      assert l in labels <==> l in multiset(labels);
    }
    forall k, j | 0 <= k < j < |sorted|
      ensures key(sorted[k]).GetOr(0) <= key(sorted[j]).GetOr(0)
    {
      assert KeyOrder(key)(sorted[k], sorted[j]);
    }
  }

  /** Each label of the forms has exactly one block, every block is for a
      label of the forms, and the blocks are in nondecreasing grade order. */
  lemma GroupedLabels(forms: seq<SlpForm>, key: string -> Option<int>)
    requires GroupedBy(forms, key).Ok?
    ensures var ls := GroupLabels(GroupedBy(forms, key).value);
      Distinct(ls) &&
      (forall l :: l in ls <==> l in LabelSeq(forms)) &&
      (forall k, j :: 0 <= k < j < |ls| ==> key(ls[k]).GetOr(0) <= key(ls[j]).GetOr(0))
  {
    SortedLabelsMeaning(forms, key);
  }

  /** Each block holds exactly the forms of its label, in order, and its
      figures count its offered and complete subjects with a percentage of
      at most 100. */
  lemma GroupOfMeaning(forms: seq<SlpForm>, lab: string)
    ensures var g := GroupOf(forms, lab);
      g.gradeLabel == lab &&
      (forall f :: f in g.subjects <==> f in forms && f.row.gradeLabel == lab) &&
      Subsequence(g.subjects, forms) &&
      g.completed <= g.total <= |g.subjects| && g.percentage <= 100
  {
    FilterMeaning(forms, HasLabel(lab));
  }

  lemma FilterSnoc<T>(xs: seq<T>, keep: T -> bool, i: nat)
    requires i < |xs|
    ensures Filter(xs[..i + 1], keep) == Filter(xs[..i], keep) + (if keep(xs[i]) then [xs[i]] else [])
  {
    assert xs[..i + 1][..i] == xs[..i];
  }

  lemma DedupLabelSnoc(forms: seq<SlpForm>, i: nat)
    requires i < |forms|
    ensures Dedup(LabelSeq(forms[..i + 1])) == DedupStep(Dedup(LabelSeq(forms[..i])), forms[i].row.gradeLabel)
  {
    assert LabelSeq(forms[..i + 1]) == LabelSeq(forms)[..i + 1];
    assert LabelSeq(forms[..i]) == LabelSeq(forms)[..i];
    DedupSnoc(LabelSeq(forms), i);
  }

  /** A label no form carries has no forms. */
  lemma {:induction false} NoFormsOfLabel(forms: seq<SlpForm>, l: string)
    requires l !in LabelSeq(forms)
    ensures SubjectsOf(forms, l) == []
  {
    if forms != [] {
      var n := |forms|;
      assert LabelSeq(forms)[n - 1] == forms[n - 1].row.gradeLabel;
      assert LabelSeq(forms[..n - 1]) == LabelSeq(forms)[..n - 1];
      NoFormsOfLabel(forms[..n - 1], l);
    }
  }

  /** The first loop: `grouped[grade].append(form)`. */
  method GroupByLabel(forms: seq<SlpForm>) returns (grouped: map<string, seq<SlpForm>>, order: seq<string>)
    ensures order == Dedup(LabelSeq(forms))
    ensures forall l :: l in grouped <==> l in order
    ensures forall l :: l in grouped ==> grouped[l] == SubjectsOf(forms, l)
  {
    grouped := map[];
    order := [];
    for i := 0 to |forms|
      invariant order == Dedup(LabelSeq(forms[..i]))
      invariant forall l :: l in grouped <==> l in order
      invariant forall l :: l in grouped ==> grouped[l] == SubjectsOf(forms[..i], l)
    {
      var f := forms[i];
      var l := f.row.gradeLabel;
      DedupLabelSnoc(forms, i);
      DedupMeaning(LabelSeq(forms[..i]));
      forall m {
        FilterSnoc(forms, HasLabel(m), i);
      }
      if l in grouped {
        grouped := grouped[l := grouped[l] + [f]];
      } else {
        NoFormsOfLabel(forms[..i], l);
        grouped := grouped[l := [f]];
        order := order + [l];
      }
    }
    assert forms[..|forms|] == forms;
  }

  lemma CountSnoc(subs: seq<SlpForm>, k: nat)
    requires k < |subs|
    ensures OfferedCount(subs[..k + 1]) == OfferedCount(subs[..k]) + (if subs[k].row.isOffered then 1 else 0)
    ensures CompletedCount(subs[..k + 1]) == CompletedCount(subs[..k]) + (if subs[k].row.isOffered && IsSubjectComplete(subs[k]) then 1 else 0)
  {
    assert subs[..k + 1][..k] == subs[..k];
  }

  /** The figures of one block: `len(offered_subjects)` and the completed
      count. */
  method Tally(subs: seq<SlpForm>) returns (total: nat, completed: nat)
    ensures total == OfferedCount(subs) && completed == CompletedCount(subs)
  {
    total, completed := 0, 0;
    for k := 0 to |subs|
      invariant total == OfferedCount(subs[..k]) && completed == CompletedCount(subs[..k])
    {
      CountSnoc(subs, k);
      if subs[k].row.isOffered {
        total := total + 1;
        if IsSubjectComplete(subs[k]) {
          completed := completed + 1;
        }
      }
    }
    assert subs[..|subs|] == subs;
  }

  /** The keys `sorted` computes: false where one of them raises. */
  method KeysOk(labels: seq<string>, key: string -> Option<int>) returns (ok: bool)
    ensures ok == KeysParse(labels, key)
  {
    for i := 0 to |labels|
      invariant KeysParse(labels[..i], key)
    {
      if key(labels[i]).None? {
        return false;
      }
    }
    assert labels[..|labels|] == labels;
    return true;
  }

  /** The second loop: one block per sorted label, from the grouped forms. */
  method BuildGroups(forms: seq<SlpForm>, grouped: map<string, seq<SlpForm>>, sorted: seq<string>) returns (result: seq<GradeGroup>)
    requires forall l :: l in sorted ==> l in grouped && grouped[l] == SubjectsOf(forms, l)
    ensures result == GroupsFor(forms, sorted)
  {
    result := [];
    for j := 0 to |sorted|
      invariant result == GroupsFor(forms, sorted[..j])
    {
      GroupsForSnoc(forms, sorted, j);
      var g := GroupBlock(forms, sorted[j], grouped[sorted[j]]);
      result := result + [g];
    }
    assert sorted[..|sorted|] == sorted;
  }

  lemma GroupsForSnoc(forms: seq<SlpForm>, labels: seq<string>, j: nat)
    requires j < |labels|
    ensures GroupsFor(forms, labels[..j + 1]) == GroupsFor(forms, labels[..j]) + [GroupOf(forms, labels[j])]
  {
    assert labels[..j + 1][..j] == labels[..j];
  }

  /** One block: tally the label's forms and work out the percentage. */
  method GroupBlock(forms: seq<SlpForm>, lab: string, subs: seq<SlpForm>) returns (g: GradeGroup)
    requires subs == SubjectsOf(forms, lab)
    ensures g == GroupOf(forms, lab)
  {
    var total, completed := Tally(subs);
    var pct := CompletionPercent(completed, total);
    g := GradeGroup(lab, subs, total, completed, pct);
  }

  /** The loops of `group_slp_by_grade` over its sort key. */
  method GroupByKey(forms: seq<SlpForm>, key: string -> Option<int>) returns (r: Result<seq<GradeGroup>>)
    ensures r == GroupedBy(forms, key)
  {
    var grouped, order := GroupByLabel(forms);
    var ok := KeysOk(order, key);
    if !ok {
      return Err("invalid literal for int()");
    }
    var sorted := SortBy(order, KeyOrder(key));
    assert sorted == SortedLabels(forms, key);
    SortedLabelsMeaning(forms, key);
    DedupMeaning(LabelSeq(forms));
    var result := BuildGroups(forms, grouped, sorted);
    r := Ok(result);
  }

  /** `group_slp_by_grade`. */
  method GroupSlpByGrade(forms: seq<SlpForm>) returns (r: Result<seq<GradeGroup>>)
    ensures r == Grouped(forms)
  {
    r := GroupByKey(forms, GradeKey);
  }
}
