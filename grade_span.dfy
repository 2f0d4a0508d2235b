// The server's derivation of which grades, SLP grade/subject pairs and RMA
// grade codes a school reports on, from its profile's grade span or the
// school's own minimum and maximum grade; the parsing of a grade label back
// to its number; and the grade-span labels shown for a school.
module GradeSpans {
  import opened Wrappers
  import opened Text
  import opened Constants

  /** The profile fields this part of the system reads. */
  datatype SchoolProfile = SchoolProfile(spanStart: Option<nat>, spanEnd: Option<nat>)

  /** A school; `profile` is None when no profile row exists. */
  datatype School = School(profile: Option<SchoolProfile>, minGrade: Option<nat>, maxGrade: Option<nat>)

  function Max(a: int, b: int): int { if a >= b then a else b }

  /** The profile's span when both of its ends are set. */
  function ProfileSpan(school: School): Option<(int, int)>
  {
    match school.profile
    case Some(p) =>
      if p.spanStart.Some? && p.spanEnd.Some? then Some((p.spanStart.value as int, p.spanEnd.value as int)) else None
    case None => None
  }

  /** The school's own span when both of its ends are set. */
  function SchoolSpan(school: School): Option<(int, int)>
  {
    if school.minGrade.Some? && school.maxGrade.Some? then Some((school.minGrade.value as int, school.maxGrade.value as int)) else None
  }

  /** `_resolve_grade_span`: the profile's span first, then the school's,
      else none (and none for a missing school). */
  function ResolveGradeSpan(school: Option<School>): Option<(int, int)>
  {
    match school
    case None => None
    case Some(s) => if ProfileSpan(s).Some? then ProfileSpan(s) else SchoolSpan(s)
  }

  predicate StrictlyIncreasing(xs: seq<int>)
  {
    forall i, j :: 0 <= i < j < |xs| ==> xs[i] < xs[j]
  }

  /** The keys of the grade table, 0 to 12 (Constants.GradeLabelsInjective). */
  predicate IsGradeNumber(n: int) { FirstGrade <= n <= LastGrade }

  const FirstGrade: int := 0
  const LastGrade: int := 12

  lemma GradeKeys()
    ensures forall n :: n in GradeNumberToLabel <==> IsGradeNumber(n)
  {
  }

  /** `[n for n in range(lo, hi) if n in GRADE_NUMBER_TO_LABEL]`, with the
      membership test read as IsGradeNumber. */
  function MappedRange(lo: int, hi: int): (r: seq<int>)
    ensures forall n :: n in r <==> lo <= n < hi && IsGradeNumber(n)
    ensures forall i :: 0 <= i < |r| ==> r[i] == Max(lo, FirstGrade) + i
    decreases hi - lo
  {
    if lo >= hi then []
    else
      var rest := MappedRange(lo + 1, hi);
      if IsGradeNumber(lo) then [lo] + rest else rest
  }

  /** The reference reading of which grades a school reports on: every mapped
      grade without a complete span, else the mapped grades from the clamped
      start to the clamped end. */
  predicate GradeListed(school: Option<School>, n: int)
  {
    IsGradeNumber(n) &&
    match ResolveGradeSpan(school)
    case None => true
    case Some(span) => Max(0, span.0) <= n <= Max(Max(0, span.0), span.1)
  }

  /** `grade_numbers_for_school`. */
  function GradeNumbersForSchool(school: Option<School>): (r: seq<int>)
    ensures forall n :: n in r <==> GradeListed(school, n)
    ensures forall i :: 0 <= i < |r| ==> r[i] == r[0] + i
    ensures StrictlyIncreasing(r)
  {
    match ResolveGradeSpan(school)
    case None => MappedRange(FirstGrade, LastGrade + 1)  // sorted(GRADE_NUMBER_TO_LABEL.keys())
    case Some(span) =>
      var start := Max(0, span.0);
      var end := Max(start, span.1);
      MappedRange(start, end + 1)
  }

  /** The profile's span wins over the school's own minimum and maximum. */
  lemma ProfileSpanFirst(s: School, t: School)
    requires ProfileSpan(s).Some? && s.profile == t.profile
    ensures GradeNumbersForSchool(Some(s)) == GradeNumbersForSchool(Some(t))
  {
  }

  /** A span inside 0..12 lists exactly its own grades, in order. */
  lemma SpanWithinTable(school: Option<School>, a: int, b: int)
    requires ResolveGradeSpan(school) == Some((a, b)) && 0 <= a <= b <= 12
    ensures |GradeNumbersForSchool(school)| == b - a + 1
    ensures forall i :: 0 <= i < b - a + 1 ==> GradeNumbersForSchool(school)[i] == a + i
  {
    var r := GradeNumbersForSchool(school);
    assert GradeListed(school, a) && GradeListed(school, b);
    var k :| 0 <= k < |r| && r[k] == a;
    var m :| 0 <= m < |r| && r[m] == b;
    assert r[0] in r && r[|r| - 1] in r;
  }

  // ---------------------------------------------------------------------
  // Grade labels and SLP grade/subject pairs

  /** `[GRADE_NUMBER_TO_LABEL[n] for n in nums if n in GRADE_NUMBER_TO_LABEL]`. */
  function LabelsFor(nums: seq<int>): (r: seq<string>)
    ensures |r| <= |nums|
    ensures (forall i :: 0 <= i < |nums| ==> nums[i] in GradeNumberToLabel) ==>
      |r| == |nums| && forall i :: 0 <= i < |r| ==> r[i] == GradeNumberToLabel[nums[i]]
    decreases |nums|
  {
    if nums == [] then []
    else
      var init := LabelsFor(nums[..|nums| - 1]);
      var n := nums[|nums| - 1];
      if n in GradeNumberToLabel then init + [GradeNumberToLabel[n]] else init
  }

  /** `slp_grade_labels_for_school`. */
  function SlpGradeLabelsForSchool(school: Option<School>): (r: seq<string>)
    ensures |r| == |GradeNumbersForSchool(school)|
    ensures forall i :: 0 <= i < |r| ==>
      r[i] in GradeLabelToNumber && GradeLabelToNumber[r[i]] == GradeNumbersForSchool(school)[i]
  {
    var nums := GradeNumbersForSchool(school);
    GradeKeys();
    assert forall i :: 0 <= i < |nums| ==> nums[i] in nums;
    GradeMapsInverse();
    LabelsFor(nums)
  }

  /** The school's SLP grade labels are the labels of its listed grades, in
      increasing grade order. */
  lemma SlpLabelsOrdered(school: Option<School>)
    ensures forall l :: l in SlpGradeLabelsForSchool(school) <==>
      l in GradeLabelToNumber && GradeListed(school, GradeLabelToNumber[l])
    ensures forall i, j :: 0 <= i < j < |SlpGradeLabelsForSchool(school)| ==>
      GradeLabelToNumber[SlpGradeLabelsForSchool(school)[i]] < GradeLabelToNumber[SlpGradeLabelsForSchool(school)[j]]
  {
    var r := SlpGradeLabelsForSchool(school);
    var nums := GradeNumbersForSchool(school);
    GradeMapsInverse();
    forall l | l in GradeLabelToNumber && GradeListed(school, GradeLabelToNumber[l])
      ensures l in r
    {
      var n := GradeLabelToNumber[l];
      assert n in nums;
      var i :| 0 <= i < |nums| && nums[i] == n;
      assert GradeNumberToLabel[n] == l;
      assert r[i] == GradeNumberToLabel[nums[i]];
    }
  }

  /** The subject table, grade by grade; the system's own is
      Constants.SlpSubjectsByGrade. */
  type SubjectTable = seq<(int, seq<Subject>)>

  /** `slp_subjects_for_grade` over a table: the grade's subject list, or the
      default subject alone when the grade has no list or an empty one. */
  function SubjectsIn(table: SubjectTable, g: Option<int>): (r: seq<Subject>)
    ensures |r| >= 1
  {
    if g.None? then [SlpDefaultSubject]
    else match FindGrade(table, g.value)
      case Some(subs) => if subs == [] then [SlpDefaultSubject] else subs
      case None => [SlpDefaultSubject]
  }

  /** `GRADE_LABEL_TO_NUMBER.get(label)`. */
  function NumberOfLabel(lab: string): Option<int>
  {
    if lab in GradeLabelToNumber then Some(GradeLabelToNumber[lab]) else None
  }

  /** The pairs one grade label contributes, one per subject code. */
  function PairsForLabel(lab: string, subs: seq<Subject>): (r: seq<(string, string)>)
    ensures |r| == |subs| && forall i :: 0 <= i < |r| ==> r[i] == (lab, subs[i].code)
    decreases |subs|
  {
    if subs == [] then [] else PairsForLabel(lab, subs[..|subs| - 1]) + [(lab, subs[|subs| - 1].code)]
  }

  /** The nested loop of `slp_grade_subject_pairs` over the given labels. */
  function PairsOf(table: SubjectTable, labels: seq<string>): (r: seq<(string, string)>)
    ensures |r| >= |labels|
    decreases |labels|
  {
    if labels == [] then []
    else
      var l := labels[|labels| - 1];
      PairsOf(table, labels[..|labels| - 1]) + PairsForLabel(l, SubjectsIn(table, NumberOfLabel(l)))
  }

  /** The fallback pair when the school lists no grade at all. */
  const DefaultPair: (string, string) := ("Kinder", "overall")

  /** `slp_grade_subject_pairs` over a subject table. */
  function GradeSubjectPairs(table: SubjectTable, school: Option<School>): (r: seq<(string, string)>)
    ensures |r| >= 1
    ensures SlpGradeLabelsForSchool(school) == [] ==> r == [DefaultPair]
  {
    var pairs := PairsOf(table, SlpGradeLabelsForSchool(school));
    if pairs == [] then [(GradeNumberToLabel[0], SlpDefaultSubject.code)] else pairs
  }

  /** `slp_grade_subject_pairs` itself, over the system's subject table. */
  function SlpGradeSubjectPairs(school: Option<School>): seq<(string, string)>
  {
    GradeSubjectPairs(SlpSubjectsByGrade, school)
  }

  /** A pair belongs to a grade's share exactly when its label is that grade's
      and its code is one of the grade's subject codes. */
  predicate PairOfLabels(table: SubjectTable, labels: seq<string>, p: (string, string))
  {
    p.0 in labels && p.1 in Codes(SubjectsIn(table, NumberOfLabel(p.0)))
  }

  lemma {:induction false} PairsOfMembership(table: SubjectTable, labels: seq<string>)
    ensures forall p :: p in PairsOf(table, labels) <==> PairOfLabels(table, labels, p)
    decreases |labels|
  {
    if labels != [] {
      var init := labels[..|labels| - 1];
      var l := labels[|labels| - 1];
      var subs := SubjectsIn(table, NumberOfLabel(l));
      PairsOfMembership(table, init);
      forall p ensures p in PairsOf(table, labels) <==> PairOfLabels(table, labels, p) {
        var mine := PairsForLabel(l, subs);
        assert p in PairsOf(table, labels) <==> p in PairsOf(table, init) || p in mine;
        if p in mine {
          var i :| 0 <= i < |mine| && mine[i] == p;
          assert subs[i].code == p.1;
        }
        if p.0 == l && p.1 in Codes(subs) {
          var i :| 0 <= i < |subs| && subs[i].code == p.1;
          assert mine[i] == p;
        }
        assert p.0 in labels <==> p.0 in init || p.0 == l;
      }
    }
  }

  /** The pairs list, for each of the school's grades, one pair per subject
      of that grade, and the fallback pair only when the school lists no
      grade. */
  lemma PairsMembership(table: SubjectTable, school: Option<School>)
    ensures SlpGradeLabelsForSchool(school) != [] ==>
      forall p :: p in GradeSubjectPairs(table, school) <==> PairOfLabels(table, SlpGradeLabelsForSchool(school), p)
    ensures SlpGradeLabelsForSchool(school) == [] ==> GradeSubjectPairs(table, school) == [DefaultPair]
  {
    var labels := SlpGradeLabelsForSchool(school);
    PairsOfMembership(table, labels);
    if labels != [] {
      var l := labels[0];
      var subs := SubjectsIn(table, NumberOfLabel(l));
      assert (l, subs[0].code) in PairsOf(table, labels) by {
        assert PairOfLabels(table, labels, (l, subs[0].code));
      }
    }
  }

  /** Every grade of the system's table has its own non-empty subject list,
      so the default subject is never used for a listed grade. */
  lemma EveryGradeHasSubjects()
    ensures forall n :: 0 <= n <= 12 ==> FindGrade(SlpSubjectsByGrade, n).Some? && FindGrade(SlpSubjectsByGrade, n).value != []
  {
    forall n | 0 <= n <= 12 ensures FindGrade(SlpSubjectsByGrade, n).Some? && FindGrade(SlpSubjectsByGrade, n).value != [] {
      assert SlpSubjectsByGrade[n].0 == n;
      assert SlpSubjectsByGrade[n].1 != [];
      FindGradeFirst(SlpSubjectsByGrade, n);
    }
  }

  /** FindGrade returns the list of the first entry for g. */
  lemma {:induction false} FindGradeFirst(table: SubjectTable, k: int)
    requires 0 <= k < |table| && forall j :: 0 <= j < k ==> table[j].0 != table[k].0
    ensures FindGrade(table, table[k].0) == Some(table[k].1)
    decreases k
  {
    if k > 0 {
      assert table[1..][k - 1] == table[k];
      FindGradeFirst(table[1..], k - 1);
    }
  }

  // ---------------------------------------------------------------------
  // RMA grade codes

  /** `list(RMA_GRADE_LABEL_FOR_NUMBER.values())`, in the table's order. */
  const RmaCodes: seq<string> := ["k", "g1", "g2", "g3", "g4", "g5", "g6", "g7", "g8", "g9", "g10"]

  /** The grades that have an RMA code: kinder to grade 10. */
  predicate HasRmaCode(n: int) { 0 <= n < |RmaCodes| }

  lemma RmaCodesListed()
    ensures |RmaCodes| == 11
    ensures forall n :: n in RmaGradeLabelForNumber <==> HasRmaCode(n)
    ensures forall n :: HasRmaCode(n) ==> RmaCodes[n] == RmaGradeLabelForNumber[n]
  {
  }

  /** `[n for n in nums if n in RMA_GRADE_LABEL_FOR_NUMBER]`. */
  function RmaNumbers(nums: seq<int>): (r: seq<int>)
    ensures forall n :: n in r <==> n in nums && HasRmaCode(n)
    ensures StrictlyIncreasing(nums) ==> StrictlyIncreasing(r)
    ensures forall i :: 0 <= i < |r| ==> HasRmaCode(r[i])
    decreases |nums|
  {
    if nums == [] then []
    else
      var rest := RmaNumbers(nums[1..]);
      assert forall n :: n in nums <==> n == nums[0] || n in nums[1..];
      if HasRmaCode(nums[0]) then
        assert StrictlyIncreasing(nums) ==> forall i :: 0 <= i < |rest| ==> nums[0] < rest[i] by {
          if StrictlyIncreasing(nums) {
            forall i | 0 <= i < |rest| ensures nums[0] < rest[i] {
              assert rest[i] in nums[1..];
            }
          }
        }
        [nums[0]] + rest
      else rest
  }

  /** The codes of the given grades, in order. */
  function CodesOf(nums: seq<int>): (r: seq<string>)
    requires forall i :: 0 <= i < |nums| ==> 0 <= nums[i] < |RmaCodes|
    ensures |r| == |nums| && forall i :: 0 <= i < |r| ==> r[i] == RmaCodes[nums[i]]
  {
    seq(|nums|, i requires 0 <= i < |nums| => RmaCodes[nums[i]])
  }

  /** `rma_grade_labels_for_school`: the codes of the school's grades from
      kinder to grade 10, in grade order, or every code when none of its
      grades has one. */
  function RmaGradeLabelsForSchool(school: Option<School>): (r: seq<string>)
    ensures |r| >= 1
    ensures var f := RmaNumbers(GradeNumbersForSchool(school));
      (f != [] ==> r == CodesOf(f)) && (f == [] ==> r == RmaCodes)
  {
    var f := RmaNumbers(GradeNumbersForSchool(school));
    if f == [] then RmaCodes else CodesOf(f)
  }

  /** The RMA codes listed for a school are those of its listed grades up to
      grade 10, each exactly once and in grade order. */
  lemma RmaLabelsMeaning(school: Option<School>)
    ensures forall n :: n in RmaNumbers(GradeNumbersForSchool(school)) <==> GradeListed(school, n) && HasRmaCode(n)
    ensures StrictlyIncreasing(RmaNumbers(GradeNumbersForSchool(school)))
    ensures (forall n :: HasRmaCode(n) ==> !GradeListed(school, n)) ==> RmaGradeLabelsForSchool(school) == RmaCodes
  {
    var f := RmaNumbers(GradeNumbersForSchool(school));
    if f != [] {
      assert f[0] in f;
    }
  }

  // ---------------------------------------------------------------------
  // From a grade label back to its number

  /** The position of the first RMA code equal to the label (the dict is
      walked in its own order). */
  function RmaNumberOf(lab: string): (r: Option<nat>)
    ensures r.Some? ==> HasRmaCode(r.value) && RmaCodes[r.value] == lab
  {
    RmaFind(lab, 0)
  }

  function RmaFind(lab: string, k: nat): (r: Option<nat>)
    requires k <= |RmaCodes|
    ensures r.Some? ==> k <= r.value < |RmaCodes| && RmaCodes[r.value] == lab
    decreases |RmaCodes| - k
  {
    if k == |RmaCodes| then None else if RmaCodes[k] == lab then Some(k) else RmaFind(lab, k + 1)
  }

  /** Codes are at most three characters long and start with 'k' or 'g'. */
  lemma RmaCodeShape(n: int)
    requires HasRmaCode(n)
    ensures 1 <= |RmaCodes[n]| <= 3 && (RmaCodes[n][0] == 'k' || RmaCodes[n][0] == 'g')
  {
  }

  lemma {:induction false} RmaFindAbsent(lab: string, k: nat)
    requires k <= |RmaCodes| && |lab| > 3
    ensures RmaFind(lab, k) == None
    decreases |RmaCodes| - k
  {
    if k < |RmaCodes| {
      RmaCodeShape(k);
      RmaFindAbsent(lab, k + 1);
    }
  }

  lemma {:induction false} RmaFindFirst(c: string, n: nat, k: nat)
    requires k <= n < |RmaCodes| && RmaCodes[n] == c && forall i :: k <= i < n ==> RmaCodes[i] != c
    ensures RmaFind(c, k) == Some(n)
    decreases n - k
  {
    if k < n {
      RmaFindFirst(c, n, k + 1);
    }
  }

  /** Each code is found at its own grade. */
  lemma RmaNumberOfCode(n: int)
    requires HasRmaCode(n)
    ensures RmaNumberOf(RmaCodes[n]) == Some(n)
  {
    forall i | 0 <= i < n ensures RmaCodes[i] != RmaCodes[n] {
      assert i != n;
    }
    RmaFindFirst(RmaCodes[n], n, 0);
  }

  /** Every SLP grade label starts with 'K' or 'G'. */
  lemma LabelInitial(n: int)
    requires IsGradeNumber(n)
    ensures |GradeNumberToLabel[n]| >= 1 && (GradeNumberToLabel[n][0] == 'K' || GradeNumberToLabel[n][0] == 'G')
  {
    if n == 0 {} else if n == 1 {} else if n == 2 {} else if n == 3 {} else if n == 4 {}
    else if n == 5 {} else if n == 6 {} else if n == 7 {} else if n == 8 {} else if n == 9 {}
    else if n == 10 {} else if n == 11 {} else {}
  }

  lemma KnownLabelInitial(lab: string)
    requires lab in GradeLabelToNumber
    ensures |lab| >= 1 && (lab[0] == 'K' || lab[0] == 'G')
  {
    GradeMapsInverse();
    LabelInitial(GradeLabelToNumber[lab]);
  }

  /** Text starting with anything but 'K' or 'G' is no SLP grade label. */
  lemma NotALabel(lab: string)
    requires |lab| >= 1 && lab[0] != 'K' && lab[0] != 'G'
    ensures lab !in GradeLabelToNumber
  {
    if lab in GradeLabelToNumber {
      KnownLabelInitial(lab);
    }
  }

  /** `_display_grade_label`: SLP labels are kept, an RMA code becomes the
      SLP label of its grade, and anything else is kept. */
  function DisplayGradeLabel(lab: string): string
  {
    if lab in GradeLabelToNumber then lab
    else match RmaNumberOf(lab)
      case Some(n) => GradeNumberToLabel[n]
      case None => lab
  }

  /** The text after leading whitespace. */
  function SkipSpaces(s: string): (r: string)
    ensures |r| <= |s| && r == s[|s| - |r|..]
    ensures r == "" || !IsSpace(r[0])
    decreases |s|
  {
    if |s| > 0 && IsSpace(s[0]) then SkipSpaces(s[1..]) else s
  }

  /** The text up to the first whitespace character. */
  function FirstWord(s: string): (r: string)
    ensures |r| <= |s| && r == s[..|r|]
    ensures forall i :: 0 <= i < |r| ==> !IsSpace(s[i])
    ensures |r| == |s| || IsSpace(s[|r|])
    decreases |s|
  {
    if |s| == 0 || IsSpace(s[0]) then ""
    else
      var rest := FirstWord(s[1..]);
      assert [s[0]] + s[1..][..|rest|] == s[..|rest| + 1];
      [s[0]] + rest
  }

  /** `(label or "").lower().strip()`. */
  function Normalised(lab: string): string
  {
    Trim(Lower(lab))
  }

  /** The number `int(lower.split()[1])` reads from a label that starts with
      "grade ", or None where Python raises. */
  function GradeWordNumber(lower: string): Option<int>
    requires StartsWith(lower, "grade ")
  {
    var word := FirstWord(SkipSpaces(lower[6..]));
    if word == "" then None else ParseIntStrict(word)
  }

  /** The ordering key for labels that are not known grades. */
  const UnknownGrade: int := 999

  /** `_grade_number_for_label`. */
  function GradeNumberForLabel(lab: string): (r: int)
    ensures (lab !in GradeLabelToNumber && RmaNumberOf(lab).None? && !StartsWith(Normalised(lab), "grade ") &&
      Normalised(lab) != "kinder") ==> r == UnknownGrade
  {
    if lab in GradeLabelToNumber then GradeLabelToNumber[lab]
    else match RmaNumberOf(lab)
      case Some(n) => n
      case None =>
        var lower := Normalised(lab);
        if StartsWith(lower, "grade ") then
          match GradeWordNumber(lower)
          case Some(n) => n
          case None => UnknownGrade
        else if lower == "kinder" then 0
        else UnknownGrade
  }

  /** Each SLP grade label reads back as its own grade. */
  lemma SlpLabelNumber(n: int)
    requires IsGradeNumber(n)
    ensures GradeNumberForLabel(GradeNumberToLabel[n]) == n
  {
    GradeMapsInverse();
  }

  /** Each RMA code reads back as its own grade. */
  lemma RmaCodeNumber(n: int)
    requires HasRmaCode(n)
    ensures GradeNumberForLabel(RmaCodes[n]) == n
  {
    RmaCodeShape(n);
    NotALabel(RmaCodes[n]);
    RmaNumberOfCode(n);
  }

  lemma LowerOfLowered(s: string)
    requires forall i :: 0 <= i < |s| ==> !('A' <= s[i] <= 'Z')
    ensures Lower(s) == s
  {
  }

  lemma {:induction false} FirstWordWhole(s: string)
    requires forall i :: 0 <= i < |s| ==> !IsSpace(s[i])
    ensures FirstWord(s) == s
    decreases |s|
  {
    if |s| > 0 {
      FirstWordWhole(s[1..]);
    }
  }

  /** "grade N" reads as N. */
  lemma SpelledGradeNumber(n: nat)
    ensures GradeNumberForLabel("grade " + NatToString(n)) == n
  {
    var d := NatToString(n);
    var lab := "grade " + d;
    NotALabel(lab);
    RmaFindAbsent(lab, 0);
    SpelledNormalised(d);
    assert lab[6..] == d;
    assert GradeWordNumber(lab) == Some(n as int) by {
      assert !IsSpace(d[0]);
      FirstWordWhole(d);
      StrictOfDigits(d);
      DigitsOfNat(n);
    }
  }

  lemma SpelledNormalised(d: string)
    requires |d| >= 1 && AllDigits(d)
    ensures Normalised("grade " + d) == "grade " + d
    ensures StartsWith("grade " + d, "grade ")
  {
    var lab := "grade " + d;
    LowerOfLowered(lab);
    assert !IsSpace(lab[0]) && !IsSpace(lab[|lab| - 1]) by {
      assert lab[|lab| - 1] == d[|d| - 1];
    }
    TrimmedFixed(lab);
    assert lab[..6] == "grade ";
  }

  /** "kinder", in any letter case, reads as 0. */
  lemma KinderNumber(lab: string)
    requires Normalised(lab) == "kinder" && lab !in GradeLabelToNumber && RmaNumberOf(lab).None?
    ensures GradeNumberForLabel(lab) == 0
  {
    assert "kinder"[0] != "grade "[0];
  }

  lemma KinderWord()
    ensures GradeNumberForLabel("kinder") == 0
  {
    NotALabel("kinder");
    RmaFindAbsent("kinder", 0);
    LowerOfLowered("kinder");
    TrimmedFixed("kinder");
    KinderNumber("kinder");
  }

  /** Showing a label as its SLP grade label keeps its ordering key. */
  lemma DisplayKeepsOrder(lab: string)
    ensures GradeNumberForLabel(DisplayGradeLabel(lab)) == GradeNumberForLabel(lab)
  {
    if lab !in GradeLabelToNumber && RmaNumberOf(lab).Some? {
      SlpLabelNumber(RmaNumberOf(lab).value);
    }
  }

  /** Displayed RMA codes become SLP grade labels; other labels stay. */
  lemma DisplayOfCode(n: int)
    requires HasRmaCode(n)
    ensures DisplayGradeLabel(RmaCodes[n]) == GradeNumberToLabel[n]
  {
    RmaCodeShape(n);
    NotALabel(RmaCodes[n]);
    RmaNumberOfCode(n);
  }

  // ---------------------------------------------------------------------
  // Grade-span labels of organizations/models.py

  function SpanText(a: int, b: int): string
  {
    "G" + IntToString(a) + "-G" + IntToString(b)
  }

  /** `SchoolProfile.grade_span_label`. */
  function ProfileGradeSpanLabel(p: SchoolProfile): (r: string)
    ensures r == "" <==> p.spanStart.None? || p.spanEnd.None?
  {
    if p.spanStart.None? || p.spanEnd.None? then "" else SpanText(p.spanStart.value, p.spanEnd.value)
  }

  /** `School.grade_span_label`. */
  function SchoolGradeSpanLabel(s: School): string
  {
    match s.profile
    case Some(p) =>
      if p.spanStart.Some? && p.spanEnd.Some? then SpanText(p.spanStart.value, p.spanEnd.value)
      else if s.minGrade.None? || s.maxGrade.None? then ""
      else SpanText(s.minGrade.value, s.maxGrade.value)
    case None =>
      if s.minGrade.None? || s.maxGrade.None? then "" else SpanText(s.minGrade.value, s.maxGrade.value)
  }

  /** The label a school shows is exactly the span the grade derivation uses:
      empty when there is none, else "G<start>-G<end>" of that span. */
  lemma SpanLabelAgrees(s: School)
    ensures SchoolGradeSpanLabel(s) == "" <==> ResolveGradeSpan(Some(s)).None?
    ensures ResolveGradeSpan(Some(s)).Some? ==>
      SchoolGradeSpanLabel(s) == SpanText(ResolveGradeSpan(Some(s)).value.0, ResolveGradeSpan(Some(s)).value.1)
    ensures s.profile.Some? && ProfileSpan(s).Some? ==> SchoolGradeSpanLabel(s) == ProfileGradeSpanLabel(s.profile.value)
  {
  }
}
