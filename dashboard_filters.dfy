// The KPI dashboard's clean-up of its query parameters: every choice the
// page offers is reset to its default when the request names something
// else, so the rest of the view only ever sees values it knows.
module DashboardFilters {
  import opened Lists
  import DashboardViews

  const Quarters: seq<string> := ["all", "Q1", "Q2", "Q3", "Q4"]
  const KpiParts: seq<string> :=
    ["all", "implementation", "slp", "reading", "reading_crla", "reading_philiri", "rma", "supervision", "adm"]
  const SortDirs: seq<string> := ["asc", "desc"]
  const SchoolLevels: seq<string> := ["all", "elementary", "secondary"]
  const SlpModes: seq<string> := ["summary", "detail"]
  const Thresholds: seq<string> := ["all", "high", "medium", "low"]
  const InterventionChoices: seq<string> := ["all", "yes", "no"]
  const ImplFocuses: seq<string> := ["access", "quality", "equity", "enabling"]
  const ReadingTypes: seq<string> := ["crla", "philiri"]
  const Timings: seq<string> := ["bosy", "mosy", "eosy"]
  const LegacyGradeGroups: seq<string> := ["k-3", "4-6", "7-9", "10-12"]

  /** v when it is one of the allowed values, else the default. */
  function OneOf(v: string, allowed: seq<string>, default: string): (r: string)
    requires default in allowed
    ensures r in allowed
    ensures v in allowed ==> r == v
    ensures v !in allowed ==> r == default
  {
    if v in allowed then v else default
  }

  /** The query parameters the dashboard reads, as the request gives them
      (the view's own defaults already filled in for missing ones; an
      absent `assessment_timing` is ""). */
  datatype Query = Query(
    quarter: string, kpiPart: string, readingType: string, timing: string,
    rmaGrade: string, sortDir: string, schoolLevel: string, slpMode: string,
    threshold: string, hasIntervention: string, implFocus: string, sortBy: string,
    slp: SlpChoice)

  /** The SLP detail view's subject and grade choices. */
  datatype SlpChoice = SlpChoice(subject: string, subjects: seq<string>, gradeChoice: string, grades: seq<string>)

  /** What the view knows when it validates: the subject codes and grade
      labels with data, the RMA grade codes, and the sort keys of the
      current view. */
  datatype Known = Known(subjects: seq<string>, grades: seq<string>, rmaGrades: set<string>, sortKeys: set<string>)

  function InList(xs: seq<string>): string -> bool
  {
    x => x in xs
  }

  /** The subject and grade checks, which only apply in the SLP view. */
  function CleanSlp(c: SlpChoice, isSlp: bool, known: Known): (r: SlpChoice)
    ensures !isSlp ==> r == c
    ensures isSlp && c.subjects == [] && c.subject != "" && c.subject != "all" ==>
      (r.subject == c.subject <==> c.subject in known.subjects)
    ensures isSlp ==> forall s :: s in r.subjects <==> s in c.subjects && s in known.subjects
    ensures isSlp ==> forall g :: g in r.grades <==> g in c.grades && g in known.grades
    ensures r.subject == c.subject || r.subject == "all"
    ensures r.gradeChoice == c.gradeChoice || r.gradeChoice == "all"
    ensures isSlp && c.gradeChoice != "" && c.gradeChoice != "all" ==>
      (r.gradeChoice == c.gradeChoice <==> c.gradeChoice in LegacyGradeGroups || c.gradeChoice in known.grades)
  {
    FilterMeaning(c.subjects, InList(known.subjects));
    FilterMeaning(c.grades, InList(known.grades));
    if !isSlp then c
    else
      var subject :=
        if c.subject != "" && c.subject != "all" && c.subjects == [] && c.subject !in known.subjects
        then "all" else c.subject;
      var subjects := if c.subjects != [] then Filter(c.subjects, InList(known.subjects)) else c.subjects;
      var gradeChoice :=
        if c.gradeChoice != "" && c.gradeChoice != "all" && c.gradeChoice !in LegacyGradeGroups &&
          c.gradeChoice !in known.grades
        then "all" else c.gradeChoice;
      var grades := if c.grades != [] then Filter(c.grades, InList(known.grades)) else c.grades;
      SlpChoice(subject, subjects, gradeChoice, grades)
  }

  /** The reading type after the KPI part has had its say: the CRLA and
      PHILIRI parts force their own. */
  function ReadingTypeFor(kpiPart: string, readingType: string): (r: string)
    requires readingType in ReadingTypes
    ensures r in ReadingTypes
    ensures kpiPart == "reading_crla" ==> r == "crla"
    ensures kpiPart == "reading_philiri" ==> r == "philiri"
    ensures kpiPart != "reading_crla" && kpiPart != "reading_philiri" ==> r == readingType
  {
    if kpiPart == "reading_crla" then "crla"
    else if kpiPart == "reading_philiri" then "philiri"
    else readingType
  }

  /** The assessment period: the explicit one when it is a period, else the
      one the (validated) quarter stands for. */
  function TimingFor(raw: string, quarter: string): (t: string)
    ensures t in Timings
    ensures raw in Timings ==> t == raw
    ensures raw !in Timings ==> t == DashboardViews.TimingFromQuarter(quarter)
  {
    var derived := DashboardViews.TimingFromQuarter(quarter);
    var first := if raw != "" then raw else derived;
    if first in Timings then first else derived
  }

  /** The validation in `smme_kpi_dashboard`, in its order. */
  function Sanitize(q: Query, known: Known): (r: Query)
  {
    var quarter := OneOf(q.quarter, Quarters, "all");
    var kpiPart := OneOf(q.kpiPart, KpiParts, "slp");
    var slp := CleanSlp(q.slp, kpiPart == "slp", known);
    var readingType := ReadingTypeFor(kpiPart, OneOf(q.readingType, ReadingTypes, "crla"));
    var rmaGrade :=
      if kpiPart == "rma" && q.rmaGrade !in known.rmaGrades && q.rmaGrade != "all" then "all" else q.rmaGrade;
    var sortBy := if q.sortBy in known.sortKeys then q.sortBy else "school_name";
    Query(quarter, kpiPart, readingType, TimingFor(q.timing, quarter), rmaGrade,
      OneOf(q.sortDir, SortDirs, "asc"), OneOf(q.schoolLevel, SchoolLevels, "all"),
      OneOf(q.slpMode, SlpModes, "summary"), OneOf(q.threshold, Thresholds, "all"),
      OneOf(q.hasIntervention, InterventionChoices, "all"), OneOf(q.implFocus, ImplFocuses, "access"),
      sortBy, slp)
  }

  /** The choices the page offers. `Valid` leaves the SLP subject out: see
      SubjectFilterSurvives. */
  predicate Valid(q: Query, known: Known)
  {
    q.quarter in Quarters && q.kpiPart in KpiParts && q.readingType in ReadingTypes &&
    q.timing in Timings && q.sortDir in SortDirs && q.schoolLevel in SchoolLevels &&
    q.slpMode in SlpModes && q.threshold in Thresholds && q.hasIntervention in InterventionChoices &&
    q.implFocus in ImplFocuses &&
    (q.kpiPart == "reading_crla" ==> q.readingType == "crla") &&
    (q.kpiPart == "reading_philiri" ==> q.readingType == "philiri") &&
    (q.kpiPart == "rma" ==> q.rmaGrade in known.rmaGrades || q.rmaGrade == "all") &&
    (q.sortBy in known.sortKeys || q.sortBy == "school_name") &&
    (q.kpiPart == "slp" ==>
      (forall s :: s in q.slp.subjects ==> s in known.subjects) &&
      (forall g :: g in q.slp.grades ==> g in known.grades) &&
      (q.slp.gradeChoice in {"", "all"} || q.slp.gradeChoice in LegacyGradeGroups || q.slp.gradeChoice in known.grades))
  }

  /** After the clean-up every choice is one the page offers. */
  lemma SanitizeValid(q: Query, known: Known)
    ensures Valid(Sanitize(q, known), known)
  {
  }

  /** The clean-up resets only what is out of range: on a valid query whose
      SLP subject is known (or unused) it changes nothing. */
  lemma SanitizeKeepsValid(q: Query, known: Known)
    requires Valid(q, known)
    requires q.kpiPart == "slp" && q.slp.subjects == [] && q.slp.subject !in {"", "all"} ==>
      q.slp.subject in known.subjects
    ensures Sanitize(q, known) == q
  {
    var r := Sanitize(q, known);
    if q.kpiPart == "slp" {
      FilterAllKept(q.slp.subjects, known.subjects);
      FilterAllKept(q.slp.grades, known.grades);
    }
    assert r.slp == q.slp;
  }

  /** A sort key the view does not offer falls back to sorting by school
      name; an offered one, or the school name itself, is kept. */
  lemma SortKeyReset(q: Query, known: Known)
    ensures Sanitize(q, known).sortBy == q.sortBy <==> q.sortBy in known.sortKeys || q.sortBy == "school_name"
    ensures q.sortBy !in known.sortKeys ==> Sanitize(q, known).sortBy == "school_name"
  {
  }

  lemma {:induction false} FilterAllKept(xs: seq<string>, allowed: seq<string>)
    requires forall x :: x in xs ==> x in allowed
    ensures Filter(xs, InList(allowed)) == xs
    decreases |xs|
  {
    if xs != [] {
      var init := xs[..|xs| - 1];
      assert forall x :: x in init ==> x in xs;
      FilterAllKept(init, allowed);
      assert xs[|xs| - 1] in xs;
      assert xs == init + [xs[|xs| - 1]];
    }
  }

  /** The single-subject filter is checked only while no subjects are
      ticked, and before the ticked ones are cleaned: ticking only unknown
      subjects lets an unknown single subject through, and cleaning the
      result again then resets it. */
  lemma SubjectFilterSurvives(q: Query, known: Known)
    requires q.kpiPart == "slp" && q.slp.subject == "x" && q.slp.subjects == ["y"] && known.subjects == []
    ensures Sanitize(q, known).slp.subject == "x" && Sanitize(q, known).slp.subjects == []
    ensures Sanitize(Sanitize(q, known), known).slp.subject == "all"
  {
    assert Filter(["y"], InList([])) == [];
  }
}
