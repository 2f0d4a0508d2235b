// The per-section completion a submission reports (`get_section_completion`)
// and the overall figures built from it (`get_overall_progress`,
// `get_completion_summary`). The counts the sections read from the database
// are parameters.
module SubmissionProgress {
  import opened Wrappers
  import opened Text
  import opened ServerRows

  /** A section's `status` value. */
  datatype Phase = Complete | InProgress | NotStarted | Incomplete

  /** The stored text of a phase. */
  function PhaseText(p: Phase): string
  {
    match p
    case Complete => "complete"
    case InProgress => "in-progress"
    case NotStarted => "not-started"
    case Incomplete => "incomplete"
  }

  /** One entry of the `sections` dictionary. */
  datatype Section = Section(complete: bool, status: Phase, detail: string, progress: nat)

  /** A `Form1PctRow` as completion reads it. */
  datatype PctRow = PctRow(area: string, percent: Option<nat>, actionPoints: string)

  /** A `Form1SupervisionRow`. */
  datatype SupervisionRow = SupervisionRow(gradeLabel: string, totalTeachers: nat, supervised: nat, support: string, result: string)

  /** What the sections count: the projects and their activities, the
      implementation rows of the submission's header (None when it has
      none), the SLP rows, the reading and RMA row and intervention counts,
      and the supervision rows. */
  datatype Inputs = Inputs(
    projects: nat,
    activities: nat,
    pct: Option<seq<PctRow>>,
    slp: seq<SlpRow>,
    crla: nat,
    philiri: nat,
    readingInterventions: nat,
    rmaRows: nat,
    rmaInterventions: nat,
    supervision: seq<SupervisionRow>)

  const Untouched: Section := Section(false, NotStarted, "Not started", 0)

  /** `int(done / total * 100)`, or 0 without rows, on exact integers. */
  function Percent(done: nat, total: nat): (p: nat)
    requires done <= total
    ensures p <= 100
    ensures p == 100 <==> total > 0 && done == total
  {
    if total > 0 && done < total then
      PercentBelow(done, total);
      done * 100 / total
    else if total > 0 then 100
    else 0
  }

  lemma PercentBelow(done: nat, total: nat)
    requires done < total
    ensures done * 100 / total < 100
  {
    var q := done * 100 / total;
    assert q * total <= done * 100;
    assert done * 100 < total * 100;
    assert (100 - q) * total > 0;
  }

  /** A section graded by its percentage: complete at 100, in progress above
      0, not started at 0. */
  function Graded(progress: nat, detail: string): Section
  {
    Section(progress == 100,
      if progress == 100 then Complete else if progress > 0 then InProgress else NotStarted,
      detail, progress)
  }

  function Plural(n: nat, one: string, many: string): string
  {
    if n != 1 then many else one
  }

  function ProjectsSection(projects: nat, activities: nat): Section
  {
    var done := projects > 0 && activities > 0;
    Section(done, if done then Complete else Incomplete,
      NatToString(projects) + " project" + Plural(projects, "", "s") + ", " +
      NatToString(activities) + " activit" + Plural(activities, "y", "ies"),
      if done then 100 else 0)
  }

  /** An implementation row counts once it has a percent or action points. */
  predicate PctFilled(r: PctRow)
  {
    r.percent.Some? || r.actionPoints != ""
  }

  function CountPctFilled(rows: seq<PctRow>): (n: nat)
    ensures n <= |rows|
  {
    if rows == [] then 0 else (if PctFilled(rows[0]) then 1 else 0) + CountPctFilled(rows[1..])
  }

  /** The implementation section as the header relation is declared: no
      header is not started, otherwise the share of filled rows. */
  function PctSection(header: Option<seq<PctRow>>): Section
  {
    match header
    case None => Untouched
    case Some(rows) =>
      var filled := CountPctFilled(rows);
      Graded(Percent(filled, |rows|), NatToString(filled) + " of " + NatToString(|rows|) + " areas completed")
  }

  /** The implementation section as written: the attribute it reads,
      `form1_pct_header`, is not the relation's name (`form1_pct`), so the
      lookup raises and the `except` branch always answers. */
  function PctSectionAsWritten(header: Option<seq<PctRow>>): (s: Section)
  {
    Untouched
  }

  /** One filled-in row already separates the two: the relation gives a
      complete section, the attribute read as written gives not started. */
  lemma PctSectionDiffers()
    ensures var header := Some([PctRow("access", Some(80), "")]);
      PctSection(header).complete && PctSection(header).progress == 100 &&
      PctSectionAsWritten(header).status == NotStarted && PctSectionAsWritten(header).progress == 0
  {
    var rows := [PctRow("access", Some(80), "")];
    assert CountPctFilled(rows) == 1 by {
      assert rows[1..] == [];
    }
  }

  /** An offered SLP row is complete with some proficiency count and a
      non-blank LLC or intervention. */
  predicate SlpDone(r: SlpRow)
  {
    (r.dnme != 0 || r.fs != 0 || r.s != 0 || r.vs != 0 || r.o != 0) &&
    (!IsBlank(r.topThreeLlc) || !IsBlank(r.interventionPlan))
  }

  function CountOffered(rows: seq<SlpRow>): (n: nat)
    ensures n <= |rows|
    decreases |rows|
  {
    if rows == [] then 0
    else CountOffered(rows[..|rows| - 1]) + (if rows[|rows| - 1].isOffered then 1 else 0)
  }

  function CountSlpDone(rows: seq<SlpRow>): (n: nat)
    ensures n <= CountOffered(rows)
    decreases |rows|
  {
    if rows == [] then 0
    else
      var r := rows[|rows| - 1];
      CountSlpDone(rows[..|rows| - 1]) + (if r.isOffered && SlpDone(r) then 1 else 0)
  }

  lemma SlpCountsSnoc(rows: seq<SlpRow>, i: nat)
    requires i < |rows|
    ensures CountOffered(rows[..i + 1]) == CountOffered(rows[..i]) + (if rows[i].isOffered then 1 else 0)
    ensures CountSlpDone(rows[..i + 1]) == CountSlpDone(rows[..i]) + (if rows[i].isOffered && SlpDone(rows[i]) then 1 else 0)
  {
    assert rows[..i + 1][..i] == rows[..i];
  }

  function SlpSection(rows: seq<SlpRow>): Section
  {
    var offered := CountOffered(rows);
    if offered == 0 then Section(false, NotStarted, "No subjects marked as offered", 0)
    else
      var done := CountSlpDone(rows);
      Graded(Percent(done, offered), NatToString(done) + " of " + NatToString(offered) + " offered subjects completed")
  }

  function ReadingSection(crla: nat, philiri: nat, interventions: nat): Section
  {
    var hasData := crla > 0 || philiri > 0;
    if hasData && interventions > 0 then
      Section(true, Complete,
        "CRLA: " + NatToString(crla) + ", PHILIRI: " + NatToString(philiri) + ", Interventions: " + NatToString(interventions), 100)
    else if hasData then
      Section(false, InProgress, "Assessment data entered, " + NatToString(interventions) + "/5 interventions", 60)
    else Untouched
  }

  function RmaSection(rows: nat, interventions: nat): Section
  {
    if rows > 0 && interventions > 0 then
      Section(true, Complete, NatToString(rows) + " grade levels, " + NatToString(interventions) + " interventions", 100)
    else if rows > 0 then
      Section(false, InProgress, NatToString(rows) + " grade levels, " + NatToString(interventions) + "/5 interventions", 60)
    else Untouched
  }

  /** A supervision row with observations, support or a result. */
  predicate SupervisionFilled(r: SupervisionRow)
  {
    r.supervised > 0 || !IsBlank(r.support) || !IsBlank(r.result)
  }

  predicate HasSupervisionData(rows: seq<SupervisionRow>)
  {
    exists i :: 0 <= i < |rows| && SupervisionFilled(rows[i])
  }

  function SupervisionSection(rows: seq<SupervisionRow>): Section
  {
    var n := |rows|;
    if HasSupervisionData(rows) then Section(true, Complete, NatToString(n) + " supervision records", 100)
    else if n > 0 then Section(false, InProgress, NatToString(n) + " records (incomplete)", 50)
    else Untouched
  }

  /** `get_section_completion` as written, in the dictionary's insertion
      order; its implementation section is always the `except` answer. */
  function Sections(x: Inputs): seq<(string, Section)>
  {
    [("projects", ProjectsSection(x.projects, x.activities)),
     ("pct", PctSectionAsWritten(x.pct)),
     ("slp", SlpSection(x.slp)),
     ("reading", ReadingSection(x.crla, x.philiri, x.readingInterventions)),
     ("rma", RmaSection(x.rmaRows, x.rmaInterventions)),
     ("supervision", SupervisionSection(x.supervision))]
  }

  /** `get_section_completion` as evidently intended, the implementation
      section graded from the header's rows. */
  function IntendedSections(x: Inputs): (ss: seq<(string, Section)>)
    ensures |ss| == |Sections(x)| && ss[1] == ("pct", PctSection(x.pct))
    ensures forall i :: 0 <= i < |ss| && i != 1 ==> ss[i] == Sections(x)[i]
  {
    Sections(x)[1 := ("pct", PctSection(x.pct))]
  }

  /** The SLP pass: the offered rows and how many of them are complete. */
  method CountSlp(rows: seq<SlpRow>) returns (offered: nat, done: nat)
    ensures offered == CountOffered(rows) && done == CountSlpDone(rows)
  {
    offered, done := 0, 0;
    for i := 0 to |rows|
      invariant offered == CountOffered(rows[..i]) && done == CountSlpDone(rows[..i])
    {
      SlpCountsSnoc(rows, i);
      if rows[i].isOffered {
        offered := offered + 1;
        if SlpDone(rows[i]) {
          done := done + 1;
        }
      }
    }
    assert rows[..|rows|] == rows;
  }

  /** The supervision pass, which stops at the first filled row. */
  method FindSupervisionData(rows: seq<SupervisionRow>) returns (found: bool)
    ensures found == HasSupervisionData(rows)
  {
    for i := 0 to |rows|
      invariant forall j :: 0 <= j < i ==> !SupervisionFilled(rows[j])
    {
      if SupervisionFilled(rows[i]) {
        return true;
      }
    }
    return false;
  }

  method GetSectionCompletion(x: Inputs) returns (sections: seq<(string, Section)>)
    ensures sections == Sections(x)
  {
    sections := [("projects", ProjectsSection(x.projects, x.activities))];
    sections := sections + [("pct", PctSectionAsWritten(x.pct))];
    var offered, done := CountSlp(x.slp);
    var slp := if offered == 0 then Section(false, NotStarted, "No subjects marked as offered", 0)
      else Graded(Percent(done, offered), NatToString(done) + " of " + NatToString(offered) + " offered subjects completed");
    sections := sections + [("slp", slp)];
    sections := sections + [("reading", ReadingSection(x.crla, x.philiri, x.readingInterventions))];
    sections := sections + [("rma", RmaSection(x.rmaRows, x.rmaInterventions))];
    var found := FindSupervisionData(x.supervision);
    var n := |x.supervision|;
    var supervision := if found then Section(true, Complete, NatToString(n) + " supervision records", 100)
      else if n > 0 then Section(false, InProgress, NatToString(n) + " records (incomplete)", 50)
      else Untouched;
    sections := sections + [("supervision", supervision)];
  }

  // ---------------------------------------------------------------------
  // Overall figures

  function SumProgress(ss: seq<(string, Section)>): nat
  {
    if ss == [] then 0 else ss[0].1.progress + SumProgress(ss[1..])
  }

  /** `get_overall_progress`: the integer mean of the section progresses. */
  function OverallProgress(ss: seq<(string, Section)>): nat
  {
    if |ss| > 0 then SumProgress(ss) / |ss| else 0
  }

  function CountComplete(ss: seq<(string, Section)>): (n: nat)
    ensures n <= |ss|
  {
    if ss == [] then 0 else (if ss[0].1.complete then 1 else 0) + CountComplete(ss[1..])
  }

  function CountStatus(ss: seq<(string, Section)>, status: Phase): (n: nat)
    ensures n <= |ss|
  {
    if ss == [] then 0 else (if ss[0].1.status == status then 1 else 0) + CountStatus(ss[1..], status)
  }

  datatype Summary = Summary(overall: nat, completed: nat, inProgress: nat, notStarted: nat, total: nat)

  /** The summary figures over a list of sections. */
  function SummaryOf(ss: seq<(string, Section)>): Summary
  {
    Summary(OverallProgress(ss), CountComplete(ss), CountStatus(ss, InProgress), CountStatus(ss, NotStarted), |ss|)
  }

  /** `get_completion_summary`, over the sections as written. */
  function CompletionSummary(x: Inputs): Summary
  {
    SummaryOf(Sections(x))
  }

  /** A well-graded section: progress within 0..100, complete exactly at
      100, and a status that agrees. */
  predicate WellGraded(s: Section)
  {
    s.progress <= 100 &&
    (s.complete <==> s.progress == 100) &&
    (s.status == Complete <==> s.complete) &&
    (s.status == InProgress ==> 0 < s.progress < 100) &&
    (s.status == NotStarted ==> s.progress == 0)
  }

  lemma GradedWellGraded(progress: nat, detail: string)
    requires progress <= 100
    ensures WellGraded(Graded(progress, detail))
  {
  }

  lemma ProjectsGraded(projects: nat, activities: nat)
    ensures WellGraded(ProjectsSection(projects, activities))
    ensures ProjectsSection(projects, activities).status in {Complete, Incomplete}
  {
  }

  lemma PctGraded(header: Option<seq<PctRow>>)
    ensures WellGraded(PctSection(header)) && PctSection(header).status != Incomplete
  {
    match header
    case None =>
    case Some(rows) =>
      var filled := CountPctFilled(rows);
      GradedWellGraded(Percent(filled, |rows|), NatToString(filled) + " of " + NatToString(|rows|) + " areas completed");
  }

  lemma PctAsWrittenGraded(header: Option<seq<PctRow>>)
    ensures WellGraded(PctSectionAsWritten(header)) && PctSectionAsWritten(header).status == NotStarted
  {
  }

  lemma SlpGraded(rows: seq<SlpRow>)
    ensures WellGraded(SlpSection(rows)) && SlpSection(rows).status != Incomplete
  {
    var offered := CountOffered(rows);
    if offered > 0 {
      var done := CountSlpDone(rows);
      GradedWellGraded(Percent(done, offered), NatToString(done) + " of " + NatToString(offered) + " offered subjects completed");
    }
  }

  lemma OthersGraded(x: Inputs)
    ensures WellGraded(ReadingSection(x.crla, x.philiri, x.readingInterventions))
    ensures WellGraded(RmaSection(x.rmaRows, x.rmaInterventions))
    ensures WellGraded(SupervisionSection(x.supervision))
    ensures ReadingSection(x.crla, x.philiri, x.readingInterventions).status != Incomplete
    ensures RmaSection(x.rmaRows, x.rmaInterventions).status != Incomplete
    ensures SupervisionSection(x.supervision).status != Incomplete
  {
  }

  /** The sections as written are well graded, only the projects section
      can be incomplete, and the implementation section never starts. */
  lemma SectionsWellGraded(x: Inputs)
    ensures |Sections(x)| == 6
    ensures WellGraded(Sections(x)[0].1) && WellGraded(Sections(x)[1].1) && WellGraded(Sections(x)[2].1)
    ensures WellGraded(Sections(x)[3].1) && WellGraded(Sections(x)[4].1) && WellGraded(Sections(x)[5].1)
    ensures Sections(x)[0].1.status in {Complete, Incomplete}
    ensures Sections(x)[1].1.status == NotStarted && Sections(x)[2].1.status != Incomplete
    ensures Sections(x)[3].1.status != Incomplete && Sections(x)[4].1.status != Incomplete
    ensures Sections(x)[5].1.status != Incomplete
  {
    ProjectsGraded(x.projects, x.activities);
    PctAsWrittenGraded(x.pct);
    SlpGraded(x.slp);
    OthersGraded(x);
  }

  /** The intended sections have the same shape, the implementation
      section graded from its rows. */
  lemma IntendedSectionsWellGraded(x: Inputs)
    ensures |IntendedSections(x)| == 6
    ensures forall i :: 0 <= i < 6 ==> WellGraded(IntendedSections(x)[i].1)
    ensures IntendedSections(x)[0].1.status in {Complete, Incomplete}
    ensures forall i :: 1 <= i < 6 ==> IntendedSections(x)[i].1.status != Incomplete
  {
    SectionsWellGraded(x);
    PctGraded(x.pct);
  }

  lemma {:induction false} SumBound(ss: seq<(string, Section)>)
    requires forall i :: 0 <= i < |ss| ==> ss[i].1.progress <= 100
    ensures SumProgress(ss) <= 100 * |ss|
  {
    if ss != [] {
      SumBound(ss[1..]);
    }
  }

  /** Every section is complete, in progress, not started or (the projects
      section only) incomplete, so the three counts miss exactly the
      sections marked incomplete. */
  lemma {:induction false} CountsPartition(ss: seq<(string, Section)>)
    requires forall i :: 0 <= i < |ss| ==> WellGraded(ss[i].1)
    ensures CountComplete(ss) + CountStatus(ss, InProgress) + CountStatus(ss, NotStarted) + CountStatus(ss, Incomplete) == |ss|
  {
    if ss != [] {
      CountsPartition(ss[1..]);
    }
  }

  lemma {:induction false} CountStatusTail(ss: seq<(string, Section)>, status: Phase)
    requires ss != [] && forall i :: 1 <= i < |ss| ==> ss[i].1.status != status
    ensures CountStatus(ss, status) == if ss[0].1.status == status then 1 else 0
  {
    var t := ss[1..];
    assert forall i :: 0 <= i < |t| ==> t[i].1.status != status;
    CountStatusNone(t, status);
  }

  lemma {:induction false} CountStatusNone(ss: seq<(string, Section)>, status: Phase)
    requires forall i :: 0 <= i < |ss| ==> ss[i].1.status != status
    ensures CountStatus(ss, status) == 0
  {
    if ss != [] {
      CountStatusNone(ss[1..], status);
    }
  }

  /** The counts over six well-graded sections of which only the first may
      be marked incomplete. */
  lemma SixSections(ss: seq<(string, Section)>)
    requires |ss| == 6
    requires WellGraded(ss[0].1) && WellGraded(ss[1].1) && WellGraded(ss[2].1)
    requires WellGraded(ss[3].1) && WellGraded(ss[4].1) && WellGraded(ss[5].1)
    requires ss[1].1.status != Incomplete && ss[2].1.status != Incomplete
    requires ss[3].1.status != Incomplete && ss[4].1.status != Incomplete
    requires ss[5].1.status != Incomplete
    requires ss[0].1.status in {Complete, Incomplete}
    ensures OverallProgress(ss) <= 100
    ensures CountComplete(ss) + CountStatus(ss, InProgress) + CountStatus(ss, NotStarted) ==
      6 - (if ss[0].1.complete then 0 else 1)
  {
    assert forall i :: 0 <= i < 6 ==> WellGraded(ss[i].1);
    assert forall i :: 1 <= i < 6 ==> ss[i].1.status != Incomplete;
    SumBound(ss);
    CountsPartition(ss);
    CountStatusTail(ss, Incomplete);
  }

  /** The overall progress lies in 0..100, there are six sections, and the
      completed, in-progress and not-started counts add up to the section
      count, less one while the projects section is incomplete. */
  lemma SummaryMeaning(x: Inputs)
    ensures var s := CompletionSummary(x);
      s.overall <= 100 && s.total == 6 &&
      s.completed + s.inProgress + s.notStarted == s.total - (if ProjectsSection(x.projects, x.activities).complete then 0 else 1)
  {
    SectionsWellGraded(x);
    SixSections(Sections(x));
  }

  /** The same figures over the intended sections. */
  lemma IntendedSummaryMeaning(x: Inputs)
    ensures var s := SummaryOf(IntendedSections(x));
      s.overall <= 100 && s.total == 6 &&
      s.completed + s.inProgress + s.notStarted == s.total - (if ProjectsSection(x.projects, x.activities).complete then 0 else 1)
  {
    var ss := IntendedSections(x);
    IntendedSectionsWellGraded(x);
    assert ss[0] == Sections(x)[0];
    SixSections(ss);
  }
}
