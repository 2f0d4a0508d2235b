// The SMME KPI dashboard's page context: the sections a user may pick and
// the one selected, and for each district of the schools in scope the
// schools with a completed report for the period, the learners not meeting
// expectations against the enrolment, the Phil-IRI band-10 count, the ADM
// records and the schools whose report names a grade outside the school's
// span; then the lines sorted by district name and their totals.
module KpiContext {
  import opened Wrappers
  import opened Text
  import opened Lists
  import opened Sorting
  import opened Grouping
  import opened SubmissionLifecycle
  import DashboardGaps
  import DashboardViews

  // ---------------------------------------------------------------------
  // Sections

  /** Some allowed code equals c once both are upper-cased: the
      case-insensitive `^(a|b|...)$` filter. */
  predicate MatchesSome(allowed: set<string>, c: string)
  {
    exists a :: a in allowed && Upper(a) == Upper(c)
  }

  function AllowedBy(allowed: set<string>): string -> bool
  {
    (c: string) => MatchesSome(allowed, c)
  }

  function IsSmme(): string -> bool
  {
    (c: string) => c == "smme"
  }

  /** The sections offered, as their codes in name order: every section
      when `restricted` is false (an SGOD admin, or all sections asked for),
      otherwise those the user administers, or the SMME section for a user
      administering none; the SMME section when that leaves nothing. */
  function OfferedSections(sections: seq<string>, restricted: bool, allowed: set<string>): seq<string>
  {
    var listed :=
      if !restricted then sections
      else if allowed != {} then Filter(sections, AllowedBy(allowed))
      else Filter(sections, IsSmme());
    if listed == [] then Filter(sections, IsSmme()) else listed
  }

  /** Some offered section has code c, ignoring case. */
  predicate Offers(listed: seq<string>, c: string)
  {
    exists i :: 0 <= i < |listed| && Upper(listed[i]) == Upper(c)
  }

  /** The selected section: the code asked for when an offered section has
      it, else the first offered section's code, else "smme". */
  function SelectedCode(listed: seq<string>, requested: Option<string>): string
  {
    var kept := if requested.Some? && requested.value != "" && !Offers(listed, requested.value) then None else requested;
    if kept.Some? && kept.value != "" then kept.value
    else if listed != [] then listed[0]
    else "smme"
  }

  /** Only existing sections are offered, a restricted user only those
      they administer or SMME; the selection is an offered code or "smme",
      the code asked for is kept when a section offered has it, and
      otherwise the first section offered is selected. */
  lemma SectionChoice(sections: seq<string>, restricted: bool, allowed: set<string>, requested: Option<string>)
    ensures var listed := OfferedSections(sections, restricted, allowed);
      var code := SelectedCode(listed, requested);
      (forall c :: c in listed ==> c in sections) &&
      (restricted ==> forall c :: c in listed ==> MatchesSome(allowed, c) || c == "smme") &&
      (!restricted && sections != [] ==> listed == sections) &&
      (code == "smme" || Offers(listed, code)) &&
      (requested.Some? && requested.value != "" && Offers(listed, requested.value) ==> code == requested.value) &&
      (requested.Some? && requested.value != "" && !Offers(listed, requested.value) ==>
        code == (if listed != [] then listed[0] else "smme")) &&
      ((requested.None? || requested == Some("")) && listed != [] ==> code == listed[0]) &&
      (listed == [] ==> code == "smme")
  {
    var listed := OfferedSections(sections, restricted, allowed);
    FilterMeaning(sections, AllowedBy(allowed));
    FilterMeaning(sections, IsSmme());
    if listed != [] {
      assert Upper(listed[0]) == Upper(listed[0]);
    }
  }

  // ---------------------------------------------------------------------
  // Schools and their reports

  /** The grade span a school's profile records, where it does. */
  datatype SpanProfile = SpanProfile(gradeSpanStart: Option<int>, gradeSpanEnd: Option<int>)

  /** A school in scope, with its district and the grades it offers. */
  datatype School = School(id: int, districtId: Option<int>, minGrade: Option<int>, maxGrade: Option<int>,
                           profile: Option<SpanProfile>)

  /** One row of a report's SLP table. */
  datatype SlpLine = SlpLine(gradeLabel: Option<string>, dnme: nat, enrolment: nat)

  /** A report with the rows the context reads: the SLP lines, the grade
      labels of the RMA rows, the band-10 counts of the Phil-IRI rows and
      the burn rates of the ADM rows (None where not given). */
  datatype KpiSubmission = KpiSubmission(school: School, sectionCode: string, periodId: int, status: Status,
                                         slp: seq<SlpLine>, rmaLabels: seq<Option<string>>, band10: seq<nat>,
                                         admBurnRates: seq<Option<real>>)

  function DistrictKey(s: School): Option<int>
  {
    s.districtId
  }

  /** The span a report's grades are checked against: the profile's where
      set, else the school's lowest and highest grade. */
  function SpanStart(s: School): Option<int>
  {
    if s.profile.Some? && s.profile.value.gradeSpanStart.Some? then s.profile.value.gradeSpanStart else s.minGrade
  }

  function SpanEnd(s: School): Option<int>
  {
    if s.profile.Some? && s.profile.value.gradeSpanEnd.Some? then s.profile.value.gradeSpanEnd else s.maxGrade
  }

  /** The label names a grade, and the grade is not within lo..hi. */
  predicate Outside(lab: Option<string>, lo: int, hi: int)
  {
    var g := DashboardViews.ExtractGradeNumber(lab);
    g.Some? && !(lo <= g.value <= hi)
  }

  predicate AnyOutside(labels: seq<Option<string>>, lo: int, hi: int)
  {
    exists i :: 0 <= i < |labels| && Outside(labels[i], lo, hi)
  }

  function SlpLabels(rows: seq<SlpLine>): (r: seq<Option<string>>)
    ensures |r| == |rows| && forall i :: 0 <= i < |rows| ==> r[i] == rows[i].gradeLabel
  {
    seq(|rows|, i requires 0 <= i < |rows| => rows[i].gradeLabel)
  }

  /** A grade-span mismatch: the span is known at both ends and some SLP or
      RMA row names a grade outside it. */
  predicate Mismatch(sub: KpiSubmission)
  {
    var lo, hi := SpanStart(sub.school), SpanEnd(sub.school);
    lo.Some? && hi.Some? &&
    (AnyOutside(SlpLabels(sub.slp), lo.value, hi.value) || AnyOutside(sub.rmaLabels, lo.value, hi.value))
  }

  /** The scan of one table's grade labels, stopping at the first grade
      outside the span. */
  method ScanLabels(labels: seq<Option<string>>, lo: int, hi: int) returns (found: bool)
    ensures found == AnyOutside(labels, lo, hi)
  {
    found := false;
    var i := 0;
    while i < |labels| && !found
      invariant 0 <= i <= |labels|
      invariant found ==> i < |labels| && Outside(labels[i], lo, hi)
      invariant !found ==> forall j :: 0 <= j < i ==> !Outside(labels[j], lo, hi)
      decreases |labels| - i, if found then 0 else 1
    {
      var g := DashboardViews.ExtractGradeNumber(labels[i]);
      if g.Some? && !(lo <= g.value <= hi) {
        found := true;
      } else {
        i := i + 1;
      }
    }
  }

  /** The mismatch check of one report: the SLP rows first, the RMA rows
      only when those show none. */
  method SpanMismatch(sub: KpiSubmission) returns (m: bool)
    ensures m == Mismatch(sub)
  {
    var lo, hi := SpanStart(sub.school), SpanEnd(sub.school);
    m := false;
    if lo.Some? && hi.Some? {
      m := ScanLabels(SlpLabels(sub.slp), lo.value, hi.value);
      if !m {
        m := ScanLabels(sub.rmaLabels, lo.value, hi.value);
      }
    }
  }

  // ---------------------------------------------------------------------
  // Sums

  /** `sum(f(x) for x in xs)`. */
  function SumBy<T>(xs: seq<T>, f: T -> nat): nat
    decreases |xs|
  {
    if xs == [] then 0 else f(xs[0]) + SumBy(xs[1..], f)
  }

  lemma {:induction false} SumBySnoc<T>(xs: seq<T>, x: T, f: T -> nat)
    ensures SumBy(xs + [x], f) == SumBy(xs, f) + f(x)
    decreases |xs|
  {
    if xs != [] {
      assert (xs + [x])[1..] == xs[1..] + [x];
      SumBySnoc(xs[1..], x, f);
    }
  }

  lemma {:induction false} SumByInsert<T>(x: T, xs: seq<T>, le: (T, T) -> bool, f: T -> nat)
    ensures SumBy(InsertBy(x, xs, le), f) == f(x) + SumBy(xs, f)
    decreases |xs|
  {
    if xs != [] && !le(x, xs[0]) {
      SumByInsert(x, xs[1..], le, f);
      assert InsertBy(x, xs, le)[1..] == InsertBy(x, xs[1..], le);
    } else {
      assert ([x] + xs)[1..] == xs;
    }
  }

  /** Sorting does not change a sum. */
  lemma {:induction false} SumBySort<T>(xs: seq<T>, le: (T, T) -> bool, f: T -> nat)
    ensures SumBy(SortBy(xs, le), f) == SumBy(xs, f)
    decreases |xs|
  {
    if xs != [] {
      SumBySort(xs[1..], le, f);
      SumByInsert(xs[0], SortBy(xs[1..], le), le, f);
    }
  }

  /** The sum of the burn rates that are given. */
  function BurnSum(rates: seq<Option<real>>): real
    decreases |rates|
  {
    if rates == [] then 0.0
    else BurnSum(rates[..|rates| - 1]) + (if rates[|rates| - 1].Some? then rates[|rates| - 1].value else 0.0)
  }

  function DnmeOf(l: SlpLine): nat { l.dnme }
  function EnrolmentOf(l: SlpLine): nat { l.enrolment }
  function Count(n: nat): nat { n }

  // ---------------------------------------------------------------------
  // Tallying the reports by district

  /** A district's running figures. */
  datatype Stats = Stats(submitted: set<int>, totalDnme: nat, totalEnrolment: nat, band10: nat,
                         admBurnSum: real, admRecords: nat, mismatches: set<int>)

  function NoStats(): Stats
  {
    Stats({}, 0, 0, 0, 0.0, 0, {})
  }

  /** What one completed report adds to its district's figures. */
  function Step(st: Stats, sub: KpiSubmission): Stats
  {
    Stats(st.submitted + {sub.school.id},
          st.totalDnme + SumBy(sub.slp, DnmeOf),
          st.totalEnrolment + SumBy(sub.slp, EnrolmentOf),
          st.band10 + SumBy(sub.band10, Count),
          st.admBurnSum + BurnSum(sub.admBurnRates),
          st.admRecords + |sub.admBurnRates|,
          if Mismatch(sub) then st.mismatches + {sub.school.id} else st.mismatches)
  }

  /** The figures after the reports in order: a report counts when its
      district has an entry and its status is submitted or noted. */
  function Tally(m: map<Option<int>, Stats>, subs: seq<KpiSubmission>): map<Option<int>, Stats>
    decreases |subs|
  {
    if subs == [] then m
    else
      var prev := Tally(m, subs[..|subs| - 1]);
      var sub := subs[|subs| - 1];
      var d := sub.school.districtId;
      if d in prev && DashboardGaps.Completed(sub.status) then prev[d := Step(prev[d], sub)] else prev
  }

  lemma TallySnoc(m: map<Option<int>, Stats>, subs: seq<KpiSubmission>, i: nat)
    requires i < |subs|
    ensures var prev := Tally(m, subs[..i]); var d := subs[i].school.districtId;
      Tally(m, subs[..i + 1]) ==
        if d in prev && DashboardGaps.Completed(subs[i].status) then prev[d := Step(prev[d], subs[i])] else prev
  {
    assert subs[..i + 1][..i] == subs[..i];
  }

  /** The loop over the loaded reports. */
  method TallySubmissions(init: map<Option<int>, Stats>, subs: seq<KpiSubmission>) returns (m: map<Option<int>, Stats>)
    ensures m == Tally(init, subs)
  {
    m := init;
    for i := 0 to |subs|
      invariant m == Tally(init, subs[..i])
    {
      TallySnoc(init, subs, i);
      var sub := subs[i];
      var d := sub.school.districtId;
      if d in m && DashboardGaps.Completed(sub.status) {
        var mis := SpanMismatch(sub);
        var st := m[d];
        var next := Stats(st.submitted + {sub.school.id},
                          st.totalDnme + SumBy(sub.slp, DnmeOf),
                          st.totalEnrolment + SumBy(sub.slp, EnrolmentOf),
                          st.band10 + SumBy(sub.band10, Count),
                          st.admBurnSum + BurnSum(sub.admBurnRates),
                          st.admRecords + |sub.admBurnRates|,
                          if mis then st.mismatches + {sub.school.id} else st.mismatches);
        assert next == Step(st, sub);
        m := m[d := next];
      }
    }
    assert subs[..|subs|] == subs;
  }

  lemma {:induction false} TallyKeys(m: map<Option<int>, Stats>, subs: seq<KpiSubmission>)
    ensures Tally(m, subs).Keys == m.Keys
    decreases |subs|
  {
    if subs != [] {
      TallyKeys(m, subs[..|subs| - 1]);
    }
  }

  /** The reports a district's figures count. */
  function CountedIn(d: Option<int>): KpiSubmission -> bool
  {
    (sub: KpiSubmission) => sub.school.districtId == d && DashboardGaps.Completed(sub.status)
  }

  function SchoolIds(subs: seq<KpiSubmission>): set<int>
  {
    set sub | sub in subs :: sub.school.id
  }

  function MismatchIds(subs: seq<KpiSubmission>): set<int>
  {
    set sub | sub in subs && Mismatch(sub) :: sub.school.id
  }

  function SubDnme(sub: KpiSubmission): nat { SumBy(sub.slp, DnmeOf) }
  function SubEnrolment(sub: KpiSubmission): nat { SumBy(sub.slp, EnrolmentOf) }
  function SubBand10(sub: KpiSubmission): nat { SumBy(sub.band10, Count) }
  function SubAdmRecords(sub: KpiSubmission): nat { |sub.admBurnRates| }

  /** The burn rates of the reports, added up report by report. */
  function SubsBurn(subs: seq<KpiSubmission>): real
    decreases |subs|
  {
    if subs == [] then 0.0 else SubsBurn(subs[..|subs| - 1]) + BurnSum(subs[|subs| - 1].admBurnRates)
  }

  /** The figures `st` grows to over the given reports, stated outright. */
  function Added(st: Stats, subs: seq<KpiSubmission>): Stats
  {
    Stats(st.submitted + SchoolIds(subs),
          st.totalDnme + SumBy(subs, SubDnme),
          st.totalEnrolment + SumBy(subs, SubEnrolment),
          st.band10 + SumBy(subs, SubBand10),
          st.admBurnSum + SubsBurn(subs),
          st.admRecords + SumBy(subs, SubAdmRecords),
          st.mismatches + MismatchIds(subs))
  }

  lemma AddedEmpty(st: Stats)
    ensures Added(st, []) == st
  {
    assert SchoolIds([]) == {} && MismatchIds([]) == {};
  }

  lemma IdsSnoc(subs: seq<KpiSubmission>, sub: KpiSubmission)
    ensures SchoolIds(subs + [sub]) == SchoolIds(subs) + {sub.school.id}
    ensures MismatchIds(subs + [sub]) == MismatchIds(subs) + (if Mismatch(sub) then {sub.school.id} else {})
  {
    assert forall x :: x in subs + [sub] <==> x in subs || x == sub;
  }

  lemma AddedSnoc(st: Stats, subs: seq<KpiSubmission>, sub: KpiSubmission)
    ensures Added(st, subs + [sub]) == Step(Added(st, subs), sub)
  {
    SumBySnoc(subs, sub, SubDnme);
    SumBySnoc(subs, sub, SubEnrolment);
    SumBySnoc(subs, sub, SubBand10);
    SumBySnoc(subs, sub, SubAdmRecords);
    assert (subs + [sub])[..|subs|] == subs;
    IdsSnoc(subs, sub);
  }

  /** Each district's figures are those of its completed reports: the
      schools they come from, the sums of their SLP, Phil-IRI and ADM
      rows, the number of their ADM rows, and the schools of those naming
      a grade outside the span. */
  lemma {:induction false} TallyMeaning(m: map<Option<int>, Stats>, subs: seq<KpiSubmission>, d: Option<int>)
    requires d in m
    ensures d in Tally(m, subs) && Tally(m, subs)[d] == Added(m[d], Filter(subs, CountedIn(d)))
    decreases |subs|
  {
    TallyKeys(m, subs);
    if subs == [] {
      AddedEmpty(m[d]);
    } else {
      var n := |subs| - 1;
      var init := subs[..n];
      var sub := subs[n];
      TallyMeaning(m, init, d);
      TallyKeys(m, init);
      TallySnoc(m, subs, n);
      assert subs[..n + 1] == subs;
      var prev := Tally(m, init);
      var f := Filter(init, CountedIn(d));
      if CountedIn(d)(sub) {
        assert Filter(subs, CountedIn(d)) == f + [sub];
        assert Tally(m, subs)[d] == Step(prev[d], sub);
        AddedSnoc(m[d], f, sub);
      } else {
        assert Filter(subs, CountedIn(d)) == f;
        assert Tally(m, subs)[d] == prev[d];
      }
    }
  }

  // ---------------------------------------------------------------------
  // The district lines and the summary

  /** One line of the KPI table. */
  datatype KpiRow = KpiRow(district: Option<int>, totalSchools: nat, submittedCount: nat, missingCount: int,
                           totalDnme: nat, totalEnrolment: nat, band10: nat, admBurnSum: real,
                           admRecords: nat, mismatches: set<int>)

  /** The line of a district's schools and figures. */
  function RowOf(d: Option<int>, group: seq<School>, st: Stats): KpiRow
  {
    KpiRow(d, |group|, |st.submitted|, |group| - |st.submitted|, st.totalDnme, st.totalEnrolment, st.band10,
           st.admBurnSum, st.admRecords, st.mismatches)
  }

  /** The lines of the districts in the given order. */
  function RowsFor(schools: seq<School>, m: map<Option<int>, Stats>, order: seq<Option<int>>): (rows: seq<KpiRow>)
    requires forall k :: k in order ==> k in m
    ensures |rows| == |order|
  {
    seq(|order|, i requires 0 <= i < |order| => RowOf(order[i], GroupOf(schools, DistrictKey, order[i]), m[order[i]]))
  }

  /** The loop over the districts. */
  method BuildRows(schools: seq<School>, m: map<Option<int>, Stats>, grouped: map<Option<int>, seq<School>>,
                   order: seq<Option<int>>) returns (rows: seq<KpiRow>)
    requires forall k :: k in order ==> k in m && k in grouped && grouped[k] == GroupOf(schools, DistrictKey, k)
    ensures rows == RowsFor(schools, m, order)
  {
    ghost var spec := RowsFor(schools, m, order);
    rows := [];
    for i := 0 to |order|
      invariant rows == spec[..i]
    {
      assert order[i] in order;
      var d := order[i];
      var group := grouped[d];
      var st := m[d];
      var total := |group|;
      var submitted := |st.submitted|;
      var line := KpiRow(d, total, submitted, total - submitted, st.totalDnme, st.totalEnrolment, st.band10,
                         st.admBurnSum, st.admRecords, st.mismatches);
      assert spec[..i + 1] == spec[..i] + [line];
      rows := rows + [line];
    }
    assert spec[..|order|] == spec;
  }

  /** The sort key of a line: its district's name, "" without a district. */
  function NameKey(r: KpiRow, districtName: int -> string): string
  {
    match r.district
    case None => ""
    case Some(d) => districtName(d)
  }

  function RowOrder(districtName: int -> string): (KpiRow, KpiRow) -> bool
  {
    (a: KpiRow, b: KpiRow) => StrLe(NameKey(a, districtName), NameKey(b, districtName))
  }

  lemma RowOrderTotal(districtName: int -> string)
    ensures TotalPreorder(RowOrder(districtName))
  {
    var le := RowOrder(districtName);
    forall a: KpiRow, b: KpiRow ensures le(a, b) || le(b, a) {
      StrLeTotal(NameKey(a, districtName), NameKey(b, districtName));
    }
    forall a: KpiRow, b: KpiRow, c: KpiRow | le(a, b) && le(b, c) ensures le(a, c) {
      StrLeTrans(NameKey(a, districtName), NameKey(b, districtName), NameKey(c, districtName));
    }
  }

  /** The page's totals. The burn-rate sum only feeds the average rate. */
  datatype Summary = Summary(totalSchools: nat, submittedCount: nat, totalDnme: nat, totalEnrolment: nat,
                             band10: nat, admRecords: nat)

  function RowSchools(r: KpiRow): nat { r.totalSchools }
  function RowSubmitted(r: KpiRow): nat { r.submittedCount }
  function RowDnme(r: KpiRow): nat { r.totalDnme }
  function RowEnrolment(r: KpiRow): nat { r.totalEnrolment }
  function RowBand10(r: KpiRow): nat { r.band10 }
  function RowAdmRecords(r: KpiRow): nat { r.admRecords }

  /** No summary without lines; else the sums over the lines. */
  function SummaryOf(rows: seq<KpiRow>): Option<Summary>
  {
    if rows == [] then None
    else Some(Summary(SumBy(rows, RowSchools), SumBy(rows, RowSubmitted), SumBy(rows, RowDnme),
                      SumBy(rows, RowEnrolment), SumBy(rows, RowBand10), SumBy(rows, RowAdmRecords)))
  }

  /** The totals do not depend on the order of the lines. */
  lemma SummaryOfSorted(rows: seq<KpiRow>, districtName: int -> string)
    ensures SummaryOf(SortBy(rows, RowOrder(districtName))) == SummaryOf(rows)
  {
    var le := RowOrder(districtName);
    SumBySort(rows, le, RowSchools);
    SumBySort(rows, le, RowSubmitted);
    SumBySort(rows, le, RowDnme);
    SumBySort(rows, le, RowEnrolment);
    SumBySort(rows, le, RowBand10);
    SumBySort(rows, le, RowAdmRecords);
  }

  // ---------------------------------------------------------------------
  // The whole context

  /** The page context: the sections offered and selected, the district
      lines sorted by district name, and the summary. */
  datatype Context = Context(sections: seq<string>, selectedCode: string, rows: seq<KpiRow>, summary: Option<Summary>)

  /** The schools in scope, narrowed to one district when one is chosen. */
  function InDistrict(d: int): School -> bool
  {
    (s: School) => s.districtId == Some(d)
  }

  function ScopedSchools(schools: seq<School>, district: Option<int>): seq<School>
  {
    if district.Some? then Filter(schools, InDistrict(district.value)) else schools
  }

  function Ids(schools: seq<School>): set<int>
  {
    set s | s in schools :: s.id
  }

  /** The query loading the reports: of a school in scope, of the selected
      section (case ignored), of the period. */
  function Loads(ids: set<int>, code: string, period: int): KpiSubmission -> bool
  {
    (sub: KpiSubmission) => sub.school.id in ids && Upper(sub.sectionCode) == Upper(code) && sub.periodId == period
  }

  /** No reports are loaded without schools or without a period. */
  function Loaded(schools: seq<School>, subs: seq<KpiSubmission>, code: string, period: Option<int>): seq<KpiSubmission>
  {
    if schools != [] && period.Some? then Filter(subs, Loads(Ids(schools), code, period.value)) else []
  }

  /** One empty entry per district. */
  function Initial(order: seq<Option<int>>): map<Option<int>, Stats>
  {
    map k | k in order :: NoStats()
  }

  /** The district lines in the order the districts' first schools come. */
  function KpiRows(schools: seq<School>, loaded: seq<KpiSubmission>): (rows: seq<KpiRow>)
  {
    var order := Dedup(KeySeq(schools, DistrictKey));
    TallyKeys(Initial(order), loaded);
    RowsFor(schools, Tally(Initial(order), loaded), order)
  }

  /** `_build_kpi_context` as a specification. */
  function ContextOf(sections: seq<string>, restricted: bool, allowed: set<string>, requested: Option<string>,
                     schools: seq<School>, district: Option<int>, subs: seq<KpiSubmission>, period: Option<int>,
                     districtName: int -> string): Context
  {
    var listed := OfferedSections(sections, restricted, allowed);
    var code := SelectedCode(listed, requested);
    var scoped := ScopedSchools(schools, district);
    var rows := SortBy(KpiRows(scoped, Loaded(scoped, subs, code, period)), RowOrder(districtName));
    Context(listed, code, rows, SummaryOf(rows))
  }

  /** The grouping of the schools by district, the loop over the reports
      and the loop over the districts. */
  method DistrictRows(schools: seq<School>, loaded: seq<KpiSubmission>) returns (rows: seq<KpiRow>)
    ensures rows == KpiRows(schools, loaded)
  {
    var grouped, order := GroupBy(schools, DistrictKey);
    var init := map k | k in grouped :: NoStats();
    assert init == Initial(order);
    var m := TallySubmissions(init, loaded);
    TallyKeys(init, loaded);
    rows := BuildRows(schools, m, grouped, order);
  }

  /** The view's steps: the sections, the scoped schools grouped by
      district, the loaded reports tallied, one line per district, sorted,
      and the totals. */
  method BuildContext(sections: seq<string>, restricted: bool, allowed: set<string>, requested: Option<string>,
                      schools: seq<School>, district: Option<int>, subs: seq<KpiSubmission>, period: Option<int>,
                      districtName: int -> string) returns (ctx: Context)
    ensures ctx == ContextOf(sections, restricted, allowed, requested, schools, district, subs, period, districtName)
  {
    var listed := OfferedSections(sections, restricted, allowed);
    var code := SelectedCode(listed, requested);
    var scoped := ScopedSchools(schools, district);
    var rows := DistrictRows(scoped, Loaded(scoped, subs, code, period));
    var sorted := SortBy(rows, RowOrder(districtName));
    ctx := Context(listed, code, sorted, SummaryOf(sorted));
  }

  // ---------------------------------------------------------------------
  // What the figures mean

  /** A report's school is the scoped school with its id, as the database
      has it. */
  predicate SameSchools(schools: seq<School>, subs: seq<KpiSubmission>)
  {
    forall sub, s :: sub in subs && s in schools && s.id == sub.school.id ==> s == sub.school
  }

  lemma {:induction false} IdsBound(xs: seq<School>)
    ensures |Ids(xs)| <= |xs|
    decreases |xs|
  {
    if xs != [] {
      var init := xs[..|xs| - 1];
      IdsBound(init);
      assert Ids(xs) == Ids(init) + {xs[|xs| - 1].id} by {
        assert forall s :: s in xs <==> s in init || s == xs[|xs| - 1];
      }
    }
  }

  /** Nothing is loaded without a school or a period; otherwise a report
      is loaded exactly when its school is scoped, its section code matches
      in any case and its period is the one chosen; and the loaded reports
      all come from scoped schools. */
  lemma LoadedFromScope(schools: seq<School>, subs: seq<KpiSubmission>, code: string, period: Option<int>)
    requires SameSchools(schools, subs)
    ensures schools == [] || period.None? ==> Loaded(schools, subs, code, period) == []
    ensures schools != [] && period.Some? ==> forall sub :: sub in Loaded(schools, subs, code, period) <==>
      sub in subs && sub.school.id in Ids(schools) && Upper(sub.sectionCode) == Upper(code) && sub.periodId == period.value
    ensures forall sub :: sub in Loaded(schools, subs, code, period) ==> sub.school in schools
  {
    if schools != [] && period.Some? {
      FilterMeaning(subs, Loads(Ids(schools), code, period.value));
      forall sub | sub in Loaded(schools, subs, code, period) ensures sub.school in schools {
        var s :| s in schools && s.id == sub.school.id;
      }
    }
  }

  /** A district's submitted schools are among its own. */
  lemma SubmittedWithin(schools: seq<School>, loaded: seq<KpiSubmission>, d: Option<int>)
    requires forall sub :: sub in loaded ==> sub.school in schools
    ensures SchoolIds(Filter(loaded, CountedIn(d))) <= Ids(GroupOf(schools, DistrictKey, d))
  {
    FilterMeaning(loaded, CountedIn(d));
    FilterMeaning(schools, HasKey(DistrictKey, d));
    forall x | x in SchoolIds(Filter(loaded, CountedIn(d))) ensures x in Ids(GroupOf(schools, DistrictKey, d)) {
      var sub :| sub in Filter(loaded, CountedIn(d)) && sub.school.id == x;
      assert HasKey(DistrictKey, d)(sub.school);
    }
  }

  /** Each district line: its submitted schools are those of the
      district's completed reports, so no more than its schools, and the
      missing count is what is left. */
  lemma RowMeaning(schools: seq<School>, loaded: seq<KpiSubmission>, i: nat)
    requires forall sub :: sub in loaded ==> sub.school in schools
    requires i < |KpiRows(schools, loaded)|
    ensures var order := Dedup(KeySeq(schools, DistrictKey));
      var r := KpiRows(schools, loaded)[i];
      var counted := Filter(loaded, CountedIn(order[i]));
      r.district == order[i] &&
      r.totalSchools == |GroupOf(schools, DistrictKey, order[i])| &&
      r.submittedCount == |SchoolIds(counted)| &&
      r.submittedCount <= r.totalSchools &&
      r.missingCount == r.totalSchools - r.submittedCount && r.missingCount >= 0 &&
      r.totalDnme == SumBy(counted, SubDnme) && r.totalEnrolment == SumBy(counted, SubEnrolment) &&
      r.band10 == SumBy(counted, SubBand10) && r.admRecords == SumBy(counted, SubAdmRecords) &&
      r.mismatches == MismatchIds(counted)
  {
    var order := Dedup(KeySeq(schools, DistrictKey));
    var d := order[i];
    assert d in order;
    TallyMeaning(Initial(order), loaded, d);
    var group := GroupOf(schools, DistrictKey, d);
    SubmittedWithin(schools, loaded, d);
    IdsBound(group);
    var counted := Filter(loaded, CountedIn(d));
    assert |SchoolIds(counted)| <= |Ids(group)| by {
      SubsetCard(SchoolIds(counted), Ids(group));
    }
  }

  lemma SubsetCard(a: set<int>, b: set<int>)
    requires a <= b
    ensures |a| <= |b|
  {
    assert b == a + (b - a);
  }

  lemma {:induction false} RowsTotal(schools: seq<School>, m: map<Option<int>, Stats>, order: seq<Option<int>>)
    requires forall k :: k in order ==> k in m
    ensures SumBy(RowsFor(schools, m, order), RowSchools) == GroupSizes(schools, DistrictKey, order)
    decreases |order|
  {
    if order != [] {
      var init := order[..|order| - 1];
      RowsTotal(schools, m, init);
      var rows := RowsFor(schools, m, order);
      assert rows == RowsFor(schools, m, init) + [rows[|rows| - 1]];
      SumBySnoc(RowsFor(schools, m, init), rows[|rows| - 1], RowSchools);
    }
  }

  lemma {:induction false} SubmittedTotal(rows: seq<KpiRow>)
    requires forall r :: r in rows ==> r.submittedCount <= r.totalSchools
    ensures SumBy(rows, RowSubmitted) <= SumBy(rows, RowSchools)
    decreases |rows|
  {
    if rows != [] {
      assert rows[0] in rows;
      assert forall r :: r in rows[1..] ==> r in rows;
      SubmittedTotal(rows[1..]);
    }
  }

  /** No summary exactly when there are no schools; otherwise every school
      is counted once and no more schools submitted than there are. */
  lemma SummaryMeaning(schools: seq<School>, loaded: seq<KpiSubmission>)
    requires forall sub :: sub in loaded ==> sub.school in schools
    ensures var summary := SummaryOf(KpiRows(schools, loaded));
      (summary.None? <==> schools == []) &&
      (summary.Some? ==> summary.value.totalSchools == |schools| &&
                         summary.value.submittedCount <= summary.value.totalSchools)
  {
    var order := Dedup(KeySeq(schools, DistrictKey));
    var rows := KpiRows(schools, loaded);
    TallyKeys(Initial(order), loaded);
    RowsTotal(schools, Tally(Initial(order), loaded), order);
    GroupsCover(schools, DistrictKey);
    forall r | r in rows ensures r.submittedCount <= r.totalSchools {
      var i :| 0 <= i < |rows| && rows[i] == r;
      RowMeaning(schools, loaded, i);
    }
    SubmittedTotal(rows);
    if schools != [] {
      assert KeySeq(schools, DistrictKey)[0] in Dedup(KeySeq(schools, DistrictKey)) by {
        DedupMembers(KeySeq(schools, DistrictKey));
      }
    }
  }

  /** What the page promises of its parts: the lines sorted by district
      name, one per district of the schools in scope; a summary exactly when
      some school is in scope, counting them all and no more submitted
      schools than that; and only schools of the chosen district in scope
      when one is chosen. What each line holds is `RowMeaning`'s lemma. */
  lemma ContextMeaning(sections: seq<string>, restricted: bool, allowed: set<string>, requested: Option<string>,
                       schools: seq<School>, district: Option<int>, subs: seq<KpiSubmission>, period: Option<int>,
                       districtName: int -> string)
    requires SameSchools(schools, subs)
    ensures var ctx := ContextOf(sections, restricted, allowed, requested, schools, district, subs, period, districtName);
      var scoped := ScopedSchools(schools, district);
      SortedBy(ctx.rows, RowOrder(districtName)) &&
      |ctx.rows| == |Dedup(KeySeq(scoped, DistrictKey))| &&
      (ctx.summary.None? <==> scoped == []) &&
      (ctx.summary.Some? ==> ctx.summary.value.totalSchools == |scoped| &&
                             ctx.summary.value.submittedCount <= ctx.summary.value.totalSchools) &&
      (forall s :: s in scoped ==> s in schools && (district.Some? ==> s.districtId == district))
  {
    var listed := OfferedSections(sections, restricted, allowed);
    var code := SelectedCode(listed, requested);
    var scoped := ScopedSchools(schools, district);
    if district.Some? {
      FilterMeaning(schools, InDistrict(district.value));
    }
    assert SameSchools(scoped, subs);
    var loaded := Loaded(scoped, subs, code, period);
    LoadedFromScope(scoped, subs, code, period);
    var rows := KpiRows(scoped, loaded);
    RowOrderTotal(districtName);
    SortSorted(rows, RowOrder(districtName));
    SummaryOfSorted(rows, districtName);
    SummaryMeaning(scoped, loaded);
  }
}
