// Two dashboard reports that must list every school in scope: the KPI API's
// per-view results, where schools without data get a placeholder row, and
// the district submission-gap report, which counts per district the schools
// that have and have not submitted a form for a period.
module DashboardGaps {
  import opened Wrappers
  import opened Text
  import opened Lists
  import opened Sorting
  import opened Grouping
  import opened SubmissionLifecycle

  /** A school's profile as the reports read it. */
  datatype Profile = Profile(headName: string, headContact: string, strands: seq<string>)

  /** A school in scope, with its district (if any) and profile (if any). */
  datatype School = School(id: int, name: string, districtId: Option<int>, districtName: Option<string>,
                           profile: Option<Profile>)

  /** The district label of a row: the district's name, or "N/A". */
  function DistrictLabel(s: School): string
  {
    s.districtName.GetOr("N/A")
  }

  // ---------------------------------------------------------------------
  // Placeholder rows of the KPI API

  /** One result row of a KPI view: the school, its district label, the
      view's figures in order, and `has_data` where the row carries it. */
  datatype ApiRow = ApiRow(schoolId: int, schoolName: string, district: string, metrics: seq<real>,
                           hasData: Option<bool>)

  function Zeros(width: nat): (z: seq<real>)
    ensures |z| == width && forall i :: 0 <= i < width ==> z[i] == 0.0
  {
    seq(width, _ => 0.0)
  }

  /** The row of a school without data: zero figures, `has_data` False. */
  function Placeholder(s: School, width: nat): ApiRow
  {
    ApiRow(s.id, s.name, DistrictLabel(s), Zeros(width), Some(false))
  }

  function RowIds(rows: seq<ApiRow>): set<int>
  {
    set r | r in rows :: r.schoolId
  }

  /** The placeholders for the schools whose id is not among `have`, in
      the order of the schools. */
  function Placeholders(schools: seq<School>, have: set<int>, width: nat): seq<ApiRow>
    decreases |schools|
  {
    if schools == [] then []
    else
      var s := schools[|schools| - 1];
      Placeholders(schools[..|schools| - 1], have, width) + (if s.id in have then [] else [Placeholder(s, width)])
  }

  lemma PlaceholdersSnoc(schools: seq<School>, have: set<int>, width: nat, i: nat)
    requires i < |schools|
    ensures Placeholders(schools[..i + 1], have, width) ==
      Placeholders(schools[..i], have, width) + (if schools[i].id in have then [] else [Placeholder(schools[i], width)])
  {
    assert schools[..i + 1][..i] == schools[..i];
  }

  /** The loop that appends a placeholder for each school missing from the
      results (`have_ids` is taken once, before the loop). */
  method AddPlaceholders(results: seq<ApiRow>, schools: seq<School>, width: nat) returns (r: seq<ApiRow>)
    ensures r == results + Placeholders(schools, RowIds(results), width)
  {
    var have := RowIds(results);
    r := results;
    for i := 0 to |schools|
      invariant r == results + Placeholders(schools[..i], have, width)
    {
      PlaceholdersSnoc(schools, have, width, i);
      if schools[i].id !in have {
        r := r + [Placeholder(schools[i], width)];
      }
    }
    assert schools[..|schools|] == schools;
  }

  /** The placeholders belong to the schools lacking rows, each with zero
      figures and `has_data` False. */
  lemma {:induction false} PlaceholdersMeaning(schools: seq<School>, have: set<int>, width: nat)
    ensures forall p :: p in Placeholders(schools, have, width) ==>
      p.schoolId !in have && p.hasData == Some(false) && p.metrics == Zeros(width) &&
      exists s :: s in schools && p == Placeholder(s, width)
    ensures forall s :: s in schools && s.id !in have ==> Placeholder(s, width) in Placeholders(schools, have, width)
    decreases |schools|
  {
    if schools != [] {
      var init := schools[..|schools| - 1];
      var last := schools[|schools| - 1];
      PlaceholdersMeaning(init, have, width);
      assert schools == init + [last];
      assert forall s :: s in init ==> s in schools;
    }
  }

  /** After the placeholders every school in scope has a row, and the rows
      the view computed are kept in front, unchanged. */
  lemma EverySchoolListed(results: seq<ApiRow>, schools: seq<School>, width: nat)
    ensures var r := results + Placeholders(schools, RowIds(results), width);
      r[..|results|] == results &&
      (forall s :: s in schools ==> exists k :: 0 <= k < |r| && r[k].schoolId == s.id) &&
      (forall k :: |results| <= k < |r| ==> r[k].hasData == Some(false) && r[k].schoolId !in RowIds(results))
  {
    var have := RowIds(results);
    var ps := Placeholders(schools, have, width);
    var r := results + ps;
    PlaceholdersMeaning(schools, have, width);
    forall s | s in schools ensures exists k :: 0 <= k < |r| && r[k].schoolId == s.id {
      if s.id in have {
        var row :| row in results && row.schoolId == s.id;
        var k :| 0 <= k < |results| && results[k] == row;
        assert r[k] == row;
      } else {
        var p := Placeholder(s, width);
        assert p in ps;
        var k :| 0 <= k < |ps| && ps[k] == p;
        assert r[|results| + k] == p;
      }
    }
    forall k | |results| <= k < |r| ensures r[k].hasData == Some(false) && r[k].schoolId !in have {
      assert r[k] == ps[k - |results|] && ps[k - |results|] in ps;
    }
  }

  // ---------------------------------------------------------------------
  // District submission gaps

  /** A submission of the selected form and period, as the report loads it. */
  datatype SubmissionRef = SubmissionRef(schoolId: int, status: Status)

  /** Submitted and noted reports count as submitted. */
  predicate Completed(s: Status)
  {
    s == Submitted || s == Noted
  }

  function SubmittedIds(subs: seq<SubmissionRef>): set<int>
  {
    set s | s in subs && Completed(s.status) :: s.schoolId
  }

  function DistrictOf(s: School): Option<int>
  {
    s.districtId
  }

  function IsIn(ids: set<int>): School -> bool
  {
    (s: School) => s.id in ids
  }

  function NotIn(ids: set<int>): School -> bool
  {
    (s: School) => s.id !in ids
  }

  /** A school listed as missing, with its head's details and the warnings
      the page shows. No grade-span mismatches are ever recorded for a
      district, so `gradeSpanWarning` is always false. */
  datatype MissingSchool = MissingSchool(school: School, headName: string, headContact: string, strands: string,
                                         missingProfile: bool, missingHeadName: bool, missingHeadContact: bool,
                                         gradeSpanWarning: bool)

  function MissingOf(s: School): (m: MissingSchool)
    ensures m.school == s && m.missingProfile == s.profile.None? && !m.gradeSpanWarning
    ensures s.profile.None? ==> (m.headName == "" && m.headContact == "" && m.strands == "" &&
      m.missingHeadName && m.missingHeadContact)
    ensures m.missingHeadName <==> IsBlank(m.headName)
  {
    var head := if s.profile.Some? then s.profile.value.headName else "";
    var contact := if s.profile.Some? then s.profile.value.headContact else "";
    var strands := if s.profile.Some? && s.profile.value.strands != [] then JoinWith(s.profile.value.strands, ", ") else "";
    MissingSchool(s, head, contact, strands, s.profile.None?, IsBlank(head), IsBlank(contact), false)
  }

  function MissingList(schools: seq<School>): (r: seq<MissingSchool>)
    ensures |r| == |schools| && forall i :: 0 <= i < |r| ==> r[i] == MissingOf(schools[i])
  {
    seq(|schools|, i requires 0 <= i < |schools| => MissingOf(schools[i]))
  }

  /** One district's line of the report. */
  datatype DistrictRow = DistrictRow(districtName: Option<string>, totalSchools: nat, submittedCount: nat,
                                     missingCount: nat, missing: seq<MissingSchool>)

  /** The line of a district's schools. */
  function RowOf(group: seq<School>, submitted: set<int>): DistrictRow
  {
    var missing := MissingList(Filter(group, NotIn(submitted)));
    DistrictRow(if group == [] then None else group[0].districtName, |group|,
      |Filter(group, IsIn(submitted))|, |missing|, missing)
  }

  lemma {:induction false} FilterComplement(xs: seq<School>, ids: set<int>)
    ensures |Filter(xs, IsIn(ids))| + |Filter(xs, NotIn(ids))| == |xs|
    decreases |xs|
  {
    if xs != [] {
      FilterComplement(xs[..|xs| - 1], ids);
    }
  }

  /** Each district's submitted and missing schools add up to its total,
      and the missing ones are exactly its schools without a submitted
      report. */
  lemma RowCounts(group: seq<School>, submitted: set<int>)
    ensures var row := RowOf(group, submitted);
      row.submittedCount + row.missingCount == row.totalSchools &&
      row.missingCount == |row.missing| &&
      forall s :: (exists m :: m in row.missing && m.school == s) <==> s in group && s.id !in submitted
  {
    RowBalanced(group, submitted);
    var row := RowOf(group, submitted);
    forall s ensures (exists m :: m in row.missing && m.school == s) <==> s in group && s.id !in submitted {
      MissingListed(group, submitted, s);
    }
  }

  /** One school is listed as missing exactly when it has no submitted
      report. */
  lemma MissingListed(group: seq<School>, submitted: set<int>, s: School)
    ensures (exists m :: m in RowOf(group, submitted).missing && m.school == s) <==> s in group && s.id !in submitted
  {
    var kept := Filter(group, NotIn(submitted));
    FilterMeaning(group, NotIn(submitted));
    var missing := RowOf(group, submitted).missing;
    assert missing == MissingList(kept);
    if s in group && s.id !in submitted {
      assert NotIn(submitted)(s);
      var k :| 0 <= k < |kept| && kept[k] == s;
      assert missing[k] == MissingOf(s);
    }
    if exists m :: m in missing && m.school == s {
      var m :| m in missing && m.school == s;
      var k :| 0 <= k < |missing| && missing[k] == m;
      assert MissingOf(kept[k]).school == s;
      assert kept[k] in kept;
    }
  }


  /** The lines of the districts in the given order. */
  function RowsFor(schools: seq<School>, submitted: set<int>, order: seq<Option<int>>): (rows: seq<DistrictRow>)
    ensures |rows| == |order|
    ensures forall i :: 0 <= i < |order| ==> rows[i] == RowOf(GroupOf(schools, DistrictOf, order[i]), submitted)
  {
    seq(|order|, i requires 0 <= i < |order| => RowOf(GroupOf(schools, DistrictOf, order[i]), submitted))
  }

  function TotalSchools(rows: seq<DistrictRow>): nat
  {
    if rows == [] then 0 else TotalSchools(rows[..|rows| - 1]) + rows[|rows| - 1].totalSchools
  }

  function TotalSubmitted(rows: seq<DistrictRow>): nat
  {
    if rows == [] then 0 else TotalSubmitted(rows[..|rows| - 1]) + rows[|rows| - 1].submittedCount
  }

  function TotalMissing(rows: seq<DistrictRow>): nat
  {
    if rows == [] then 0 else TotalMissing(rows[..|rows| - 1]) + rows[|rows| - 1].missingCount
  }

  /** The key the lines are sorted by: the district's name, "" without one. */
  function NameKey(r: DistrictRow): string
  {
    r.districtName.GetOr("")
  }

  function RowOrder(): (DistrictRow, DistrictRow) -> bool
  {
    (a: DistrictRow, b: DistrictRow) => StrLe(NameKey(a), NameKey(b))
  }

  /** `district_rows.sort(key=...)`: stable, by district name. */
  function SortedLines(rows: seq<DistrictRow>): seq<DistrictRow>
  {
    SortBy(rows, RowOrder())
  }

  /** Lines compare by the Python order of their district names. */
  lemma RowOrderTotal()
    ensures TotalPreorder(RowOrder())
  {
    forall a: DistrictRow, b: DistrictRow ensures RowOrder()(a, b) || RowOrder()(b, a) {
      StrLeTotal(NameKey(a), NameKey(b));
    }
    forall a: DistrictRow, b: DistrictRow, c: DistrictRow | RowOrder()(a, b) && RowOrder()(b, c)
      ensures RowOrder()(a, c)
    {
      StrLeTrans(NameKey(a), NameKey(b), NameKey(c));
    }
  }

  /** The figures of `district_submission_gaps`. */
  datatype GapReport = GapReport(rows: seq<DistrictRow>, totalSchools: nat, totalSubmitted: nat, totalMissing: int)

  /** The report as a specification: districts in the order their first
      school comes, one line each, the totals over the lines, and the lines
      sorted by district name. Without both a form and a period no
      submissions are loaded. */
  function Report(schools: seq<School>, subs: seq<SubmissionRef>, selected: bool): GapReport
  {
    var submitted := SubmittedIds(if selected && schools != [] then subs else []);
    ReportOf(RowsFor(schools, submitted, Dedup(KeySeq(schools, DistrictOf))))
  }

  /** The report of the district lines in their grouping order. */
  function ReportOf(rows: seq<DistrictRow>): GapReport
  {
    GapReport(SortedLines(rows), TotalSchools(rows), TotalSubmitted(rows),
      TotalSchools(rows) - TotalSubmitted(rows))
  }

  lemma TotalSchoolsIsGroupSizes(schools: seq<School>, submitted: set<int>, order: seq<Option<int>>)
    ensures TotalSchools(RowsFor(schools, submitted, order)) == GroupSizes(schools, DistrictOf, order)
    decreases |order|
  {
    if order != [] {
      var init := order[..|order| - 1];
      TotalSchoolsIsGroupSizes(schools, submitted, init);
      var rows := RowsFor(schools, submitted, order);
      assert rows[..|rows| - 1] == RowsFor(schools, submitted, init);
    }
  }

  lemma {:induction false} TotalMissingIs(rows: seq<DistrictRow>)
    requires forall r :: r in rows ==> Balanced(r)
    ensures TotalMissing(rows) == TotalSchools(rows) - TotalSubmitted(rows)
    decreases |rows|
  {
    if rows != [] {
      var init := rows[..|rows| - 1];
      assert forall r :: r in init ==> r in rows;
      TotalMissingIs(init);
      assert rows[|rows| - 1] in rows;
    }
  }

  /** What the report promises: every school in scope is counted once, the
      missing total is the sum of the districts' missing counts, each
      district appears on one line, and the lines are sorted by name. */
  lemma ReportMeaning(schools: seq<School>, subs: seq<SubmissionRef>, selected: bool)
    ensures var rep := Report(schools, subs, selected);
      rep.totalSchools == |schools| &&
      rep.totalMissing == rep.totalSchools - rep.totalSubmitted &&
      SortedBy(rep.rows, RowOrder()) &&
      |rep.rows| == |Dedup(KeySeq(schools, DistrictOf))| &&
      (forall r :: r in rep.rows ==> r.submittedCount + r.missingCount == r.totalSchools)
  {
    var submitted := SubmittedIds(if selected && schools != [] then subs else []);
    var order := Dedup(KeySeq(schools, DistrictOf));
    var rows := RowsFor(schools, submitted, order);
    TotalSchoolsIsGroupSizes(schools, submitted, order);
    GroupsCover(schools, DistrictOf);
    RowOrderTotal();
    SortSorted(rows, RowOrder());
    RowsBalanced(schools, submitted, order);
    SortedBalanced(rows);
  }

  /** A line's submitted and missing counts add up to its school count. */
  predicate Balanced(r: DistrictRow)
  {
    r.submittedCount + r.missingCount == r.totalSchools
  }

  lemma RowBalanced(group: seq<School>, submitted: set<int>)
    ensures Balanced(RowOf(group, submitted))
  {
    FilterComplement(group, submitted);
  }

  lemma RowsBalanced(schools: seq<School>, submitted: set<int>, order: seq<Option<int>>)
    ensures forall r :: r in RowsFor(schools, submitted, order) ==> Balanced(r)
  {
    var rows := RowsFor(schools, submitted, order);
    forall r | r in rows ensures Balanced(r) {
      var i :| 0 <= i < |rows| && rows[i] == r;
      RowBalanced(GroupOf(schools, DistrictOf, order[i]), submitted);
    }
  }

  lemma SortedBalanced(rows: seq<DistrictRow>)
    requires forall r :: r in rows ==> Balanced(r)
    ensures forall r :: r in SortBy(rows, RowOrder()) ==> Balanced(r)
  {
    forall r | r in SortBy(rows, RowOrder()) ensures Balanced(r) {
      assert r in multiset(SortBy(rows, RowOrder()));
      assert r in rows;
    }
  }

  /** The missing total equals the sum of the per-district missing counts. */
  lemma MissingAddsUp(schools: seq<School>, submitted: set<int>, order: seq<Option<int>>)
    ensures var rows := RowsFor(schools, submitted, order);
      TotalMissing(rows) == TotalSchools(rows) - TotalSubmitted(rows)
  {
    var rows := RowsFor(schools, submitted, order);
    RowsBalanced(schools, submitted, order);
    TotalMissingIs(rows);
  }

  /** One district's counting loop: `sum(1 for ...)` and the missing-school
      loop. */
  method DistrictLine(group: seq<School>, submitted: set<int>) returns (row: DistrictRow)
    ensures row == RowOf(group, submitted)
  {
    var count := 0;
    var missing: seq<MissingSchool> := [];
    ghost var kept: seq<School> := [];
    for i := 0 to |group|
      invariant count == |Filter(group[..i], IsIn(submitted))|
      invariant kept == Filter(group[..i], NotIn(submitted)) && missing == MissingList(kept)
    {
      assert group[..i + 1][..i] == group[..i];
      if group[i].id in submitted {
        count := count + 1;
      } else {
        kept := kept + [group[i]];
        missing := missing + [MissingOf(group[i])];
      }
    }
    assert group[..|group|] == group;
    row := DistrictRow(if group == [] then None else group[0].districtName, |group|, count, |missing|, missing);
  }

  lemma TotalsSnoc(rows: seq<DistrictRow>, i: nat)
    requires i < |rows|
    ensures TotalSchools(rows[..i + 1]) == TotalSchools(rows[..i]) + rows[i].totalSchools
    ensures TotalSubmitted(rows[..i + 1]) == TotalSubmitted(rows[..i]) + rows[i].submittedCount
  {
    assert rows[..i + 1][..i] == rows[..i];
  }

  /** The loop over the districts: one line each, and the running totals. */
  method DistrictLines(schools: seq<School>, submitted: set<int>, grouped: map<Option<int>, seq<School>>,
                       order: seq<Option<int>>)
    returns (rows: seq<DistrictRow>, totalSchools: nat, totalSubmitted: nat)
    requires forall k :: k in order ==> k in grouped && grouped[k] == GroupOf(schools, DistrictOf, k)
    ensures rows == RowsFor(schools, submitted, order)
    ensures totalSchools == TotalSchools(rows) && totalSubmitted == TotalSubmitted(rows)
  {
    ghost var spec := RowsFor(schools, submitted, order);
    rows := [];
    totalSchools, totalSubmitted := 0, 0;
    for i := 0 to |order|
      invariant rows == spec[..i]
      invariant totalSchools == TotalSchools(rows) && totalSubmitted == TotalSubmitted(rows)
    {
      assert order[i] in order;
      var line := DistrictLine(grouped[order[i]], submitted);
      TotalsSnoc(spec, i);
      assert spec[..i + 1] == spec[..i] + [line];
      rows := rows + [line];
      totalSchools := totalSchools + line.totalSchools;
      totalSubmitted := totalSubmitted + line.submittedCount;
    }
    assert spec[..|order|] == spec;
  }

  /** Grouping by district and the loop over the districts. */
  method GroupedLines(schools: seq<School>, submitted: set<int>)
    returns (rows: seq<DistrictRow>, totalSchools: nat, totalSubmitted: nat)
    ensures rows == RowsFor(schools, submitted, Dedup(KeySeq(schools, DistrictOf)))
    ensures totalSchools == TotalSchools(rows) && totalSubmitted == TotalSubmitted(rows)
  {
    var grouped, order := GroupBy(schools, DistrictOf);
    rows, totalSchools, totalSubmitted := DistrictLines(schools, submitted, grouped, order);
  }

  /** `district_submission_gaps`: group the schools by district, count each
      district, add up the totals, sort the lines by district name. */
  method SubmissionGaps(schools: seq<School>, subs: seq<SubmissionRef>, selected: bool) returns (rep: GapReport)
    ensures rep == Report(schools, subs, selected)
  {
    var loaded := if selected && schools != [] then subs else [];
    var submitted := SubmittedIds(loaded);
    var rows, totalSchools, totalSubmitted := GroupedLines(schools, submitted);
    var ts: int, tu: int := totalSchools, totalSubmitted;
    rep := GapReport(SortedLines(rows), totalSchools, totalSubmitted, ts - tu);
    assert rep == ReportOf(rows);
  }
}
