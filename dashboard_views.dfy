// The dashboards' small server-side calculations: grade numbers read off
// grade labels, the KPI API's page parameters and page slices, the reading
// period a quarter stands for, the performance-threshold filters, the
// completion rates and summary cards, and the slug used in export file
// names.
module DashboardViews {
  import opened Wrappers
  import opened Text
  import opened Lists
  import SubmissionExports

  // ---------------------------------------------------------------------
  // Grade numbers

  /** The digits of s, in order, as `"".join(ch for ch in s if ch.isdigit())`
      keeps them. */
  function DigitsIn(s: string): (r: string)
    ensures AllDigits(r) && |r| <= |s|
    decreases |s|
  {
    if s == "" then "" else (if IsDigit(s[0]) then [s[0]] else "") + DigitsIn(s[1..])
  }

  /** `_extract_grade_number`: 0 for a kindergarten label, else the number
      its digits spell, None for a missing label or one without digits. */
  function ExtractGradeNumber(lab: Option<string>): (r: Option<int>)
    ensures lab.None? || lab == Some("") ==> r.None?
    ensures r.Some? ==> r.value >= 0
  {
    if lab.None? || lab.value == "" then None
    else
      var low := Lower(lab.value);
      if Contains(low, "kinder") || StartsWith(low, "k") then Some(0)
      else
        var digits := DigitsIn(low);
        if digits != "" then Some(DigitsValue(digits)) else None
  }

  /** A label reads as 0 when it names kindergarten or starts with a K,
      and otherwise as the number its digits spell, if it has any. */
  lemma GradeNumberCases(lab: string)
    requires lab != ""
    ensures var low := Lower(lab);
      (Contains(low, "kinder") || StartsWith(low, "k") ==> ExtractGradeNumber(Some(lab)) == Some(0)) &&
      (!Contains(low, "kinder") && !StartsWith(low, "k") ==>
        ExtractGradeNumber(Some(lab)) == if DigitsIn(low) == "" then None else Some(DigitsValue(DigitsIn(low)) as int))
  {
  }

  lemma {:induction false} DigitsInConcat(a: string, b: string)
    ensures DigitsIn(a + b) == DigitsIn(a) + DigitsIn(b)
    decreases |a|
  {
    if a != "" {
      var ab := a + b;
      assert ab != "" && ab[0] == a[0] && ab[1..] == a[1..] + b;
      DigitsInConcat(a[1..], b);
      var h := if IsDigit(a[0]) then [a[0]] else "";
      calc {
        DigitsIn(ab);
        h + DigitsIn(a[1..] + b);
        h + (DigitsIn(a[1..]) + DigitsIn(b));
        (h + DigitsIn(a[1..])) + DigitsIn(b);
        DigitsIn(a) + DigitsIn(b);
      }
    } else {
      assert a + b == b;
    }
  }

  lemma {:induction false} DigitsInDigits(d: string)
    requires AllDigits(d)
    ensures DigitsIn(d) == d
    decreases |d|
  {
    if d != "" {
      DigitsInDigits(d[1..]);
    }
  }

  /** A text none of whose characters is the first of p does not contain p. */
  lemma {:induction false} ContainsNeedsFirst(s: string, p: string)
    requires |p| > 0 && forall i :: 0 <= i < |s| ==> s[i] != p[0]
    ensures !Contains(s, p)
    decreases |s|
  {
    if |s| > 0 {
      ContainsNeedsFirst(s[1..], p);
      if |p| <= |s| {
        assert s[..|p|][0] == s[0];
      }
    }
  }

  lemma LowerGradeLabel(d: string)
    requires AllDigits(d)
    ensures Lower("Grade " + d) == "grade " + d
  {
    NoCapitals(d);
    LowerConcat("Grade ", d);
    assert Lower("Grade ") == "grade ";
  }

  lemma LowerConcat(a: string, b: string)
    ensures Lower(a + b) == Lower(a) + Lower(b)
  {
    var l, r := Lower(a + b), Lower(a) + Lower(b);
    forall i | 0 <= i < |l| ensures l[i] == r[i] {
      if i < |a| {
        assert (a + b)[i] == a[i];
      } else {
        assert (a + b)[i] == b[i - |a|];
      }
    }
  }

  lemma DigitsOfGradeLabel(d: string)
    requires AllDigits(d)
    ensures DigitsIn("grade " + d) == d
  {
    DigitsInConcat("grade ", d);
    DigitsInDigits(d);
    assert DigitsIn("grade ") == "";
  }

  /** Every label "Grade n" reads as grade n. */
  lemma GradeNumberOfLabel(n: nat)
    ensures ExtractGradeNumber(Some("Grade " + NatToString(n))) == Some(n)
  {
    var d := NatToString(n);
    var low := "grade " + d;
    LowerGradeLabel(d);
    assert forall i :: 0 <= i < |low| ==> low[i] != 'k' by {
      forall i | 0 <= i < |low| ensures low[i] != 'k' {
        if i >= 6 {
          assert low[i] == d[i - 6];
        }
      }
    }
    ContainsNeedsFirst(low, "kinder");
    assert !StartsWith(low, "k") by {
      assert low[0] == 'g';
    }
    DigitsOfGradeLabel(d);
    DigitsOfNat(n);
  }

  /** Any label that starts with a K, in either case, reads as grade 0. */
  lemma KinderIsZero(lab: string)
    requires |lab| > 0 && (lab[0] == 'K' || lab[0] == 'k')
    ensures ExtractGradeNumber(Some(lab)) == Some(0)
  {
    assert Lower(lab)[..1] == "k";
  }

  // ---------------------------------------------------------------------
  // Pagination of the KPI API

  /** `max(int(page), 1)`, 1 where `int()` raises; a missing parameter is
      the text "1". */
  function PageNumber(raw: Option<string>): (p: int)
    ensures p >= 1
    ensures PyInt(raw.GetOr("1")).None? ==> p == 1
    ensures PyInt(raw.GetOr("1")).Some? ==> var v := PyInt(raw.GetOr("1")).value;
      p == if v >= 1 then v else 1
  {
    match PyInt(raw.GetOr("1"))
    case None => 1
    case Some(v) => if v >= 1 then v else 1
  }

  const MaxPageSize := 500

  /** `max(min(int(page_size), 500), 1)`, 50 where `int()` raises; a
      missing parameter is the text "50". */
  function PageSize(raw: Option<string>): (n: int)
    ensures 1 <= n <= MaxPageSize
    ensures PyInt(raw.GetOr("50")).None? ==> n == 50
    ensures PyInt(raw.GetOr("50")).Some? ==> var v := PyInt(raw.GetOr("50")).value;
      (1 <= v <= MaxPageSize ==> n == v) && (v > MaxPageSize ==> n == MaxPageSize) && (v < 1 ==> n == 1)
  {
    match PyInt(raw.GetOr("50"))
    case None => 50
    case Some(v) => if v > MaxPageSize then MaxPageSize else if v < 1 then 1 else v
  }

  lemma FiftyParses()
    ensures PyInt("50") == Some(50) && PyInt("1") == Some(1)
  {
    PyIntOfString(50);
    PyIntOfString(1);
    assert IntToString(50) == "50";
  }

  /** The parameters the API falls back on when none are given. */
  lemma DefaultPaging()
    ensures PageNumber(None) == 1 && PageSize(None) == 50
  {
    FiftyParses();
  }

  /** A page size given as a number is clamped into 1..500. */
  lemma PageSizeOfInt(i: int)
    ensures PageSize(Some(IntToString(i))) == if i > MaxPageSize then MaxPageSize else if i < 1 then 1 else i
    ensures PageNumber(Some(IntToString(i))) == if i >= 1 then i else 1
  {
    PyIntOfString(i);
  }

  /** `results[start:start + page_size]` with `start = (page - 1) * page_size`:
      a slice that is empty past the end. */
  function Paged<R>(results: seq<R>, page: int, size: int): (r: seq<R>)
    requires page >= 1 && size >= 1
    ensures |r| <= size
    ensures forall k :: 0 <= k < |r| ==> (page - 1) * size + k < |results| && r[k] == results[(page - 1) * size + k]
    ensures (page - 1) * size >= |results| ==> r == []
    ensures (page - 1) * size < |results| ==>
      |r| == (if (page - 1) * size + size <= |results| then size else |results| - (page - 1) * size)
  {
    var start := (page - 1) * size;
    if start >= |results| then []
    else results[start..if start + size <= |results| then start + size else |results|]
  }

  /** Every result is on exactly the page its position says. */
  lemma PageOfPosition<R>(results: seq<R>, size: int, i: int)
    requires size >= 1 && 0 <= i < |results|
    ensures var r := Paged(results, i / size + 1, size);
      i % size < |r| && r[i % size] == results[i]
  {
    var q := i / size;
    assert q * size + i % size == i;
    assert (q + 1 - 1) * size == q * size;
  }

  /** The body of the API's JSON response. */
  datatype ApiPage<R> = ApiPage(page: int, pageSize: int, total: int, results: seq<R>)

  /** `smme_kpi_api`'s paging of the full result list. */
  function Respond<R>(rows: seq<R>, rawPage: Option<string>, rawSize: Option<string>): (p: ApiPage<R>)
    ensures p.total == |rows| && p.page >= 1 && 1 <= p.pageSize <= MaxPageSize
    ensures |p.results| <= p.pageSize
    ensures p.results == Paged(rows, p.page, p.pageSize)
  {
    var page := PageNumber(rawPage);
    var size := PageSize(rawSize);
    ApiPage(page, size, |rows|, Paged(rows, page, size))
  }

  /** What the dashboard script receives: its one request asks for page 1
      with page_size=10000. */
  function AjaxRows<R>(rows: seq<R>): seq<R>
  {
    Respond(rows, Some("1"), Some("10000")).results
  }

  /** The script's request is clamped: past 500 rows it sees only the first
      500. */
  lemma AjaxRowsTruncated<R>(rows: seq<R>)
    ensures |rows| > MaxPageSize ==> AjaxRows(rows) == rows[..MaxPageSize]
    ensures |rows| <= MaxPageSize ==> AjaxRows(rows) == rows
  {
    PageSizeOfInt(10000);
    PageSizeOfInt(1);
    assert IntToString(10000) == "10000" && IntToString(1) == "1";
    var r := AjaxRows(rows);
    if |rows| > MaxPageSize {
      assert r == rows[..MaxPageSize];
    } else {
      assert r == rows;
    }
  }

  /** The script as intended: keep asking for the next page of 500 until
      `total` rows have arrived; they are all the rows, in order. */
  method FetchAllPages<R>(rows: seq<R>) returns (acc: seq<R>)
    ensures acc == rows
  {
    acc := [];
    var page := 1;
    var size := MaxPageSize;
    while |acc| < |rows|
      invariant page >= 1 && (|acc| == (page - 1) * size || |acc| == |rows|)
      invariant |acc| <= |rows| && acc == rows[..|acc|]
      decreases |rows| - |acc|
    {
      var resp := Respond(rows, Some(IntToString(page)), Some(IntToString(size)));
      PageSizeOfInt(page);
      PageSizeOfInt(size);
      assert resp.page == page && resp.pageSize == size;
      var chunk := resp.results;
      assert |chunk| >= 1;
      assert acc + chunk == rows[..|acc| + |chunk|];
      assert page * size == (page - 1) * size + size;
      acc := acc + chunk;
      page := page + 1;
    }
    assert rows[..|rows|] == rows;
  }

  // ---------------------------------------------------------------------
  // Reading period of a quarter

  /** `_timing_from_quarter`: Q1 is end of year, Q2 and Q3 beginning, Q4
      middle, and anything else end of year. */
  function TimingFromQuarter(q: string): (t: string)
    ensures t == "bosy" || t == "mosy" || t == "eosy"
    ensures t == SubmissionExports.ExportTiming(Some(q))
  {
    if q == "Q1" then "eosy"
    else if q == "Q2" || q == "Q3" then "bosy"
    else if q == "Q4" then "mosy"
    else "eosy"
  }

  // ---------------------------------------------------------------------
  // Performance thresholds

  /** The three bands of a percentage: high is 75 and above, medium from 50
      up to 75, low below 50. */
  predicate InBand(threshold: string, v: real)
  {
    (threshold == "high" && v >= 75.0) ||
    (threshold == "medium" && 50.0 <= v < 75.0) ||
    (threshold == "low" && v < 50.0)
  }

  /** Every value falls in exactly one band. */
  lemma OneBand(v: real)
    ensures InBand("high", v) || InBand("medium", v) || InBand("low", v)
    ensures !(InBand("high", v) && InBand("medium", v))
    ensures !(InBand("high", v) && InBand("low", v))
    ensures !(InBand("medium", v) && InBand("low", v))
  {
  }

  /** The test a row's value passes for a threshold's band. */
  function BandKeep<R>(threshold: string, value: R -> real): R -> bool
  {
    x => InBand(threshold, value(x))
  }

  /** The threshold filter of SLP distribution rows and of the KPI table:
      'all' keeps everything, another threshold keeps the rows whose value
      is in its band. An unknown threshold (the dashboard has already reset
      it to 'all') keeps everything too. */
  function ThresholdFilter<R>(rows: seq<R>, value: R -> real, threshold: string): (r: seq<R>)
    ensures threshold !in {"high", "medium", "low"} ==> r == rows
  {
    if threshold in {"high", "medium", "low"} then Filter(rows, BandKeep(threshold, value))
    else rows
  }

  /** The high, medium and low filters split the rows between them. */
  lemma {:induction false} BandsSplitRows<R>(rows: seq<R>, value: R -> real)
    ensures |ThresholdFilter(rows, value, "high")| + |ThresholdFilter(rows, value, "medium")| +
      |ThresholdFilter(rows, value, "low")| == |rows|
    decreases |rows|
  {
    if rows != [] {
      var init := rows[..|rows| - 1];
      BandsSplitRows(init, value);
      OneBand(value(rows[|rows| - 1]));
      assert ThresholdFilter(init, value, "high") == Filter(init, BandKeep("high", value));
      assert ThresholdFilter(init, value, "medium") == Filter(init, BandKeep("medium", value));
      assert ThresholdFilter(init, value, "low") == Filter(init, BandKeep("low", value));
    }
  }

  /** A school of the SLP subject-detail view with its subject rows. */
  datatype SchoolSubjects<S> = SchoolSubjects(school: string, subjects: seq<S>, totalSubjects: int)

  /** The subject-detail filter as a specification: each school keeps the
      subjects in the band, and a school left with none is dropped. */
  function DetailFiltered<S>(schools: seq<SchoolSubjects<S>>, rate: S -> real, threshold: string): seq<SchoolSubjects<S>>
    decreases |schools|
  {
    if schools == [] then []
    else
      var init := DetailFiltered(schools[..|schools| - 1], rate, threshold);
      var s := schools[|schools| - 1];
      var kept := Filter(s.subjects, BandKeep(threshold, rate));
      if kept == [] then init else init + [s.(subjects := kept, totalSubjects := |kept|)]
  }

  /** What the detail filter leaves: schools from the input, in order, each
      with at least one subject, every subject in the band. */
  lemma {:induction false} DetailFilteredMeaning<S>(schools: seq<SchoolSubjects<S>>, rate: S -> real, threshold: string)
    ensures forall k :: 0 <= k < |DetailFiltered(schools, rate, threshold)| ==>
      var s := DetailFiltered(schools, rate, threshold)[k];
      |s.subjects| >= 1 && s.totalSubjects == |s.subjects| &&
      forall x :: x in s.subjects ==> InBand(threshold, rate(x))
    ensures |DetailFiltered(schools, rate, threshold)| <= |schools|
    decreases |schools|
  {
    if schools != [] {
      var init := schools[..|schools| - 1];
      DetailFilteredMeaning(init, rate, threshold);
      var last := schools[|schools| - 1];
      var kept := Filter(last.subjects, BandKeep(threshold, rate));
      FilterMeaning(last.subjects, BandKeep(threshold, rate));
      var r := DetailFiltered(schools, rate, threshold);
      var ri := DetailFiltered(init, rate, threshold);
      if kept != [] {
        assert r == ri + [last.(subjects := kept, totalSubjects := |kept|)];
        forall k | 0 <= k < |r|
          ensures |r[k].subjects| >= 1 && r[k].totalSubjects == |r[k].subjects| &&
            forall x :: x in r[k].subjects ==> InBand(threshold, rate(x))
        {
          if k < |ri| {
            assert r[k] == ri[k];
          } else {
            KeptInBand(last.subjects, rate, threshold);
          }
        }
      }
    }
  }

  lemma KeptInBand<S>(xs: seq<S>, rate: S -> real, threshold: string)
    ensures forall x :: x in Filter(xs, BandKeep(threshold, rate)) ==> InBand(threshold, rate(x))
  {
    FilterMeaning(xs, BandKeep(threshold, rate));
  }

  lemma DetailFilteredSnoc<S>(schools: seq<SchoolSubjects<S>>, rate: S -> real, threshold: string, i: int)
    requires 0 <= i < |schools|
    ensures DetailFiltered(schools[..i + 1], rate, threshold) ==
      var kept := Filter(schools[i].subjects, BandKeep(threshold, rate));
      if kept == [] then DetailFiltered(schools[..i], rate, threshold)
      else DetailFiltered(schools[..i], rate, threshold) + [schools[i].(subjects := kept, totalSubjects := |kept|)]
  {
    assert schools[..i + 1][..i] == schools[..i];
  }

  /** The loop filtering subjects within schools. */
  method FilterSubjectDetail<S>(schools: seq<SchoolSubjects<S>>, rate: S -> real, threshold: string)
    returns (filtered: seq<SchoolSubjects<S>>)
    ensures filtered == DetailFiltered(schools, rate, threshold)
  {
    filtered := [];
    var i := 0;
    while i < |schools|
      invariant 0 <= i <= |schools|
      invariant filtered == DetailFiltered(schools[..i], rate, threshold)
    {
      var kept := KeepInBand(schools[i].subjects, rate, threshold);
      DetailFilteredSnoc(schools, rate, threshold, i);
      if kept != [] {
        filtered := filtered + [schools[i].(subjects := kept, totalSubjects := |kept|)];
      }
      i := i + 1;
    }
    assert schools[..|schools|] == schools;
  }

  method KeepInBand<S>(subjects: seq<S>, rate: S -> real, threshold: string) returns (kept: seq<S>)
    ensures kept == Filter(subjects, BandKeep(threshold, rate))
  {
    kept := [];
    var j := 0;
    while j < |subjects|
      invariant 0 <= j <= |subjects|
      invariant kept == Filter(subjects[..j], BandKeep(threshold, rate))
    {
      assert subjects[..j + 1][..j] == subjects[..j];
      if InBand(threshold, rate(subjects[j])) {
        kept := kept + [subjects[j]];
      }
      j := j + 1;
    }
    assert subjects[..|subjects|] == subjects;
  }

  // ---------------------------------------------------------------------
  // Completion rates

  /** `completed * 100 // total`, 0 when there are no forms. */
  function CompletionRate(completed: int, total: int): (r: int)
    ensures total > 0 ==> r * total <= completed * 100 < r * total + total
    ensures total <= 0 ==> r == 0
  {
    if total > 0 then completed * 100 / total else 0
  }

  /** Within 0..total the rate is a percentage, 100 exactly when every form
      is complete. */
  lemma CompletionRateRange(completed: int, total: int)
    requires 0 <= completed <= total && total > 0
    ensures 0 <= CompletionRate(completed, total) <= 100
    ensures CompletionRate(completed, total) == 100 <==> completed == total
  {
    DivIs(100 * total, total, 100);
  }

  function Sum(xs: seq<int>): int
    decreases |xs|
  {
    if xs == [] then 0 else Sum(xs[..|xs| - 1]) + xs[|xs| - 1]
  }

  /** `sum(progress) // len(progress)`, 0 with no drafts. */
  function AverageCompletion(progress: seq<int>): (r: int)
    ensures |progress| > 0 ==> r * |progress| <= Sum(progress) < r * |progress| + |progress|
    ensures progress == [] ==> r == 0
  {
    if progress == [] then 0 else Sum(progress) / |progress|
  }

  lemma {:induction false} SumBounds(xs: seq<int>, lo: int, hi: int)
    requires forall x :: x in xs ==> lo <= x <= hi
    ensures lo * |xs| <= Sum(xs) <= hi * |xs|
    decreases |xs|
  {
    if xs != [] {
      var init := xs[..|xs| - 1];
      forall x | x in init ensures lo <= x <= hi {
        var i :| 0 <= i < |init| && init[i] == x;
        assert xs[i] == x && xs[i] in xs;
      }
      SumBounds(init, lo, hi);
      assert xs[|xs| - 1] in xs;
    }
  }

  /** The average of progress values in 0..100 is in 0..100. */
  lemma AverageInRange(progress: seq<int>)
    requires forall p :: p in progress ==> 0 <= p <= 100
    ensures 0 <= AverageCompletion(progress) <= 100
  {
    if progress != [] {
      SumBounds(progress, 0, 100);
    }
  }

  // ---------------------------------------------------------------------
  // Summary cards

  datatype Card = Card(cardLabel: string, value: real, hint: string, tone: Option<string>)

  function MetricOf(metrics: map<string, real>, key: string): real
  {
    if key in metrics then metrics[key] else 0.0
  }

  /** `_build_summary_cards`: no cards without metrics, else the five cards
      in their fixed order. `show` renders the completion rate for its hint. */
  function SummaryCards(metrics: map<string, real>, show: real -> string): (cards: seq<Card>)
    ensures metrics == map[] ==> cards == []
    ensures metrics != map[] ==> (|cards| == 5 &&
      cards[0].value == MetricOf(metrics, "total_schools") &&
      cards[1].value == MetricOf(metrics, "submitted_count") &&
      cards[2].value == MetricOf(metrics, "dnme_percent") &&
      cards[3].value == MetricOf(metrics, "average_burn_rate") &&
      cards[4].value == MetricOf(metrics, "philiri_band10_total") &&
      cards[1].tone == Some("success") &&
      (forall k :: 0 <= k < 5 && k != 1 ==> cards[k].tone.None?))
  {
    if metrics == map[] then []
    else [
      Card("Total schools", MetricOf(metrics, "total_schools"), "Across selected filters", None),
      Card("Submitted", MetricOf(metrics, "submitted_count"),
        "Completion rate " + show(MetricOf(metrics, "completion_rate")) + "%", Some("success")),
      Card("DNME %", MetricOf(metrics, "dnme_percent"), "Learners who did not meet expectations", None),
      Card("Avg ADM burn rate %", MetricOf(metrics, "average_burn_rate"), "Weighted by ADM records", None),
      Card("PHILIRI band 10 total", MetricOf(metrics, "philiri_band10_total"), "Highest proficiency learners", None)
    ]
  }

  // ---------------------------------------------------------------------
  // Export file names

  predicate SlugChar(c: char)
  {
    'a' <= c <= 'z' || '0' <= c <= '9' || c == '-'
  }

  /** `re.sub(r'\s+', '-', s)`: each run of whitespace becomes one hyphen. */
  function DashSpaces(s: string): (r: string)
    decreases |s|
  {
    if s == "" then ""
    else
      var rest := DashSpaces(s[1..]);
      if IsSpace(s[0]) then (if |rest| > 0 && rest[0] == '-' && IsSpace(s[1]) then rest else "-" + rest)
      else [s[0]] + rest
  }

  /** `re.sub(r'[^a-z0-9\-]+', '', s)`. */
  function KeepSlugChars(s: string): (r: string)
    ensures forall i :: 0 <= i < |r| ==> SlugChar(r[i])
    decreases |s|
  {
    if s == "" then "" else (if SlugChar(s[0]) then [s[0]] else "") + KeepSlugChars(s[1..])
  }

  /** The view's `_slug`: stripped, lower-cased, whitespace runs as hyphens,
      other characters outside [a-z0-9-] dropped, and "na" for nothing. */
  function Slug(s: Option<string>): (r: string)
    ensures |r| >= 1 && forall i :: 0 <= i < |r| ==> SlugChar(r[i])
  {
    var t := KeepSlugChars(DashSpaces(Lower(Trim(s.GetOr("")))));
    if t == "" then "na" else t
  }

  lemma {:induction false} DashSpacesNone(s: string)
    requires forall i :: 0 <= i < |s| ==> !IsSpace(s[i])
    ensures DashSpaces(s) == s
    decreases |s|
  {
    if s != "" {
      DashSpacesNone(s[1..]);
    }
  }

  lemma {:induction false} KeepSlugCharsAll(s: string)
    requires forall i :: 0 <= i < |s| ==> SlugChar(s[i])
    ensures KeepSlugChars(s) == s
    decreases |s|
  {
    if s != "" {
      KeepSlugCharsAll(s[1..]);
    }
  }

  /** A slug is its own slug, so names built from slugs are stable. */
  lemma SlugIdempotent(s: Option<string>)
    ensures Slug(Some(Slug(s))) == Slug(s)
  {
    var r := Slug(s);
    assert Trimmed(r) by {
      assert !IsSpace(r[0]) && !IsSpace(r[|r| - 1]);
    }
    TrimmedFixed(r);
    NoCapitals(r);
    DashSpacesNone(r);
    KeepSlugCharsAll(r);
  }
}
