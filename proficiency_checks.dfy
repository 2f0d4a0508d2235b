// The submission page's client-side enrolment checks: the band-sum banner of
// an SLP subject panel, the per-row check of the RMA table with its outline
// and banner, and the cross-check of CRLA reading totals against the SLP
// enrolment of each grade.
module ProficiencyChecks {
  import opened Wrappers
  import opened Text

  /** `parseInt(input?.value || '0', 10) || 0` for an input that may be
      missing from the panel. */
  function InputCount(v: Option<string>): (r: int)
    ensures v.None? ==> r == 0
    ensures v.Some? ==> r == CountOf(v.value)
  {
    match v
    case None => 0
    case Some(t) => CountOf(t)
  }

  /** A reading of a count written out in decimal is that count. */
  lemma CountOfNat(n: nat)
    ensures CountOf(NatToString(n)) == n
  {
    ParseIntOfString(n);
  }

  /** The band check shared by the SLP panel and the RMA table. */
  predicate Mismatch(enrolment: int, sum: int)
  {
    enrolment > 0 && sum != enrolment
  }

  function BandsMessage(grade: string, sum: int, enrolment: int): string
  {
    grade + " proficiency bands total (" + IntToString(sum) + ") must equal enrollment (" + IntToString(enrolment) + ")"
  }

  /** Whether " - " starts at position i of s. */
  predicate DashAt(s: string, i: nat)
  {
    i + 3 <= |s| && s[i] == ' ' && s[i + 1] == '-' && s[i + 2] == ' '
  }

  /** The first position at or after i where " - " starts, |s| when none. */
  function DashFrom(s: string, i: nat): (n: nat)
    requires i <= |s|
    ensures i <= n <= |s| && (n == |s| || DashAt(s, n))
    ensures forall j :: i <= j < n ==> !DashAt(s, j)
    decreases |s| - i
  {
    if i == |s| || DashAt(s, i) then i else DashFrom(s, i + 1)
  }

  /** `s.split(' - ')[0]`: the text before the first " - ", all of s when
      there is none. */
  function BeforeDash(s: string): string
  {
    s[..DashFrom(s, 0)]
  }

  /** The grade named in the panel header ("Grade 7 - Math" gives
      "Grade 7"), or "Grade" without a header text. */
  function GradeLabelOf(header: Option<string>): string
  {
    if header.Some? && header.value != "" then BeforeDash(Trim(header.value)) else "Grade"
  }

  /** A header "<grade> - <subject>" gives its grade when the grade has no
      hyphen. */
  lemma HeaderGrade(g: string, rest: string)
    requires g != "" && Free(g, '-') && Trimmed(g + " - " + rest)
    ensures GradeLabelOf(Some(g + " - " + rest)) == g
  {
    var x := g + " - " + rest;
    TrimmedFixed(x);
    assert DashAt(x, |g|);
    forall j | 0 <= j < |g| ensures !DashAt(x, j) {
      assert j + 1 < |g| ==> x[j + 1] == g[j + 1];
    }
    assert DashFrom(x, 0) == |g|;
    assert x[..|g|] == g;
  }

  /** The five band inputs of an SLP panel, each of which may be missing. */
  datatype SlpBands = SlpBands(dnme: Option<string>, fs: Option<string>, s: Option<string>,
                               vs: Option<string>, o: Option<string>)
  {
    function Total(): int
    {
      InputCount(dnme) + InputCount(fs) + InputCount(s) + InputCount(vs) + InputCount(o)
    }
  }

  /** The proficiency section of a panel: whether it holds the long-form
      error container and its message box, and whether it is marked with
      the error class. */
  datatype ProficiencySection = ProficiencySection(container: bool, messages: bool, flagged: bool)

  /** What updateProficiencyDisplay reads and writes in one subject panel. */
  datatype PanelState = PanelState(
    enrolment: Option<string>,
    bands: SlpBands,
    header: Option<string>,
    section: Option<ProficiencySection>,
    containerShown: bool,
    containerMessage: string,
    bandsFlagged: bool,
    banners: seq<string>)

  predicate HasContainer(p: PanelState)
  {
    p.section.Some? && p.section.value.container
  }

  predicate PanelMismatch(p: PanelState)
    requires p.enrolment.Some?
  {
    Mismatch(CountOf(p.enrolment.value), p.bands.Total())
  }

  function PanelMessage(p: PanelState): string
    requires p.enrolment.Some?
  {
    BandsMessage(GradeLabelOf(p.header), p.bands.Total(), CountOf(p.enrolment.value))
  }

  /** The banners left after `querySelector(...).remove()`: the first goes. */
  function DropFirst(banners: seq<string>): seq<string>
  {
    if |banners| > 0 then banners[1..] else banners
  }

  /** updateProficiencyDisplay: without an enrolment input nothing changes;
      otherwise the band inputs and the section are marked exactly when the
      bands miss the enrolment, the long-form container ends hidden, the
      previous banner is removed and, on a mismatch, one new banner holds
      the message. */
  function Refreshed(p: PanelState): PanelState
  {
    if p.enrolment.None? then p
    else
      var m := PanelMismatch(p);
      var msg := PanelMessage(p);
      var sec := p.section;
      p.(section := if sec.Some? then Some(sec.value.(flagged := m)) else sec,
         containerShown := if HasContainer(p) then false else p.containerShown,
         containerMessage := if m && HasContainer(p) && sec.value.messages then msg else p.containerMessage,
         bandsFlagged := m,
         banners := if m then [msg] + DropFirst(p.banners) else DropFirst(p.banners))
  }

  /** A panel shows a banner exactly when its bands miss a positive
      enrolment, never more than one when it had at most one, and the
      banner carries the grade, the sum and the enrolment. */
  lemma PanelBanner(p: PanelState)
    requires p.enrolment.Some? && |p.banners| <= 1
    ensures var q := Refreshed(p);
      |q.banners| <= 1 &&
      (|q.banners| == 1 <==> CountOf(p.enrolment.value) > 0 && p.bands.Total() != CountOf(p.enrolment.value)) &&
      (|q.banners| == 1 ==> q.banners[0] == BandsMessage(GradeLabelOf(p.header), p.bands.Total(), CountOf(p.enrolment.value))) &&
      (q.bandsFlagged <==> |q.banners| == 1) &&
      (HasContainer(q) ==> !q.containerShown)
  {
  }

  /** Bands that add up to the enrolment raise nothing, whatever the
      enrolment. */
  lemma ConsistentPanelIsQuiet(p: PanelState, e: nat)
    requires p.enrolment == Some(NatToString(e)) && p.bands.Total() == e
    ensures Refreshed(p).banners == DropFirst(p.banners) && !Refreshed(p).bandsFlagged
  {
    CountOfNat(e);
  }

  /** One SLP subject panel of the page. */
  class SubjectPanel {
    var enrolment: Option<string>
    var bands: SlpBands
    var header: Option<string>
    var section: Option<ProficiencySection>
    var containerShown: bool
    var containerMessage: string
    var bandsFlagged: bool
    var banners: seq<string>

    function State(): PanelState
      reads this
    {
      PanelState(enrolment, bands, header, section, containerShown, containerMessage, bandsFlagged, banners)
    }

    constructor (initial: PanelState)
      ensures State() == initial
    {
      enrolment := initial.enrolment;
      bands := initial.bands;
      header := initial.header;
      section := initial.section;
      containerShown := initial.containerShown;
      containerMessage := initial.containerMessage;
      bandsFlagged := initial.bandsFlagged;
      banners := initial.banners;
    }

    /** updateProficiencyDisplay. */
    method UpdateProficiencyDisplay()
      modifies this
      ensures State() == Refreshed(old(State()))
    {
      if enrolment.None? {
        return;
      }
      var e := CountOf(enrolment.value);
      var sum := bands.Total();
      var msg := BandsMessage(GradeLabelOf(header), sum, e);
      var mismatch := e > 0 && sum != e;
      MarkInputs(mismatch, msg);
      ShowBanner(mismatch, msg);
    }

    /** The first block: the long-form container and the band inputs. */
    method MarkInputs(mismatch: bool, msg: string)
      modifies this
      ensures enrolment == old(enrolment) && bands == old(bands) && header == old(header)
      ensures section == old(section) && banners == old(banners)
      ensures bandsFlagged == mismatch
      ensures containerShown == (if section.Some? && section.value.container && !mismatch then false
                                 else if section.Some? && section.value.container && section.value.messages then true
                                 else old(containerShown))
      ensures containerMessage == (if mismatch && section.Some? && section.value.container && section.value.messages then msg else old(containerMessage))
    {
      var container := section.Some? && section.value.container;
      if mismatch {
        if container && section.value.messages {
          containerShown := true;
          containerMessage := msg;
        }
        bandsFlagged := true;
      } else {
        if container {
          containerShown := false;
        }
        bandsFlagged := false;
      }
    }

    /** The second block: the compact banner and the section's error class. */
    method ShowBanner(mismatch: bool, msg: string)
      modifies this
      ensures enrolment == old(enrolment) && bands == old(bands) && header == old(header)
      ensures bandsFlagged == old(bandsFlagged) && containerMessage == old(containerMessage)
      ensures section == (if old(section).Some? then Some(old(section).value.(flagged := mismatch)) else None)
      ensures containerShown == (if mismatch && old(section).Some? && old(section).value.container then false else old(containerShown))
      ensures banners == (if mismatch then [msg] + DropFirst(old(banners)) else DropFirst(old(banners)))
    {
      if |banners| > 0 {
        banners := banners[1..];
      }
      if mismatch {
        if section.Some? && section.value.container {
          containerShown := false;
        }
        banners := [msg] + banners;
        if section.Some? {
          section := Some(section.value.(flagged := true));
        }
      } else if section.Some? {
        section := Some(section.value.(flagged := false));
      }
    }
  }

  // ---------------------------------------------------------------------
  // RMA rows

  /** One row of the RMA table: its enrolment text, the text of its first
      cell (when there is one) and its band inputs. */
  datatype RmaRow = RmaRow(enrolment: string, gradeCell: Option<string>, bands: seq<string>)

  /** A finding of validateRMAEnrollment: the row and the message. */
  datatype RmaError = RmaError(row: nat, message: string)

  function RmaGrade(cell: Option<string>): string
  {
    match cell
    case None => "Grade"
    case Some(t) => Trim(t)
  }

  /** The `reduce` over the row's band inputs. */
  function BandTotal(bands: seq<string>): int
  {
    if |bands| == 0 then 0 else BandTotal(bands[..|bands| - 1]) + CountOf(bands[|bands| - 1])
  }

  predicate RowMismatch(r: RmaRow)
  {
    Mismatch(CountOf(r.enrolment), BandTotal(r.bands))
  }

  function RowMessage(r: RmaRow): string
  {
    BandsMessage(RmaGrade(r.gradeCell), BandTotal(r.bands), CountOf(r.enrolment))
  }

  /** A row's finding, if it has one. */
  function RowFinding(r: RmaRow): Option<string>
  {
    if RowMismatch(r) then Some(RowMessage(r)) else None
  }

  function Findings(rows: seq<RmaRow>): (f: seq<Option<string>>)
    ensures |f| == |rows| && forall i :: 0 <= i < |rows| ==> f[i] == RowFinding(rows[i])
  {
    seq(|rows|, i requires 0 <= i < |rows| => RowFinding(rows[i]))
  }

  /** The findings of some rows, each numbered with its row. */
  function Collect(f: seq<Option<string>>): seq<RmaError>
  {
    if |f| == 0 then []
    else
      var n := |f| - 1;
      Collect(f[..n]) + (if f[n].Some? then [RmaError(n, f[n].value)] else [])
  }

  /** validateRMAEnrollment: the findings in row order. */
  function RmaErrors(rows: seq<RmaRow>): seq<RmaError>
  {
    Collect(Findings(rows))
  }

  lemma CollectStep(f: seq<Option<string>>, i: nat)
    requires i < |f|
    ensures Collect(f[..i + 1]) == Collect(f[..i]) + (if f[i].Some? then [RmaError(i, f[i].value)] else [])
  {
    assert f[..i + 1][..i] == f[..i];
  }

  lemma BandTotalStep(bands: seq<string>, i: nat)
    requires i < |bands|
    ensures BandTotal(bands[..i + 1]) == BandTotal(bands[..i]) + CountOf(bands[i])
  {
    assert bands[..i + 1][..i] == bands[..i];
  }

  predicate FlaggedRow(es: seq<RmaError>, i: nat)
  {
    exists k :: 0 <= k < |es| && es[k].row == i
  }

  lemma FlaggedAppend(a: seq<RmaError>, b: seq<RmaError>, i: nat)
    ensures FlaggedRow(a + b, i) <==> FlaggedRow(a, i) || FlaggedRow(b, i)
  {
    if FlaggedRow(a + b, i) {
      var k :| 0 <= k < |a + b| && (a + b)[k].row == i;
      if k >= |a| {
        assert b[k - |a|].row == i;
      }
    }
    if FlaggedRow(a, i) {
      var k :| 0 <= k < |a| && a[k].row == i;
      assert (a + b)[k].row == i;
    }
    if FlaggedRow(b, i) {
      var k :| 0 <= k < |b| && b[k].row == i;
      assert (a + b)[|a| + k].row == i;
    }
  }

  /** The collected findings name rows in increasing order, each with that
      row's message. */
  lemma {:induction false} CollectSound(f: seq<Option<string>>)
    ensures forall k :: 0 <= k < |Collect(f)| ==> Collect(f)[k].row < |f| && f[Collect(f)[k].row] == Some(Collect(f)[k].message)
    ensures forall k, l :: 0 <= k < l < |Collect(f)| ==> Collect(f)[k].row < Collect(f)[l].row
  {
    if |f| > 0 {
      var n := |f| - 1;
      var init := f[..n];
      CollectSound(init);
      var ei := Collect(init);
      var es := Collect(f);
      var last := if f[n].Some? then [RmaError(n, f[n].value)] else [];
      assert es == ei + last;
      forall k | 0 <= k < |es| ensures es[k].row < |f| && f[es[k].row] == Some(es[k].message) {
        if k < |ei| {
          assert es[k] == ei[k];
          assert init[ei[k].row] == f[ei[k].row];
        }
      }
      forall k, l | 0 <= k < l < |es| ensures es[k].row < es[l].row {
        assert es[k] == ei[k];
        if l < |ei| {
          assert es[l] == ei[l];
        }
      }
    }
  }

  /** A row is collected exactly when it has a finding. */
  lemma {:induction false} CollectComplete(f: seq<Option<string>>, i: nat)
    requires i < |f|
    ensures f[i].Some? <==> FlaggedRow(Collect(f), i)
  {
    var n := |f| - 1;
    var init := f[..n];
    var last := if f[n].Some? then [RmaError(n, f[n].value)] else [];
    assert Collect(f) == Collect(init) + last;
    FlaggedAppend(Collect(init), last, i);
    if i < n {
      CollectComplete(init, i);
      assert init[i] == f[i];
      assert !FlaggedRow(last, i);
    } else {
      CollectSound(init);
      assert !FlaggedRow(Collect(init), i);
      if f[n].Some? {
        assert last[0].row == n;
      }
    }
  }

  /** A finding that names a row of the table whose bands miss its
      enrolment, with that row's message. */
  predicate SoundError(rows: seq<RmaRow>, e: RmaError)
  {
    e.row < |rows| && RowMismatch(rows[e.row]) && e.message == RowMessage(rows[e.row])
  }

  /** Each row is flagged at most once, in row order, exactly when its bands
      miss a positive enrolment, with that row's message. */
  lemma RmaErrorsExact(rows: seq<RmaRow>)
    ensures var es := RmaErrors(rows);
      (forall k :: 0 <= k < |es| ==> SoundError(rows, es[k])) &&
      (forall k, l :: 0 <= k < l < |es| ==> es[k].row < es[l].row) &&
      (forall i :: 0 <= i < |rows| ==> (RowMismatch(rows[i]) <==> FlaggedRow(es, i)))
  {
    var f := Findings(rows);
    CollectSound(f);
    forall i | 0 <= i < |rows| ensures RowMismatch(rows[i]) <==> FlaggedRow(RmaErrors(rows), i) {
      CollectComplete(f, i);
    }
  }

  /** The RMA table and what wireRMAVerification's redraw paints on it. */
  class RmaTable {
    var rows: seq<RmaRow>
    /** Outlined rows, each with its title. */
    var outlined: map<nat, string>
    var banners: seq<string>
    /** Whether the `.data-table-wrapper` host for the banner exists. */
    var hasHost: bool

    constructor (rows0: seq<RmaRow>, banners0: seq<string>, hasHost0: bool)
      ensures rows == rows0 && outlined == map[] && banners == banners0 && hasHost == hasHost0
    {
      rows := rows0;
      outlined := map[];
      banners := banners0;
      hasHost := hasHost0;
    }

    /** The sum of one row's band inputs. */
    static method SumBands(bands: seq<string>) returns (sum: int)
      ensures sum == BandTotal(bands)
    {
      sum := 0;
      var j := 0;
      while j < |bands|
        invariant 0 <= j <= |bands|
        invariant sum == BandTotal(bands[..j])
      {
        BandTotalStep(bands, j);
        sum := sum + CountOf(bands[j]);
        j := j + 1;
      }
      assert bands[..j] == bands;
    }

    /** validateRMAEnrollment. */
    static method ValidateRmaEnrollment(rows: seq<RmaRow>) returns (errors: seq<RmaError>)
      ensures errors == RmaErrors(rows)
    {
      errors := [];
      ghost var f := Findings(rows);
      var i := 0;
      while i < |rows|
        invariant 0 <= i <= |rows|
        invariant errors == Collect(f[..i])
      {
        CollectStep(f, i);
        var e := CountOf(rows[i].enrolment);
        if e > 0 {
          var sum := SumBands(rows[i].bands);
          if sum != e {
            errors := errors + [RmaError(i, BandsMessage(RmaGrade(rows[i].gradeCell), sum, e))];
          }
        }
        i := i + 1;
      }
      assert f[..i] == f;
    }

    /** The redraw of wireRMAVerification: previous outlines and the first
        old banner are cleared, every flagged row is outlined with its
        message, and one banner shows the first message when a host exists. */
    method Redraw()
      modifies this
      ensures rows == old(rows) && hasHost == old(hasHost)
      ensures outlined == Outlines(RmaErrors(rows))
      ensures banners == (if |RmaErrors(rows)| > 0 && hasHost then [RmaErrors(rows)[0].message] else [])
                         + DropFirst(old(banners))
    {
      outlined := map[];
      banners := DropFirst(banners);
      var errs := ValidateRmaEnrollment(rows);
      var k := 0;
      while k < |errs|
        invariant 0 <= k <= |errs|
        invariant outlined == Outlines(errs[..k])
        invariant banners == DropFirst(old(banners)) && rows == old(rows) && hasHost == old(hasHost)
      {
        assert errs[..k + 1][..k] == errs[..k];
        outlined := outlined[errs[k].row := errs[k].message];
        k := k + 1;
      }
      assert errs[..k] == errs;
      if |errs| > 0 && hasHost {
        banners := [errs[0].message] + banners;
      }
    }
  }

  /** The outlines painted for some findings: row to message. */
  function Outlines(errs: seq<RmaError>): map<nat, string>
  {
    if |errs| == 0 then map[]
    else Outlines(errs[..|errs| - 1])[errs[|errs| - 1].row := errs[|errs| - 1].message]
  }

  lemma {:induction false} OutlinesKeys(errs: seq<RmaError>)
    ensures forall r :: r in Outlines(errs) <==> FlaggedRow(errs, r)
  {
    if |errs| > 0 {
      var init := errs[..|errs| - 1];
      OutlinesKeys(init);
      forall r | r in Outlines(errs) ensures FlaggedRow(errs, r) {
        if r != errs[|errs| - 1].row {
          assert r in Outlines(init);
          var k :| 0 <= k < |init| && init[k].row == r;
          assert errs[k] == init[k];
        }
      }
      forall r | FlaggedRow(errs, r) ensures r in Outlines(errs) {
        var k :| 0 <= k < |errs| && errs[k].row == r;
        if k < |init| {
          assert init[k] == errs[k];
        }
      }
    }
  }

  /** After a redraw exactly the mismatching rows are outlined. */
  lemma OutlinedExactly(rows: seq<RmaRow>)
    ensures forall i :: 0 <= i < |rows| ==> (i in Outlines(RmaErrors(rows)) <==> RowMismatch(rows[i]))
  {
    RmaErrorsExact(rows);
    OutlinesKeys(RmaErrors(rows));
  }

  // ---------------------------------------------------------------------
  // The reading cross-check

  /** The grade part of an SLP enrolment input id: `kinder` or `grade_<digits>`. */
  datatype GradePart = KinderPart | GradeDigits(digits: string)

  /** An SLP enrolment input: the grade part its id matches (None when the
      id does not have the `slp_rows-<n>-<grade>-<subject>-enrolment` form)
      and its value. */
  datatype SlpEnrolmentInput = SlpEnrolmentInput(part: Option<GradePart>, value: string)

  function SlpGradeName(p: GradePart): string
  {
    match p
    case KinderPart => "Kinder"
    case GradeDigits(d) => "Grade " + d
  }

  /** Whether an input supplies a positive enrolment for grade g. */
  predicate Supplies(x: SlpEnrolmentInput, g: string)
  {
    CountOf(x.value) > 0 && x.part.Some? && SlpGradeName(x.part.value) == g
  }

  /** getSLPEnrollmentData: grade name to the first positive enrolment. */
  function SlpEnrolment(inputs: seq<SlpEnrolmentInput>): (r: map<string, int>)
    ensures forall g :: g in r ==> r[g] > 0
  {
    if |inputs| == 0 then map[]
    else
      var m := SlpEnrolment(inputs[..|inputs| - 1]);
      var x := inputs[|inputs| - 1];
      var v := CountOf(x.value);
      if v > 0 && x.part.Some? && SlpGradeName(x.part.value) !in m then m[SlpGradeName(x.part.value) := v] else m
  }

  lemma SlpEnrolmentStep(inputs: seq<SlpEnrolmentInput>, i: nat)
    requires i < |inputs|
    ensures var m := SlpEnrolment(inputs[..i]);
      var x := inputs[i];
      SlpEnrolment(inputs[..i + 1]) ==
        if CountOf(x.value) > 0 && x.part.Some? && SlpGradeName(x.part.value) !in m then m[SlpGradeName(x.part.value) := CountOf(x.value)] else m
  {
    assert inputs[..i + 1][..i] == inputs[..i];
  }

  /** A grade is in the map iff some input supplies a positive enrolment for
      it, and then it holds the first such enrolment. */
  lemma {:induction false} FirstEnrolmentWins(inputs: seq<SlpEnrolmentInput>, g: string)
    ensures g in SlpEnrolment(inputs) <==> exists i :: 0 <= i < |inputs| && Supplies(inputs[i], g)
    ensures g in SlpEnrolment(inputs) ==>
      exists i :: 0 <= i < |inputs| && Supplies(inputs[i], g) && SlpEnrolment(inputs)[g] == CountOf(inputs[i].value) &&
                  forall j :: 0 <= j < i ==> !Supplies(inputs[j], g)
  {
    if |inputs| > 0 {
      var n := |inputs| - 1;
      var init := inputs[..n];
      FirstEnrolmentWins(init, g);
      forall j | 0 <= j < n ensures inputs[j] == init[j] { }
      if g in SlpEnrolment(init) {
        var i :| 0 <= i < n && Supplies(init[i], g) && SlpEnrolment(init)[g] == CountOf(init[i].value) &&
                 forall j :: 0 <= j < i ==> !Supplies(init[j], g);
        assert Supplies(inputs[i], g);
      } else if Supplies(inputs[n], g) {
        assert SlpEnrolment(inputs)[g] == CountOf(inputs[n].value);
      }
    }
  }

  /** A CRLA count input: the grade digits its id carries (None when the id
      has no `_<mt|fil|eng>_grade_<digits>` part) and its value. */
  datatype CrlaInput = CrlaInput(gradeNum: Option<string>, value: string)

  const ReadingGradeMap: map<string, string> := map[
    "1" := "Grade 1", "2" := "Grade 2", "3" := "Grade 3", "4" := "Grade 4", "5" := "Grade 5",
    "6" := "Grade 6", "7" := "Grade 7", "8" := "Grade 8", "9" := "Grade 9", "10" := "Grade 10"]

  /** `gradeMap[gradeNum]` used as an object key: a grade outside the map
      becomes the key "undefined". */
  function CrlaGradeName(d: string): string
  {
    if d in ReadingGradeMap then ReadingGradeMap[d] else "undefined"
  }

  predicate CountsFor(x: CrlaInput, g: string)
  {
    x.gradeNum.Some? && CrlaGradeName(x.gradeNum.value) == g
  }

  /** The CRLA total of grade g. */
  function CrlaSum(inputs: seq<CrlaInput>, g: string): int
  {
    if |inputs| == 0 then 0
    else
      var x := inputs[|inputs| - 1];
      CrlaSum(inputs[..|inputs| - 1], g) + (if CountsFor(x, g) then CountOf(x.value) else 0)
  }

  /** The first entry at or after i whose key is k, |t| when there is none. */
  function KeyFrom(t: seq<(string, int)>, k: string, i: nat): (n: nat)
    requires i <= |t|
    ensures i <= n <= |t| && (n == |t| || t[n].0 == k)
    ensures forall j :: i <= j < n ==> t[j].0 != k
    decreases |t| - i
  {
    if i == |t| || t[i].0 == k then i else KeyFrom(t, k, i + 1)
  }

  /** `totals[k] = (totals[k] || 0) + v` on an object whose keys keep their
      insertion order. */
  function Accumulate(t: seq<(string, int)>, k: string, v: int): seq<(string, int)>
  {
    var n := KeyFrom(t, k, 0);
    if n < |t| then t[n := (k, t[n].1 + v)] else t + [(k, v)]
  }

  function Key(x: CrlaInput): string
    requires x.gradeNum.Some?
  {
    CrlaGradeName(x.gradeNum.value)
  }

  /** crlaTotals, in the order its keys were first written. */
  function Totals(inputs: seq<CrlaInput>): seq<(string, int)>
  {
    if |inputs| == 0 then []
    else
      var t := Totals(inputs[..|inputs| - 1]);
      var x := inputs[|inputs| - 1];
      if x.gradeNum.Some? then Accumulate(t, Key(x), CountOf(x.value)) else t
  }

  lemma TotalsStep(inputs: seq<CrlaInput>, i: nat)
    requires i < |inputs|
    ensures Totals(inputs[..i + 1]) ==
      if inputs[i].gradeNum.Some? then Accumulate(Totals(inputs[..i]), Key(inputs[i]), CountOf(inputs[i].value))
      else Totals(inputs[..i])
  {
    assert inputs[..i + 1][..i] == inputs[..i];
  }

  predicate DistinctKeys(t: seq<(string, int)>)
  {
    forall i, j :: 0 <= i < j < |t| ==> t[i].0 != t[j].0
  }

  predicate HasKey(t: seq<(string, int)>, g: string)
  {
    exists k :: 0 <= k < |t| && t[k].0 == g
  }

  predicate Counted(inputs: seq<CrlaInput>, g: string)
  {
    exists i :: 0 <= i < |inputs| && CountsFor(inputs[i], g)
  }

  /** The last input's effect on Totals, Counted and CrlaSum. */
  lemma TotalsLast(inputs: seq<CrlaInput>, g: string)
    requires |inputs| > 0
    ensures var init := inputs[..|inputs| - 1];
      var x := inputs[|inputs| - 1];
      (Counted(inputs, g) <==> Counted(init, g) || CountsFor(x, g)) &&
      CrlaSum(inputs, g) == CrlaSum(init, g) + (if CountsFor(x, g) then CountOf(x.value) else 0)
  {
    var init := inputs[..|inputs| - 1];
    if Counted(inputs, g) {
      var i :| 0 <= i < |inputs| && CountsFor(inputs[i], g);
      if i < |init| {
        assert init[i] == inputs[i];
      }
    }
    if Counted(init, g) {
      var i :| 0 <= i < |init| && CountsFor(init[i], g);
      assert inputs[i] == init[i];
    }
  }

  /** crlaTotals has one entry per grade some input counts for. */
  lemma {:induction false} TotalsKeys(inputs: seq<CrlaInput>)
    ensures DistinctKeys(Totals(inputs))
    ensures forall g :: HasKey(Totals(inputs), g) <==> Counted(inputs, g)
  {
    if |inputs| > 0 {
      var n := |inputs| - 1;
      var init := inputs[..n];
      TotalsKeys(init);
      var t := Totals(init);
      var x := inputs[n];
      forall g ensures HasKey(Totals(inputs), g) <==> Counted(inputs, g) {
        TotalsLast(inputs, g);
        if x.gradeNum.Some? {
          AccumulateKeys(t, Key(x), CountOf(x.value), g);
        }
      }
      if x.gradeNum.Some? {
        AccumulateDistinct(t, Key(x), CountOf(x.value));
      }
    }
  }

  lemma AccumulateKeys(t: seq<(string, int)>, k: string, v: int, g: string)
    ensures HasKey(Accumulate(t, k, v), g) <==> HasKey(t, g) || g == k
  {
    var r := Accumulate(t, k, v);
    var n := KeyFrom(t, k, 0);
    if HasKey(r, g) {
      var j :| 0 <= j < |r| && r[j].0 == g;
      if j < |t| && j != n {
        assert t[j].0 == g;
      }
    }
    if HasKey(t, g) {
      var j :| 0 <= j < |t| && t[j].0 == g;
      assert r[j].0 == g;
    }
    if g == k {
      assert r[n].0 == g;
    }
  }

  lemma AccumulateDistinct(t: seq<(string, int)>, k: string, v: int)
    requires DistinctKeys(t)
    ensures DistinctKeys(Accumulate(t, k, v))
  {
    var r := Accumulate(t, k, v);
    var n := KeyFrom(t, k, 0);
    if n == |t| {
      assert forall j :: 0 <= j < |t| ==> r[j] == t[j];
    } else {
      assert forall j :: 0 <= j < |t| ==> r[j].0 == t[j].0;
    }
  }

  /** Each entry of crlaTotals holds its grade's CRLA total. */
  lemma {:induction false} TotalsSums(inputs: seq<CrlaInput>, k: nat)
    requires k < |Totals(inputs)|
    ensures Totals(inputs)[k].1 == CrlaSum(inputs, Totals(inputs)[k].0)
  {
    var n := |inputs| - 1;
    var init := inputs[..n];
    var t := Totals(init);
    var x := inputs[n];
    var r := Totals(inputs);
    var g := r[k].0;
    TotalsLast(inputs, g);
    if !x.gradeNum.Some? {
      TotalsSums(init, k);
    } else {
      var m := KeyFrom(t, Key(x), 0);
      if k < |t| {
        assert t[k].0 == g;
        TotalsSums(init, k);
        if k == m {
          assert r[k].1 == t[k].1 + CountOf(x.value);
        }
        if k != m {
          assert r[k] == t[k];
          TotalsKeys(init);
          assert g != Key(x);
        }
      } else {
        TotalsKeys(init);
        assert !HasKey(t, g);
        NoCounts(init, g);
      }
    }
  }

  lemma {:induction false} NoCounts(inputs: seq<CrlaInput>, g: string)
    requires !Counted(inputs, g)
    ensures CrlaSum(inputs, g) == 0
  {
    if |inputs| > 0 {
      TotalsLast(inputs, g);
      NoCounts(inputs[..|inputs| - 1], g);
    }
  }

  /** A finding of validateReadingEnrollment for one grade. */
  datatype ReadingError = ReadingError(grade: string, message: string)

  function ReadingMessage(g: string, total: int, enrolment: int): string
  {
    g + " reading totals (" + IntToString(total) + ") must equal SLP enrollment (" + IntToString(enrolment) + ")"
  }

  /** Whether an entry of the totals is reported: the grade's SLP enrolment
      is set (truthy) and differs from the total. */
  predicate Reported(e: (string, int), slp: map<string, int>)
  {
    e.0 in slp && slp[e.0] != 0 && e.1 != slp[e.0]
  }

  function EntryFlags(e: (string, int), slp: map<string, int>): seq<ReadingError>
  {
    if Reported(e, slp) then [ReadingError(e.0, ReadingMessage(e.0, e.1, slp[e.0]))] else []
  }

  /** The findings over the totals, in key order. */
  function Flags(totals: seq<(string, int)>, slp: map<string, int>): seq<ReadingError>
  {
    if |totals| == 0 then []
    else Flags(totals[..|totals| - 1], slp) + EntryFlags(totals[|totals| - 1], slp)
  }

  lemma FlagsStep(totals: seq<(string, int)>, slp: map<string, int>, k: nat)
    requires k < |totals|
    ensures Flags(totals[..k + 1], slp) == Flags(totals[..k], slp) + EntryFlags(totals[k], slp)
  {
    assert totals[..k + 1][..k] == totals[..k];
  }

  predicate FlaggedGrade(es: seq<ReadingError>, g: string)
  {
    exists k :: 0 <= k < |es| && es[k].grade == g
  }

  predicate ReportedKey(totals: seq<(string, int)>, slp: map<string, int>, g: string)
  {
    exists k :: 0 <= k < |totals| && totals[k].0 == g && Reported(totals[k], slp)
  }

  lemma FlaggedGradeAppend(a: seq<ReadingError>, b: seq<ReadingError>, g: string)
    ensures FlaggedGrade(a + b, g) <==> FlaggedGrade(a, g) || FlaggedGrade(b, g)
  {
    if FlaggedGrade(a + b, g) {
      var k :| 0 <= k < |a + b| && (a + b)[k].grade == g;
      if k >= |a| {
        assert b[k - |a|].grade == g;
      }
    }
    if FlaggedGrade(a, g) {
      var k :| 0 <= k < |a| && a[k].grade == g;
      assert (a + b)[k].grade == g;
    }
    if FlaggedGrade(b, g) {
      var k :| 0 <= k < |b| && b[k].grade == g;
      assert (a + b)[|a| + k].grade == g;
    }
  }

  /** A grade is flagged iff one of its entries is reported. */
  lemma {:induction false} FlagsExact(totals: seq<(string, int)>, slp: map<string, int>, g: string)
    ensures FlaggedGrade(Flags(totals, slp), g) <==> ReportedKey(totals, slp, g)
  {
    if |totals| > 0 {
      var n := |totals| - 1;
      var init := totals[..n];
      FlagsExact(init, slp, g);
      FlaggedGradeAppend(Flags(init, slp), EntryFlags(totals[n], slp), g);
      if ReportedKey(totals, slp, g) {
        var k :| 0 <= k < |totals| && totals[k].0 == g && Reported(totals[k], slp);
        if k < n {
          assert init[k] == totals[k];
        } else {
          assert EntryFlags(totals[n], slp)[0].grade == g;
        }
      }
      if ReportedKey(init, slp, g) {
        var k :| 0 <= k < |init| && init[k].0 == g && Reported(init[k], slp);
        assert totals[k] == init[k];
      }
    }
  }

  /** validateReadingEnrollment. */
  function ReadingErrors(slpInputs: seq<SlpEnrolmentInput>, crla: seq<CrlaInput>): seq<ReadingError>
  {
    var slp := SlpEnrolment(slpInputs);
    if |slp| == 0 then [] else Flags(Totals(crla), slp)
  }

  /** A grade is flagged exactly when the SLP inputs give it a positive
      enrolment, some CRLA input counts for it, and its CRLA total differs
      from that enrolment; no SLP data gives no findings. */
  lemma ReadingFlagsExactly(slpInputs: seq<SlpEnrolmentInput>, crla: seq<CrlaInput>, g: string)
    ensures |SlpEnrolment(slpInputs)| == 0 ==> ReadingErrors(slpInputs, crla) == []
    ensures var slp := SlpEnrolment(slpInputs);
      FlaggedGrade(ReadingErrors(slpInputs, crla), g) <==>
        g in slp && Counted(crla, g) && CrlaSum(crla, g) != slp[g]
  {
    var slp := SlpEnrolment(slpInputs);
    var t := Totals(crla);
    TotalsKeys(crla);
    FlagsExact(t, slp, g);
    if ReportedKey(t, slp, g) {
      var k :| 0 <= k < |t| && t[k].0 == g && Reported(t[k], slp);
      TotalsSums(crla, k);
      assert HasKey(t, g);
      assert |slp| != 0 by {
        assert g in slp.Keys;
      }
    }
    if g in slp && Counted(crla, g) && CrlaSum(crla, g) != slp[g] {
      assert HasKey(t, g);
      var k :| 0 <= k < |t| && t[k].0 == g;
      TotalsSums(crla, k);
      assert Reported(t[k], slp);
      assert |slp| != 0 by {
        assert g in slp.Keys;
      }
    }
  }

  /** getSLPEnrollmentData. */
  method GetSlpEnrollmentData(inputs: seq<SlpEnrolmentInput>) returns (slp: map<string, int>)
    ensures slp == SlpEnrolment(inputs)
  {
    slp := map[];
    var i := 0;
    while i < |inputs|
      invariant 0 <= i <= |inputs|
      invariant slp == SlpEnrolment(inputs[..i])
    {
      SlpEnrolmentStep(inputs, i);
      var value := CountOf(inputs[i].value);
      if value > 0 && inputs[i].part.Some? {
        var name := SlpGradeName(inputs[i].part.value);
        if name !in slp {
          slp := slp[name := value];
        }
      }
      i := i + 1;
    }
    assert inputs[..i] == inputs;
  }

  /** validateReadingEnrollment. */
  method ValidateReadingEnrollment(slpInputs: seq<SlpEnrolmentInput>, crla: seq<CrlaInput>) returns (errors: seq<ReadingError>)
    ensures errors == ReadingErrors(slpInputs, crla)
  {
    var slp := GetSlpEnrollmentData(slpInputs);
    if |slp| == 0 {
      return [];
    }
    var totals: seq<(string, int)> := [];
    var i := 0;
    while i < |crla|
      invariant 0 <= i <= |crla|
      invariant totals == Totals(crla[..i])
    {
      TotalsStep(crla, i);
      if crla[i].gradeNum.Some? {
        totals := Accumulate(totals, CrlaGradeName(crla[i].gradeNum.value), CountOf(crla[i].value));
      }
      i := i + 1;
    }
    assert crla[..i] == crla;
    errors := [];
    var k := 0;
    while k < |totals|
      invariant 0 <= k <= |totals|
      invariant errors == Flags(totals[..k], slp)
    {
      FlagsStep(totals, slp, k);
      var g := totals[k].0;
      if g in slp && slp[g] != 0 && totals[k].1 != slp[g] {
        errors := errors + [ReadingError(g, ReadingMessage(g, totals[k].1, slp[g]))];
      }
      k := k + 1;
    }
    assert totals[..k] == totals;
  }
}
