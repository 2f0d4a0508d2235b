// The `clean()` rules of a submission's stored rows, the reading totals,
// the template's open window and the attachment check. Each `clean()` is a
// function from the row to the cleaned row or the validation message.
module SubmissionRows {
  import opened Wrappers
  import opened Text
  import opened ServerRows
  import Reconcile

  /** `Form1SLPRow.clean`: a row not offered has its enrolment and band
      counts zeroed; an offered row may not count more learners than it
      enrols. */
  function CleanSlpRow(r: SlpRow): Result<SlpRow>
  {
    if !r.isOffered then Ok(r.(enrolment := 0, dnme := 0, fs := 0, s := 0, vs := 0, o := 0))
    else if BandSum(r) > r.enrolment then Err("Total learner counts cannot exceed enrolment.")
    else Ok(r)
  }

  /** The row fails exactly when it is offered and over-counted; a cleaned
      row never counts more learners than it enrols, keeps its labels and
      narrative, and is left as it is by a second clean. A sum below the
      enrolment is allowed. */
  lemma CleanSlpRowMeaning(r: SlpRow)
    ensures CleanSlpRow(r).Err? <==> r.isOffered && BandSum(r) > r.enrolment
    ensures CleanSlpRow(r).Ok? ==>
      var c := CleanSlpRow(r).value;
      BandSum(c) <= c.enrolment && c.isOffered == r.isOffered &&
      c.gradeLabel == r.gradeLabel && c.subject == r.subject &&
      c.topThreeLlc == r.topThreeLlc && c.interventionPlan == r.interventionPlan &&
      (r.isOffered ==> c == r) &&
      (!r.isOffered ==> c.enrolment == 0 && BandSum(c) == 0) &&
      CleanSlpRow(c) == Ok(c)
  {
  }

  function RmaSum(r: Reconcile.RmaRow): nat
  {
    r.emergingNotProficient + r.emergingLowProficient + r.developingNearlyProficient +
    r.transitioningProficient + r.atGradeLevel
  }

  /** `Form1RMARow.clean`: the five bands may not exceed the enrolment. */
  function CleanRmaRow(r: Reconcile.RmaRow): (res: Result<Reconcile.RmaRow>)
    ensures res.Err? <==> RmaSum(r) > r.enrolment
    ensures res.Ok? ==> res.value == r
  {
    if RmaSum(r) > r.enrolment then Err("Proficiency totals cannot exceed enrolment.") else Ok(r)
  }

  /** A `Form1ReadingPHILIRI` row: four band counts. */
  datatype PhiliriRow = PhiliriRow(level: string, timing: string, language: string,
    band47: nat, band58: nat, band69: nat, band10: nat)

  /** `Form1ReadingPHILIRI.clean`: at least one band must be counted. */
  function CleanPhiliriRow(r: PhiliriRow): (res: Result<PhiliriRow>)
    ensures res.Err? <==> r.band47 == 0 && r.band58 == 0 && r.band69 == 0 && r.band10 == 0
    ensures res.Ok? ==> res.value == r
  {
    if r.band47 + r.band58 + r.band69 + r.band10 == 0 then Err("At least one PHILIRI band count must be provided.")
    else Ok(r)
  }

  /** A `Form1ADMRow`; the decimal amounts and percentages are in hundredths. */
  datatype AdmRow = AdmRow(
    ppasConducted: string,
    physicalTarget: nat, physicalActual: nat, physicalPercent: int,
    fundsDownloaded: int, fundsObligated: int, fundsUnobligated: int,
    percentObligated: int, burnRate: int,
    answers: seq<string>)

  const ClearedAdm: AdmRow := AdmRow("", 0, 0, 0, 0, 0, 0, 0, 0, ["", "", "", "", ""])

  /** `Form1ADMRow.clean`: with the submission's ADM header marking ADM as
      not offered the row is cleared; with no header, or ADM offered, the
      row stays as it is. */
  function CleanAdmRow(r: AdmRow, headerOffered: Option<bool>): (c: AdmRow)
    ensures headerOffered == Some(false) ==> c == ClearedAdm
    ensures headerOffered != Some(false) ==> c == r
  {
    if headerOffered == Some(false) then ClearedAdm else r
  }

  lemma CleanAdmRowIdempotent(r: AdmRow, headerOffered: Option<bool>)
    ensures CleanAdmRow(CleanAdmRow(r, headerOffered), headerOffered) == CleanAdmRow(r, headerOffered)
  {
  }

  // ---------------------------------------------------------------------
  // Reading totals

  /** A `ReadingAssessmentCRLA` row: Mother Tongue grades 1-3, Filipino
      grades 2-3, English grade 3. */
  datatype CrlaCounts = CrlaCounts(mt1: nat, mt2: nat, mt3: nat, fil2: nat, fil3: nat, eng3: nat)

  /** A `ReadingAssessmentPHILIRI` row: English and Filipino counts for
      grades 4 to 10, in grade order. */
  datatype PhiliriCounts = PhiliriCounts(
    eng4: nat, eng5: nat, eng6: nat, eng7: nat, eng8: nat, eng9: nat, eng10: nat,
    fil4: nat, fil5: nat, fil6: nat, fil7: nat, fil8: nat, fil9: nat, fil10: nat)

  /** `ReadingAssessmentCRLA.total_learners`: the six grade fields. */
  function CrlaTotal(c: CrlaCounts): (t: nat)
    ensures t == 0 <==> c == CrlaCounts(0, 0, 0, 0, 0, 0)
    ensures c.mt1 <= t && c.mt2 <= t && c.mt3 <= t && c.fil2 <= t && c.fil3 <= t && c.eng3 <= t
  {
    c.mt1 + c.mt2 + c.mt3 + c.fil2 + c.fil3 + c.eng3
  }

  /** `ReadingAssessmentPHILIRI.total_learners`: the fourteen grade fields. */
  function PhiliriTotal(p: PhiliriCounts): (t: nat)
    ensures t == 0 <==> p == PhiliriCounts(0, 0, 0, 0, 0, 0, 0, 0, 0, 0, 0, 0, 0, 0)
    ensures p.eng4 <= t && p.eng10 <= t && p.fil4 <= t && p.fil10 <= t
  {
    p.eng4 + p.eng5 + p.eng6 + p.eng7 + p.eng8 + p.eng9 + p.eng10 +
    p.fil4 + p.fil5 + p.fil6 + p.fil7 + p.fil8 + p.fil9 + p.fil10
  }

  // ---------------------------------------------------------------------
  // The template's window

  /** The window fields of a `FormTemplate`; dates are day numbers. */
  datatype Window = Window(isActive: bool, openAt: int, closeAt: int)

  /** `FormTemplate.is_open_on`. */
  predicate IsOpenOn(w: Window, day: int)
  {
    w.isActive && w.openAt <= day <= w.closeAt
  }

  /** An active template is open on exactly the days from its opening to its
      closing date, both included; a closing date before the opening date
      (which the template forms reject) leaves no open day. */
  lemma IsOpenOnMeaning(w: Window)
    ensures w.isActive && w.openAt <= w.closeAt ==> IsOpenOn(w, w.openAt) && IsOpenOn(w, w.closeAt)
    ensures !IsOpenOn(w, w.openAt - 1) && !IsOpenOn(w, w.closeAt + 1)
    ensures w.closeAt < w.openAt ==> forall d :: !IsOpenOn(w, d)
  {
  }

  // ---------------------------------------------------------------------
  // Attachments

  const AllowedExtensions: set<string> := {".pdf", ".docx", ".xlsx", ".jpg", ".jpeg", ".png"}
  const MaxFileSize: nat := 10 * 1024 * 1024

  /** The last path component, after dropping trailing separators. */
  function BaseName(path: string): (r: string)
    ensures '/' !in r
    decreases |path|
  {
    if path == [] then []
    else if path[|path| - 1] == '/' then BaseName(path[..|path| - 1])
    else LastComponent(path)
  }

  function LastComponent(path: string): (r: string)
    ensures '/' !in r
    decreases |path|
  {
    if path == [] then []
    else if path[|path| - 1] == '/' then []
    else LastComponent(path[..|path| - 1]) + [path[|path| - 1]]
  }

  lemma {:induction false} LastComponentWhole(path: string)
    requires '/' !in path
    ensures LastComponent(path) == path
    decreases |path|
  {
    if path != [] {
      LastComponentWhole(path[..|path| - 1]);
    }
  }

  /** The index of the last '.', or -1. */
  function LastDot(name: string): (i: int)
    ensures -1 <= i < |name|
    ensures i >= 0 ==> name[i] == '.'
    ensures forall j :: i < j < |name| ==> name[j] != '.'
    decreases |name|
  {
    if name == [] then -1
    else if name[|name| - 1] == '.' then |name| - 1
    else LastDot(name[..|name| - 1])
  }

  /** `Path(name).suffix`: from the last '.' of the last component, unless
      that dot starts or ends the component. */
  function Suffix(path: string): (r: string)
    ensures r == [] || (|r| >= 2 && r[0] == '.' && forall j :: 1 <= j < |r| ==> r[j] != '.')
  {
    var name := BaseName(path);
    var i := LastDot(name);
    if 0 < i < |name| - 1 then name[i..] else []
  }

  /** `SubmissionAttachment.clean`: the lower-cased suffix must be one of the
      accepted types, and the file at most 10 MB. */
  function AttachmentError(fileName: string, size: nat): (r: Option<string>)
    ensures r.None? <==> Lower(Suffix(fileName)) in AllowedExtensions && size <= MaxFileSize
  {
    if Lower(Suffix(fileName)) !in AllowedExtensions then Some("Unsupported file type for submission attachment.")
    else if size > MaxFileSize then Some("Attachment exceeds the 10 MB size limit.")
    else None
  }

  /** A suffix in capitals is accepted. */
  lemma UpperCaseSuffixAccepted(size: nat)
    ensures AttachmentError("report.PDF", size).None? <==> size <= MaxFileSize
  {
    ReportSuffix();
    assert Lower(".PDF") == ".pdf";
    assert ".pdf" in AllowedExtensions;
  }

  lemma ReportSuffix()
    ensures Suffix("report.PDF") == ".PDF"
  {
    var n := "report.PDF";
    assert n[6] == '.' && n[7] == 'P' && n[8] == 'D' && n[9] == 'F';
    assert n[0] != '.' && n[1] != '.' && n[2] != '.' && n[3] != '.' && n[4] != '.' && n[5] != '.';
    LastComponentWhole(n);
    assert n[|n| - 1] != '/';
    assert BaseName(n) == n;
    assert LastDot(n) == 6;
    assert n[6..] == ".PDF";
  }

  /** A name that is only a suffix has none, and is refused. */
  lemma BareSuffixRefused()
    ensures AttachmentError(".pdf", 0).Some?
  {
    var m := ".pdf";
    LastComponentWhole(m);
    assert m[0] == '.' && m[1] == 'p' && m[2] == 'd' && m[3] == 'f';
    assert LastDot(m) == 0;
  }
}
