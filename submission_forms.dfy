// The submission forms: the `clean()` of each row form, the review form, the
// reasons fields of the SLP row form, and the template forms with their
// SMEA Form 1 code generation. A form's cleaned data is a value; a raised
// `ValidationError` is a form-level error and `add_error` a field error.
module SubmissionForms {
  import opened Wrappers
  import opened Text
  import SubmissionEdit
  import SubmissionRows
  import Reconcile
  import DifficultyPlans
  import Json
  import Lists

  /** One error of a bound form; the field "__all__" holds the form-level
      errors a `clean()` raises. */
  datatype FieldError = FieldError(field: string, message: string)

  const FormLevel := "__all__"

  /** The cleaned data of a form and the errors its validation recorded; the
      form is valid exactly when there are none. */
  datatype Outcome<T> = Outcome(cleaned: T, errors: seq<FieldError>)
  {
    predicate IsValid() { errors == [] }
  }

  // ---------------------------------------------------------------------
  // Deletion-friendly inline formsets

  /** The raw DELETE values the formset accepts, compared as posted. */
  const RawDeleteValues: set<string> := {"on", "1", "true", "yes", "checked"}

  /** `_should_delete_form`: the cleaned DELETE flag, or a raw posted DELETE
      value in the accepted set. */
  predicate ShouldDelete(cleanedDelete: bool, rawDelete: Option<string>)
  {
    cleanedDelete || (rawDelete.Some? && rawDelete.value in RawDeleteValues)
  }

  /** `is_valid` / `clean`: a form to be deleted is empty-permitted, so its
      own field errors no longer block the formset. */
  function EmptyPermitted(initially: bool, cleanedDelete: bool, rawDelete: Option<string>): (p: bool)
    ensures p <==> initially || ShouldDelete(cleanedDelete, rawDelete)
  {
    if ShouldDelete(cleanedDelete, rawDelete) then true else initially
  }

  /** The formset compares the raw value as posted, while the editor's own
      delete-key scan lower-cases it first: "ON" deletes through the view
      but not through the formset. */
  lemma RawDeleteCaseSensitive()
    ensures !ShouldDelete(false, Some("ON")) && SubmissionEdit.Checked("ON")
    ensures forall v :: v in RawDeleteValues ==> ShouldDelete(false, Some(v)) && SubmissionEdit.Checked(v)
  {
    assert Lower("ON") == "on";
    forall v | v in RawDeleteValues
      ensures SubmissionEdit.Checked(v)
    {
      NoCapitals(v);
    }
  }

  // ---------------------------------------------------------------------
  // Counts of a row

  /** A count of the cleaned data: `None` where the field is missing or was
      blank, which every form here reads as 0 (`cleaned.get(f) or 0`). */
  function OrZero(v: Option<nat>): nat
  {
    if v.Some? then v.value else 0
  }

  /** The enrolment and the five SLP proficiency bands. */
  datatype SlpCounts = SlpCounts(enrolment: nat, dnme: nat, fs: nat, s: nat, vs: nat, o: nat)

  datatype SlpCountFields = SlpCountFields(
    enrolment: Option<nat>, dnme: Option<nat>, fs: Option<nat>,
    s: Option<nat>, vs: Option<nat>, o: Option<nat>)

  function Filled(f: SlpCountFields): SlpCounts
  {
    SlpCounts(OrZero(f.enrolment), OrZero(f.dnme), OrZero(f.fs), OrZero(f.s), OrZero(f.vs), OrZero(f.o))
  }

  function BandTotal(c: SlpCounts): nat
  {
    c.dnme + c.fs + c.s + c.vs + c.o
  }

  /** `SLPProficiencyForm.clean`: the five bands may not count more learners
      than are enrolled; a missing value counts as 0. */
  function CleanProficiency(f: SlpCountFields): (res: Outcome<SlpCountFields>)
    ensures res.cleaned == f
    ensures res.IsValid() <==> BandTotal(Filled(f)) <= OrZero(f.enrolment)
    ensures !res.IsValid() ==>
      res.errors == [FieldError(FormLevel, "Total of proficiency levels cannot exceed enrollment")]
  {
    var c := Filled(f);
    if c.dnme + c.fs + c.s + c.vs + c.o > c.enrolment then
      Outcome(f, [FieldError(FormLevel, "Total of proficiency levels cannot exceed enrollment")])
    else Outcome(f, [])
  }

  // ---------------------------------------------------------------------
  // The SLP row form

  /** The bound data of a `Form1SLPRowForm` that its `clean` reads. */
  datatype SlpRowFields = SlpRowFields(
    counts: SlpCountFields,
    isOffered: Option<bool>,
    gradeLabel: string,
    reasons: seq<string>,
    reasonOther: string)

  /** The cleaned row: zero-filled counts, the reasons and the other text. */
  datatype SlpRowCleaned = SlpRowCleaned(counts: SlpCounts, isOffered: bool, reasons: seq<string>, reasonOther: string)

  const SentencesRequired := "Please provide 2-5 sentences explaining the other reasons."

  /** `"!"` and `"?"` end a sentence as `"."` does. */
  function AsPeriods(t: string): (r: string)
    ensures |r| == |t|
    ensures forall i :: 0 <= i < |t| ==>
      r[i] == (if t[i] == '!' || t[i] == '?' then '.' else t[i])
  {
    if t == "" then "" else [if t[0] == '!' || t[0] == '?' then '.' else t[0]] + AsPeriods(t[1..])
  }

  /** The number of parts that are not blank. */
  function CountNonBlank(parts: seq<string>): (n: nat)
    ensures n <= |parts|
  {
    if parts == [] then 0
    else CountNonBlank(parts[..|parts| - 1]) + (if IsBlank(parts[|parts| - 1]) then 0 else 1)
  }

  /** The form's naive sentence count: the non-blank pieces between '.', '!'
      and '?'. */
  function SentenceCount(t: string): nat
  {
    CountNonBlank(Split(AsPeriods(t), '.'))
  }

  predicate Unpunctuated(t: string)
  {
    forall i :: 0 <= i < |t| ==> t[i] != '.' && t[i] != '!' && t[i] != '?'
  }

  /** A text with no sentence mark counts as at most one sentence. */
  lemma UnpunctuatedOneSentence(t: string)
    requires Unpunctuated(t)
    ensures SentenceCount(t) <= 1
  {
    assert AsPeriods(t) == t;
    SplitFree(t, '.');
  }

  /** Two non-blank pieces around a '.' make two sentences. */
  lemma TwoSentences(a: string, b: string)
    requires Unpunctuated(a) && Unpunctuated(b) && !IsBlank(a) && !IsBlank(b)
    ensures SentenceCount(a + "." + b) == 2
  {
    var t := a + "." + b;
    assert AsPeriods(a) == a && AsPeriods(b) == b;
    assert AsPeriods(t) == t;
    SplitAfterFree(a, '.', b);
    SplitFree(b, '.');
    assert Split(t, '.') == [a, b];
    assert [a, b][..1] == [a] && [a][..0] == [];
    assert CountNonBlank([a]) == 1;
    assert CountNonBlank([a, b]) == 2;
  }

  /** `Form1SLPRowForm.clean`. The counts are zero-filled; a row not offered
      has every count zeroed and no further check; an offered row may not
      count more learners than it enrols (a form-level error naming the
      grade and subject); choosing reason "f" needs at least two sentences
      of other reasons. `instanceGrade` and `subjectLabel` come from the
      row being edited. */
  function CleanSlpRowForm(f: SlpRowFields, instanceGrade: string, subjectLabel: string): Outcome<SlpRowCleaned>
  {
    var c := Filled(f.counts);
    var offered := f.isOffered.GetOr(true);
    if !offered then
      Outcome(SlpRowCleaned(SlpCounts(0, 0, 0, 0, 0, 0), false, f.reasons, f.reasonOther), [])
    else if BandTotal(c) > c.enrolment then
      var grade := if instanceGrade != "" then instanceGrade else if f.gradeLabel != "" then f.gradeLabel else "this grade";
      Outcome(SlpRowCleaned(c, true, f.reasons, f.reasonOther),
        [FieldError(FormLevel, "Totals for " + grade + " (" + subjectLabel + ") cannot exceed enrolment.")])
    else if "f" in f.reasons && SentenceCount(Trim(f.reasonOther)) < 2 then
      Outcome(SlpRowCleaned(c, true, f.reasons, f.reasonOther), [FieldError("reason_other", SentencesRequired)])
    else Outcome(SlpRowCleaned(c, true, f.reasons, f.reasonOther), [])
  }

  /** A row not offered is valid, with every count zeroed. */
  lemma CleanSlpRowFormNotOffered(f: SlpRowFields, instanceGrade: string, subjectLabel: string)
    requires f.isOffered == Some(false)
    ensures var res := CleanSlpRowForm(f, instanceGrade, subjectLabel);
      res.IsValid() && res.cleaned.counts == SlpCounts(0, 0, 0, 0, 0, 0) &&
      !res.cleaned.isOffered && res.cleaned.reasons == f.reasons
  {
  }

  /** An offered row keeps its posted counts with blanks as 0, and is valid
      exactly when its bands fit its enrolment and, with reason "f", the
      other text has two sentences. An over-count is one form-level error
      and stops checking the reasons; a short text is one error on the
      other-reasons field. */
  lemma CleanSlpRowFormOffered(f: SlpRowFields, instanceGrade: string, subjectLabel: string)
    requires f.isOffered != Some(false)
    ensures var res := CleanSlpRowForm(f, instanceGrade, subjectLabel);
      res.cleaned.counts == Filled(f.counts) && res.cleaned.isOffered && res.cleaned.reasons == f.reasons &&
      (res.IsValid() <==>
        BandTotal(Filled(f.counts)) <= OrZero(f.counts.enrolment) &&
        ("f" in f.reasons ==> SentenceCount(Trim(f.reasonOther)) >= 2))
    ensures var res := CleanSlpRowForm(f, instanceGrade, subjectLabel);
      BandTotal(Filled(f.counts)) > OrZero(f.counts.enrolment) ==>
        |res.errors| == 1 && res.errors[0].field == FormLevel
    ensures var res := CleanSlpRowForm(f, instanceGrade, subjectLabel);
      BandTotal(Filled(f.counts)) <= OrZero(f.counts.enrolment) && !res.IsValid() ==>
        res.errors == [FieldError("reason_other", SentencesRequired)]
  {
    assert f.isOffered.GetOr(true);
  }

  /** Reason "f" with an other text that has no sentence mark is refused. */
  lemma OtherReasonNeedsSentences(f: SlpRowFields, instanceGrade: string, subjectLabel: string)
    requires f.isOffered != Some(false) && BandTotal(Filled(f.counts)) <= OrZero(f.counts.enrolment)
    requires "f" in f.reasons && Unpunctuated(Trim(f.reasonOther))
    ensures CleanSlpRowForm(f, instanceGrade, subjectLabel).errors == [FieldError("reason_other", SentencesRequired)]
  {
    UnpunctuatedOneSentence(Trim(f.reasonOther));
  }

  /** The reason choices of the SLP row form. */
  const ReasonCodes: set<string> := {"a", "b", "c", "d", "e", "f"}

  /** `save`: the reasons as stored, joined by ','. */
  function SavedReasons(reasons: seq<string>): string
  {
    Join(reasons, ',')
  }

  /** `save`: the other text as stored. */
  function SavedOther(other: string): (r: string)
    ensures Trimmed(r)
  {
    TrimIsTrimmed(other);
    Trim(other)
  }

  /** The stripped, non-blank pieces, in order. */
  function StrippedNonBlank(parts: seq<string>): (r: seq<string>)
    ensures forall k :: 0 <= k < |r| ==> !IsBlank(r[k])
  {
    if parts == [] then []
    else
      var t := Trim(parts[0]);
      TrimOfBlank(parts[0]);
      if t == "" then StrippedNonBlank(parts[1..]) else [t] + StrippedNonBlank(parts[1..])
  }

  lemma TrimOfBlank(s: string)
    ensures Trim(s) != "" ==> !IsBlank(Trim(s))
  {
    TrimIsTrimmed(s);
    TrimmedFixed(Trim(s));
  }

  /** `__init__`: the stored reasons split on ',' with the pieces stripped
      and the empty ones dropped; no stored text gives none. */
  function InitialReasons(stored: string): seq<string>
  {
    if stored == "" then [] else StrippedNonBlank(Split(stored, ','))
  }

  lemma {:induction false} StrippedNonBlankKeeps(parts: seq<string>)
    requires forall k :: 0 <= k < |parts| ==> parts[k] in ReasonCodes
    ensures StrippedNonBlank(parts) == parts
  {
    if parts != [] {
      var p := parts[0];
      assert p in ReasonCodes;
      assert |p| == 1 && !IsSpace(p[0]);
      TrimmedFixed(p);
      StrippedNonBlankKeeps(parts[1..]);
      assert [p] + parts[1..] == parts;
    }
  }

  /** Saving the chosen reasons and opening the row again shows the same
      reasons, in the same order. */
  lemma ReasonsRoundTrip(reasons: seq<string>)
    requires forall k :: 0 <= k < |reasons| ==> reasons[k] in ReasonCodes
    ensures InitialReasons(SavedReasons(reasons)) == reasons
  {
    if reasons != [] {
      forall k | 0 <= k < |reasons|
        ensures Free(reasons[k], ',')
      {
        assert |reasons[k]| == 1 && reasons[k][0] != ',';
      }
      SplitJoin(reasons, ',');
      JoinOfCodes(reasons);
      StrippedNonBlankKeeps(reasons);
    }
  }

  /** A join of at least one non-empty code is not empty. */
  lemma JoinOfCodes(reasons: seq<string>)
    requires |reasons| >= 1 && reasons[0] in ReasonCodes
    ensures Join(reasons, ',') != ""
  {
    if |reasons| > 1 {
      assert |Join(reasons, ',')| >= |reasons[0]|;
    }
  }

  /** The stored other text opens and is saved again unchanged. */
  lemma OtherRoundTrip(other: string)
    ensures SavedOther(SavedOther(other)) == SavedOther(other)
  {
    TrimIdempotent(other);
  }

  // ---------------------------------------------------------------------
  // The review, % implementation, RMA and supervision forms

  const ReviewReturn := "return"
  const RemarksRequiredWhenReturning := "Remarks are required when returning a submission."

  /** `SubmissionReviewForm.clean`: the remarks are stripped; returning needs
      remarks. */
  function CleanReview(action: string, remarks: string): (res: Outcome<string>)
    ensures res.cleaned == Trim(remarks) && Trimmed(res.cleaned)
    ensures res.IsValid() <==> !(action == ReviewReturn && IsBlank(remarks))
    ensures !res.IsValid() ==> res.errors == [FieldError("remarks", RemarksRequiredWhenReturning)]
  {
    TrimIsTrimmed(remarks);
    var r := Trim(remarks);
    if action == ReviewReturn && r == "" then Outcome(r, [FieldError("remarks", RemarksRequiredWhenReturning)])
    else Outcome(r, [])
  }

  /** `Form1PctRowForm.clean_percent`: no percent is allowed; a percent must
      lie in 0..100. */
  function CleanPercent(percent: Option<int>): (r: Result<Option<int>>)
    ensures r.Ok? <==> percent.None? || 0 <= percent.value <= 100
    ensures r.Ok? ==> r.value == percent
    ensures r.Err? ==> r.error == "Percent must be between 0 and 100."
  {
    if percent.None? then Ok(None)
    else if percent.value < 0 || percent.value > 100 then Err("Percent must be between 0 and 100.")
    else Ok(percent)
  }

  /** The five band fields of an RMA row, as bound. */
  datatype RmaFields = RmaFields(
    enrolment: Option<nat>, emergingNotProficient: Option<nat>, emergingLowProficient: Option<nat>,
    developingNearlyProficient: Option<nat>, transitioningProficient: Option<nat>, atGradeLevel: Option<nat>)

  function RmaBandTotal(f: RmaFields): nat
  {
    OrZero(f.emergingNotProficient) + OrZero(f.emergingLowProficient) + OrZero(f.developingNearlyProficient) +
    OrZero(f.transitioningProficient) + OrZero(f.atGradeLevel)
  }

  /** The grade shown in the message: the choice label of the row's grade,
      or the grade itself, or "this grade". */
  function RmaGradeValue(instanceGrade: string, postedGrade: string): string
  {
    var shown := SubmissionEdit.ChoiceDisplay(SubmissionEdit.RmaGradeChoices, instanceGrade);
    if shown != "" then shown
    else if instanceGrade != "" then instanceGrade
    else if postedGrade != "" then postedGrade
    else "this grade"
  }

  /** `Form1RMARowForm.clean`: the band total may not exceed an enrolment
      that was given; with no enrolment a partial draft passes. */
  function CleanRmaForm(f: RmaFields, instanceGrade: string, postedGrade: string): (res: Outcome<RmaFields>)
    ensures res.cleaned == f
    ensures res.IsValid() <==> OrZero(f.enrolment) == 0 || RmaBandTotal(f) <= OrZero(f.enrolment)
    ensures !res.IsValid() ==>
      (res.errors == [FieldError(FormLevel, "RMA proficiency totals for " + RmaGradeValue(instanceGrade, postedGrade) + " cannot exceed enrolment.")])
  {
    var e := OrZero(f.enrolment);
    if e != 0 && RmaBandTotal(f) > e then
      Outcome(f, [FieldError(FormLevel, "RMA proficiency totals for " + RmaGradeValue(instanceGrade, postedGrade) + " cannot exceed enrolment.")])
    else Outcome(f, [])
  }

  /** A band total over an enrolment of 0 raises nothing in the form's own
      `clean`. */
  lemma RmaDraftPasses(f: RmaFields, instanceGrade: string, postedGrade: string)
    requires OrZero(f.enrolment) == 0
    ensures CleanRmaForm(f, instanceGrade, postedGrade).IsValid()
  {
  }

  /** The same row is refused once the model's own `clean` runs on the
      instance: a form `clean` that lets a count over an enrolment of 0
      through does not make the row savable. */
  lemma RmaDraftRefusedOnSave(grade: string, count: nat, instanceGrade: string, postedGrade: string)
    requires count > 0
    ensures CleanRmaForm(RmaFields(Some(0), Some(count), Some(0), Some(0), Some(0), Some(0)), instanceGrade, postedGrade).IsValid()
    ensures SubmissionRows.CleanRmaRow(Reconcile.RmaRow(grade, 0, count, 0, 0, 0, 0)).Err?
  {
    assert SubmissionRows.RmaSum(Reconcile.RmaRow(grade, 0, count, 0, 0, 0, 0)) == count;
  }

  /** `Form1SupervisionRowForm.clean`: the teachers supervised may not
      exceed the teachers in total, when both are given. */
  function CleanSupervision(totalTeachers: Option<nat>, supervised: Option<nat>): (res: Outcome<(Option<nat>, Option<nat>)>)
    ensures res.cleaned == (totalTeachers, supervised)
    ensures res.IsValid() <==> totalTeachers.None? || supervised.None? || supervised.value <= totalTeachers.value
    ensures !res.IsValid() ==>
      res.errors == [FieldError("teachers_supervised_observed_ta", "Cannot exceed total number of teachers.")]
  {
    if totalTeachers.Some? && supervised.Some? && supervised.value > totalTeachers.value then
      Outcome((totalTeachers, supervised), [FieldError("teachers_supervised_observed_ta", "Cannot exceed total number of teachers.")])
    else Outcome((totalTeachers, supervised), [])
  }

  // ---------------------------------------------------------------------
  // The ADM row form

  /** The numeric part of an ADM row's cleaned data. Amounts and percentages
      are decimals, held here in hundredths; a field that is missing, or
      whose value is None, is absent from the map. */
  type Cleaned = map<string, int>

  const AdmIntegerFields: seq<string> := ["ppas_physical_target", "ppas_physical_actual"]
  const AdmDecimalFields: seq<string> := [
    "ppas_physical_percent", "funds_downloaded", "funds_obligated",
    "funds_unobligated", "funds_percent_obligated", "funds_percent_burn_rate"]
  const AdmPercentFields: seq<(string, string)> := [
    ("ppas_physical_percent", "Physical %"),
    ("funds_percent_obligated", "% obligated"),
    ("funds_percent_burn_rate", "Burn rate %")]
  const AdmNonNegativeFields: seq<string> := [
    "ppas_physical_target", "ppas_physical_actual", "funds_downloaded",
    "funds_obligated", "funds_unobligated"]

  /** 100.00 in hundredths. */
  const HundredPercent := 10000

  /** `cleaned.get(field)`, read as 0 once the blanks are filled. */
  function Val(c: Cleaned, f: string): int
  {
    if f in c then c[f] else 0
  }

  /** The cleaned data with every one of `fields` that is absent set to 0. */
  function Zeroed(c: Cleaned, fields: seq<string>): (r: Cleaned)
    ensures r.Keys == c.Keys + (set x | x in fields)
    ensures forall k :: k in c ==> r[k] == c[k]
    ensures forall k :: k in r && k !in c ==> r[k] == 0
  {
    map k | k in c.Keys + (set x | x in fields) :: if k in c then c[k] else 0
  }

  lemma ZeroedSnoc(c: Cleaned, fields: seq<string>, f: string)
    ensures Zeroed(c, fields + [f]) ==
      (var z := Zeroed(c, fields); if f in z then z else z[f := 0])
  {
    var z := Zeroed(c, fields);
    var z' := if f in z then z else z[f := 0];
    assert Zeroed(c, fields + [f]).Keys == z'.Keys;
  }

  /** The range error of one percent field, if its value is out of range. */
  function RangeError(c: Cleaned, p: (string, string)): seq<FieldError>
  {
    var v := Val(c, p.0);
    if v < 0 || v > HundredPercent then [FieldError(p.0, p.1 + " must be between 0 and 100.")] else []
  }

  /** The range errors of the percent fields, in the order they are checked. */
  function RangeErrors(c: Cleaned, ps: seq<(string, string)>): seq<FieldError>
  {
    if ps == [] then [] else RangeErrors(c, ps[..|ps| - 1]) + RangeError(c, ps[|ps| - 1])
  }

  /** The sign errors of the amount fields, in the order they are checked. */
  function NegativeErrors(c: Cleaned, fields: seq<string>): seq<FieldError>
  {
    if fields == [] then []
    else
      var f := fields[|fields| - 1];
      NegativeErrors(c, fields[..|fields| - 1]) +
        (if Val(c, f) < 0 then [FieldError(f, "Value cannot be negative.")] else [])
  }

  lemma RangeErrorsSnoc(c: Cleaned, ps: seq<(string, string)>)
    requires ps != []
    ensures RangeErrors(c, ps) == RangeErrors(c, ps[..|ps| - 1]) + RangeError(c, ps[|ps| - 1])
  {
  }

  lemma {:induction false} RangeErrorsEmpty(c: Cleaned, ps: seq<(string, string)>)
    ensures RangeErrors(c, ps) == [] <==> forall k :: 0 <= k < |ps| ==> 0 <= Val(c, ps[k].0) <= HundredPercent
  {
    if ps != [] {
      var init := ps[..|ps| - 1];
      RangeErrorsEmpty(c, init);
      RangeErrorsSnoc(c, ps);
      var tail := RangeError(c, ps[|ps| - 1]);
      assert RangeErrors(c, ps) == [] <==> RangeErrors(c, init) == [] && tail == [];
      forall k | 0 <= k < |init| ensures init[k] == ps[k] { }
    }
  }

  lemma {:induction false} RangeErrorFields(c: Cleaned, ps: seq<(string, string)>)
    ensures forall e :: e in RangeErrors(c, ps) ==> exists k :: 0 <= k < |ps| && e.field == ps[k].0
  {
    if ps != [] {
      var init := ps[..|ps| - 1];
      RangeErrorFields(c, init);
      RangeErrorsSnoc(c, ps);
      forall e | e in RangeErrors(c, ps) ensures exists k :: 0 <= k < |ps| && e.field == ps[k].0 {
        if e in RangeErrors(c, init) {
          var k :| 0 <= k < |init| && e.field == init[k].0;
          assert ps[k] == init[k];
        } else {
          assert e in RangeError(c, ps[|ps| - 1]);
          assert e.field == ps[|ps| - 1].0;
        }
      }
    }
  }

  lemma RangeErrorsMeaning(c: Cleaned, ps: seq<(string, string)>)
    ensures RangeErrors(c, ps) == [] <==> forall k :: 0 <= k < |ps| ==> 0 <= Val(c, ps[k].0) <= HundredPercent
    ensures forall e :: e in RangeErrors(c, ps) ==> exists k :: 0 <= k < |ps| && e.field == ps[k].0
  {
    RangeErrorsEmpty(c, ps);
    RangeErrorFields(c, ps);
  }

  lemma {:induction false} NegativeErrorsMeaning(c: Cleaned, fields: seq<string>)
    ensures NegativeErrors(c, fields) == [] <==> forall k :: 0 <= k < |fields| ==> Val(c, fields[k]) >= 0
    ensures forall e :: e in NegativeErrors(c, fields) ==> e.field in fields
  {
    if fields != [] {
      var init := fields[..|fields| - 1];
      NegativeErrorsMeaning(c, init);
      forall k | 0 <= k < |init| ensures init[k] == fields[k] { }
    }
  }

  /** The fields some error names. */
  function Named(errors: seq<FieldError>): set<string>
  {
    set e | e in errors :: e.field
  }

  /** `add_error` takes the field it names out of `cleaned_data`. */
  function Dropped(c: Cleaned, errors: seq<FieldError>): (d: Cleaned)
    ensures forall f :: f in d <==> f in c && f !in Named(errors)
    ensures forall f :: f in d ==> d[f] == c[f]
  {
    c - Named(errors)
  }

  /** One cross-field rule: `if lo is not None and hi is not None and hi > lo`,
      reading both from the data left after the earlier errors. */
  function LimitError(d: Cleaned, low: string, high: string, message: string): seq<FieldError>
  {
    if low in d && high in d && d[high] > d[low] then [FieldError(high, message)] else []
  }

  const ActualMessage := "Physical actual cannot exceed the target."
  const ObligatedMessage := "Funds obligated cannot exceed funds downloaded."
  const UnobligatedMessage := "Funds unobligated cannot exceed funds downloaded."

  /** The cross-field errors: actual against target, the obligated and the
      unobligated funds against the funds downloaded. The data `d` is what
      the earlier errors left, so a field they named is not compared, and
      the actual-against-target error takes its field out before the funds
      are compared (they never read it). */
  function LimitErrors(d: Cleaned): seq<FieldError>
  {
    LimitError(d, "ppas_physical_target", "ppas_physical_actual", ActualMessage) +
    LimitError(d, "funds_downloaded", "funds_obligated", ObligatedMessage) +
    LimitError(d, "funds_downloaded", "funds_unobligated", UnobligatedMessage)
  }

  /** The percent and sign errors, recorded before the cross-field rules. */
  function EarlyErrors(c: Cleaned): seq<FieldError>
  {
    RangeErrors(c, AdmPercentFields) + NegativeErrors(c, AdmNonNegativeFields)
  }

  /** Every error `Form1ADMRowForm.clean` records, in order. */
  function AdmErrors(c: Cleaned): seq<FieldError>
  {
    var early := EarlyErrors(c);
    early + LimitErrors(Dropped(c, early))
  }

  /** Every number of the ADM row is in the data, as after the blanks are
      filled. */
  predicate AdmFilled(c: Cleaned)
  {
    forall f :: f in AdmIntegerFields + AdmDecimalFields ==> f in c
  }

  lemma FilledFields(c0: Cleaned)
    ensures AdmFilled(Zeroed(c0, AdmIntegerFields + AdmDecimalFields))
  {
  }

  /** The rules of the ADM row, stated field by field. */
  predicate AdmSound(c: Cleaned)
  {
    0 <= Val(c, "ppas_physical_percent") <= HundredPercent &&
    0 <= Val(c, "funds_percent_obligated") <= HundredPercent &&
    0 <= Val(c, "funds_percent_burn_rate") <= HundredPercent &&
    Val(c, "ppas_physical_target") >= 0 && Val(c, "ppas_physical_actual") >= 0 &&
    Val(c, "funds_downloaded") >= 0 && Val(c, "funds_obligated") >= 0 && Val(c, "funds_unobligated") >= 0 &&
    Val(c, "ppas_physical_actual") <= Val(c, "ppas_physical_target") &&
    Val(c, "funds_obligated") <= Val(c, "funds_downloaded") &&
    Val(c, "funds_unobligated") <= Val(c, "funds_downloaded")
  }

  /** The ADM row is valid exactly when its numbers follow the rules. */
  lemma AdmRangesMeaning(c: Cleaned)
    ensures RangeErrors(c, AdmPercentFields) == [] <==>
      0 <= Val(c, "ppas_physical_percent") <= HundredPercent &&
      0 <= Val(c, "funds_percent_obligated") <= HundredPercent &&
      0 <= Val(c, "funds_percent_burn_rate") <= HundredPercent
  {
    RangeErrorsEmpty(c, AdmPercentFields);
    var ps := AdmPercentFields;
    assert ps[0].0 == "ppas_physical_percent" && ps[1].0 == "funds_percent_obligated" && ps[2].0 == "funds_percent_burn_rate";
  }

  lemma AdmSignsMeaning(c: Cleaned)
    ensures NegativeErrors(c, AdmNonNegativeFields) == [] <==>
      Val(c, "ppas_physical_target") >= 0 && Val(c, "ppas_physical_actual") >= 0 &&
      Val(c, "funds_downloaded") >= 0 && Val(c, "funds_obligated") >= 0 && Val(c, "funds_unobligated") >= 0
  {
    NegativeErrorsMeaning(c, AdmNonNegativeFields);
    var ns := AdmNonNegativeFields;
    assert ns[0] == "ppas_physical_target" && ns[1] == "ppas_physical_actual" && ns[2] == "funds_downloaded";
    assert ns[3] == "funds_obligated" && ns[4] == "funds_unobligated";
  }

  /** Without earlier errors nothing is dropped, and on filled data the
      cross-field rules are the plain comparisons. */
  lemma LimitsOfFilled(c: Cleaned)
    requires AdmFilled(c)
    ensures LimitErrors(Dropped(c, [])) == [] <==>
      Val(c, "ppas_physical_actual") <= Val(c, "ppas_physical_target") &&
      Val(c, "funds_obligated") <= Val(c, "funds_downloaded") &&
      Val(c, "funds_unobligated") <= Val(c, "funds_downloaded")
  {
    assert Named([]) == {};
    var d := Dropped(c, []);
    assert "ppas_physical_target" in AdmIntegerFields + AdmDecimalFields;
    assert "ppas_physical_actual" in AdmIntegerFields + AdmDecimalFields;
    assert "funds_downloaded" in AdmIntegerFields + AdmDecimalFields;
    assert "funds_obligated" in AdmIntegerFields + AdmDecimalFields;
    assert "funds_unobligated" in AdmIntegerFields + AdmDecimalFields;
  }

  /** The filled ADM row is valid exactly when its numbers follow the rules. */
  lemma AdmErrorsMeaning(c: Cleaned)
    requires AdmFilled(c)
    ensures AdmErrors(c) == [] <==> AdmSound(c)
  {
    AdmRangesMeaning(c);
    AdmSignsMeaning(c);
    var r, n := RangeErrors(c, AdmPercentFields), NegativeErrors(c, AdmNonNegativeFields);
    assert EarlyErrors(c) == r + n;
    assert |r + n| == |r| + |n|;
    if r + n == [] {
      LimitsOfFilled(c);
    }
  }

  /** A field is named by a sign error exactly when it is an amount field
      holding a negative value. */
  lemma {:induction false} NegativeNamed(c: Cleaned, fields: seq<string>, f: string)
    ensures f in Named(NegativeErrors(c, fields)) <==> f in fields && Val(c, f) < 0
  {
    if fields != [] {
      var init := fields[..|fields| - 1];
      var last := fields[|fields| - 1];
      NegativeNamed(c, init, f);
      Lists.InitLast(fields);
      var tail := if Val(c, last) < 0 then [FieldError(last, "Value cannot be negative.")] else [];
      assert NegativeErrors(c, fields) == NegativeErrors(c, init) + tail;
      assert Named(NegativeErrors(c, fields)) == Named(NegativeErrors(c, init)) + Named(tail);
      assert f in fields <==> f in init || f == last;
    }
  }

  /** No amount field is a percent field, so the range errors never name
      one. */
  lemma RangeNamesNoAmount(c: Cleaned, f: string)
    requires f in AdmNonNegativeFields
    ensures f !in Named(RangeErrors(c, AdmPercentFields))
  {
    RangeErrorFields(c, AdmPercentFields);
    var ps := AdmPercentFields;
    assert ps[0].0 == "ppas_physical_percent" && ps[1].0 == "funds_percent_obligated" && ps[2].0 == "funds_percent_burn_rate";
    assert forall k :: 0 <= k < |ps| ==> ps[k].0 != f;
  }

  /** An amount field reaches the cross-field rules exactly when it is not
      negative. */
  lemma AmountKept(c: Cleaned, f: string)
    requires AdmFilled(c) && f in AdmNonNegativeFields
    ensures f in Dropped(c, EarlyErrors(c)) <==> Val(c, f) >= 0
  {
    var r, n := RangeErrors(c, AdmPercentFields), NegativeErrors(c, AdmNonNegativeFields);
    assert Named(r + n) == Named(r) + Named(n);
    RangeNamesNoAmount(c, f);
    NegativeNamed(c, AdmNonNegativeFields, f);
    assert f in AdmIntegerFields + AdmDecimalFields;
  }

  /** What `add_error` does to the cross-field rules: each limit error is
      recorded exactly when both its amounts are non-negative and the
      limited one is the larger; a negative amount suppresses the
      comparisons that read it. */
  lemma AdmLimitsMeaning(c: Cleaned)
    requires AdmFilled(c)
    ensures var d := Dropped(c, EarlyErrors(c));
      LimitError(d, "ppas_physical_target", "ppas_physical_actual", ActualMessage) != [] <==>
        Val(c, "ppas_physical_target") >= 0 && Val(c, "ppas_physical_actual") >= 0 &&
        Val(c, "ppas_physical_actual") > Val(c, "ppas_physical_target")
    ensures var d := Dropped(c, EarlyErrors(c));
      LimitError(d, "funds_downloaded", "funds_obligated", ObligatedMessage) != [] <==>
        Val(c, "funds_downloaded") >= 0 && Val(c, "funds_obligated") >= 0 &&
        Val(c, "funds_obligated") > Val(c, "funds_downloaded")
    ensures var d := Dropped(c, EarlyErrors(c));
      LimitError(d, "funds_downloaded", "funds_unobligated", UnobligatedMessage) != [] <==>
        Val(c, "funds_downloaded") >= 0 && Val(c, "funds_unobligated") >= 0 &&
        Val(c, "funds_unobligated") > Val(c, "funds_downloaded")
  {
    var ns := AdmNonNegativeFields;
    assert ns[0] == "ppas_physical_target" && ns[1] == "ppas_physical_actual" && ns[2] == "funds_downloaded";
    assert ns[3] == "funds_obligated" && ns[4] == "funds_unobligated";
    AmountKept(c, "ppas_physical_target");
    AmountKept(c, "ppas_physical_actual");
    AmountKept(c, "funds_downloaded");
    AmountKept(c, "funds_obligated");
    AmountKept(c, "funds_unobligated");
  }

  /** `funds_downloaded=-1` with nothing obligated: the sign error alone,
      the funds comparisons skipped. */
  lemma NegativeDownloadOneError(c: Cleaned)
    requires AdmFilled(c)
    requires Val(c, "funds_downloaded") == -1
    ensures LimitError(Dropped(c, EarlyErrors(c)), "funds_downloaded", "funds_obligated", ObligatedMessage) == []
    ensures LimitError(Dropped(c, EarlyErrors(c)), "funds_downloaded", "funds_unobligated", UnobligatedMessage) == []
  {
    AdmLimitsMeaning(c);
  }

  /** The loop that sets each absent field of `fields` to 0. */
  method FillZeros(c0: Cleaned, fields: seq<string>) returns (cleaned: Cleaned)
    ensures cleaned == Zeroed(c0, fields)
  {
    cleaned := c0;
    for i := 0 to |fields|
      invariant cleaned == Zeroed(c0, fields[..i])
    {
      ZeroedSnoc(c0, fields[..i], fields[i]);
      assert fields[..i + 1] == fields[..i] + [fields[i]];
      if fields[i] !in cleaned {
        cleaned := cleaned[fields[i] := 0];
      }
    }
    assert fields[..|fields|] == fields;
  }

  /** The loop over the percent fields. */
  method CheckRanges(c: Cleaned, ps: seq<(string, string)>) returns (errors: seq<FieldError>)
    ensures errors == RangeErrors(c, ps)
  {
    errors := [];
    for i := 0 to |ps|
      invariant errors == RangeErrors(c, ps[..i])
    {
      var (f, name) := ps[i];
      assert ps[..i + 1][..i] == ps[..i];
      var value := Val(c, f);
      if value < 0 || value > HundredPercent {
        errors := errors + [FieldError(f, name + " must be between 0 and 100.")];
      }
    }
    assert ps[..|ps|] == ps;
  }

  /** The loop over the amount fields. */
  method CheckSigns(c: Cleaned, fields: seq<string>) returns (errors: seq<FieldError>)
    ensures errors == NegativeErrors(c, fields)
  {
    errors := [];
    for i := 0 to |fields|
      invariant errors == NegativeErrors(c, fields[..i])
    {
      var f := fields[i];
      assert fields[..i + 1][..i] == fields[..i];
      if Val(c, f) < 0 {
        errors := errors + [FieldError(f, "Value cannot be negative.")];
      }
    }
    assert fields[..|fields|] == fields;
  }

  /** `Form1ADMRowForm.clean`: the blank numbers become 0, then the percent,
      sign and cross-field rules each record an error on their field, and
      every field an error names leaves the cleaned data. The percent and
      amount fields are distinct, so the first two loops read the filled
      values. */
  method CleanAdm(c0: Cleaned) returns (cleaned: Cleaned, errors: seq<FieldError>)
    ensures errors == AdmErrors(Zeroed(c0, AdmIntegerFields + AdmDecimalFields))
    ensures cleaned == Dropped(Zeroed(c0, AdmIntegerFields + AdmDecimalFields), errors)
  {
    var withIntegers := FillZeros(c0, AdmIntegerFields);
    var filled := FillZeros(withIntegers, AdmDecimalFields);
    ZeroedTwice(c0, AdmIntegerFields, AdmDecimalFields);
    cleaned, errors := CheckAdmRules(filled);
  }

  /** The three rule loops over the filled data. */
  method CheckAdmRules(filled: Cleaned) returns (cleaned: Cleaned, errors: seq<FieldError>)
    ensures errors == AdmErrors(filled)
    ensures cleaned == Dropped(filled, errors)
  {
    var ranges := CheckRanges(filled, AdmPercentFields);
    var signs := CheckSigns(filled, AdmNonNegativeFields);
    var early := ranges + signs;
    var kept := Dropped(filled, early);
    var limits := CheckLimits(kept);
    errors := early + limits;
    cleaned := Dropped(kept, limits);
    DroppedTwice(filled, early, limits);
  }

  lemma DroppedTwice(c: Cleaned, first: seq<FieldError>, second: seq<FieldError>)
    ensures Dropped(Dropped(c, first), second) == Dropped(c, first + second)
  {
    assert Named(first + second) == Named(first) + Named(second);
  }

  /** The three cross-field comparisons, each skipped when a field it reads
      is no longer in the data. */
  method CheckLimits(d: Cleaned) returns (errors: seq<FieldError>)
    ensures errors == LimitErrors(d)
  {
    errors := [];
    var data := d;
    if "ppas_physical_target" in data && "ppas_physical_actual" in data &&
       data["ppas_physical_actual"] > data["ppas_physical_target"] {
      errors := errors + [FieldError("ppas_physical_actual", ActualMessage)];
      data := data - {"ppas_physical_actual"};
    }
    assert forall f :: f in data && f != "ppas_physical_actual" <==> f in d && f != "ppas_physical_actual";
    if "funds_downloaded" in data && "funds_obligated" in data && data["funds_obligated"] > data["funds_downloaded"] {
      errors := errors + [FieldError("funds_obligated", ObligatedMessage)];
      data := data - {"funds_obligated"};
    }
    if "funds_downloaded" in data && "funds_unobligated" in data && data["funds_unobligated"] > data["funds_downloaded"] {
      errors := errors + [FieldError("funds_unobligated", UnobligatedMessage)];
    }
  }

  lemma ZeroedTwice(c: Cleaned, first: seq<string>, second: seq<string>)
    ensures Zeroed(Zeroed(c, first), second) == Zeroed(c, first + second)
  {
    var z := Zeroed(Zeroed(c, first), second);
    assert (set x | x in first + second) == (set x | x in first) + (set x | x in second);
    assert z.Keys == Zeroed(c, first + second).Keys;
  }

  // ---------------------------------------------------------------------
  // Template forms

  const CloseBeforeOpen := "Close date cannot be earlier than open date."

  /** The date check both template forms make; dates are day numbers and
      `None` is a date left blank. */
  function WindowErrors(openAt: Option<int>, closeAt: Option<int>): (e: seq<FieldError>)
    ensures e == [] <==> openAt.None? || closeAt.None? || openAt.value <= closeAt.value
    ensures e != [] ==> e == [FieldError(FormLevel, CloseBeforeOpen)]
  {
    if openAt.Some? && closeAt.Some? && closeAt.value < openAt.value then [FieldError(FormLevel, CloseBeforeOpen)]
    else []
  }

  /** `FormTemplateScheduleForm.clean`. */
  function CleanSchedule(w: SubmissionRows.Window, openSet: bool, closeSet: bool): (res: Outcome<SubmissionRows.Window>)
    ensures res.cleaned == w
    ensures res.IsValid() <==> !openSet || !closeSet || w.openAt <= w.closeAt
  {
    Outcome(w, WindowErrors(if openSet then Some(w.openAt) else None, if closeSet then Some(w.closeAt) else None))
  }

  /** A schedule the form accepts, with both dates and marked active, is
      open on its first and its last day. */
  lemma AcceptedScheduleOpens(w: SubmissionRows.Window)
    requires CleanSchedule(w, true, true).IsValid() && w.isActive
    ensures SubmissionRows.IsOpenOn(w, w.openAt) && SubmissionRows.IsOpenOn(w, w.closeAt)
  {
    SubmissionRows.IsOpenOnMeaning(w);
  }

  const SmeaTitle := "SMEA Form 1"

  /** The bound fields of `FormTemplateCreateForm.clean`. `useSmea` is the
      cleaned check box, `rawUseSmea` the posted value it falls back to. */
  datatype CreateFields = CreateFields(
    title: string, useSmea: Option<bool>, rawUseSmea: Option<string>,
    openAt: Option<int>, closeAt: Option<int>)

  /** The SMEA check box as the form reads it: the cleaned value, else a
      posted value that is "1"/"true"/"on"/"yes" in any case or merely not
      empty. */
  function SmeaMode(f: CreateFields): bool
  {
    if f.useSmea.Some? then f.useSmea.value
    else f.rawUseSmea.Some? && (Lower(f.rawUseSmea.value) in {"1", "true", "on", "yes"} || f.rawUseSmea.value != "")
  }

  /** The posted fallback accepts any non-empty value; the list of words adds
      nothing. */
  lemma SmeaModeFallback(f: CreateFields)
    requires f.useSmea.None?
    ensures SmeaMode(f) <==> f.rawUseSmea.Some? && f.rawUseSmea.value != ""
  {
    if f.rawUseSmea.Some? && f.rawUseSmea.value == "" {
      assert Lower(f.rawUseSmea.value) == "";
    }
  }

  /** `FormTemplateCreateForm.clean`: SMEA mode fixes the title; a close date
      before the open date is a form-level error. */
  function CleanCreate(f: CreateFields): (res: Outcome<CreateFields>)
    ensures res.cleaned.title == (if SmeaMode(f) then SmeaTitle else f.title)
    ensures res.cleaned == f.(title := res.cleaned.title)
    ensures res.errors == WindowErrors(f.openAt, f.closeAt)
  {
    var titled := if SmeaMode(f) then f.(title := SmeaTitle) else f;
    Outcome(titled, WindowErrors(f.openAt, f.closeAt))
  }

  /** Both template forms refuse the same windows. */
  lemma TemplateFormsAgree(f: CreateFields, w: SubmissionRows.Window)
    requires f.openAt == Some(w.openAt) && f.closeAt == Some(w.closeAt)
    ensures CleanCreate(f).IsValid() <==> CleanSchedule(w, true, true).IsValid()
  {
  }

  /** `save`: the reading-timing override, lower-cased, when it names a
      reading period, and "" otherwise. */
  function NormalOverride(rto: string): (r: string)
    ensures r == "" || DifficultyPlans.IsReadingPeriod(r)
    ensures DifficultyPlans.IsReadingPeriod(Lower(rto)) <==> r != ""
    ensures r != "" ==> r == Lower(rto)
  {
    var l := Lower(rto);
    if l in {"bosy", "mosy", "eosy"} then l else ""
  }

  /** A template saved with an override reads that period; without one the
      submission's quarter decides. */
  lemma OverrideDecidesPeriod(quarter: string, rto: string)
    ensures DifficultyPlans.ReadingPeriodFor(quarter, NormalOverride(rto)) ==
      (if DifficultyPlans.IsReadingPeriod(Lower(rto)) then Lower(rto) else DifficultyPlans.QuarterPeriod(quarter))
  {
  }

  /** The pieces of the generated code: "smea1", the section code, the
      school year and the quarter, each when present. */
  function BaseParts(sectionCode: Option<string>, schoolYear: Option<nat>, quarter: string): (parts: seq<string>)
    ensures |parts| >= 1 && parts[0] == "smea1"
  {
    ["smea1"] +
    (if sectionCode.Some? && sectionCode.value != "" then [Lower(sectionCode.value)] else []) +
    (if schoolYear.Some? && schoolYear.value != 0 then ["sy" + NatToString(schoolYear.value)] else []) +
    (if quarter != "" then [Lower(quarter)] else [])
  }

  /** The slug of the joined pieces, or "smea1" when the slug is empty.
      `slugify` is a library function and is a parameter here. */
  function BaseCode(parts: seq<string>, slugify: string -> string): (b: string)
    ensures b != ""
  {
    var slug := slugify(JoinWith(parts, "-"));
    if slug == "" then "smea1" else slug
  }

  /** The k-th code tried: the base itself, then base-2, base-3, and so on. */
  function Candidate(base: string, k: nat): string
  {
    if k <= 1 then base else base + "-" + NatToString(k)
  }

  /** `FormTemplate.objects.filter(code__iexact=c).exists()`. */
  predicate Taken(codes: set<string>, c: string)
  {
    exists t :: t in codes && Lower(t) == Lower(c)
  }

  /** The existing codes, compared without case. */
  function TakenKeys(codes: set<string>): set<string>
  {
    set t | t in codes :: Lower(t)
  }

  /** The codes tried before the k-th, compared without case. */
  function Tried(base: string, k: nat): set<string>
  {
    set j | 1 <= j < k :: Lower(Candidate(base, j))
  }

  /** No two codes tried are the same, whatever their case. */
  /** Lower case leaves the "-digits" suffix of a candidate as it is. */
  lemma LowerSuffix(base: string, d: string)
    requires AllDigits(d)
    ensures Lower(base + "-" + d) == Lower(base) + "-" + d
  {
    var l, r := Lower(base + "-" + d), Lower(base) + "-" + d;
    forall k | 0 <= k < |l| ensures l[k] == r[k] {
      if k > |base| {
        assert (base + "-" + d)[k] == d[k - |base| - 1];
      }
    }
  }

  lemma CandidatesDiffer(base: string, i: nat, j: nat)
    requires 1 <= i < j
    ensures Lower(Candidate(base, i)) != Lower(Candidate(base, j))
  {
    var dj := NatToString(j);
    if i == 1 {
      assert |Lower(Candidate(base, j))| == |base| + 1 + |dj|;
    } else {
      var di := NatToString(i);
      LowerSuffix(base, di);
      LowerSuffix(base, dj);
      if Lower(Candidate(base, i)) == Lower(Candidate(base, j)) {
        var n := |Lower(base)| + 1;
        assert (Lower(base) + "-" + di)[n..] == di;
        assert (Lower(base) + "-" + dj)[n..] == dj;
        DigitsOfNat(i);
        DigitsOfNat(j);
        assert false;
      }
    }
  }

  lemma TriedStep(base: string, k: nat)
    requires k >= 1
    ensures Lower(Candidate(base, k)) !in Tried(base, k)
    ensures Tried(base, k + 1) == Tried(base, k) + {Lower(Candidate(base, k))}
  {
    forall j | 1 <= j < k
      ensures Lower(Candidate(base, j)) != Lower(Candidate(base, k))
    {
      CandidatesDiffer(base, j, k);
    }
  }

  lemma {:induction false} SubsetCard<T>(a: set<T>, b: set<T>)
    requires a <= b
    ensures |a| <= |b|
    decreases |b|
  {
    if a != {} {
      var x :| x in a;
      SubsetCard(a - {x}, b - {x});
    }
  }

  /** The `while` loop of `save`: try the base, then base-2, base-3, ...,
      until a code is found that no template uses in any case. The code
      returned is the first such candidate, a free base is kept as it is,
      and at most one candidate per existing code is tried before it. */
  method UniqueCode(base: string, codes: set<string>) returns (code: string, ghost k: nat)
    ensures 1 <= k <= |TakenKeys(codes)| + 1
    ensures code == Candidate(base, k) && !Taken(codes, code)
    ensures forall j :: 1 <= j < k ==> Taken(codes, Candidate(base, j))
    ensures !Taken(codes, base) ==> code == base
  {
    var candidate := base;
    var suffix := 2;
    ghost var tried: set<string> := {};
    while exists t :: t in codes && Lower(t) == Lower(candidate)
      invariant suffix >= 2 && candidate == Candidate(base, suffix - 1)
      invariant forall j :: 1 <= j < suffix - 1 ==> Taken(codes, Candidate(base, j))
      invariant tried == Tried(base, suffix - 1) && |tried| == suffix - 2
      invariant tried <= TakenKeys(codes)
      decreases |TakenKeys(codes)| - |tried|
    {
      TriedStep(base, suffix - 1);
      var t :| t in codes && Lower(t) == Lower(candidate);
      assert Lower(candidate) in TakenKeys(codes);
      tried := tried + {Lower(candidate)};
      SubsetCard(tried, TakenKeys(codes));
      candidate := base + "-" + NatToString(suffix);
      suffix := suffix + 1;
    }
    SubsetCard(tried, TakenKeys(codes));
    code, k := candidate, suffix - 1;
  }

  /** The fields of a `FormTemplate` that `save` writes. `schema` is the
      schema descriptor, a dictionary; `sectionCode` is None when the
      template has no section. */
  datatype TemplateInstance = TemplateInstance(
    title: string, code: string, sectionCode: Option<string>,
    schoolYear: Option<nat>, quarterFilter: string, readingTimingOverride: string,
    schema: map<string, Json.Json>)

  /** The form's own choices: the school year (None when blank), the quarter
      ("" for all), the override, the SMEA check box and the tabs ticked. */
  datatype CreateChoices = CreateChoices(
    schoolYear: Option<nat>, quarter: string, readingTimingOverride: string,
    useSmea: bool, enabledTabs: seq<string>)

  function TabsJson(tabs: seq<string>): Json.Json
  {
    Json.JArr(seq(|tabs|, i requires 0 <= i < |tabs| => Json.JStr(tabs[i])))
  }

  /** The configuration SMEA mode records in the schema descriptor. */
  function SmeaSchema(schema: map<string, Json.Json>, tabs: seq<string>, year: Option<nat>, quarter: string): (r: map<string, Json.Json>)
    ensures "form_type" in r && r["form_type"] == Json.JStr("smea_form_1")
    ensures "enabled_tabs" in r && r["enabled_tabs"] == TabsJson(tabs)
    ensures year.Some? && year.value != 0 ==> "school_year" in r && r["school_year"] == Json.JNum(year.value)
    ensures quarter != "" ==> "quarter" in r && r["quarter"] == Json.JStr(quarter)
    ensures forall k :: k in schema && k !in {"form_type", "enabled_tabs", "school_year", "quarter"} ==> k in r && r[k] == schema[k]
  {
    var s1 := schema["form_type" := Json.JStr("smea_form_1")]["enabled_tabs" := TabsJson(tabs)];
    var s2 := if year.Some? && year.value != 0 then s1["school_year" := Json.JNum(year.value)] else s1;
    if quarter != "" then s2["quarter" := Json.JStr(quarter)] else s2
  }

  /** `FormTemplateCreateForm.save`. The school year and quarter chosen are
      recorded, the override is normalised; in SMEA mode the title is fixed,
      a blank code is replaced by the first free candidate of the base code,
      and the configuration goes into the schema. `codes` are the codes of
      the templates already saved. */
  method SaveTemplate(inst: TemplateInstance, choices: CreateChoices, codes: set<string>, slugify: string -> string)
    returns (saved: TemplateInstance)
    ensures saved.sectionCode == inst.sectionCode
    ensures saved.schoolYear == (if choices.schoolYear.Some? then choices.schoolYear else inst.schoolYear)
    ensures saved.quarterFilter == (if choices.quarter != "" then choices.quarter else inst.quarterFilter)
    ensures saved.readingTimingOverride == NormalOverride(choices.readingTimingOverride)
    ensures !choices.useSmea ==> saved.title == inst.title && saved.code == inst.code && saved.schema == inst.schema
    ensures choices.useSmea ==>
      (saved.title == SmeaTitle &&
       saved.schema == SmeaSchema(inst.schema, choices.enabledTabs, saved.schoolYear, saved.quarterFilter))
    ensures choices.useSmea && !IsBlank(inst.code) ==> saved.code == inst.code
    ensures choices.useSmea && IsBlank(inst.code) ==>
      var base := BaseCode(BaseParts(inst.sectionCode, saved.schoolYear, saved.quarterFilter), slugify);
      !Taken(codes, saved.code) &&
      exists k :: 1 <= k && saved.code == Candidate(base, k) && forall j :: 1 <= j < k ==> Taken(codes, Candidate(base, j))
  {
    saved := inst;
    if choices.schoolYear.Some? {
      saved := saved.(schoolYear := choices.schoolYear);
    }
    if choices.quarter != "" {
      saved := saved.(quarterFilter := choices.quarter);
    }
    saved := saved.(readingTimingOverride := NormalOverride(choices.readingTimingOverride));
    if choices.useSmea {
      saved := saved.(title := SmeaTitle);
      var base := BaseCode(BaseParts(saved.sectionCode, saved.schoolYear, saved.quarterFilter), slugify);
      if IsBlank(saved.code) {
        var code;
        ghost var k;
        code, k := UniqueCode(base, codes);
        saved := saved.(code := code);
      }
      saved := saved.(schema := SmeaSchema(saved.schema, choices.enabledTabs, saved.schoolYear, saved.quarterFilter));
    }
  }
}
