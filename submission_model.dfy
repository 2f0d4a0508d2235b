// The `Submission` record of a school's report: its review lifecycle
// (draft, submitted, returned, noted) with the audit timeline the
// transitions append to, and the readiness check that guards submitting.
module SubmissionLifecycle {
  import opened Wrappers
  import opened Text

  datatype Status = Draft | Submitted | Returned | Noted

  /** The stored value of a status. */
  function StatusCode(s: Status): (c: string)
    ensures c != ""
  {
    match s
    case Draft => "draft"
    case Submitted => "submitted"
    case Returned => "returned"
    case Noted => "noted"
  }

  lemma StatusCodeInjective(a: Status, b: Status)
    ensures StatusCode(a) == StatusCode(b) ==> a == b
  {
  }

  /** A user as the lifecycle sees one: an id and whether the session is
      authenticated. */
  datatype User = User(id: nat, authenticated: bool)

  /** The actor a timeline row records: only an authenticated user. */
  function Audited(actor: Option<User>): (r: Option<User>)
    ensures r.Some? <==> actor.Some? && actor.value.authenticated
    ensures r.Some? ==> r == actor
  {
    if actor.Some? && actor.value.authenticated then actor else None
  }

  /** A `*_at` / `*_by` pair; the clock reading is a parameter of the
      operations that set one. */
  datatype Stamp = Stamp(at: Option<int>, user: Option<User>)

  const Unset: Stamp := Stamp(None, None)

  /** One `SubmissionTimeline` row. */
  datatype Entry = Entry(fromStatus: string, toStatus: string, actor: Option<User>, remarks: string)

  /** The lifecycle fields of a submission and its timeline rows, oldest
      first. */
  datatype Record = Record(
    status: Status,
    submitted: Stamp,
    returned: Stamp,
    returnedRemarks: string,
    noted: Stamp,
    notedRemarks: string,
    lastModifiedBy: Option<User>,
    timeline: seq<Entry>)

  /** `can_submit` and `is_editable_by_school`, which accept the same two
      statuses. */
  predicate CanSubmit(s: Status)
  {
    s == Draft || s == Returned
  }

  /** The record a first `save()` leaves: the default stamps and one timeline
      row from no status to the initial one. */
  function Created(status: Status, actor: Option<User>): Record
  {
    Record(status, Unset, Unset, "", Unset, "", actor,
      [Entry("", StatusCode(status), Audited(actor),
        if status == Draft then "Submission created" else "Status initialized")])
  }

  /** `_transition`. */
  function AfterTransition(r: Record, target: Status, actor: Option<User>, remarks: string): Record
  {
    if r.status == target then r
    else
      r.(status := target,
         returned := if target == Returned then r.returned else Unset,
         noted := if target == Noted then r.noted else Unset,
         lastModifiedBy := actor,
         timeline := r.timeline + [Entry(StatusCode(r.status), StatusCode(target), Audited(actor), remarks)])
  }

  // ---------------------------------------------------------------------
  // Readiness

  /** A project as the readiness check counts it. */
  datatype ProjectSummary = ProjectSummary(title: string, activities: nat)

  /** The titles of the projects without activities, in order, with
      "Untitled project" for a blank title. */
  function EmptyTitles(projects: seq<ProjectSummary>): (r: seq<string>)
    ensures |r| <= |projects|
    ensures r == [] <==> forall i :: 0 <= i < |projects| ==> projects[i].activities > 0
    decreases |projects|
  {
    if projects == [] then []
    else
      var rest := EmptyTitles(projects[1..]);
      assert forall i :: 1 <= i < |projects| ==> projects[i] == projects[1..][i - 1];
      var p := projects[0];
      if p.activities == 0 then [if p.title == "" then "Untitled project" else p.title] + rest else rest
  }

  const NoProjects := "Add at least one project before submitting."
  const MissingActivities := "Each project must have at least one activity. Missing activities for: "

  /** `validate_ready_for_submission`: the messages of the `ValidationError`
      it raises, or none. */
  function ReadinessErrors(projects: seq<ProjectSummary>): seq<string>
  {
    if projects == [] then [NoProjects]
    else
      var empty := EmptyTitles(projects);
      if empty == [] then [] else [MissingActivities + JoinWith(empty, ", ")]
  }

  /** Submitting needs at least one project and at least one activity in
      every project; otherwise there is exactly one message. */
  lemma ReadinessMeaning(projects: seq<ProjectSummary>)
    ensures ReadinessErrors(projects) == [] <==>
      projects != [] && forall i :: 0 <= i < |projects| ==> projects[i].activities > 0
    ensures |ReadinessErrors(projects)| <= 1
    ensures projects == [] ==> ReadinessErrors(projects) == [NoProjects]
  {
  }

  // ---------------------------------------------------------------------
  // The review actions

  const NotSubmittable := "Submission cannot be submitted in its current state."
  const OnlySubmittedReturned := "Only submitted reports may be returned."
  const RemarksRequired := "Remarks are required when returning a submission."
  const OnlySubmittedNoted := "Only submitted reports may be marked as noted."

  /** The messages `mark_submitted` raises, checked before anything changes. */
  function SubmitErrors(r: Record, projects: seq<ProjectSummary>): seq<string>
  {
    if !CanSubmit(r.status) then [NotSubmittable] else ReadinessErrors(projects)
  }

  function AfterSubmit(r: Record, user: Option<User>, now: int): Record
  {
    AfterTransition(r.(submitted := Stamp(Some(now), user)), Submitted, user, "")
  }

  /** The message `mark_returned` raises: remarks must be non-empty. */
  function ReturnError(r: Record, remarks: string): Option<string>
  {
    if r.status != Submitted then Some(OnlySubmittedReturned)
    else if remarks == "" then Some(RemarksRequired)
    else None
  }

  function AfterReturn(r: Record, user: Option<User>, remarks: string, now: int): Record
  {
    AfterTransition(r.(returned := Stamp(Some(now), user), returnedRemarks := remarks), Returned, user, remarks)
  }

  function NoteError(r: Record): Option<string>
  {
    if r.status != Submitted then Some(OnlySubmittedNoted) else None
  }

  /** `mark_noted`; missing remarks are the empty string, as `remarks or ""`
      makes them. */
  function AfterNote(r: Record, user: Option<User>, remarks: string, now: int): Record
  {
    AfterTransition(r.(noted := Stamp(Some(now), user), notedRemarks := remarks), Noted, user, remarks)
  }

  function AfterDraft(r: Record, user: Option<User>): Record
  {
    AfterTransition(r, Draft, user, "")
  }

  // ---------------------------------------------------------------------
  // What the lifecycle keeps

  /** The timeline is a chain: it starts from no status, every row changes
      the status and starts where the previous one ended, and the last row
      ends at the current status. */
  predicate Chained(t: seq<Entry>, status: Status)
  {
    |t| > 0 && t[0].fromStatus == "" &&
    (forall i :: 0 <= i < |t| ==> t[i].fromStatus != t[i].toStatus) &&
    (forall i :: 0 < i < |t| ==> t[i].fromStatus == t[i - 1].toStatus) &&
    t[|t| - 1].toStatus == StatusCode(status)
  }

  /** The invariant of a stored submission: a chained timeline, and a
      review stamp only while the status is the one that set it. */
  predicate Consistent(r: Record)
  {
    Chained(r.timeline, r.status) &&
    (r.returned != Unset ==> r.status == Returned) &&
    (r.noted != Unset ==> r.status == Noted)
  }

  lemma CreatedConsistent(status: Status, actor: Option<User>)
    ensures Consistent(Created(status, actor))
    ensures |Created(status, actor).timeline| == 1
  {
  }

  /** A transition to the current status changes nothing; any other appends
      exactly one row from the old status to the new, clears the review
      stamps that do not belong to the new status, and keeps every remark. */
  lemma TransitionMeaning(r: Record, target: Status, actor: Option<User>, remarks: string)
    requires Chained(r.timeline, r.status)
    requires r.status == target ==> Consistent(r)
    ensures var r' := AfterTransition(r, target, actor, remarks);
      Consistent(r') && r'.status == target &&
      r.timeline <= r'.timeline &&
      |r'.timeline| == |r.timeline| + (if r.status == target then 0 else 1) &&
      r'.returnedRemarks == r.returnedRemarks && r'.notedRemarks == r.notedRemarks &&
      r'.submitted == r.submitted
  {
    var r' := AfterTransition(r, target, actor, remarks);
    if r.status != target {
      var t := r.timeline;
      var t' := r'.timeline;
      assert t'[|t|] == Entry(StatusCode(r.status), StatusCode(target), Audited(actor), remarks);
      StatusCodeInjective(r.status, target);
      assert forall i :: 0 <= i < |t| ==> t'[i] == t[i];
    }
  }

  /** Submitting succeeds exactly from draft or returned with every project
      holding an activity; it then appends one row to "submitted" and keeps
      the remarks of an earlier return. */
  lemma SubmitMeaning(r: Record, projects: seq<ProjectSummary>, user: Option<User>, now: int)
    requires Consistent(r)
    ensures SubmitErrors(r, projects) == [] <==>
      CanSubmit(r.status) && projects != [] && forall i :: 0 <= i < |projects| ==> projects[i].activities > 0
    ensures SubmitErrors(r, projects) == [] ==>
      var r' := AfterSubmit(r, user, now);
      Consistent(r') && r'.status == Submitted && r'.submitted == Stamp(Some(now), user) &&
      r'.returned == Unset && r'.noted == Unset && r'.returnedRemarks == r.returnedRemarks &&
      r'.timeline == r.timeline + [Entry(StatusCode(r.status), "submitted", Audited(user), "")]
  {
    ReadinessMeaning(projects);
    if SubmitErrors(r, projects) == [] {
      TransitionMeaning(r.(submitted := Stamp(Some(now), user)), Submitted, user, "");
    }
  }

  /** Returning needs a submitted report and non-empty remarks; it records
      the remarks and the stamp and appends one row to "returned". */
  lemma ReturnMeaning(r: Record, user: Option<User>, remarks: string, now: int)
    requires Consistent(r)
    ensures ReturnError(r, remarks).None? <==> r.status == Submitted && remarks != ""
    ensures ReturnError(r, remarks).None? ==>
      var r' := AfterReturn(r, user, remarks, now);
      Consistent(r') && r'.status == Returned && r'.returned == Stamp(Some(now), user) &&
      r'.returnedRemarks == remarks && r'.noted == Unset &&
      r'.timeline == r.timeline + [Entry("submitted", "returned", Audited(user), remarks)]
  {
    if ReturnError(r, remarks).None? {
      TransitionMeaning(r.(returned := Stamp(Some(now), user), returnedRemarks := remarks), Returned, user, remarks);
    }
  }

  /** Noting needs a submitted report; it appends one row to "noted". */
  lemma NoteMeaning(r: Record, user: Option<User>, remarks: string, now: int)
    requires Consistent(r)
    ensures NoteError(r).None? <==> r.status == Submitted
    ensures NoteError(r).None? ==>
      var r' := AfterNote(r, user, remarks, now);
      Consistent(r') && r'.status == Noted && r'.noted == Stamp(Some(now), user) &&
      r'.notedRemarks == remarks && r'.returned == Unset && r'.returnedRemarks == r.returnedRemarks &&
      r'.timeline == r.timeline + [Entry("submitted", "noted", Audited(user), remarks)]
  {
    if NoteError(r).None? {
      TransitionMeaning(r.(noted := Stamp(Some(now), user), notedRemarks := remarks), Noted, user, remarks);
    }
  }

  /** Moving back to draft keeps the record consistent, and from draft it is
      a no-op. */
  lemma DraftMeaning(r: Record, user: Option<User>)
    requires Consistent(r)
    ensures Consistent(AfterDraft(r, user)) && AfterDraft(r, user).status == Draft
    ensures r.status == Draft ==> AfterDraft(r, user) == r
    ensures r.timeline <= AfterDraft(r, user).timeline
  {
    TransitionMeaning(r, Draft, user, "");
  }

  // ---------------------------------------------------------------------
  // The stored record

  class Submission {
    var status: Status
    var submitted: Stamp
    var returned: Stamp
    var returnedRemarks: string
    var noted: Stamp
    var notedRemarks: string
    var lastModifiedBy: Option<User>
    /** The submission's `SubmissionTimeline` rows, oldest first. */
    var timeline: seq<Entry>

    function Snapshot(): Record
      reads this
    {
      Record(status, submitted, returned, returnedRemarks, noted, notedRemarks, lastModifiedBy, timeline)
    }

    /** Creating and saving a new submission. */
    constructor (status0: Status, actor: Option<User>)
      ensures Snapshot() == Created(status0, actor)
    {
      status := status0;
      submitted := Unset;
      returned := Unset;
      returnedRemarks := "";
      noted := Unset;
      notedRemarks := "";
      lastModifiedBy := actor;
      timeline := [Entry("", StatusCode(status0), Audited(actor),
        if status0 == Draft then "Submission created" else "Status initialized")];
    }

    method Transition(target: Status, actor: Option<User>, remarks: string)
      modifies this
      ensures Snapshot() == AfterTransition(old(Snapshot()), target, actor, remarks)
    {
      var previous := status;
      if previous == target {
        return;
      }
      if target != Returned {
        returned := Unset;
      }
      if target != Noted {
        noted := Unset;
      }
      status := target;
      lastModifiedBy := actor;
      timeline := timeline + [Entry(StatusCode(previous), StatusCode(target), Audited(actor), remarks)];
    }

    method MarkSubmitted(user: Option<User>, projects: seq<ProjectSummary>, now: int) returns (errors: seq<string>)
      modifies this
      ensures errors == SubmitErrors(old(Snapshot()), projects)
      ensures Snapshot() == if errors == [] then AfterSubmit(old(Snapshot()), user, now) else old(Snapshot())
    {
      if !CanSubmit(status) {
        return [NotSubmittable];
      }
      errors := ReadinessErrors(projects);
      if errors != [] {
        return;
      }
      submitted := Stamp(Some(now), user);
      Transition(Submitted, user, "");
    }

    method MarkReturned(user: Option<User>, remarks: string, now: int) returns (error: Option<string>)
      modifies this
      ensures error == ReturnError(old(Snapshot()), remarks)
      ensures Snapshot() == if error.None? then AfterReturn(old(Snapshot()), user, remarks, now) else old(Snapshot())
    {
      if status != Submitted {
        return Some(OnlySubmittedReturned);
      }
      if remarks == "" {
        return Some(RemarksRequired);
      }
      returned := Stamp(Some(now), user);
      returnedRemarks := remarks;
      Transition(Returned, user, remarks);
      error := None;
    }

    method MarkNoted(user: Option<User>, remarks: string, now: int) returns (error: Option<string>)
      modifies this
      ensures error == NoteError(old(Snapshot()))
      ensures Snapshot() == if error.None? then AfterNote(old(Snapshot()), user, remarks, now) else old(Snapshot())
    {
      if status != Submitted {
        return Some(OnlySubmittedNoted);
      }
      noted := Stamp(Some(now), user);
      notedRemarks := remarks;
      Transition(Noted, user, remarks);
      error := None;
    }

    method MarkDraft(user: Option<User>)
      modifies this
      ensures Snapshot() == AfterDraft(old(Snapshot()), user)
    {
      Transition(Draft, user, "");
    }
  }
}
