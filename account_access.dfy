// What a user may see and open: the schools and submissions in a user's
// scope, the guards in front of the views, and the page a user lands on
// after signing in.
module AccountAccess {
  import opened Wrappers
  import opened Lists
  import opened AccountRoles

  // ---------------------------------------------------------------------
  // Scope

  /** A school as the scope filters see it. */
  datatype School = School(id: int, districtId: Option<int>)

  /** A submission, with the school it belongs to. */
  datatype Submission = Submission(id: int, school: School)

  /** Which schools a user's scope takes in. */
  datatype Selection = NoSchools | AllSchools | OneSchool(id: int) | InDistricts(ids: set<int>)

  /** The branches of `scope_schools`: nobody before signing in, everything
      for SGOD and section admins, the assigned school, else the supervised
      districts, else nothing. */
  function Scope(u: User): (sel: Selection)
    ensures u.Anonymous? ==> sel == NoSchools
    ensures sel.AllSchools? <==> IsSgodAdmin(u) || IsSectionAdmin(u, None)
  {
    if u.Anonymous? then NoSchools
    else if IsSgodAdmin(u) || IsSectionAdmin(u, None) then AllSchools
    else
      var p := GetProfile(u).value;
      if p.schoolId.Some? then OneSchool(p.schoolId.value)
      else if p.districtIds != {} then InDistricts(p.districtIds)
      else NoSchools
  }

  predicate Shows(sel: Selection, s: School)
  {
    match sel
    case NoSchools => false
    case AllSchools => true
    case OneSchool(id) => s.id == id
    case InDistricts(ids) => s.districtId.Some? && s.districtId.value in ids
  }

  function InScope(sel: Selection): School -> bool
  {
    (s: School) => Shows(sel, s)
  }

  function SubmissionInScope(sel: Selection): Submission -> bool
  {
    (sub: Submission) => Shows(sel, sub.school)
  }

  /** `scope_schools` over the school table. */
  function ScopeSchools(u: User, schools: seq<School>): (r: seq<School>)
    ensures forall s :: s in r <==> s in schools && Shows(Scope(u), s)
  {
    FilterMeaning(schools, InScope(Scope(u)));
    Filter(schools, InScope(Scope(u)))
  }

  /** `scope_submissions` over the submission table: the same branches,
      applied to each submission's school. */
  function ScopeSubmissions(u: User, subs: seq<Submission>): (r: seq<Submission>)
    ensures forall sub :: sub in r <==> sub in subs && Shows(Scope(u), sub.school)
  {
    FilterMeaning(subs, SubmissionInScope(Scope(u)));
    Filter(subs, SubmissionInScope(Scope(u)))
  }

  /** The two scopes agree: a submission is in scope exactly when its
      school is. */
  lemma SubmissionScopeMirrorsSchools(u: User, subs: seq<Submission>, schools: seq<School>, sub: Submission)
    requires sub in subs && sub.school in schools
    ensures sub in ScopeSubmissions(u, subs) <==> sub.school in ScopeSchools(u, schools)
  {
  }

  /** Seeing any school takes some role. */
  lemma ScopeNeedsRole(u: User, s: School)
    requires Shows(Scope(u), s)
    ensures IsSchoolHead(u) || IsPsds(u) || IsSectionAdmin(u, None)
  {
  }

  /** Everyone sees the school assigned to them. */
  lemma OwnSchoolInScope(u: User, s: School)
    requires u.SignedIn? && GetProfile(u).value.schoolId == Some(s.id)
    ensures Shows(Scope(u), s)
  {
  }

  /** A school head who is not an admin sees exactly the assigned school,
      whatever districts the profile also lists. */
  lemma SchoolHeadScope(u: User, s: School)
    requires IsSchoolHead(u) && !IsSgodAdmin(u) && !IsSectionAdmin(u, None)
    ensures Shows(Scope(u), s) <==> GetProfile(u).value.schoolId == Some(s.id)
  {
  }

  /** A district supervisor without a school sees the schools of the
      supervised districts. */
  lemma PsdsScope(u: User, s: School)
    requires IsPsds(u) && !IsSchoolHead(u) && !IsSectionAdmin(u, None)
    ensures Shows(Scope(u), s) <==> s.districtId.Some? && s.districtId.value in GetProfile(u).value.districtIds
  {
  }

  /** The scope tests: two districts with one school each; a head of the
      first school and a supervisor of the first district see that school
      and its submission, a section admin and an SGOD admin see both. */
  lemma ScopeExamples()
    ensures
      var flora, luna := School(1, Some(10)), School(2, Some(20));
      var subFlora, subLuna := Submission(100, flora), Submission(101, luna);
      var head := SignedIn(false, Some(Profile(Some(1), {}, false, [])));
      var psds := SignedIn(false, Some(Profile(None, {10}, false, [])));
      var section := SignedIn(false, Some(Profile(None, {}, false, ["smme"])));
      var sgod := SignedIn(false, Some(Profile(None, {}, true, [])));
      ScopeSchools(head, [flora, luna]) == [flora] &&
      ScopeSubmissions(head, [subFlora, subLuna]) == [subFlora] &&
      ScopeSchools(psds, [flora, luna]) == [flora] &&
      ScopeSubmissions(psds, [subFlora, subLuna]) == [subFlora] &&
      ScopeSchools(section, [flora, luna]) == [flora, luna] &&
      ScopeSchools(sgod, [flora, luna]) == [flora, luna]
  {
    var flora, luna := School(1, Some(10)), School(2, Some(20));
    var subFlora, subLuna := Submission(100, flora), Submission(101, luna);
    var head := SignedIn(false, Some(Profile(Some(1), {}, false, [])));
    var psds := SignedIn(false, Some(Profile(None, {10}, false, [])));
    var section := SignedIn(false, Some(Profile(None, {}, false, ["smme"])));
    var sgod := SignedIn(false, Some(Profile(None, {}, true, [])));
    assert Scope(head) == OneSchool(1);
    assert Scope(psds) == InDistricts({10});
    assert Scope(section) == AllSchools;
    assert Scope(sgod) == AllSchools;
    FilterPair(flora, luna, InScope(Scope(head)));
    FilterPair(subFlora, subLuna, SubmissionInScope(Scope(head)));
    FilterPair(flora, luna, InScope(Scope(psds)));
    FilterPair(subFlora, subLuna, SubmissionInScope(Scope(psds)));
    FilterPair(flora, luna, InScope(Scope(section)));
    FilterPair(flora, luna, InScope(Scope(sgod)));
  }

  lemma FilterPair<T>(a: T, b: T, keep: T -> bool)
    ensures Filter([a, b], keep) == (if keep(a) then [a] else []) + (if keep(b) then [b] else [])
  {
    assert [a, b][..1] == [a];
    assert [a][..0] == [];
  }

  // ---------------------------------------------------------------------
  // View guards

  /** A guard lets the request through or refuses it with a message. */
  datatype Decision = Allow | Deny(reason: string)

  const SchoolHeadRequired := "School Head role required."
  const NoSchoolAssigned := "No school is associated with your account."
  const OwnSchoolOnly := "You can only act on your assigned school."
  const SectionAdminRequired := "Section Admin role required."
  const NotSectionAdmin := "You are not an admin for this section."
  const PsdsRequired := "PSDS role required."
  const SgodRequired := "SGOD access required."

  /** Where `require_school_head` takes the school being acted on from: a
      submission named in the URL, a school named in the URL, or else the
      user's own school. */
  datatype Target = OfSubmission(submissionSchool: int) | OfSchool(school: int) | OwnSchool

  function TargetSchool(u: User, t: Target): Option<int>
  {
    match t
    case OfSubmission(id) => Some(id)
    case OfSchool(id) => Some(id)
    case OwnSchool => if u.SignedIn? then GetProfile(u).value.schoolId else None
  }

  /** `require_school_head`, in its order of checks. */
  function RequireSchoolHead(u: User, t: Target): Decision
  {
    if !IsSchoolHead(u) then Deny(SchoolHeadRequired)
    else
      var target := TargetSchool(u, t);
      if IsSgodAdmin(u) then Allow
      else if GetProfile(u).None? || GetProfile(u).value.schoolId.None? then Deny(NoSchoolAssigned)
      else if target.Some? && GetProfile(u).value.schoolId != target then Deny(OwnSchoolOnly)
      else Allow
  }

  /** A school head gets through exactly when an SGOD admin, or acting on
      the assigned school; a refusal names the missing role or the wrong
      school. */
  lemma SchoolHeadGuard(u: User, t: Target)
    ensures RequireSchoolHead(u, t) == Allow <==>
      IsSgodAdmin(u) ||
      (u.SignedIn? && GetProfile(u).value.schoolId.Some? &&
       (t.OwnSchool? || TargetSchool(u, t) == GetProfile(u).value.schoolId))
    ensures RequireSchoolHead(u, t) == Deny(SchoolHeadRequired) <==> !IsSchoolHead(u)
    ensures RequireSchoolHead(u, t) in {Allow, Deny(SchoolHeadRequired), Deny(OwnSchoolOnly)}
  {
  }

  /** `require_section_admin`: `section` is the code of the section named
      in the URL, or of the submission's form, when the view has one. */
  function RequireSectionAdmin(u: User, section: Option<string>): Decision
  {
    if !IsSectionAdmin(u, None) then Deny(SectionAdminRequired)
    else if IsSgodAdmin(u) then Allow
    else if section.Some? && section.value != "" && !IsSectionAdmin(u, section) then Deny(NotSectionAdmin)
    else Allow
  }

  /** For a named section the guard is exactly the section check; without
      one, any section admin gets through. */
  lemma SectionAdminGuard(u: User, section: Option<string>)
    ensures section.Some? && section.value != "" ==>
      (RequireSectionAdmin(u, section) == Allow <==> IsSectionAdmin(u, section))
    ensures section.None? || section == Some("") ==>
      (RequireSectionAdmin(u, section) == Allow <==> IsSectionAdmin(u, None))
    ensures RequireSectionAdmin(u, section) == Deny(SectionAdminRequired) <==> !IsSectionAdmin(u, None)
  {
    if section.Some? && IsSectionAdmin(u, section) {
      SomeSectionFromOne(u, section.value);
    }
  }

  /** `view_only_psds`. */
  function ViewOnlyPsds(u: User): Decision
  {
    if !(IsPsds(u) || IsSgodAdmin(u)) then Deny(PsdsRequired) else Allow
  }

  /** `require_sgod_admin`. */
  function RequireSgodAdmin(u: User): Decision
  {
    if !IsSgodAdmin(u) then Deny(SgodRequired) else Allow
  }

  /** SGOD admins pass every guard. */
  lemma SgodPassesEveryGuard(u: User, t: Target, section: Option<string>)
    requires IsSgodAdmin(u)
    ensures RequireSchoolHead(u, t) == Allow && RequireSectionAdmin(u, section) == Allow
    ensures ViewOnlyPsds(u) == Allow && RequireSgodAdmin(u) == Allow
  {
    SgodAdminHasEveryRole(u, None);
  }

  /** Nothing lets an anonymous request through. */
  lemma AnonymousPassesNoGuard(t: Target, section: Option<string>)
    ensures RequireSchoolHead(Anonymous, t).Deny? && RequireSectionAdmin(Anonymous, section).Deny?
    ensures ViewOnlyPsds(Anonymous).Deny? && RequireSgodAdmin(Anonymous).Deny?
  {
  }

  // ---------------------------------------------------------------------
  // Landing page

  /** The pages `post_login_redirect` sends to; the sign-in page for a
      request that is not signed in. */
  datatype Destination = SignInPage | DivisionOverview | KpiDashboard | ReviewQueue(code: string) | SchoolHome

  function Truthy(code: Option<string>): bool
  {
    code.Some? && code.value != ""
  }

  /** `post_login_redirect`. `firstSection` is the code of the first section
      in code order, if there is one. */
  function PostLoginRedirect(u: User, firstSection: Option<string>): Destination
  {
    if u.Anonymous? then SignInPage
    else if IsSgodAdmin(u) then DivisionOverview
    else if IsPsds(u) then KpiDashboard
    else if GetProfile(u).value.sectionCodes != [] then ReviewQueue(GetProfile(u).value.sectionCodes[0])
    else if Truthy(firstSection) && (IsSectionAdmin(u, firstSection) || IsSgodAdmin(u)) then ReviewQueue(firstSection.value)
    else if IsSchoolHead(u) then SchoolHome
    else if Truthy(firstSection) then ReviewQueue(firstSection.value)
    else SchoolHome
  }

  const ReviewerRequired := "Reviewer role required."

  /** The check each landing page runs: `_require_sgod_access` in
      `division_overview`, `_require_reviewer_access` in
      `smme_kpi_dashboard`, the reviewer check of `review_queue` for its
      section, and nothing beyond signing in for `school_home`; every one
      of them first needs a signed-in user. */
  function PageAccess(u: User, d: Destination): (r: Decision)
    ensures d.SchoolHome? ==> (r == Allow <==> u.SignedIn?)
    ensures d.ReviewQueue? ==> (r == Allow <==> IsSectionAdmin(u, Some(d.code)) || IsPsds(u) || IsSgodAdmin(u))
  {
    if d != SignInPage && u.Anonymous? then Deny(SignInRequired)
    else match d
    case SignInPage => Allow
    case DivisionOverview => if IsSgodAdmin(u) then Allow else Deny(SgodRequired)
    case KpiDashboard =>
      if IsSectionAdmin(u, None) || IsPsds(u) || IsSgodAdmin(u) then Allow else Deny(ReviewerRequired)
    case ReviewQueue(c) =>
      if IsSectionAdmin(u, Some(c)) || IsPsds(u) || IsSgodAdmin(u) then Allow else Deny(ReviewerRequired)
    case SchoolHome => Allow
  }

  /** Every landing page is behind `login_required`, which sends an
      anonymous request to the sign-in page instead. */
  const SignInRequired := "login required"

  /** Every user with a role lands on a page that lets them in. */
  lemma LandingPageOpens(u: User, firstSection: Option<string>)
    requires IsSgodAdmin(u) || IsPsds(u) || IsSchoolHead(u) || IsSectionAdmin(u, None)
    ensures PostLoginRedirect(u, firstSection) != SignInPage
    ensures PageAccess(u, PostLoginRedirect(u, firstSection)) == Allow
  {
    var d := PostLoginRedirect(u, firstSection);
    if d.ReviewQueue? && !IsSgodAdmin(u) && !IsPsds(u) {
      StoredCodeQualifies(u, 0);
    }
  }

  /** The fifth check never decides anything: a non-admin who got past the
      first three has no section codes and so administers no section. */
  lemma FirstSectionCheckIsDead(u: User, firstSection: Option<string>)
    requires u.SignedIn? && !IsSgodAdmin(u) && !IsPsds(u) && GetProfile(u).value.sectionCodes == []
    ensures !IsSectionAdmin(u, firstSection)
  {
  }

  /** A user with no role is sent to the first section's review queue,
      which refuses them; with no section at all they land on the school
      home, which lets any signed-in user in. */
  lemma NoRoleLandsOnRefusal(u: User, firstSection: Option<string>)
    requires u.SignedIn? && !IsSchoolHead(u) && !IsPsds(u) && !IsSectionAdmin(u, None)
    ensures Truthy(firstSection) ==> PostLoginRedirect(u, firstSection) == ReviewQueue(firstSection.value)
    ensures Truthy(firstSection) ==> PageAccess(u, PostLoginRedirect(u, firstSection)) == Deny(ReviewerRequired)
    ensures !Truthy(firstSection) ==> PostLoginRedirect(u, firstSection) == SchoolHome
    ensures !Truthy(firstSection) ==> PageAccess(u, PostLoginRedirect(u, firstSection)) == Allow
  {
    assert GetProfile(u).value.sectionCodes == [];
  }

  /** The landing-page tests, with "smme" the only section. */
  lemma RedirectExamples()
    ensures PostLoginRedirect(SignedIn(false, Some(Profile(Some(1), {}, false, []))), Some("smme")) == SchoolHome
    ensures PostLoginRedirect(SignedIn(false, Some(Profile(None, {}, false, ["smme"]))), Some("smme")) == ReviewQueue("smme")
    ensures PostLoginRedirect(SignedIn(false, Some(Profile(None, {7}, false, []))), Some("smme")) == KpiDashboard
    ensures PostLoginRedirect(SignedIn(false, Some(Profile(None, {}, true, []))), Some("smme")) == DivisionOverview
    ensures PostLoginRedirect(SignedIn(false, Some(EmptyProfile())), Some("smme")) == ReviewQueue("smme")
  {
  }
}
