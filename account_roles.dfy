// Who a signed-in user is to the system: SGOD administrator, school head,
// PSDS (district supervisor) or section administrator, decided from the
// user's account flags and profile.
module AccountRoles {
  import opened Wrappers
  import opened Text

  /** The profile fields the role checks read: the assigned school, the
      supervised districts, the SGOD flag and the section codes the user
      administers (as stored, any case, possibly padded). */
  datatype Profile = Profile(schoolId: Option<int>, districtIds: set<int>, isSgodAdmin: bool, sectionCodes: seq<string>)

  /** A request's user. `profile` is None for an account whose profile row is
      missing. */
  datatype User = Anonymous | SignedIn(isSuperuser: bool, profile: Option<Profile>)

  /** The profile `get_or_create` makes for an account without one. */
  function EmptyProfile(): Profile
  {
    Profile(None, {}, false, [])
  }

  /** `get_profile`: none for an anonymous user, else the user's profile,
      created empty when it is missing. */
  function GetProfile(u: User): (p: Option<Profile>)
    ensures p.None? <==> u.Anonymous?
    ensures u.SignedIn? && u.profile.Some? ==> p == u.profile
    ensures u.SignedIn? && u.profile.None? ==> p == Some(EmptyProfile())
  {
    match u
    case Anonymous => None
    case SignedIn(_, profile) => Some(profile.GetOr(EmptyProfile()))
  }

  /** `is_sgod_admin`: a superuser, or a profile flagged as SGOD admin. */
  predicate IsSgodAdmin(u: User)
  {
    u.SignedIn? && (u.isSuperuser || GetProfile(u).value.isSgodAdmin)
  }

  /** `is_school_head`: a profile with a school, or an SGOD admin. */
  predicate IsSchoolHead(u: User)
  {
    (GetProfile(u).Some? && GetProfile(u).value.schoolId.Some?) || IsSgodAdmin(u)
  }

  /** `is_psds`: a profile with at least one district, or an SGOD admin. */
  predicate IsPsds(u: User)
  {
    (GetProfile(u).Some? && GetProfile(u).value.districtIds != {}) || IsSgodAdmin(u)
  }

  /** The form in which section codes are compared: stripped, upper case. */
  function CodeKey(code: string): string
  {
    Upper(Trim(code))
  }

  /** Some stored code has the key of `code`. */
  predicate HasCode(codes: seq<string>, code: string)
  {
    exists i :: 0 <= i < |codes| && CodeKey(codes[i]) == CodeKey(code)
  }

  /** `is_section_admin(user, code)`: SGOD admins always; otherwise, with no
      code, any stored section code, and with a code, a stored one equal to
      it once both are stripped and upper-cased. */
  predicate IsSectionAdmin(u: User, code: Option<string>)
  {
    u.SignedIn? &&
    (IsSgodAdmin(u) ||
     match code
     case None => GetProfile(u).value.sectionCodes != []
     case Some(c) => HasCode(GetProfile(u).value.sectionCodes, c))
  }

  /** Nobody is anything before signing in. */
  lemma AnonymousHasNoRole(code: Option<string>)
    ensures GetProfile(Anonymous).None?
    ensures !IsSgodAdmin(Anonymous) && !IsSchoolHead(Anonymous) && !IsPsds(Anonymous)
    ensures !IsSectionAdmin(Anonymous, code)
  {
  }

  lemma SuperuserIsSgodAdmin(profile: Option<Profile>)
    ensures IsSgodAdmin(SignedIn(true, profile))
  {
  }

  /** An SGOD admin holds every other role, for every section. */
  lemma SgodAdminHasEveryRole(u: User, code: Option<string>)
    requires IsSgodAdmin(u)
    ensures IsSchoolHead(u) && IsPsds(u) && IsSectionAdmin(u, code)
  {
  }

  /** Administering a given section makes one a section admin. */
  lemma SomeSectionFromOne(u: User, c: string)
    requires IsSectionAdmin(u, Some(c))
    ensures IsSectionAdmin(u, None)
  {
    if !IsSgodAdmin(u) {
      var codes := GetProfile(u).value.sectionCodes;
      var i :| 0 <= i < |codes| && CodeKey(codes[i]) == CodeKey(c);
    }
  }

  /** Every code the profile stores qualifies. */
  lemma StoredCodeQualifies(u: User, i: nat)
    requires u.SignedIn? && i < |GetProfile(u).value.sectionCodes|
    ensures IsSectionAdmin(u, Some(GetProfile(u).value.sectionCodes[i]))
  {
  }

  // ---------------------------------------------------------------------
  // Keys ignore case and padding

  lemma {:induction false} TrimLeftUpper(s: string)
    ensures TrimLeft(Upper(s)) == Upper(TrimLeft(s))
    decreases |s|
  {
    if |s| > 0 {
      assert Upper(s)[1..] == Upper(s[1..]);
      assert IsSpace(Upper(s)[0]) <==> IsSpace(s[0]);
      TrimLeftUpper(s[1..]);
    }
  }

  lemma {:induction false} TrimRightUpper(s: string)
    ensures TrimRight(Upper(s)) == Upper(TrimRight(s))
    decreases |s|
  {
    var n := |s|;
    if n > 0 {
      assert Upper(s)[..n - 1] == Upper(s[..n - 1]);
      assert IsSpace(Upper(s)[n - 1]) <==> IsSpace(s[n - 1]);
      TrimRightUpper(s[..n - 1]);
    }
  }

  lemma {:induction false} TrimLeftLower(s: string)
    ensures TrimLeft(Lower(s)) == Lower(TrimLeft(s))
    decreases |s|
  {
    if |s| > 0 {
      assert Lower(s)[1..] == Lower(s[1..]);
      assert IsSpace(Lower(s)[0]) <==> IsSpace(s[0]);
      TrimLeftLower(s[1..]);
    }
  }

  lemma {:induction false} TrimRightLower(s: string)
    ensures TrimRight(Lower(s)) == Lower(TrimRight(s))
    decreases |s|
  {
    var n := |s|;
    if n > 0 {
      assert Lower(s)[..n - 1] == Lower(s[..n - 1]);
      assert IsSpace(Lower(s)[n - 1]) <==> IsSpace(s[n - 1]);
      TrimRightLower(s[..n - 1]);
    }
  }

  lemma TrimUpper(s: string)
    ensures Trim(Upper(s)) == Upper(Trim(s))
  {
    TrimLeftUpper(s);
    TrimRightUpper(TrimLeft(s));
  }

  lemma TrimLower(s: string)
    ensures Trim(Lower(s)) == Lower(Trim(s))
  {
    TrimLeftLower(s);
    TrimRightLower(TrimLeft(s));
  }

  lemma UpperTwice(s: string)
    ensures Upper(Upper(s)) == Upper(s)
  {
  }

  lemma UpperOfLower(s: string)
    ensures Upper(Lower(s)) == Upper(s)
  {
  }

  /** The key of a key is itself, and lower-casing a code keeps its key. */
  lemma CodeKeyStable(c: string)
    ensures CodeKey(CodeKey(c)) == CodeKey(c)
    ensures CodeKey(Lower(c)) == CodeKey(c)
  {
    var t := Trim(c);
    TrimUpper(t);
    TrimIdempotent(c);
    UpperTwice(t);
    TrimLower(c);
    UpperOfLower(t);
  }

  /** So the section check does not care how a code is cased or padded:
      asking for "smme", "SMME" or " Smme " gives the same answer. */
  lemma SectionCheckIgnoresCase(u: User, c: string)
    ensures IsSectionAdmin(u, Some(CodeKey(c))) == IsSectionAdmin(u, Some(c))
    ensures IsSectionAdmin(u, Some(Lower(c))) == IsSectionAdmin(u, Some(c))
  {
    CodeKeyStable(c);
  }

  lemma PaddedCodeMatches()
    ensures CodeKey(" smme ") == CodeKey("SMME")
  {
    assert Trim(" smme ") == "smme" by {
      assert TrimLeft(" smme ") == TrimLeft("smme ");
      assert TrimRight("smme ") == TrimRight("smme");
    }
  }
}
