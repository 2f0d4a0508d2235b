// The server side of the submission editor: the posted delete markers the
// save applies as a safety net, the band-sum rules an explicit save
// enforces, the tab list a template enables, and the cleaning of a school
// profile's strands for display.
module SubmissionEdit {
  import opened Wrappers
  import opened Text
  import opened Json
  import opened Constants
  import opened ServerRows
  import opened Lists
  import Reconcile

  // ---------------------------------------------------------------------
  // The posted form

  /** The request body: (name, value) in the order posted. */
  type Post = seq<(string, string)>

  /** `request.POST.get(name)`: the last value posted under the name. */
  function Get(post: Post, name: string): Option<string>
    decreases |post|
  {
    if post == [] then None
    else if post[|post| - 1].0 == name then Some(post[|post| - 1].1)
    else Get(post[..|post| - 1], name)
  }

  /** A name is in the body exactly when some pair carries it, and then
      the value read is the one of the last such pair. */
  lemma {:induction false} GetMeaning(post: Post, name: string)
    ensures Get(post, name).Some? <==> exists i :: 0 <= i < |post| && post[i].0 == name
    ensures Get(post, name).Some? ==>
      exists i :: (0 <= i < |post| && post[i] == (name, Get(post, name).value) &&
        forall j :: i < j < |post| ==> post[j].0 != name)
    decreases |post|
  {
    if post != [] {
      var init := post[..|post| - 1];
      GetMeaning(init, name);
      if post[|post| - 1].0 != name {
        if Get(post, name).Some? {
          var i :| 0 <= i < |init| && init[i] == (name, Get(init, name).value) &&
            forall j :: i < j < |init| ==> init[j].0 != name;
          assert post[i] == init[i];
        }
      }
    }
  }

  /** The value `request.POST.items()` gives with the i-th name: the last
      value posted under it. */
  function ItemValue(post: Post, i: nat): string
    requires i < |post|
  {
    match Get(post, post[i].0)
    case Some(v) => v
    case None => post[i].1
  }

  // ---------------------------------------------------------------------
  // Posted delete markers

  const CheckedValues: set<string> := {"1", "true", "on", "yes", "checked"}

  /** `str(val).lower() in {...}`. */
  predicate Checked(v: string)
  {
    Lower(v) in CheckedValues
  }

  /** The i-th posted name marks a row of the formset `prefix` for deletion:
      it begins with the prefix, ends with "-DELETE" and carries a checked
      value. */
  predicate IsDeleteMark(post: Post, prefix: string, i: nat)
    requires i < |post|
  {
    StartsWith(post[i].0, prefix) && EndsWith(post[i].0, "-DELETE") && Checked(ItemValue(post, i))
  }

  /** The name of the id field beside a "-DELETE" name. */
  function IdField(key: string): string
    requires EndsWith(key, "-DELETE")
  {
    key[..|key| - 7] + "-id"
  }

  /** `int(POST.get(name))` kept only when it parses and is not 0 (the
      `if obj_pk:` test); a missing or unparsable id gives nothing. */
  function PostedPk(post: Post, name: string): Option<int>
  {
    match Get(post, name)
    case None => None
    case Some(v) =>
      match PyInt(v)
      case None => None
      case Some(n) => if n != 0 then Some(n) else None
  }

  /** What the i-th pair says: not a marker (None), or a marker with the
      id its id field names, if any. */
  function MarkAt(post: Post, prefix: string, i: nat): Option<Option<int>>
    requires i < |post|
  {
    if IsDeleteMark(post, prefix, i) then Some(PostedPk(post, IdField(post[i].0))) else None
  }

  function MarkList(post: Post, prefix: string): (r: seq<Option<Option<int>>>)
    ensures |r| == |post| && forall i :: 0 <= i < |post| ==> r[i] == MarkAt(post, prefix, i)
  {
    seq(|post|, i requires 0 <= i < |post| => MarkAt(post, prefix, i))
  }

  /** The ids gathered and whether any marker was seen. */
  datatype Marks = Marks(ids: seq<int>, flagged: bool)

  /** The pass over the pairs: each marker raises the flag and adds its id. */
  function Gather(ms: seq<Option<Option<int>>>): Marks
    decreases |ms|
  {
    if ms == [] then Marks([], false)
    else
      var m := Gather(ms[..|ms| - 1]);
      match ms[|ms| - 1]
      case None => m
      case Some(pk) => Marks(m.ids + (if pk.Some? then [pk.value] else []), true)
  }

  lemma GatherSnoc(ms: seq<Option<Option<int>>>, i: nat)
    requires i < |ms|
    ensures Gather(ms[..i + 1]) == match ms[i]
      case None => Gather(ms[..i])
      case Some(pk) => Marks(Gather(ms[..i]).ids + (if pk.Some? then [pk.value] else []), true)
  {
    assert ms[..i + 1][..i] == ms[..i];
  }

  lemma {:induction false} GatherMeaning(ms: seq<Option<Option<int>>>)
    ensures forall id :: id in Gather(ms).ids <==> exists i :: 0 <= i < |ms| && ms[i] == Some(Some(id))
    ensures Gather(ms).flagged <==> exists i :: 0 <= i < |ms| && ms[i].Some?
    decreases |ms|
  {
    if ms != [] {
      var init := ms[..|ms| - 1];
      GatherMeaning(init);
      assert forall i :: 0 <= i < |init| ==> init[i] == ms[i];
    }
  }

  /** The markers of the formset `prefix` in the whole body. */
  function MarksOf(post: Post, prefix: string): Marks
  {
    Gather(MarkList(post, prefix))
  }

  /** An id is gathered exactly when a marker's id field holds it as a
      nonzero integer, and the flag is raised exactly when some marker was
      posted, id or not. */
  lemma MarksMeaning(post: Post, prefix: string)
    ensures forall id :: id in MarksOf(post, prefix).ids <==>
      exists i :: 0 <= i < |post| && IsDeleteMark(post, prefix, i) && PostedPk(post, IdField(post[i].0)) == Some(id)
    ensures MarksOf(post, prefix).flagged <==> exists i :: 0 <= i < |post| && IsDeleteMark(post, prefix, i)
    ensures forall id :: id in MarksOf(post, prefix).ids ==> id != 0
  {
    var ms := MarkList(post, prefix);
    GatherMeaning(ms);
    forall id
      ensures id in Gather(ms).ids <==>
        exists i :: 0 <= i < |post| && IsDeleteMark(post, prefix, i) && PostedPk(post, IdField(post[i].0)) == Some(id)
      ensures id in Gather(ms).ids ==> id != 0
    {
      if id in Gather(ms).ids {
        var i :| 0 <= i < |ms| && ms[i] == Some(Some(id));
        assert IsDeleteMark(post, prefix, i) && PostedPk(post, IdField(post[i].0)) == Some(id);
      }
      if exists i :: 0 <= i < |post| && IsDeleteMark(post, prefix, i) && PostedPk(post, IdField(post[i].0)) == Some(id) {
        var i :| 0 <= i < |post| && IsDeleteMark(post, prefix, i) && PostedPk(post, IdField(post[i].0)) == Some(id);
        assert ms[i] == Some(Some(id));
      }
    }
    if Gather(ms).flagged {
      var i :| 0 <= i < |ms| && ms[i].Some?;
      assert IsDeleteMark(post, prefix, i);
    }
    if exists i :: 0 <= i < |post| && IsDeleteMark(post, prefix, i) {
      var i :| 0 <= i < |post| && IsDeleteMark(post, prefix, i);
      assert ms[i].Some?;
    }
  }

  /** The pass over the body that gathers the markers of one formset. */
  method CollectMarks(post: Post, prefix: string) returns (ids: seq<int>, flagged: bool)
    ensures Marks(ids, flagged) == MarksOf(post, prefix)
  {
    ids, flagged := [], false;
    ghost var ms := MarkList(post, prefix);
    var i := 0;
    while i < |post|
      invariant 0 <= i <= |post|
      invariant Marks(ids, flagged) == Gather(ms[..i])
    {
      GatherSnoc(ms, i);
      var mark := MarkAt(post, prefix, i);
      if mark.Some? {
        flagged := true;
        if mark.value.Some? {
          ids := ids + [mark.value.value];
        }
      }
      i := i + 1;
    }
    assert ms[..|post|] == ms;
  }

  // ---------------------------------------------------------------------
  // The fallback for activity rows posted without their DELETE marker

  /** `int(v) if str(v).isdigit() else 0`. */
  function FormCount(v: string): nat
  {
    if |v| >= 1 && AllDigits(v) then DigitsValue(v) else 0
  }

  /** The management counters of the first n pairs whose name begins with
      "activities_" and ends with the suffix, by the name before the suffix
      (a later pair overwrites an earlier one). */
  function Counters(post: Post, suffix: string, n: nat): map<string, nat>
    requires n <= |post|
  {
    if n == 0 then map[]
    else
      var m := Counters(post, suffix, n - 1);
      var key := post[n - 1].0;
      if StartsWith(key, "activities_") && EndsWith(key, suffix) then
        m[key[..|key| - |suffix|] := FormCount(ItemValue(post, n - 1))]
      else m
  }

  /** A formset has a counter exactly when a counter name for it was posted,
      and the value is that of such a name. */
  lemma {:induction false} CountersMeaning(post: Post, suffix: string, n: nat)
    requires n <= |post|
    ensures forall p :: p in Counters(post, suffix, n) <==>
      exists i :: 0 <= i < n && StartsWith(post[i].0, "activities_") && post[i].0 == p + suffix
    ensures forall p :: p in Counters(post, suffix, n) ==>
      exists i :: 0 <= i < n && post[i].0 == p + suffix && Counters(post, suffix, n)[p] == FormCount(ItemValue(post, i))
  {
    if n > 0 {
      CountersMeaning(post, suffix, n - 1);
      var key := post[n - 1].0;
      if StartsWith(key, "activities_") && EndsWith(key, suffix) {
        assert key == key[..|key| - |suffix|] + suffix;
      }
      forall p, i | 0 <= i < n && StartsWith(post[i].0, "activities_") && post[i].0 == p + suffix
        ensures p in Counters(post, suffix, n)
      {
        if i == n - 1 {
          assert key[..|key| - |suffix|] == p;
        }
      }
    }
  }

  /** The length of the run of digits at the start of s. */
  function DigitRun(s: string): (n: nat)
    ensures n <= |s| && AllDigits(s[..n]) && (n < |s| ==> !IsDigit(s[n]))
  {
    if s == [] || !IsDigit(s[0]) then 0
    else
      var n := DigitRun(s[1..]);
      assert s[..n + 1] == [s[0]] + s[1..][..n];
      n + 1
  }

  lemma {:induction false} DigitRunOf(d: string, rest: string)
    requires AllDigits(d) && (rest == [] || !IsDigit(rest[0]))
    ensures DigitRun(d + rest) == |d|
    decreases |d|
  {
    if d == [] {
      assert d + rest == rest;
    } else {
      assert (d + rest)[1..] == d[1..] + rest;
      DigitRunOf(d[1..], rest);
    }
  }

  /** `re.match(r'^(activities_\d+)-(\d+)-id$', k)`: the formset prefix and
      the row index of an id field name. Python's `$` also matches just
      before a final newline, so "-id\n" ends a matching name too. */
  function MatchIdRow(k: string): Option<(string, string)>
  {
    if !StartsWith(k, "activities_") then None
    else
      var rest := k[11..];
      var a := DigitRun(rest);
      if a == 0 || a == |rest| || rest[a] != '-' then None
      else
        var tail := rest[a + 1..];
        var b := DigitRun(tail);
        if b == 0 || (tail[b..] != "-id" && tail[b..] != "-id\n") then None
        else Some((k[..11 + a], tail[..b]))
  }

  /** The match succeeds exactly on "activities_<digits>-<digits>-id", and its
      groups are the prefix with its digits and the row digits. */
  lemma IdRowMatches(d1: string, d2: string)
    requires |d1| >= 1 && AllDigits(d1) && |d2| >= 1 && AllDigits(d2)
    ensures MatchIdRow("activities_" + d1 + "-" + d2 + "-id") == Some(("activities_" + d1, d2))
  {
    var k := "activities_" + d1 + "-" + d2 + "-id";
    assert k[..11] == "activities_";
    var rest := k[11..];
    assert rest == d1 + ("-" + d2 + "-id");
    DigitRunOf(d1, "-" + d2 + "-id");
    var tail := rest[|d1| + 1..];
    assert tail == d2 + "-id";
    DigitRunOf(d2, "-id");
    assert k[..11 + |d1|] == "activities_" + d1;
  }

  /** The same name followed by one newline matches with the same groups. */
  lemma IdRowNewlineMatches(d1: string, d2: string)
    requires |d1| >= 1 && AllDigits(d1) && |d2| >= 1 && AllDigits(d2)
    ensures MatchIdRow("activities_" + d1 + "-" + d2 + "-id\n") == Some(("activities_" + d1, d2))
  {
    var k := "activities_" + d1 + "-" + d2 + "-id\n";
    assert k[..11] == "activities_";
    var rest := k[11..];
    assert rest == d1 + ("-" + d2 + "-id\n");
    DigitRunOf(d1, "-" + d2 + "-id\n");
    var tail := rest[|d1| + 1..];
    assert tail == d2 + "-id\n";
    DigitRunOf(d2, "-id\n");
    assert k[..11 + |d1|] == "activities_" + d1;
  }

  /** A successful match is of that shape, with or without a final newline. */
  lemma IdRowShape(k: string)
    requires MatchIdRow(k).Some?
    ensures var (p, idx) := MatchIdRow(k).value;
      |p| > 11 && p[..11] == "activities_" && AllDigits(p[11..]) &&
      |idx| >= 1 && AllDigits(idx) && (k == p + "-" + idx + "-id" || k == p + "-" + idx + "-id\n")
  {
    var rest := k[11..];
    var a := DigitRun(rest);
    var tail := rest[a + 1..];
    var b := DigitRun(tail);
    assert k == k[..11 + a] + "-" + tail[..b] + tail[b..];
    assert k[..11 + a][11..] == rest[..a];
  }

  /** The values of the present options, in order. */
  function Somes(xs: seq<Option<int>>): seq<int>
    decreases |xs|
  {
    if xs == [] then []
    else Somes(xs[..|xs| - 1]) + (if xs[|xs| - 1].Some? then [xs[|xs| - 1].value] else [])
  }

  lemma SomesSnoc(xs: seq<Option<int>>, i: nat)
    requires i < |xs|
    ensures Somes(xs[..i + 1]) == Somes(xs[..i]) + (if xs[i].Some? then [xs[i].value] else [])
  {
    assert xs[..i + 1][..i] == xs[..i];
  }

  lemma {:induction false} SomesMeaning(xs: seq<Option<int>>)
    ensures forall v :: v in Somes(xs) <==> exists i :: 0 <= i < |xs| && xs[i] == Some(v)
    decreases |xs|
  {
    if xs != [] {
      var init := xs[..|xs| - 1];
      SomesMeaning(init);
      assert forall i :: 0 <= i < |init| ==> init[i] == xs[i];
    }
  }

  /** The id the fallback deletes for the i-th pair: an id field of a
      formset whose total count fell below its initial count, posted without
      its DELETE marker, holding a nonzero integer. */
  function FallbackPk(post: Post, totals: map<string, nat>, initials: map<string, nat>, i: nat): Option<int>
    requires i < |post|
  {
    match MatchIdRow(post[i].0)
    case None => None
    case Some((prefix, idx)) =>
      if prefix in totals && prefix in initials && totals[prefix] < initials[prefix]
         && Get(post, prefix + "-" + idx + "-DELETE").None? then
        match PyInt(ItemValue(post, i))
        case None => None
        case Some(n) => if n != 0 then Some(n) else None
      else None
  }

  function Totals(post: Post): map<string, nat>
  {
    Counters(post, "-TOTAL_FORMS", |post|)
  }

  function Initials(post: Post): map<string, nat>
  {
    Counters(post, "-INITIAL_FORMS", |post|)
  }

  function FallbackList(post: Post): (r: seq<Option<int>>)
    ensures |r| == |post| && forall i :: 0 <= i < |post| ==> r[i] == FallbackPk(post, Totals(post), Initials(post), i)
  {
    seq(|post|, i requires 0 <= i < |post| => FallbackPk(post, Totals(post), Initials(post), i))
  }

  /** The ids the fallback adds. */
  function FallbackIds(post: Post): seq<int>
  {
    Somes(FallbackList(post))
  }

  /** The fallback adds exactly the ids its pairs give. */
  lemma FallbackIdsMeaning(post: Post)
    ensures forall id :: id in FallbackIds(post) <==>
      exists i :: 0 <= i < |post| && FallbackPk(post, Totals(post), Initials(post), i) == Some(id)
  {
    var fs := FallbackList(post);
    SomesMeaning(fs);
    forall id | id in FallbackIds(post)
      ensures exists i :: 0 <= i < |post| && FallbackPk(post, Totals(post), Initials(post), i) == Some(id)
    {
      var i :| 0 <= i < |fs| && fs[i] == Some(id);
      assert FallbackPk(post, Totals(post), Initials(post), i) == Some(id);
    }
  }

  /** For the id field of row d2 of formset "activities_<d1>", the fallback
      takes its nonzero integer value exactly when that formset posted a
      total count below its initial count and no DELETE name for the row. */
  lemma FallbackPkOf(post: Post, totals: map<string, nat>, initials: map<string, nat>, i: nat, d1: string, d2: string)
    requires i < |post|
    requires |d1| >= 1 && AllDigits(d1) && |d2| >= 1 && AllDigits(d2)
    requires post[i].0 == "activities_" + d1 + "-" + d2 + "-id"
    ensures var p := "activities_" + d1;
      FallbackPk(post, totals, initials, i) ==
        if p in totals && p in initials && totals[p] < initials[p] && Get(post, p + "-" + d2 + "-DELETE").None? then
          match PyInt(ItemValue(post, i))
          case None => None
          case Some(n) => if n != 0 then Some(n) else None
        else None
  {
    IdRowMatches(d1, d2);
  }

  /** Only id fields of that shape ever give an id. */
  lemma FallbackPkShape(post: Post, totals: map<string, nat>, initials: map<string, nat>, i: nat)
    requires i < |post| && FallbackPk(post, totals, initials, i).Some?
    ensures MatchIdRow(post[i].0).Some?
  {
  }

  /** "-TOTAL_FORMS" and "-INITIAL_FORMS" never end the same name. */
  lemma CounterSuffixesDiffer(k: string)
    requires EndsWith(k, "-TOTAL_FORMS")
    ensures !EndsWith(k, "-INITIAL_FORMS")
  {
    assert k[|k| - 12..][0] == k[|k| - 12] == '-';
    assert |k| >= 14 ==> k[|k| - 14..][2] == k[|k| - 12];
    assert "-INITIAL_FORMS"[2] == 'N';
  }

  /** The fallback: the counter pass, then the id pass. */
  method CollectFallback(post: Post) returns (ids: seq<int>)
    ensures ids == FallbackIds(post)
  {
    var totals: map<string, nat> := map[];
    var initials: map<string, nat> := map[];
    var i := 0;
    while i < |post|
      invariant 0 <= i <= |post|
      invariant totals == Counters(post, "-TOTAL_FORMS", i)
      invariant initials == Counters(post, "-INITIAL_FORMS", i)
    {
      var k := post[i].0;
      if StartsWith(k, "activities_") && EndsWith(k, "-TOTAL_FORMS") {
        CounterSuffixesDiffer(k);
        totals := totals[k[..|k| - 12] := FormCount(ItemValue(post, i))];
      } else if StartsWith(k, "activities_") && EndsWith(k, "-INITIAL_FORMS") {
        initials := initials[k[..|k| - 14] := FormCount(ItemValue(post, i))];
      }
      i := i + 1;
    }
    ghost var fs := FallbackList(post);
    ids := [];
    i := 0;
    while i < |post|
      invariant 0 <= i <= |post|
      invariant ids == Somes(fs[..i])
    {
      SomesSnoc(fs, i);
      var pk := FallbackPk(post, totals, initials, i);
      if pk.Some? {
        ids := ids + [pk.value];
      }
      i := i + 1;
    }
    assert fs[..|post|] == fs;
  }

  // ---------------------------------------------------------------------
  // Applying the deletes

  /** A project row of some submission, and an activity row of some project. */
  datatype Project = Project(id: int, submission: int)
  datatype Activity = Activity(id: int, project: int)

  /** The submission of the project with the given id, if there is one. */
  function ProjectSubmission(projects: seq<Project>, pid: int): Option<int>
  {
    if projects == [] then None
    else if projects[0].id == pid then Some(projects[0].submission)
    else ProjectSubmission(projects[1..], pid)
  }

  /** `SMEAActivityRow.objects.filter(id__in=ids, project__submission=sub)`. */
  predicate ActivityDeleted(projects: seq<Project>, ids: seq<int>, sub: int, a: Activity)
  {
    a.id in ids && ProjectSubmission(projects, a.project) == Some(sub)
  }

  /** `SMEAProject.objects.filter(id__in=ids, submission=sub)`. */
  predicate ProjectDeleted(ids: seq<int>, sub: int, p: Project)
  {
    p.id in ids && p.submission == sub
  }

  /** The rows of the two tables. */
  class Records {
    var projects: seq<Project>
    var activities: seq<Activity>

    constructor (projects0: seq<Project>, activities0: seq<Activity>)
      ensures projects == projects0 && activities == activities0
    {
      projects := projects0;
      activities := activities0;
    }
  }

  /** The activity ids the save deletes: the markers, then the fallback. */
  function ActivityIds(post: Post): seq<int>
  {
    MarksOf(post, "activities_").ids + FallbackIds(post)
  }

  /** The activities left by the activity delete. */
  function ActivitiesAfter(projects: seq<Project>, activities: seq<Activity>, ids: seq<int>, sub: int): seq<Activity>
  {
    Filter(activities, (a: Activity) => !ActivityDeleted(projects, ids, sub, a))
  }

  /** The projects left by the project delete. */
  function ProjectsAfter(projects: seq<Project>, ids: seq<int>, sub: int): seq<Project>
  {
    Filter(projects, (p: Project) => !ProjectDeleted(ids, sub, p))
  }

  /** The project with this id is removed by the project delete. */
  predicate ProjectGone(projects: seq<Project>, ids: seq<int>, sub: int, pid: int)
  {
    exists j :: 0 <= j < |projects| && projects[j].id == pid && ProjectDeleted(ids, sub, projects[j])
  }

  /** The activities left once a project delete has taken those of the
      removed projects with it (on-delete cascade). */
  function Cascaded(activities: seq<Activity>, projects: seq<Project>, ids: seq<int>, sub: int): seq<Activity>
  {
    Filter(activities, (a: Activity) => !ProjectGone(projects, ids, sub, a.project))
  }

  /** `success` after the two delete passes: set by any id, or by any marker
      even when no marked row had been saved. */
  function SuccessAfter(success: bool, post: Post): bool
  {
    var act := MarksOf(post, "activities_");
    var proj := MarksOf(post, "projects-");
    success || ActivityIds(post) != [] || act.flagged || proj.ids != [] || proj.flagged
  }

  /** `SMEAActivityRow.objects.filter(...).delete()`, run only for a
      non-empty id list. */
  method DeleteActivities(db: Records, ids: seq<int>, sub: int)
    modifies db
    ensures db.projects == old(db.projects)
    ensures db.activities == ActivitiesAfter(old(db.projects), old(db.activities), ids, sub)
  {
    var projects := db.projects;
    if ids != [] {
      db.activities := ActivitiesAfter(projects, db.activities, ids, sub);
    } else {
      FilterAll(db.activities, (a: Activity) => !ActivityDeleted(projects, ids, sub, a));
    }
  }

  /** `SMEAProject.objects.filter(...).delete()` with its cascade, run only
      for a non-empty id list. */
  method DeleteProjects(db: Records, pids: seq<int>, sub: int)
    modifies db
    ensures db.projects == ProjectsAfter(old(db.projects), pids, sub)
    ensures db.activities == Cascaded(old(db.activities), old(db.projects), pids, sub)
  {
    var projects := db.projects;
    if pids != [] {
      db.activities := Cascaded(db.activities, projects, pids, sub);
      db.projects := ProjectsAfter(projects, pids, sub);
    } else {
      FilterAll(db.activities, (a: Activity) => !ProjectGone(projects, pids, sub, a.project));
      FilterAll(projects, (p: Project) => !ProjectDeleted(pids, sub, p));
    }
  }

  /** The safety net of the projects tab save: delete the marked activities
      and projects of this submission. */
  method ApplyPostedDeletes(db: Records, post: Post, sub: int, success0: bool) returns (success: bool)
    modifies db
    ensures var ids := ActivityIds(post);
      var pids := MarksOf(post, "projects-").ids;
      var acts := ActivitiesAfter(old(db.projects), old(db.activities), ids, sub);
      db.projects == ProjectsAfter(old(db.projects), pids, sub) &&
      db.activities == Cascaded(acts, old(db.projects), pids, sub)
    ensures success == SuccessAfter(success0, post)
  {
    success := success0;
    var ids, flagged := CollectMarks(post, "activities_");
    var extra := CollectFallback(post);
    ids := ids + extra;
    DeleteActivities(db, ids, sub);
    if ids != [] {
      success := true;
    } else if flagged {
      success := true;
    }
    var pids, pflagged := CollectMarks(post, "projects-");
    DeleteProjects(db, pids, sub);
    if pids != [] {
      success := true;
    } else if pflagged {
      success := true;
    }
  }

  /** A filter that keeps everything changes nothing. */
  lemma {:induction false} FilterAll<T>(xs: seq<T>, keep: T -> bool)
    requires forall x :: x in xs ==> keep(x)
    ensures Filter(xs, keep) == xs
    decreases |xs|
  {
    if xs != [] {
      FilterAll(xs[..|xs| - 1], keep);
      assert xs[..|xs| - 1] + [xs[|xs| - 1]] == xs;
    }
  }

  /** The project delete removes exactly the marked projects of this
      submission. */
  lemma ProjectDeletesStay(projects: seq<Project>, pids: seq<int>, sub: int)
    ensures forall p :: p in ProjectsAfter(projects, pids, sub) <==>
      p in projects && (p.submission != sub || p.id !in pids)
  {
    FilterMeaning(projects, (p: Project) => !ProjectDeleted(pids, sub, p));
  }

  /** With distinct project ids, an activity's project is removed exactly
      when it belongs to this submission and was marked. */
  lemma {:induction false} ProjectGoneOf(projects: seq<Project>, pids: seq<int>, sub: int, pid: int)
    requires forall i, j :: 0 <= i < j < |projects| ==> projects[i].id != projects[j].id
    requires ProjectSubmission(projects, pid).Some?
    ensures ProjectGone(projects, pids, sub, pid) <==> ProjectSubmission(projects, pid) == Some(sub) && pid in pids
  {
    ProjectSubmissionOf(projects, pid);
  }

  /** The deletes never reach the activities of another submission, and an
      activity of this submission survives exactly when its id was not
      marked and its project was not deleted (project ids being distinct,
      as primary keys are). */
  lemma {:induction false} ActivityDeletesStay(projects: seq<Project>, activities: seq<Activity>, ids: seq<int>, pids: seq<int>, sub: int, a: Activity)
    requires forall i, j :: 0 <= i < j < |projects| ==> projects[i].id != projects[j].id
    requires a in activities && ProjectSubmission(projects, a.project).Some?
    ensures var acts := Cascaded(ActivitiesAfter(projects, activities, ids, sub), projects, pids, sub);
      (ProjectSubmission(projects, a.project) != Some(sub) ==> a in acts) &&
      (ProjectSubmission(projects, a.project) == Some(sub) ==> (a in acts <==> a.id !in ids && a.project !in pids))
  {
    var keepA := (b: Activity) => !ActivityDeleted(projects, ids, sub, b);
    var keepC := (b: Activity) => !ProjectGone(projects, pids, sub, b.project);
    FilterMeaning(activities, keepA);
    FilterMeaning(Filter(activities, keepA), keepC);
    ProjectGoneOf(projects, pids, sub, a.project);
  }

  /** With distinct ids, the project found for an id is the one row with it. */
  lemma {:induction false} ProjectSubmissionOf(projects: seq<Project>, pid: int)
    requires forall i, j :: 0 <= i < j < |projects| ==> projects[i].id != projects[j].id
    requires ProjectSubmission(projects, pid).Some?
    ensures forall j :: 0 <= j < |projects| && projects[j].id == pid ==>
      projects[j].submission == ProjectSubmission(projects, pid).value
    ensures exists j :: 0 <= j < |projects| && projects[j].id == pid
    decreases |projects|
  {
    if projects[0].id != pid {
      ProjectSubmissionOf(projects[1..], pid);
      assert forall j :: 1 <= j < |projects| ==> projects[j] == projects[1..][j - 1];
    }
  }

  /** Which posted activity markers set `success` without deleting anything:
      a marker for an unsaved row (empty id) still counts as a delete. */
  lemma UnsavedMarkerSucceeds(post: Post, i: nat)
    requires i < |post| && IsDeleteMark(post, "activities_", i)
    ensures SuccessAfter(false, post)
  {
    MarksMeaning(post, "activities_");
  }

  // ---------------------------------------------------------------------
  // Band-sum rules of an explicit save

  /** The actions of a full-tab save, and of a one-subject save. */
  const TabActions: set<string> := {"save_draft", "submit_submission"}
  const SubjectSaveActions: set<string> := {"save_draft", "submit_submission", "save_subject"}

  /** The rule applies to explicit saves with one of the actions, never to
      autosave. */
  predicate Enforced(autosave: bool, action: string, actions: set<string>)
  {
    !autosave && action in actions
  }

  /** An offered SLP row with an enrolment whose bands do not add up to it.
      A not-offered row and a row without enrolment are never checked. */
  predicate SlpMismatch(r: SlpRow)
  {
    r.isOffered && r.enrolment > 0 && BandSum(r) != r.enrolment
  }

  function SlpSumMessage(r: SlpRow, labels: map<string, string>): string
  {
    "Sum of proficiency counts (" + NatToString(BandSum(r)) + ") must equal enrolment (" +
      NatToString(r.enrolment) + ") for " + r.gradeLabel + " - " + SubjectDisplay(labels, r.subject) + "."
  }

  /** The error the rule adds to one SLP form. */
  function SlpRowError(r: SlpRow, labels: map<string, string>): Option<string>
  {
    if SlpMismatch(r) then Some(SlpSumMessage(r, labels)) else None
  }

  /** The five RMA proficiency counts. */
  function RmaSum(r: Reconcile.RmaRow): nat
  {
    r.emergingNotProficient + r.emergingLowProficient + r.developingNearlyProficient +
      r.transitioningProficient + r.atGradeLevel
  }

  /** An RMA row with an enrolment whose counts do not add up to it (RMA rows
      have no offered flag). */
  predicate RmaMismatch(r: Reconcile.RmaRow)
  {
    r.enrolment > 0 && RmaSum(r) != r.enrolment
  }

  /** `get_grade_label_display()` over the RMA grade choices: the choice's
      label, or the stored value when it is not a choice. */
  const RmaGradeChoices: map<string, string> := map[
    "k" := "Kinder", "g1" := "Grade 1", "g2" := "Grade 2", "g3" := "Grade 3",
    "g4" := "Grade 4", "g5" := "Grade 5", "g6" := "Grade 6", "g7" := "Grade 7",
    "g8" := "Grade 8", "g9" := "Grade 9", "g10" := "Grade 10"]

  function ChoiceDisplay(choices: map<string, string>, value: string): string
  {
    if value in choices then choices[value] else value
  }

  function RmaRowError(r: Reconcile.RmaRow, choices: map<string, string>): Option<string>
  {
    if RmaMismatch(r) then
      Some("Sum of proficiency counts (" + NatToString(RmaSum(r)) + ") must equal enrolment (" +
        NatToString(r.enrolment) + ") for grade " + ChoiceDisplay(choices, r.gradeLabel) + ".")
    else None
  }

  /** (form position, message) for every form with an error, in form order. */
  function Collected(es: seq<Option<string>>): seq<(nat, string)>
    decreases |es|
  {
    if es == [] then []
    else
      var last := es[|es| - 1];
      Collected(es[..|es| - 1]) + (if last.Some? then [(|es| - 1, last.value)] else [])
  }

  lemma CollectedSnoc(es: seq<Option<string>>, i: nat)
    requires i < |es|
    ensures Collected(es[..i + 1]) == Collected(es[..i]) + (if es[i].Some? then [(i, es[i].value)] else [])
  {
    assert es[..i + 1][..i] == es[..i];
  }

  /** An error is collected exactly when its form has it. */
  lemma {:induction false} CollectedMeaning(es: seq<Option<string>>)
    ensures forall i: nat, m: string :: (i, m) in Collected(es) <==> i < |es| && es[i] == Some(m)
    ensures Collected(es) == [] <==> forall i :: 0 <= i < |es| ==> es[i].None?
    decreases |es|
  {
    if es != [] {
      var init := es[..|es| - 1];
      CollectedMeaning(init);
      assert forall i :: 0 <= i < |init| ==> init[i] == es[i];
      var last := es[|es| - 1];
      if last.Some? {
        assert (|es| - 1, last.value) in Collected(es);
      }
    }
  }

  function SlpErrorList(rows: seq<SlpRow>, labels: map<string, string>): (r: seq<Option<string>>)
    ensures |r| == |rows| && forall i :: 0 <= i < |rows| ==> r[i] == SlpRowError(rows[i], labels)
  {
    seq(|rows|, i requires 0 <= i < |rows| => SlpRowError(rows[i], labels))
  }

  function RmaErrorList(rows: seq<Reconcile.RmaRow>, choices: map<string, string>): (r: seq<Option<string>>)
    ensures |r| == |rows| && forall i :: 0 <= i < |rows| ==> r[i] == RmaRowError(rows[i], choices)
  {
    seq(|rows|, i requires 0 <= i < |rows| => RmaRowError(rows[i], choices))
  }

  /** The SLP tab save: with a valid formset on an explicit save, every
      offered row with enrolment is checked; the rows are saved only when no
      form has an error and the optional top lists are valid. */
  method CheckSlpTab(rows: seq<SlpRow>, labels: map<string, string>, formsetValid: bool, topsValid: bool,
                     autosave: bool, action: string)
    returns (saved: bool, errors: seq<(nat, string)>)
    ensures errors == if formsetValid && Enforced(autosave, action, TabActions) then Collected(SlpErrorList(rows, labels)) else []
    ensures saved == (formsetValid && errors == [] && topsValid)
  {
    var coreValid := formsetValid;
    errors := [];
    if coreValid && !autosave && action in TabActions {
      ghost var es := SlpErrorList(rows, labels);
      var i := 0;
      while i < |rows|
        invariant 0 <= i <= |rows|
        invariant errors == Collected(es[..i])
        invariant coreValid == (errors == [])
      {
        CollectedSnoc(es, i);
        var r := rows[i];
        if r.isOffered && r.enrolment > 0 {
          var total := r.dnme + r.fs + r.s + r.vs + r.o;
          if total != r.enrolment {
            errors := errors + [(i, SlpSumMessage(r, labels))];
            coreValid := false;
          }
        }
        i := i + 1;
      }
      assert es[..|rows|] == es;
    }
    saved := coreValid && topsValid;
  }

  /** The RMA tab save, with the same rule over the five RMA counts. */
  method CheckRmaTab(rows: seq<Reconcile.RmaRow>, formsetValid: bool, interventionsValid: bool,
                     autosave: bool, action: string)
    returns (saved: bool, errors: seq<(nat, string)>)
    ensures errors == if formsetValid && Enforced(autosave, action, TabActions) then Collected(RmaErrorList(rows, RmaGradeChoices)) else []
    ensures saved == (formsetValid && errors == [] && interventionsValid)
  {
    var rowsValid := formsetValid;
    errors := [];
    if rowsValid && !autosave && action in TabActions {
      ghost var es := RmaErrorList(rows, RmaGradeChoices);
      var i := 0;
      while i < |rows|
        invariant 0 <= i <= |rows|
        invariant errors == Collected(es[..i])
        invariant rowsValid == (errors == [])
      {
        CollectedSnoc(es, i);
        var err := RmaRowError(rows[i], RmaGradeChoices);
        if err.Some? {
          errors := errors + [(i, err.value)];
          rowsValid := false;
        }
        i := i + 1;
      }
      assert es[..|rows|] == es;
    }
    saved := rowsValid && interventionsValid;
  }

  /** A form is flagged exactly when its row breaks the rule, and a save that
      goes through leaves every offered row with enrolment balanced. */
  lemma SlpTabRule(rows: seq<SlpRow>, labels: map<string, string>)
    ensures forall i: nat, m: string :: (i, m) in Collected(SlpErrorList(rows, labels)) <==>
      i < |rows| && SlpMismatch(rows[i]) && m == SlpSumMessage(rows[i], labels)
    ensures Collected(SlpErrorList(rows, labels)) == [] <==>
      forall i :: 0 <= i < |rows| && rows[i].isOffered && rows[i].enrolment > 0 ==> BandSum(rows[i]) == rows[i].enrolment
  {
    var es := SlpErrorList(rows, labels);
    CollectedMeaning(es);
    if Collected(es) != [] {
      var i :| 0 <= i < |es| && es[i].Some?;
      assert SlpMismatch(rows[i]);
    }
  }

  lemma RmaTabRule(rows: seq<Reconcile.RmaRow>)
    ensures forall i: nat, m: string :: (i, m) in Collected(RmaErrorList(rows, RmaGradeChoices)) <==>
      i < |rows| && RmaMismatch(rows[i]) && m == RmaRowError(rows[i], RmaGradeChoices).value
    ensures Collected(RmaErrorList(rows, RmaGradeChoices)) == [] <==>
      forall i :: 0 <= i < |rows| && rows[i].enrolment > 0 ==> RmaSum(rows[i]) == rows[i].enrolment
  {
    var es := RmaErrorList(rows, RmaGradeChoices);
    CollectedMeaning(es);
    if Collected(es) != [] {
      var i :| 0 <= i < |es| && es[i].Some?;
      assert RmaMismatch(rows[i]);
    }
  }

  /** The one-subject save: the rule also applies to "save_subject", and
      the subject's form is saved exactly when it raises no error. */
  function SubjectSave(r: SlpRow, labels: map<string, string>, autosave: bool, action: string): (e: Option<string>)
    ensures e.Some? <==> Enforced(autosave, action, SubjectSaveActions) && SlpMismatch(r)
    ensures Enforced(autosave, action, TabActions) ==> e == SlpRowError(r, labels)
  {
    if Enforced(autosave, action, SubjectSaveActions) then SlpRowError(r, labels) else None
  }

  // ---------------------------------------------------------------------
  // The tabs a template enables

  datatype Tab = Tab(key: string, lab: string)

  const AllTabs: seq<Tab> := [
    Tab("projects", "Projects & Activities"),
    Tab("pct", "% Implementation"),
    Tab("slp", "SLP"),
    Tab("reading", "Reading (CRLA/PHILIRI)"),
    Tab("rma", "RMA"),
    Tab("supervision", "Instructional Supervision & TA"),
    Tab("adm", "ADM One-Stop-Shop & EiE")]

  /** `set(enabled)` for a truthy `enabled_tabs` value, as the strings it
      holds: the string items of a list, the characters of a string, the
      keys of an object. None where building the set raises: a number or a
      boolean, or a list holding a list or an object. */
  function EnabledSet(e: Json): Option<set<string>>
  {
    match e
    case JArr(items) =>
      if forall i :: 0 <= i < |items| ==> !items[i].JArr? && !items[i].JObj? then
        Some(set i | 0 <= i < |items| && items[i].JStr? :: items[i].s)
      else None
    case JStr(t) => Some(set i | 0 <= i < |t| :: [t[i]])
    case JObj(members) => Some(set i | 0 <= i < |members| :: members[i].0)
    case _ => None
  }

  /** The keys the template's schema enables, or None for every tab: no
      schema, a schema without a truthy `enabled_tabs`, and every failure
      (a schema that is not an object, a set that cannot be built) give all
      tabs. */
  function EnabledKeys(schema: Json): Option<set<string>>
  {
    var sch := if PyTruthy(schema) then schema else JObj([]);
    if !sch.JObj? then None
    else
      match Member(sch, "enabled_tabs")
      case None => None
      case Some(e) => if PyTruthy(e) then EnabledSet(e) else None
  }

  /** `_submission_tabs`. */
  function SubmissionTabs(schema: Json): seq<Tab>
  {
    match EnabledKeys(schema)
    case None => AllTabs
    case Some(ks) => Filter(AllTabs, (t: Tab) => t.key in ks)
  }

  /** The tabs keep the default order, and hold exactly the default tabs
      whose key is enabled (all of them when nothing is). */
  lemma SubmissionTabsMeaning(schema: Json)
    ensures Subsequence(SubmissionTabs(schema), AllTabs)
    ensures forall t :: t in SubmissionTabs(schema) <==>
      t in AllTabs && (EnabledKeys(schema).None? || t.key in EnabledKeys(schema).value)
  {
    match EnabledKeys(schema)
    case None => SubsequenceRefl(AllTabs);
    case Some(ks) => FilterMeaning(AllTabs, (t: Tab) => t.key in ks);
  }

  lemma {:induction false} SubsequenceRefl<T>(xs: seq<T>)
    ensures Subsequence(xs, xs)
    decreases |xs|
  {
    if xs != [] {
      SubsequenceRefl(xs[..|xs| - 1]);
    }
  }

  /** A list of tab keys selects those tabs; a non-empty list naming none of
      them leaves no tab at all. */
  lemma EnabledListSelects(keys: seq<string>)
    requires keys != []
    ensures var schema := JObj([("enabled_tabs", JArr(seq(|keys|, i requires 0 <= i < |keys| => JStr(keys[i]))))]);
      EnabledKeys(schema) == Some(set k | k in keys)
  {
    var items := seq(|keys|, i requires 0 <= i < |keys| => JStr(keys[i]));
    var schema := JObj([("enabled_tabs", JArr(items))]);
    assert Member(schema, "enabled_tabs") == Some(JArr(items));
    assert items[0] == JStr(keys[0]);
    assert (set i | 0 <= i < |items| && items[i].JStr? :: items[i].s) == set k | k in keys by {
      forall k | k in keys
        ensures k in (set i | 0 <= i < |items| && items[i].JStr? :: items[i].s)
      {
        var i :| 0 <= i < |keys| && keys[i] == k;
        assert items[i].s == k;
      }
    }
  }

  // ---------------------------------------------------------------------
  // A school profile's strands, cleaned for display

  /** An entry that reads as serialised noise: a run of four backslashes, a
      bracket, two double quotes, or a quote before a bracket. */
  predicate Corrupted(s: string)
  {
    Contains(s, "\\\\\\\\") || Contains(s, "[") || Contains(s, "]") || Contains(s, "\"\"") || Contains(s, "']")
  }

  function CodeSet(strands: seq<Strand>): set<string>
  {
    set i | 0 <= i < |strands| :: strands[i].code
  }

  /** The code of the first strand whose label matches, case-insensitively. */
  function LabelCode(strands: seq<Strand>, lower: string): (r: Option<string>)
    ensures r.Some? ==> r.value in CodeSet(strands)
    ensures r.Some? <==> exists i :: 0 <= i < |strands| && Lower(strands[i].name) == lower
  {
    if strands == [] then None
    else if Lower(strands[0].name) == lower then Some(strands[0].code)
    else
      var r := LabelCode(strands[1..], lower);
      assert forall i :: 1 <= i < |strands| ==> strands[i] == strands[1..][i - 1];
      assert CodeSet(strands[1..]) <= CodeSet(strands);
      r
  }

  /** The strand code one stored entry names: a non-empty string that, once
      stripped and not corrupted, is a code or a label in any case. Any other
      value never names one (its `str()` is not a code or a label). */
  function EntryCode(strands: seq<Strand>, item: Json): (r: Option<string>)
    ensures r.Some? ==> r.value in CodeSet(strands)
  {
    match item
    case JStr(s) =>
      if s == "" then None
      else
        var t := Trim(s);
        if Corrupted(t) then None
        else
          var lower := Lower(t);
          if lower in CodeSet(strands) then Some(lower) else LabelCode(strands, lower)
    case _ => None
  }

  /** The codes of the entries, in entry order. */
  function EntryCodes(strands: seq<Strand>, raw: seq<Json>): (r: seq<string>)
    ensures forall c :: c in r ==> c in CodeSet(strands)
    decreases |raw|
  {
    if raw == [] then []
    else
      var c := EntryCode(strands, raw[|raw| - 1]);
      EntryCodes(strands, raw[..|raw| - 1]) + (if c.Some? then [c.value] else [])
  }

  lemma EntryCodesSnoc(strands: seq<Strand>, raw: seq<Json>, i: nat)
    requires i < |raw|
    ensures EntryCodes(strands, raw[..i + 1]) == EntryCodes(strands, raw[..i]) +
      (if EntryCode(strands, raw[i]).Some? then [EntryCode(strands, raw[i]).value] else [])
  {
    assert raw[..i + 1][..i] == raw[..i];
  }

  lemma {:induction false} EntryCodesMeaning(strands: seq<Strand>, raw: seq<Json>)
    ensures forall c :: c in EntryCodes(strands, raw) <==> exists j :: 0 <= j < |raw| && EntryCode(strands, raw[j]) == Some(c)
    decreases |raw|
  {
    if raw != [] {
      var init := raw[..|raw| - 1];
      EntryCodesMeaning(strands, init);
      assert forall j :: 0 <= j < |init| ==> init[j] == raw[j];
    }
  }

  /** `label_for_code[c]`: built from the strands in order, so the last
      strand with the code gives the label. */
  function LabelFor(strands: seq<Strand>, c: string): string
    requires c in CodeSet(strands)
    decreases |strands|
  {
    var last := strands[|strands| - 1];
    if last.code == c then last.name
    else
      assert c in CodeSet(strands[..|strands| - 1]) by {
        var i :| 0 <= i < |strands| && strands[i].code == c;
        assert strands[..|strands| - 1][i].code == c;
      }
      LabelFor(strands[..|strands| - 1], c)
  }

  /** The cleaned strand labels: the codes named, each once in the order
      first named, by label. */
  function StrandLabels(strands: seq<Strand>, raw: seq<Json>): seq<string>
  {
    var codes := Dedup(EntryCodes(strands, raw));
    seq(|codes|, k requires 0 <= k < |codes| => LabelFor(strands, codes[k]))
  }

  predicate DistinctCodes(strands: seq<Strand>)
  {
    forall i, j :: 0 <= i < j < |strands| ==> strands[i].code != strands[j].code
  }

  predicate DistinctNames(strands: seq<Strand>)
  {
    forall i, j :: 0 <= i < j < |strands| ==> strands[i].name != strands[j].name
  }

  lemma {:induction false} LabelForOf(strands: seq<Strand>, i: nat)
    requires DistinctCodes(strands) && i < |strands|
    ensures LabelFor(strands, strands[i].code) == strands[i].name
    decreases |strands|
  {
    if i != |strands| - 1 {
      var init := strands[..|strands| - 1];
      assert init[i] == strands[i];
      LabelForOf(init, i);
    }
  }

  /** A strand's label is shown exactly when some entry names the strand,
      and no label is shown twice. */
  lemma StrandLabelsMeaning(strands: seq<Strand>, raw: seq<Json>)
    requires DistinctCodes(strands) && DistinctNames(strands)
    ensures forall i :: 0 <= i < |strands| ==>
      (strands[i].name in StrandLabels(strands, raw) <==>
        exists j :: 0 <= j < |raw| && EntryCode(strands, raw[j]) == Some(strands[i].code))
    ensures forall l :: l in StrandLabels(strands, raw) ==> exists i :: 0 <= i < |strands| && strands[i].name == l
    ensures Distinct(StrandLabels(strands, raw))
  {
    var codes := Dedup(EntryCodes(strands, raw));
    var labels := StrandLabels(strands, raw);
    DedupMeaning(EntryCodes(strands, raw));
    EntryCodesMeaning(strands, raw);
    forall i | 0 <= i < |strands| && strands[i].name in labels
      ensures strands[i].code in codes
    {
      var k :| 0 <= k < |labels| && labels[k] == strands[i].name;
      var i2 := CodeIndex(strands, codes[k]);
      LabelForOf(strands, i2);
      assert i2 == i;
    }
    forall i | 0 <= i < |strands| && strands[i].code in codes
      ensures strands[i].name in labels
    {
      var k :| 0 <= k < |codes| && codes[k] == strands[i].code;
      LabelForOf(strands, i);
      assert labels[k] == strands[i].name;
    }
    forall l | l in labels
      ensures exists i :: 0 <= i < |strands| && strands[i].name == l
    {
      var k :| 0 <= k < |labels| && labels[k] == l;
      var i := CodeIndex(strands, codes[k]);
      LabelForOf(strands, i);
    }
    forall k1, k2 | 0 <= k1 < k2 < |labels|
      ensures labels[k1] != labels[k2]
    {
      var i1 := CodeIndex(strands, codes[k1]);
      var i2 := CodeIndex(strands, codes[k2]);
      LabelForOf(strands, i1);
      LabelForOf(strands, i2);
      assert codes[k1] != codes[k2];
    }
  }

  /** The position of a strand with the given code, for the label proofs. */
  ghost function CodeIndex(strands: seq<Strand>, c: string): (i: nat)
    requires c in CodeSet(strands)
    ensures i < |strands| && strands[i].code == c
  {
    var i :| 0 <= i < |strands| && strands[i].code == c; i
  }

  /** The strands of the system have distinct codes and labels. */
  lemma ShsStrandsDistinct()
    ensures DistinctCodes(ShsStrands) && DistinctNames(ShsStrands)
  {
    var s := ShsStrands;
    forall i, j | 0 <= i < j < |s|
      ensures s[i].code != s[j].code && s[i].name != s[j].name
    {
      var a := s[i].code;
      var b := s[j].code;
      assert |a| != |b| || a[0] != b[0] || a[|a| - 1] != b[|b| - 1];
      var c := s[i].name;
      var d := s[j].name;
      assert |c| != |d| || c[0] != d[0] || c[|c| - 1] != d[|d| - 1];
    }
  }

  /** `_clean_strands`: the entry pass, then the de-duplicating pass. */
  method CleanStrands(raw: seq<Json>) returns (labels: seq<string>)
    ensures labels == StrandLabels(ShsStrands, raw)
  {
    var cleaned: seq<string> := [];
    var i := 0;
    while i < |raw|
      invariant 0 <= i <= |raw|
      invariant cleaned == EntryCodes(ShsStrands, raw[..i])
    {
      EntryCodesSnoc(ShsStrands, raw, i);
      var c := EntryCode(ShsStrands, raw[i]);
      if c.Some? {
        cleaned := cleaned + [c.value];
      }
      i := i + 1;
    }
    assert raw[..|raw|] == raw;
    var seen: set<string> := {};
    var ordered: seq<string> := [];
    i := 0;
    while i < |cleaned|
      invariant 0 <= i <= |cleaned|
      invariant ordered == Dedup(cleaned[..i])
      invariant forall c :: c in seen <==> c in ordered
    {
      DedupSnoc(cleaned, i);
      if cleaned[i] !in seen {
        seen := seen + {cleaned[i]};
        ordered := ordered + [cleaned[i]];
      }
      i := i + 1;
    }
    assert cleaned[..|cleaned|] == cleaned;
    labels := seq(|ordered|, k requires 0 <= k < |ordered| => LabelFor(ShsStrands, ordered[k]));
  }

  /** The tabs view's copy, which joins the labels with ", ". */
  function StrandsText(raw: seq<Json>): string
  {
    JoinWith(StrandLabels(ShsStrands, raw), ", ")
  }
}
