// The activity repeating groups of the submission page: one table body per
// saved project, holding a repeated "Activity N" header row, the activity row
// and its details row per activity, plus the form-level hidden inputs
// (management counters and DELETE/id markers) the script creates.
module ActivityForms {
  import opened Wrappers
  import opened Text
  import opened FormNames

  /** A row of an activity table body. `ColumnHeaders` is the
      'activity-table-headers' row server markup may place between a header
      and its activity row; `Plain` is any other row. */
  datatype Row =
    | Header(number: string)
    | Activity(fields: seq<Field>, marked: bool)
    | Details(fields: seq<Field>)
    | ColumnHeaders
    | Plain

  /** The table bodies by data-project-id, and the hidden inputs placed
      directly in the form, in document order. */
  datatype ActivityState = ActivityState(tables: map<string, seq<Row>>, inputs: seq<Hidden>)

  datatype AddOutcome = Added | NeedsSavedProject | NoTable

  // ---------------------------------------------------------------------
  // Header numbering and orphan clean-up

  function HeaderCount(rows: seq<Row>): nat
  {
    if rows == [] then 0 else (if rows[0].Header? then 1 else 0) + HeaderCount(rows[1..])
  }

  function ActivityCount(rows: seq<Row>): nat
  {
    if rows == [] then 0 else (if rows[0].Activity? then 1 else 0) + ActivityCount(rows[1..])
  }

  /** renumberActivities: the headers, in order, read n, n+1, ... */
  function NumberFrom(rows: seq<Row>, n: nat): (r: seq<Row>)
    ensures |r| == |rows|
  {
    if rows == [] then []
    else
      var rest := NumberFrom(rows[1..], if rows[0].Header? then n + 1 else n);
      (if rows[0].Header? then [Header(NatToString(n))] else [rows[0]]) + rest
  }

  lemma {:induction false} HeaderCountAppend(a: seq<Row>, b: seq<Row>)
    ensures HeaderCount(a + b) == HeaderCount(a) + HeaderCount(b)
    ensures ActivityCount(a + b) == ActivityCount(a) + ActivityCount(b)
  {
    if a == [] {
      assert a + b == b;
    } else {
      assert (a + b)[0] == a[0];
      assert (a + b)[1..] == a[1..] + b;
      HeaderCountAppend(a[1..], b);
    }
  }

  lemma {:induction false} NumberFromAppend(a: seq<Row>, b: seq<Row>, n: nat)
    ensures NumberFrom(a + b, n) == NumberFrom(a, n) + NumberFrom(b, n + HeaderCount(a))
  {
    if a == [] {
      assert a + b == b;
    } else {
      var m := if a[0].Header? then n + 1 else n;
      assert (a + b)[0] == a[0];
      assert (a + b)[1..] == a[1..] + b;
      NumberFromAppend(a[1..], b, m);
      var head := if a[0].Header? then [Header(NatToString(n))] else [a[0]];
      assert NumberFrom(a + b, n) == head + NumberFrom(a[1..] + b, m);
      assert NumberFrom(a, n) == head + NumberFrom(a[1..], m);
    }
  }

  /** Numbering rewrites header text only, so the activities are the same. */
  lemma {:induction false} NumberKeepsActivities(rows: seq<Row>, n: nat)
    ensures ActivityCount(NumberFrom(rows, n)) == ActivityCount(rows)
  {
    if rows != [] {
      var m := if rows[0].Header? then n + 1 else n;
      NumberKeepsActivities(rows[1..], m);
      var head := if rows[0].Header? then [Header(NatToString(n))] else [rows[0]];
      var r := NumberFrom(rows, n);
      assert r == head + NumberFrom(rows[1..], m);
      assert r[1..] == NumberFrom(rows[1..], m);
    }
  }

  /** One step of renumbering in document order. */
  lemma NumberStep(rows: seq<Row>, i: nat)
    requires i < |rows|
    ensures NumberFrom(rows[..i + 1], 1) ==
      NumberFrom(rows[..i], 1) + [if rows[i].Header? then Header(NatToString(1 + HeaderCount(rows[..i]))) else rows[i]]
    ensures HeaderCount(rows[..i + 1]) == HeaderCount(rows[..i]) + if rows[i].Header? then 1 else 0
  {
    assert rows[..i + 1] == rows[..i] + [rows[i]];
    NumberFromAppend(rows[..i], [rows[i]], 1);
    HeaderCountAppend(rows[..i], [rows[i]]);
    assert [rows[i]][1..] == [];
  }

  /** A header survives cleanUp only when the row right after it is an activity row. */
  predicate KeptAt(rows: seq<Row>, i: nat)
    requires i < |rows|
  {
    !(rows[i].Header? && (i + 1 == |rows| || !rows[i + 1].Activity?))
  }

  function CleanUpTo(rows: seq<Row>, n: nat): seq<Row>
    requires n <= |rows|
  {
    if n == 0 then [] else CleanUpTo(rows, n - 1) + (if KeptAt(rows, n - 1) then [rows[n - 1]] else [])
  }

  /** cleanActivitySubheaders: the rows without orphan headers, each header
      judged by the row that originally followed it. */
  function Cleaned(rows: seq<Row>): seq<Row>
  {
    CleanUpTo(rows, |rows|)
  }

  lemma {:induction false} CleanUpToAllKept(rows: seq<Row>, n: nat)
    requires n <= |rows|
    requires forall i :: 0 <= i < n ==> KeptAt(rows, i)
    ensures CleanUpTo(rows, n) == rows[..n]
  {
    if n > 0 {
      CleanUpToAllKept(rows, n - 1);
      assert rows[..n] == rows[..n - 1] + [rows[n - 1]];
    }
  }

  // ---------------------------------------------------------------------
  // Well-formed tables: groups of header, activity row and details row

  /** The rows are groups (Activity n, activity row, details row),
      (Activity n+1, ...), ... */
  predicate GroupsFrom(rows: seq<Row>, n: nat)
    decreases |rows|
  {
    rows == [] ||
    (|rows| >= 3 && rows[0] == Header(NatToString(n)) && rows[1].Activity? && rows[2].Details?
     && GroupsFrom(rows[3..], n + 1))
  }

  /** The same shape with any header text. */
  predicate Shaped(rows: seq<Row>)
    decreases |rows|
  {
    rows == [] ||
    (|rows| >= 3 && rows[0].Header? && rows[1].Activity? && rows[2].Details? && Shaped(rows[3..]))
  }

  /** The table as addActivityRow builds it: headers 1..N, one per activity. */
  predicate WellFormed(rows: seq<Row>)
  {
    GroupsFrom(rows, 1)
  }

  lemma LeadingCounts(rows: seq<Row>)
    requires |rows| >= 3 && rows[0].Header? && rows[1].Activity? && rows[2].Details?
    ensures ActivityCount(rows) == 1 + ActivityCount(rows[3..])
    ensures HeaderCount(rows) == 1 + HeaderCount(rows[3..])
  {
    var r1 := rows[1..];
    var r2 := r1[1..];
    assert r2[1..] == rows[3..];
    assert r1[0] == rows[1] && r2[0] == rows[2];
    assert ActivityCount(rows) == ActivityCount(r1) == 1 + ActivityCount(r2);
    assert HeaderCount(r1) == HeaderCount(r2) == HeaderCount(rows[3..]);
  }

  lemma LeadingNumbering(rows: seq<Row>, n: nat)
    requires |rows| >= 3 && rows[0].Header? && rows[1].Activity? && rows[2].Details?
    ensures NumberFrom(rows, n) == [Header(NatToString(n)), rows[1], rows[2]] + NumberFrom(rows[3..], n + 1)
  {
    var r1 := rows[1..];
    var r2 := r1[1..];
    assert r2[1..] == rows[3..];
    assert r1[0] == rows[1] && r2[0] == rows[2];
    assert NumberFrom(rows, n) == [Header(NatToString(n))] + NumberFrom(r1, n + 1);
    assert NumberFrom(r1, n + 1) == [rows[1]] + NumberFrom(r2, n + 1);
    assert NumberFrom(r2, n + 1) == [rows[2]] + NumberFrom(rows[3..], n + 1);
  }

  /** What one leading group contributes to the counts and the numbering. */
  lemma LeadingGroup(rows: seq<Row>, n: nat)
    requires |rows| >= 3 && rows[0].Header? && rows[1].Activity? && rows[2].Details?
    ensures ActivityCount(rows) == 1 + ActivityCount(rows[3..])
    ensures HeaderCount(rows) == 1 + HeaderCount(rows[3..])
    ensures NumberFrom(rows, n) == [Header(NatToString(n)), rows[1], rows[2]] + NumberFrom(rows[3..], n + 1)
  {
    LeadingCounts(rows);
    LeadingNumbering(rows, n);
  }

  lemma {:induction false} GroupsShaped(rows: seq<Row>, n: nat)
    requires GroupsFrom(rows, n)
    ensures Shaped(rows)
    decreases |rows|
  {
    if rows != [] {
      GroupsShaped(rows[3..], n + 1);
    }
  }

  lemma {:induction false} ShapedNumbered(rows: seq<Row>, n: nat)
    requires Shaped(rows)
    ensures GroupsFrom(NumberFrom(rows, n), n)
    decreases |rows|
  {
    if rows != [] {
      ShapedNumbered(rows[3..], n + 1);
      LeadingGroup(rows, n);
      var r := NumberFrom(rows, n);
      assert r[3..] == NumberFrom(rows[3..], n + 1);
    }
  }

  lemma {:induction false} ShapedKept(rows: seq<Row>, i: nat)
    requires Shaped(rows) && i < |rows|
    ensures KeptAt(rows, i)
    decreases |rows|
  {
    if i >= 3 {
      ShapedKept(rows[3..], i - 3);
    }
  }

  /** Orphan clean-up leaves a well-shaped table as it is. */
  lemma ShapedClean(rows: seq<Row>)
    requires Shaped(rows)
    ensures Cleaned(rows) == rows
  {
    forall i | 0 <= i < |rows| ensures KeptAt(rows, i) {
      ShapedKept(rows, i);
    }
    CleanUpToAllKept(rows, |rows|);
  }

  /** In a well-formed table every activity row is the middle of its group. */
  lemma {:induction false} ActivityPosition(rows: seq<Row>, n: nat, r: nat) returns (g: nat)
    requires GroupsFrom(rows, n) && r < |rows| && rows[r].Activity?
    ensures r == 3 * g + 1 && r + 1 < |rows| && rows[r - 1].Header? && rows[r + 1].Details?
    decreases |rows|
  {
    if r >= 3 {
      var h := ActivityPosition(rows[3..], n + 1, r - 3);
      g := h + 1;
    } else {
      g := 0;
    }
  }

  /** Taking one whole group out of a well-formed table leaves a well-shaped one. */
  lemma {:induction false} RemoveGroup(rows: seq<Row>, n: nat, g: nat)
    requires GroupsFrom(rows, n) && 3 * g + 3 <= |rows|
    ensures Shaped(rows[..3 * g] + rows[3 * g + 3..])
    ensures ActivityCount(rows) == 1 + ActivityCount(rows[..3 * g] + rows[3 * g + 3..])
    decreases |rows|
  {
    LeadingGroup(rows, n);
    if g == 0 {
      assert rows[..0] + rows[3..] == rows[3..];
      GroupsShaped(rows[3..], n + 1);
    } else {
      RemoveGroup(rows[3..], n + 1, g - 1);
      var rest := rows[3..][..3 * g - 3] + rows[3..][3 * g..];
      var out := rows[..3 * g] + rows[3 * g + 3..];
      assert out == rows[..3] + rest;
      assert out[..3] == rows[..3];
      assert out[3..] == rest;
      LeadingGroup(out, n);
    }
  }

  lemma {:induction false} GroupsAppend(rows: seq<Row>, n: nat, a: Row, d: Row)
    requires GroupsFrom(rows, n) && a.Activity? && d.Details?
    ensures GroupsFrom(rows + [Header(NatToString(n + ActivityCount(rows))), a, d], n)
    decreases |rows|
  {
    var tail := [Header(NatToString(n + ActivityCount(rows))), a, d];
    if rows == [] {
      assert rows + tail == tail;
      assert tail[3..] == [];
    } else {
      LeadingGroup(rows, n);
      GroupsAppend(rows[3..], n + 1, a, d);
      assert (rows + tail)[3..] == rows[3..] + tail;
      assert (rows + tail)[..3] == rows[..3];
    }
  }

  // ---------------------------------------------------------------------
  // Delete

  /** The first control whose name ends in "-id". */
  function FirstIdField(fs: seq<Field>): (r: Option<Field>)
    ensures r.Some? ==> r.value in fs && EndsWith(Flat(r.value.name), "-id")
  {
    if fs == [] then None
    else if EndsWith(Flat(fs[0].name), "-id") then Some(fs[0])
    else FirstIdField(fs[1..])
  }

  /** The first control whose name contains '-'. */
  function FirstDashed(fs: seq<Field>): (r: Option<Field>)
    ensures r.Some? ==> r.value in fs
  {
    if fs == [] then None
    else if Contains(Flat(fs[0].name), "-") then Some(fs[0])
    else FirstDashed(fs[1..])
  }

  /** The (prefix, index) captured by `/^(.+)-(\d+)-/` on the row's first
      dashed control name, or ('', '') when it does not match. */
  function MarkerKey(fs: seq<Field>): (string, string)
  {
    var a := FirstDashed(fs);
    if a.Some? && a.value.name.Indexed? && a.value.name.prefix != "" && IsIndex(a.value.name.index)
    then (a.value.name.prefix, a.value.name.index)
    else ("", "")
  }

  function MarkerName(key: (string, string), field: string): string
  {
    key.0 + "-" + key.1 + "-" + field
  }

  /** The id value the marker carries: from the activity row's id control,
      else from the details row's, else ''. */
  function IdValue(rows: seq<Row>, r: nat): string
    requires r < |rows| && rows[r].Activity?
  {
    var own := FirstIdField(rows[r].fields);
    var details := r + 1 < |rows| && rows[r + 1].Details?;
    if own.Some? then own.value.value
    else if details && FirstIdField(rows[r + 1].fields).Some? then FirstIdField(rows[r + 1].fields).value.value
    else ""
  }

  /** The rows left once the activity row r, its details row (when it
      follows) and its header (when it precedes) are removed. */
  function WithoutActivity(rows: seq<Row>, r: nat): seq<Row>
    requires r < |rows|
  {
    var lo := if r > 0 && rows[r - 1].Header? then r - 1 else r;
    var hi := if r + 1 < |rows| && rows[r + 1].Details? then r + 2 else r + 1;
    rows[..lo] + rows[hi..]
  }

  predicate IsActivityAt(st: ActivityState, pid: string, r: nat)
  {
    pid in st.tables && r < |st.tables[pid]| && st.tables[pid][r].Activity?
  }

  /** handleActivityDelete after a click on the delete control of row r of
      table pid: the box becomes `checked`, `confirmed` answers the prompt. */
  function DeletedActivity(st: ActivityState, pid: string, r: nat, checked: bool, confirmed: bool): ActivityState
    requires IsActivityAt(st, pid, r)
  {
    var rows := st.tables[pid];
    if !checked || !confirmed then
      st.(tables := st.tables[pid := rows[r := rows[r].(marked := false)]])
    else
      var key := MarkerKey(rows[r].fields);
      var d, n := MarkerName(key, "DELETE"), MarkerName(key, "id");
      ActivityState(st.tables[pid := Cleaned(NumberFrom(WithoutActivity(rows, r), 1))],
        Without(st.inputs, {d, n}) + [Hidden(d, "on"), Hidden(n, IdValue(rows, r))])
  }

  lemma MarkerNamesDiffer(key: (string, string))
    ensures MarkerName(key, "DELETE") != MarkerName(key, "id")
  {
    var d, n := MarkerName(key, "DELETE"), MarkerName(key, "id");
    assert d[|d| - 1] == 'E';
    assert n[|n| - 1] == 'd';
  }

  /** A confirmed delete adds exactly one DELETE=on and one id marker for the
      row's index (the id empty for an unsaved row), keeps every other input,
      and leaves every other input name's value, TOTAL_FORMS included, as it was. */
  lemma DeleteMarkers(st: ActivityState, pid: string, r: nat, other: string)
    requires IsActivityAt(st, pid, r)
    requires var key := MarkerKey(st.tables[pid][r].fields);
      other != MarkerName(key, "DELETE") && other != MarkerName(key, "id")
    ensures var key := MarkerKey(st.tables[pid][r].fields);
      var hs := DeletedActivity(st, pid, r, true, true).inputs;
      CountNamed(hs, MarkerName(key, "DELETE")) == 1 && CountNamed(hs, MarkerName(key, "id")) == 1 &&
      hs[|hs| - 2] == Hidden(MarkerName(key, "DELETE"), "on") &&
      hs[|hs| - 1] == Hidden(MarkerName(key, "id"), IdValue(st.tables[pid], r)) &&
      Lookup(hs, other) == Lookup(st.inputs, other)
  {
    var key := MarkerKey(st.tables[pid][r].fields);
    var d, n := MarkerName(key, "DELETE"), MarkerName(key, "id");
    var a, b := Hidden(d, "on"), Hidden(n, IdValue(st.tables[pid], r));
    MarkerNamesDiffer(key);
    ReplacePair(st.inputs, a, b);
    LookupWithout(st.inputs, {d, n}, other);
    LookupAppend(Without(st.inputs, {d, n}), [a, b], other);
    assert Lookup([a, b], other) == None by {
      assert [a, b][1..] == [b];
      assert [b][1..] == [];
    }
  }

  /** On a well-formed table a confirmed delete removes exactly that
      activity's group, renumbers the rest 1..N-1 and needs no clean-up. */
  lemma DeleteKeepsWellFormed(st: ActivityState, pid: string, r: nat)
    requires IsActivityAt(st, pid, r) && WellFormed(st.tables[pid])
    ensures var rows := st.tables[pid];
      var out := DeletedActivity(st, pid, r, true, true).tables[pid];
      r >= 1 && r + 2 <= |rows| && out == NumberFrom(rows[..r - 1] + rows[r + 2..], 1) &&
      WellFormed(out) && ActivityCount(out) == ActivityCount(rows) - 1
  {
    var rows := st.tables[pid];
    var g := ActivityPosition(rows, 1, r);
    assert WithoutActivity(rows, r) == rows[..r - 1] + rows[r + 2..];
    var rest := rows[..r - 1] + rows[r + 2..];
    RemoveGroup(rows, 1, g);
    ShapedNumbered(rest, 1);
    GroupsShaped(NumberFrom(rest, 1), 1);
    ShapedClean(NumberFrom(rest, 1));
    NumberKeepsActivities(rest, 1);
  }

  /** Declining or unchecking only unchecks the box. */
  lemma DeclineChangesNothing(st: ActivityState, pid: string, r: nat, checked: bool)
    requires IsActivityAt(st, pid, r)
    ensures var out := DeletedActivity(st, pid, r, checked, false);
      out.inputs == st.inputs && out.tables.Keys == st.tables.Keys &&
      (forall p :: p in st.tables && p != pid ==> out.tables[p] == st.tables[p]) &&
      |out.tables[pid]| == |st.tables[pid]| && !out.tables[pid][r].marked
  {
  }

  // ---------------------------------------------------------------------
  // Add

  function ActivityFields(prefix: string, k: string): seq<Field>
  {
    [ Field(Indexed(prefix, k, "id"), Indexed("id_" + prefix, k, "id"), ""),
      Field(Indexed(prefix, k, "activity"), Unindexed(""), ""),
      Field(Indexed(prefix, k, "output_target"), Unindexed(""), ""),
      Field(Indexed(prefix, k, "output_actual"), Unindexed(""), ""),
      Field(Indexed(prefix, k, "timeframe_target"), Unindexed(""), ""),
      Field(Indexed(prefix, k, "timeframe_actual"), Unindexed(""), ""),
      Field(Indexed(prefix, k, "budget_target"), Unindexed(""), ""),
      Field(Indexed(prefix, k, "budget_actual"), Unindexed(""), ""),
      Field(Indexed(prefix, k, "DELETE"), Indexed("id_" + prefix, k, "DELETE"), "on") ]
  }

  function DetailFields(prefix: string, k: string): seq<Field>
  {
    [ Field(Indexed(prefix, k, "interpretation"), Indexed("id_" + prefix, k, "interpretation"), ""),
      Field(Indexed(prefix, k, "issues_unaddressed"), Indexed("id_" + prefix, k, "issues_unaddressed"), ""),
      Field(Indexed(prefix, k, "facilitating_factors"), Indexed("id_" + prefix, k, "facilitating_factors"), ""),
      Field(Indexed(prefix, k, "agreements"), Indexed("id_" + prefix, k, "agreements"), "") ]
  }

  /** The management inputs addActivityRow creates when missing, after TOTAL_FORMS. */
  const ExtraManagement: seq<(string, string)> :=
    [("INITIAL_FORMS", "0"), ("MIN_NUM_FORMS", "0"), ("MAX_NUM_FORMS", "1000")]

  function EnsureAll(hs: seq<Hidden>, prefix: string, kinds: seq<(string, string)>): seq<Hidden>
    decreases |kinds|
  {
    if kinds == [] then hs
    else Ensure(EnsureAll(hs, prefix, kinds[..|kinds| - 1]), prefix + "-" + kinds[|kinds| - 1].0, kinds[|kinds| - 1].1)
  }

  predicate UnsavedProjectId(pid: string)
  {
    pid == "" || pid == "None" || pid == "null"
  }

  function AddOutcomeOf(st: ActivityState, pid: string): AddOutcome
  {
    if UnsavedProjectId(pid) then NeedsSavedProject
    else if pid !in st.tables then NoTable
    else Added
  }

  function TotalName(pid: string): string { "activities_" + pid + "-TOTAL_FORMS" }

  /** The form's inputs once the four management inputs of pid exist. */
  function Managed(hs: seq<Hidden>, pid: string): seq<Hidden>
  {
    EnsureAll(Ensure(hs, TotalName(pid), "0"), "activities_" + pid, ExtraManagement)
  }

  /** The rows after one group numbered (activities + 1) with index k is appended. */
  function Grown(rows: seq<Row>, prefix: string, k: string): seq<Row>
  {
    rows + [Header(NatToString(ActivityCount(rows) + 1)), Activity(ActivityFields(prefix, k), false),
            Details(DetailFields(prefix, k))]
  }

  /** addActivityRow(pid): with a saved project's table, the management
      inputs exist afterwards, a group numbered (activities + 1) is appended
      at index parseInt(TOTAL_FORMS || '0'), and TOTAL_FORMS goes up by one. */
  function AddedActivity(st: ActivityState, pid: string): ActivityState
  {
    if AddOutcomeOf(st, pid) != Added then st
    else
      var hs := Managed(st.inputs, pid);
      var idx := CounterValue(Lookup(hs, TotalName(pid)).GetOr(""));
      ActivityState(st.tables[pid := Cleaned(Grown(st.tables[pid], "activities_" + pid, idx.ToString()))],
        SetFirst(hs, TotalName(pid), idx.Plus(1).ToString()))
  }

  lemma EnsureAllStep(hs: seq<Hidden>, prefix: string, kinds: seq<(string, string)>, j: nat)
    requires j < |kinds|
    ensures EnsureAll(hs, prefix, kinds[..j + 1]) ==
      Ensure(EnsureAll(hs, prefix, kinds[..j]), prefix + "-" + kinds[j].0, kinds[j].1)
  {
    assert kinds[..j + 1][..j] == kinds[..j];
  }

  lemma {:induction false} EnsureKeepsLookup(hs: seq<Hidden>, n: string, v: string, m: string)
    ensures Lookup(Ensure(hs, n, v), m) == if m == n && Lookup(hs, n).None? then Some(v) else Lookup(hs, m)
  {
    if Lookup(hs, n).None? {
      LookupAppend(hs, [Hidden(n, v)], m);
      assert [Hidden(n, v)][1..] == [];
    }
  }

  lemma {:induction false} EnsureAllKeepsLookup(hs: seq<Hidden>, prefix: string, kinds: seq<(string, string)>, m: string)
    requires forall i :: 0 <= i < |kinds| ==> prefix + "-" + kinds[i].0 != m
    ensures Lookup(EnsureAll(hs, prefix, kinds), m) == Lookup(hs, m)
    decreases |kinds|
  {
    if kinds != [] {
      EnsureAllKeepsLookup(hs, prefix, kinds[..|kinds| - 1], m);
      EnsureKeepsLookup(EnsureAll(hs, prefix, kinds[..|kinds| - 1]), prefix + "-" + kinds[|kinds| - 1].0, kinds[|kinds| - 1].1, m);
    }
  }

  lemma ManagementNamesDiffer(pid: string)
    ensures forall i :: 0 <= i < |ExtraManagement| ==>
      "activities_" + pid + "-" + ExtraManagement[i].0 != TotalName(pid)
  {
    forall i | 0 <= i < |ExtraManagement|
      ensures "activities_" + pid + "-" + ExtraManagement[i].0 != TotalName(pid)
    {
      assert |ExtraManagement[i].0| == 13;
    }
  }

  /** A project id that is empty, 'None' or 'null' only alerts. */
  lemma UnsavedProjectAddsNothing(st: ActivityState, pid: string)
    requires UnsavedProjectId(pid)
    ensures AddedActivity(st, pid) == st && AddOutcomeOf(st, pid) == NeedsSavedProject
  {
  }

  /** On a well-formed table whose TOTAL_FORMS reads k, addActivityRow uses
      index k, leaves TOTAL_FORMS at k + 1 and keeps the table well formed. */
  lemma AddKeepsWellFormed(st: ActivityState, pid: string, k: nat)
    requires AddOutcomeOf(st, pid) == Added && WellFormed(st.tables[pid])
    requires Lookup(st.inputs, TotalName(pid)) == Some(NatToString(k))
    ensures var out := AddedActivity(st, pid);
      out.tables[pid] == Grown(st.tables[pid], "activities_" + pid, NatToString(k)) &&
      WellFormed(out.tables[pid]) &&
      Lookup(out.inputs, TotalName(pid)) == Some(NatToString(k + 1))
  {
    AddedTable(st, pid, k);
    GrownWellFormed(st.tables[pid], "activities_" + pid, k);
    ManagedTotal(st.inputs, pid, k);
    AddedWithTotal(st, pid, k);
  }

  lemma AddedTable(st: ActivityState, pid: string, k: nat)
    requires AddOutcomeOf(st, pid) == Added && WellFormed(st.tables[pid])
    requires Lookup(st.inputs, TotalName(pid)) == Some(NatToString(k))
    ensures AddedActivity(st, pid).tables[pid] == Grown(st.tables[pid], "activities_" + pid, NatToString(k))
  {
    var rows := st.tables[pid];
    var prefix := "activities_" + pid;
    AddedWithTotal(st, pid, k);
    var a := Activity(ActivityFields(prefix, NatToString(k)), false);
    var d := Details(DetailFields(prefix, NatToString(k)));
    GroupsAppend(rows, 1, a, d);
    var grown := Grown(rows, prefix, NatToString(k));
    GroupsShaped(grown, 1);
    ShapedClean(grown);
  }

  /** Appending the new group keeps the shape header, activity, details. */
  lemma GrownWellFormed(rows: seq<Row>, prefix: string, k: nat)
    requires WellFormed(rows)
    ensures WellFormed(Grown(rows, prefix, NatToString(k)))
  {
    GroupsAppend(rows, 1, Activity(ActivityFields(prefix, NatToString(k)), false), Details(DetailFields(prefix, NatToString(k))));
  }

  lemma AddedWithTotal(st: ActivityState, pid: string, k: nat)
    requires AddOutcomeOf(st, pid) == Added
    requires Lookup(st.inputs, TotalName(pid)) == Some(NatToString(k))
    ensures AddedActivity(st, pid) ==
      ActivityState(st.tables[pid := Cleaned(Grown(st.tables[pid], "activities_" + pid, NatToString(k)))],
        SetFirst(Managed(st.inputs, pid), TotalName(pid), NatToString(k + 1)))
  {
    ManagedTotal(st.inputs, pid, k);
  }

  /** Creating the management inputs leaves an existing TOTAL_FORMS of k
      alone, and the add then sets it to k + 1. */
  lemma ManagedTotal(hs: seq<Hidden>, pid: string, k: nat)
    requires Lookup(hs, TotalName(pid)) == Some(NatToString(k))
    ensures Lookup(Managed(hs, pid), TotalName(pid)) == Some(NatToString(k))
    ensures CounterValue(NatToString(k)) == Int(k) && Int(k).Plus(1).ToString() == NatToString(k + 1)
    ensures Lookup(SetFirst(Managed(hs, pid), TotalName(pid), NatToString(k + 1)), TotalName(pid)) == Some(NatToString(k + 1))
  {
    var total := TotalName(pid);
    EnsureKeepsLookup(hs, total, "0", total);
    ManagementNamesDiffer(pid);
    EnsureAllKeepsLookup(Ensure(hs, total, "0"), "activities_" + pid, ExtraManagement, total);
    CounterOfNat(k);
    ParseIntOfString(k + 1);
    LookupSetFirst(Managed(hs, pid), total, NatToString(k + 1), total);
  }

  /** The activity tables of the page and the form's hidden inputs. */
  class ActivityForm {
    var tables: map<string, seq<Row>>
    var inputs: seq<Hidden>

    function State(): ActivityState
      reads this
    {
      ActivityState(tables, inputs)
    }

    constructor (initial: map<string, seq<Row>>, hidden: seq<Hidden>)
      ensures State() == ActivityState(initial, hidden)
    {
      tables := initial;
      inputs := hidden;
    }

    /** renumberActivities: numbers the repeated headers 1..N in document order. */
    method RenumberActivities(pid: string)
      requires pid in tables
      modifies this
      ensures State() == old(State()).(tables := old(tables)[pid := NumberFrom(old(tables)[pid], 1)])
    {
      var rows := tables[pid];
      var numbered: seq<Row> := [];
      var i, count := 0, 1;
      while i < |rows|
        invariant 0 <= i <= |rows|
        invariant numbered == NumberFrom(rows[..i], 1)
        invariant count == 1 + HeaderCount(rows[..i])
        invariant tables == old(tables) && inputs == old(inputs)
      {
        NumberStep(rows, i);
        if rows[i].Header? {
          numbered := numbered + [Header(NatToString(count))];
          count := count + 1;
        } else {
          numbered := numbered + [rows[i]];
        }
        i := i + 1;
      }
      assert rows[..i] == rows;
      tables := tables[pid := numbered];
    }

    /** cleanActivitySubheaders: drops every header not directly followed by
        an activity row. */
    method CleanSubheaders(pid: string)
      requires pid in tables
      modifies this
      ensures State() == old(State()).(tables := old(tables)[pid := Cleaned(old(tables)[pid])])
    {
      var rows := tables[pid];
      var kept: seq<Row> := [];
      var i := 0;
      while i < |rows|
        invariant 0 <= i <= |rows|
        invariant kept == CleanUpTo(rows, i)
        invariant tables == old(tables) && inputs == old(inputs)
      {
        var orphan := rows[i].Header? && (i + 1 == |rows| || !rows[i + 1].Activity?);
        if !orphan {
          kept := kept + [rows[i]];
        }
        i := i + 1;
      }
      tables := tables[pid := kept];
    }

    /** handleActivityDelete for row r of table pid. */
    method ToggleActivityDelete(pid: string, r: nat, checked: bool, confirmed: bool)
      requires IsActivityAt(State(), pid, r)
      modifies this
      ensures State() == DeletedActivity(old(State()), pid, r, checked, confirmed)
    {
      var rows := tables[pid];
      var row := rows[r];
      if !checked || !confirmed {
        tables := tables[pid := rows[r := row.(marked := false)]];
        return;
      }
      var key := MarkerKey(row.fields);
      var delName := MarkerName(key, "DELETE");
      var idName := MarkerName(key, "id");
      var idValue := IdValue(rows, r);
      inputs := Without(inputs, {delName, idName});
      inputs := inputs + [Hidden(delName, "on"), Hidden(idName, idValue)];
      tables := tables[pid := WithoutActivity(rows, r)];
      RenumberActivities(pid);
      CleanSubheaders(pid);
    }

    /** Creates the TOTAL_FORMS, INITIAL_FORMS, MIN_NUM_FORMS and
        MAX_NUM_FORMS inputs of pid's activity formset that are missing. */
    method EnsureManagement(pid: string)
      modifies this
      ensures inputs == Managed(old(inputs), pid) && tables == old(tables)
    {
      var prefix := "activities_" + pid;
      inputs := Ensure(inputs, TotalName(pid), "0");
      var j := 0;
      while j < |ExtraManagement|
        invariant 0 <= j <= |ExtraManagement|
        invariant inputs == EnsureAll(Ensure(old(inputs), TotalName(pid), "0"), prefix, ExtraManagement[..j])
        invariant tables == old(tables)
      {
        EnsureAllStep(Ensure(old(inputs), TotalName(pid), "0"), prefix, ExtraManagement, j);
        inputs := Ensure(inputs, prefix + "-" + ExtraManagement[j].0, ExtraManagement[j].1);
        j := j + 1;
      }
      assert ExtraManagement[..j] == ExtraManagement;
    }

    /** addActivityRow(pid). */
    method AddActivityRow(pid: string) returns (outcome: AddOutcome)
      modifies this
      ensures outcome == AddOutcomeOf(old(State()), pid)
      ensures State() == AddedActivity(old(State()), pid)
    {
      if UnsavedProjectId(pid) {
        return NeedsSavedProject;
      }
      if pid !in tables {
        return NoTable;
      }
      var prefix := "activities_" + pid;
      EnsureManagement(pid);
      var currentTotal := CounterValue(Lookup(inputs, TotalName(pid)).GetOr(""));
      tables := tables[pid := Grown(tables[pid], prefix, currentTotal.ToString())];
      inputs := SetFirst(inputs, TotalName(pid), currentTotal.Plus(1).ToString());
      CleanSubheaders(pid);
      outcome := Added;
    }
  }
}
