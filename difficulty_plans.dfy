// Reading difficulty plans: the assessment period a submission reads from,
// and the cleaning of posted difficulty/intervention pairs into one plan row
// per grade and period, both as the editor syncs them on save and as the
// backfill command rebuilds them from the stored JSON.
module DifficultyPlans {
  import opened Wrappers
  import opened Text
  import opened Json
  import opened GradeSpans
  import opened Reconcile
  import Lists

  // ---------------------------------------------------------------------
  // Reading period

  predicate IsReadingPeriod(p: string)
  {
    p == "bosy" || p == "mosy" || p == "eosy"
  }

  /** The quarter table of `_reading_period_for_submission`. */
  function QuarterPeriod(quarter: string): string
  {
    if quarter == "Q1" then "eosy"
    else if quarter == "Q2" || quarter == "Q3" then "bosy"
    else if quarter == "Q4" then "mosy"
    else "bosy"
  }

  /** `_reading_period_for_submission`: the template's override when it is a
      period, else the period of the submission's quarter. */
  function ReadingPeriodFor(quarter: string, override: string): (p: string)
    ensures IsReadingPeriod(p)
    ensures IsReadingPeriod(override) ==> p == override
    ensures !IsReadingPeriod(override) ==>
      (quarter == "Q1" ==> p == "eosy") &&
      (quarter == "Q2" || quarter == "Q3" ==> p == "bosy") &&
      (quarter == "Q4" ==> p == "mosy") &&
      (quarter != "Q1" && quarter != "Q2" && quarter != "Q3" && quarter != "Q4" ==> p == "bosy")
  {
    var base := QuarterPeriod(quarter);
    if IsReadingPeriod(override) then override else base
  }

  /** The backfill command's `_derive_period`, written on its own. */
  function DerivePeriod(quarter: string, override: string): string
  {
    var table := map["Q1" := "eosy", "Q2" := "bosy", "Q3" := "bosy", "Q4" := "mosy"];
    var base := if quarter in table then table[quarter] else "bosy";
    if override in {"bosy", "mosy", "eosy"} then override else base
  }

  /** The editor and the backfill command agree on every submission's period. */
  lemma DerivePeriodAgrees(quarter: string, override: string)
    ensures DerivePeriod(quarter, override) == ReadingPeriodFor(quarter, override)
  {
    var table := map["Q1" := "eosy", "Q2" := "bosy", "Q3" := "bosy", "Q4" := "mosy"];
    if quarter in table {
      assert quarter == "Q1" || quarter == "Q2" || quarter == "Q3" || quarter == "Q4";
    }
  }

  // ---------------------------------------------------------------------
  // Cleaning one posted entry

  /** `int(str(entry.get('grade')).strip())`: a number is itself, a string
      is parsed; a missing value ("None"), a boolean ("True"), a list or an
      object does not parse. */
  function GradeNumber(v: Option<Json>): Option<int>
  {
    match v
    case Some(JNum(n)) => Some(n)
    case Some(JStr(s)) => PyInt(s)
    case _ => None
  }

  /** What one step of a loop over posted data does: skips the item (the
      `continue`s), raises, or yields a value. */
  datatype Step<T> = Skip | Raise | Yield(value: T)

  /** `(pair.get(name) or '').strip()`, which raises for a truthy value that
      is not a string. */
  function FieldText(pair: Json, name: string): (r: Option<string>)
    ensures r.Some? ==> Trimmed(r.value)
  {
    match Member(pair, name)
    case None => Some("")
    case Some(v) =>
      if !PyTruthy(v) then Some("")
      else if v.JStr? then TrimIsTrimmed(v.s); Some(Trim(v.s))
      else None
  }

  /** The most characters a cleaned field keeps. */
  const FieldLimit: nat := 500

  /** The most pairs a grade keeps. */
  const PairLimit: nat := 5

  /** A difficulty/intervention pair as the plans store it. */
  predicate CleanPair(p: (string, string))
  {
    |p.0| <= FieldLimit && |p.1| <= FieldLimit && (p.0 != "" || p.1 != "")
  }

  /** One pair of the inner loop: a non-object is skipped, as is a pair
      whose two fields are blank after stripping; otherwise both stripped
      fields are cut to 500 characters. */
  function PairStep(item: Json): (r: Step<(string, string)>)
    ensures r.Yield? ==> CleanPair(r.value)
    ensures r.Yield? ==>
      FieldText(item, "difficulty").Some? && FieldText(item, "intervention").Some? &&
      r.value == (Take(FieldText(item, "difficulty").value, FieldLimit),
                  Take(FieldText(item, "intervention").value, FieldLimit))
    ensures r.Raise? <==> item.JObj? && (FieldText(item, "difficulty").None? || FieldText(item, "intervention").None?)
  {
    if !item.JObj? then Skip
    else
      match FieldText(item, "difficulty")
      case None => Raise
      case Some(diff) =>
        match FieldText(item, "intervention")
        case None => Raise
        case Some(interv) =>
          if diff == "" && interv == "" then Skip
          else Yield((Take(diff, FieldLimit), Take(interv, FieldLimit)))
  }

  /** The cleaned pairs of a list of pair items, None once one raises. */
  function CleanedPairs(items: seq<Json>): Option<seq<(string, string)>>
    decreases |items|
  {
    if items == [] then Some([])
    else
      match CleanedPairs(items[..|items| - 1])
      case None => None
      case Some(c) =>
        match PairStep(items[|items| - 1])
        case Raise => None
        case Skip => Some(c)
        case Yield(p) => Some(c + [p])
  }

  /** Every cleaned pair is a clean pair, and there are no more of them
      than items. */
  lemma {:induction false} CleanedPairsClean(items: seq<Json>)
    ensures CleanedPairs(items).Some? ==>
      |CleanedPairs(items).value| <= |items| &&
      forall i :: 0 <= i < |CleanedPairs(items).value| ==> CleanPair(CleanedPairs(items).value[i])
    decreases |items|
  {
    if items != [] {
      CleanedPairsClean(items[..|items| - 1]);
    }
  }

  /** `(entry.get('pairs') or [])[:5]`: slicing a string gives its first
      five characters; slicing a number, a boolean or an object raises. */
  function PairItems(entry: Json): (r: Option<seq<Json>>)
    ensures r.Some? ==> |r.value| <= PairLimit
  {
    match Member(entry, "pairs")
    case None => Some([])
    case Some(v) =>
      if !PyTruthy(v) then Some([])
      else
        match v
        case JArr(items) => Some(if |items| <= PairLimit then items else items[..PairLimit])
        case JStr(s) =>
          var n := if |s| <= PairLimit then |s| else PairLimit;
          Some(seq(n, i requires 0 <= i < n => JStr([s[i]])))
        case _ => None
  }

  /** One entry of the outer loop: a non-object raises at `entry.get`; an
      entry whose grade does not parse, or is not one of 0..10, is skipped;
      otherwise it yields the grade's RMA code and its cleaned pairs. */
  function EntryStep(entry: Json): (r: Step<(string, seq<(string, string)>)>)
    ensures !entry.JObj? ==> r.Raise?
    ensures r.Yield? ==> exists n :: HasRmaCode(n) && RmaCodes[n] == r.value.0 && GradeNumber(Member(entry, "grade")) == Some(n)
    ensures r.Yield? ==> |r.value.1| <= PairLimit && forall i :: 0 <= i < |r.value.1| ==> CleanPair(r.value.1[i])
    ensures (entry.JObj? && GradeNumber(Member(entry, "grade")).Some? && HasRmaCode(GradeNumber(Member(entry, "grade")).value) &&
             PairItems(entry).Some? && CleanedPairs(PairItems(entry).value).Some?) ==> r.Yield?
  {
    if !entry.JObj? then Raise
    else
      match GradeNumber(Member(entry, "grade"))
      case None => Skip
      case Some(n) =>
        if !HasRmaCode(n) then Skip
        else
          match PairItems(entry)
          case None => Raise
          case Some(items) =>
            CleanedPairsClean(items);
            match CleanedPairs(items)
            case None => Raise
            case Some(c) => Yield((RmaCodes[n], c))
  }

  /** The inner loop over one entry's pair items. */
  method CleanPairs(items: seq<Json>) returns (cleaned: seq<(string, string)>, raised: bool)
    ensures raised <==> CleanedPairs(items).None?
    ensures !raised ==> cleaned == CleanedPairs(items).value
  {
    cleaned := [];
    raised := false;
    var j := 0;
    while j < |items|
      invariant 0 <= j <= |items|
      invariant !raised
      invariant CleanedPairs(items[..j]) == Some(cleaned)
    {
      assert items[..j + 1][..j] == items[..j];
      match PairStep(items[j]) {
        case Raise =>
          raised := true;
          CleanedPairsRaise(items, j + 1);
          return;
        case Skip =>
        case Yield(p) =>
          cleaned := cleaned + [p];
      }
      j := j + 1;
    }
    assert items[..j] == items;
  }

  /** Once a prefix raises, the whole list does. */
  lemma {:induction false} CleanedPairsRaise(items: seq<Json>, k: nat)
    requires k <= |items| && CleanedPairs(items[..k]).None?
    ensures CleanedPairs(items).None?
    decreases |items| - k
  {
    if k < |items| {
      assert items[..k + 1][..k] == items[..k];
      CleanedPairsRaise(items, k + 1);
    } else {
      assert items[..k] == items;
    }
  }

  /** The outer-loop step, computed as the source does. */
  method CleanEntry(entry: Json) returns (r: Step<(string, seq<(string, string)>)>)
    ensures r == EntryStep(entry)
  {
    if !entry.JObj? {
      return Raise;
    }
    var grade := GradeNumber(Member(entry, "grade"));
    if grade.None? || !HasRmaCode(grade.value) {
      return Skip;
    }
    var items := PairItems(entry);
    if items.None? {
      return Raise;
    }
    var cleaned, raised := CleanPairs(items.value);
    if raised {
      return Raise;
    }
    r := Yield((RmaCodes[grade.value], cleaned));
  }

  // ---------------------------------------------------------------------
  // Storing a grade's plan

  /** get_or_create of the plan for key with `data`, then its data set to
      `data` (the source writes only when it differs, to the same effect). */
  function StorePlan(rows: seq<DifficultyPlan>, k: (string, string), data: seq<(string, string)>): seq<DifficultyPlan>
  {
    if k in KeysIn(rows, PlanKey) then
      seq(|rows|, i requires 0 <= i < |rows| => if PlanKey(rows[i]) == k then rows[i].(data := data) else rows[i])
    else rows + [DifficultyPlan(k.0, k.1, data)]
  }

  /** Storing changes only the plan of that key, which then holds the data. */
  lemma StorePlanMeaning(rows: seq<DifficultyPlan>, k: (string, string), data: seq<(string, string)>)
    ensures var out := StorePlan(rows, k, data);
      |rows| <= |out| <= |rows| + 1 &&
      (forall i :: 0 <= i < |rows| ==> PlanKey(out[i]) == PlanKey(rows[i])) &&
      (forall i :: 0 <= i < |rows| && PlanKey(rows[i]) != k ==> out[i] == rows[i]) &&
      (forall i :: 0 <= i < |out| && PlanKey(out[i]) == k ==> out[i].data == data) &&
      k in KeysIn(out, PlanKey) &&
      (|out| == |rows| + 1 ==> PlanKey(out[|rows|]) == k)
    ensures DistinctKeys(rows, PlanKey) ==> DistinctKeys(StorePlan(rows, k, data), PlanKey)
  {
    var out := StorePlan(rows, k, data);
    KeysInMeaning(rows, PlanKey);
    KeysInMeaning(out, PlanKey);
    if k in KeysIn(rows, PlanKey) {
      var i :| 0 <= i < |rows| && PlanKey(rows[i]) == k;
      assert PlanKey(out[i]) == k;
    } else {
      assert PlanKey(out[|rows|]) == k;
      if DistinctKeys(rows, PlanKey) {
        forall i, j | 0 <= i < j < |out| ensures PlanKey(out[i]) != PlanKey(out[j]) {
          if j == |rows| {
            assert PlanKey(rows[i]) != k;
          }
        }
      }
    }
  }

  /** The state of a loop over posted entries: the plan rows so far, and
      whether a step has raised (which ends the loop). */
  datatype SyncState = SyncState(rows: seq<DifficultyPlan>, raised: bool)

  /** `update_reading_difficulty_plans` over the entries of a list: each
      yielded entry stores its cleaned pairs (an empty list included), and
      the first entry that raises ends the sync, the caller swallowing the
      exception. */
  function Synced(rows: seq<DifficultyPlan>, period: string, entries: seq<Json>): SyncState
    decreases |entries|
  {
    if entries == [] then SyncState(rows, false)
    else
      var st := Synced(rows, period, entries[..|entries| - 1]);
      if st.raised then st
      else
        match EntryStep(entries[|entries| - 1])
        case Raise => SyncState(st.rows, true)
        case Skip => st
        case Yield(e) => SyncState(StorePlan(st.rows, (period, e.0), e.1), false)
  }

  /** The posted value: iterating anything but a list either raises at once
      or yields nothing to store, so only a list changes the plans. */
  function SyncedPlans(rows: seq<DifficultyPlan>, period: string, parsed: Json): seq<DifficultyPlan>
  {
    if parsed.JArr? then Synced(rows, period, parsed.items).rows else rows
  }

  /** `json.loads` of the posted text, or [] when it is blank or not JSON. */
  function ParsedDifficulties(posted: Stored): Json
  {
    match posted
    case Serialized(v) => v
    case Raw(_) => JArr([])
  }

  /** A plan row the sync leaves behind: one it did not touch, or one of
      this period for a grade 0..10 whose data is clean. */
  predicate SyncedRow(old_: DifficultyPlan, now: DifficultyPlan, period: string)
  {
    now == old_ || (PlanKey(now) == PlanKey(old_) && now.period == period && CleanData(now.data))
  }

  predicate CleanData(d: seq<(string, string)>)
  {
    |d| <= PairLimit && forall i :: 0 <= i < |d| ==> CleanPair(d[i])
  }

  predicate NewPlanRow(p: DifficultyPlan, period: string)
  {
    p.period == period && p.gradeLabel in RmaCodes && CleanData(p.data)
  }

  /** The sync keeps every row's key, touches only plans of its period, and
      what it stores is clean: at most five pairs, none blank, no field over
      500 characters; rows it adds are plans of grades 0..10. */
  lemma {:induction false} SyncedMeaning(rows: seq<DifficultyPlan>, period: string, entries: seq<Json>)
    ensures var out := Synced(rows, period, entries).rows;
      |rows| <= |out| &&
      (forall i :: 0 <= i < |rows| ==> SyncedRow(rows[i], out[i], period)) &&
      (forall i :: |rows| <= i < |out| ==> NewPlanRow(out[i], period))
    ensures DistinctKeys(rows, PlanKey) ==> DistinctKeys(Synced(rows, period, entries).rows, PlanKey)
    decreases |entries|
  {
    if entries != [] {
      var init := entries[..|entries| - 1];
      SyncedMeaning(rows, period, init);
      var st := Synced(rows, period, init);
      if !st.raised {
        var e := EntryStep(entries[|entries| - 1]);
        if e.Yield? {
          StoreStep(rows, st.rows, period, e.value.0, e.value.1);
          StorePlanMeaning(st.rows, (period, e.value.0), e.value.1);
        }
      }
    }
  }

  /** One store keeps the loop's row invariant. */
  lemma StoreStep(rows: seq<DifficultyPlan>, cur: seq<DifficultyPlan>, period: string, lab: string, data: seq<(string, string)>)
    requires |rows| <= |cur|
    requires forall i :: 0 <= i < |rows| ==> SyncedRow(rows[i], cur[i], period)
    requires forall i :: |rows| <= i < |cur| ==> NewPlanRow(cur[i], period)
    requires lab in RmaCodes && CleanData(data)
    ensures var out := StorePlan(cur, (period, lab), data);
      |rows| <= |out| &&
      (forall i :: 0 <= i < |rows| ==> SyncedRow(rows[i], out[i], period)) &&
      (forall i :: |rows| <= i < |out| ==> NewPlanRow(out[i], period))
  {
    var out := StorePlan(cur, (period, lab), data);
    StorePlanMeaning(cur, (period, lab), data);
    forall i | 0 <= i < |rows| ensures SyncedRow(rows[i], out[i], period) {
      if PlanKey(cur[i]) == (period, lab) {
        assert out[i].data == data;
      }
    }
    forall i | |rows| <= i < |out| ensures NewPlanRow(out[i], period) {
      if i < |cur| && PlanKey(cur[i]) == (period, lab) {
        assert out[i].data == data;
      }
    }
  }

  /** `update_reading_difficulty_plans`, on one submission's plan rows. */
  method SyncDifficultyPlans(t: Table<(string, string), DifficultyPlan>, period: string, parsed: Json)
    modifies t
    ensures t.rows == SyncedPlans(old(t.rows), period, parsed)
  {
    if !parsed.JArr? {
      return;
    }
    var entries := parsed.items;
    ghost var start := t.rows;
    var i := 0;
    while i < |entries|
      invariant 0 <= i <= |entries|
      invariant Synced(start, period, entries[..i]) == SyncState(t.rows, false)
    {
      assert entries[..i + 1][..i] == entries[..i];
      var step := CleanEntry(entries[i]);
      match step {
        case Raise =>
          SyncedRaise(start, period, entries, i + 1);
          return;
        case Skip =>
        case Yield(e) =>
          StoreOne(t, (period, e.0), e.1);
      }
      i := i + 1;
    }
    assert entries[..i] == entries;
  }

  /** Once the sync has raised, later entries change nothing. */
  lemma {:induction false} SyncedRaise(rows: seq<DifficultyPlan>, period: string, entries: seq<Json>, k: nat)
    requires k <= |entries| && Synced(rows, period, entries[..k]).raised
    ensures Synced(rows, period, entries) == Synced(rows, period, entries[..k])
    decreases |entries| - k
  {
    if k < |entries| {
      assert entries[..k + 1][..k] == entries[..k];
      SyncedRaise(rows, period, entries, k + 1);
    } else {
      assert entries[..k] == entries;
    }
  }

  /** get_or_create, then a write of the data only if it differs. */
  method StoreOne(t: Table<(string, string), DifficultyPlan>, k: (string, string), data: seq<(string, string)>)
    modifies t
    ensures t.rows == StorePlan(old(t.rows), k, data)
  {
    var rows := t.rows;
    if k !in KeysIn(rows, PlanKey) {
      t.rows := rows + [DifficultyPlan(k.0, k.1, data)];
      return;
    }
    var out: seq<DifficultyPlan> := [];
    var i := 0;
    while i < |rows|
      invariant 0 <= i <= |rows| && |out| == i
      invariant forall j :: 0 <= j < i ==> out[j] == if PlanKey(rows[j]) == k then rows[j].(data := data) else rows[j]
    {
      var r := rows[i];
      if PlanKey(r) == k && r.data != data {
        r := r.(data := data);
      }
      out := out + [r];
      i := i + 1;
    }
    t.rows := out;
  }

  // ---------------------------------------------------------------------
  // The backfill command

  /** The data of the plan with key k, if there is one. */
  function PlanData(plans: seq<DifficultyPlan>, k: (string, string)): (r: Option<seq<(string, string)>>)
    ensures r.Some? <==> k in KeysIn(plans, PlanKey)
    decreases |plans|
  {
    if plans == [] then None
    else
      var r := PlanData(plans[..|plans| - 1], k);
      if r.Some? then r
      else if PlanKey(plans[|plans| - 1]) == k then Some(plans[|plans| - 1].data)
      else None
  }

  /** The backfill's store as written: get_or_create creates a missing plan
      even on a dry run; an existing plan whose data differs is rewritten
      (and counted) only when it is not a dry run. The flag says whether a
      plan was counted as updated. */
  function BackfillStoreAsWritten(plans: seq<DifficultyPlan>, k: (string, string), data: seq<(string, string)>, dryRun: bool): (r: (seq<DifficultyPlan>, bool))
    ensures dryRun ==> !r.1 && plans <= r.0 && (r.0 != plans <==> k !in KeysIn(plans, PlanKey))
    ensures r.1 <==> !dryRun && PlanData(plans, k).Some? && PlanData(plans, k).value != data
  {
    match PlanData(plans, k)
    case None => (plans + [DifficultyPlan(k.0, k.1, data)], false)
    case Some(d) =>
      if d == data || dryRun then (plans, false)
      else (StorePlan(plans, k, data), true)
  }

  /** A dry run of the backfill as written still creates the plan of a grade
      that has none. */
  lemma DryRunCreatesPlan()
    ensures BackfillStoreAsWritten([], ("bosy", "g1"), [("a", "")], true).0 ==
      [DifficultyPlan("bosy", "g1", [("a", "")])]
  {
  }

  /** The backfill's store as intended: a dry run writes nothing at all;
      otherwise the plan of k ends up holding the data (a plan that already
      holds it is left as it is, which is the same). The flag counts a
      rewrite of an existing plan whose data differed. */
  function BackfillStore(plans: seq<DifficultyPlan>, k: (string, string), data: seq<(string, string)>, dryRun: bool): (r: (seq<DifficultyPlan>, bool))
    ensures dryRun ==> r == (plans, false)
    ensures !dryRun ==> r.0 == StorePlan(plans, k, data)
    ensures r.1 <==> !dryRun && PlanData(plans, k).Some? && PlanData(plans, k).value != data
  {
    if dryRun then (plans, false)
    else
      match PlanData(plans, k)
      case None => (plans + [DifficultyPlan(k.0, k.1, data)], false)
      case Some(d) => (StorePlan(plans, k, data), d != data)
  }

  /** The first plan of a key is the one whose data PlanData reads; with
      distinct keys it is the only one. */
  lemma {:induction false} PlanDataOfKey(plans: seq<DifficultyPlan>, k: (string, string), i: nat)
    requires DistinctKeys(plans, PlanKey) && i < |plans| && PlanKey(plans[i]) == k
    ensures PlanData(plans, k) == Some(plans[i].data)
    decreases |plans|
  {
    var init := plans[..|plans| - 1];
    if i < |init| {
      assert DistinctKeys(init, PlanKey) by {
        assert forall a :: 0 <= a < |init| ==> init[a] == plans[a];
      }
      PlanDataOfKey(init, k, i);
    } else {
      KeysInMeaning(init, PlanKey);
      assert forall a :: 0 <= a < |init| ==> init[a] == plans[a];
    }
  }

  /** Outside a dry run the store as written and the intended one agree,
      the keys being distinct as the plans' unique constraint keeps them. */
  lemma StoreAgrees(plans: seq<DifficultyPlan>, k: (string, string), data: seq<(string, string)>)
    requires DistinctKeys(plans, PlanKey)
    ensures BackfillStoreAsWritten(plans, k, data, false) == BackfillStore(plans, k, data, false)
  {
    KeysInMeaning(plans, PlanKey);
    if PlanData(plans, k) == Some(data) {
      forall i | 0 <= i < |plans| && PlanKey(plans[i]) == k
        ensures plans[i].(data := data) == plans[i]
      {
        PlanDataOfKey(plans, k, i);
      }
      assert StorePlan(plans, k, data) == plans;
    }
  }

  /** One submission as the backfill command reads it: its stored data, the
      quarter of its period, its template's reading override, and its plans. */
  datatype BackfillSubmission = BackfillSubmission(data: Json, quarter: string, override: string, plans: seq<DifficultyPlan>)

  /** `(submission.data or {}).get('reading_difficulties_json', [])`, and the
      two skips: a value that is empty or not a list. Data that is neither
      empty nor an object raises at `.get`. */
  function StoredEntries(data: Json): Step<seq<Json>>
  {
    if !PyTruthy(data) then Skip
    else if !data.JObj? then Raise
    else
      match Member(data, "reading_difficulties_json")
      case None => Skip
      case Some(v) => if v.JArr? && v.items != [] then Yield(v.items) else Skip
  }

  /** The period a submission is backfilled for: the forced one, else its own. */
  function BackfillPeriod(forced: string, sub: BackfillSubmission): string
  {
    if forced != "" then forced else DerivePeriod(sub.quarter, sub.override)
  }

  /** The loop over one submission's entries: its plans, how many were
      rewritten, and whether an exception escaped (which ends the command). */
  datatype EntriesState = EntriesState(plans: seq<DifficultyPlan>, updated: nat, raised: bool)

  function BackfillEntries(plans: seq<DifficultyPlan>, period: string, dryRun: bool, entries: seq<Json>): EntriesState
    decreases |entries|
  {
    if entries == [] then EntriesState(plans, 0, false)
    else EntryEffect(BackfillEntries(plans, period, dryRun, entries[..|entries| - 1]), period, dryRun, entries[|entries| - 1])
  }

  /** One entry of the backfill as written: like the editor's sync, except
      that an entry whose cleaned list is empty is skipped, and that a dry
      run still creates a missing plan. */
  function EntryEffect(st: EntriesState, period: string, dryRun: bool, entry: Json): EntriesState
  {
    if st.raised then st
    else
      match EntryStep(entry)
      case Raise => EntriesState(st.plans, st.updated, true)
      case Skip => st
      case Yield(e) =>
        if e.1 == [] then st
        else
          var (plans', counted) := BackfillStoreAsWritten(st.plans, (period, e.0), e.1, dryRun);
          EntriesState(plans', st.updated + (if counted then 1 else 0), false)
  }

  /** The command's running state: the submissions processed so far (with
      their new plans), the two counters, and whether it stopped on an
      exception. */
  datatype BackfillState = BackfillState(subs: seq<BackfillSubmission>, total: nat, updated: nat, raised: bool)

  function BackfillRun(subs: seq<BackfillSubmission>, forced: string, dryRun: bool): BackfillState
    decreases |subs|
  {
    if subs == [] then BackfillState([], 0, 0, false)
    else SubmissionEffect(BackfillRun(subs[..|subs| - 1], forced, dryRun), forced, dryRun, subs[|subs| - 1])
  }

  /** One submission of the backfill: it is passed through unchanged once
      the command has raised, or when it has no entries; otherwise its
      entries are applied and it counts as processed unless they raised. */
  function SubmissionEffect(st: BackfillState, forced: string, dryRun: bool, sub: BackfillSubmission): BackfillState
  {
    if st.raised then BackfillState(st.subs + [sub], st.total, st.updated, true)
    else
      match StoredEntries(sub.data)
      case Raise => BackfillState(st.subs + [sub], st.total, st.updated, true)
      case Skip => BackfillState(st.subs + [sub], st.total, st.updated, false)
      case Yield(entries) =>
        var e := BackfillEntries(sub.plans, BackfillPeriod(forced, sub), dryRun, entries);
        BackfillState(st.subs + [sub.(plans := e.plans)], st.total + (if e.raised then 0 else 1),
                      st.updated + e.updated, e.raised)
  }

  /** What the command ends with: an error before any processing, or the
      state of every submission afterwards. */
  datatype BackfillOutcome = Rejected(message: string) | Ran(state: BackfillState)

  const InvalidPeriodMessage: string := "Invalid --period value. Use bosy/mosy/eosy."
  const NegativeLimitMessage: string := "Negative indexing is not supported."

  /** The `handle` of the backfill command over all submissions in id order;
      a forced period of "" means none was given. Submissions past the limit
      are left as they are. */
  function Backfill(subs: seq<BackfillSubmission>, forced: string, dryRun: bool, limit: Option<int>): BackfillOutcome
  {
    if forced != "" && !IsReadingPeriod(forced) then Rejected(InvalidPeriodMessage)
    else if limit.Some? && limit.value < 0 then Rejected(NegativeLimitMessage)
    else
      var n := if limit.Some? && limit.value < |subs| then limit.value else |subs|;
      var st := BackfillRun(subs[..n], forced, dryRun);
      Ran(st.(subs := st.subs + subs[n..]))
  }

  /** A submission after a dry run: the same submission, its plans only
      added to. */
  predicate Extended(before: BackfillSubmission, after: BackfillSubmission)
  {
    after == before.(plans := after.plans) && before.plans <= after.plans
  }

  /** A dry run over one submission's entries only adds plans and counts
      no update. */
  lemma {:induction false} DryRunEntriesOnlyAdd(plans: seq<DifficultyPlan>, period: string, entries: seq<Json>)
    ensures plans <= BackfillEntries(plans, period, true, entries).plans
    ensures BackfillEntries(plans, period, true, entries).updated == 0
    decreases |entries|
  {
    if entries != [] {
      DryRunEntriesOnlyAdd(plans, period, entries[..|entries| - 1]);
    }
  }

  lemma DryRunStep(st: BackfillState, forced: string, sub: BackfillSubmission)
    ensures var next := SubmissionEffect(st, forced, true, sub);
      |next.subs| == |st.subs| + 1 && next.subs[..|st.subs|] == st.subs && Extended(sub, next.subs[|st.subs|])
    ensures SubmissionEffect(st, forced, true, sub).updated == st.updated
  {
    if !st.raised && StoredEntries(sub.data).Yield? {
      DryRunEntriesOnlyAdd(sub.plans, BackfillPeriod(forced, sub), StoredEntries(sub.data).value);
    } else {
      assert sub.(plans := sub.plans) == sub;
    }
  }

  /** A dry run keeps every submission, adds plans without changing any,
      and counts no update. */
  lemma {:induction false} DryRunOnlyAdds(subs: seq<BackfillSubmission>, forced: string)
    ensures var st := BackfillRun(subs, forced, true);
      |st.subs| == |subs| && (forall i :: 0 <= i < |subs| ==> Extended(subs[i], st.subs[i])) && st.updated == 0
    decreases |subs|
  {
    if subs != [] {
      var init := subs[..|subs| - 1];
      DryRunOnlyAdds(init, forced);
      DryRunStep(BackfillRun(init, forced, true), forced, subs[|subs| - 1]);
    }
  }

  /** The command rejects a bad period before touching anything, keeps every
      submission (in order), counts at most one processed submission each,
      and on a dry run changes no existing plan and counts no update. */
  lemma BackfillMeaning(subs: seq<BackfillSubmission>, forced: string, dryRun: bool, limit: Option<int>)
    ensures forced != "" && !IsReadingPeriod(forced) ==> Backfill(subs, forced, dryRun, limit) == Rejected(InvalidPeriodMessage)
    ensures Backfill(subs, forced, dryRun, limit).Ran? ==>
      |Backfill(subs, forced, dryRun, limit).state.subs| == |subs| &&
      Backfill(subs, forced, dryRun, limit).state.total <= |subs|
    ensures dryRun && Backfill(subs, forced, dryRun, limit).Ran? ==>
      (forall i :: 0 <= i < |subs| ==> Extended(subs[i], Backfill(subs, forced, dryRun, limit).state.subs[i])) &&
      Backfill(subs, forced, dryRun, limit).state.updated == 0
  {
    if Backfill(subs, forced, dryRun, limit).Ran? {
      var n := if limit.Some? && limit.value < |subs| then limit.value else |subs|;
      RunPrefix(subs, forced, dryRun, n);
    }
  }

  /** The run over the first n submissions, followed by the rest untouched. */
  lemma RunPrefix(subs: seq<BackfillSubmission>, forced: string, dryRun: bool, n: nat)
    requires n <= |subs|
    ensures var st := BackfillRun(subs[..n], forced, dryRun);
      |st.subs + subs[n..]| == |subs| && st.total <= |subs| &&
      (dryRun ==> (forall i :: 0 <= i < |subs| ==> Extended(subs[i], (st.subs + subs[n..])[i])) && st.updated == 0)
  {
    RunShape(subs[..n], forced, dryRun);
    if dryRun {
      DryRunOnlyAdds(subs[..n], forced);
      var st := BackfillRun(subs[..n], forced, dryRun);
      forall i | 0 <= i < |subs| ensures Extended(subs[i], (st.subs + subs[n..])[i]) {
        if i >= n {
          assert (st.subs + subs[n..])[i] == subs[i];
          assert subs[i].(plans := subs[i].plans) == subs[i];
        }
      }
    }
  }

  lemma {:induction false} RunShape(subs: seq<BackfillSubmission>, forced: string, dryRun: bool)
    ensures |BackfillRun(subs, forced, dryRun).subs| == |subs|
    ensures BackfillRun(subs, forced, dryRun).total <= |subs|
    decreases |subs|
  {
    if subs != [] {
      RunShape(subs[..|subs| - 1], forced, dryRun);
    }
  }

  /** Once an entry has raised, later entries change nothing. */
  lemma {:induction false} EntriesRaise(plans: seq<DifficultyPlan>, period: string, dryRun: bool, entries: seq<Json>, k: nat)
    requires k <= |entries| && BackfillEntries(plans, period, dryRun, entries[..k]).raised
    ensures BackfillEntries(plans, period, dryRun, entries) == BackfillEntries(plans, period, dryRun, entries[..k])
    decreases |entries| - k
  {
    if k < |entries| {
      assert entries[..k + 1][..k] == entries[..k];
      EntriesRaise(plans, period, dryRun, entries, k + 1);
    } else {
      assert entries[..k] == entries;
    }
  }

  lemma EntriesSnoc(plans: seq<DifficultyPlan>, period: string, dryRun: bool, entries: seq<Json>, i: nat)
    requires i < |entries|
    ensures BackfillEntries(plans, period, dryRun, entries[..i + 1]) ==
      EntryEffect(BackfillEntries(plans, period, dryRun, entries[..i]), period, dryRun, entries[i])
  {
    assert entries[..i + 1][..i] == entries[..i];
  }

  /** The body of the loop over one submission's entries, for a run that
      has not raised. */
  method EntryOne(st: EntriesState, period: string, dryRun: bool, entry: Json) returns (next: EntriesState)
    requires !st.raised
    ensures next == EntryEffect(st, period, dryRun, entry)
  {
    next := st;
    var step := CleanEntry(entry);
    if step.Raise? {
      next := EntriesState(st.plans, st.updated, true);
    } else if step.Yield? && step.value.1 != [] {
      var stored := BackfillStoreAsWritten(st.plans, (period, step.value.0), step.value.1, dryRun);
      next := EntriesState(stored.0, st.updated + (if stored.1 then 1 else 0), false);
    }
  }

  /** The loop over one submission's entries. */
  method BackfillSubmissionPlans(plans: seq<DifficultyPlan>, period: string, dryRun: bool, entries: seq<Json>)
    returns (st: EntriesState)
    ensures st == BackfillEntries(plans, period, dryRun, entries)
  {
    st := EntriesState(plans, 0, false);
    var i := 0;
    while i < |entries|
      invariant 0 <= i <= |entries|
      invariant BackfillEntries(plans, period, dryRun, entries[..i]) == st && !st.raised
    {
      EntriesSnoc(plans, period, dryRun, entries, i);
      st := EntryOne(st, period, dryRun, entries[i]);
      if st.raised {
        EntriesRaise(plans, period, dryRun, entries, i + 1);
        return;
      }
      i := i + 1;
    }
    assert entries[..i] == entries;
  }

  lemma RunSnoc(subs: seq<BackfillSubmission>, forced: string, dryRun: bool, i: nat)
    requires i < |subs|
    ensures BackfillRun(subs[..i + 1], forced, dryRun) ==
      SubmissionEffect(BackfillRun(subs[..i], forced, dryRun), forced, dryRun, subs[i])
  {
    assert subs[..i + 1][..i] == subs[..i];
  }

  /** Once the command has raised, the remaining submissions pass through
      unchanged. */
  lemma {:induction false} RunRaise(subs: seq<BackfillSubmission>, forced: string, dryRun: bool, k: nat)
    requires k <= |subs| && BackfillRun(subs[..k], forced, dryRun).raised
    ensures BackfillRun(subs, forced, dryRun) ==
      var st := BackfillRun(subs[..k], forced, dryRun);
      st.(subs := st.subs + subs[k..])
    decreases |subs| - k
  {
    if k < |subs| {
      RunSnoc(subs, forced, dryRun, k);
      RunRaise(subs, forced, dryRun, k + 1);
      assert [subs[k]] + subs[k + 1..] == subs[k..];
    } else {
      assert subs[..k] == subs;
    }
  }

  /** The loop body on one submission, before the command has raised. */
  method ProcessOne(st: BackfillState, forced: string, dryRun: bool, sub: BackfillSubmission)
    returns (next: BackfillState)
    requires !st.raised
    ensures next == SubmissionEffect(st, forced, dryRun, sub)
  {
    var stored := StoredEntries(sub.data);
    if stored.Raise? {
      return BackfillState(st.subs + [sub], st.total, st.updated, true);
    }
    if stored.Yield? {
      var e := BackfillSubmissionPlans(sub.plans, BackfillPeriod(forced, sub), dryRun, stored.value);
      if e.raised {
        return BackfillState(st.subs + [sub.(plans := e.plans)], st.total, st.updated + e.updated, true);
      }
      next := BackfillState(st.subs + [sub.(plans := e.plans)], st.total + 1, st.updated + e.updated, false);
    } else {
      next := BackfillState(st.subs + [sub], st.total, st.updated, false);
    }
  }

  /** The loop over the selected submissions. */
  method ProcessSubmissions(subs: seq<BackfillSubmission>, forced: string, dryRun: bool)
    returns (st: BackfillState)
    ensures st == BackfillRun(subs, forced, dryRun)
  {
    st := BackfillState([], 0, 0, false);
    var i := 0;
    while i < |subs|
      invariant 0 <= i <= |subs|
      invariant st == BackfillRun(subs[..i], forced, dryRun) && !st.raised
    {
      RunSnoc(subs, forced, dryRun, i);
      st := ProcessOne(st, forced, dryRun, subs[i]);
      if st.raised {
        RunRaise(subs, forced, dryRun, i + 1);
        return st.(subs := st.subs + subs[i + 1..]);
      }
      i := i + 1;
    }
    assert subs[..i] == subs;
  }

  /** The `handle` of the backfill command. */
  method RunBackfill(subs: seq<BackfillSubmission>, forced: string, dryRun: bool, limit: Option<int>)
    returns (outcome: BackfillOutcome)
    ensures outcome == Backfill(subs, forced, dryRun, limit)
  {
    if forced != "" && !IsReadingPeriod(forced) {
      return Rejected(InvalidPeriodMessage);
    }
    if limit.Some? && limit.value < 0 {
      return Rejected(NegativeLimitMessage);
    }
    var n := if limit.Some? && limit.value < |subs| then limit.value else |subs|;
    var st := ProcessSubmissions(subs[..n], forced, dryRun);
    outcome := Ran(st.(subs := st.subs + subs[n..]));
  }
}
