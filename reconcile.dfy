// The `ensure_*` helpers of the submission editor: before a form is shown,
// the child rows of a submission are brought in line with the rows the form
// needs. Missing keys get a fresh zero row; rows whose key the form does not
// need are deleted.
module Reconcile {
  import opened Constants
  import opened GradeSpans
  import opened ServerRows
  import opened Wrappers
  import Lists

  // ---------------------------------------------------------------------
  // Keyed row lists

  /** The keys present among rows (`set(... values_list(key))`). */
  function KeysIn<K(==,!new), R>(rows: seq<R>, key: R -> K): set<K>
    decreases |rows|
  {
    if rows == [] then {}
    else KeysIn(rows[..|rows| - 1], key) + {key(rows[|rows| - 1])}
  }

  /** A key is present exactly when some row has it. */
  lemma {:induction false} KeysInMeaning<K(!new), R>(rows: seq<R>, key: R -> K)
    ensures forall k :: k in KeysIn(rows, key) <==> exists i :: 0 <= i < |rows| && key(rows[i]) == k
    decreases |rows|
  {
    if rows != [] {
      var init := rows[..|rows| - 1];
      KeysInMeaning(init, key);
      assert forall i :: 0 <= i < |init| ==> init[i] == rows[i];
    }
  }

  lemma KeysInSnoc<K(!new), R>(rows: seq<R>, key: R -> K, r: R)
    ensures KeysIn(rows + [r], key) == KeysIn(rows, key) + {key(r)}
  {
    assert (rows + [r])[..|rows|] == rows;
  }

  lemma SetOfSnoc<K(!new)>(ks: seq<K>, k: K)
    ensures SetOf(ks + [k]) == SetOf(ks) + {k}
  {
  }

  function SetOf<K(!new)>(ks: seq<K>): (s: set<K>)
    ensures forall k :: k in s <==> k in ks
  {
    set k | k in ks
  }

  /** The required keys not yet present, in the order they are required; a
      key required twice and absent is listed twice. */
  function Missing<K(==,!new)>(required: seq<K>, existing: set<K>): seq<K>
    decreases |required|
  {
    if required == [] then []
    else
      var k := required[|required| - 1];
      Missing(required[..|required| - 1], existing) + (if k in existing then [] else [k])
  }

  /** A key is missing exactly when it is required and not present. */
  lemma {:induction false} MissingMeaning<K(!new)>(required: seq<K>, existing: set<K>)
    ensures forall k :: k in Missing(required, existing) <==> k in required && k !in existing
    decreases |required|
  {
    if required != [] {
      var init := required[..|required| - 1];
      MissingMeaning(init, existing);
      assert required == init + [required[|required| - 1]];
    }
  }

  lemma MissingSnoc<K(!new)>(required: seq<K>, i: int, existing: set<K>)
    requires 0 <= i < |required|
    ensures Missing(required[..i + 1], existing) ==
      Missing(required[..i], existing) + (if required[i] in existing then [] else [required[i]])
  {
    assert required[..i + 1][..i] == required[..i];
  }

  lemma MadeAppend<K, R>(ks: seq<K>, more: seq<K>, make: K -> R)
    ensures Made(ks + more, make) == Made(ks, make) + Made(more, make)
  {
  }

  /** The fresh rows for a list of keys. */
  function Made<K, R>(ks: seq<K>, make: K -> R): (rs: seq<R>)
    ensures |rs| == |ks| && forall i :: 0 <= i < |ks| ==> rs[i] == make(ks[i])
  {
    seq(|ks|, i requires 0 <= i < |ks| => make(ks[i]))
  }

  /** The rows whose key is allowed, in their order (the `.exclude(key__in=
      ...).delete()` step). */
  function Kept<K(==), R(!new)>(rows: seq<R>, key: R -> K, allowed: set<K>): (rs: seq<R>)
    ensures forall r :: r in rs <==> r in rows && key(r) in allowed
    ensures |rs| <= |rows|
    decreases |rows|
  {
    if rows == [] then []
    else
      var r := rows[|rows| - 1];
      var init := rows[..|rows| - 1];
      assert rows == init + [r];
      Kept(init, key, allowed) + (if key(r) in allowed then [r] else [])
  }

  /** What a reconciler leaves: the existing keys are read once, a fresh row
      is appended for each required key not among them, and then every row
      whose key is not required is deleted. */
  function Reconciled<K(==,!new), R(!new)>(rows: seq<R>, key: R -> K, required: seq<K>, make: K -> R): seq<R>
  {
    Kept(rows + Made(Missing(required, KeysIn(rows, key)), make), key, SetOf(required))
  }

  /** A fresh row carries the key it was made for. */
  ghost predicate MakesKey<K(!new), R>(key: R -> K, make: K -> R)
  {
    forall k :: key(make(k)) == k
  }

  predicate DistinctKeys<K(==), R>(rows: seq<R>, key: R -> K)
  {
    forall i, j :: 0 <= i < j < |rows| ==> key(rows[i]) != key(rows[j])
  }

  /** After reconciling, the keys present are exactly the required keys. */
  lemma ReconciledKeys<K(!new), R(!new)>(rows: seq<R>, key: R -> K, required: seq<K>, make: K -> R)
    requires MakesKey(key, make)
    ensures KeysIn(Reconciled(rows, key, required, make), key) == SetOf(required)
  {
    var existing := KeysIn(rows, key);
    var created := Made(Missing(required, existing), make);
    var combined := rows + created;
    var out := Reconciled(rows, key, required, make);
    KeysInMeaning(rows, key);
    KeysInMeaning(out, key);
    forall k | k in SetOf(required) ensures k in KeysIn(out, key) {
      if k in existing {
        var i :| 0 <= i < |rows| && key(rows[i]) == k;
        assert combined[i] == rows[i];
        assert rows[i] in out;
      } else {
        var m := Missing(required, existing);
        MissingMeaning(required, existing);
        var i :| 0 <= i < |m| && m[i] == k;
        assert combined[|rows| + i] == make(k);
        assert make(k) in out;
      }
    }
    forall k | k in KeysIn(out, key) ensures k in SetOf(required) {
      var i :| 0 <= i < |out| && key(out[i]) == k;
      assert out[i] in out;
    }
  }

  /** A row survives reconciling exactly when it was there with a required
      key, or it is the fresh row of a required key that was absent. */
  lemma ReconciledRows<K(!new), R(!new)>(rows: seq<R>, key: R -> K, required: seq<K>, make: K -> R, r: R)
    requires MakesKey(key, make)
    ensures r in Reconciled(rows, key, required, make) <==>
      key(r) in required &&
      (r in rows || (r == make(key(r)) && key(r) !in KeysIn(rows, key)))
  {
    var existing := KeysIn(rows, key);
    var m := Missing(required, existing);
    MissingMeaning(required, existing);
    var created := Made(m, make);
    if r in created {
      var i :| 0 <= i < |created| && created[i] == r;
      assert key(r) == m[i];
    }
    if key(r) in required && r !in rows && r == make(key(r)) && key(r) !in existing {
      var i :| 0 <= i < |m| && m[i] == key(r);
      assert created[i] == r;
    }
  }

  /** Reconciling twice changes nothing more. */
  lemma ReconciledIdempotent<K(!new), R(!new)>(rows: seq<R>, key: R -> K, required: seq<K>, make: K -> R)
    requires MakesKey(key, make)
    ensures Reconciled(Reconciled(rows, key, required, make), key, required, make) ==
      Reconciled(rows, key, required, make)
  {
    var once := Reconciled(rows, key, required, make);
    ReconciledKeys(rows, key, required, make);
    var m := Missing(required, KeysIn(once, key));
    MissingMeaning(required, KeysIn(once, key));
    assert forall k :: k !in m;
    assert once + [] == once;
    KeptAll(once, key, SetOf(required));
  }

  lemma {:induction false} KeptAll<K(!new), R(!new)>(rows: seq<R>, key: R -> K, allowed: set<K>)
    requires forall i :: 0 <= i < |rows| ==> key(rows[i]) in allowed
    ensures Kept(rows, key, allowed) == rows
    decreases |rows|
  {
    if rows != [] {
      var init, last := rows[..|rows| - 1], rows[|rows| - 1];
      forall i | 0 <= i < |init| ensures key(init[i]) in allowed {
        assert init[i] == rows[i];
      }
      KeptAll(init, key, allowed);
      assert key(last) in allowed;
      assert Kept(rows, key, allowed) == init + [last];
      Lists.InitLast(rows);
    }
  }

  /** A row kept from before is unchanged: reconciling never edits a row. */
  lemma ReconciledKeepsOld<K(!new), R(!new)>(rows: seq<R>, key: R -> K, required: seq<K>, make: K -> R)
    requires MakesKey(key, make)
    ensures forall i :: 0 <= i < |rows| && key(rows[i]) in required ==> rows[i] in Reconciled(rows, key, required, make)
  {
    forall i | 0 <= i < |rows| && key(rows[i]) in required
      ensures rows[i] in Reconciled(rows, key, required, make)
    {
      ReconciledRows(rows, key, required, make, rows[i]);
    }
  }

  /** get_or_create for each key in turn: a row is appended for a key only
      when no row has it yet, so no key is created twice. */
  function Added<K(==,!new), R(!new)>(rows: seq<R>, key: R -> K, required: seq<K>, make: K -> R): seq<R>
    decreases |required|
  {
    if required == [] then rows
    else
      var k := required[|required| - 1];
      var before := Added(rows, key, required[..|required| - 1], make);
      if k in KeysIn(before, key) then before else before + [make(k)]
  }

  /** Unfolds Added by its last key. */
  lemma AddedLast<K(!new), R(!new)>(rows: seq<R>, key: R -> K, required: seq<K>, make: K -> R)
    requires required != []
    ensures Added(rows, key, required, make) ==
      var k := required[|required| - 1];
      var before := Added(rows, key, required[..|required| - 1], make);
      if k in KeysIn(before, key) then before else before + [make(k)]
  {
  }

  /** get_or_create keeps every existing row in place and appends only
      fresh rows. */
  lemma {:induction false} AddedPrefix<K(!new), R(!new)>(rows: seq<R>, key: R -> K, required: seq<K>, make: K -> R)
    requires MakesKey(key, make)
    ensures |rows| <= |Added(rows, key, required, make)|
    ensures Added(rows, key, required, make)[..|rows|] == rows
    ensures forall i :: |rows| <= i < |Added(rows, key, required, make)| ==>
      Added(rows, key, required, make)[i] == make(key(Added(rows, key, required, make)[i]))
    decreases |required|
  {
    if required != [] {
      var k := required[|required| - 1];
      var init := required[..|required| - 1];
      AddedPrefix(rows, key, init, make);
      AddedLast(rows, key, required, make);
      var before := Added(rows, key, init, make);
      if k !in KeysIn(before, key) {
        var after := before + [make(k)];
        assert after[..|rows|] == before[..|rows|];
      }
    }
  }

  /** get_or_create adds exactly the required keys. */
  lemma {:induction false} AddedKeys<K(!new), R(!new)>(rows: seq<R>, key: R -> K, required: seq<K>, make: K -> R)
    requires MakesKey(key, make)
    ensures KeysIn(Added(rows, key, required, make), key) == KeysIn(rows, key) + SetOf(required)
    decreases |required|
  {
    if required != [] {
      var k := required[|required| - 1];
      var init := required[..|required| - 1];
      AddedKeys(rows, key, init, make);
      AddedLast(rows, key, required, make);
      SetOfSnoc(init, k);
      assert init + [k] == required;
      var before := Added(rows, key, init, make);
      ghost var have := KeysIn(before, key);
      assert have == KeysIn(rows, key) + SetOf(init);
      if k !in have {
        KeysInSnoc(before, key, make(k));
        assert key(make(k)) == k;
      }
    }
  }

  /** get_or_create never gives two rows the same key when none shared one. */
  lemma {:induction false} AddedDistinct<K(!new), R(!new)>(rows: seq<R>, key: R -> K, required: seq<K>, make: K -> R)
    requires MakesKey(key, make)
    requires DistinctKeys(rows, key)
    ensures DistinctKeys(Added(rows, key, required, make), key)
    decreases |required|
  {
    if required != [] {
      var k := required[|required| - 1];
      var init := required[..|required| - 1];
      AddedDistinct(rows, key, init, make);
      AddedLast(rows, key, required, make);
      var before := Added(rows, key, init, make);
      if k !in KeysIn(before, key) {
        var after := before + [make(k)];
        forall i, j | 0 <= i < j < |after| ensures key(after[i]) != key(after[j]) {
          if j == |before| {
            assert after[i] == before[i];
            KeysInMeaning(before, key);
            assert key(after[i]) in KeysIn(before, key);
          }
        }
      }
    }
  }

  /** One table of child rows of a submission. */
  class Table<K(==,!new), R(!new)> {
    var rows: seq<R>

    constructor(initial: seq<R>)
      ensures rows == initial
    {
      rows := initial;
    }

    /** Creates the missing required rows, then deletes the unrequired ones. */
    method Ensure(key: R -> K, required: seq<K>, make: K -> R)
      modifies this
      ensures rows == Reconciled(old(rows), key, required, make)
    {
      var existing := KeysIn(rows, key);
      ghost var start := rows;
      var i := 0;
      while i < |required|
        invariant 0 <= i <= |required|
        invariant rows == start + Made(Missing(required[..i], existing), make)
      {
        MissingSnoc(required, i, existing);
        MadeAppend(Missing(required[..i], existing), if required[i] in existing then [] else [required[i]], make);
        if required[i] !in existing {
          rows := rows + [make(required[i])];
        }
        i := i + 1;
      }
      assert required[..i] == required;
      rows := Kept(rows, key, SetOf(required));
    }

    /** get_or_create of one key. */
    method GetOrCreate(key: R -> K, k: K, make: K -> R)
      modifies this
      ensures rows == Added(old(rows), key, [k], make)
    {
      assert [k][..0] == [];
      if k !in KeysIn(rows, key) {
        rows := rows + [make(k)];
      }
    }

    /** Creates the one default row when the table is empty. */
    method EnsureOne(default: R)
      modifies this
      ensures old(rows) == [] ==> rows == [default]
      ensures old(rows) != [] ==> rows == old(rows)
    {
      if rows == [] {
        rows := [default];
      }
    }
  }

  /** get_or_create of each key in turn. */
  method GetOrCreateAll<K(==,!new), R(!new)>(t: Table<K, R>, key: R -> K, required: seq<K>, make: K -> R)
    modifies t
    ensures t.rows == Added(old(t.rows), key, required, make)
  {
    ghost var start := t.rows;
    var i := 0;
    while i < |required|
      invariant 0 <= i <= |required|
      invariant t.rows == Added(start, key, required[..i], make)
    {
      assert required[..i + 1][..i] == required[..i];
      t.GetOrCreate(key, required[i], make);
      i := i + 1;
    }
    assert required[..i] == required;
  }

  // ---------------------------------------------------------------------
  // The rows of each form section

  /** A `Form1PctRow`: one action area's percentage and action points. */
  datatype PctRow = PctRow(area: string, percent: nat, actionPoints: string)

  /** The four action areas (`SMEAActionArea.CHOICES`). */
  const PctAreas: seq<string> := ["access", "quality", "equity", "enabling_mechanisms"]

  function PctArea(r: PctRow): string { r.area }
  function NewPctRow(area: string): PctRow { PctRow(area, 0, "") }

  /** `ensure_pct_rows`: one row per action area and no other. */
  method EnsurePctRows(t: Table<string, PctRow>)
    modifies t
    ensures t.rows == Reconciled(old(t.rows), PctArea, PctAreas, NewPctRow)
  {
    t.Ensure(PctArea, PctAreas, NewPctRow);
  }

  function SlpPair(r: SlpRow): (string, string) { (r.gradeLabel, r.subject) }

  /** A created SLP row: offered, every count zero, every text blank. */
  function NewSlpRow(p: (string, string)): (r: SlpRow)
    ensures SlpPair(r) == p && r.isOffered && r.enrolment == 0 && BandSum(r) == 0
  {
    SlpRow(p.0, p.1, 0, 0, 0, 0, 0, 0, true, "", "", "", "")
  }

  /** `ensure_slp_rows`: one row per (grade label, subject) pair of the
      school, and no row for any other pair. */
  method EnsureSlpRows(t: Table<(string, string), SlpRow>, pairs: seq<(string, string)>)
    modifies t
    ensures t.rows == Reconciled(old(t.rows), SlpPair, pairs, NewSlpRow)
  {
    t.Ensure(SlpPair, pairs, NewSlpRow);
  }

  /** The positions (and intervention orders) 1..5. */
  const FivePositions: seq<int> := [1, 2, 3, 4, 5]

  /** A `Form1SLPTopDNME` / `Form1SLPTopOutstanding` entry. */
  datatype TopEntry = TopEntry(position: int, gradeLabel: string, count: nat)

  function TopPosition(e: TopEntry): int { e.position }
  function NewTopEntry(p: int): TopEntry { TopEntry(p, "", 0) }

  /** `ensure_slp_top_entries`: positions 1..5, each once. */
  method EnsureSlpTopEntries(t: Table<int, TopEntry>)
    modifies t
    ensures t.rows == Reconciled(old(t.rows), TopPosition, FivePositions, NewTopEntry)
  {
    t.Ensure(TopPosition, FivePositions, NewTopEntry);
  }

  /** A reading, RMA or new-style reading intervention. */
  datatype Intervention = Intervention(order: int, description: string)

  function InterventionOrder(v: Intervention): int { v.order }
  function NewIntervention(o: int): Intervention { Intervention(o, "") }

  /** `ensure_fixed_order_interventions` and `ensure_reading_interventions_new`:
      orders 1..5. */
  method EnsureFixedOrderInterventions(t: Table<int, Intervention>)
    modifies t
    ensures t.rows == Reconciled(old(t.rows), InterventionOrder, FivePositions, NewIntervention)
  {
    t.Ensure(InterventionOrder, FivePositions, NewIntervention);
  }

  /** A `Form1RMARow`: enrolment and the five RMA proficiency bands. */
  datatype RmaRow = RmaRow(
    gradeLabel: string,
    enrolment: nat,
    emergingNotProficient: nat,
    emergingLowProficient: nat,
    developingNearlyProficient: nat,
    transitioningProficient: nat,
    atGradeLevel: nat)

  function RmaLabel(r: RmaRow): string { r.gradeLabel }
  function NewRmaRow(lab: string): RmaRow { RmaRow(lab, 0, 0, 0, 0, 0, 0) }

  /** `ensure_rma_rows`: one row per RMA grade code of the school. */
  method EnsureRmaRows(t: Table<string, RmaRow>, labels: seq<string>)
    modifies t
    ensures t.rows == Reconciled(old(t.rows), RmaLabel, labels, NewRmaRow)
  {
    t.Ensure(RmaLabel, labels, NewRmaRow);
  }

  /** A `Form1SupervisionRow`. */
  datatype SupervisionRow = SupervisionRow(
    gradeLabel: string,
    totalTeachers: nat,
    supervisedObservedTa: nat,
    interventionSupportProvided: string,
    result: string)

  const DefaultSupervisionRow: SupervisionRow := SupervisionRow("", 0, 0, "", "")

  function SupervisionKey(r: SupervisionRow): string { r.gradeLabel }

  /** `ensure_supervision_rows`: one blank row when there is none. */
  method EnsureSupervisionRows(t: Table<string, SupervisionRow>)
    modifies t
    ensures old(t.rows) == [] ==> t.rows == [DefaultSupervisionRow]
    ensures old(t.rows) != [] ==> t.rows == old(t.rows)
  {
    t.EnsureOne(DefaultSupervisionRow);
  }

  /** The ADM (alternative delivery mode) header and its rows. */
  datatype AdmHeader = AdmHeader(isOffered: bool)
  datatype AdmRow = AdmRow(ppasConducted: string, ppasPhysicalTarget: nat, ppasPhysicalActual: nat)

  const DefaultAdmRow: AdmRow := AdmRow("", 0, 0)

  /** `ensure_adm_rows`: an offered header when there is none, and one blank
      row when there is none; what exists is left alone. */
  method EnsureAdmRows(headers: Table<bool, AdmHeader>, rows: Table<string, AdmRow>)
    modifies headers, rows
    ensures old(headers.rows) == [] ==> headers.rows == [AdmHeader(true)]
    ensures old(headers.rows) != [] ==> headers.rows == old(headers.rows)
    ensures old(rows.rows) == [] ==> rows.rows == [DefaultAdmRow]
    ensures old(rows.rows) != [] ==> rows.rows == old(rows.rows)
  {
    headers.EnsureOne(AdmHeader(true));
    rows.EnsureOne(DefaultAdmRow);
  }

  /** A new-style reading assessment row: the counts of one level in one
      period, one per grade column. */
  datatype AssessmentRow = AssessmentRow(period: string, level: string, counts: seq<nat>)

  /** The four CRLA proficiency levels and the three PHILIRI reading levels. */
  const CrlaLevels: seq<string> := ["low_emerging", "high_emerging", "developing", "transitioning"]
  const PhiliriLevels: seq<string> := ["frustration", "instructional", "independent"]

  /** CRLA has six grade columns (MT 1-3, Filipino 2-3, English 3); PHILIRI
      has fourteen (English and Filipino, grades 4-10). */
  const CrlaColumns: nat := 6
  const PhiliriColumns: nat := 14

  function AssessmentKey(r: AssessmentRow): (string, string) { (r.period, r.level) }

  function LevelKeys(period: string, levels: seq<string>): (ks: seq<(string, string)>)
    ensures |ks| == |levels| && forall i :: 0 <= i < |ks| ==> ks[i] == (period, levels[i])
  {
    seq(|levels|, i requires 0 <= i < |levels| => (period, levels[i]))
  }

  function ZeroAssessment(columns: nat): ((string, string)) -> AssessmentRow
  {
    (k: (string, string)) => AssessmentRow(k.0, k.1, seq(columns, _ => 0))
  }

  /** `ensure_reading_assessments_new`: get_or_create of every CRLA level and
      every PHILIRI level for the period, with zero counts. */
  method EnsureReadingAssessments(crla: Table<(string, string), AssessmentRow>,
                                  philiri: Table<(string, string), AssessmentRow>,
                                  period: string)
    requires crla != philiri
    modifies crla, philiri
    ensures crla.rows == Added(old(crla.rows), AssessmentKey, LevelKeys(period, CrlaLevels), ZeroAssessment(CrlaColumns))
    ensures philiri.rows == Added(old(philiri.rows), AssessmentKey, LevelKeys(period, PhiliriLevels), ZeroAssessment(PhiliriColumns))
  {
    GetOrCreateAll(crla, AssessmentKey, LevelKeys(period, CrlaLevels), ZeroAssessment(CrlaColumns));
    GetOrCreateAll(philiri, AssessmentKey, LevelKeys(period, PhiliriLevels), ZeroAssessment(PhiliriColumns));
  }

  /** A `ReadingDifficultyPlan`: the difficulty/intervention pairs of one
      grade in one period. */
  datatype DifficultyPlan = DifficultyPlan(period: string, gradeLabel: string, data: seq<(string, string)>)

  function PlanKey(p: DifficultyPlan): (string, string) { (p.period, p.gradeLabel) }
  function NewPlan(k: (string, string)): DifficultyPlan { DifficultyPlan(k.0, k.1, []) }

  /** The plan keys of the grades 0..10 among nums (k, g1..g10); other
      numbers are skipped. */
  function PlanKeys(period: string, nums: seq<int>): (ks: seq<(string, string)>)
    ensures forall k :: k in ks <==> exists i :: 0 <= i < |nums| && HasRmaCode(nums[i]) && k == (period, RmaCodes[nums[i]])
    decreases |nums|
  {
    if nums == [] then []
    else
      var n := nums[|nums| - 1];
      var init := nums[..|nums| - 1];
      var ks := PlanKeys(period, init);
      assert forall i :: 0 <= i < |init| ==> init[i] == nums[i];
      ks + (if HasRmaCode(n) then [(period, RmaCodes[n])] else [])
  }

  /** `ensure_reading_difficulty_plans`. */
  method EnsureReadingDifficultyPlans(t: Table<(string, string), DifficultyPlan>, period: string, nums: seq<int>)
    modifies t
    ensures t.rows == Added(old(t.rows), PlanKey, PlanKeys(period, nums), NewPlan)
  {
    ghost var start := t.rows;
    var i := 0;
    while i < |nums|
      invariant 0 <= i <= |nums|
      invariant t.rows == Added(start, PlanKey, PlanKeys(period, nums[..i]), NewPlan)
    {
      assert nums[..i + 1][..i] == nums[..i];
      var n := nums[i];
      if HasRmaCode(n) {
        var k := (period, RmaCodes[n]);
        assert PlanKeys(period, nums[..i + 1]) == PlanKeys(period, nums[..i]) + [k];
        assert (PlanKeys(period, nums[..i]) + [k])[..|PlanKeys(period, nums[..i])|] == PlanKeys(period, nums[..i]);
        t.GetOrCreate(PlanKey, k, NewPlan);
      } else {
        assert PlanKeys(period, nums[..i + 1]) == PlanKeys(period, nums[..i]);
      }
      i := i + 1;
    }
    assert nums[..i] == nums;
  }

  // ---------------------------------------------------------------------
  // Senior high strand defaults

  /** The strand label of the first strand whose prefix the subject code
      starts with, if any. */
  function StrandOfSubject(code: string, strands: seq<Strand>): (r: Option<string>)
    ensures r.Some? ==> exists i :: 0 <= i < |strands| && strands[i].name == r.value && IsPrefix(strands[i].prefix, code)
    ensures r.None? ==> forall i :: 0 <= i < |strands| ==> !IsPrefix(strands[i].prefix, code)
    decreases |strands|
  {
    if strands == [] then None
    else if IsPrefix(strands[0].prefix, code) then Some(strands[0].name)
    else
      var r := StrandOfSubject(code, strands[1..]);
      assert forall i :: 1 <= i < |strands| ==> strands[1..][i - 1] == strands[i];
      r
  }

  predicate IsPrefix(p: string, s: string)
  {
    |p| <= |s| && s[..|p|] == p
  }

  /** No enrolment and no learner in any band. */
  predicate IsEmptyRow(r: SlpRow)
  {
    r.enrolment == 0 && BandSum(r) == 0
  }

  /** Whether the strand default turns this row off: a Grade 11 or 12 row
      of a strand the school does not list, still offered and still empty. */
  predicate TurnsOff(r: SlpRow, offered: set<string>)
  {
    (r.gradeLabel == "Grade 11" || r.gradeLabel == "Grade 12") &&
    match StrandOfSubject(r.subject, ShsStrands)
    case None => false
    case Some(lab) => lab !in offered && r.isOffered && IsEmptyRow(r)
  }

  /** The default only ever switches an empty row off: the key, the counts
      and the narrative fields are untouched, a row with any data, already
      off, or of a listed strand is never changed, and applying it twice is
      applying it once. */
  function StrandDefault(r: SlpRow, offered: set<string>): (d: SlpRow)
    ensures d != r <==> TurnsOff(r, offered)
    ensures SlpPair(d) == SlpPair(r) && BandSum(d) == BandSum(r)
    ensures d.(isOffered := r.isOffered, enrolment := r.enrolment) == r
    ensures !IsEmptyRow(r) || !r.isOffered ==> d == r
    ensures (match StrandOfSubject(r.subject, ShsStrands)
             case None => true
             case Some(lab) => lab in offered) ==> d == r
    ensures d != r ==> !d.isOffered && IsEmptyRow(d)
    ensures !TurnsOff(d, offered)
  {
    if TurnsOff(r, offered) then r.(isOffered := false, enrolment := 0) else r
  }

  /** `_apply_shs_strand_defaults`: turns off the empty rows of the strands
      the school does not offer.  The set of offered strand labels comes
      from the school profile (empty when it has none). */
  method ApplyShsStrandDefaults(t: Table<(string, string), SlpRow>, offered: set<string>)
    modifies t
    ensures |t.rows| == |old(t.rows)|
    ensures forall i :: 0 <= i < |t.rows| ==> t.rows[i] == StrandDefault(old(t.rows)[i], offered)
  {
    var rows := t.rows;
    var i := 0;
    while i < |rows|
      invariant 0 <= i <= |rows| && |rows| == |t.rows| && t.rows == old(t.rows)
      invariant forall j :: 0 <= j < i ==> rows[j] == StrandDefault(t.rows[j], offered)
      invariant forall j :: i <= j < |rows| ==> rows[j] == t.rows[j]
    {
      var d := DefaultOne(rows[i], offered);
      rows := rows[i := d];
      i := i + 1;
    }
    t.rows := rows;
  }

  /** The body of the loop of `_apply_shs_strand_defaults` for one row. */
  method DefaultOne(r: SlpRow, offered: set<string>) returns (d: SlpRow)
    ensures d == StrandDefault(r, offered)
  {
    d := r;
    if TurnsOff(r, offered) {
      d := r.(isOffered := false, enrolment := 0);
    }
  }
}
