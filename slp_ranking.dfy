// The two SLP rankings shown beside a submission: the per-subject Top 5
// grades by a band count (`build_slp_top_summary`) and the per-subject focus
// grade with the highest share of learners who did not meet expectations
// (`build_slp_dnme_recommendations`).
//
// Both first turn each offered row into a record carrying the grade number
// `_order` used for ordering; the grouping and choosing work on those
// records only, and `_order` is dropped from what is returned.
module SlpRanking {
  import opened Wrappers
  import opened GradeSpans
  import opened Sorting
  import opened ServerRows
  import Lists

  // ---------------------------------------------------------------------
  // Percentages

  /** `round((value / enrolment) * 100, 1)` in tenths of a percent, rounded
      half to even on the exact ratio; 0 without enrolment. */
  function PctTenths(value: nat, enrolment: nat): (t: nat)
    ensures enrolment == 0 ==> t == 0
    ensures enrolment > 0 ==> -(enrolment as int) <= 2 * (1000 * value - t * enrolment) <= enrolment
  {
    if enrolment == 0 then 0
    else
      var n := 1000 * value;
      var q := n / enrolment;
      var rem := n % enrolment;
      assert n == q * enrolment + rem;
      assert (q + 1) * enrolment == q * enrolment + enrolment;
      if 2 * rem > enrolment then q + 1
      else if 2 * rem < enrolment then q
      else if q % 2 == 0 then q else q + 1
  }

  // ---------------------------------------------------------------------
  // Keyed lists (Python dicts, in insertion order)

  predicate DistinctKeys<V>(g: seq<(string, V)>)
  {
    forall i, j :: 0 <= i < j < |g| ==> g[i].0 != g[j].0
  }

  /** The position of key in g, if it is there. */
  function KeyIndex<V>(g: seq<(string, V)>, key: string): (r: Option<nat>)
    ensures r.Some? ==> r.value < |g| && g[r.value].0 == key
    ensures r.None? ==> forall k :: 0 <= k < |g| ==> g[k].0 != key
  {
    KeyFrom(g, key, 0)
  }

  function KeyFrom<V>(g: seq<(string, V)>, key: string, k: nat): (r: Option<nat>)
    requires k <= |g|
    ensures r.Some? ==> k <= r.value < |g| && g[r.value].0 == key
    ensures r.None? ==> forall i :: k <= i < |g| ==> g[i].0 != key
    decreases |g| - k
  {
    if k == |g| then None else if g[k].0 == key then Some(k) else KeyFrom(g, key, k + 1)
  }

  function KeysOf<V>(g: seq<(string, V)>): (r: seq<string>)
    ensures |r| == |g| && forall i :: 0 <= i < |g| ==> r[i] == g[i].0
    decreases |g|
  {
    if g == [] then [] else KeysOf(g[..|g| - 1]) + [g[|g| - 1].0]
  }

  // ---------------------------------------------------------------------
  // Grouping in order of first appearance (`setdefault(key, []).append(v)`)

  function AddTo<V>(g: seq<(string, seq<V>)>, key: string, v: V): seq<(string, seq<V>)>
  {
    match KeyIndex(g, key)
    case Some(k) => g[k := (key, g[k].1 + [v])]
    case None => g + [(key, [v])]
  }

  function GroupBy<V>(ps: seq<(string, V)>): seq<(string, seq<V>)>
    decreases |ps|
  {
    if ps == [] then [] else AddTo(GroupBy(ps[..|ps| - 1]), ps[|ps| - 1].0, ps[|ps| - 1].1)
  }

  /** The values paired with key, in order. */
  function ValuesOf<V>(ps: seq<(string, V)>, key: string): seq<V>
    decreases |ps|
  {
    if ps == [] then []
    else ValuesOf(ps[..|ps| - 1], key) + (if ps[|ps| - 1].0 == key then [ps[|ps| - 1].1] else [])
  }

  /** g groups ps: one group per key, holding that key's values in order. */
  ghost predicate GroupsOf<V>(ps: seq<(string, V)>, g: seq<(string, seq<V>)>)
  {
    DistinctKeys(g) &&
    (forall k :: 0 <= k < |g| ==> g[k].1 == ValuesOf(ps, g[k].0)) &&
    (forall s :: ValuesOf(ps, s) != [] <==> exists k :: 0 <= k < |g| && g[k].0 == s)
  }

  lemma ValuesOfSnoc<V>(ps: seq<(string, V)>, key: string, v: V)
    ensures forall s :: ValuesOf(ps + [(key, v)], s) == ValuesOf(ps, s) + (if s == key then [v] else [])
  {
    var ps' := ps + [(key, v)];
    assert ps'[..|ps'| - 1] == ps;
  }

  /** Appending to an existing group. */
  lemma AddToExisting<V>(ps: seq<(string, V)>, g: seq<(string, seq<V>)>, key: string, v: V, k0: nat)
    requires GroupsOf(ps, g) && k0 < |g| && g[k0].0 == key
    ensures GroupsOf(ps + [(key, v)], g[k0 := (key, g[k0].1 + [v])])
  {
    ValuesOfSnoc(ps, key, v);
    var ps' := ps + [(key, v)];
    var g' := g[k0 := (key, g[k0].1 + [v])];
    assert forall k :: 0 <= k < |g'| ==> g'[k].0 == g[k].0;
    forall s | ValuesOf(ps', s) != [] ensures exists k :: 0 <= k < |g'| && g'[k].0 == s {
      if s == key {
        assert g'[k0].0 == s;
      } else {
        var k :| 0 <= k < |g| && g[k].0 == s;
        assert g'[k].0 == s;
      }
    }
    forall s | exists k :: 0 <= k < |g'| && g'[k].0 == s ensures ValuesOf(ps', s) != [] {
      var k :| 0 <= k < |g'| && g'[k].0 == s;
      assert g[k].0 == s;
    }
  }

  /** Opening a group for a new key. */
  lemma AddToNew<V>(ps: seq<(string, V)>, g: seq<(string, seq<V>)>, key: string, v: V)
    requires GroupsOf(ps, g) && forall k :: 0 <= k < |g| ==> g[k].0 != key
    ensures GroupsOf(ps + [(key, v)], g + [(key, [v])])
  {
    ValuesOfSnoc(ps, key, v);
    var ps' := ps + [(key, v)];
    var g' := g + [(key, [v])];
    assert ValuesOf(ps, key) == [];
    forall s | ValuesOf(ps', s) != [] ensures exists k :: 0 <= k < |g'| && g'[k].0 == s {
      if s == key {
        assert g'[|g|].0 == s;
      } else {
        var k :| 0 <= k < |g| && g[k].0 == s;
        assert g'[k].0 == s;
      }
    }
    forall s | exists k :: 0 <= k < |g'| && g'[k].0 == s ensures ValuesOf(ps', s) != [] {
      var k :| 0 <= k < |g'| && g'[k].0 == s;
      if k < |g| {
        assert g[k].0 == s;
      }
    }
  }

  lemma AddToStep<V>(ps: seq<(string, V)>, g: seq<(string, seq<V>)>, key: string, v: V)
    requires GroupsOf(ps, g)
    ensures GroupsOf(ps + [(key, v)], AddTo(g, key, v))
  {
    match KeyIndex(g, key)
    case Some(k0) => AddToExisting(ps, g, key, v, k0);
    case None => AddToNew(ps, g, key, v);
  }

  lemma GroupBySnoc<V>(ps: seq<(string, V)>, key: string, v: V)
    ensures GroupBy(ps + [(key, v)]) == AddTo(GroupBy(ps), key, v)
  {
    assert (ps + [(key, v)])[..|ps|] == ps;
  }

  lemma {:induction false} GroupByMeaning<V>(ps: seq<(string, V)>)
    ensures GroupsOf(ps, GroupBy(ps))
    decreases |ps|
  {
    if ps != [] {
      var init := ps[..|ps| - 1];
      GroupByMeaning(init);
      AddToStep(init, GroupBy(init), ps[|ps| - 1].0, ps[|ps| - 1].1);
      assert init + [(ps[|ps| - 1].0, ps[|ps| - 1].1)] == ps;
    }
  }

  /** A group holds at least one value. */
  lemma GroupNonEmpty<V>(ps: seq<(string, V)>, g: seq<(string, seq<V>)>, k: int)
    requires GroupsOf(ps, g) && 0 <= k < |g|
    ensures g[k].1 != []
  {
    var s := g[k].0;
    assert g[k].1 == ValuesOf(ps, s);
    assert exists m :: 0 <= m < |g| && g[m].0 == s;
  }

  // ---------------------------------------------------------------------
  // Top 5 per subject

  /** An entry of a subject's list, with its `_order` grade number. */
  datatype SummaryEntry = SummaryEntry(grade: string, count: nat, enrolment: nat, pct: nat, order: int)

  /** An entry as returned, without `_order`; pct is in tenths of a percent. */
  datatype ShownEntry = ShownEntry(grade: string, count: nat, enrolment: nat, pct: nat)

  function Shown(e: SummaryEntry): ShownEntry
  {
    ShownEntry(e.grade, e.count, e.enrolment, e.pct)
  }

  function EntryOf(r: SlpRow, band: Band): SummaryEntry
  {
    var v := BandValue(r, band);
    var grade := DisplayGradeLabel(r.gradeLabel);
    SummaryEntry(grade, v, r.enrolment, PctTenths(v, r.enrolment), GradeNumberForLabel(grade))
  }

  /** An offered row under its shown subject. */
  function PairOf(labels: map<string, string>, band: Band): SlpRow -> (string, SummaryEntry)
  {
    (r: SlpRow) => (SubjectDisplay(labels, r.subject), EntryOf(r, band))
  }

  /** The offered rows as (shown subject, entry) pairs, in row order. */
  function Tagged(labels: map<string, string>, rows: seq<SlpRow>, band: Band): seq<(string, SummaryEntry)>
  {
    MapOffered(rows, PairOf(labels, band))
  }

  /** `sort(key=count, reverse=True)`: counts from high to low. */
  function ByCountDown(): (le: (SummaryEntry, SummaryEntry) -> bool)
    ensures TotalPreorder(le)
    ensures forall a, b :: le(a, b) <==> a.count >= b.count
  {
    (a: SummaryEntry, b: SummaryEntry) => a.count >= b.count
  }

  /** `sort(key=_order)`: grades from low to high. */
  function ByGrade(): (le: (SummaryEntry, SummaryEntry) -> bool)
    ensures TotalPreorder(le)
    ensures forall a, b :: le(a, b) <==> a.order <= b.order
  {
    (a: SummaryEntry, b: SummaryEntry) => a.order <= b.order
  }

  /** `entries[:5]` after `entries.sort(key=count, reverse=True)`. */
  function TopByCount(es: seq<SummaryEntry>): seq<SummaryEntry>
  {
    var byCount := SortBy(es, ByCountDown());
    if |byCount| <= 5 then byCount else byCount[..5]
  }

  /** The Top 5, ordered by grade when asked. */
  function Top5(es: seq<SummaryEntry>, sortTopByGrade: bool): seq<SummaryEntry>
  {
    var top := TopByCount(es);
    if sortTopByGrade then SortBy(top, ByGrade()) else top
  }

  /** In a sorted list every element of a prefix precedes every element
      after it. */
  lemma PrefixFirst<T>(xs: seq<T>, le: (T, T) -> bool, n: nat)
    requires SortedBy(xs, le) && n <= |xs|
    ensures multiset(xs) == multiset(xs[..n]) + multiset(xs[n..])
    ensures forall x, y :: x in multiset(xs[..n]) && y in multiset(xs[n..]) ==> le(x, y)
  {
    assert xs == xs[..n] + xs[n..];
    forall x, y | x in multiset(xs[..n]) && y in multiset(xs[n..]) ensures le(x, y) {
      assert x in xs[..n] && y in xs[n..];
      var i :| 0 <= i < n && xs[..n][i] == x;
      var j :| 0 <= j < |xs| - n && xs[n..][j] == y;
      assert xs[i] == x && xs[n + j] == y;
    }
  }

  /** The first five by count: min(5, n) entries, none with a lower count
      than an entry left out. */
  lemma TopByCountMeaning(es: seq<SummaryEntry>)
    ensures |TopByCount(es)| == if |es| <= 5 then |es| else 5
    ensures multiset(TopByCount(es)) <= multiset(es)
    ensures forall x, y :: x in multiset(TopByCount(es)) && y in multiset(es) - multiset(TopByCount(es)) ==>
      x.count >= y.count
  {
    var le := ByCountDown();
    var byCount := SortBy(es, le);
    SortSorted(es, le);
    var n := if |byCount| <= 5 then |byCount| else 5;
    PrefixFirst(byCount, le, n);
    assert TopByCount(es) == byCount[..n];
  }

  /** The Top 5 keeps min(5, n) of a subject's n entries, never one with a
      lower count than an entry it drops, and lists them by grade. */
  lemma Top5Meaning(es: seq<SummaryEntry>, sortTopByGrade: bool)
    ensures |Top5(es, sortTopByGrade)| == if |es| <= 5 then |es| else 5
    ensures multiset(Top5(es, sortTopByGrade)) <= multiset(es)
    ensures forall x, y :: x in multiset(Top5(es, sortTopByGrade)) && y in multiset(es) - multiset(Top5(es, sortTopByGrade)) ==>
      x.count >= y.count
    ensures sortTopByGrade ==> SortedBy(Top5(es, sortTopByGrade), ByGrade())
  {
    TopByCountMeaning(es);
    var top := TopByCount(es);
    assert multiset(Top5(es, sortTopByGrade)) == multiset(top);
    if sortTopByGrade {
      SortSorted(top, ByGrade());
    }
  }

  /** `min((e["_order"] for e in top5), default=999)`. */
  function MinOrder(es: seq<SummaryEntry>): (m: int)
    ensures es == [] ==> m == UnknownGrade
    ensures es != [] ==> (exists i :: 0 <= i < |es| && es[i].order == m) && forall i :: 0 <= i < |es| ==> m <= es[i].order
    decreases |es|
  {
    if es == [] then UnknownGrade
    else if |es| == 1 then es[0].order
    else
      var m := MinOrder(es[1..]);
      assert forall i :: 1 <= i < |es| ==> es[i] == es[1..][i - 1];
      if es[0].order <= m then es[0].order else m
  }

  /** A subject's ordering key, name and Top 5. */
  type Keyed = (int, string, seq<SummaryEntry>)

  /** `(min_order, subject) <= (min_order', subject')`. */
  predicate KeyedLe(a: Keyed, b: Keyed)
  {
    a.0 < b.0 || (a.0 == b.0 && StrLe(a.1, b.1))
  }

  function BySubjectKey(): (le: (Keyed, Keyed) -> bool)
    ensures TotalPreorder(le)
    ensures forall a, b :: le(a, b) <==> KeyedLe(a, b)
  {
    forall a: Keyed, b: Keyed ensures KeyedLe(a, b) || KeyedLe(b, a) { StrLeTotal(a.1, b.1); }
    forall a: Keyed, b: Keyed, c: Keyed | KeyedLe(a, b) && KeyedLe(b, c) ensures KeyedLe(a, c) {
      if a.0 == b.0 && b.0 == c.0 {
        StrLeTrans(a.1, b.1, c.1);
      }
    }
    (a: Keyed, b: Keyed) => KeyedLe(a, b)
  }

  function KeyedOf(group: (string, seq<SummaryEntry>), sortTopByGrade: bool): Keyed
  {
    var top5 := Top5(group.1, sortTopByGrade);
    (MinOrder(top5), group.0, top5)
  }

  /** The second loop: each group with its ordering key. */
  function KeyedGroups(g: seq<(string, seq<SummaryEntry>)>, sortTopByGrade: bool): seq<Keyed>
  {
    Lists.MapAll(g, (group: (string, seq<SummaryEntry>)) => KeyedOf(group, sortTopByGrade))
  }

  /** Drops the ordering key and `_order`. */
  function ShownGroup(k: Keyed): (string, seq<ShownEntry>)
  {
    (k.1, seq(|k.2|, i requires 0 <= i < |k.2| => Shown(k.2[i])))
  }

  /** The closing dict comprehension. */
  function Unkeyed(ks: seq<Keyed>): (r: seq<(string, seq<ShownEntry>)>)
    ensures |r| == |ks| && forall i :: 0 <= i < |ks| ==> r[i] == ShownGroup(ks[i])
    decreases |ks|
  {
    if ks == [] then [] else Unkeyed(ks[..|ks| - 1]) + [ShownGroup(ks[|ks| - 1])]
  }

  /** Groups sorted by their key. */
  function SortedGroups(ps: seq<(string, SummaryEntry)>, sortTopByGrade: bool): seq<Keyed>
  {
    SortBy(KeyedGroups(GroupBy(ps), sortTopByGrade), BySubjectKey())
  }

  /** `build_slp_top_summary(slp_rows, field, sort_top_by_grade)`. */
  function TopSummary(labels: map<string, string>, rows: seq<SlpRow>, band: Band, sortTopByGrade: bool)
    : seq<(string, seq<ShownEntry>)>
  {
    Unkeyed(SortedGroups(Tagged(labels, rows, band), sortTopByGrade))
  }

  /** The keyed group at position m is its subject's keyed values. */
  lemma KeyedAt(ps: seq<(string, SummaryEntry)>, g: seq<(string, seq<SummaryEntry>)>, sortTopByGrade: bool, m: int)
    requires GroupsOf(ps, g) && 0 <= m < |g|
    ensures KeyedGroups(g, sortTopByGrade)[m].1 == g[m].0
    ensures KeyedGroups(g, sortTopByGrade)[m] == KeyedOf((g[m].0, ValuesOf(ps, g[m].0)), sortTopByGrade)
    ensures ValuesOf(ps, g[m].0) != []
  {
    GroupNonEmpty(ps, g, m);
    assert g[m] == (g[m].0, ValuesOf(ps, g[m].0));
  }

  /** The sorted list holds each subject's keyed group, and nothing else. */
  lemma SortedGroupsCover(ps: seq<(string, SummaryEntry)>, sortTopByGrade: bool)
    ensures forall k :: 0 <= k < |SortedGroups(ps, sortTopByGrade)| ==>
      SortedGroups(ps, sortTopByGrade)[k] == KeyedOf((SortedGroups(ps, sortTopByGrade)[k].1, ValuesOf(ps, SortedGroups(ps, sortTopByGrade)[k].1)), sortTopByGrade) &&
      ValuesOf(ps, SortedGroups(ps, sortTopByGrade)[k].1) != []
    ensures forall s :: ValuesOf(ps, s) != [] ==>
      exists k :: 0 <= k < |SortedGroups(ps, sortTopByGrade)| && SortedGroups(ps, sortTopByGrade)[k].1 == s
  {
    var g := GroupBy(ps);
    GroupByMeaning(ps);
    var kg := KeyedGroups(g, sortTopByGrade);
    var sorted := SortedGroups(ps, sortTopByGrade);
    assert multiset(kg) == multiset(sorted);
    forall k | 0 <= k < |sorted|
      ensures sorted[k] == KeyedOf((sorted[k].1, ValuesOf(ps, sorted[k].1)), sortTopByGrade) && ValuesOf(ps, sorted[k].1) != []
    {
      PermutationIndex(kg, sorted, k);
      var m :| 0 <= m < |kg| && kg[m] == sorted[k];
      KeyedAt(ps, g, sortTopByGrade, m);
    }
    forall s | ValuesOf(ps, s) != [] ensures exists k :: 0 <= k < |sorted| && sorted[k].1 == s {
      var m :| 0 <= m < |g| && g[m].0 == s;
      KeyedAt(ps, g, sortTopByGrade, m);
      PermutationIndex(sorted, kg, m);
      var k :| 0 <= k < |sorted| && sorted[k] == kg[m];
    }
  }

  /** Subject names are not repeated in the sorted list. */
  lemma SortedGroupsDistinct(ps: seq<(string, SummaryEntry)>, sortTopByGrade: bool)
    ensures forall i, j :: 0 <= i < j < |SortedGroups(ps, sortTopByGrade)| ==>
      SortedGroups(ps, sortTopByGrade)[i].1 != SortedGroups(ps, sortTopByGrade)[j].1
  {
    var g := GroupBy(ps);
    GroupByMeaning(ps);
    var kg := KeyedGroups(g, sortTopByGrade);
    var sorted := SortedGroups(ps, sortTopByGrade);
    assert forall i, j :: 0 <= i < j < |kg| ==> kg[i] != kg[j] by {
      forall i, j | 0 <= i < j < |kg| ensures kg[i] != kg[j] {
        assert kg[i].1 == g[i].0 && kg[j].1 == g[j].0;
      }
    }
    DistinctPermutation(kg, sorted);
    SortedGroupsCover(ps, sortTopByGrade);
  }

  /** The summary has one list per shown subject, holding that subject's
      Top 5; subjects are ordered by the lowest grade of their Top 5 and
      then by name. */
  lemma TopSummaryMeaning(ps: seq<(string, SummaryEntry)>, sortTopByGrade: bool)
    ensures forall i, j :: 0 <= i < j < |SortedGroups(ps, sortTopByGrade)| ==>
      SortedGroups(ps, sortTopByGrade)[i].1 != SortedGroups(ps, sortTopByGrade)[j].1 &&
      KeyedLe(SortedGroups(ps, sortTopByGrade)[i], SortedGroups(ps, sortTopByGrade)[j])
    ensures forall k :: 0 <= k < |SortedGroups(ps, sortTopByGrade)| ==>
      SortedGroups(ps, sortTopByGrade)[k].2 == Top5(ValuesOf(ps, SortedGroups(ps, sortTopByGrade)[k].1), sortTopByGrade) &&
      SortedGroups(ps, sortTopByGrade)[k].0 == MinOrder(SortedGroups(ps, sortTopByGrade)[k].2)
    ensures forall s :: ValuesOf(ps, s) != [] <==>
      exists k :: 0 <= k < |SortedGroups(ps, sortTopByGrade)| && SortedGroups(ps, sortTopByGrade)[k].1 == s
  {
    SortSorted(KeyedGroups(GroupBy(ps), sortTopByGrade), BySubjectKey());
    SortedGroupsCover(ps, sortTopByGrade);
    SortedGroupsDistinct(ps, sortTopByGrade);
  }

  /** The first loop of `build_slp_top_summary`: `setdefault` per subject. */
  method GroupRows(labels: map<string, string>, rows: seq<SlpRow>, band: Band)
    returns (groups: seq<(string, seq<SummaryEntry>)>)
    ensures groups == GroupBy(Tagged(labels, rows, band))
  {
    groups := [];
    var i := 0;
    while i < |rows|
      invariant 0 <= i <= |rows|
      invariant groups == GroupBy(Tagged(labels, rows[..i], band))
    {
      var r := rows[i];
      ghost var ps := Tagged(labels, rows[..i], band);
      MapOfferedSnoc(rows, PairOf(labels, band), i);
      if r.isOffered {
        var subject := SubjectDisplay(labels, r.subject);
        var entry := EntryOf(r, band);
        GroupBySnoc(ps, subject, entry);
        groups := AddTo(groups, subject, entry);
      } else {
        assert ps + [] == ps;
      }
      i := i + 1;
    }
    assert rows[..i] == rows;
  }

  /** The body of the second loop: one subject's Top 5 and its lowest grade. */
  method KeyOne(group: (string, seq<SummaryEntry>), sortTopByGrade: bool) returns (keyed: Keyed)
    ensures keyed == KeyedOf(group, sortTopByGrade)
  {
    var top5 := Top5(group.1, sortTopByGrade);
    keyed := (MinOrder(top5), group.0, top5);
  }

  /** The second loop: the Top 5 and its lowest grade, per subject. */
  method KeyAll(groups: seq<(string, seq<SummaryEntry>)>, sortTopByGrade: bool) returns (ordered: seq<Keyed>)
    ensures ordered == KeyedGroups(groups, sortTopByGrade)
  {
    ordered := [];
    var k := 0;
    while k < |groups|
      invariant 0 <= k <= |groups|
      invariant ordered == KeyedGroups(groups[..k], sortTopByGrade)
    {
      Lists.MapAllSnoc(groups, (group: (string, seq<SummaryEntry>)) => KeyedOf(group, sortTopByGrade), k);
      var keyed := KeyOne(groups[k], sortTopByGrade);
      ordered := ordered + [keyed];
      k := k + 1;
    }
    assert groups[..k] == groups;
  }

  /** The closing comprehension over the sorted subjects. */
  method ShowAll(ordered: seq<Keyed>) returns (summary: seq<(string, seq<ShownEntry>)>)
    ensures summary == Unkeyed(ordered)
  {
    summary := [];
    var m := 0;
    while m < |ordered|
      invariant 0 <= m <= |ordered|
      invariant summary == Unkeyed(ordered[..m])
    {
      assert ordered[..m + 1][..m] == ordered[..m];
      summary := summary + [ShownGroup(ordered[m])];
      m := m + 1;
    }
    assert ordered[..m] == ordered;
  }

  /** `build_slp_top_summary`, proved to compute TopSummary. */
  method BuildTopSummary(labels: map<string, string>, rows: seq<SlpRow>, band: Band, sortTopByGrade: bool)
    returns (summary: seq<(string, seq<ShownEntry>)>)
    ensures summary == TopSummary(labels, rows, band, sortTopByGrade)
  {
    var groups := GroupRows(labels, rows, band);
    var ordered := KeyAll(groups, sortTopByGrade);
    ordered := SortBy(ordered, BySubjectKey());
    summary := ShowAll(ordered);
  }

  // ---------------------------------------------------------------------
  // DNME recommendations

  /** A candidate focus grade of a subject, with its `_order`. */
  datatype Candidate = Candidate(subject: string, grade: string, count: nat, pct: nat, order: int)

  /** A recommendation as returned; pct is in tenths of a percent. */
  datatype Recommendation = Recommendation(subject: string, grade: string, count: nat, pct: nat)

  function Recommend(c: Candidate): Recommendation
  {
    Recommendation(c.subject, c.grade, c.count, c.pct)
  }

  function CandidateOf(labels: map<string, string>, r: SlpRow): Candidate
  {
    var grade := DisplayGradeLabel(r.gradeLabel);
    Candidate(SubjectDisplay(labels, r.subject), grade, r.dnme, PctTenths(r.dnme, r.enrolment), GradeNumberForLabel(grade))
  }

  function CandidateFn(labels: map<string, string>): SlpRow -> Candidate
  {
    (r: SlpRow) => CandidateOf(labels, r)
  }

  /** The offered rows' candidates, in row order. */
  function Candidates(labels: map<string, string>, rows: seq<SlpRow>): seq<Candidate>
  {
    MapOffered(rows, CandidateFn(labels))
  }

  /** `(pct, count, -_order)` of c is greater than that of cur. */
  predicate Beats(c: Candidate, cur: Candidate)
  {
    c.pct > cur.pct || (c.pct == cur.pct && (c.count > cur.count || (c.count == cur.count && c.order < cur.order)))
  }

  type Best = seq<(string, Candidate)>

  /** One step of the first loop: a subject's first candidate is kept, and a
      later one replaces it only when strictly greater. */
  function Offer(best: Best, c: Candidate): Best
  {
    match KeyIndex(best, c.subject)
    case None => best + [(c.subject, c)]
    case Some(k) => if Beats(c, best[k].1) then best[k := (c.subject, c)] else best
  }

  function BestOf(cs: seq<Candidate>): Best
    decreases |cs|
  {
    if cs == [] then [] else Offer(BestOf(cs[..|cs| - 1]), cs[|cs| - 1])
  }

  /** `[best[s] for s in names]`. */
  function PickAll(best: Best, names: seq<string>): seq<Candidate>
    decreases |names|
  {
    if names == [] then []
    else
      var init := PickAll(best, names[..|names| - 1]);
      match KeyIndex(best, names[|names| - 1])
      case Some(k) => init + [best[k].1]
      case None => init
  }

  /** `build_slp_dnme_recommendations`. */
  function Recommendations(labels: map<string, string>, rows: seq<SlpRow>): seq<Recommendation>
  {
    var chosen := Chosen(Candidates(labels, rows));
    seq(|chosen|, i requires 0 <= i < |chosen| => Recommend(chosen[i]))
  }

  /** cs[k] is the first candidate of its subject with the greatest key:
      earlier candidates of the subject are beaten by it and no later one
      beats it. */
  ghost predicate FirstBestAt(cs: seq<Candidate>, k: int)
  {
    0 <= k < |cs| &&
    (forall j :: 0 <= j < k && cs[j].subject == cs[k].subject ==> Beats(cs[k], cs[j])) &&
    (forall j :: k < j < |cs| && cs[j].subject == cs[k].subject ==> !Beats(cs[j], cs[k]))
  }

  ghost predicate FirstBest(cs: seq<Candidate>, c: Candidate)
  {
    exists k :: FirstBestAt(cs, k) && cs[k] == c
  }

  ghost predicate HasSubject(cs: seq<Candidate>, s: string)
  {
    exists j :: 0 <= j < |cs| && cs[j].subject == s
  }

  /** best holds, per subject of cs, that subject's first greatest candidate. */
  ghost predicate ChoosesBest(cs: seq<Candidate>, best: Best)
  {
    DistinctKeys(best) &&
    (forall k :: 0 <= k < |best| ==> best[k].1.subject == best[k].0 && FirstBest(cs, best[k].1)) &&
    (forall s :: HasSubject(cs, s) <==> exists k :: 0 <= k < |best| && best[k].0 == s)
  }

  /** A later candidate of another subject keeps a choice. */
  lemma OtherSubjectKeeps(cs: seq<Candidate>, c: Candidate, x: Candidate)
    requires FirstBest(cs, x) && c.subject != x.subject
    ensures FirstBest(cs + [c], x)
  {
    var k :| FirstBestAt(cs, k) && cs[k] == x;
    assert FirstBestAt(cs + [c], k);
  }

  /** A later candidate that does not beat the choice keeps it. */
  lemma WeakerKeeps(cs: seq<Candidate>, c: Candidate, x: Candidate)
    requires FirstBest(cs, x) && c.subject == x.subject && !Beats(c, x)
    ensures FirstBest(cs + [c], x)
  {
    var k :| FirstBestAt(cs, k) && cs[k] == x;
    assert FirstBestAt(cs + [c], k);
  }

  /** A later candidate that beats the choice becomes the choice. */
  lemma StrongerWins(cs: seq<Candidate>, c: Candidate, x: Candidate)
    requires FirstBest(cs, x) && c.subject == x.subject && Beats(c, x)
    ensures FirstBest(cs + [c], c)
  {
    var k :| FirstBestAt(cs, k) && cs[k] == x;
    var cs' := cs + [c];
    forall j | 0 <= j < |cs| && cs'[j].subject == c.subject ensures Beats(c, cs'[j]) {
      assert cs'[j] == cs[j];
    }
    assert FirstBestAt(cs', |cs|);
  }

  /** A first candidate of a new subject is its choice. */
  lemma NewSubjectWins(cs: seq<Candidate>, c: Candidate)
    requires !HasSubject(cs, c.subject)
    ensures FirstBest(cs + [c], c)
  {
    assert FirstBestAt(cs + [c], |cs|);
  }

  lemma HasSubjectSnoc(cs: seq<Candidate>, c: Candidate)
    ensures forall s :: HasSubject(cs + [c], s) <==> HasSubject(cs, s) || s == c.subject
  {
    var cs' := cs + [c];
    forall s | HasSubject(cs', s) && s != c.subject ensures HasSubject(cs, s) {
      var j :| 0 <= j < |cs'| && cs'[j].subject == s;
      assert cs[j].subject == s;
    }
    forall s | HasSubject(cs, s) ensures HasSubject(cs', s) {
      var j :| 0 <= j < |cs| && cs[j].subject == s;
      assert cs'[j].subject == s;
    }
    assert cs'[|cs|].subject == c.subject;
  }

  /** The first candidate of a subject is kept. */
  lemma OfferNew(cs: seq<Candidate>, best: Best, c: Candidate)
    requires ChoosesBest(cs, best) && forall k :: 0 <= k < |best| ==> best[k].0 != c.subject
    ensures ChoosesBest(cs + [c], best + [(c.subject, c)])
  {
    var cs' := cs + [c];
    var b := best + [(c.subject, c)];
    HasSubjectSnoc(cs, c);
    assert !HasSubject(cs, c.subject);
    forall k | 0 <= k < |b| ensures b[k].1.subject == b[k].0 && FirstBest(cs', b[k].1) {
      if k < |best| {
        OtherSubjectKeeps(cs, c, b[k].1);
      } else {
        NewSubjectWins(cs, c);
      }
    }
    forall s | HasSubject(cs', s) ensures exists k :: 0 <= k < |b| && b[k].0 == s {
      if s == c.subject {
        assert b[|best|].0 == s;
      } else {
        var k :| 0 <= k < |best| && best[k].0 == s;
        assert b[k].0 == s;
      }
    }
    forall s | exists k :: 0 <= k < |b| && b[k].0 == s ensures HasSubject(cs', s) {
      var k :| 0 <= k < |b| && b[k].0 == s;
      if k < |best| {
        assert best[k].0 == s;
      }
    }
  }

  /** A later candidate of a subject already seen replaces the kept one
      only when it beats it. */
  lemma OfferExisting(cs: seq<Candidate>, best: Best, c: Candidate, k0: nat)
    requires ChoosesBest(cs, best) && k0 < |best| && best[k0].0 == c.subject
    ensures ChoosesBest(cs + [c], if Beats(c, best[k0].1) then best[k0 := (c.subject, c)] else best)
  {
    var cs' := cs + [c];
    var b := if Beats(c, best[k0].1) then best[k0 := (c.subject, c)] else best;
    HasSubjectSnoc(cs, c);
    assert forall k :: 0 <= k < |b| ==> b[k].0 == best[k].0;
    forall k | 0 <= k < |b| ensures b[k].1.subject == b[k].0 && FirstBest(cs', b[k].1) {
      if k != k0 {
        assert b[k] == best[k];
        OtherSubjectKeeps(cs, c, b[k].1);
      } else if Beats(c, best[k0].1) {
        StrongerWins(cs, c, best[k0].1);
      } else {
        WeakerKeeps(cs, c, best[k0].1);
      }
    }
    forall s | HasSubject(cs', s) ensures exists k :: 0 <= k < |b| && b[k].0 == s {
      if s == c.subject {
        assert b[k0].0 == s;
      } else {
        var k :| 0 <= k < |best| && best[k].0 == s;
        assert b[k].0 == s;
      }
    }
    forall s | exists k :: 0 <= k < |b| && b[k].0 == s ensures HasSubject(cs', s) {
      var k :| 0 <= k < |b| && b[k].0 == s;
      assert best[k].0 == s;
    }
  }

  lemma OfferStep(cs: seq<Candidate>, best: Best, c: Candidate)
    requires ChoosesBest(cs, best)
    ensures ChoosesBest(cs + [c], Offer(best, c))
  {
    match KeyIndex(best, c.subject)
    case None => OfferNew(cs, best, c);
    case Some(k0) => OfferExisting(cs, best, c, k0);
  }

  lemma OfferLast(cs: seq<Candidate>, best: Best)
    requires cs != [] && ChoosesBest(cs[..|cs| - 1], best)
    ensures ChoosesBest(cs, Offer(best, cs[|cs| - 1]))
  {
    OfferStep(cs[..|cs| - 1], best, cs[|cs| - 1]);
    assert cs[..|cs| - 1] + [cs[|cs| - 1]] == cs;
  }

  /** The first loop keeps, per subject, exactly its first greatest candidate. */
  lemma {:induction false} BestOfMeaning(cs: seq<Candidate>)
    ensures ChoosesBest(cs, BestOf(cs))
    decreases |cs|
  {
    if cs != [] {
      BestOfMeaning(cs[..|cs| - 1]);
      OfferLast(cs, BestOf(cs[..|cs| - 1]));
    }
  }

  /** Picking keys that are all present returns their values in order. */
  lemma {:induction false} PickAllMeaning(best: Best, names: seq<string>)
    requires forall i :: 0 <= i < |names| ==> KeyIndex(best, names[i]).Some?
    ensures |PickAll(best, names)| == |names|
    ensures forall i :: 0 <= i < |names| ==>
      exists k :: 0 <= k < |best| && best[k].0 == names[i] && PickAll(best, names)[i] == best[k].1
    decreases |names|
  {
    if names != [] {
      var init := names[..|names| - 1];
      assert forall i :: 0 <= i < |init| ==> init[i] == names[i];
      PickAllMeaning(best, init);
      var k := KeyIndex(best, names[|names| - 1]).value;
      var out := PickAll(best, names);
      assert out == PickAll(best, init) + [best[k].1];
      forall i | 0 <= i < |names|
        ensures exists k :: 0 <= k < |best| && best[k].0 == names[i] && out[i] == best[k].1
      {
        if i == |init| {
          assert best[k].0 == names[i] && out[i] == best[k].1;
        } else {
          assert out[i] == PickAll(best, init)[i];
        }
      }
    }
  }

  /** The subjects in sorted order, each with its first greatest candidate. */
  function Chosen(cs: seq<Candidate>): seq<Candidate>
  {
    var best := BestOf(cs);
    PickAll(best, SortBy(KeysOf(best), StrOrder()))
  }

  /** The keys of the choice are the subjects of the candidates, once each. */
  lemma KeysOfBest(cs: seq<Candidate>)
    ensures forall i, j :: 0 <= i < j < |KeysOf(BestOf(cs))| ==> KeysOf(BestOf(cs))[i] != KeysOf(BestOf(cs))[j]
    ensures forall s :: HasSubject(cs, s) <==> s in multiset(KeysOf(BestOf(cs)))
  {
    BestOfMeaning(cs);
    KeysOfSubjects(cs, BestOf(cs));
  }

  lemma KeysOfSubjects(cs: seq<Candidate>, best: Best)
    requires ChoosesBest(cs, best)
    ensures forall s :: HasSubject(cs, s) <==> s in multiset(KeysOf(best))
  {
    var keys := KeysOf(best);
    forall s ensures HasSubject(cs, s) <==> s in keys {
      if HasSubject(cs, s) {
        var k :| 0 <= k < |best| && best[k].0 == s;
        assert keys[k] == s;
      }
      if s in keys {
        var k :| 0 <= k < |keys| && keys[k] == s;
        assert best[k].0 == s;
      }
    }
  }

  /** Sorting the keys of the choice lists each subject once, in order. */
  lemma SortedNames(cs: seq<Candidate>)
    ensures forall i, j :: 0 <= i < j < |SortBy(KeysOf(BestOf(cs)), StrOrder())| ==>
      StrLe(SortBy(KeysOf(BestOf(cs)), StrOrder())[i], SortBy(KeysOf(BestOf(cs)), StrOrder())[j]) &&
      SortBy(KeysOf(BestOf(cs)), StrOrder())[i] != SortBy(KeysOf(BestOf(cs)), StrOrder())[j]
    ensures forall s :: HasSubject(cs, s) <==> s in SortBy(KeysOf(BestOf(cs)), StrOrder())
  {
    var keys := KeysOf(BestOf(cs));
    KeysOfBest(cs);
    SortedStringsStrict(keys);
    var names := SortBy(keys, StrOrder());
    assert forall s :: s in names <==> s in multiset(names);
  }

  /** Chosen lists one candidate per subject, in strictly increasing
      subject order, each the first greatest of its subject. */
  lemma ChosenMeaning(cs: seq<Candidate>)
    ensures forall i, j :: 0 <= i < j < |Chosen(cs)| ==>
      StrLe(Chosen(cs)[i].subject, Chosen(cs)[j].subject) && Chosen(cs)[i].subject != Chosen(cs)[j].subject
    ensures forall i :: 0 <= i < |Chosen(cs)| ==> FirstBest(cs, Chosen(cs)[i])
    ensures forall s :: HasSubject(cs, s) <==> exists i :: 0 <= i < |Chosen(cs)| && Chosen(cs)[i].subject == s
  {
    var best := BestOf(cs);
    BestOfMeaning(cs);
    var names := SortBy(KeysOf(best), StrOrder());
    SortedNames(cs);
    forall i | 0 <= i < |names| ensures KeyIndex(best, names[i]).Some? {
      assert HasSubject(cs, names[i]);
    }
    PickAllMeaning(best, names);
    var chosen := Chosen(cs);
    forall i | 0 <= i < |chosen| ensures chosen[i].subject == names[i] && FirstBest(cs, chosen[i]) {
      var k :| 0 <= k < |best| && best[k].0 == names[i] && chosen[i] == best[k].1;
    }
    forall s | HasSubject(cs, s) ensures exists i :: 0 <= i < |chosen| && chosen[i].subject == s {
      var i :| 0 <= i < |names| && names[i] == s;
    }
  }

  /** One recommendation per subject with an offered row, in strictly
      increasing subject order, each the first greatest candidate of its
      subject. */
  lemma RecommendationsMeaning(labels: map<string, string>, rows: seq<SlpRow>)
    ensures forall i, j :: 0 <= i < j < |Recommendations(labels, rows)| ==>
      StrLe(Recommendations(labels, rows)[i].subject, Recommendations(labels, rows)[j].subject) &&
      Recommendations(labels, rows)[i].subject != Recommendations(labels, rows)[j].subject
    ensures forall i :: 0 <= i < |Recommendations(labels, rows)| ==>
      exists c :: FirstBest(Candidates(labels, rows), c) && Recommendations(labels, rows)[i] == Recommend(c)
    ensures forall s :: HasSubject(Candidates(labels, rows), s) <==>
      exists i :: 0 <= i < |Recommendations(labels, rows)| && Recommendations(labels, rows)[i].subject == s
  {
    var cs := Candidates(labels, rows);
    ChosenMeaning(cs);
    var chosen := Chosen(cs);
    var out := Recommendations(labels, rows);
    assert |out| == |chosen| && forall i :: 0 <= i < |out| ==> out[i] == Recommend(chosen[i]);
    forall s | HasSubject(cs, s) ensures exists i :: 0 <= i < |out| && out[i].subject == s {
      var i :| 0 <= i < |chosen| && chosen[i].subject == s;
      assert out[i].subject == s;
    }
  }

  /** One more row of the first loop: an offered row offers its candidate,
      any other row leaves the choice as it is. */
  lemma BestOfSnoc(labels: map<string, string>, rows: seq<SlpRow>, i: int)
    requires 0 <= i < |rows|
    ensures BestOf(Candidates(labels, rows[..i + 1])) ==
      (if rows[i].isOffered then Offer(BestOf(Candidates(labels, rows[..i])), CandidateOf(labels, rows[i]))
       else BestOf(Candidates(labels, rows[..i])))
  {
    var cs := Candidates(labels, rows[..i]);
    MapOfferedSnoc(rows, CandidateFn(labels), i);
    if rows[i].isOffered {
      var c := CandidateOf(labels, rows[i]);
      assert (cs + [c])[..|cs|] == cs;
    } else {
      assert cs + [] == cs;
    }
  }

  /** The body of the first loop for one offered candidate. */
  method OfferOne(best: Best, c: Candidate) returns (next: Best)
    ensures next == Offer(best, c)
  {
    next := best;
    match KeyIndex(best, c.subject) {
      case None =>
        next := best + [(c.subject, c)];
      case Some(k) =>
        if Beats(c, best[k].1) {
          next := best[k := (c.subject, c)];
        }
    }
  }

  /** The first loop of `build_slp_dnme_recommendations`. */
  method ChooseBest(labels: map<string, string>, rows: seq<SlpRow>) returns (best: Best)
    ensures best == BestOf(Candidates(labels, rows))
  {
    best := [];
    var i := 0;
    while i < |rows|
      invariant 0 <= i <= |rows|
      invariant best == BestOf(Candidates(labels, rows[..i]))
    {
      var r := rows[i];
      BestOfSnoc(labels, rows, i);
      if r.isOffered {
        best := OfferOne(best, CandidateOf(labels, r));
      }
      i := i + 1;
    }
    assert rows[..i] == rows;
  }

  /** The second loop: the kept candidates by sorted subject, `_order`
      dropped. */
  method PickSorted(best: Best) returns (result: seq<Recommendation>)
    ensures |result| == |PickAll(best, SortBy(KeysOf(best), StrOrder()))|
    ensures forall j :: 0 <= j < |result| ==> result[j] == Recommend(PickAll(best, SortBy(KeysOf(best), StrOrder()))[j])
  {
    var names := SortBy(KeysOf(best), StrOrder());
    ghost var chosen: seq<Candidate> := [];
    result := [];
    var m := 0;
    while m < |names|
      invariant 0 <= m <= |names|
      invariant chosen == PickAll(best, names[..m])
      invariant |result| == |chosen| && forall j :: 0 <= j < |result| ==> result[j] == Recommend(chosen[j])
    {
      assert names[..m + 1][..m] == names[..m];
      match KeyIndex(best, names[m]) {
        case Some(k) =>
          chosen := chosen + [best[k].1];
          result := result + [Recommend(best[k].1)];
        case None =>
      }
      m := m + 1;
    }
    assert names[..m] == names;
  }

  /** `build_slp_dnme_recommendations`, proved to compute Recommendations. */
  method BuildRecommendations(labels: map<string, string>, rows: seq<SlpRow>) returns (result: seq<Recommendation>)
    ensures result == Recommendations(labels, rows)
  {
    var best := ChooseBest(labels, rows);
    result := PickSorted(best);
  }

}
