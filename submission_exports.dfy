// The per-tab exports of a submission: the table and file names, the
// canonical order of the SLP rows, the cells of an SLP row, the readable
// summary of a stored intervention plan, the reading difficulty rows, the
// choice of builder by tab, and the CSV layout of the tables.
module SubmissionExports {
  import opened Wrappers
  import opened Text
  import opened Json
  import opened Lists
  import opened Sorting
  import opened Constants
  import opened GradeSpans
  import opened ServerRows
  import DifficultyPlans

  // ---------------------------------------------------------------------
  // Names

  /** `ExportTable.sheet_name`: the slug of the title, or "sheet", cut to 31
      characters. `slugify` is a library function and is a parameter here. */
  function SheetName(title: string, slugify: string -> string): (r: string)
    ensures 1 <= |r| <= 31
    ensures slugify(title) != "" ==> StartsWith(slugify(title), r)
    ensures slugify(title) == "" ==> r == "sheet"
  {
    var base := if slugify(title) == "" then "sheet" else slugify(title);
    Take(base, 31)
  }

  /** The name `_build_filename_prefix` cuts: school code, submission id and
      period label, with stand-ins for a missing school or period. */
  function FullPrefix(schoolCode: Option<string>, id: nat, periodLabel: Option<string>, slugify: string -> string): string
  {
    var school := if schoolCode.Some? then slugify(schoolCode.value) else "submission";
    var period := if periodLabel.Some? then slugify(periodLabel.value) else "period";
    school + "-" + NatToString(id) + "-" + period
  }

  /** `_build_filename_prefix`: at most 64 characters of the full name, all
      of it when it fits. */
  function FilenamePrefix(schoolCode: Option<string>, id: nat, periodLabel: Option<string>, slugify: string -> string): (r: string)
    ensures |r| <= 64
    ensures StartsWith(FullPrefix(schoolCode, id, periodLabel, slugify), r)
    ensures |FullPrefix(schoolCode, id, periodLabel, slugify)| <= 64 ==> r == FullPrefix(schoolCode, id, periodLabel, slugify)
  {
    Take(FullPrefix(schoolCode, id, periodLabel, slugify), 64)
  }

  // ---------------------------------------------------------------------
  // The canonical order of the SLP rows

  /** `SLP_SUBJECTS_BY_GRADE.get(n, [SLP_DEFAULT_SUBJECT])`. */
  function SubjectsOfNumber(table: SubjectTable, n: int): seq<Subject>
  {
    match FindGrade(table, n)
    case Some(subs) => subs
    case None => [SlpDefaultSubject]
  }

  /** The nested loop of `_slp_pair_index` over the given grade numbers. */
  function ExportPairs(table: SubjectTable, labels: map<int, string>, nums: seq<int>): seq<(string, string)>
    requires forall k :: 0 <= k < |nums| ==> nums[k] in labels
  {
    if nums == [] then []
    else
      var n := nums[|nums| - 1];
      ExportPairs(table, labels, nums[..|nums| - 1]) + PairsForLabel(labels[n], SubjectsOfNumber(table, n))
  }

  /** The pairs of `_slp_pair_index`, never empty: with no pair at all the
      Kinder default pair stands alone. */
  function CanonicalPairs(table: SubjectTable, school: Option<School>): (r: seq<(string, string)>)
    ensures |r| >= 1
  {
    GradeKeys();
    var nums := GradeNumbersForSchool(school);
    var pairs := ExportPairs(table, GradeNumberToLabel, nums);
    if pairs == [] then [(if 0 in GradeNumberToLabel then GradeNumberToLabel[0] else "Grade 1", SlpDefaultSubject.code)]
    else pairs
  }

  /** `{pair: index for index, pair in enumerate(pairs)}`. */
  function PositionMap<T(==)>(xs: seq<T>): map<T, nat>
  {
    if xs == [] then map[] else PositionMap(xs[..|xs| - 1])[xs[|xs| - 1] := |xs| - 1]
  }

  /** Every item has a position, its last one. */
  lemma {:induction false} PositionMapMeaning<T>(xs: seq<T>)
    ensures forall x :: x in PositionMap(xs) <==> x in xs
    ensures forall x :: x in PositionMap(xs) ==>
      PositionMap(xs)[x] < |xs| && xs[PositionMap(xs)[x]] == x &&
      forall j :: PositionMap(xs)[x] < j < |xs| ==> xs[j] != x
  {
    if xs != [] {
      var init := xs[..|xs| - 1];
      PositionMapMeaning(init);
      forall x | x in xs ensures x in PositionMap(xs) {
        if x != xs[|xs| - 1] {
          var i :| 0 <= i < |xs| && xs[i] == x;
          assert init[i] == x;
        }
      }
    }
  }

  /** Distinct pairs give a map with one entry per pair. */
  lemma {:induction false} PositionMapSize<T>(xs: seq<T>)
    requires Distinct(xs)
    ensures |PositionMap(xs)| == |xs|
  {
    if xs != [] {
      var init := xs[..|xs| - 1];
      assert Distinct(init);
      PositionMapSize(init);
      PositionMapMeaning(init);
      assert xs[|xs| - 1] !in init;
    }
  }

  /** The sort key of an SLP row: its pair's position, or the size of the
      map for a pair that is not canonical. */
  function RowKey(index: map<(string, string), nat>, r: SlpRow): nat
  {
    var p := (r.gradeLabel, r.subject);
    if p in index then index[p] else |index|
  }

  function KeyOrder(index: map<(string, string), nat>): (SlpRow, SlpRow) -> bool
  {
    (a: SlpRow, b: SlpRow) => RowKey(index, a) <= RowKey(index, b)
  }

  lemma KeyOrderTotal(index: map<(string, string), nat>)
    ensures TotalPreorder(KeyOrder(index))
  {
  }

  /** `sorted(rows, key=...)`, stable. */
  function OrderedSlpRows(index: map<(string, string), nat>, rows: seq<SlpRow>): seq<SlpRow>
  {
    SortBy(rows, KeyOrder(index))
  }

  /** The export lists the same rows in the canonical order of their pairs;
      with distinct canonical pairs, every row whose pair is not canonical
      comes after all the rows whose pair is. */
  lemma OrderedSlpRowsMeaning(pairs: seq<(string, string)>, rows: seq<SlpRow>)
    requires Distinct(pairs)
    ensures var out := OrderedSlpRows(PositionMap(pairs), rows);
      multiset(out) == multiset(rows) &&
      (forall i, j :: 0 <= i < j < |out| ==> RowKey(PositionMap(pairs), out[i]) <= RowKey(PositionMap(pairs), out[j])) &&
      (forall i, j :: 0 <= i < j < |out| && (out[i].gradeLabel, out[i].subject) !in pairs ==>
         (out[j].gradeLabel, out[j].subject) !in pairs)
  {
    var index := PositionMap(pairs);
    var out := OrderedSlpRows(index, rows);
    KeyOrderTotal(index);
    SortSorted(rows, KeyOrder(index));
    PositionMapMeaning(pairs);
    PositionMapSize(pairs);
    forall i, j | 0 <= i < j < |out| && (out[i].gradeLabel, out[i].subject) !in pairs
      ensures (out[j].gradeLabel, out[j].subject) !in pairs
    {
      assert KeyOrder(index)(out[i], out[j]);
      assert RowKey(index, out[i]) == |pairs|;
    }
  }

  // ---------------------------------------------------------------------
  // Cells and the SLP row

  /** A cell of an export: text, or a number written in decimal. */
  datatype Cell = Txt(text: string) | Num(n: int)

  function CellText(c: Cell): string
  {
    match c
    case Txt(t) => t
    case Num(n) => IntToString(n)
  }

  const SlpHeaders: seq<string> := [
    "Grade", "Enrolment", "Subject", "Offered", "DNME", "FS", "S", "VS", "O",
    "Top 3 LLC", "Reasons (Codes)", "Other Reasons", "Intervention Plan"]

  /** A count cell, blank for a subject not offered. */
  function CountCell(offered: bool, n: nat): Cell
  {
    if offered then Num(n) else Txt("")
  }

  /** One row of the "SLP Learner Progress" table. */
  function SlpExportRow(r: SlpRow, subjectDisplay: string, summary: string): (row: seq<Cell>)
    ensures |row| == |SlpHeaders|
    ensures row[0] == Txt(r.gradeLabel) && row[2] == Txt(subjectDisplay) && row[12] == Txt(summary)
    ensures !r.isOffered ==> row[3] == Txt("Not offered") && forall k :: k in {1, 4, 5, 6, 7, 8} ==> row[k] == Txt("")
    ensures r.isOffered ==> (row[3] == Txt("Yes") && row[1] == Num(r.enrolment) &&
      row[4] == Num(r.dnme) && row[5] == Num(r.fs) && row[6] == Num(r.s) && row[7] == Num(r.vs) && row[8] == Num(r.o))
  {
    [Txt(r.gradeLabel), CountCell(r.isOffered, r.enrolment), Txt(subjectDisplay),
     Txt(if r.isOffered then "Yes" else "Not offered"),
     CountCell(r.isOffered, r.dnme), CountCell(r.isOffered, r.fs), CountCell(r.isOffered, r.s),
     CountCell(r.isOffered, r.vs), CountCell(r.isOffered, r.o),
     Txt(r.topThreeLlc), Txt(r.nonMasteryReasons), Txt(r.nonMasteryOther), Txt(summary)]
  }

  // ---------------------------------------------------------------------
  // The readable summary of an intervention plan

  /** `(value or "").strip()` on a member read: "" for a missing or falsy
      value; None where `strip` raises, on a truthy value that is not text. */
  function StrippedMember(v: Option<Json>): Option<string>
  {
    match v
    case None => Some("")
    case Some(j) => if !PyTruthy(j) then Some("") else if j.JStr? then Some(Trim(j.s)) else None
  }

  /** `item.get("reason") or item.get("code")`. */
  function ReasonOf(item: Json): Option<Json>
  {
    var r := Member(item, "reason");
    if r.Some? && PyTruthy(r.value) then r else Member(item, "code")
  }

  /** What one list item contributes at its 1-based position: nothing, a
      numbered part, or a failure that sends the summary back to the text. */
  datatype Piece = Skip | Part(text: string) | Fails

  function ItemPiece(item: Json, position: nat): Piece
  {
    if !item.JObj? then Skip
    else
      match StrippedMember(ReasonOf(item))
      case None => Fails
      case Some(reason) =>
        match StrippedMember(Member(item, "intervention"))
        case None => Fails
        case Some(interv) =>
          if reason == "" && interv == "" then Skip
          else if interv != "" then Part(NatToString(position) + ". " + reason + ": " + interv)
          else Part(NatToString(position) + ". " + reason)
  }

  /** The parts of the list items, or None when one of them fails. */
  function Parts(items: seq<Json>): Option<seq<string>>
  {
    if items == [] then Some([])
    else
      match Parts(items[..|items| - 1])
      case None => None
      case Some(ps) =>
        match ItemPiece(items[|items| - 1], |items|)
        case Skip => Some(ps)
        case Part(t) => Some(ps + [t])
        case Fails => None
  }

  lemma PartsSnoc(items: seq<Json>, i: nat)
    requires i < |items|
    ensures Parts(items[..i + 1]) ==
      match Parts(items[..i])
      case None => None
      case Some(ps) =>
        match ItemPiece(items[i], i + 1)
        case Skip => Some(ps)
        case Part(t) => Some(ps + [t])
        case Fails => None
  {
    assert items[..i + 1][..i] == items[..i];
  }

  /** Once an item fails, the whole list fails. */
  lemma {:induction false} PartsFailureSticks(items: seq<Json>, i: nat)
    requires i <= |items| && Parts(items[..i]).None?
    ensures Parts(items).None?
    decreases |items| - i
  {
    if i == |items| {
      assert items[..i] == items;
    } else {
      PartsSnoc(items, i);
      PartsFailureSticks(items, i + 1);
    }
  }

  /** Every part is the piece of one dictionary item, numbered by that
      item's place in the list; there are at most as many parts as items. */
  lemma {:induction false} PartsMeaning(items: seq<Json>)
    requires Parts(items).Some?
    ensures |Parts(items).value| <= |items|
    ensures forall t :: t in Parts(items).value ==>
      exists j :: 0 <= j < |items| && items[j].JObj? && ItemPiece(items[j], j + 1) == Part(t)
  {
    if items != [] {
      var init := items[..|items| - 1];
      PartsMeaning(init);
      forall t | t in Parts(items).value
        ensures exists j :: 0 <= j < |items| && items[j].JObj? && ItemPiece(items[j], j + 1) == Part(t)
      {
        if t in Parts(init).value {
          var j :| 0 <= j < |init| && init[j].JObj? && ItemPiece(init[j], j + 1) == Part(t);
          assert items[j] == init[j];
        } else {
          assert ItemPiece(items[|items| - 1], |items|) == Part(t);
        }
      }
    }
  }

  /** `_summarize_interventions` as a value: "" for blank text; for a JSON
      list the numbered parts joined by "; "; otherwise, and when an item
      cannot be read, the trimmed text itself. `loads` is `json.loads`,
      None where it raises. */
  function InterventionSummary(text: string, loads: string -> Option<Json>): string
  {
    var t := Trim(text);
    if t == "" then ""
    else
      match loads(t)
      case Some(JArr(items)) =>
        (match Parts(items)
         case Some(ps) => JoinWith(ps, "; ")
         case None => t)
      case _ => t
  }

  /** The summary is empty for blank text, the trimmed text for anything
      that is not a readable list, and the joined parts for a list. */
  lemma InterventionSummaryMeaning(text: string, loads: string -> Option<Json>)
    ensures IsBlank(text) ==> InterventionSummary(text, loads) == ""
    ensures !IsBlank(text) && !(loads(Trim(text)).Some? && loads(Trim(text)).value.JArr?) ==>
      InterventionSummary(text, loads) == Trim(text)
    ensures !IsBlank(text) && loads(Trim(text)).Some? && loads(Trim(text)).value.JArr? ==>
      var items := loads(Trim(text)).value.items;
      InterventionSummary(text, loads) == (if Parts(items).Some? then JoinWith(Parts(items).value, "; ") else Trim(text))
  {
  }

  /** A list item with a reason and an intervention reads "n. reason:
      intervention"; the code stands in for a missing reason. */
  lemma ItemPieceShape(code: string, reason: string, interv: string, n: nat)
    requires Trimmed(reason) && Trimmed(interv) && Trimmed(code) && interv != ""
    ensures ItemPiece(JObj([("code", JStr(code)), ("reason", JStr(reason)), ("intervention", JStr(interv))]), n) ==
      Part(NatToString(n) + ". " + (if reason != "" then reason else code) + ": " + interv)
  {
    var item := JObj([("code", JStr(code)), ("reason", JStr(reason)), ("intervention", JStr(interv))]);
    assert Member(item, "intervention") == Some(JStr(interv));
    assert Member(item, "reason") == Some(JStr(reason));
    assert Member(item, "code") == Some(JStr(code));
    TrimmedFixed(reason);
    TrimmedFixed(interv);
    TrimmedFixed(code);
  }

  /** The loop of `_summarize_interventions`. */
  method SummarizeInterventions(text: string, loads: string -> Option<Json>) returns (summary: string)
    ensures summary == InterventionSummary(text, loads)
  {
    var t := Trim(text);
    if t == "" {
      return "";
    }
    var data := loads(t);
    if !(data.Some? && data.value.JArr?) {
      return t;
    }
    var items := data.value.items;
    var parts: seq<string> := [];
    for i := 0 to |items|
      invariant Parts(items[..i]) == Some(parts)
    {
      PartsSnoc(items, i);
      var piece := ItemPiece(items[i], i + 1);
      match piece
      case Skip =>
      case Part(p) => parts := parts + [p];
      case Fails =>
        PartsFailureSticks(items, i + 1);
        return t;
    }
    assert items[..|items|] == items;
    summary := JoinWith(parts, "; ");
  }

  // ---------------------------------------------------------------------
  // Reading difficulty rows

  /** A stored reading difficulty plan: its period, the display of its grade
      and its list of pairs. */
  datatype Plan = Plan(period: string, gradeDisplay: string, data: Json)

  /** `(pair.get(key) or '').strip()`; None where the read raises (the pair
      is not a dictionary, or the value is text of no kind). */
  function PairField(pair: Json, key: string): Option<string>
  {
    if !pair.JObj? then None else StrippedMember(Member(pair, key))
  }

  /** The rows one list of pairs gives, numbered from 1 and skipping the
      blank pairs; None where a pair cannot be read. */
  function PairRows(period: string, grade: string, pairs: seq<Json>): Option<seq<seq<Cell>>>
  {
    if pairs == [] then Some([])
    else
      var n := |pairs|;
      match PairRows(period, grade, pairs[..n - 1])
      case None => None
      case Some(rows) =>
        match (PairField(pairs[n - 1], "difficulty"), PairField(pairs[n - 1], "intervention"))
        case (Some(d), Some(iv)) => Some(rows + (if d != "" || iv != "" then [[Txt(period), Txt(grade), Num(n), Txt(d), Txt(iv)]] else []))
        case _ => None
  }

  /** Every row names a non-blank pair by its 1-based place. */
  lemma {:induction false} PairRowsMeaning(period: string, grade: string, pairs: seq<Json>)
    requires PairRows(period, grade, pairs).Some?
    ensures |PairRows(period, grade, pairs).value| <= |pairs|
    ensures forall row: seq<Cell> :: row in PairRows(period, grade, pairs).value ==>
      |row| == 5 && row[0] == Txt(period) && row[1] == Txt(grade) && row[2].Num? && 1 <= row[2].n <= |pairs| &&
      (row[3] != Txt("") || row[4] != Txt(""))
  {
    if pairs != [] {
      PairRowsMeaning(period, grade, pairs[..|pairs| - 1]);
    }
  }

  /** The rows from the stored plans, in the order given; None where a
      read raises, which the export turns into no plan rows. */
  function PlanRows(plans: seq<Plan>): Option<seq<seq<Cell>>>
  {
    if plans == [] then Some([])
    else
      var p := plans[|plans| - 1];
      var pairs := if p.data.JArr? then p.data.items else [];
      match (PlanRows(plans[..|plans| - 1]), PairRows(Upper(p.period), p.gradeDisplay, pairs))
      case (Some(a), Some(b)) => Some(a + b)
      case _ => None
  }

  /** `str(entry.get('grade', '')).strip()` for the values a grade holds: a
      text, an integer or a float; a list or an object shows as an empty
      grade. */
  function GradeText(v: Option<Json>): string
  {
    match v
    case Some(JStr(s)) => Trim(s)
    case Some(JNum(n)) => IntToString(n)
    case Some(JDec(t)) => PyFloatText(t)
    case Some(JNull) => "None"
    case Some(JBool(b)) => if b then "True" else "False"
    case _ => ""
  }

  /** The fallback over the raw `reading_difficulties_json`: rows with an
      empty period; Err where an entry or its pairs cannot be read, which
      fails the export. */
  function RawRows(entries: seq<Json>): Result<seq<seq<Cell>>>
  {
    if entries == [] then Ok([])
    else
      var e := entries[|entries| - 1];
      match RawRows(entries[..|entries| - 1])
      case Err(m) => Err(m)
      case Ok(a) =>
        if !e.JObj? then Err("entry is not a dictionary")
        else
          var pv := Member(e, "pairs");
          var pairs := if pv.Some? && PyTruthy(pv.value) then pv.value else JArr([]);
          if !pairs.JArr? then Err("pairs are not a list")
          else
            match PairRows("", GradeText(Member(e, "grade")), pairs.items)
            case Some(b) => Ok(a + b)
            case None => Err("a pair is not a dictionary of texts")
  }

  /** The rows of "Reading Difficulties & Targeted Interventions": the plan
      rows, or, only when there are none, the rows of the raw JSON. */
  function DifficultyRows(plans: seq<Plan>, raw: Json): Result<seq<seq<Cell>>>
  {
    var fromPlans := if PlanRows(plans).Some? then PlanRows(plans).value else [];
    if fromPlans != [] then Ok(fromPlans)
    else if raw.JArr? then RawRows(raw.items)
    else Ok([])
  }

  /** The raw JSON is read only when the plans give no row. */
  lemma DifficultyRowsMeaning(plans: seq<Plan>, raw: Json)
    ensures PlanRows(plans).Some? && PlanRows(plans).value != [] ==> DifficultyRows(plans, raw) == Ok(PlanRows(plans).value)
    ensures DifficultyRows(plans, raw).Err? ==> raw.JArr? && (PlanRows(plans).None? || PlanRows(plans).value == [])
  {
  }

  // ---------------------------------------------------------------------
  // The reading context note

  /** `_timing_from_quarter` of the reading export. */
  function ExportTiming(quarter: Option<string>): (t: string)
    ensures DifficultyPlans.IsReadingPeriod(t)
  {
    match quarter
    case Some(q) =>
      if q == "Q1" then "eosy" else if q == "Q2" || q == "Q3" then "bosy" else if q == "Q4" then "mosy" else "eosy"
    case None => "eosy"
  }

  /** The export derives the same period as the reading form for the four
      quarters, but falls back to "eosy" where the reading form falls back
      to "bosy". */
  lemma ExportTimingAgrees(q: string)
    ensures q in {"Q1", "Q2", "Q3", "Q4"} ==> ExportTiming(Some(q)) == DifficultyPlans.QuarterPeriod(q)
    ensures q !in {"Q1", "Q2", "Q3", "Q4"} ==> ExportTiming(Some(q)) == "eosy" && DifficultyPlans.QuarterPeriod(q) == "bosy"
  {
  }

  /** `_reading_phrase_for_timing`. */
  function ReadingPhrase(t: string): (r: string)
    ensures Lower(t) == "bosy" ==> r == "BOSY Results - Quarter 2 or 3 Depends on what quarter was selected"
    ensures Lower(t) == "mosy" ==> r == "MOSY Results - Quarter 4"
    ensures Lower(t) != "bosy" && Lower(t) != "mosy" ==> r == "EOSY Results - Quarter 1"
  {
    var l := Lower(t);
    if l == "bosy" then "BOSY Results - Quarter 2 or 3 Depends on what quarter was selected"
    else if l == "mosy" then "MOSY Results - Quarter 4"
    else "EOSY Results - Quarter 1"
  }

  /** The note names the quarters its period covers. */
  lemma ReadingNoteNamesQuarter(quarter: Option<string>)
    ensures quarter == Some("Q4") ==> ReadingPhrase(ExportTiming(quarter)) == "MOSY Results - Quarter 4"
    ensures quarter == Some("Q1") || quarter.None? ==> ReadingPhrase(ExportTiming(quarter)) == "EOSY Results - Quarter 1"
  {
    NoCapitals("mosy");
    NoCapitals("eosy");
  }

  // ---------------------------------------------------------------------
  // Export by tab

  datatype ExportKind = SlpExport | ReadingExport | RmaExport | AdmExport

  /** `build_export_for_tab`'s lookup in `_TAB_BUILDERS`. */
  function BuilderFor(tab: string): (r: Result<ExportKind>)
    ensures r.Ok? <==> tab in {"slp", "reading", "rma", "adm"}
    ensures r.Err? ==> r.error == "Unsupported export tab: " + tab
  {
    if tab == "slp" then Ok(SlpExport)
    else if tab == "reading" then Ok(ReadingExport)
    else if tab == "rma" then Ok(RmaExport)
    else if tab == "adm" then Ok(AdmExport)
    else Err("Unsupported export tab: " + tab)
  }

  // ---------------------------------------------------------------------
  // CSV layout

  datatype ExportTable = ExportTable(title: string, headers: seq<string>, rows: seq<seq<Cell>>)

  function RowTexts(row: seq<Cell>): (r: seq<string>)
    ensures |r| == |row| && forall k :: 0 <= k < |row| ==> r[k] == CellText(row[k])
  {
    seq(|row|, k requires 0 <= k < |row| => CellText(row[k]))
  }

  /** The lines of one table: its "# title", its headers, its rows. */
  function TableLines(t: ExportTable): (r: seq<seq<string>>)
    ensures |r| == |t.rows| + 2
    ensures r[0] == ["# " + t.title] && r[1] == t.headers
    ensures forall k :: 0 <= k < |t.rows| ==> r[k + 2] == RowTexts(t.rows[k])
  {
    [["# " + t.title], t.headers] + seq(|t.rows|, k requires 0 <= k < |t.rows| => RowTexts(t.rows[k]))
  }

  /** Blocks of lines written in turn, with a blank line before every block
      but the first. */
  function Layout<L>(blocks: seq<seq<L>>, blank: L): seq<L>
  {
    if blocks == [] then []
    else
      var n := |blocks|;
      Layout(blocks[..n - 1], blank) + (if n > 1 then [blank] else []) + blocks[n - 1]
  }

  /** Where block i starts: after the blocks before it and one blank line
      between each two of them. */
  function BlockOffset<L>(blocks: seq<seq<L>>, i: nat): nat
    requires i <= |blocks|
  {
    if i == 0 then 0 else BlockOffset(blocks, i - 1) + |blocks[i - 1]| + 1
  }

  lemma LayoutSnoc<L>(blocks: seq<seq<L>>, blank: L, i: nat)
    requires i < |blocks|
    ensures Layout(blocks[..i + 1], blank) == Layout(blocks[..i], blank) + (if i > 0 then [blank] else []) + blocks[i]
  {
    assert blocks[..i + 1][..i] == blocks[..i];
  }

  lemma {:induction false} LayoutLength<L>(blocks: seq<seq<L>>, blank: L, i: nat)
    requires 0 < i <= |blocks|
    ensures |Layout(blocks[..i], blank)| + 1 == BlockOffset(blocks, i)
  {
    LayoutSnoc(blocks, blank, i - 1);
    if i > 1 {
      LayoutLength(blocks, blank, i - 1);
    }
  }

  lemma {:induction false} LayoutPrefix<L>(blocks: seq<seq<L>>, blank: L, i: nat)
    requires i <= |blocks|
    ensures |Layout(blocks[..i], blank)| <= |Layout(blocks, blank)|
    ensures Layout(blocks, blank)[..|Layout(blocks[..i], blank)|] == Layout(blocks[..i], blank)
    decreases |blocks| - i
  {
    if i == |blocks| {
      assert blocks[..i] == blocks;
    } else {
      LayoutPrefix(blocks, blank, i + 1);
      LayoutSnoc(blocks, blank, i);
    }
  }

  /** A piece of a prefix is a piece of the whole. */
  lemma PieceAt<L>(all: seq<L>, head: seq<L>, piece: seq<L>)
    requires |head + piece| <= |all| && all[..|head + piece|] == head + piece
    ensures all[|head|..|head| + |piece|] == piece
  {
    assert all[|head|..|head| + |piece|] == (head + piece)[|head|..];
  }

  /** Block i appears whole at its offset, after a blank line unless it is
      the first. */
  lemma LayoutBlockAt<L>(blocks: seq<seq<L>>, blank: L, i: nat)
    requires i < |blocks|
    ensures BlockOffset(blocks, i) + |blocks[i]| <= |Layout(blocks, blank)|
    ensures Layout(blocks, blank)[BlockOffset(blocks, i)..BlockOffset(blocks, i) + |blocks[i]|] == blocks[i]
    ensures i > 0 ==> Layout(blocks, blank)[BlockOffset(blocks, i) - 1] == blank
  {
    LayoutPrefix(blocks, blank, i + 1);
    LayoutSnoc(blocks, blank, i);
    var sep: seq<L> := if i > 0 then [blank] else [];
    var head := Layout(blocks[..i], blank);
    if i > 0 {
      LayoutLength(blocks, blank, i);
    }
    PieceAt(Layout(blocks, blank), head + sep, blocks[i]);
    PieceAt(Layout(blocks, blank), head, sep + blocks[i]);
    if i > 0 {
      assert (sep + blocks[i])[0] == blank;
    }
  }

  function AllTableLines(tables: seq<ExportTable>): (r: seq<seq<seq<string>>>)
    ensures |r| == |tables| && forall k :: 0 <= k < |tables| ==> r[k] == TableLines(tables[k])
  {
    seq(|tables|, k requires 0 <= k < |tables| => TableLines(tables[k]))
  }

  /** The lines `render_export_to_csv` writes: the tables in turn, with one
      empty line before every table but the first. */
  function CsvLines(tables: seq<ExportTable>): seq<seq<string>>
  {
    Layout(AllTableLines(tables), [])
  }

  /** Where table i starts. */
  function Offset(tables: seq<ExportTable>, i: nat): nat
    requires i <= |tables|
  {
    BlockOffset(AllTableLines(tables), i)
  }

  /** Table i's title line, headers and rows appear in order at its offset,
      and the line before every table but the first is empty. */
  lemma CsvTableAt(tables: seq<ExportTable>, i: nat)
    requires i < |tables|
    ensures Offset(tables, i) + |tables[i].rows| + 2 <= |CsvLines(tables)|
    ensures CsvLines(tables)[Offset(tables, i)] == ["# " + tables[i].title]
    ensures CsvLines(tables)[Offset(tables, i) + 1] == tables[i].headers
    ensures forall k :: 0 <= k < |tables[i].rows| ==> CsvLines(tables)[Offset(tables, i) + 2 + k] == RowTexts(tables[i].rows[k])
    ensures i > 0 ==> CsvLines(tables)[Offset(tables, i) - 1] == []
  {
    var blocks := AllTableLines(tables);
    LayoutBlockAt(blocks, [], i);
    var o := Offset(tables, i);
    var lines := CsvLines(tables);
    var t := TableLines(tables[i]);
    assert lines[o..o + |t|] == t;
    forall k | 0 <= k < |t|
      ensures lines[o + k] == t[k]
    {
      assert lines[o..o + |t|][k] == lines[o + k];
    }
  }

  /** `render_export_to_csv`: the loops over the tables and their rows. */
  method RenderCsv(tables: seq<ExportTable>) returns (lines: seq<seq<string>>)
    ensures lines == CsvLines(tables)
  {
    ghost var blocks := AllTableLines(tables);
    lines := [];
    for idx := 0 to |tables|
      invariant lines == Layout(blocks[..idx], [])
    {
      LayoutSnoc(blocks, [], idx);
      var table := tables[idx];
      if idx > 0 {
        lines := lines + [[]];
      }
      ghost var start := lines;
      lines := lines + [["# " + table.title]];
      lines := lines + [table.headers];
      for k := 0 to |table.rows|
        invariant lines == start + TableLines(table)[..k + 2]
      {
        assert TableLines(table)[..k + 3] == TableLines(table)[..k + 2] + [RowTexts(table.rows[k])];
        lines := lines + [RowTexts(table.rows[k])];
      }
      assert TableLines(table)[..|table.rows| + 2] == blocks[idx];
    }
    assert blocks[..|tables|] == blocks;
  }
}
