// The project repeating group of the submission page: the
// projects-TOTAL_FORMS counter, the `.project-section` blocks, and the hidden
// `#project-delete-bin` that carries DELETE/id markers for saved projects
// removed from the page.
module ProjectForms {
  import opened Wrappers
  import opened Text
  import opened FormNames

  /** One `.project-section`: its data-project-index attribute, its input and
      select controls in document order, and whether its DELETE checkbox is
      checked. */
  datatype Section = Section(dataIndex: string, fields: seq<Field>, marked: bool)

  /** What the project functions read and write: the sections in document
      order, the TOTAL_FORMS value (None when that input is missing) and the
      delete bin's inputs. */
  datatype ProjectState = ProjectState(sections: seq<Section>, total: Option<string>, bin: seq<Hidden>)

  /** Controls matched by `input[name^="projects-"], select[name^="projects-"]`. */
  predicate Selected(f: Field)
  {
    StartsWith(Flat(f.name), "projects-")
  }

  function RenameField(f: Field, i: nat): Field
  {
    if Selected(f) then Field(Reindex(f.name, "projects", i), Reindex(f.elemId, "id_projects", i), f.value)
    else f
  }

  function RenumberSection(s: Section, i: nat): Section
  {
    Section(NatToString(i), seq(|s.fields|, k requires 0 <= k < |s.fields| => RenameField(s.fields[k], i)), s.marked)
  }

  /** Every section renamed after its position. */
  function Renumbered(ss: seq<Section>): (r: seq<Section>)
    ensures |r| == |ss|
    ensures forall i :: 0 <= i < |ss| ==>
      |r[i].fields| == |ss[i].fields| && r[i].marked == ss[i].marked
  {
    seq(|ss|, i requires 0 <= i < |ss| => RenumberSection(ss[i], i))
  }

  /** Section s sits at position i: its data attribute, every projects-<d>-
      name and every id_projects-<d>- id say i. */
  predicate SectionAt(s: Section, i: nat)
  {
    s.dataIndex == NatToString(i) &&
    forall k :: 0 <= k < |s.fields| && Selected(s.fields[k]) ==>
      (IndexedAs(s.fields[k].name, "projects") ==> s.fields[k].name.index == NatToString(i)) &&
      (IndexedAs(s.fields[k].elemId, "id_projects") ==> s.fields[k].elemId.index == NatToString(i))
  }

  predicate Numbered(ss: seq<Section>)
  {
    forall i :: 0 <= i < |ss| ==> SectionAt(ss[i], i)
  }

  /** The counter matches the number of sections and each section is
      numbered by its position, which is what the server's formset expects. */
  predicate Consistent(st: ProjectState)
  {
    st.total == Some(NatToString(|st.sections|)) && Numbered(st.sections)
  }

  /** renumberProjects as intended: counter set to the section count, every
      section renamed after its position. */
  function RenumberState(st: ProjectState): ProjectState
  {
    ProjectState(Renumbered(st.sections),
      if st.total.Some? then Some(NatToString(|st.sections|)) else None, st.bin)
  }

  /** renumberProjects as written: the counter is set and the first section's
      data attribute, then the diagnostic line reads an undeclared `bin` and
      throws, so no control is renamed. */
  function RenumberStateAsWritten(st: ProjectState): ProjectState
  {
    ProjectState(
      if |st.sections| == 0 then st.sections else st.sections[0 := st.sections[0].(dataIndex := "0")],
      if st.total.Some? then Some(NatToString(|st.sections|)) else None, st.bin)
  }

  /** `input[name^="projects-"][name$="-id"]`. */
  predicate IsIdField(f: Field)
  {
    StartsWith(Flat(f.name), "projects-") && EndsWith(Flat(f.name), "-id")
  }

  /** The section's first hidden id control. */
  function HiddenId(fs: seq<Field>): (r: Option<Field>)
    ensures r.Some? ==> r.value in fs && IsIdField(r.value)
    ensures r.None? ==> forall k :: 0 <= k < |fs| ==> !IsIdField(fs[k])
    ensures |fs| > 0 && IsIdField(fs[0]) ==> r == Some(fs[0])
  {
    if fs == [] then None
    else if IsIdField(fs[0]) then Some(fs[0])
    else
      var r := HiddenId(fs[1..]);
      assert forall k :: 1 <= k < |fs| ==> fs[k] == fs[1..][k - 1];
      r
  }

  /** A saved project: its id control holds a primary key. */
  predicate Persisted(s: Section)
  {
    var h := HiddenId(s.fields);
    h.Some? && h.value.value != ""
  }

  /** The index the delete markers use: the digits of a `projects-<d>-id`
      name, otherwise parseInt of data-project-index (or '0'). */
  function ProjectIndex(s: Section): JsInt
  {
    var h := HiddenId(s.fields);
    if h.Some? && h.value.name.Indexed? && h.value.name.prefix == "projects"
      && IsIndex(h.value.name.index) && h.value.name.field == "id"
    then Int(DigitsValue(h.value.name.index))
    else ParseInt(if s.dataIndex == "" then "0" else s.dataIndex)
  }

  function RemoveAt<T>(s: seq<T>, i: nat): (r: seq<T>)
    requires i < |s|
    ensures |r| == |s| - 1
    ensures forall k :: 0 <= k < i ==> r[k] == s[k]
    ensures forall k :: i <= k < |r| ==> r[k] == s[k + 1]
  {
    s[..i] + s[i + 1..]
  }

  /** `Math.max(0, n)`. */
  function MaxZero(n: JsInt): JsInt
  {
    match n
    case Int(v) => if v < 0 then Int(0) else Int(v)
    case NaN => NaN
  }

  function DeleteName(k: JsInt): string { "projects-" + k.ToString() + "-DELETE" }

  function IdName(k: JsInt): string { "projects-" + k.ToString() + "-id" }

  /** An unsaved section s removed and the counter lowered by one, before
      the renumbering. */
  function Removed(st: ProjectState, s: nat): ProjectState
    requires s < |st.sections|
  {
    var t := if st.total.Some?
      then Some(MaxZero(CounterValue(st.total.value).Plus(-1)).ToString())
      else None;
    ProjectState(RemoveAt(st.sections, s), t, st.bin)
  }

  /** The effect of clicking section s's delete control as written: the
      checkbox becomes `checked`, and `confirmed` is the answer to the
      confirmation prompt. An unsaved section's removal ends in the
      renumbering as written, which throws out of the handler. */
  function DeletedState(st: ProjectState, s: nat, checked: bool, confirmed: bool): ProjectState
    requires s < |st.sections|
  {
    var sec := st.sections[s];
    if !checked || !confirmed then st.(sections := st.sections[s := sec.(marked := false)])
    else if Persisted(sec) then
      var k := ProjectIndex(sec);
      st.(sections := RemoveAt(st.sections, s),
          bin := Without(st.bin, {DeleteName(k), IdName(k)})
                 + [Hidden(DeleteName(k), "on"), Hidden(IdName(k), HiddenId(sec.fields).value.value)])
    else RenumberStateAsWritten(Removed(st, s))
  }

  /** The click as evidently intended: the unsaved section's removal ends
      in the full renumbering; every other case is as written. */
  function IntendedDeletedState(st: ProjectState, s: nat, checked: bool, confirmed: bool): ProjectState
    requires s < |st.sections|
  {
    if checked && confirmed && !Persisted(st.sections[s]) then RenumberState(Removed(st, s))
    else DeletedState(st, s, checked, confirmed)
  }

  /** The controls addProjectRow writes for index k. */
  function NewSection(k: string): Section
  {
    Section(k, [
      Field(Indexed("projects", k, "id"), Indexed("id_projects", k, "id"), ""),
      Field(Indexed("projects", k, "project_title"), Indexed("id_projects", k, "project_title"), ""),
      Field(Indexed("projects", k, "area_of_concern"), Indexed("id_projects", k, "area_of_concern"), ""),
      Field(Indexed("projects", k, "conference_date"), Indexed("id_projects", k, "conference_date"), ""),
      Field(Indexed("projects", k, "DELETE"), Indexed("id_projects", k, "DELETE"), "on")
    ], false)
  }

  /** addProjectRow: nothing without the counter or the container; otherwise
      a new section at index parseInt(TOTAL_FORMS || '0') and the counter
      one higher. */
  function AddedState(st: ProjectState, hasContainer: bool): ProjectState
  {
    if st.total.None? || !hasContainer then st
    else
      var idx := CounterValue(st.total.value);
      st.(sections := st.sections + [NewSection(idx.ToString())], total := Some(idx.Plus(1).ToString()))
  }

  // ---------------------------------------------------------------------
  // Properties

  lemma RenumberSectionAt(s: Section, i: nat)
    ensures SectionAt(RenumberSection(s, i), i)
  {
    var r := RenumberSection(s, i);
    forall k | 0 <= k < |r.fields| && Selected(r.fields[k])
      ensures IndexedAs(r.fields[k].name, "projects") ==> r.fields[k].name.index == NatToString(i)
      ensures IndexedAs(r.fields[k].elemId, "id_projects") ==> r.fields[k].elemId.index == NatToString(i)
    {
      assert r.fields[k] == RenameField(s.fields[k], i);
    }
  }

  /** After renumbering, every section carries its own position. */
  lemma RenumberedNumbered(ss: seq<Section>)
    ensures Numbered(Renumbered(ss))
  {
    forall i | 0 <= i < |ss| ensures SectionAt(Renumbered(ss)[i], i) {
      RenumberSectionAt(ss[i], i);
    }
  }

  lemma SectionAtFixed(s: Section, i: nat)
    requires SectionAt(s, i)
    ensures RenumberSection(s, i) == s
  {
    var r := RenumberSection(s, i);
    forall k | 0 <= k < |s.fields| ensures r.fields[k] == s.fields[k] {
      var f := s.fields[k];
      if Selected(f) {
        if IndexedAs(f.name, "projects") {
          assert f.name == Indexed("projects", NatToString(i), f.name.field);
        }
        if IndexedAs(f.elemId, "id_projects") {
          assert f.elemId == Indexed("id_projects", NatToString(i), f.elemId.field);
        }
      }
    }
  }

  /** Sections that are already numbered are left as they are. */
  lemma NumberedFixed(ss: seq<Section>)
    requires Numbered(ss)
    ensures Renumbered(ss) == ss
  {
    forall i | 0 <= i < |ss| ensures Renumbered(ss)[i] == ss[i] {
      SectionAtFixed(ss[i], i);
    }
  }

  /** Renumbering twice is renumbering once. */
  lemma RenumberIdempotent(st: ProjectState)
    ensures RenumberState(RenumberState(st)) == RenumberState(st)
    ensures RenumberState(st).total.Some? ==> Consistent(RenumberState(st))
  {
    RenumberedNumbered(st.sections);
    NumberedFixed(Renumbered(st.sections));
  }

  lemma DeleteIdNamesDiffer(k: JsInt)
    ensures DeleteName(k) != IdName(k)
  {
    var d, n := DeleteName(k), IdName(k);
    assert d[|d| - 1] == 'E';
    assert n[|n| - 1] == 'd';
  }

  /** Deleting a saved project leaves the counter alone, drops the section,
      and leaves the bin with exactly one DELETE=on and one id marker for its
      index, after every unrelated marker. */
  lemma PersistedDelete(st: ProjectState, s: nat)
    requires s < |st.sections| && Persisted(st.sections[s])
    ensures var r := DeletedState(st, s, true, true);
      var k := ProjectIndex(st.sections[s]);
      r.total == st.total && r.sections == RemoveAt(st.sections, s) &&
      CountNamed(r.bin, DeleteName(k)) == 1 && CountNamed(r.bin, IdName(k)) == 1 &&
      r.bin[|r.bin| - 2] == Hidden(DeleteName(k), "on") &&
      r.bin[|r.bin| - 1] == Hidden(IdName(k), HiddenId(st.sections[s].fields).value.value) &&
      (forall h :: h in st.bin && h.name != DeleteName(k) && h.name != IdName(k) ==> h in r.bin)
  {
    var k := ProjectIndex(st.sections[s]);
    DeleteIdNamesDiffer(k);
    ReplacePair(st.bin, Hidden(DeleteName(k), "on"), Hidden(IdName(k), HiddenId(st.sections[s].fields).value.value));
  }

  /** Deleting an unsaved project as written drops it and sets the counter
      to the remaining number of sections, but only the first remaining
      section's data attribute is reset: no control is renamed. */
  lemma UnsavedDelete(st: ProjectState, s: nat)
    requires s < |st.sections| && !Persisted(st.sections[s]) && st.total.Some?
    ensures var r := DeletedState(st, s, true, true);
      var rest := RemoveAt(st.sections, s);
      r.total == Some(NatToString(|rest|)) && r.bin == st.bin && |r.sections| == |rest| &&
      (forall i :: 0 <= i < |rest| ==> r.sections[i].fields == rest[i].fields && r.sections[i].marked == rest[i].marked) &&
      (forall i :: 0 < i < |rest| ==> r.sections[i] == rest[i]) &&
      (|rest| > 0 ==> r.sections[0].dataIndex == "0")
  {
  }

  /** Deleting an unsaved project as intended drops it and leaves the counter
      equal to the remaining number of sections, all renumbered. */
  lemma IntendedUnsavedDelete(st: ProjectState, s: nat)
    requires s < |st.sections| && !Persisted(st.sections[s]) && st.total.Some?
    ensures var r := IntendedDeletedState(st, s, true, true);
      Consistent(r) && |r.sections| == |st.sections| - 1 && r.bin == st.bin
  {
    RenumberIdempotent(Removed(st, s));
  }

  /** Declining the prompt, or unchecking the box, only unchecks the box. */
  lemma DeclineChangesNothing(st: ProjectState, s: nat, checked: bool)
    requires s < |st.sections|
    ensures var r := DeletedState(st, s, checked, false);
      r.total == st.total && r.bin == st.bin && |r.sections| == |st.sections| &&
      !r.sections[s].marked &&
      (forall i :: 0 <= i < |st.sections| && i != s ==> r.sections[i] == st.sections[i]) &&
      r.sections[s].fields == st.sections[s].fields
  {
  }

  lemma NewSectionAt(n: nat)
    ensures SectionAt(NewSection(NatToString(n)), n)
  {
  }

  /** addProjectRow on a consistent page keeps it consistent: the new section
      takes index TOTAL_FORMS and the counter goes up by one. */
  lemma AddKeepsConsistent(st: ProjectState)
    requires Consistent(st)
    ensures var r := AddedState(st, true);
      Consistent(r) && r.sections == st.sections + [NewSection(NatToString(|st.sections|))] && r.bin == st.bin
  {
    var n := |st.sections|;
    ParseIntOfString(n);
    assert NatToString(n) != "";
    NewSectionAt(n);
    var r := AddedState(st, true);
    assert r.total == Some(NatToString(n + 1)) by {
      ParseIntOfString(n);
    }
    forall i | 0 <= i < |r.sections| ensures SectionAt(r.sections[i], i) {
      if i < n { assert r.sections[i] == st.sections[i]; }
    }
  }

  lemma NewSectionUnsaved(k: string)
    ensures !Persisted(NewSection(k))
  {
    var f := NewSection(k).fields[0];
    var t := Flat(f.name);
    assert t == "projects-" + k + "-id";
    assert t[..9] == "projects-";
    assert t[|t| - 3..] == "-id";
    assert IsIdField(f);
  }

  /** Adding a project and then deleting that new, unsaved project gives back
      the page as it was. */
  lemma AddThenDeleteRestores(st: ProjectState)
    requires Consistent(st)
    ensures DeletedState(AddedState(st, true), |st.sections|, true, true) == st
  {
    var n := |st.sections|;
    AddKeepsConsistent(st);
    var a := AddedState(st, true);
    NewSectionUnsaved(NatToString(n));
    ParseIntOfString(n + 1);
    assert RemoveAt(a.sections, n) == st.sections;
    NumberedFixed(st.sections);
  }

  /** The deviation in renumberProjects: after an unsaved first project is
      removed, the remaining project keeps its projects-1- names while the
      counter says one form, so its data would be posted under an index the
      formset does not read. The intended renumbering gives index 0. */
  lemma RenumberAsWrittenLeavesStaleNames()
    ensures var st := ProjectState([NewSection("1")], Some("1"), []);
      !Numbered(RenumberStateAsWritten(st).sections) && Consistent(RenumberState(st))
  {
    var st := ProjectState([NewSection("1")], Some("1"), []);
    var w := RenumberStateAsWritten(st).sections;
    assert w[0].fields[0].name == Indexed("projects", "1", "id");
    assert Selected(w[0].fields[0]) by {
      assert Flat(w[0].fields[0].name)[..9] == "projects-";
    }
    assert NatToString(0) == "0";
    assert !SectionAt(w[0], 0);
    RenumberIdempotent(st);
  }

  /** The `.project-section` blocks of the page and their counter and bin. */
  class ProjectForm {
    var sections: seq<Section>
    var total: Option<string>
    var bin: seq<Hidden>

    function State(): ProjectState
      reads this
    {
      ProjectState(sections, total, bin)
    }

    constructor (initial: seq<Section>, counter: Option<string>)
      ensures State() == ProjectState(initial, counter, [])
    {
      sections := initial;
      total := counter;
      bin := [];
    }

    /** renumberProjects, with the renaming of lines 151-156 carried out. */
    method RenumberProjects()
      modifies this
      ensures State() == RenumberState(old(State()))
    {
      if total.Some? {
        total := Some(NatToString(|sections|));
      }
      var i := 0;
      while i < |sections|
        invariant 0 <= i <= |sections| == |old(sections)|
        invariant forall j :: 0 <= j < i ==> sections[j] == RenumberSection(old(sections)[j], j)
        invariant forall j :: i <= j < |sections| ==> sections[j] == old(sections)[j]
        invariant total == (if old(total).Some? then Some(NatToString(|old(sections)|)) else None)
        invariant bin == old(bin)
      {
        var sec := sections[i];
        var fields := RenameFields(sec.fields, i);
        assert Section(NatToString(i), fields, sec.marked) == RenumberSection(sec, i);
        sections := sections[i := Section(NatToString(i), fields, sec.marked)];
        i := i + 1;
      }
    }

    /** The inner loop of renumberProjects over one section's controls. */
    static method RenameFields(fs: seq<Field>, i: nat) returns (fields: seq<Field>)
      ensures |fields| == |fs|
      ensures forall m :: 0 <= m < |fs| ==> fields[m] == RenameField(fs[m], i)
    {
      fields := fs;
      var k := 0;
      while k < |fields|
        invariant 0 <= k <= |fields| == |fs|
        invariant forall m :: 0 <= m < k ==> fields[m] == RenameField(fs[m], i)
        invariant forall m :: k <= m < |fields| ==> fields[m] == fs[m]
      {
        var f := fields[k];
        if StartsWith(Flat(f.name), "projects-") {
          var name := Reindex(f.name, "projects", i);
          var id := Reindex(f.elemId, "id_projects", i);
          fields := fields[k := Field(name, id, f.value)];
        }
        k := k + 1;
      }
    }

    /** renumberProjects exactly as written: it throws on the first section. */
    method RenumberProjectsAsWritten() returns (threw: bool)
      modifies this
      ensures threw == (|old(sections)| > 0)
      ensures State() == RenumberStateAsWritten(old(State()))
    {
      if total.Some? {
        total := Some(NatToString(|sections|));
      }
      threw := false;
      if |sections| > 0 {
        sections := sections[0 := sections[0].(dataIndex := "0")];
        threw := true;
      }
    }

    /** handleProjectDelete after a click on section s's delete control; the
        renumbering's exception ends the handler, with nothing left to do. */
    method ToggleProjectDelete(s: nat, checked: bool, confirmed: bool)
      requires s < |sections|
      modifies this
      ensures State() == DeletedState(old(State()), s, checked, confirmed)
    {
      var sec := sections[s];
      var hiddenId := HiddenId(sec.fields);
      var projectIndex := ProjectIndex(sec);
      if !checked {
        sections := sections[s := sec.(marked := false)];
        return;
      }
      if !confirmed {
        sections := sections[s := sec.(marked := false)];
        return;
      }
      if hiddenId.Some? && hiddenId.value.value != "" {
        var delName := DeleteName(projectIndex);
        var idName := IdName(projectIndex);
        bin := Without(bin, {delName, idName});
        bin := bin + [Hidden(delName, "on"), Hidden(idName, hiddenId.value.value)];
        sections := RemoveAt(sections, s);
        return;
      }
      sections := RemoveAt(sections, s);
      if total.Some? {
        var v := total.value;
        total := Some(MaxZero(CounterValue(v).Plus(-1)).ToString());
      }
      var threw := RenumberProjectsAsWritten();
    }

    /** addProjectRow; `hasContainer` says whether the page has the card
        that holds the sections. */
    method AddProjectRow(hasContainer: bool)
      modifies this
      ensures State() == AddedState(old(State()), hasContainer)
    {
      if total.None? || !hasContainer {
        return;
      }
      var v := total.value;
      var idx := CounterValue(v);
      var added := NewSection(idx.ToString());
      sections := sections + [added];
      total := Some(idx.Plus(1).ToString());
    }
  }
}
