// The ADM (Alternative Delivery Mode) PPA rows of the submission page: rows
// are cloned from a hidden template row whose control names carry the
// '__prefix__' placeholder, and deleted rows are hidden, not removed.
module AdmForms {
  import opened Wrappers
  import opened Text
  import opened FormNames
  import Lists

  /** One PPA row: its controls, the state of its delete checkbox and
      whether it is hidden. */
  datatype AdmRow = AdmRow(fields: seq<Field>, deleteChecked: bool, hidden: bool)

  /** The table body (when present), the template row's controls (when
      present), and the form's hidden inputs, management counters included. */
  datatype AdmState = AdmState(body: Option<seq<AdmRow>>, template: Option<seq<Field>>, inputs: seq<Hidden>)

  const Placeholder := "__prefix__"

  /** The placeholder index replaced by the allocated one. */
  function Instantiate(n: Name, idx: string): (r: Name)
    ensures n.Indexed? && n.index == Placeholder ==> r == n.(index := idx)
    ensures !(n.Indexed? && n.index == Placeholder) ==> r == n
  {
    if n.Indexed? && n.index == Placeholder then n.(index := idx) else n
  }

  function InstantiateFields(fs: seq<Field>, idx: string): (r: seq<Field>)
    ensures |r| == |fs|
    ensures forall i :: 0 <= i < |fs| ==>
      r[i] == Field(Instantiate(fs[i].name, idx), Instantiate(fs[i].elemId, idx), fs[i].value)
  {
    if fs == [] then []
    else [Field(Instantiate(fs[0].name, idx), Instantiate(fs[0].elemId, idx), fs[0].value)]
         + InstantiateFields(fs[1..], idx)
  }

  /** `sample.name.split('-')[0]`: the formset prefix read off the template. */
  function TemplatePrefix(sample: Field): string
  {
    Split(Flat(sample.name), '-')[0]
  }

  lemma TemplatePrefixIndexed(sample: Field)
    requires sample.name.Indexed? && Free(sample.name.prefix, '-')
    ensures TemplatePrefix(sample) == sample.name.prefix
  {
    var n := sample.name;
    assert Flat(n) == n.prefix + ['-'] + (n.index + "-" + n.field);
    SplitAfterFree(n.prefix, '-', n.index + "-" + n.field);
  }

  /** Whether addADMPPA gets past its guards: a body, a template, and a
      named first control. */
  predicate CanAdd(st: AdmState)
  {
    st.body.Some? && st.template.Some? && |st.template.value| > 0 && Flat(st.template.value[0].name) != ""
  }

  function AdmTotalName(st: AdmState): string
    requires CanAdd(st)
  {
    TemplatePrefix(st.template.value[0]) + "-TOTAL_FORMS"
  }

  /** The index the next row gets: the TOTAL_FORMS counter when it exists, else 0. */
  function NextAdmIndex(st: AdmState): JsInt
    requires CanAdd(st)
  {
    match Lookup(st.inputs, AdmTotalName(st))
    case Some(v) => CounterValue(v)
    case None => Int(0)
  }

  /** addADMPPA: a visible copy of the template with the index filled in is
      appended; the counter, when it exists, becomes index + 1. */
  function AddedAdm(st: AdmState): AdmState
  {
    if !CanAdd(st) then st
    else
      var idx := NextAdmIndex(st);
      var row := AdmRow(InstantiateFields(st.template.value, idx.ToString()), false, false);
      var total := AdmTotalName(st);
      AdmState(Some(st.body.value + [row]), st.template,
        if Lookup(st.inputs, total).Some? then SetFirst(st.inputs, total, idx.Plus(1).ToString()) else st.inputs)
  }

  /** With no body or no template addADMPPA does nothing. */
  lemma AddNeedsTemplate(st: AdmState)
    requires st.body.None? || st.template.None?
    ensures AddedAdm(st) == st
  {
  }

  /** With TOTAL_FORMS at k the new row is indexed k, every earlier row is
      kept, and the counter ends at k + 1. */
  lemma AddAllocatesTotal(st: AdmState, k: nat)
    requires CanAdd(st) && Lookup(st.inputs, AdmTotalName(st)) == Some(NatToString(k))
    ensures var out := AddedAdm(st);
      out.body.Some? && |out.body.value| == |st.body.value| + 1 &&
      out.body.value[..|st.body.value|] == st.body.value &&
      out.body.value[|st.body.value|] == AdmRow(InstantiateFields(st.template.value, NatToString(k)), false, false) &&
      Lookup(out.inputs, AdmTotalName(st)) == Some(NatToString(k + 1))
  {
    var total := AdmTotalName(st);
    CounterOfNat(k);
    var idx := NextAdmIndex(st);
    assert idx == Int(k);
    assert idx.ToString() == NatToString(k) && idx.Plus(1).ToString() == NatToString(k + 1);
    LookupSetFirst(st.inputs, total, NatToString(k + 1), total);
    var row := AdmRow(InstantiateFields(st.template.value, NatToString(k)), false, false);
    assert AddedAdm(st) == AdmState(Some(st.body.value + [row]), st.template, SetFirst(st.inputs, total, NatToString(k + 1)));
    Lists.AppendPrefix(st.body.value, [row]);
  }

  /** Two adds in a row allocate consecutive indices, so each placeholder
      control of the two new rows gets a different name. */
  lemma TwoAddsDiffer(st: AdmState, k: nat, i: nat)
    requires CanAdd(st) && Lookup(st.inputs, AdmTotalName(st)) == Some(NatToString(k))
    requires i < |st.template.value| && st.template.value[i].name.Indexed? &&
             st.template.value[i].name.index == Placeholder
    ensures var once := AddedAdm(st);
      var twice := AddedAdm(once);
      var n := |st.body.value|;
      CanAdd(once) && twice.body.Some? && |twice.body.value| == n + 2 &&
      twice.body.value[n].fields[i].name.index == NatToString(k) &&
      twice.body.value[n + 1].fields[i].name.index == NatToString(k + 1) &&
      Lookup(twice.inputs, AdmTotalName(st)) == Some(NatToString(k + 2))
  {
    AddAllocatesTotal(st, k);
    var once := AddedAdm(st);
    assert AdmTotalName(once) == AdmTotalName(st);
    AddAllocatesTotal(once, k + 1);
    DistinctNatStrings(k, k + 1);
  }

  lemma DistinctNatStrings(a: nat, b: nat)
    requires a != b
    ensures NatToString(a) != NatToString(b)
  {
    ParseIntOfString(a);
    ParseIntOfString(b);
  }

  predicate IsRow(st: AdmState, r: nat)
  {
    st.body.Some? && r < |st.body.value|
  }

  /** handleADMDeleteCheckbox after the box of row r becomes `checked`:
      a confirmed check hides the row, a declined one unchecks it, an
      uncheck shows the row again. */
  function AdmDeleteToggled(st: AdmState, r: nat, checked: bool, confirmed: bool): AdmState
    requires IsRow(st, r)
  {
    var rows := st.body.value;
    var row := rows[r];
    var row' :=
      if checked && !confirmed then row.(deleteChecked := false)
      else if checked then row.(deleteChecked := true, hidden := true)
      else row.(deleteChecked := false, hidden := false);
    st.(body := Some(rows[r := row']))
  }

  /** The delete gate: the row stays in the form either way (its checked
      DELETE box is what the server reads), and declining leaves it shown
      and unchecked if it was. */
  lemma AdmDeleteGate(st: AdmState, r: nat, checked: bool, confirmed: bool)
    requires IsRow(st, r)
    ensures var out := AdmDeleteToggled(st, r, checked, confirmed);
      out.inputs == st.inputs && out.template == st.template &&
      |out.body.value| == |st.body.value| &&
      (forall j :: 0 <= j < |st.body.value| && j != r ==> out.body.value[j] == st.body.value[j]) &&
      out.body.value[r].fields == st.body.value[r].fields &&
      (out.body.value[r].deleteChecked <==> checked && confirmed) &&
      (checked && confirmed ==> out.body.value[r].hidden) &&
      (checked && !confirmed ==> out.body.value[r].hidden == st.body.value[r].hidden) &&
      (!checked ==> !out.body.value[r].hidden)
  {
  }

  /** The ADM table of the page. */
  class AdmTable {
    var body: Option<seq<AdmRow>>
    var template: Option<seq<Field>>
    var inputs: seq<Hidden>

    function State(): AdmState
      reads this
    {
      AdmState(body, template, inputs)
    }

    constructor (initial: AdmState)
      ensures State() == initial
    {
      body := initial.body;
      template := initial.template;
      inputs := initial.inputs;
    }

    /** addADMPPA. */
    method AddAdmPpa()
      modifies this
      ensures State() == AddedAdm(old(State()))
    {
      if body.None? || template.None? {
        return;
      }
      var tpl := template.value;
      if |tpl| == 0 || Flat(tpl[0].name) == "" {
        return;
      }
      var prefix := TemplatePrefix(tpl[0]);
      var totalName := prefix + "-TOTAL_FORMS";
      var total := Lookup(inputs, totalName);
      var idx := if total.Some? then CounterValue(total.value) else Int(0);
      var fields: seq<Field> := [];
      var i := 0;
      while i < |tpl|
        invariant 0 <= i <= |tpl|
        invariant fields == InstantiateFields(tpl[..i], idx.ToString())
        invariant body == old(body) && template == old(template) && inputs == old(inputs)
      {
        InstantiateStep(tpl, i, idx.ToString());
        fields := fields + [Field(Instantiate(tpl[i].name, idx.ToString()), Instantiate(tpl[i].elemId, idx.ToString()), tpl[i].value)];
        i := i + 1;
      }
      assert tpl[..i] == tpl;
      body := Some(body.value + [AdmRow(fields, false, false)]);
      if total.Some? {
        inputs := SetFirst(inputs, totalName, idx.Plus(1).ToString());
      }
    }

    /** handleADMDeleteCheckbox for row r. */
    method ToggleAdmDelete(r: nat, checked: bool, confirmed: bool)
      requires IsRow(State(), r)
      modifies this
      ensures State() == AdmDeleteToggled(old(State()), r, checked, confirmed)
    {
      var rows := body.value;
      if checked {
        if !confirmed {
          body := Some(rows[r := rows[r].(deleteChecked := false)]);
          return;
        }
        body := Some(rows[r := rows[r].(deleteChecked := true, hidden := true)]);
      } else {
        body := Some(rows[r := rows[r].(deleteChecked := false, hidden := false)]);
      }
    }
  }

  lemma InstantiateStep(fs: seq<Field>, i: nat, idx: string)
    requires i < |fs|
    ensures InstantiateFields(fs[..i + 1], idx) ==
      InstantiateFields(fs[..i], idx) + [Field(Instantiate(fs[i].name, idx), Instantiate(fs[i].elemId, idx), fs[i].value)]
  {
    var a := InstantiateFields(fs[..i + 1], idx);
    var b := InstantiateFields(fs[..i], idx) + [Field(Instantiate(fs[i].name, idx), Instantiate(fs[i].elemId, idx), fs[i].value)];
    assert |a| == |b|;
    forall j | 0 <= j < |a| ensures a[j] == b[j] {
      if j < i {
        assert fs[..i + 1][j] == fs[..i][j];
      }
    }
  }
}
