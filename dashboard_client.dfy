// The SMME KPI dashboard page script: the query it sends, the renderer it
// picks for the returned view, the tables it builds, the summary and SLOP
// tallies, and the module-level slots it keeps (the last AbortController,
// the pending debounce timer, the sort inputs). The page is a sequential
// event machine: `Issue` starts a request, `Settle` delivers its outcome,
// timers fire one at a time. Network, timers and history are events and
// fields, not real concurrency.
module DashboardClient {
  import opened Wrappers
  import opened Text
  import opened Json

  // ----- Query construction -----

  /** URLSearchParams: name/value pairs in order. */
  type Query = seq<(string, string)>

  /** `params.get(name)`: the first value of that name. */
  function Get(q: Query, name: string): Option<string>
  {
    if |q| == 0 then None
    else if q[0].0 == name then Some(q[0].1)
    else Get(q[1..], name)
  }

  /** `params.getAll(name)`. */
  function Values(q: Query, name: string): seq<string>
  {
    if |q| == 0 then []
    else (if q[0].0 == name then [q[0].1] else []) + Values(q[1..], name)
  }

  /** The pairs whose names are not in `names`, in order. */
  function Keep(q: Query, names: set<string>): (r: Query)
    ensures |r| <= |q|
  {
    if |q| == 0 then []
    else (if q[0].0 in names then [] else [q[0]]) + Keep(q[1..], names)
  }

  /** `params.set(name, value)`: the first pair of that name takes the new
      value and later pairs of that name go; with none, the pair is appended. */
  function SetParam(q: Query, name: string, value: string): Query
  {
    if |q| == 0 then [(name, value)]
    else if q[0].0 == name then [(name, value)] + Keep(q[1..], {name})
    else [q[0]] + SetParam(q[1..], name, value)
  }

  /** `currentQuery()`: the filter form's entries, or nothing without a form. */
  function FormQuery(form: Option<Query>): Query
  {
    form.GetOr([])
  }

  /** The parameters of the API request `doAjaxUpdate` sends. */
  function RequestParams(form: Option<Query>): Query
  {
    SetParam(SetParam(FormQuery(form), "page", "1"), "page_size", "10000")
  }

  lemma {:induction false} GetKeep(q: Query, names: set<string>, m: string)
    requires m !in names
    ensures Get(Keep(q, names), m) == Get(q, m)
  {
    if |q| > 0 {
      GetKeep(q[1..], names, m);
      var rest := Keep(q[1..], names);
      if q[0].0 !in names {
        assert Keep(q, names) == [q[0]] + rest;
        assert ([q[0]] + rest)[1..] == rest;
      } else {
        assert Keep(q, names) == rest;
      }
    }
  }

  lemma {:induction false} ValuesDropped(q: Query, names: set<string>, m: string)
    requires m in names
    ensures Values(Keep(q, names), m) == []
  {
    if |q| > 0 {
      ValuesDropped(q[1..], names, m);
      var rest := Keep(q[1..], names);
      if q[0].0 !in names {
        assert Keep(q, names) == [q[0]] + rest;
        assert Values([q[0]] + rest, m) == Values(rest, m) by {
          assert ([q[0]] + rest)[1..] == rest;
        }
      } else {
        assert Keep(q, names) == rest;
      }
    }
  }

  lemma {:induction false} KeepTwice(q: Query, inner: set<string>, outer: set<string>)
    requires inner <= outer
    ensures Keep(Keep(q, inner), outer) == Keep(q, outer)
  {
    if |q| > 0 {
      KeepTwice(q[1..], inner, outer);
      var rest := Keep(q[1..], inner);
      if q[0].0 !in inner {
        assert Keep(q, inner) == [q[0]] + rest;
        assert ([q[0]] + rest)[1..] == rest;
      } else {
        assert Keep(q, inner) == rest;
      }
    }
  }

  /** After `set`, reading any name gives the new value for that name and the
      old first value for every other name. */
  lemma {:induction false} SetParamGets(q: Query, name: string, value: string, m: string)
    ensures Get(SetParam(q, name, value), m) == if m == name then Some(value) else Get(q, m)
  {
    if |q| > 0 {
      if q[0].0 == name {
        var rest := Keep(q[1..], {name});
        assert ([(name, value)] + rest)[1..] == rest;
        if m != name {
          GetKeep(q[1..], {name}, m);
        }
      } else {
        SetParamGets(q[1..], name, value, m);
        assert ([q[0]] + SetParam(q[1..], name, value))[1..] == SetParam(q[1..], name, value);
      }
    }
  }

  /** After `set`, exactly one pair carries that name. */
  lemma {:induction false} SetParamSingle(q: Query, name: string, value: string)
    ensures Values(SetParam(q, name, value), name) == [value]
  {
    if |q| == 0 {
    } else if q[0].0 == name {
      var rest := Keep(q[1..], {name});
      ValuesDropped(q[1..], {name}, name);
      assert ([(name, value)] + rest)[1..] == rest;
    } else {
      SetParamSingle(q[1..], name, value);
      assert ([q[0]] + SetParam(q[1..], name, value))[1..] == SetParam(q[1..], name, value);
    }
  }

  /** `set` leaves every pair of the other names, in order. */
  lemma {:induction false} SetParamKeeps(q: Query, name: string, value: string, names: set<string>)
    requires name in names
    ensures Keep(SetParam(q, name, value), names) == Keep(q, names)
  {
    if |q| == 0 {
      assert Keep([(name, value)], names) == [] + Keep([], names);
    } else if q[0].0 == name {
      var rest := Keep(q[1..], {name});
      assert ([(name, value)] + rest)[1..] == rest;
      KeepTwice(q[1..], {name}, names);
    } else {
      SetParamKeeps(q[1..], name, value, names);
      assert ([q[0]] + SetParam(q[1..], name, value))[1..] == SetParam(q[1..], name, value);
    }
  }

  /** Every request asks for page 1 of size 10000, once each, and carries
      every other form entry unchanged and in order. */
  lemma RequestCarriesForm(form: Option<Query>, m: string)
    ensures Values(RequestParams(form), "page") == ["1"]
    ensures Values(RequestParams(form), "page_size") == ["10000"]
    ensures m != "page" && m != "page_size" ==> Get(RequestParams(form), m) == Get(FormQuery(form), m)
    ensures Keep(RequestParams(form), {"page", "page_size"}) == Keep(FormQuery(form), {"page", "page_size"})
  {
    var q := FormQuery(form);
    var q1 := SetParam(q, "page", "1");
    SetParamSingle(q1, "page_size", "10000");
    SetParamGets(q1, "page_size", "10000", m);
    SetParamGets(q, "page", "1", m);
    SetParamKeeps(q1, "page_size", "10000", {"page", "page_size"});
    SetParamKeeps(q, "page", "1", {"page", "page_size"});
    PageSurvives(q1);
    SetParamSingle(q, "page", "1");
  }

  /** Setting page_size does not disturb the page values. */
  lemma {:induction false} PageSurvives(q: Query)
    ensures Values(SetParam(q, "page_size", "10000"), "page") == Values(q, "page")
  {
    if |q| == 0 {
    } else if q[0].0 == "page_size" {
      var rest := Keep(q[1..], {"page_size"});
      assert ([("page_size", "10000")] + rest)[1..] == rest;
      KeepValues(q[1..], "page_size", "page");
    } else {
      PageSurvives(q[1..]);
      assert ([q[0]] + SetParam(q[1..], "page_size", "10000"))[1..] == SetParam(q[1..], "page_size", "10000");
    }
  }

  lemma {:induction false} KeepValues(q: Query, dropped: string, m: string)
    requires m != dropped
    ensures Values(Keep(q, {dropped}), m) == Values(q, m)
  {
    if |q| > 0 {
      KeepValues(q[1..], dropped, m);
      var rest := Keep(q[1..], {dropped});
      if q[0].0 != dropped {
        assert Keep(q, {dropped}) == [q[0]] + rest;
        assert ([q[0]] + rest)[1..] == rest;
      } else {
        assert Keep(q, {dropped}) == rest;
      }
    }
  }

  // ----- JavaScript coercions of API values -----

  /** A JavaScript number: a finite value or NaN. */
  datatype JsNumber = Finite(x: real) | NotANumber

  function Pow10(k: nat): (p: nat)
    ensures p >= 1
  {
    if k == 0 then 1 else 10 * Pow10(k - 1)
  }

  /** The value of the decimal `<whole>.<frac>`. */
  function DecimalValue(whole: string, frac: string): real
    requires AllDigits(whole) && AllDigits(frac)
  {
    DigitsValue(whole) as real + DigitsValue(frac) as real / Pow10(|frac|) as real
  }

  /** Digits, a point, digits, with at least one digit in all ("74.5",
      "5.", ".5"); None for any other text. */
  function UnsignedDecimal(t: string): Option<real>
  {
    var w := LeadingDigits(t);
    if |t| >= 2 && |w| < |t| && t[|w|] == '.' && AllDigits(t[|w| + 1..]) then
      Some(DecimalValue(w, t[|w| + 1..]))
    else None
  }

  /** An unsigned decimal with an optional sign. */
  function DecimalOf(t: string): Option<real>
  {
    if |t| > 0 && (t[0] == '-' || t[0] == '+') then
      match UnsignedDecimal(t[1..])
      case Some(v) => Some(if t[0] == '-' then -v else v)
      case None => None
    else UnsignedDecimal(t)
  }

  /** `Number(x)` of text: blank is 0, an optionally signed decimal integer
      or decimal fraction is its value, anything else NaN. */
  function NumberOfText(s: string): JsNumber
  {
    var t := Trim(s);
    if t == "" then Finite(0.0)
    else
      match ParseIntStrict(t)
      case Some(n) => Finite(n as real)
      case None =>
        match DecimalOf(t)
        case Some(v) => Finite(v)
        case None => NotANumber
  }

  /** `Number(x)`, which relational comparisons with a number also apply. */
  function NumberOf(j: Json): JsNumber
  {
    match j
    case JNull => Finite(0.0)
    case JBool(b) => Finite(if b then 1.0 else 0.0)
    case JNum(n) => Finite(n as real)
    case JDec(t) => Finite(t as real / 10.0)
    case _ => NumberOfText(ToText(j))
  }

  lemma NumberOfIntText(n: int)
    ensures NumberOf(JStr(IntToString(n))) == Finite(n as real)
    ensures NumberOf(JNum(n)) == Finite(n as real)
  {
    PyIntOfString(n);
    assert Trim(IntToString(n)) != "" by {
      TrimmedFixed(IntToString(n));
      DigitsOfNat(if n < 0 then -n else n);
    }
  }

  /** `x || 0` on a property read (undefined when absent). */
  function OrZeroValue(o: Option<Json>): Json
  {
    if o.Some? && Truthy(o.value) then o.value else JNum(0)
  }

  /** `${x || 0}`. */
  function ValueText(r: Json, key: string): string
  {
    ToText(OrZeroValue(Member(r, key)))
  }

  predicate Positive(x: JsNumber)
  {
    x.Finite? && x.x > 0.0
  }

  // ----- perfClass -----

  datatype Perf = High | Medium | Low

  function PerfOf(v: JsNumber): (p: Perf)
    ensures p == High <==> v.Finite? && v.x >= 75.0
    ensures p == Medium <==> v.Finite? && 50.0 <= v.x < 75.0
  {
    if v.Finite? && v.x >= 75.0 then High
    else if v.Finite? && v.x >= 50.0 then Medium
    else Low
  }

  /** `perfClass(pct)`: `Number(pct || 0)` bucketed at 75 and 50; NaN is low. */
  function PerfClass(pct: Option<Json>): Perf
  {
    PerfOf(NumberOf(OrZeroValue(pct)))
  }

  function PerfRank(p: Perf): nat
  {
    match p
    case Low => 0
    case Medium => 1
    case High => 2
  }

  /** A higher percentage never gets a lower class. */
  lemma PerfMonotone(a: real, b: real)
    requires a <= b
    ensures PerfRank(PerfOf(Finite(a))) <= PerfRank(PerfOf(Finite(b)))
  {
    if b < 50.0 {
      assert PerfOf(Finite(a)) == Low;
    } else if b < 75.0 {
      assert PerfOf(Finite(b)) == Medium && PerfOf(Finite(a)) != High;
    }
  }

  /** A one-decimal percentage is classed by its value, whether it arrives
      as a number or as text: 74.5 is medium, 75.0 high, 49.9 low. */
  lemma PerfOfDecimal()
    ensures PerfClass(Some(JDec(745))) == Medium
    ensures PerfClass(Some(JStr("74.5"))) == Medium
    ensures PerfClass(Some(JDec(750))) == High
    ensures PerfClass(Some(JDec(499))) == Low
  {
    var w := "74";
    assert AllDigits(w) && DigitsValue(w) == 74;
    UnsignedOfDigits(w, '5', "74.5");

    ReadUnsigned("74.5");
  }

  /** The text of a leading run of digits followed by a non-digit. */
  lemma {:induction false} LeadingDigitsOf(w: string, rest: string)
    requires AllDigits(w) && |rest| > 0 && !IsDigit(rest[0])
    ensures LeadingDigits(w + rest) == w
  {
    if |w| > 0 {
      LeadingDigitsOf(w[1..], rest);
      assert (w + rest)[1..] == w[1..] + rest;
      assert [w[0]] + w[1..] == w;
    }
  }

  /** `<digits>.<digit>` is read as the decimal it spells. */
  lemma UnsignedOfDigits(w: string, d: char, body: string)
    requires |w| >= 1 && AllDigits(w) && IsDigit(d) && body == w + "." + [d]
    ensures UnsignedDecimal(body) == Some(DigitsValue(w) as real + DigitValue(d) as real / 10.0)
  {
    var rest := "." + [d];
    LeadingDigitsOf(w, rest);
    assert body == w + rest;
    assert LeadingDigits(body) == w;
    assert body[|w|] == '.';
    var frac := body[|w| + 1..];
    assert frac == [d];
    assert AllDigits(frac);
    assert DigitsValue(frac) == DigitValue(d) by {
      assert frac[..0] == [];
    }
    assert Pow10(|frac|) == 10 by {
      assert Pow10(0) == 1;
    }
    assert |body| >= 2 && |w| < |body|;
    assert UnsignedDecimal(body) == Some(DecimalValue(w, frac));
    assert DecimalValue(w, frac) == DigitsValue(w) as real + DigitValue(d) as real / 10.0;
  }

  /** Text that starts with a digit and holds a point is no integer. */
  lemma ReadUnsigned(s: string)
    requires |s| >= 2 && IsDigit(s[0]) && IsDigit(s[|s| - 1]) && UnsignedDecimal(s).Some?
    ensures NumberOfText(s) == Finite(UnsignedDecimal(s).value)
  {
    TrimmedFixed(s);
    var w := LeadingDigits(s);
    assert s[|w|] == '.';
    assert !AllDigits(s);
  }

  /** A minus sign before such text negates it. */
  lemma ReadNegative(s: string)
    requires |s| >= 2 && IsDigit(s[0]) && IsDigit(s[|s| - 1]) && UnsignedDecimal(s).Some?
    ensures NumberOfText("-" + s) == Finite(-UnsignedDecimal(s).value)
  {
    var n := "-" + s;
    TrimmedFixed(n);
    assert n[1..] == s;
    var w := LeadingDigits(s);
    assert s[|w|] == '.';
    assert !AllDigits(s);
  }

  /** The text `String(t / 10)` shows reads back as the same number. */
  lemma DecimalTextReadsBack(t: int)
    ensures NumberOfText(DecimalText(t)) == Finite(t as real / 10.0)
  {
    if t % 10 == 0 {
      NumberOfIntText(t / 10);
      assert t == (t / 10) * 10;
    } else {
      FractionTextReadsBack(t);
    }
  }

  lemma FractionTextReadsBack(t: int)
    requires t % 10 != 0
    ensures NumberOfText(DecimalText(t)) == Finite(t as real / 10.0)
  {
    var a: nat := if t < 0 then -t else t;
    var w := NatToString(a / 10);
    var d := DigitChar(a % 10);
    var body := w + "." + [d];
    UnsignedOfDigits(w, d, body);
    FractionValue(a);
    assert IsDigit(body[0]) && body[|body| - 1] == d;
    if t < 0 {
      assert DecimalText(t) == "-" + body;
      ReadNegative(body);
    } else {
      assert DecimalText(t) == body;
      ReadUnsigned(body);
    }
  }

  /** The whole part and the tenths digit of a add up to a / 10. */
  lemma FractionValue(a: nat)
    ensures DigitsValue(NatToString(a / 10)) as real + DigitValue(DigitChar(a % 10)) as real / 10.0 == a as real / 10.0
  {
    DigitsOfNat(a / 10);
    assert DigitValue(DigitChar(a % 10)) == a % 10;
    assert a == (a / 10) * 10 + a % 10;
  }

  // ----- Renderers -----

  /** One table cell: text, or a KPI bar with its class, data-key and value. */
  datatype Cell = Plain(text: string) | Bar(perf: Perf, key: string, value: string)
  datatype Body = Rows(rows: seq<seq<Cell>>) | NoData(colspan: nat)
  datatype Table = Table(headers: seq<string>, body: Body)

  /** Every row has one cell per header; the "No data." row spans them all. */
  predicate WellFormed(t: Table)
  {
    match t.body
    case Rows(rows) => |rows| > 0 && forall i :: 0 <= i < |rows| ==> |rows[i]| == |t.headers|
    case NoData(c) => c == |t.headers|
  }

  datatype Renderer = Overview | SimpleBands(bands: seq<string>)

  const SlpBandKeys: seq<string> := ["dnme", "fs", "s", "vs", "o"]
  const PhiliriBandKeys: seq<string> := ["frustration_pct", "instructional_pct", "independent_pct"]
  const CrlaBandKeys: seq<string> := ["low_emerging_pct", "high_emerging_pct", "developing_pct", "transitioning_pct"]
  const RmaBandKeys: seq<string> :=
    ["not_proficient_pct", "low_proficient_pct", "nearly_proficient_pct", "proficient_pct", "at_grade_level_pct"]

  /** `data.view || params.get('kpi_part') || 'all'`. */
  function ViewOf(dataView: Option<Json>, kpiPart: Option<string>): Json
  {
    if dataView.Some? && Truthy(dataView.value) then dataView.value
    else if kpiPart.Some? && kpiPart.value != "" then JStr(kpiPart.value)
    else JStr("all")
  }

  /** The view names that have a renderer of their own. */
  predicate KnownView(s: string)
  {
    s == "slp" || s == "rma" || s == "supervision" || s == "adm" || StartsWith(s, "reading")
  }

  /** The dispatch chain: None where `view.startsWith` throws, because the
      view is not a string. */
  function RendererFor(view: Json): Option<Renderer>
  {
    if view == JStr("all") || view == JStr("implementation") then Some(Overview)
    else if view == JStr("slp") then Some(SimpleBands(SlpBandKeys))
    else if !view.JStr? then None
    else if StartsWith(view.s, "reading") then
      Some(SimpleBands(if Contains(view.s, "philiri") then PhiliriBandKeys else CrlaBandKeys))
    else if view.s == "rma" then Some(SimpleBands(RmaBandKeys))
    else if view.s == "supervision" then Some(SimpleBands(["percent_ta"]))
    else if view.s == "adm" then Some(SimpleBands(["overall_adm"]))
    else Some(Overview)
  }

  /** A string view always has a renderer, and it is the overview exactly
      when the view is none of the named ones. Other values throw. */
  lemma RendererChoice(view: Json)
    ensures RendererFor(view).Some? <==> view.JStr?
    ensures view.JStr? ==> (RendererFor(view) == Some(Overview) <==> !KnownView(view.s))
  {
    if view.JStr? && StartsWith(view.s, "reading") {
      assert view.s != "all" && view.s != "implementation" by {
        assert view.s[..7] == "reading" && view.s[0] == 'r';
      }
    }
  }

  /** The view the request falls back to when the API names none. */
  lemma ViewFallback(dataView: Option<Json>, kpiPart: Option<string>)
    ensures Truthy(ViewOf(dataView, kpiPart))
    ensures (dataView.None? || !Truthy(dataView.value)) && (kpiPart.None? || kpiPart.value == "") ==>
      RendererFor(ViewOf(dataView, kpiPart)) == Some(Overview)
  {
  }

  /** `${r.school_id || r.school_name}`, the bar's data-key stem. */
  function BarKey(r: Json): string
  {
    var sid := Member(r, "school_id");
    if sid.Some? && Truthy(sid.value) then ToText(sid.value) else MemberText(r, "school_name")
  }

  function Percent(r: Json, key: string): Cell
  {
    Plain(ValueText(r, key) + "%")
  }

  function BarCell(r: Json, key: string, suffix: string): Cell
  {
    Bar(PerfClass(Member(r, key)), BarKey(r) + suffix, ValueText(r, key))
  }

  function NameCells(r: Json): seq<Cell>
  {
    [Plain(MemberText(r, "school_name")), Plain(MemberOrEmpty(r, "district"))]
  }

  /** One row of `renderSimpleBands`: None where `r.school_name` throws,
      that is when the result is `null`; any other value has its members
      read, "undefined" where one is missing. */
  function BandsRow(r: Json, bands: seq<string>): (row: Option<seq<Cell>>)
    ensures row.None? <==> r == JNull
    ensures row.Some? ==> |row.value| == |bands| + 2 && row.value[..2] == NameCells(r)
  {
    if r == JNull then None
    else Some(NameCells(r) + seq(|bands|, j requires 0 <= j < |bands| => Percent(r, bands[j])))
  }

  /** The table of the rows `row(results[i])`: None where the map throws,
      on the first result whose row cannot be read. */
  function RowsTable(headers: seq<string>, results: seq<Json>, rows: seq<Option<seq<Cell>>>): (t: Option<Table>)
    requires |rows| == |results|
    requires forall i :: 0 <= i < |rows| ==> (rows[i].None? <==> results[i] == JNull)
    requires forall i :: 0 <= i < |rows| && rows[i].Some? ==> |rows[i].value| == |headers|
    ensures t.None? <==> JNull in results
    ensures t.Some? ==> WellFormed(t.value) && t.value.headers == headers
    ensures t.Some? ==> (t.value.body.Rows? <==> |results| > 0)
    ensures t.Some? && t.value.body.Rows? ==> (|t.value.body.rows| == |results| &&
      forall i :: 0 <= i < |results| ==> rows[i] == Some(t.value.body.rows[i]))
  {
    if JNull in results then
      None
    else if |results| == 0 then
      Some(Table(headers, NoData(|headers|)))
    else
      Some(Table(headers, Rows(seq(|results|, i requires 0 <= i < |results| => rows[i].GetOr([])))))
  }

  /** `renderSimpleBands(results, bands)`. */
  function BandsTable(results: seq<Json>, bands: seq<string>): (t: Option<Table>)
    ensures t.None? <==> JNull in results
    ensures t.Some? ==> WellFormed(t.value) && |t.value.headers| == |bands| + 2
    ensures t.Some? ==> (t.value.body.Rows? <==> |results| > 0)
    ensures t.Some? && t.value.body.Rows? ==> (|t.value.body.rows| == |results| &&
      forall i :: 0 <= i < |results| ==> |t.value.body.rows[i]| >= 2 && t.value.body.rows[i][..2] == NameCells(results[i]))
  {
    RowsTable(["School", "District"] + bands, results,
      seq(|results|, i requires 0 <= i < |results| => BandsRow(results[i], bands)))
  }

  const ImplementationHeaders: seq<string> :=
    ["School", "District", "Level", "% Implementation", "Access", "Quality", "Equity", "Enabling"]
  const OverviewHeaders: seq<string> :=
    ["School", "District", "Level", "% Impl", "SLP", "CRLA", "PHILIRI", "RMA", "Supervision", "ADM"]

  /** One row of the implementation columns; None where the result is
      `null` and `r.school_name` throws. */
  function ImplementationRow(r: Json): (row: Option<seq<Cell>>)
    ensures row.None? <==> r == JNull
    ensures row.Some? ==> |row.value| == |ImplementationHeaders| && row.value[..2] == NameCells(r)
  {
    if r == JNull then None
    else Some(NameCells(r) + [Plain(MemberOrEmpty(r, "school_level")), BarCell(r, "implementation", "-impl"),
      Percent(r, "impl_access"), Percent(r, "impl_quality"), Percent(r, "impl_equity"), Percent(r, "impl_enabling")])
  }

  /** One row of the overview columns; None where the result is `null`. */
  function OverviewRow(r: Json): (row: Option<seq<Cell>>)
    ensures row.None? <==> r == JNull
    ensures row.Some? ==> |row.value| == |OverviewHeaders| && row.value[..2] == NameCells(r)
  {
    if r == JNull then None
    else Some(NameCells(r) + [Plain(MemberOrEmpty(r, "school_level")), BarCell(r, "implementation", "-impl"),
      BarCell(r, "slp", "-slp"), Percent(r, "reading_crla"), Percent(r, "reading_philiri"),
      Percent(r, "rma"), Percent(r, "supervision"), Percent(r, "adm")])
  }

  /** `renderOverview(results)`: the implementation columns when the page's
      kpi_part select reads 'implementation', the overview columns otherwise. */
  function OverviewTable(results: seq<Json>, kpiSelect: Option<string>): (t: Option<Table>)
    ensures t.None? <==> JNull in results
    ensures t.Some? ==> WellFormed(t.value)
    ensures t.Some? ==> (t.value.body.Rows? <==> |results| > 0)
    ensures t.Some? && t.value.body.Rows? ==> (|t.value.body.rows| == |results| &&
      forall i :: 0 <= i < |results| ==> |t.value.body.rows[i]| >= 2 && t.value.body.rows[i][..2] == NameCells(results[i]))
    ensures t.Some? ==> |t.value.headers| == if kpiSelect == Some("implementation") then 8 else 10
  {
    if kpiSelect == Some("implementation") then
      RowsTable(ImplementationHeaders, results,
        seq(|results|, i requires 0 <= i < |results| => ImplementationRow(results[i])))
    else
      RowsTable(OverviewHeaders, results,
        seq(|results|, i requires 0 <= i < |results| => OverviewRow(results[i])))
  }

  /** The chosen renderer over the results; None where it throws. */
  function Render(renderer: Renderer, results: seq<Json>, kpiSelect: Option<string>): (t: Option<Table>)
    ensures t.None? <==> JNull in results
  {
    match renderer
    case Overview => OverviewTable(results, kpiSelect)
    case SimpleBands(bands) => BandsTable(results, bands)
  }

  /** `data.results || []`: None where `.map` throws on a non-array. */
  function ResultsOf(data: Json): Option<seq<Json>>
  {
    var m := Member(data, "results");
    if m.None? || !Truthy(m.value) then Some([])
    else if m.value.JArr? then Some(m.value.items)
    else None
  }

  // ----- Summary tallies -----

  /** `r.school_id || r.id`; None is `undefined`. */
  function SchoolKey(r: Json): Option<Json>
  {
    var sid := Member(r, "school_id");
    if sid.Some? && Truthy(sid.value) then sid else Member(r, "id")
  }

  /** The set `updateSummaryFromApi` fills. */
  function SchoolKeys(rs: seq<Json>): set<Option<Json>>
  {
    if |rs| == 0 then {} else SchoolKeys(rs[..|rs| - 1]) + {SchoolKey(rs[|rs| - 1])}
  }

  predicate KeyedBy(rs: seq<Json>, k: Option<Json>)
  {
    exists i :: 0 <= i < |rs| && SchoolKey(rs[i]) == k
  }

  lemma {:induction false} SchoolKeysExact(rs: seq<Json>, k: Option<Json>)
    ensures k in SchoolKeys(rs) <==> KeyedBy(rs, k)
  {
    if |rs| > 0 {
      var init := rs[..|rs| - 1];
      SchoolKeysExact(init, k);
      assert forall i :: 0 <= i < |init| ==> init[i] == rs[i];
      assert KeyedBy(rs, k) <==> KeyedBy(init, k) || SchoolKey(rs[|rs| - 1]) == k;
    }
  }

  /** The schools card never exceeds the data-points card. */
  lemma {:induction false} SchoolKeysBound(rs: seq<Json>)
    ensures |SchoolKeys(rs)| <= |rs|
  {
    if |rs| > 0 {
      SchoolKeysBound(rs[..|rs| - 1]);
    }
  }

  /** With one row per school the two cards agree. */
  lemma {:induction false} SchoolKeysDistinct(rs: seq<Json>)
    requires forall i, j :: 0 <= i < j < |rs| ==> SchoolKey(rs[i]) != SchoolKey(rs[j])
    ensures |SchoolKeys(rs)| == |rs|
  {
    if |rs| > 0 {
      var init := rs[..|rs| - 1];
      SchoolKeysDistinct(init);
      SchoolKeysExact(init, SchoolKey(rs[|rs| - 1]));
      assert forall i :: 0 <= i < |init| ==> init[i] == rs[i];
      assert !KeyedBy(init, SchoolKey(rs[|rs| - 1]));
    }
  }

  /** `updateSummaryFromApi`: the distinct school keys and the row count. */
  method SummaryTally(results: seq<Json>) returns (schools: nat, points: nat)
    ensures schools == |SchoolKeys(results)| && points == |results|
  {
    var uniq: set<Option<Json>> := {};
    var i := 0;
    while i < |results|
      invariant 0 <= i <= |results|
      invariant uniq == SchoolKeys(results[..i])
    {
      assert results[..i + 1][..i] == results[..i];
      uniq := uniq + {SchoolKey(results[i])};
      i := i + 1;
    }
    assert results[..|results|] == results;
    schools := |uniq|;
    points := |results|;
  }

  // ----- SLOP summary -----

  /** The reason codes a..f and the API fields they read. */
  const SlopCodes: seq<char> := ['a', 'b', 'c', 'd', 'e', 'f']
  const SlopFields: seq<string> := ["slop_prereq_count", "slop_llc_difficult_count", "slop_llc_not_covered_count",
    "slop_sped_needs_count", "slop_reading_link_count", "slop_other_count"]

  /** `Number(r[field] || 0)` for reason code j. */
  function Reason(r: Json, j: nat): JsNumber
    requires j < 6
  {
    NumberOf(OrZeroValue(Member(r, SlopFields[j])))
  }

  function Contribution(x: JsNumber): (c: real)
    ensures c >= 0.0 && (c > 0.0 <==> Positive(x))
  {
    if Positive(x) then x.x else 0.0
  }

  /** `if(sid)`: the row has a truthy school key. */
  predicate HasSid(r: Json)
  {
    SchoolKey(r).Some? && Truthy(SchoolKey(r).value)
  }

  function SidSet(r: Json): set<Json>
  {
    if HasSid(r) then {SchoolKey(r).value} else {}
  }

  /** Total of reason j: the sum of its positive values. */
  function SlopTotal(rs: seq<Json>, j: nat): real
    requires j < 6
  {
    if |rs| == 0 then 0.0 else SlopTotal(rs[..|rs| - 1], j) + Contribution(Reason(rs[|rs| - 1], j))
  }

  /** The schools having a positive value for reason j. */
  function ReasonSchools(rs: seq<Json>, j: nat): set<Json>
    requires j < 6
  {
    if |rs| == 0 then {}
    else ReasonSchools(rs[..|rs| - 1], j) + (if Positive(Reason(rs[|rs| - 1], j)) then SidSet(rs[|rs| - 1]) else {})
  }

  function UniqueSids(rs: seq<Json>): set<Json>
  {
    if |rs| == 0 then {} else UniqueSids(rs[..|rs| - 1]) + SidSet(rs[|rs| - 1])
  }

  predicate AnyReason(r: Json)
  {
    exists j :: 0 <= j < 6 && Positive(Reason(r, j))
  }

  /** `(r.slp || 0) > 0 || anyReason`. */
  predicate Considered(r: Json)
  {
    Positive(NumberOf(OrZeroValue(Member(r, "slp")))) || AnyReason(r)
  }

  function RowsConsidered(rs: seq<Json>): nat
  {
    if |rs| == 0 then 0 else RowsConsidered(rs[..|rs| - 1]) + (if Considered(rs[|rs| - 1]) then 1 else 0)
  }

  predicate ReasonAt(rs: seq<Json>, j: nat, s: Json)
    requires j < 6
  {
    exists i :: 0 <= i < |rs| && HasSid(rs[i]) && SchoolKey(rs[i]).value == s && Positive(Reason(rs[i], j))
  }

  /** A school counts for reason j exactly when one of its rows has a
      positive value for it. */
  lemma {:induction false} ReasonSchoolsExact(rs: seq<Json>, j: nat, s: Json)
    requires j < 6
    ensures s in ReasonSchools(rs, j) <==> ReasonAt(rs, j, s)
  {
    if |rs| > 0 {
      var init := rs[..|rs| - 1];
      ReasonSchoolsExact(init, j, s);
      assert forall i :: 0 <= i < |init| ==> init[i] == rs[i];
      var last := rs[|rs| - 1];
      assert ReasonAt(rs, j, s) <==>
        ReasonAt(init, j, s) || (HasSid(last) && SchoolKey(last).value == s && Positive(Reason(last, j)));
    }
  }

  /** Every school counted under a reason is among the distinct schools. */
  lemma {:induction false} ReasonSchoolsWithin(rs: seq<Json>, j: nat)
    requires j < 6
    ensures ReasonSchools(rs, j) <= UniqueSids(rs)
    ensures |ReasonSchools(rs, j)| <= |UniqueSids(rs)|
  {
    if |rs| > 0 {
      ReasonSchoolsWithin(rs[..|rs| - 1], j);
    }
    assert ReasonSchools(rs, j) <= UniqueSids(rs);
    SubsetCard(ReasonSchools(rs, j), UniqueSids(rs));
  }

  lemma {:induction false} SubsetCard<T>(a: set<T>, b: set<T>)
    requires a <= b
    ensures |a| <= |b|
    decreases b
  {
    if a != {} {
      var x :| x in a;
      SubsetCard(a - {x}, b - {x});
    }
  }

  /** The SLOP totals of two batches of rows add up. */
  lemma {:induction false} SlopTotalAppend(a: seq<Json>, b: seq<Json>, j: nat)
    requires j < 6
    ensures SlopTotal(a + b, j) == SlopTotal(a, j) + SlopTotal(b, j)
    decreases |b|
  {
    if |b| == 0 {
      assert a + b == a;
    } else {
      var b' := b[..|b| - 1];
      assert (a + b)[..|a + b| - 1] == a + b';
      SlopTotalAppend(a, b', j);
    }
  }

  lemma {:induction false} RowsConsideredBound(rs: seq<Json>)
    ensures RowsConsidered(rs) <= |rs|
  {
    if |rs| > 0 {
      RowsConsideredBound(rs[..|rs| - 1]);
    }
  }

  /** One row's contribution to the six totals and the six school sets. */
  function RowTotals(r: Json): (v: seq<real>)
    ensures |v| == 6
  {
    seq(6, j requires 0 <= j < 6 => Contribution(Reason(r, j)))
  }

  function RowSchools(r: Json): (v: seq<set<Json>>)
    ensures |v| == 6
  {
    seq(6, j requires 0 <= j < 6 => if Positive(Reason(r, j)) then SidSet(r) else {})
  }

  function AddTotals(a: seq<real>, b: seq<real>): (v: seq<real>)
    requires |a| == 6 && |b| == 6
    ensures |v| == 6
  {
    seq(6, j requires 0 <= j < 6 => a[j] + b[j])
  }

  function AddSchools(a: seq<set<Json>>, b: seq<set<Json>>): (v: seq<set<Json>>)
    requires |a| == 6 && |b| == 6
    ensures |v| == 6
  {
    seq(6, j requires 0 <= j < 6 => a[j] + b[j])
  }

  /** The `totals` object after the rows `rs`. */
  function TotalsVec(rs: seq<Json>): (v: seq<real>)
    ensures |v| == 6
  {
    if |rs| == 0 then [0.0, 0.0, 0.0, 0.0, 0.0, 0.0] else AddTotals(TotalsVec(rs[..|rs| - 1]), RowTotals(rs[|rs| - 1]))
  }

  /** The `schoolsWithReason` object after the rows `rs`. */
  function SchoolsVec(rs: seq<Json>): (v: seq<set<Json>>)
    ensures |v| == 6
  {
    if |rs| == 0 then [{}, {}, {}, {}, {}, {}] else AddSchools(SchoolsVec(rs[..|rs| - 1]), RowSchools(rs[|rs| - 1]))
  }

  /** The two objects hold, code by code, the totals and school sets. */
  lemma {:induction false} VecMeaning(rs: seq<Json>, j: nat)
    requires j < 6
    ensures TotalsVec(rs)[j] == SlopTotal(rs, j) && SchoolsVec(rs)[j] == ReasonSchools(rs, j)
  {
    if |rs| > 0 {
      VecMeaning(rs[..|rs| - 1], j);
    }
  }

  /** The SLOP summary block: hidden, or shown with the six totals, the six
      school counts, the rows considered and the distinct schools. */
  datatype SlopPanel = SlopPanel(shown: bool, totals: seq<real>, schools: seq<nat>, rows: nat, schoolCount: nat)

  function Sizes(v: seq<set<Json>>): (r: seq<nat>)
    ensures |r| == |v| && forall j :: 0 <= j < |v| ==> r[j] == |v[j]|
  {
    seq(|v|, j requires 0 <= j < |v| => |v[j]|)
  }

  /** `updateSlopSummary(results)`: empty results only hide the block. */
  function SlopRefreshed(p: SlopPanel, rs: seq<Json>): SlopPanel
  {
    if |rs| == 0 then p.(shown := false)
    else SlopPanel(true, TotalsVec(rs), Sizes(SchoolsVec(rs)), RowsConsidered(rs), |UniqueSids(rs)|)
  }

  /** The shown block states, code by code, the sum of positive values and
      the number of distinct schools having one, never more than all the
      distinct schools; it counts no more rows than there are. */
  lemma SlopRefreshedMeaning(p: SlopPanel, rs: seq<Json>, j: nat)
    requires j < 6
    ensures |rs| == 0 <==> !SlopRefreshed(p, rs).shown
    ensures |rs| > 0 ==> (SlopRefreshed(p, rs).totals[j] == SlopTotal(rs, j)
      && SlopRefreshed(p, rs).schools[j] == |ReasonSchools(rs, j)| <= SlopRefreshed(p, rs).schoolCount
      && SlopRefreshed(p, rs).rows <= |rs|)
  {
    VecMeaning(rs, j);
    ReasonSchoolsWithin(rs, j);
    RowsConsideredBound(rs);
  }

  /** The inner `Object.entries(keys).forEach`: one row's contribution. */
  method RowReasons(r: Json, totals: seq<real>, schools: seq<set<Json>>)
    returns (totals': seq<real>, schools': seq<set<Json>>, any: bool)
    requires |totals| == 6 && |schools| == 6
    ensures totals' == AddTotals(totals, RowTotals(r)) && schools' == AddSchools(schools, RowSchools(r))
    ensures any == AnyReason(r)
  {
    totals', schools', any := totals, schools, false;
    var k := 0;
    while k < 6
      invariant 0 <= k <= 6 && |totals'| == 6 && |schools'| == 6
      invariant forall j :: 0 <= j < k ==> totals'[j] == totals[j] + RowTotals(r)[j] && schools'[j] == schools[j] + RowSchools(r)[j]
      invariant forall j :: k <= j < 6 ==> totals'[j] == totals[j] && schools'[j] == schools[j]
      invariant any <==> exists j :: 0 <= j < k && Positive(Reason(r, j))
    {
      totals', schools', any := AddReason(r, k, totals', schools', any);
      k := k + 1;
    }
    RowAdded(r, totals, schools, totals', schools');
  }

  /** One reason of one row: a positive value is added to its total and the
      row's school to its set. */
  method AddReason(r: Json, k: nat, totals: seq<real>, schools: seq<set<Json>>, any: bool)
    returns (totals': seq<real>, schools': seq<set<Json>>, any': bool)
    requires k < 6 && |totals| == 6 && |schools| == 6
    ensures |totals'| == 6 && |schools'| == 6
    ensures totals'[k] == totals[k] + RowTotals(r)[k] && schools'[k] == schools[k] + RowSchools(r)[k]
    ensures forall j :: 0 <= j < 6 && j != k ==> totals'[j] == totals[j] && schools'[j] == schools[j]
    ensures any' == (any || Positive(Reason(r, k)))
  {
    totals', schools', any' := totals, schools, any;
    var v := Reason(r, k);
    if Positive(v) {
      any' := true;
      totals' := totals[k := totals[k] + v.x];
      schools' := schools[k := schools[k] + SidSet(r)];
    }
  }

  /** Pointwise sums make up the added vectors. */
  lemma RowAdded(r: Json, totals: seq<real>, schools: seq<set<Json>>, totals': seq<real>, schools': seq<set<Json>>)
    requires |totals| == 6 && |schools| == 6 && |totals'| == 6 && |schools'| == 6
    requires forall j :: 0 <= j < 6 ==> totals'[j] == totals[j] + RowTotals(r)[j] && schools'[j] == schools[j] + RowSchools(r)[j]
    ensures totals' == AddTotals(totals, RowTotals(r)) && schools' == AddSchools(schools, RowSchools(r))
  {
  }

  lemma SlopStep(rs: seq<Json>, i: nat)
    requires i < |rs|
    ensures TotalsVec(rs[..i + 1]) == AddTotals(TotalsVec(rs[..i]), RowTotals(rs[i]))
    ensures SchoolsVec(rs[..i + 1]) == AddSchools(SchoolsVec(rs[..i]), RowSchools(rs[i]))
    ensures RowsConsidered(rs[..i + 1]) == RowsConsidered(rs[..i]) + (if Considered(rs[i]) then 1 else 0)
    ensures UniqueSids(rs[..i + 1]) == UniqueSids(rs[..i]) + SidSet(rs[i])
  {
    assert rs[..i + 1][..i] == rs[..i];
  }

  /** The accumulation loop of `updateSlopSummary`. */
  method SlopTally(results: seq<Json>) returns (totals: seq<real>, schools: seq<set<Json>>, rows: nat, unique: set<Json>)
    ensures totals == TotalsVec(results) && schools == SchoolsVec(results)
    ensures rows == RowsConsidered(results) && unique == UniqueSids(results)
  {
    totals := [0.0, 0.0, 0.0, 0.0, 0.0, 0.0];
    schools := [{}, {}, {}, {}, {}, {}];
    rows, unique := 0, {};
    var i := 0;
    while i < |results|
      invariant 0 <= i <= |results|
      invariant totals == TotalsVec(results[..i]) && schools == SchoolsVec(results[..i])
      invariant rows == RowsConsidered(results[..i]) && unique == UniqueSids(results[..i])
    {
      var r := results[i];
      SlopStep(results, i);
      unique := unique + SidSet(r);
      var any;
      totals, schools, any := RowReasons(r, totals, schools);
      if Positive(NumberOf(OrZeroValue(Member(r, "slp")))) || any {
        rows := rows + 1;
      }
      i := i + 1;
    }
    assert results[..|results|] == results;
  }

  // ----- The page state machine -----

  /** How a request ends: an HTTP response whose body parses as JSON (or
      not), or a failed fetch. */
  datatype Outcome = Response(status: int, body: Option<Json>) | NetworkError

  /** A successful reply: the view, the results and the rendered table. */
  datatype Reply = Rendered(view: Json, results: seq<Json>, table: Table) | Failure

  /** The try block of `doAjaxUpdate` up to `client.innerHTML = html`:
      Failure wherever it throws (a non-2xx status, a body that is not
      JSON, `null.view`, a non-string view, a non-array results, a `null`
      result whose `school_name` the renderer reads). */
  function ReplyOf(o: Outcome, q: Query, kpiSelect: Option<string>): Reply
  {
    if !o.Response? || !(200 <= o.status <= 299) || o.body.None? || o.body.value == JNull then Failure
    else
      var data := o.body.value;
      var view := ViewOf(Member(data, "view"), Get(q, "kpi_part"));
      match (RendererFor(view), ResultsOf(data))
      case (Some(renderer), Some(results)) =>
        (match Render(renderer, results, kpiSelect)
         case Some(table) => Rendered(view, results, table)
         case None => Failure)
      case _ => Failure
  }

  /** A rendered reply holds no `null` result and a table with a row per
      result; a 2xx reply whose results hold a `null` fails, as the map
      over the results throws on its `school_name`. */
  lemma ReplyMeaning(o: Outcome, q: Query, kpiSelect: Option<string>)
    ensures ReplyOf(o, q, kpiSelect).Rendered? ==>
      (var r := ReplyOf(o, q, kpiSelect);
       JNull !in r.results && WellFormed(r.table) && (r.table.body.Rows? <==> |r.results| > 0))
    ensures (o.Response? && 200 <= o.status <= 299 && o.body.Some? && o.body.value != JNull &&
             ResultsOf(o.body.value).Some? && JNull in ResultsOf(o.body.value).value)
            ==> ReplyOf(o, q, kpiSelect).Failure?
  {
    if ReplyOf(o, q, kpiSelect).Rendered? {
      var data := o.body.value;
      var view := ViewOf(Member(data, "view"), Get(q, "kpi_part"));
      var renderer, results := RendererFor(view).value, ResultsOf(data).value;
      match renderer
      case Overview => assert OverviewTable(results, kpiSelect).Some?;
      case SimpleBands(bands) => assert BandsTable(results, bands).Some?;
    }
  }

  datatype Target = NumberInput | TextInput | Select | OtherTarget

  /** The elements the script looks up once and never changes. */
  datatype Page = Page(hasRegions: bool, kpiSelect: Option<string>, hasSortInputs: bool)

  /** The `lastAbort` slot and the requests it has seen: ids 0..issued-1,
      the aborted ones, and the unsettled ones with their params. */
  datatype Requests = Requests(controller: Option<nat>, aborted: set<nat>, issued: nat, inFlight: map<nat, Query>)

  /** What the page shows. */
  datatype Display = Display(
    clientShown: bool, serverShown: bool, loaderShown: bool,
    content: Option<Table>, schoolsCard: nat, pointsCard: nat, slop: SlopPanel,
    location: Query,  // the page URL's query
    csvQuery: Query)  // the export link's query

  /** The `submitTimer` slot and the timers armed and not yet fired or cleared. */
  datatype Timers = Timers(timer: Option<nat>, armed: set<nat>, timersSet: nat)

  datatype PageState = PageState(page: Page, req: Requests, display: Display, sortBy: string, sortDir: string, timers: Timers)

  /** `doAjaxUpdate` up to the `await`: abort the stored controller, store a
      new one, hide both regions and show the loader. */
  function Issued(s: PageState, form: Option<Query>): PageState
  {
    if !s.page.hasRegions then s
    else
      var q := s.req;
      s.(req := Requests(Some(q.issued), if q.controller.Some? then q.aborted + {q.controller.value} else q.aborted,
                         q.issued + 1, q.inFlight[q.issued := RequestParams(form)]),
         display := s.display.(clientShown := false, serverShown := false, loaderShown := true))
  }

  /** The catch block: hide the loader, show the server-rendered region. */
  function Failed(d: Display): Display
  {
    d.(loaderShown := false, serverShown := true)
  }

  /** The rest of the try block after a good reply. */
  function Succeeded(d: Display, q: Query, view: Json, results: seq<Json>, table: Table): Display
  {
    d.(content := Some(table), loaderShown := false, clientShown := true,
       schoolsCard := |SchoolKeys(results)|, pointsCard := |results|, csvQuery := q,
       slop := if view == JStr("slp") then SlopRefreshed(d.slop, results) else d.slop.(shown := false),
       location := q)
  }

  /** Request `id`'s outcome on the display: the reply's effect, or the
      catch block's. */
  function Delivered(d: Display, q: Query, o: Outcome, kpiSelect: Option<string>): Display
  {
    match ReplyOf(o, q, kpiSelect)
    case Failure => Failed(d)
    case Rendered(view, results, table) => Succeeded(d, q, view, results, table)
  }

  /** Delivering request `id`'s outcome as the code is written: an aborted
      request's fetch rejects, and its catch block runs like any other. */
  function SettledAsWritten(s: PageState, id: nat, o: Outcome): PageState
    requires id in s.req.inFlight
  {
    var q := s.req.inFlight[id];
    var s' := s.(req := s.req.(inFlight := s.req.inFlight - {id}));
    if id in s.req.aborted then s'.(display := Failed(s.display))
    else s'.(display := Delivered(s.display, q, o, s.page.kpiSelect))
  }

  /** Delivering request `id`'s outcome when the abort rejection is ignored,
      as a superseded request evidently should be. */
  function Settled(s: PageState, id: nat, o: Outcome): PageState
    requires id in s.req.inFlight
  {
    if id in s.req.aborted then s.(req := s.req.(inFlight := s.req.inFlight - {id}))
    else SettledAsWritten(s, id, o)
  }

  /** `debounce()`: clear the pending timer, arm a new one. */
  function Debounced(t: Timers): Timers
  {
    Timers(Some(t.timersSet), (if t.timer.Some? then t.armed - {t.timer.value} else t.armed) + {t.timersSet},
      t.timersSet + 1)
  }

  /** Timer `t` fires and runs `doAjaxUpdate`. */
  function Fired(s: PageState, t: nat, form: Option<Query>): PageState
    requires t in s.timers.armed
  {
    Issued(s.(timers := s.timers.(armed := s.timers.armed - {t})), form)
  }

  /** The form's `input` listener debounces only number, text and select targets. */
  function InputFired(t: Timers, target: Target): Timers
  {
    if target == OtherTarget then t else Debounced(t)
  }

  /** The new sort direction after a header click. */
  function ToggledDir(sameKey: bool, dir: string): (d: string)
    ensures d == "asc" || d == "desc"
    ensures !sameKey ==> d == "asc"
    ensures sameKey ==> (d == "desc" <==> dir == "asc")
  {
    if sameKey then (if dir == "asc" then "desc" else "asc") else "asc"
  }

  /** The filter form's entries once the click has written the sort_by and
      sort_dir inputs, which `currentQuery()` then reads with the rest. */
  function SortedForm(form: Option<Query>, sortBy: string, sortDir: string): Option<Query>
  {
    if form.None? then None else Some(SetParam(SetParam(form.value, "sort_by", sortBy), "sort_dir", sortDir))
  }

  /** A sortable header click on a page whose filter form holds `form`
      before the click: `data-sort` may be absent, and assigning null to an
      input's value stores "". */
  function SortClicked(s: PageState, key: Option<string>, form: Option<Query>): PageState
  {
    if !s.page.hasSortInputs then s
    else
      var same := key.Some? && s.sortBy == key.value;
      var sortBy, sortDir := if same then s.sortBy else key.GetOr(""), ToggledDir(same, s.sortDir);
      Issued(s.(sortBy := sortBy, sortDir := sortDir), SortedForm(form, sortBy, sortDir))
  }

  /** The request a click sends asks for the sort it has just chosen, and
      for every other filter as the form holds it. */
  lemma SortClickRequest(s: PageState, key: Option<string>, form: Query, m: string)
    requires s.page.hasSortInputs && s.page.hasRegions
    ensures var s' := SortClicked(s, key, Some(form));
      var q := s'.req.inFlight[s.req.issued];
      Get(q, "sort_by") == Some(s'.sortBy) && Get(q, "sort_dir") == Some(s'.sortDir)
      && (m !in {"sort_by", "sort_dir", "page", "page_size"} ==> Get(q, m) == Get(form, m))
  {
    var same := key.Some? && s.sortBy == key.value;
    var sortBy, sortDir := if same then s.sortBy else key.GetOr(""), ToggledDir(same, s.sortDir);
    var f1 := SetParam(form, "sort_by", sortBy);
    var sorted := SortedForm(Some(form), sortBy, sortDir);
    RequestCarriesForm(sorted, "sort_by");
    RequestCarriesForm(sorted, "sort_dir");
    RequestCarriesForm(sorted, m);
    SetParamGets(f1, "sort_dir", sortDir, "sort_by");
    SetParamGets(f1, "sort_dir", sortDir, "sort_dir");
    SetParamGets(f1, "sort_dir", sortDir, m);
    SetParamGets(form, "sort_by", sortBy, "sort_by");
    SetParamGets(form, "sort_by", sortBy, m);
  }

  /** Clicking the same header twice restores a valid direction. */
  lemma SortTwice(dir: string)
    requires dir == "asc" || dir == "desc"
    ensures ToggledDir(true, ToggledDir(true, dir)) == dir
  {
  }

  /** One live controller at most, and it is the stored one; while it is
      unsettled both regions are hidden under the loader; never both
      regions at once. */
  predicate RequestsValid(q: Requests, d: Display)
  {
    (forall id :: id in q.inFlight ==> id < q.issued)
    && (forall id :: id in q.aborted ==> id < q.issued)
    && (q.controller.Some? ==> q.controller.value < q.issued && q.controller.value !in q.aborted)
    && (forall id :: 0 <= id < q.issued && id !in q.aborted ==> q.controller == Some(id))
    && (q.controller.Some? && q.controller.value in q.inFlight ==> !d.clientShown && !d.serverShown && d.loaderShown)
    && !(d.clientShown && d.serverShown)
  }

  /** At most one armed timer, the stored one. */
  predicate TimersValid(t: Timers)
  {
    forall u :: u in t.armed ==> t.timer == Some(u)
  }

  predicate Valid(s: PageState)
  {
    RequestsValid(s.req, s.display) && TimersValid(s.timers)
  }

  /** Every request aborts the stored controller before storing its own. */
  lemma IssuedValid(s: PageState, form: Option<Query>)
    requires Valid(s)
    ensures Valid(Issued(s, form))
    ensures s.page.hasRegions ==> (Issued(s, form).req.controller == Some(s.req.issued)
      && (s.req.controller.Some? ==> s.req.controller.value in Issued(s, form).req.aborted)
      && Issued(s, form).req.inFlight[s.req.issued] == RequestParams(form))
  {
    if s.page.hasRegions {
      var r := Issued(s, form).req;
      forall id | 0 <= id < s.req.issued ensures id in r.aborted {
        if id !in s.req.aborted {
          assert s.req.controller == Some(id);
        }
      }
    }
  }

  lemma SettledValid(s: PageState, id: nat, o: Outcome)
    requires Valid(s) && id in s.req.inFlight
    ensures Valid(Settled(s, id, o))
  {
    if id !in s.req.aborted {
      assert s.req.controller == Some(id);
    }
  }

  /** A live request's outcome shows exactly one region: the rendered table
      with the URL and export link set to its params, or the server region
      with the URL untouched. A superseded request changes nothing visible. */
  lemma SettleOutcome(s: PageState, id: nat, o: Outcome)
    requires Valid(s) && id in s.req.inFlight
    ensures id in s.req.aborted ==> Settled(s, id, o).display == s.display
    ensures id !in s.req.aborted && ReplyOf(o, s.req.inFlight[id], s.page.kpiSelect).Rendered? ==>
      (var d := Settled(s, id, o).display;
       d.clientShown && !d.serverShown && !d.loaderShown && d.location == s.req.inFlight[id]
       && d.csvQuery == s.req.inFlight[id] && d.content == Some(ReplyOf(o, s.req.inFlight[id], s.page.kpiSelect).table))
    ensures id !in s.req.aborted && ReplyOf(o, s.req.inFlight[id], s.page.kpiSelect).Failure? ==>
      (var d := Settled(s, id, o).display;
       d.serverShown && !d.clientShown && !d.loaderShown && d.location == s.display.location && d.content == s.display.content)
  {
    if id !in s.req.aborted {
      assert s.req.controller == Some(id);
    }
  }

  /** Each change or qualifying input event leaves exactly the new timer armed. */
  lemma DebouncedValid(t: Timers)
    requires TimersValid(t)
    ensures TimersValid(Debounced(t)) && Debounced(t).armed == {t.timersSet}
  {
    assert t.timer.Some? ==> t.armed - {t.timer.value} == {};
    assert t.timer.None? ==> t.armed == {};
  }

  lemma FiredValid(s: PageState, t: nat, form: Option<Query>)
    requires Valid(s) && t in s.timers.armed
    ensures Valid(Fired(s, t, form)) && Fired(s, t, form).timers.armed == {}
  {
    var s' := s.(timers := s.timers.(armed := s.timers.armed - {t}));
    assert s.timers.armed == {t} by {
      forall u | u in s.timers.armed ensures u == t {
        assert s.timers.timer == Some(u) && s.timers.timer == Some(t);
      }
    }
    IssuedValid(s', form);
  }

  /** The page as it loads: the server-rendered region shown, nothing in flight. */
  function Loaded(): PageState
  {
    PageState(Page(true, None, true), Requests(None, {}, 0, map[]),
      Display(false, true, false, None, 0, 0, SlopPanel(false, [], [], 0, 0), [], []),
      "", "", Timers(None, {}, 1))
  }

  /** As written, a second request issued before the first settles shows
      both regions: the first fetch is aborted, rejects, and its catch block
      shows the server region; the second then shows the client region. */
  lemma AbortedFailureShowsBoth()
    ensures Valid(Loaded())
    ensures var s := Issued(Issued(Loaded(), None), None);
      var d := SettledAsWritten(SettledAsWritten(s, 0, NetworkError), 1, Response(200, Some(JObj([])))).display;
      d.clientShown && d.serverShown
  {
    var s := Issued(Issued(Loaded(), None), None);
    assert 0 in s.req.aborted;
    var s3 := SettledAsWritten(s, 0, NetworkError);
    assert s3.display.serverShown && 1 in s3.req.inFlight && 1 !in s3.req.aborted;
    var q := s3.req.inFlight[1];
    assert q == RequestParams(None);
    RequestCarriesForm(None, "kpi_part");
    assert Get(q, "kpi_part") == None;
    assert ReplyOf(Response(200, Some(JObj([]))), q, s3.page.kpiSelect).Rendered?;
  }

  /** The page script's state: the elements, the request slot, what is
      shown, the sort inputs and the debounce slot. */
  class DashboardPage {
    var page: Page
    var req: Requests
    var display: Display
    var sortBy: string
    var sortDir: string
    var timers: Timers

    function State(): PageState
      reads this
    {
      PageState(page, req, display, sortBy, sortDir, timers)
    }

    constructor (initial: PageState)
      ensures State() == initial
    {
      page, req, display := initial.page, initial.req, initial.display;
      sortBy, sortDir, timers := initial.sortBy, initial.sortDir, initial.timers;
    }

    /** `doAjaxUpdate` up to the fetch. */
    method Issue(form: Option<Query>)
      modifies this
      ensures State() == Issued(old(State()), form)
    {
      if !page.hasRegions {
        return;
      }
      var params := RequestParams(form);
      var aborted := req.aborted;
      if req.controller.Some? {
        aborted := aborted + {req.controller.value};
      }
      req := Requests(Some(req.issued), aborted, req.issued + 1, req.inFlight[req.issued := params]);
      display := display.(serverShown := false, clientShown := false, loaderShown := true);
    }

    /** The fetch of request `id` settles with outcome `o`. */
    method Settle(id: nat, o: Outcome)
      requires id in req.inFlight
      modifies this
      ensures State() == Settled(old(State()), id, o)
    {
      var q := req.inFlight[id];
      req := req.(inFlight := req.inFlight - {id});
      if id in req.aborted {
        return;
      }
      var reply := ReplyOf(o, q, page.kpiSelect);
      if reply.Failure? {
        display := display.(loaderShown := false, serverShown := true);
        return;
      }
      var d := display.(content := Some(reply.table), loaderShown := false, clientShown := true);
      var schools, points := SummaryTally(reply.results);
      d := d.(schoolsCard := schools, pointsCard := points, csvQuery := q);
      var slop := UpdateSlopSummary(d.slop, reply.view == JStr("slp"), reply.results);
      display := d.(slop := slop, location := q);
    }

    /** `updateSlopSummary(results)` when the view is 'slp', hiding the block
        otherwise. */
    static method UpdateSlopSummary(p: SlopPanel, isSlp: bool, results: seq<Json>) returns (p': SlopPanel)
      ensures p' == if isSlp then SlopRefreshed(p, results) else p.(shown := false)
    {
      if !isSlp || |results| == 0 {
        return p.(shown := false);
      }
      var totals, schools, rows, unique := SlopTally(results);
      p' := SlopPanel(true, totals, Sizes(schools), rows, |unique|);
    }

    /** `debounce()`, run by every change event and by qualifying input events. */
    method Debounce()
      modifies this`timers
      ensures timers == Debounced(old(timers))
    {
      var armed := timers.armed;
      if timers.timer.Some? {
        armed := armed - {timers.timer.value};
      }
      timers := Timers(Some(timers.timersSet), armed + {timers.timersSet}, timers.timersSet + 1);
    }

    method Input(target: Target)
      modifies this`timers
      ensures timers == InputFired(old(timers), target)
    {
      if target != OtherTarget {
        Debounce();
      }
    }

    /** The 250 ms timer `t` fires. */
    method Fire(t: nat, form: Option<Query>)
      requires t in timers.armed
      modifies this
      ensures State() == Fired(old(State()), t, form)
    {
      timers := timers.(armed := timers.armed - {t});
      Issue(form);
    }

    /** A click on a sortable header carrying `data-sort` = key, with the
        filter form holding `form` before the click. */
    method SortClick(key: Option<string>, form: Option<Query>)
      modifies this
      ensures State() == SortClicked(old(State()), key, form)
    {
      if !page.hasSortInputs {
        return;
      }
      var same := key.Some? && sortBy == key.value;
      if same {
        sortDir := if sortDir == "asc" then "desc" else "asc";
      } else {
        sortBy := key.GetOr("");
        sortDir := "asc";
      }
      Issue(SortedForm(form, sortBy, sortDir));
    }
  }
}
