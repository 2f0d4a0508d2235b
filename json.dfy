// JSON values as the page script and the server read and write them, the
// text a storage field holds, and the JavaScript coercions the hydrators
// apply to parsed values (truthiness, `x || ''`, template-string rendering).
module Json {
  import opened Wrappers
  import opened Text

  /** A JSON value. `JNum` is a number written without a fraction, which
      Python reads as an `int`; `JDec` is a number written with one decimal
      place, as Python writes a `round(x, 1)` float, which Python reads as a
      `float` and JavaScript as the number tenths / 10. */
  datatype Json =
    | JNull
    | JBool(b: bool)
    | JNum(n: int)
    | JDec(tenths: int)
    | JStr(s: string)
    | JArr(items: seq<Json>)
    | JObj(members: seq<(string, Json)>)

  /** The text of a storage field: either the serialisation of a value, or
      text that is not valid JSON (typed by hand, truncated, empty). */
  datatype Stored = Serialized(v: Json) | Raw(text: string)

  /** `JSON.stringify` / `json.dumps`. */
  function Stringify(v: Json): Stored
  {
    Serialized(v)
  }

  /** `JSON.parse` / `json.loads`: None when the text is not JSON. */
  function Parse(t: Stored): (r: Option<Json>)
    ensures r.Some? <==> t.Serialized?
    ensures t.Serialized? ==> r == Some(t.v)
  {
    match t
    case Serialized(v) => Some(v)
    case Raw(_) => None
  }

  /** The empty field, which the hydrators do not even try to parse. */
  predicate IsEmptyText(t: Stored)
  {
    t == Raw("")
  }

  /** Property read `o.key` on a parsed object: the last member of that
      name, as `JSON.parse` keeps the last duplicate; None (undefined) for
      a missing key and for every non-object. */
  function Member(o: Json, key: string): (r: Option<Json>)
    ensures r.Some? ==> o.JObj? && exists i :: 0 <= i < |o.members| && o.members[i] == (key, r.value)
    ensures o.JObj? && 0 < |o.members| && o.members[|o.members| - 1].0 == key ==>
      r == Some(o.members[|o.members| - 1].1)
    decreases if o.JObj? then |o.members| else 0
  {
    if !o.JObj? || |o.members| == 0 then None
    else
      var last := o.members[|o.members| - 1];
      if last.0 == key then Some(last.1)
      else
        var r := Member(JObj(o.members[..|o.members| - 1]), key);
        if r.Some? then
          var i :| 0 <= i < |o.members| - 1 && o.members[..|o.members| - 1][i] == (key, r.value);
          assert o.members[i] == (key, r.value);
          r
        else r
  }

  /** JavaScript truthiness. */
  predicate Truthy(j: Json)
  {
    match j
    case JNull => false
    case JBool(b) => b
    case JNum(n) => n != 0
    case JDec(t) => t != 0
    case JStr(s) => s != ""
    case JArr(_) => true
    case JObj(_) => true
  }

  /** Python truthiness of a parsed JSON value. */
  predicate PyTruthy(j: Json)
  {
    match j
    case JNull => false
    case JBool(b) => b
    case JNum(n) => n != 0
    case JDec(t) => t != 0
    case JStr(s) => s != ""
    case JArr(items) => items != []
    case JObj(members) => members != []
  }

  /** `String(j)`, as a template string or a textarea assignment renders it. */
  function ToText(j: Json): string
  {
    match j
    case JNull => "null"
    case JBool(b) => if b then "true" else "false"
    case JNum(n) => IntToString(n)
    case JDec(t) => DecimalText(t)
    case JStr(s) => s
    case JArr(items) => JoinItems(items)
    case JObj(_) => "[object Object]"
  }

  /** JavaScript's `String(t / 10)`: no fraction for a whole number, one
      decimal place otherwise. */
  function DecimalText(t: int): (r: string)
    ensures t % 10 == 0 ==> r == IntToString(t / 10)
  {
    if t % 10 == 0 then IntToString(t / 10)
    else
      var a: nat := if t < 0 then -t else t;
      (if t < 0 then "-" else "") + NatToString(a / 10) + "." + [DigitChar(a % 10)]
  }

  /** Python's `str(t / 10)` of a float: always one decimal place, "75.0"
      included. */
  function PyFloatText(t: int): (r: string)
  {
    var a: nat := if t < 0 then -t else t;
    (if t < 0 then "-" else "") + NatToString(a / 10) + "." + [DigitChar(a % 10)]
  }

  /** `Array.prototype.toString`: elements joined by ',', null as ''. */
  function JoinItems(items: seq<Json>): string
    decreases items
  {
    if |items| == 0 then ""
    else
      var head := if items[0] == JNull then "" else ToText(items[0]);
      if |items| == 1 then head else head + "," + JoinItems(items[1..])
  }

  /** `${o.key}` in a template string: "undefined" for a missing value. */
  function MemberText(o: Json, key: string): string
  {
    match Member(o, key)
    case None => "undefined"
    case Some(v) => ToText(v)
  }

  /** `o.key || ''` assigned to a textarea's value. */
  function MemberOrEmpty(o: Json, key: string): (r: string)
    ensures Member(o, key).None? ==> r == ""
    ensures Member(o, key).Some? && Member(o, key).value.JStr? ==> r == Member(o, key).value.s
  {
    match Member(o, key)
    case Some(v) => if Truthy(v) then ToText(v) else ""
    case None => ""
  }

  /** The object the serialisers build reads back member by member. */
  lemma {:induction false} MemberOfBuilt(members: seq<(string, Json)>, i: nat)
    requires i < |members|
    requires forall j :: 0 <= j < |members| && j != i ==> members[j].0 != members[i].0
    ensures Member(JObj(members), members[i].0) == Some(members[i].1)
    decreases |members|
  {
    if i < |members| - 1 {
      var init := members[..|members| - 1];
      forall j | 0 <= j < |init| && j != i ensures init[j].0 != init[i].0 {
        assert init[j] == members[j];
      }
      MemberOfBuilt(init, i);
      assert init[i] == members[i];
    }
  }
}
