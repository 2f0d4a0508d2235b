// The stored SLP row of a submission, as the server's views, forms,
// exports and template tags read it.
module ServerRows {
  import opened Constants

  /** One `Form1SLPRow`: a grade label and subject code with the enrolment,
      the five proficiency band counts and the narrative fields. */
  datatype SlpRow = SlpRow(
    gradeLabel: string,
    subject: string,
    enrolment: nat,
    dnme: nat, fs: nat, s: nat, vs: nat, o: nat,
    isOffered: bool,
    topThreeLlc: string,
    nonMasteryReasons: string,
    nonMasteryOther: string,
    interventionPlan: string)

  /** The five proficiency bands, from "did not meet expectations" to
      "outstanding". */
  datatype Band = Dnme | Fs | S | Vs | O

  function BandValue(r: SlpRow, b: Band): nat
  {
    match b
    case Dnme => r.dnme
    case Fs => r.fs
    case S => r.s
    case Vs => r.vs
    case O => r.o
  }

  /** dnme + fs + s + vs + o. */
  function BandSum(r: SlpRow): nat
  {
    r.dnme + r.fs + r.s + r.vs + r.o
  }

  /** `get_subject_display` over a subject label index (the system's own is
      Constants.SlpSubjectLabels): the label of the code, or of "overall"
      for a blank code; an unknown code is shown as itself. */
  function SubjectDisplay(labels: map<string, string>, code: string): string
  {
    var key := if code == "" then SlpDefaultSubject.code else code;
    if key in labels then labels[key]
    else if code == "" then SlpDefaultSubject.name
    else code
  }

  /** f of each offered row, in row order (the `if not is_offered:
      continue` loops). */
  function MapOffered<B>(rows: seq<SlpRow>, f: SlpRow -> B): seq<B>
    decreases |rows|
  {
    if rows == [] then []
    else
      var r := rows[|rows| - 1];
      MapOffered(rows[..|rows| - 1], f) + (if r.isOffered then [f(r)] else [])
  }

  lemma MapOfferedSnoc<B>(rows: seq<SlpRow>, f: SlpRow -> B, i: int)
    requires 0 <= i < |rows|
    ensures MapOffered(rows[..i + 1], f) == MapOffered(rows[..i], f) + (if rows[i].isOffered then [f(rows[i])] else [])
  {
    assert rows[..i + 1][..i] == rows[..i];
  }

  /** Every value comes from an offered row, and every offered row gives one. */
  lemma {:induction false} MapOfferedMeaning<B>(rows: seq<SlpRow>, f: SlpRow -> B)
    ensures forall b :: b in MapOffered(rows, f) ==> exists j :: 0 <= j < |rows| && rows[j].isOffered && b == f(rows[j])
    ensures forall j :: 0 <= j < |rows| && rows[j].isOffered ==> f(rows[j]) in MapOffered(rows, f)
    decreases |rows|
  {
    if rows != [] {
      var init := rows[..|rows| - 1];
      MapOfferedMeaning(init, f);
      assert forall j :: 0 <= j < |init| ==> init[j] == rows[j];
    }
  }
}
