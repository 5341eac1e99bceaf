/** The fixed catalog: units, the per-subject unit lists, material options and the builder credential pair. */
module Constants {
  import opened Types

  const UnitsStandard: seq<string> := ["1", "2", "3", "4", "5", "6", "7", "8", "9"]

  const AllUnitsLabel: string := "All Units"

  const UnitsWithAll: seq<string> := UnitsStandard + [AllUnitsLabel]

  /** `SUBJECTS_AND_UNITS`. */
  function SubjectUnits(s: Subject): (units: seq<string>)
    ensures units == UnitsStandard
  {
    match s
    case Chemistry => UnitsStandard
    case Biology => UnitsStandard
    case Physics => UnitsStandard
    case Calculus => UnitsStandard
  }

  /** The standard units are "1" to "9" in order, and "All Units" extends them by one. */
  lemma UnitListsShape()
    ensures |UnitsStandard| == 9
    ensures forall i :: 0 <= i < 9 ==> UnitsStandard[i] == [('1' as int + i) as char]
    ensures |UnitsWithAll| == 10 && UnitsWithAll[..9] == UnitsStandard && UnitsWithAll[9] == AllUnitsLabel
    ensures forall u :: u in UnitsStandard ==> u in UnitsWithAll
    ensures AllUnitsLabel !in UnitsStandard
  {
  }

  datatype MaterialOption = MaterialOption(value: MaterialCategory, caption: string)

  const MaterialOptions: seq<MaterialOption> := [
    MaterialOption(MockExam, "Mock Exam"),
    MaterialOption(Assignment, "Assignment / Homework"),
    MaterialOption(Practice, "Practice Problems"),
    MaterialOption(All, "All (Comprehensive Package)")
  ]

  const BuilderEmail: string := "aneeshejji@gmail.com"

  const BuilderPassword: string := "AneesDayaf@2009"

  /** `options.find(o => o.value === c)`: the first option for `c`, if any. */
  function FindOption(options: seq<MaterialOption>, c: MaterialCategory): (r: Option<MaterialOption>)
    ensures r.Some? ==> r.value in options && r.value.value == c
    ensures r.None? <==> forall o :: o in options ==> o.value != c
  {
    if options == [] then None
    else if options[0].value == c then Some(options[0])
    else FindOption(options[1..], c)
  }

  /**
   * The options name each category exactly once, with a non-empty label, so
   * the label lookup succeeds for every category.
   */
  lemma MaterialOptionsComplete()
    ensures forall i, j :: 0 <= i < j < |MaterialOptions| ==> MaterialOptions[i].value != MaterialOptions[j].value
    ensures forall o :: o in MaterialOptions ==> o.caption != ""
    ensures forall c :: FindOption(MaterialOptions, c).Some?
  {
    forall c: MaterialCategory ensures FindOption(MaterialOptions, c).Some? {
      assert MaterialOptions[OptionIndex(c)] in MaterialOptions;
    }
  }

  /** Where each category sits in `MaterialOptions`. */
  function OptionIndex(c: MaterialCategory): (i: nat)
    ensures i < |MaterialOptions| && MaterialOptions[i].value == c
  {
    match c
    case MockExam => 0
    case Assignment => 1
    case Practice => 2
    case All => 3
  }
}
