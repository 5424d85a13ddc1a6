/**
 * The feature encoder of the heart-risk form (`procesar_datos`): it decodes
 * the form's selections into training-time codes, builds the canonical
 * record, one-hot encodes it, aligns it to the model's frozen column list and
 * scales the five continuous columns in place.
 */
module Heart {
  import opened Results
  import opened Frames

  /** The values the form submits; the numeric widgets give integers, except oldpeak. */
  datatype Form = Form(
    age: int,
    sex: string,
    chestPain: string,
    restingBP: int,
    cholesterol: int,
    fastingBS: string,
    maxHR: int,
    exerciseAngina: string,
    oldpeak: real,
    stSlope: string)

  // The choices the select boxes offer.
  const SexOptions: seq<string> := ["M", "F"]
  const ChestPainOptions: seq<string> := ["ASY (Asintomático)", "NAP (No Anginoso)", "ATA (Angina Atípica)", "TA (Angina Típica)"]
  const FastingBSOptions: seq<string> := ["No (0)", "Sí (1)"]
  const AnginaOptions: seq<string> := ["No", "Sí"]
  const SlopeOptions: seq<string> := ["Up (Subida)", "Flat (Plana)", "Down (Bajada)"]

  // The training-time codes of the composite options, in the same order.
  const ChestPainCodes: seq<string> := ["ASY", "NAP", "ATA", "TA"]
  const SlopeCodes: seq<string> := ["Up", "Flat", "Down"]

  /** A submission the widgets can produce: every number within its input's range, every choice offered. */
  predicate Offered(f: Form)
  {
    && 20 <= f.age <= 100
    && f.sex in SexOptions
    && f.chestPain in ChestPainOptions
    && 80 <= f.restingBP <= 200
    && 80 <= f.cholesterol <= 600
    && f.fastingBS in FastingBSOptions
    && 60 <= f.maxHR <= 220
    && f.exerciseAngina in AnginaOptions
    && 0.0 <= f.oldpeak <= 6.0
    && f.stSlope in SlopeOptions
  }

  // ---------------------------------------------------------------------------
  // Label decoding

  /**
   * `s.split(" ")[0]`: the text before the first space, or all of `s` when it
   * has none. The result is the longest prefix of `s` without a space.
   */
  function FirstToken(s: string): (t: string)
    ensures t <= s
    ensures ' ' !in t
    ensures |t| < |s| ==> s[|t|] == ' '
  {
    if s == [] || s[0] == ' ' then [] else [s[0]] + FirstToken(s[1..])
  }

  /** The three properties of FirstToken determine it: no other string has them all. */
  lemma {:induction false} FirstTokenUnique(s: string, t: string)
    requires t <= s && ' ' !in t
    requires |t| < |s| ==> s[|t|] == ' '
    ensures t == FirstToken(s)
  {
    if t != [] {
      assert s[0] == t[0] && s[0] != ' ';
      assert t[1..] <= s[1..] && ' ' !in t[1..] by {
        forall c | c in t[1..] ensures c != ' ' {
          assert c in t;
        }
      }
      FirstTokenUnique(s[1..], t[1..]);
      assert t == [t[0]] + t[1..];
    } else if s != [] {
      assert s[0] == ' ';
    }
  }

  /** Python's `sub in s` on strings: `sub` occurs in `s` as a contiguous block. */
  predicate Contains(s: string, sub: string)
    decreases |s|
  {
    sub <= s || (s != [] && Contains(s[1..], sub))
  }

  /** `sub` occurs in `s` starting at position `i`. */
  predicate OccursAt(s: string, sub: string, i: int)
  {
    0 <= i <= |s| - |sub| && s[i..i + |sub|] == sub
  }

  /** An occurrence found by Contains is at some position. */
  lemma {:induction false} ContainsOccurs(s: string, sub: string)
    requires Contains(s, sub)
    ensures exists i :: OccursAt(s, sub, i)
    decreases |s|
  {
    if sub <= s {
      assert OccursAt(s, sub, 0);
    } else {
      ContainsOccurs(s[1..], sub);
      var i :| OccursAt(s[1..], sub, i);
      assert s[1..][i..i + |sub|] == s[i + 1..i + 1 + |sub|];
      assert OccursAt(s, sub, i + 1);
    }
  }

  /** An occurrence at any position is found by Contains. */
  lemma {:induction false} OccursContains(s: string, sub: string, i: int)
    requires OccursAt(s, sub, i)
    ensures Contains(s, sub)
    decreases i
  {
    if i == 0 {
      assert sub <= s;
    } else {
      assert s[1..][i - 1..i - 1 + |sub|] == s[i..i + |sub|];
      OccursContains(s[1..], sub, i - 1);
    }
  }

  /** Contains agrees with the positional definition of an occurrence, in both directions. */
  lemma ContainsAt(s: string, sub: string)
    ensures Contains(s, sub) <==> exists i :: OccursAt(s, sub, i)
  {
    if Contains(s, sub) {
      ContainsOccurs(s, sub);
    }
    if exists i :: OccursAt(s, sub, i) {
      var i :| OccursAt(s, sub, i);
      OccursContains(s, sub, i);
    }
  }

  /** The sex code: "M" for the answer "M", and "F" for any other answer. */
  function SexCode(sex: string): string
  {
    if sex == "M" then "M" else "F"
  }

  /** The exercise-angina code: "Y" for the answer "Sí", and "N" for any other answer. */
  function AnginaCode(answer: string): string
  {
    if answer == "Sí" then "Y" else "N"
  }

  /** The fasting-blood-sugar flag: 1 when the choice contains "Sí" anywhere, and 0 otherwise. */
  function FastingBSCode(choice: string): int
  {
    if Contains(choice, "Sí") then 1 else 0
  }

  /** The fasting-blood-sugar flag is 1 exactly when "Sí" occurs somewhere in the choice, and 0 otherwise. */
  lemma FastingBSMeaning(choice: string)
    ensures FastingBSCode(choice) == 1 <==> exists i :: OccursAt(choice, "Sí", i)
    ensures FastingBSCode(choice) == 0 <==> !exists i :: OccursAt(choice, "Sí", i)
  {
    ContainsAt(choice, "Sí");
  }

  /** Each chest-pain option decodes to its training code, which carries no description text. */
  lemma DecodeChestPain(k: nat)
    requires k < |ChestPainOptions|
    ensures FirstToken(ChestPainOptions[k]) == ChestPainCodes[k]
  {
    var option := ChestPainOptions[k];
    if k == 0 {
      FirstTokenUnique(option, "ASY");
    } else if k == 1 {
      FirstTokenUnique(option, "NAP");
    } else if k == 2 {
      FirstTokenUnique(option, "ATA");
    } else {
      FirstTokenUnique(option, "TA");
    }
  }

  /** Each ST-slope option decodes to its training code, which carries no description text. */
  lemma DecodeSlope(k: nat)
    requires k < |SlopeOptions|
    ensures FirstToken(SlopeOptions[k]) == SlopeCodes[k]
  {
    var option := SlopeOptions[k];
    if k == 0 {
      FirstTokenUnique(option, "Up");
    } else if k == 1 {
      FirstTokenUnique(option, "Flat");
    } else {
      FirstTokenUnique(option, "Down");
    }
  }

  /** The binary lookups map each offered option to exactly one code. */
  lemma DecodeBinaryChoices()
    ensures SexCode("M") == "M" && SexCode("F") == "F"
    ensures AnginaCode("No") == "N" && AnginaCode("Sí") == "Y"
    ensures FastingBSCode("No (0)") == 0 && FastingBSCode("Sí (1)") == 1
  {
    assert Contains("Sí (1)", "Sí");
  }

  // ---------------------------------------------------------------------------
  // The canonical record and its encoding

  /** The attribute names the classifier was trained on, in the record's order. */
  const RecordColumns: seq<string> := ["Age", "Sex", "ChestPainType", "RestingBP", "Cholesterol", "FastingBS",
                                       "RestingECG", "MaxHR", "ExerciseAngina", "Oldpeak", "ST_Slope"]

  /** The record's numeric attributes, which get_dummies passes through. */
  const NumericAttributes: seq<string> := ["Age", "RestingBP", "Cholesterol", "FastingBS", "MaxHR", "Oldpeak"]

  /** The record's string attributes, which get_dummies expands into indicators. */
  const CategoricalAttributes: seq<string> := ["Sex", "ChestPainType", "RestingECG", "ExerciseAngina", "ST_Slope"]

  /** The columns the fitted scaler overwrites (`cols_numeric`). */
  const ScaledColumns: seq<string> := ["Age", "RestingBP", "Cholesterol", "MaxHR", "Oldpeak"]

  /** The resting ECG reading the form does not ask for. */
  const DefaultRestingECG: string := "Normal"

  /** The one-row DataFrame built from the form, with the training-time names and codes. */
  function CanonicalRecord(f: Form): Row
  {
    [ Cell("Age", Num(f.age as real)),
      Cell("Sex", Text(SexCode(f.sex))),
      Cell("ChestPainType", Text(FirstToken(f.chestPain))),
      Cell("RestingBP", Num(f.restingBP as real)),
      Cell("Cholesterol", Num(f.cholesterol as real)),
      Cell("FastingBS", Num(FastingBSCode(f.fastingBS) as real)),
      Cell("RestingECG", Text(DefaultRestingECG)),
      Cell("MaxHR", Num(f.maxHR as real)),
      Cell("ExerciseAngina", Text(AnginaCode(f.exerciseAngina))),
      Cell("Oldpeak", Num(f.oldpeak)),
      Cell("ST_Slope", Text(FirstToken(f.stSlope))) ]
  }

  /** The code the record holds for a categorical attribute. */
  function Code(f: Form, attribute: string): string
    requires attribute in CategoricalAttributes
  {
    if attribute == "Sex" then SexCode(f.sex)
    else if attribute == "ChestPainType" then FirstToken(f.chestPain)
    else if attribute == "RestingECG" then DefaultRestingECG
    else if attribute == "ExerciseAngina" then AnginaCode(f.exerciseAngina)
    else FirstToken(f.stSlope)
  }

  /** The indicator columns the encoding sets to 1: one per categorical attribute. */
  function HotColumns(f: Form): set<string>
  {
    set a | a in CategoricalAttributes :: Dummy(a, Code(f, a))
  }

  /** The value the record holds for a numeric attribute. */
  function NumericValue(f: Form, attribute: string): real
    requires attribute in NumericAttributes
  {
    if attribute == "Age" then f.age as real
    else if attribute == "RestingBP" then f.restingBP as real
    else if attribute == "Cholesterol" then f.cholesterol as real
    else if attribute == "FastingBS" then FastingBSCode(f.fastingBS) as real
    else if attribute == "MaxHR" then f.maxHR as real
    else f.oldpeak
  }

  /**
   * What the aligned row holds in column `name`, stated from the form alone:
   * a numeric attribute's value, 1 for the indicator of a chosen code, and 0
   * for every other column.
   */
  function Expected(f: Form, name: string): real
  {
    if name in NumericAttributes then NumericValue(f, name)
    else if name in HotColumns(f) then 1.0
    else 0.0
  }

  /** The record has the eleven training attribute names in order; RestingECG is "Normal" whatever the form says. */
  lemma RecordShape(f: Form)
    ensures Names(CanonicalRecord(f)) == RecordColumns
    ensures CanonicalRecord(f)[6] == Cell("RestingECG", Text("Normal"))
    ensures forall i :: 0 <= i < |RecordColumns| ==>
              (CanonicalRecord(f)[i].value.Num? <==> RecordColumns[i] in NumericAttributes)
  {
  }

  /**
   * An indicator label starts with its attribute's name, followed by "_" and
   * the level. The first three characters of a label tell the categorical
   * attributes apart from each other and from the numeric ones, except
   * RestingECG from RestingBP, which the eighth character ("E" against "B")
   * separates.
   */
  lemma DummyPrefix(a: string, x: string)
    requires a in CategoricalAttributes
    ensures Dummy(a, x)[0] == a[0] && Dummy(a, x)[1] == a[1] && Dummy(a, x)[2] == a[2]
    ensures |a| > 7 ==> Dummy(a, x)[7] == a[7]
    ensures Dummy(a, x)[|a|..] == "_" + x
  {
  }

  /** Indicator labels of categorical attributes determine the attribute and the level. */
  lemma DummyLabelsInjective()
    ensures forall a, b, x, y :: a in CategoricalAttributes && b in CategoricalAttributes && Dummy(a, x) == Dummy(b, y) ==> a == b && x == y
  {
    forall a, b, x, y | a in CategoricalAttributes && b in CategoricalAttributes && Dummy(a, x) == Dummy(b, y)
      ensures a == b && x == y
    {
      DummyPrefix(a, x);
      DummyPrefix(b, y);
      assert a == b;
      assert "_" + x == "_" + y;
      assert x == ("_" + x)[1..];
    }
  }

  /** No indicator label of a categorical attribute is the label of a numeric attribute. */
  lemma DummyNotNumeric()
    ensures forall a, x :: a in CategoricalAttributes ==> Dummy(a, x) !in NumericAttributes
  {
    forall a, x | a in CategoricalAttributes ensures Dummy(a, x) !in NumericAttributes {
      DummyPrefix(a, x);
    }
  }

  /** Each number cell of the record is a numeric attribute holding its value. */
  lemma RecordNumericCells(f: Form)
    ensures forall c :: c in CanonicalRecord(f) && c.value.Num? ==> c.name in NumericAttributes && c.value.x == NumericValue(f, c.name)
  {
    var r := CanonicalRecord(f);
    forall c | c in r && c.value.Num? ensures c.name in NumericAttributes && c.value.x == NumericValue(f, c.name) {
      var k :| 0 <= k < |r| && r[k] == c;
      if k == 0 {} else if k == 3 {} else if k == 4 {} else if k == 5 {} else if k == 7 {} else if k == 9 {}
    }
  }

  /** Each string cell of the record is a categorical attribute holding its code. */
  lemma RecordTextCells(f: Form)
    ensures forall c :: c in CanonicalRecord(f) && c.value.Text? ==> c.name in CategoricalAttributes && c.value.s == Code(f, c.name)
  {
    var r := CanonicalRecord(f);
    forall c | c in r && c.value.Text? ensures c.name in CategoricalAttributes && c.value.s == Code(f, c.name) {
      var k :| 0 <= k < |r| && r[k] == c;
      if k == 1 {} else if k == 2 {} else if k == 6 {} else if k == 8 {} else if k == 10 {}
    }
  }

  /** The record's labels are distinct. */
  lemma RecordDistinct(f: Form)
    ensures DistinctNames(CanonicalRecord(f))
  {
  }

  /** The record can be one-hot encoded without two columns receiving the same label. */
  lemma RecordNoLabelClash(f: Form)
    ensures NoLabelClash(CanonicalRecord(f))
  {
    var r := CanonicalRecord(f);
    RecordDistinct(f);
    RecordNumericCells(f);
    RecordTextCells(f);
    DummyLabelsInjective();
    DummyNotNumeric();
    forall c, c' | c in r && c' in r && c.name != c'.name ensures EncodedName(c) != EncodedName(c') {
    }
  }

  /** The indicator of a categorical attribute's chosen code is a column Expected sets to 1. */
  lemma ExpectedHot(f: Form, a: string)
    requires a in CategoricalAttributes
    ensures Expected(f, Dummy(a, Code(f, a))) == 1.0
  {
    DummyNotNumeric();
  }

  /** The record holds each numeric attribute as a number cell with its value. */
  lemma NumericCell(f: Form, n: string)
    requires n in NumericAttributes
    ensures Cell(n, Num(NumericValue(f, n))) in CanonicalRecord(f)
  {
  }

  /** The record holds each categorical attribute as a string cell with its code. */
  lemma CategoricalCell(f: Form, a: string)
    requires a in CategoricalAttributes
    ensures Cell(a, Text(Code(f, a))) in CanonicalRecord(f)
  {
  }

  /** Every column get_dummies produces from the record holds what Expected says for its label. */
  lemma EncodedCell(f: Form, e: Cell)
    requires e in GetDummies(CanonicalRecord(f))
    ensures e.value == Num(Expected(f, e.name))
  {
    var r := CanonicalRecord(f);
    GetDummiesMembers(r);
    if e in r && e.value.Num? {
      RecordNumericCells(f);
    } else {
      RecordTextCells(f);
      var c :| c in r && c.value.Text? && e == Indicator(c);
      ExpectedHot(f, c.name);
    }
  }

  /** get_dummies keeps every numeric attribute of the record under its own label. */
  lemma NumericLabelsKept(f: Form)
    ensures forall n :: n in NumericAttributes ==> n in Names(GetDummies(CanonicalRecord(f)))
  {
    var r := CanonicalRecord(f);
    GetDummiesMembers(r);
    forall n | n in NumericAttributes ensures n in Names(GetDummies(r)) {
      NumericCell(f, n);
      NameInNames(GetDummies(r), Cell(n, Num(NumericValue(f, n))));
    }
  }

  /** get_dummies produces the indicator of every categorical attribute's code. */
  lemma HotLabelsPresent(f: Form)
    ensures forall a :: a in CategoricalAttributes ==> Dummy(a, Code(f, a)) in Names(GetDummies(CanonicalRecord(f)))
  {
    var r := CanonicalRecord(f);
    GetDummiesMembers(r);
    forall a | a in CategoricalAttributes ensures Dummy(a, Code(f, a)) in Names(GetDummies(r)) {
      CategoricalCell(f, a);
      NameInNames(GetDummies(r), Indicator(Cell(a, Text(Code(f, a)))));
    }
  }

  /** A label get_dummies does not produce from the record is one Expected sets to 0. */
  lemma AbsentLabel(f: Form, name: string)
    requires name !in Names(GetDummies(CanonicalRecord(f)))
    ensures Expected(f, name) == 0.0
  {
    NumericLabelsKept(f);
    HotLabelsPresent(f);
  }

  /**
   * get_dummies followed by reindex onto `modelColumns` with fill 0 always
   * succeeds, gives exactly the columns `modelColumns` in their order, and
   * each column holds what Expected says: a numeric attribute its value, the
   * indicator of a chosen code 1, anything else 0.
   */
  lemma AlignedEncoding(f: Form, modelColumns: seq<string>)
    ensures Reindex(GetDummies(CanonicalRecord(f)), modelColumns, Num(0.0)).Success?
    ensures var a := Reindex(GetDummies(CanonicalRecord(f)), modelColumns, Num(0.0)).value;
            Names(a) == modelColumns &&
            forall i :: 0 <= i < |modelColumns| ==> a[i].value == Num(Expected(f, modelColumns[i]))
  {
    var d := GetDummies(CanonicalRecord(f));
    RecordNoLabelClash(f);
    GetDummiesDistinct(CanonicalRecord(f));
    var a := Reindex(d, modelColumns, Num(0.0)).value;
    forall i | 0 <= i < |modelColumns| ensures a[i].value == Num(Expected(f, modelColumns[i])) {
      if modelColumns[i] in Names(d) {
        var j :| 0 <= j < |d| && Names(d)[j] == modelColumns[i];
        EncodedCell(f, d[j]);
      } else {
        AbsentLabel(f, modelColumns[i]);
      }
    }
  }

  /**
   * A code whose indicator is not among `modelColumns` leaves no trace: every
   * indicator column of that attribute in the aligned row holds 0, exactly as
   * if no level had been chosen.
   */
  lemma UnseenLevelVanishes(f: Form, modelColumns: seq<string>, a: string)
    requires a in CategoricalAttributes && Dummy(a, Code(f, a)) !in modelColumns
    ensures var r := Reindex(GetDummies(CanonicalRecord(f)), modelColumns, Num(0.0));
            r.Success? &&
            forall i, level :: 0 <= i < |modelColumns| && modelColumns[i] == Dummy(a, level) ==> r.value[i].value == Num(0.0)
  {
    AlignedEncoding(f, modelColumns);
    forall i, level | 0 <= i < |modelColumns| && modelColumns[i] == Dummy(a, level)
      ensures Expected(f, modelColumns[i]) == 0.0
    {
      OneHot(f, a, level);
    }
  }

  /** The codes the form can produce for each categorical attribute. */
  function FormLevels(a: string): seq<string>
    requires a in CategoricalAttributes
  {
    if a == "Sex" then ["M", "F"]
    else if a == "ChestPainType" then ChestPainCodes
    else if a == "RestingECG" then [DefaultRestingECG]
    else if a == "ExerciseAngina" then ["N", "Y"]
    else SlopeCodes
  }

  /** Among the indicators of one categorical attribute, exactly the one of its code is 1. */
  lemma OneHot(f: Form, a: string, level: string)
    requires a in CategoricalAttributes
    ensures Expected(f, Dummy(a, level)) == if level == Code(f, a) then 1.0 else 0.0
  {
    DummyNotNumeric();
    if level != Code(f, a) {
      DummyLabelsInjective();
      assert Dummy(a, level) !in HotColumns(f);
    }
  }

  /** For a form the widgets can produce, each categorical attribute's code is one of the levels the form offers. */
  lemma OfferedLevel(f: Form, a: string)
    requires Offered(f) && a in CategoricalAttributes
    ensures Code(f, a) in FormLevels(a)
  {
    if a == "ChestPainType" {
      var k :| 0 <= k < |ChestPainOptions| && ChestPainOptions[k] == f.chestPain;
      DecodeChestPain(k);
    } else if a == "ST_Slope" {
      var k :| 0 <= k < |SlopeOptions| && SlopeOptions[k] == f.stSlope;
      DecodeSlope(k);
    }
  }

  /**
   * For a form the widgets can produce, exactly one of the indicators of the
   * levels a categorical attribute can take is 1: that of the chosen code.
   */
  lemma OneHotOverLevels(f: Form, a: string)
    requires Offered(f) && a in CategoricalAttributes
    ensures Code(f, a) in FormLevels(a)
    ensures forall l :: l in FormLevels(a) ==> (Expected(f, Dummy(a, l)) == 1.0 <==> l == Code(f, a))
  {
    OfferedLevel(f, a);
    forall l | l in FormLevels(a) ensures Expected(f, Dummy(a, l)) == 1.0 <==> l == Code(f, a) {
      OneHot(f, a, l);
    }
  }

  // ---------------------------------------------------------------------------
  // Scaling and the whole encoder

  /** The fitted scaler's transform, one column at a time: the scaled value of `x` in the named column. */
  type Scaler = (string, real) -> real

  /** What the encoder finally holds in column `name`: Expected, passed through the scaler for the five scaled columns. */
  function Final(f: Form, scaler: Scaler, name: string): real
  {
    if name in ScaledColumns then scaler(name, Expected(f, name)) else Expected(f, name)
  }

  /** The scaling step can select its five columns: each occurs in model_columns exactly once. */
  predicate ScalableColumns(modelColumns: seq<string>)
  {
    SelectsOnce(modelColumns, ScaledColumns)
  }

  /**
   * `procesar_datos`: decode the form, build the record, one-hot encode it,
   * reindex it onto `modelColumns` filling 0, then overwrite the five
   * continuous columns with their scaled values. It fails only when the
   * scaling step cannot select its columns from the aligned row.
   */
  method ProcessData(f: Form, modelColumns: seq<string>, scaler: Scaler) returns (result: Result<Row, FrameError>)
    ensures result.Success? <==> ScalableColumns(modelColumns)
    ensures result.Failure? ==>
              result.error == if exists n :: n in ScaledColumns && n !in modelColumns then MissingColumn else FeatureMismatch
    ensures result.Success? ==> Names(result.value) == modelColumns
    ensures result.Success? ==>
              forall i :: 0 <= i < |modelColumns| ==> result.value[i].value == Num(Final(f, scaler, modelColumns[i]))
  {
    var record := CanonicalRecord(f);
    var encoded := GetDummies(record);
    AlignedEncoding(f, modelColumns);
    var aligned := Reindex(encoded, modelColumns, Num(0.0)).value;
    var frame := new Frame(aligned);
    assert forall i :: 0 <= i < |modelColumns| ==> frame.values[i] == Num(Expected(f, modelColumns[i]));
    var err := frame.AssignTransformed(ScaledColumns, scaler);
    if err.Some? {
      return Failure(err.value);
    }
    result := Success(frame.Cells());
  }

  /** The worked example: a 50-year-old man, asymptomatic, upsloping ST segment. */
  const ExampleForm: Form := Form(50, "M", "ASY (Asintomático)", 130, 220, "No (0)", 140, "No", 0.0, "Up (Subida)")

  /** The example form gives the record the training data would hold for that patient. */
  lemma ExampleRecord()
    ensures CanonicalRecord(ExampleForm) ==
      [ Cell("Age", Num(50.0)), Cell("Sex", Text("M")), Cell("ChestPainType", Text("ASY")),
        Cell("RestingBP", Num(130.0)), Cell("Cholesterol", Num(220.0)), Cell("FastingBS", Num(0.0)),
        Cell("RestingECG", Text("Normal")), Cell("MaxHR", Num(140.0)), Cell("ExerciseAngina", Text("N")),
        Cell("Oldpeak", Num(0.0)), Cell("ST_Slope", Text("Up")) ]
  {
    DecodeChestPain(0);
    DecodeSlope(0);
    DecodeBinaryChoices();
  }
}
