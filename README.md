# Heart-disease risk form: feature encoder

This project models the feature encoder of a small heart-disease risk
predictor (`procesar_datos`, Heart/app.py:45-82). The encoder takes the
answers from a clinical form: age, sex, chest-pain type, resting blood
pressure, cholesterol, fasting blood sugar, maximum heart rate,
exercise-induced angina, ST depression (oldpeak) and ST slope. It turns them
into the single feature row that the trained classifier expects. It works in
five steps:

1. It decodes the UI choices into training-time codes.
2. It builds the eleven-attribute record, with RestingECG fixed to "Normal".
3. It one-hot encodes the text attributes, as pandas `get_dummies` does.
4. It aligns the row onto the saved `model_columns` list, filling 0, as pandas
   `reindex` does.
5. It overwrites the five continuous columns with their values under the
   fitted scaler.

The project has three modules:

- `Results` (results.dfy) holds `Option` and `Result`.
- `Frames` (frames.dfy) models a one-row pandas DataFrame:
  - a row is a sequence of labelled cells, each holding a number or a text;
  - `GetDummies` and `Reindex` are functions on rows, with their error case
    (reindexing a row that has duplicate labels raises, unless the target is
    exactly the row's own label list, which returns the row unchanged);
  - the in-place column assignment `df[cols] = scaler.transform(df[cols])` is
    the class `Frame` with its method `AssignTransformed`.

    `AssignTransformed` fails with `MissingColumn` when a selected column is
    absent (pandas raises KeyError). It fails with `FeatureMismatch` when a
    selected column occurs more than once (the scaler then sees the wrong
    number of features). It fails with `NotNumeric` when a selected cell holds
    text.
- `Heart` (heart.dfy) holds the rest:
  - the form and its widget domain (`Offered`);
  - the decoding of the choices;
  - the canonical record;
  - an independent reference definition of every encoded column (`Expected`,
    and `Final` after scaling);
  - the encoder itself (`ProcessData`);
  - the lemmas tying the encoder to the reference definitions.

The main result is `ProcessData`'s contract. The encoder succeeds exactly when
each of the five scaled columns occurs once in `model_columns`. When it
succeeds, the result's labels are `model_columns` in their order, and column
`i` holds the following value:

- a numeric attribute holds its (scaled) value;
- the indicator of the chosen code holds 1;
- every other label holds 0.

The proof goes through `AlignedEncoding`, which shows that reindexing the
one-hot record never hits the duplicate-label error. That in turn rests on
`RecordNoLabelClash` and `GetDummiesDistinct`. The labels of indicator
columns are injective in attribute and level, and never coincide with a
numeric attribute's label.

## Model

| member | source | states |
|---|---|---|
| Heart.FirstToken | Heart/app.py:52-53 | the code taken from a choice is a prefix of it without spaces, followed in the choice by a space or by the end of the choice (`split(" ")[0]`) |
| Heart.FirstTokenUnique | Heart/app.py:52-53 | those three properties determine the first token: any string that has them is `FirstToken` |
| Heart.ContainsAt | Heart/app.py:49 | the substring test `Contains(s, sub)`, Python's `sub in s`, holds exactly when `sub` occurs at some position of `s` |
| Heart.FastingBSMeaning | Heart/app.py:49 | the fasting-blood-sugar flag `FastingBSCode` is 1 exactly when "Sí" occurs in the choice, and 0 exactly when it does not |
| Heart.DecodeChestPain | Heart/app.py:52 | each of the four offered chest-pain options decodes to its code ASY, NAP, ATA, TA |
| Heart.DecodeSlope | Heart/app.py:53 | each of the three offered ST-slope options decodes to its code Up, Flat, Down |
| Heart.DecodeBinaryChoices | Heart/app.py:47-49 | the lookups `SexCode`, `AnginaCode` and `FastingBSCode` decode the offered sex, angina and fasting-blood-sugar choices to M/F, N/Y and 0/1 respectively |
| Heart.OfferedLevel | Heart/app.py:28-53 | for any form the widgets can produce, each categorical attribute's code is one of the levels that attribute offers |
| Heart.RecordShape | Heart/app.py:56-68 | the record `CanonicalRecord` builds from a form holds the eleven training attributes in training order; the numeric cells are exactly the six numeric attributes; RestingECG is always "Normal" |
| Heart.ExampleRecord | Heart/app.py:56-68 | the default form (50-year-old man, asymptomatic, upsloping) yields the expected eleven-cell record |
| Frames.IndexOf | Heart/app.py:76 | label lookup: it finds the first cell with the label, and finds none exactly when no cell has it |
| Frames.GetDummies | Heart/app.py:71 | one-hot encoding gives exactly one output column per input column |
| Frames.PassthroughMembers | Heart/app.py:71 | the leading part of the encoding, `Passthrough`, is exactly the numeric cells of the input |
| Frames.IndicatorsMembers | Heart/app.py:71 | the trailing part, `Indicators`, is exactly the indicator cells `Indicator(c)`, labelled `Dummy(attr, level)` = `attr_level` and holding 1, of the text cells |
| Frames.GetDummiesMembers | Heart/app.py:71 | every numeric cell is kept, every text cell gives its indicator, and nothing else appears |
| Frames.GetDummiesDistinct | Heart/app.py:71 | when the input's labels and its encoded labels do not clash, the encoding has distinct labels |
| Heart.DummyLabelsInjective | Heart/app.py:71 | an indicator label of a categorical attribute determines both the attribute and the level |
| Heart.DummyNotNumeric | Heart/app.py:71 | no indicator label equals a numeric attribute's name |
| Heart.RecordNoLabelClash | Heart/app.py:56-71 | the record's labels are distinct and its encoded labels never clash |
| Heart.EncodedCell | Heart/app.py:56-71 | every column that one-hot encoding of the record produces holds the value the reference definition `Expected` gives its label |
| Heart.AbsentLabel | Heart/app.py:71-76 | a label the encoding does not produce is one `Expected` sets to 0 |
| Frames.Reindex | Heart/app.py:76 | reindexing fails (DuplicateLabels) exactly when the row has duplicate labels and the target is not its own label list; a target equal to the row's labels returns the row unchanged; otherwise the result's labels are the target list in order, a present label carries its cell's value, and an absent label carries the fill value |
| Heart.AlignedEncoding | Heart/app.py:71-76 | one-hot encoding followed by reindexing onto any `model_columns` with fill 0 never fails; the result has exactly those labels in order, and each holds `Expected` of its label |
| Heart.UnseenLevelVanishes | Heart/app.py:73-76 | when the chosen code's indicator is not in `model_columns`, every indicator column of that attribute is 0, so the choice leaves no trace |
| Heart.OneHot | Heart/app.py:71-76 | among the indicators of one categorical attribute, exactly the chosen code's indicator is 1 |
| Heart.OneHotOverLevels | Heart/app.py:28-76 | for any form the widgets can produce, exactly one of the offered levels of each categorical attribute has indicator 1 |
| Frames.Frame.AssignTransformed | Heart/app.py:79-80 | it fails with MissingColumn when a selected label is absent, else with FeatureMismatch when one is repeated, else with NotNumeric when a selected cell holds text, each exactly under its condition and leaving the row unchanged; on success the selected columns hold the transformed values and every other column is unchanged |
| Heart.ProcessData | Heart/app.py:45-82 | the encoder succeeds exactly when each scaled column occurs once in `model_columns`, and otherwise names the error raised; on success it returns the columns of `model_columns` in order, each holding `Final` of its label |

## Left out

- The Streamlit interface is left out because it is I/O:
  - page setup and widgets (Heart/app.py:18-42);
  - the button, and the display of the prediction and probability
    (Heart/app.py:84-99).

  The widget domain appears only as the predicate `Offered`. It is used in the
  lemmas about offered options and is not required by the encoder, because
  `procesar_datos` does not check its inputs.
- Loading of the classifier, scaler and column list from disk, and the halt
  when a file is missing (Heart/app.py:10-16), are left out because they are
  file I/O. `model_columns` and the scaler are parameters of `ProcessData`.
- The classifier's `predict` and `predict_proba` calls, and the choice of the
  probability at index 1 (Heart/app.py:88-89), are left out because they are
  calls into a trained model whose code is not part of this model.
- The error display for exceptions (Heart/app.py:101-102) is left out. The
  encoder's own exceptions are modelled as `Failure` results.
- Heart.ProcessData: the scaler is an opaque per-column function
  `(column, value) -> value`. The fitted formula `(x - mean) / scale` and
  floating-point arithmetic are not modelled. The model assumes that the
  scaler was fitted on the five continuous columns in the order
  Age, RestingBP, Cholesterol, MaxHR, Oldpeak. The model does not capture
  scikit-learn's check of feature names against the fitted names.
- Frames.GetDummies: its own contract states only the number of columns. What
  the columns are is stated by `Frames.GetDummiesMembers` and
  `Frames.GetDummiesDistinct`.
- pandas dtypes are not modelled beyond numeric versus text:
  - integers, floats and the boolean indicator columns of `get_dummies` are all
    `Num(real)`;
  - an indicator is 1 and a filled column is 0.
- The order of cells inside the encoded row is modelled: numeric columns come
  first, then indicators in attribute order. Only its set and values matter
  after reindexing.
- `Heart.DecodeBinaryChoices`: the code maps any sex other than "M" to "F",
  and any angina answer other than "Sí" to "N". So the lookups are total, not
  tables with an unmapped state. The model follows the code.
- Reindexing onto a `model_columns` list that itself repeats a label is
  modelled as copying the cell to each position. Only a repeated scaled column
  makes the encoder fail.
