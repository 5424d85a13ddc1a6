/**
 * The part of pandas that the feature encoder relies on, for a DataFrame of
 * exactly one row: one-hot encoding (`pd.get_dummies` with its defaults),
 * column alignment (`DataFrame.reindex(columns=..., fill_value=...)`) and the
 * in-place assignment of a block of columns (`df[cols] = transform(df[cols])`).
 */
module Frames {
  import opened Results

  /** A cell value: every numeric dtype (int, float, bool indicator) as a number, the object dtype as a string. */
  datatype Value = Num(x: real) | Text(s: string)

  /** One labelled column of a single-row DataFrame. */
  datatype Cell = Cell(name: string, value: Value)

  /** A single-row DataFrame: its columns in order, each with its one value. */
  type Row = seq<Cell>

  /** The exceptions pandas and the scaler raise on the paths the encoder uses. */
  datatype FrameError =
    | DuplicateLabels  // reindex on an axis with duplicate labels
    | MissingColumn    // selecting a list of columns one of which is absent (KeyError)
    | FeatureMismatch  // the selected block has more columns than the scaler was fitted on
    | NotNumeric       // the scaler cannot convert a string cell to a float

  /** The column labels of a row, in order. */
  function Names(r: Row): seq<string>
  {
    seq(|r|, i requires 0 <= i < |r| => r[i].name)
  }

  /** The cell values of a row, in order. */
  function Values(r: Row): seq<Value>
  {
    seq(|r|, i requires 0 <= i < |r| => r[i].value)
  }

  /** No two columns carry the same label. */
  predicate DistinctNames(r: Row)
  {
    forall i, j :: 0 <= i < j < |r| ==> r[i].name != r[j].name
  }

  /** The label get_dummies gives the indicator of `level` in column `prefix` (default prefix_sep "_"). */
  function Dummy(prefix: string, level: string): string
  {
    prefix + "_" + level
  }

  /** The position of the first column labelled `name`, if there is one. */
  function IndexOf(r: Row, name: string): (k: Option<nat>)
    ensures k.Some? ==> k.value < |r| && r[k.value].name == name
    ensures k.Some? ==> forall j :: 0 <= j < k.value ==> r[j].name != name
    ensures k.None? <==> forall j :: 0 <= j < |r| ==> r[j].name != name
  {
    if r == [] then None
    else if r[0].name == name then Some(0)
    else match IndexOf(r[1..], name)
      case None => None
      case Some(j) => Some(j + 1)
  }

  /** The columns get_dummies leaves as they are: the numeric ones, in their original order. */
  function Passthrough(r: Row): Row
  {
    if r == [] then []
    else (if r[0].value.Num? then [r[0]] else []) + Passthrough(r[1..])
  }

  /** The indicator get_dummies makes of a string cell `C` holding `v`: the column `C_v` set to 1. */
  function Indicator(c: Cell): Cell
    requires c.value.Text?
  {
    Cell(Dummy(c.name, c.value.s), Num(1.0))
  }

  /**
   * The indicator columns get_dummies adds for the string-valued columns: in a
   * single row each string column has one level, hence one indicator.
   */
  function Indicators(r: Row): Row
  {
    if r == [] then []
    else (if r[0].value.Text? then [Indicator(r[0])] else []) + Indicators(r[1..])
  }

  /**
   * `pd.get_dummies(df)` with default arguments: the non-string columns first,
   * unchanged, then the indicators of the string columns in column order.
   */
  function GetDummies(r: Row): (d: Row)
    ensures |d| == |r|
  {
    DummiesLength(r);
    Passthrough(r) + Indicators(r)
  }

  lemma {:induction false} DummiesLength(r: Row)
    ensures |Passthrough(r)| + |Indicators(r)| == |r|
  {
    if r != [] {
      DummiesLength(r[1..]);
    }
  }

  /** The passed-through columns are exactly the numeric cells of the row. */
  lemma {:induction false} PassthroughMembers(r: Row)
    ensures forall c :: c in Passthrough(r) <==> c in r && c.value.Num?
  {
    if r != [] {
      PassthroughMembers(r[1..]);
      assert forall c :: c in r <==> c == r[0] || c in r[1..] by {
        assert r == [r[0]] + r[1..];
      }
    }
  }

  /** The indicator columns are exactly the indicators of the string cells of the row. */
  lemma {:induction false} IndicatorsMembers(r: Row)
    ensures forall c :: c in r && c.value.Text? ==> Indicator(c) in Indicators(r)
    ensures forall e :: e in Indicators(r) ==> exists c :: c in r && c.value.Text? && e == Indicator(c)
  {
    if r != [] {
      IndicatorsMembers(r[1..]);
      assert forall c :: c in r <==> c == r[0] || c in r[1..] by {
        assert r == [r[0]] + r[1..];
      }
    }
  }

  /**
   * get_dummies keeps every numeric cell, gives every string cell its
   * indicator, and produces nothing else.
   */
  lemma GetDummiesMembers(r: Row)
    ensures forall c :: c in r && c.value.Num? ==> c in GetDummies(r)
    ensures forall c :: c in r && c.value.Text? ==> Indicator(c) in GetDummies(r)
    ensures forall e :: e in GetDummies(r) ==>
              (e in r && e.value.Num?) || exists c :: c in r && c.value.Text? && e == Indicator(c)
  {
    PassthroughMembers(r);
    IndicatorsMembers(r);
  }

  /** A cell of a row contributes its label to the row's labels. */
  lemma NameInNames(r: Row, c: Cell)
    requires c in r
    ensures c.name in Names(r)
  {
    var j :| 0 <= j < |r| && r[j] == c;
    assert Names(r)[j] == c.name;
  }

  /** The label a cell has after get_dummies: its own if numeric, its indicator's if a string. */
  function EncodedName(c: Cell): string
  {
    match c.value
    case Num(_) => c.name
    case Text(v) => Dummy(c.name, v)
  }

  /**
   * The row's labels are distinct and stay distinct once string cells are
   * renamed to their indicators: no indicator label coincides with another
   * column's label or indicator.
   */
  ghost predicate NoLabelClash(r: Row)
  {
    && DistinctNames(r)
    && forall c, c' :: c in r && c' in r && c.name != c'.name ==> EncodedName(c) != EncodedName(c')
  }

  /** Two rows with distinct labels and no label in common concatenate to a row with distinct labels. */
  lemma DistinctConcat(a: Row, b: Row)
    requires DistinctNames(a) && DistinctNames(b)
    requires forall x, y :: x in a && y in b ==> x.name != y.name
    ensures DistinctNames(a + b)
  {
    forall i, j | 0 <= i < j < |a + b| ensures (a + b)[i].name != (a + b)[j].name {
      if j < |a| {
      } else if i >= |a| {
        assert (a + b)[i] == b[i - |a|] && (a + b)[j] == b[j - |a|];
      } else {
        assert (a + b)[i] in a && (a + b)[j] in b;
      }
    }
  }

  lemma {:induction false} PassthroughDistinct(r: Row)
    requires DistinctNames(r)
    ensures DistinctNames(Passthrough(r))
  {
    if r != [] {
      assert DistinctNames(r[1..]);
      PassthroughDistinct(r[1..]);
      PassthroughMembers(r[1..]);
      if r[0].value.Num? {
        forall y | y in Passthrough(r[1..]) ensures r[0].name != y.name {
          var j :| 0 <= j < |r[1..]| && r[1..][j] == y;
          assert r[j + 1] == y;
        }
        DistinctConcat([r[0]], Passthrough(r[1..]));
      }
    }
  }

  lemma {:induction false} IndicatorsDistinct(r: Row)
    requires NoLabelClash(r)
    ensures DistinctNames(Indicators(r))
  {
    if r != [] {
      assert NoLabelClash(r[1..]) by {
        assert forall c :: c in r[1..] ==> c in r;
      }
      IndicatorsDistinct(r[1..]);
      IndicatorsMembers(r[1..]);
      if r[0].value.Text? {
        forall y | y in Indicators(r[1..]) ensures Indicator(r[0]).name != y.name {
          var c :| c in r[1..] && c.value.Text? && y == Indicator(c);
          var j :| 0 <= j < |r[1..]| && r[1..][j] == c;
          assert r[j + 1] == c;
          assert EncodedName(r[0]) != EncodedName(c);
        }
        DistinctConcat([Indicator(r[0])], Indicators(r[1..]));
      }
    }
  }

  /** get_dummies yields distinct labels as long as no indicator label clashes with another label. */
  lemma GetDummiesDistinct(r: Row)
    requires NoLabelClash(r)
    ensures DistinctNames(GetDummies(r))
  {
    PassthroughDistinct(r);
    IndicatorsDistinct(r);
    PassthroughMembers(r);
    IndicatorsMembers(r);
    forall x, y | x in Passthrough(r) && y in Indicators(r) ensures x.name != y.name {
      var c :| c in r && c.value.Text? && y == Indicator(c);
      assert x.name != c.name by {
        var i :| 0 <= i < |r| && r[i] == x;
        var j :| 0 <= j < |r| && r[j] == c;
      }
      assert EncodedName(x) != EncodedName(c);
    }
    DistinctConcat(Passthrough(r), Indicators(r));
  }

  /** The value reindex puts in the column `name`: the row's own, or `fill` if the row lacks it. */
  function Take(r: Row, name: string, fill: Value): Value
  {
    match IndexOf(r, name)
    case Some(j) => r[j].value
    case None => fill
  }

  /**
   * `df.reindex(columns=columns, fill_value=fill)`: the result has exactly the
   * labels `columns`, in that order; a label the row has keeps its value, a
   * label it lacks gets `fill`, and every other column of the row is dropped.
   * Asked for exactly the labels it already has, in the same order, the row
   * comes back as it is; otherwise a row with a repeated label cannot be
   * reindexed.
   */
  function Reindex(r: Row, columns: seq<string>, fill: Value): (a: Result<Row, FrameError>)
    ensures a.Failure? <==> !DistinctNames(r) && Names(r) != columns
    ensures a.Failure? ==> a.error == DuplicateLabels
    ensures Names(r) == columns ==> a == Success(r)
    ensures a.Success? ==> Names(a.value) == columns
    ensures a.Success? && DistinctNames(r) ==>
              forall i, j :: 0 <= i < |columns| && 0 <= j < |r| && r[j].name == columns[i] ==> a.value[i].value == r[j].value
    ensures a.Success? ==> forall i :: 0 <= i < |columns| && columns[i] !in Names(r) ==> a.value[i].value == fill
  {
    if Names(r) == columns then
      assert forall i :: 0 <= i < |columns| ==> columns[i] in Names(r);
      assert forall i, j :: 0 <= i < |columns| && 0 <= j < |r| && r[j].name == columns[i] && DistinctNames(r) ==> i == j by {
        forall i, j | 0 <= i < |columns| && 0 <= j < |r| && r[j].name == columns[i] && DistinctNames(r) ensures i == j {
          assert r[i].name == Names(r)[i];
        }
      }
      Success(r)
    else if !DistinctNames(r) then Failure(DuplicateLabels)
    else
      var row := seq(|columns|, i requires 0 <= i < |columns| => Cell(columns[i], Take(r, columns[i], fill)));
      assert forall i :: 0 <= i < |columns| && columns[i] !in Names(r) ==> IndexOf(r, columns[i]).None? by {
        forall i | 0 <= i < |columns| && columns[i] !in Names(r)
          ensures IndexOf(r, columns[i]).None?
        {
          forall j | 0 <= j < |r| ensures r[j].name != columns[i] {
            assert Names(r)[j] == r[j].name;
          }
        }
      }
      Success(row)
  }

  /** Each of `names` labels exactly one of `columns`, so `df[names]` selects one column per name. */
  predicate SelectsOnce(columns: seq<string>, names: seq<string>)
  {
    forall n :: n in names ==> multiset(columns)[n] == 1
  }

  /**
   * Whether `df[names]` can be selected and handed to a per-column numeric
   * transform fitted on `names`: each name labels exactly one column, and
   * every such column holds a number.
   */
  predicate Scalable(columns: seq<string>, values: seq<Value>, names: seq<string>)
    requires |values| == |columns|
  {
    && SelectsOnce(columns, names)
    && (forall i :: 0 <= i < |columns| && columns[i] in names ==> values[i].Num?)
  }

  /** A single-row DataFrame whose cells are overwritten in place. */
  class Frame {
    const columns: seq<string>
    var values: seq<Value>

    ghost predicate Valid()
      reads this
    {
      |values| == |columns|
    }

    constructor (r: Row)
      ensures Valid()
      ensures columns == Names(r) && values == Values(r)
    {
      columns := Names(r);
      values := Values(r);
    }

    /** The frame as a row of labelled cells. */
    function Cells(): (r: Row)
      reads this
      requires Valid()
      ensures Names(r) == columns && Values(r) == values
    {
      var vs := values;
      seq(|vs|, i requires 0 <= i < |vs| => Cell(columns[i], vs[i]))
    }

    /**
     * `df[names] = transform(df[names])`: select the columns `names`, transform
     * each value with the fitted per-column function, and write the results
     * back into the same columns. Selecting a missing label raises KeyError;
     * a repeated label makes the transform see the wrong number of features,
     * and a string cell makes it raise as not numeric; in every failing case
     * the frame is left as it was.
     */
    method AssignTransformed(names: seq<string>, transform: (string, real) -> real) returns (err: Option<FrameError>)
      requires Valid()
      modifies this
      ensures Valid()
      ensures err.None? <==> Scalable(columns, old(values), names)
      ensures err == Some(MissingColumn) <==> exists n :: n in names && n !in columns
      ensures err == Some(FeatureMismatch) <==>
                (forall n :: n in names ==> n in columns) && exists n :: n in names && multiset(columns)[n] != 1
      ensures err == Some(NotNumeric) <==>
                SelectsOnce(columns, names) && exists i :: 0 <= i < |columns| && columns[i] in names && old(values)[i].Text?
      ensures err.Some? ==> values == old(values)
      ensures err.None? ==> forall i :: 0 <= i < |columns| && columns[i] !in names ==> values[i] == old(values)[i]
      ensures err.None? ==> forall i :: 0 <= i < |columns| && columns[i] in names ==> values[i] == Num(transform(columns[i], old(values)[i].x))
    {
      if exists n :: n in names && n !in columns {
        return Some(MissingColumn);
      }
      if exists n :: n in names && multiset(columns)[n] != 1 {
        return Some(FeatureMismatch);
      }
      if exists i :: 0 <= i < |columns| && columns[i] in names && values[i].Text? {
        return Some(NotNumeric);
      }
      var vs := values;
      values := seq(|vs|, i requires 0 <= i < |vs| =>
        match vs[i]
        case Num(x) => if columns[i] in names then Num(transform(columns[i], x)) else vs[i]
        case Text(_) => vs[i]);
      err := None;
    }
  }
}
