/** Alignment of the encoded table to the column list the model was trained
    on: look the list up on the model, append every listed label the table
    lacks with a 0 cell, then, when the list is not empty, select exactly the
    listed columns in the listed order. */
module Alignment {
  import opened Wrappers
  import opened Frame

  /** What the handler needs of the loaded model: `feature_names_in_`, which
      a fitted estimator may or may not carry. */
  datatype TrainedModel = TrainedModel(featureNamesIn: Option<seq<string>>)

  /** The training column list: the model's feature names when it has them,
      the empty list otherwise. */
  function TrainingColumns(m: TrainedModel): (cols: seq<string>)
    ensures m.featureNamesIn.None? ==> cols == []
    ensures m.featureNamesIn.Some? ==> cols == m.featureNamesIn.value
  {
    m.featureNamesIn.GetOr([])
  }

  /** One pass of the zero-fill loop: `df[n] = 0` guarded by `n not in df.columns`. */
  function AddIfMissing(t: Table, n: string): (r: Table)
    ensures n in Names(r)
    ensures n in Names(t) ==> r == t
    ensures n !in Names(t) ==> |r| == |t| + 1 && r[..|t|] == t && r[|t|] == Column(n, 0)
    ensures n !in Names(t) ==> Names(r) == Names(t) + [n]
  {
    if n in Names(t) then t
    else
      var r := t + [Column(n, 0)];
      assert Names(r)[|t|] == n;
      r
  }

  /** The table after the zero-fill loop has visited every label of `schema`
      in order. The columns already there keep their positions and cells;
      what is added comes after them, holds 0 and was absent before; the
      labels afterwards are those of `t` together with those of `schema`. */
  function ZeroFilled(t: Table, schema: seq<string>): (r: Table)
    ensures |t| <= |r| && r[..|t|] == t
    ensures forall i :: |t| <= i < |r| ==> r[i].value == 0 && r[i].name !in Names(t)
    ensures forall n :: n in Names(r) <==> n in Names(t) || n in schema
    ensures Distinct(Names(t)) ==> Distinct(Names(r))
    ensures (forall n :: n in schema ==> n in Names(t)) ==> r == t
    decreases |schema|
  {
    if schema == [] then t
    else
      var prev := ZeroFilled(t, schema[..|schema| - 1]);
      var n := schema[|schema| - 1];
      assert forall m :: m in schema <==> m in schema[..|schema| - 1] || m == n by {
        assert schema == schema[..|schema| - 1] + [n];
      }
      assert n !in Names(prev) ==> n !in Names(t);
      AddIfMissing(prev, n)
  }

  /** The zero-fill loop: walks the training list and appends each label the
      table does not yet have, with a 0 cell. It never fails on a label the
      encoding did not produce. */
  method ZeroFill(t: Table, schema: seq<string>) returns (r: Table)
    ensures r == ZeroFilled(t, schema)
    ensures forall n :: n in schema ==> n in Names(r)
  {
    r := t;
    for i := 0 to |schema|
      invariant r == ZeroFilled(t, schema[..i])
      invariant forall n :: n in schema[..i] ==> n in Names(r)
    {
      assert schema[..i + 1][..i] == schema[..i];
      r := AddIfMissing(r, schema[i]);
    }
    assert schema[..|schema|] == schema;
  }

  /** After zero-filling, the cell under a label is the original one when the
      label was already a column, and 0 when the loop added it. */
  lemma ValueOfZeroFilled(t: Table, schema: seq<string>, n: string)
    requires n in Names(t) || n in schema
    ensures n in Names(ZeroFilled(t, schema))
    ensures ValueOf(ZeroFilled(t, schema), n) == if n in Names(t) then ValueOf(t, n) else 0
  {
    ValueOfExtended(t, ZeroFilled(t, schema), n);
  }

  /** The cell rule of ValueOfZeroFilled for every label of the schema. */
  lemma ValueOfZeroFilledAll(t: Table, schema: seq<string>)
    ensures forall i :: 0 <= i < |schema| ==>
      schema[i] in Names(ZeroFilled(t, schema)) &&
      ValueOf(ZeroFilled(t, schema), schema[i]) == if schema[i] in Names(t) then ValueOf(t, schema[i]) else 0
  {
    forall i | 0 <= i < |schema|
      ensures schema[i] in Names(ZeroFilled(t, schema))
      ensures ValueOf(ZeroFilled(t, schema), schema[i]) == if schema[i] in Names(t) then ValueOf(t, schema[i]) else 0
    {
      ValueOfZeroFilled(t, schema, schema[i]);
    }
  }

  /** The aligned table. With an empty training list it is the input table
      unchanged. Otherwise its labels are exactly the list, in its order
      (columns not listed are dropped), and each listed label holds the
      input's cell when the input had that column and 0 when it did not. */
  function Align(t: Table, schema: seq<string>): (r: Table)
    ensures |schema| == 0 ==> r == t
    ensures |schema| > 0 ==> Names(r) == schema
    ensures |schema| > 0 ==> forall i :: 0 <= i < |r| ==>
      r[i].value == if schema[i] in Names(t) then ValueOf(t, schema[i]) else 0
  {
    var filled := ZeroFilled(t, schema);
    if |schema| > 0 then
      ValueOfZeroFilledAll(t, schema);
      Select(filled, schema).value
    else
      filled
  }

  /** The projection after zero-filling never hits a missing label. */
  lemma SelectAfterZeroFill(t: Table, schema: seq<string>)
    ensures Select(ZeroFilled(t, schema), schema).Some?
  {
  }

  /** A duplicate-free table aligned to its own labels comes back unchanged. */
  lemma AlignToOwnLabels(t: Table)
    requires Distinct(Names(t))
    ensures Align(t, Names(t)) == t
  {
    var r := Align(t, Names(t));
    forall i | 0 <= i < |t|
      ensures r[i] == t[i]
    {
      assert Names(r)[i] == t[i].name;
      ValueOfDistinct(t, i);
    }
  }

  /** Aligning an aligned table again to the same list changes nothing. */
  lemma AlignIdempotent(t: Table, schema: seq<string>)
    ensures Align(Align(t, schema), schema) == Align(t, schema)
  {
  }
}
