/** The output step (main.py lines 79-91): the prepared matrix goes to the
    selected model, and a copy of the dataset gets a `prediction` column
    and, when the model estimates probabilities, one `prob_i` column per
    class, numbered by position. */
module Output {
  import opened Results
  import opened Tables
  import opened Preparation

  const PredictionColumn: Name := "prediction"

  /** Decimal digit d. */
  function Digit(d: nat): char
    requires d < 10
  {
    (48 + d) as char
  }

  /** The decimal rendering of n, as an f-string writes an integer. */
  function Decimal(n: nat): (s: string)
    ensures |s| >= 1
    ensures |s| == 1 <==> n < 10
    decreases n
  {
    if n < 10 then [Digit(n)] else Decimal(n / 10) + [Digit(n % 10)]
  }

  /** Different numbers are rendered differently. */
  lemma {:induction false} DecimalInjective(a: nat, b: nat)
    requires Decimal(a) == Decimal(b)
    ensures a == b
    decreases a
  {
    if a < 10 || b < 10 {
      assert a < 10 && b < 10;
      assert Decimal(a) == [Digit(a)] && Decimal(b) == [Digit(b)];
    } else {
      var da, db := Decimal(a / 10), Decimal(b / 10);
      assert Decimal(a) == da + [Digit(a % 10)] && Decimal(b) == db + [Digit(b % 10)];
      assert Digit(a % 10) == Decimal(a)[|Decimal(a)| - 1] == Digit(b % 10);
      assert da == Decimal(a)[..|Decimal(a)| - 1] == db;
      DecimalInjective(a / 10, b / 10);
    }
  }

  /** The column of class i's probability. */
  function ProbColumn(i: nat): Name {
    "prob_" + Decimal(i)
  }

  /** `prob_0`, ..., `prob_{k-1}`. */
  function ProbColumns(k: nat): (r: seq<Name>)
    ensures |r| == k
    ensures forall i :: 0 <= i < k ==> r[i] == ProbColumn(i)
  {
    if k == 0 then [] else ProbColumns(k - 1) + [ProbColumn(k - 1)]
  }

  /** Distinct classes get distinct columns, none of them `prediction`. */
  lemma ProbColumnsFresh(i: nat, j: nat)
    ensures ProbColumn(i) == ProbColumn(j) ==> i == j
    ensures ProbColumn(i) != PredictionColumn
  {
    if ProbColumn(i) == ProbColumn(j) {
      assert Decimal(i) == ProbColumn(i)[5..] && Decimal(j) == ProbColumn(j)[5..];
      DecimalInjective(i, j);
    }
    assert ProbColumn(i)[2] == 'o' && PredictionColumn[2] == 'e';
  }

  /** The probability columns are distinct names. */
  lemma ProbColumnsDistinct(k: nat)
    ensures Distinct(ProbColumns(k))
  {
    var names := ProbColumns(k);
    forall i, j | 0 <= i < j < k ensures names[i] != names[j] {
      ProbColumnsFresh(i, j);
    }
  }

  /** The names `out` gains: `prediction`, then one column per class. */
  function AddedColumns(probs: Option<seq<seq<Value>>>): seq<Name> {
    [PredictionColumn] + (if probs.Some? then ProbColumns(|probs.value|) else [])
  }

  /** `prediction` and the probability columns are distinct names. */
  lemma AddedColumnsDistinct(probs: Option<seq<seq<Value>>>)
    ensures Distinct(AddedColumns(probs))
  {
    var k := if probs.Some? then |probs.value| else 0;
    ProbColumnsDistinct(k);
    forall i | 0 <= i < k ensures ProbColumns(k)[i] != PredictionColumn {
      ProbColumnsFresh(i, i);
    }
    DistinctConcat([PredictionColumn], ProbColumns(k));
  }

  /** The values assigned to the added columns, in the same order. */
  function AddedValues(pred: seq<Value>, probs: Option<seq<seq<Value>>>): seq<seq<Value>> {
    [pred] + (if probs.Some? then probs.value else [])
  }

  /** Position 0 of the assignments puts the predictions in `prediction`. */
  lemma AddedAtPrediction(pred: seq<Value>, probs: Option<seq<seq<Value>>>)
    ensures |AddedValues(pred, probs)| == |AddedColumns(probs)|
    ensures AddedColumns(probs)[0] == PredictionColumn && AddedValues(pred, probs)[0] == pred
  {
  }

  /** Position i + 1 of the assignments puts class i's probabilities in
      `prob_i`. */
  lemma AddedAtProb(pred: seq<Value>, probs: Option<seq<seq<Value>>>, i: nat)
    requires probs.Some? && i < |probs.value|
    ensures i + 1 < |AddedColumns(probs)| && i + 1 < |AddedValues(pred, probs)|
    ensures AddedColumns(probs)[i + 1] == ProbColumn(i) && AddedValues(pred, probs)[i + 1] == probs.value[i]
  {
  }

  /** Every added column has one value per row. */
  predicate Fits(pred: seq<Value>, probs: Option<seq<seq<Value>>>, rows: nat) {
    |pred| == rows && (probs.Some? ==> forall i :: 0 <= i < |probs.value| ==> |probs.value[i]| == rows)
  }

  /** When every added column fits, the assignments are well formed: one
      column per distinct name, each of the table's height. */
  lemma AddedFit(pred: seq<Value>, probs: Option<seq<seq<Value>>>, rows: nat)
    requires Fits(pred, probs, rows)
    ensures Distinct(AddedColumns(probs))
    ensures |AddedValues(pred, probs)| == |AddedColumns(probs)|
    ensures forall i :: 0 <= i < |AddedValues(pred, probs)| ==> |AddedValues(pred, probs)[i]| == rows
  {
    AddedColumnsDistinct(probs);
    var values := AddedValues(pred, probs);
    forall i | 0 <= i < |values| ensures |values[i]| == rows {
      if i > 0 {
        assert values[i] == probs.value[i - 1];
      }
    }
  }

  /** The table after all the assignments, when they fit. */
  function Assign(df: Table, pred: seq<Value>, probs: Option<seq<seq<Value>>>): (r: Table)
    requires df.Valid() && Fits(pred, probs, df.rows)
    ensures r.Valid() && r.rows == df.rows
    ensures r.columns == df.columns + Without(AddedColumns(probs), df.data.Keys)
    ensures forall c :: c in df.data && c !in AddedColumns(probs) ==> c in r.data && r.data[c] == df.data[c]
    ensures forall c :: c in r.data ==> c in df.data || c in AddedColumns(probs)
  {
    AddedFit(pred, probs, df.rows);
    SetColumns(df, AddedColumns(probs), AddedValues(pred, probs))
  }

  /** After the assignments the column at position k of the added names
      holds the values at position k of the added values. */
  lemma AssignStoresAt(df: Table, pred: seq<Value>, probs: Option<seq<seq<Value>>>, k: nat)
    requires df.Valid() && Fits(pred, probs, df.rows) && k < |AddedColumns(probs)|
    ensures AddedColumns(probs)[k] in Assign(df, pred, probs).data
    ensures k < |AddedValues(pred, probs)|
    ensures Assign(df, pred, probs).data[AddedColumns(probs)[k]] == AddedValues(pred, probs)[k]
  {
    AddedFit(pred, probs, df.rows);
  }

  /** After the assignments `prob_i` holds the probabilities of class i. */
  lemma AssignStoresProb(df: Table, pred: seq<Value>, probs: Option<seq<seq<Value>>>, i: nat)
    requires df.Valid() && Fits(pred, probs, df.rows) && probs.Some? && i < |probs.value|
    ensures ProbColumn(i) in Assign(df, pred, probs).data
    ensures Assign(df, pred, probs).data[ProbColumn(i)] == probs.value[i]
  {
    AddedAtProb(pred, probs, i);
    AssignStoresAt(df, pred, probs, i + 1);
  }

  /** After the assignments `prediction` holds the predictions and `prob_i`
      the probabilities of class i. */
  lemma AssignStores(df: Table, pred: seq<Value>, probs: Option<seq<seq<Value>>>)
    requires df.Valid() && Fits(pred, probs, df.rows)
    ensures var r := Assign(df, pred, probs);
      && PredictionColumn in r.data && r.data[PredictionColumn] == pred
      && (probs.Some? ==> forall i :: 0 <= i < |probs.value| ==> ProbColumn(i) in r.data && r.data[ProbColumn(i)] == probs.value[i])
  {
    AddedAtPrediction(pred, probs);
    AssignStoresAt(df, pred, probs, 0);
    forall i | probs.Some? && 0 <= i < |probs.value| ensures ProbColumn(i) in Assign(df, pred, probs).data {
      AssignStoresProb(df, pred, probs, i);
    }
    forall i | probs.Some? && 0 <= i < |probs.value| ensures Assign(df, pred, probs).data[ProbColumn(i)] == probs.value[i] {
      AssignStoresProb(df, pred, probs, i);
    }
  }

  /** A copy of the dataset with the predictions assigned to `prediction`
      and then, when there are probabilities, each class's column assigned
      to its `prob_i`. It fails, as pandas' column assignment does, when a column
      does not have one value per row. On success the dataset's columns come
      first, in their order; the added names that are new follow in order;
      `prediction` holds the predictions, `prob_i` the i-th probability
      column; every other dataset column keeps its values. */
  function Augment(df: Table, pred: seq<Value>, probs: Option<seq<seq<Value>>>): (r: Result<Table>)
    requires df.Valid()
    ensures r.Ok? <==> Fits(pred, probs, df.rows)
    ensures r.Err? ==> r.error == LengthMismatch
    ensures r.Ok? ==> r.value.Valid() && r.value.rows == df.rows
    ensures r.Ok? ==> r.value.columns == df.columns + Without(AddedColumns(probs), df.data.Keys)
    ensures r.Ok? ==> PredictionColumn in r.value.data && r.value.data[PredictionColumn] == pred
    ensures r.Ok? && probs.Some? ==> forall i :: 0 <= i < |probs.value| ==>
      ProbColumn(i) in r.value.data && r.value.data[ProbColumn(i)] == probs.value[i]
    ensures r.Ok? ==> forall c :: c in df.data && c !in AddedColumns(probs) ==>
      c in r.value.data && r.value.data[c] == df.data[c]
    ensures r.Ok? && probs.None? ==> forall c :: c in r.value.data <==> c in df.data || c == PredictionColumn
  {
    if !Fits(pred, probs, df.rows) then
      Err(LengthMismatch)
    else
      AssignStores(df, pred, probs);
      Ok(Assign(df, pred, probs))
  }

  /** A trained model: its prediction capability and, optionally, its
      probability estimate (one column per class). Both are opaque. */
  datatype Model = Model(predict: Table -> seq<Value>, predictProba: Option<Table -> seq<seq<Value>>>)

  /** The model's probability estimate on the prepared matrix, when the
      model offers one. */
  function Probabilities(model: Model, x: Table): (p: Option<seq<seq<Value>>>)
    ensures p.Some? <==> model.predictProba.Some?
    ensures p.Some? ==> p.value == model.predictProba.value(x)
  {
    match model.predictProba
    case None => None
    case Some(estimate) => Some(estimate(x))
  }

  /** One interaction after loading: prepare the dataset, predict, and
      attach the outputs to a copy of it. A preparation failure stops the
      run with that failure and no partial result; otherwise the run
      succeeds exactly when the predictions and probabilities have one
      value per dataset row. The output keeps the dataset's columns first,
      in order, followed by the added names that are new; `prediction`
      holds the model's predictions on the prepared matrix, `prob_i` the
      estimate for class i; every dataset column that is not an added name
      keeps its values. */
  function Run(df: Table, enc: Encoders, schema: Option<seq<Name>>, model: Model): (r: Result<Table>)
    requires df.Valid()
    requires schema.Some? ==> Distinct(schema.value)
    ensures Prepare(df, enc, schema).Err? ==> r == Err(Prepare(df, enc, schema).error)
    ensures r.Ok? <==>
      (Prepare(df, enc, schema).Ok? &&
       var x := Prepare(df, enc, schema).value;
       Fits(model.predict(x), Probabilities(model, x), df.rows))
    ensures r.Ok? ==> r.value.Valid() && r.value.rows == df.rows
    ensures r.Ok? ==>
      var probs := Probabilities(model, Prepare(df, enc, schema).value);
      && r.value.columns == df.columns + Without(AddedColumns(probs), df.data.Keys)
      && (forall c :: c in df.data && c !in AddedColumns(probs) ==> c in r.value.data && r.value.data[c] == df.data[c])
    ensures r.Ok? ==>
      PredictionColumn in r.value.data && r.value.data[PredictionColumn] == model.predict(Prepare(df, enc, schema).value)
    ensures r.Ok? && model.predictProba.None? ==>
      forall c :: c in r.value.data <==> c in df.data || c == PredictionColumn
    ensures r.Ok? && model.predictProba.Some? ==>
      var p := model.predictProba.value(Prepare(df, enc, schema).value);
      forall i :: 0 <= i < |p| ==> ProbColumn(i) in r.value.data && r.value.data[ProbColumn(i)] == p[i]
  {
    var x :- Prepare(df, enc, schema);
    Augment(df, model.predict(x), Probabilities(model, x))
  }
}
