/** The feature preparer, `prepare` in main.py (lines 23-52): encode the two
    binary and the two ordinal columns, expand the one-hot inputs, pass the
    remaining columns through, join the four blocks side by side, reconcile
    the result with the training header and scale it. */
module Preparation {
  import opened Results
  import opened Tables
  import opened OneHot
  import opened Remainder
  import opened Reconciliation

  /** The fixed columns of the binary and the ordinal role. */
  const BinaryColumns: seq<Name> := ["GENERO", "POSEE_AUTO"]
  const OrdinalColumns: seq<Name> := ["DESC_ESCOLARIDAD_MAX", "HORA_OFICIAL_INICIO_LABORAL"]

  /** The four pre-fitted artefacts, already loaded. */
  datatype Encoders = Encoders(binary: Transform, ordinal: Transform, onehot: OneHotEncoder, scaler: Transform)

  /** The dataset columns an encoder consumes, given the one-hot inputs. */
  function Used(inputs: seq<Name>): seq<Name> {
    BinaryColumns + OrdinalColumns + inputs
  }

  /** The encoding of `inputs` as `outputs` can be built: the columns are
      present, the transform succeeds on them and returns one column per
      output name, each with one value per dataset row, and the output
      names are distinct. */
  predicate Encodes(df: Table, inputs: seq<Name>, outputs: seq<Name>, f: Transform)
    requires df.Valid()
  {
    && HasAll(df, inputs)
    && f(inputs, Select(df, inputs).value).Some?
    && Shaped(f(inputs, Select(df, inputs).value).value, |outputs|, df.rows)
    && Distinct(outputs)
  }

  /** Select `inputs` from the dataset, run the transform on them and name
      its output columns `outputs`: the block is exactly what the transform
      returned, one column per output name and one value per dataset row.
      A missing input column, a failing transform and a badly shaped output
      are the three ways it fails. */
  function Encode(df: Table, inputs: seq<Name>, outputs: seq<Name>, f: Transform, stage: Stage): (r: Result<Table>)
    requires df.Valid()
    ensures r.Ok? <==> Encodes(df, inputs, outputs, f)
    ensures !HasAll(df, inputs) ==> r == Err(MissingColumns(Without(inputs, df.data.Keys)))
    ensures HasAll(df, inputs) && f(inputs, Select(df, inputs).value).None? ==> r == Err(TransformFailed(stage))
    ensures r.Ok? ==> r.value.Valid() && r.value.columns == outputs && r.value.rows == df.rows
    ensures r.Ok? ==> forall i :: 0 <= i < |outputs| ==>
      r.value.data[outputs[i]] == f(inputs, Select(df, inputs).value).value[i]
  {
    var input :- Select(df, inputs);
    match f(inputs, input)
    case None => Err(TransformFailed(stage))
    case Some(out) => Block(outputs, out, df.rows, stage)
  }

  /** Four row-aligned blocks side by side; a name shared by two columns is
      an error. */
  function Join(a: Table, b: Table, c: Table, d: Table): (r: Result<Table>)
    requires a.Valid() && b.Valid() && c.Valid() && d.Valid()
    requires a.rows == b.rows == c.rows == d.rows
    ensures r.Ok? <==> Distinct(a.columns + b.columns + c.columns + d.columns)
    ensures r.Err? ==> r.error == DuplicateColumns
    ensures r.Ok? ==> r.value.Valid() && r.value.rows == a.rows
    ensures r.Ok? ==> r.value.columns == a.columns + b.columns + c.columns + d.columns
    ensures r.Ok? ==> forall x :: x in a.data ==> r.value.data[x] == a.data[x]
    ensures r.Ok? ==> forall x :: x in b.data ==> r.value.data[x] == b.data[x]
    ensures r.Ok? ==> forall x :: x in c.data ==> r.value.data[x] == c.data[x]
    ensures r.Ok? ==> forall x :: x in d.data ==> r.value.data[x] == d.data[x]
  {
    if !Distinct(a.columns + b.columns + c.columns + d.columns) then
      Err(DuplicateColumns)
    else
      DistinctConcat(a.columns + b.columns + c.columns, d.columns);
      DistinctConcat(a.columns + b.columns, c.columns);
      Ok(Concat(Concat(Concat(a, b), c), d))
  }

  /** The conditions under which the candidate can be assembled: both
      fixed encodings can be built, the one-hot encoder records its input
      names and has no more category lists than names, the one-hot encoding
      can be built, and no name occurs twice among the four blocks. */
  predicate CandidateFits(df: Table, enc: Encoders)
    requires df.Valid()
  {
    && Encodes(df, BinaryColumns, BinaryColumns, enc.binary)
    && Encodes(df, OrdinalColumns, OrdinalColumns, enc.ordinal)
    && InputColumns(enc.onehot).Ok?
    && var inputs := InputColumns(enc.onehot).value;
       && OneHotColumns(inputs, enc.onehot.categories).Ok?
       && var names := OneHotColumns(inputs, enc.onehot.categories).value;
          && Encodes(df, inputs, names, enc.onehot.transform)
          && Distinct(BinaryColumns + OrdinalColumns + names + Renamed(RemainderColumns(df.columns, Used(inputs))))
  }

  /** The candidate feature matrix (main.py lines 26-43). It can be built
      exactly when `CandidateFits` holds. The one-hot input list is chosen
      once and used for the indicator names, for the one-hot selection and
      for the remainder. On success the columns are the binary columns, the
      ordinal columns, the indicator names and the renamed remainder, in
      that order; the row count is the dataset's; every remainder column
      carries the dataset's values unchanged. What the encoded columns hold
      is stated by `CandidateBinaryValues`, `CandidateOrdinalValues` and
      `CandidateOneHotValues`. */
  function Candidate(df: Table, enc: Encoders): (r: Result<Table>)
    requires df.Valid()
    ensures r.Ok? <==> CandidateFits(df, enc)
    ensures !HasAll(df, BinaryColumns) ==> r == Err(MissingColumns(Without(BinaryColumns, df.data.Keys)))
    ensures r.Ok? ==>
      var inputs := InputColumns(enc.onehot).value;
      && HasAll(df, Used(inputs))
      && r.value.Valid() && r.value.rows == df.rows
      && r.value.columns == BinaryColumns + OrdinalColumns + OneHotColumns(inputs, enc.onehot.categories).value
                            + Renamed(RemainderColumns(df.columns, Used(inputs)))
      && (forall c :: c in df.data && c !in Used(inputs) ==> r.value.data[Prefix + c] == df.data[c])
  {
    var xb :- Encode(df, BinaryColumns, BinaryColumns, enc.binary, BinaryStage);
    var xo :- Encode(df, OrdinalColumns, OrdinalColumns, enc.ordinal, OrdinalStage);
    var inputs :- InputColumns(enc.onehot);
    var names :- OneHotColumns(inputs, enc.onehot.categories);
    var xoh :- Encode(df, inputs, names, enc.onehot.transform, OneHotStage);
    var xr := RemainderBlock(df, Used(inputs));
    Join(xb, xo, xoh, xr)
  }

  /** The candidate joins the four blocks `Candidate` builds. */
  lemma CandidateJoins(df: Table, enc: Encoders)
    requires df.Valid() && Candidate(df, enc).Ok?
    ensures var inputs := InputColumns(enc.onehot).value;
      var names := OneHotColumns(inputs, enc.onehot.categories).value;
      && Encode(df, BinaryColumns, BinaryColumns, enc.binary, BinaryStage).Ok?
      && Encode(df, OrdinalColumns, OrdinalColumns, enc.ordinal, OrdinalStage).Ok?
      && Encode(df, inputs, names, enc.onehot.transform, OneHotStage).Ok?
      && Candidate(df, enc) == Join(Encode(df, BinaryColumns, BinaryColumns, enc.binary, BinaryStage).value,
                                    Encode(df, OrdinalColumns, OrdinalColumns, enc.ordinal, OrdinalStage).value,
                                    Encode(df, inputs, names, enc.onehot.transform, OneHotStage).value,
                                    RemainderBlock(df, Used(inputs)))
  {
  }

  /** The binary columns of the candidate hold the binary encoder's output
      on the dataset's binary columns. */
  lemma CandidateBinaryValues(df: Table, enc: Encoders)
    requires df.Valid() && Candidate(df, enc).Ok?
    ensures forall i :: 0 <= i < |BinaryColumns| ==>
      Candidate(df, enc).value.data[BinaryColumns[i]] == enc.binary(BinaryColumns, Select(df, BinaryColumns).value).value[i]
  {
    CandidateJoins(df, enc);
  }

  /** The ordinal columns of the candidate hold the ordinal encoder's output
      on the dataset's ordinal columns. */
  lemma CandidateOrdinalValues(df: Table, enc: Encoders)
    requires df.Valid() && Candidate(df, enc).Ok?
    ensures forall i :: 0 <= i < |OrdinalColumns| ==>
      Candidate(df, enc).value.data[OrdinalColumns[i]] == enc.ordinal(OrdinalColumns, Select(df, OrdinalColumns).value).value[i]
  {
    CandidateJoins(df, enc);
  }

  /** The k-th indicator column of the candidate holds the k-th output of
      the one-hot encoder, run on the same input list that names its
      outputs. */
  lemma CandidateOneHotValues(df: Table, enc: Encoders)
    requires df.Valid() && Candidate(df, enc).Ok?
    ensures var inputs := InputColumns(enc.onehot).value;
      var names := OneHotColumns(inputs, enc.onehot.categories).value;
      forall k :: 0 <= k < |names| ==>
        Candidate(df, enc).value.data[names[k]] == enc.onehot.transform(inputs, Select(df, inputs).value).value[k]
  {
    CandidateJoins(df, enc);
  }

  /** The matrix handed to the scaler (main.py lines 26-50): the candidate,
      reconciled with the training header when there is one. */
  function FeatureMatrix(df: Table, enc: Encoders, schema: Option<seq<Name>>): (r: Result<Table>)
    requires df.Valid()
    requires schema.Some? ==> Distinct(schema.value)
    ensures r.Ok? <==> Candidate(df, enc).Ok?
    ensures r.Err? ==> r.error == Candidate(df, enc).error
    ensures r.Ok? ==> r.value.Valid() && r.value.rows == df.rows
    ensures r.Ok? && schema.None? ==> r.value == Candidate(df, enc).value
    ensures r.Ok? && schema.Some? ==> r.value.columns == schema.value
    ensures r.Ok? && schema.Some? ==> forall c :: c in schema.value && c !in Candidate(df, enc).value.data ==>
      r.value.data[c] == Zeros(df.rows)
    ensures r.Ok? && schema.Some? ==> forall c :: c in schema.value && c in Candidate(df, enc).value.data ==>
      r.value.data[c] == Candidate(df, enc).value.data[c]
  {
    var candidate :- Candidate(df, enc);
    Ok(Reconcile(candidate, schema))
  }

  /** The scaler succeeds on the matrix and returns one column per input
      column, each with one value per row. */
  predicate Scales(x: Table, f: Transform)
    requires x.Valid()
  {
    f(x.columns, x.Matrix()).Some? && Shaped(f(x.columns, x.Matrix()).value, |x.columns|, x.rows)
  }

  /** The scaler's output keeps its input's column names (main.py line 51).
      It fails when the scaler raises or returns a badly shaped matrix. */
  function Scale(x: Table, f: Transform): (r: Result<Table>)
    requires x.Valid()
    ensures r.Ok? <==> Scales(x, f)
    ensures f(x.columns, x.Matrix()).None? ==> r == Err(TransformFailed(ScalerStage))
    ensures r.Ok? ==> r.value.Valid() && r.value.columns == x.columns && r.value.rows == x.rows
    ensures r.Ok? ==> forall i :: 0 <= i < |x.columns| ==> r.value.data[x.columns[i]] == f(x.columns, x.Matrix()).value[i]
  {
    match f(x.columns, x.Matrix())
    case None => Err(TransformFailed(ScalerStage))
    case Some(out) => Block(x.columns, out, x.rows, ScalerStage)
  }

  /** `prepare`: the scaled feature matrix. The scaler sees the reconciled
      matrix, so with a training header it sees exactly the header's
      columns. The result has one row per dataset row; a failure anywhere
      before the scaler is the failure of the feature matrix. */
  function Prepare(df: Table, enc: Encoders, schema: Option<seq<Name>>): (r: Result<Table>)
    requires df.Valid()
    requires schema.Some? ==> Distinct(schema.value)
    ensures FeatureMatrix(df, enc, schema).Err? ==> r == Err(FeatureMatrix(df, enc, schema).error)
    ensures r.Ok? <==> FeatureMatrix(df, enc, schema).Ok? && Scales(FeatureMatrix(df, enc, schema).value, enc.scaler)
    ensures r.Ok? ==> r.value.Valid() && r.value.rows == df.rows
    ensures r.Ok? ==> r.value.columns == FeatureMatrix(df, enc, schema).value.columns
    ensures r.Ok? && schema.Some? ==> r.value.columns == schema.value
    ensures FeatureMatrix(df, enc, schema).Ok? ==> r == Scale(FeatureMatrix(df, enc, schema).value, enc.scaler)
  {
    var x :- FeatureMatrix(df, enc, schema);
    Scale(x, enc.scaler)
  }

  /** When the dataset and the encoders meet the candidate's conditions,
      preparation fails only if the scaler rejects the reconciled matrix. */
  lemma PrepareSucceeds(df: Table, enc: Encoders, schema: Option<seq<Name>>)
    requires df.Valid()
    requires schema.Some? ==> Distinct(schema.value)
    requires CandidateFits(df, enc)
    ensures FeatureMatrix(df, enc, schema).Ok?
    ensures Prepare(df, enc, schema).Ok? <==> Scales(FeatureMatrix(df, enc, schema).value, enc.scaler)
  {
  }
}
