/** Schema reconciliation (main.py lines 44-50): when the training header is
    available, every header column the candidate lacks is added as a column
    of zeros, and the table is then cut down and reordered to exactly the
    header's columns. Without a header the candidate passes through. */
module Reconciliation {
  import opened Results
  import opened Tables

  /** The zero-filling loop over the header, in header order: a header
      column the table lacks is appended with a zero in every row, one it
      already has is left alone. */
  function ZeroFill(t: Table, schema: seq<Name>): (u: Table)
    requires t.Valid() && Distinct(schema)
    ensures u.Valid() && u.rows == t.rows
    ensures u.columns == t.columns + Without(schema, t.data.Keys)
    ensures forall c :: c in t.data ==> c in u.data && u.data[c] == t.data[c]
    ensures forall c :: c in schema && c !in t.data ==> c in u.data && u.data[c] == Zeros(t.rows)
    ensures forall c :: c in u.data ==> c in t.data || c in schema
    decreases |schema|
  {
    if schema == [] then
      t
    else
      var prefix := schema[..|schema| - 1];
      var c := schema[|schema| - 1];
      var u := ZeroFill(t, prefix);
      assert c !in prefix;
      assert c in u.data <==> c in t.data;
      if c in u.data then
        u
      else
        SetColumn(u, c, Zeros(u.rows))
  }

  /** The table handed to the scaler. With a header: exactly the header's
      columns in header order, each keeping the candidate's values when the
      candidate has it and zero in every row otherwise; anything else is
      dropped. Without a header: the candidate itself. */
  function Reconcile(t: Table, schema: Option<seq<Name>>): (r: Table)
    requires t.Valid()
    requires schema.Some? ==> Distinct(schema.value)
    ensures r.Valid() && r.rows == t.rows
    ensures schema.None? ==> r == t
    ensures schema.Some? ==> r.columns == schema.value
    ensures schema.Some? ==> forall c :: c in r.data <==> c in schema.value
    ensures schema.Some? ==> forall c :: c in schema.value && c in t.data ==> r.data[c] == t.data[c]
    ensures schema.Some? ==> forall c :: c in schema.value && c !in t.data ==> r.data[c] == Zeros(t.rows)
  {
    match schema
    case None => t
    case Some(s) => Project(ZeroFill(t, s), s)
  }

  /** Reconciliation stated directly, without the zero-filling loop. */
  function Reconciled(t: Table, schema: seq<Name>): Table {
    Table(schema, map c | c in schema :: if c in t.data then t.data[c] else Zeros(t.rows), t.rows)
  }

  /** The fill-then-project pipeline computes the direct definition. */
  lemma ReconcileIsReconciled(t: Table, schema: seq<Name>)
    requires t.Valid() && Distinct(schema)
    ensures Reconcile(t, Some(schema)) == Reconciled(t, schema)
  {
    SameTable(Reconcile(t, Some(schema)), Reconciled(t, schema));
  }

  /** Reconciling twice against the same header is reconciling once. */
  lemma ReconcileIdempotent(t: Table, schema: seq<Name>)
    requires t.Valid() && Distinct(schema)
    ensures Reconcile(Reconcile(t, Some(schema)), Some(schema)) == Reconcile(t, Some(schema))
  {
    SameTable(Reconcile(Reconcile(t, Some(schema)), Some(schema)), Reconcile(t, Some(schema)));
  }

  /** A candidate that already has exactly the header's columns, in order,
      is left unchanged. */
  lemma ReconcileNoOp(t: Table, schema: seq<Name>)
    requires t.Valid() && t.columns == schema
    ensures Reconcile(t, Some(schema)) == t
  {
    SameTable(Reconcile(t, Some(schema)), t);
  }
}
