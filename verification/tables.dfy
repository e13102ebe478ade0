/** Column-oriented tables: a sequence of distinct column names, a map from
    each name to its column of values, and a row count shared by every
    column. This is the slice of a data frame the preparation step relies
    on; the row index is positional (0 .. rows-1) in every table. */
module Tables {
  import opened Results

  type Name = string

  /** A cell: the raw data mixes categorical strings and numbers; encoded
      and scaled cells are numbers. */
  datatype Value = Text(s: string) | Int(i: int) | Real(x: real)

  /** The constant a synthesised schema column holds in every row. */
  const Zero: Value := Int(0)

  /** An opaque, pre-fitted transform: it receives the names of the
      selected columns and their values (column-major) and returns the
      encoded columns, or None when it raises. It may depend on the names
      (a fitted scaler rejects names it was not fitted on). Nothing else is
      known about it. */
  type Transform = (seq<Name>, seq<seq<Value>>) -> Option<seq<seq<Value>>>

  predicate Distinct<T(==)>(s: seq<T>) {
    forall i, j :: 0 <= i < j < |s| ==> s[i] != s[j]
  }

  function SetOf<T>(s: seq<T>): set<T> {
    set x | x in s
  }

  /** A column of `n` zeros. */
  function Zeros(n: nat): seq<Value> {
    seq(n, _ => Zero)
  }

  /** The elements of `s` that are not in `exclude`, in the order of `s`. */
  function Without(s: seq<Name>, exclude: set<Name>): (r: seq<Name>)
    ensures forall x :: x in r <==> x in s && x !in exclude
    ensures Distinct(s) ==> Distinct(r)
    decreases |s|
  {
    if s == [] then []
    else
      var rest := Without(s[..|s| - 1], exclude);
      var last := s[|s| - 1];
      assert Distinct(s) ==> last !in s[..|s| - 1];
      if last in exclude then rest else rest + [last]
  }

  /** Filtering distributes over concatenation: together with the one-element
      case this pins `Without` down as the order-preserving filter. */
  lemma {:induction false} WithoutConcat(a: seq<Name>, b: seq<Name>, exclude: set<Name>)
    ensures Without(a + b, exclude) == Without(a, exclude) + Without(b, exclude)
    decreases |b|
  {
    if b == [] {
      assert a + b == a;
    } else {
      var n := |b|;
      assert (a + b)[..|a + b| - 1] == a + b[..n - 1];
      assert (a + b)[|a + b| - 1] == b[n - 1];
      WithoutConcat(a, b[..n - 1], exclude);
    }
  }

  /** The position of the first occurrence of `x` in `s`. */
  function IndexOf(s: seq<Name>, x: Name): (k: nat)
    requires x in s
    ensures k < |s| && s[k] == x
    ensures forall i :: 0 <= i < k ==> s[i] != x
  {
    if s[0] == x then 0 else 1 + IndexOf(s[1..], x)
  }

  /** Filtering keeps the relative order of what it keeps. */
  lemma {:induction false} WithoutOrder(s: seq<Name>, exclude: set<Name>)
    ensures Distinct(s) ==> forall i, j :: 0 <= i < j < |Without(s, exclude)| ==>
      IndexOf(s, Without(s, exclude)[i]) < IndexOf(s, Without(s, exclude)[j])
    decreases |s|
  {
    if s != [] && Distinct(s) {
      var n := |s|;
      var prefix := s[..n - 1];
      var rest := Without(prefix, exclude);
      var r := Without(s, exclude);
      assert Distinct(prefix);
      WithoutOrder(prefix, exclude);
      forall x | x in prefix ensures IndexOf(s, x) == IndexOf(prefix, x) {
        var k := IndexOf(prefix, x);
        assert s[k] == x;
      }
      forall i, j | 0 <= i < j < |r| ensures IndexOf(s, r[i]) < IndexOf(s, r[j]) {
        assert r[i] in rest;
        if j < |rest| {
          assert r[j] == rest[j] && r[i] == rest[i];
        } else {
          assert r[j] == s[n - 1];
          assert IndexOf(s, r[j]) == n - 1;
        }
      }
    }
  }

  lemma DistinctConcat(a: seq<Name>, b: seq<Name>)
    ensures Distinct(a + b) <==> Distinct(a) && Distinct(b) && (forall x :: x in a ==> x !in b)
  {
    if Distinct(a) && Distinct(b) && (forall x :: x in a ==> x !in b) {
      forall i, j | 0 <= i < j < |a + b|
        ensures (a + b)[i] != (a + b)[j]
      {
        if j < |a| {
        } else if i >= |a| {
          assert (a + b)[i] == b[i - |a|] && (a + b)[j] == b[j - |a|];
        } else {
          assert (a + b)[i] in a && (a + b)[j] in b;
        }
      }
    }
    if Distinct(a + b) {
      forall i, j | 0 <= i < j < |a| ensures a[i] != a[j] {
        assert (a + b)[i] == a[i] && (a + b)[j] == a[j];
      }
      forall i, j | 0 <= i < j < |b| ensures b[i] != b[j] {
        assert (a + b)[|a| + i] == b[i] && (a + b)[|a| + j] == b[j];
      }
      forall i, j | 0 <= i < |a| && 0 <= j < |b| ensures a[i] != b[j] {
        assert (a + b)[i] == a[i] && (a + b)[|a| + j] == b[j];
      }
    }
  }

  datatype Table = Table(columns: seq<Name>, data: map<Name, seq<Value>>, rows: nat) {

    /** Column names are distinct, name exactly the map's keys, and every
        column has one value per row. */
    ghost predicate Valid() {
      && Distinct(columns)
      && (forall c :: c in data <==> c in columns)
      && (forall c :: c in data ==> |data[c]| == rows)
    }

    /** The table's values in column order, as a transform receives them. */
    function Matrix(): (m: seq<seq<Value>>)
      requires Valid()
    {
      seq(|columns|, i requires 0 <= i < |columns| => data[columns[i]])
    }
  }

  /** Every name of `names` is a column of `t`. */
  predicate HasAll(t: Table, names: seq<Name>) {
    forall c :: c in names ==> c in t.data
  }

  /** The table whose i-th column is named `names[i]` and holds `cols[i]`. */
  function Make(names: seq<Name>, cols: seq<seq<Value>>, n: nat): (t: Table)
    requires Distinct(names) && |cols| == |names|
    requires forall i :: 0 <= i < |cols| ==> |cols[i]| == n
    ensures t.Valid() && t.columns == names && t.rows == n
    ensures forall i :: 0 <= i < |names| ==> t.data[names[i]] == cols[i]
  {
    Table(names, map i | 0 <= i < |names| :: names[i] := cols[i], n)
  }

  /** `df[names]`: the listed columns in the listed order, or the names
      that are absent. */
  function Select(t: Table, names: seq<Name>): (r: Result<seq<seq<Value>>>)
    requires t.Valid()
    ensures r.Ok? <==> HasAll(t, names)
    ensures r.Ok? ==> |r.value| == |names|
    ensures r.Ok? ==> forall i :: 0 <= i < |names| ==> r.value[i] == t.data[names[i]]
    ensures r.Err? ==> r.error == MissingColumns(Without(names, t.data.Keys))
  {
    var missing := Without(names, t.data.Keys);
    if missing != [] then
      assert missing[0] in missing;
      Err(MissingColumns(missing))
    else
      Ok(seq(|names|, i requires 0 <= i < |names| => t.data[names[i]]))
  }

  /** A matrix of `width` columns, each of `n` values. */
  predicate Shaped(m: seq<seq<Value>>, width: nat, n: nat) {
    |m| == width && forall i :: 0 <= i < |m| ==> |m[i]| == n
  }

  /** `DataFrame(matrix, columns=names)` for a block of `n` rows: the matrix
      must have one column per name, each of `n` values, and the names must
      be distinct. */
  function Block(names: seq<Name>, cols: seq<seq<Value>>, n: nat, stage: Stage): (r: Result<Table>)
    ensures r.Ok? <==> Shaped(cols, |names|, n) && Distinct(names)
    ensures r.Ok? ==> r.value.Valid() && r.value.columns == names && r.value.rows == n
    ensures r.Ok? ==> forall i :: 0 <= i < |names| ==> r.value.data[names[i]] == cols[i]
    ensures r.Err? && |cols| != |names| ==> r.error == ShapeMismatch(stage)
  {
    if |cols| != |names| || exists i :: 0 <= i < |cols| && |cols[i]| != n then
      Err(ShapeMismatch(stage))
    else if !Distinct(names) then
      Err(DuplicateColumns)
    else
      Ok(Make(names, cols, n))
  }

  /** Side-by-side concatenation of two row-aligned tables. */
  function Concat(a: Table, b: Table): (t: Table)
    requires a.Valid() && b.Valid() && a.rows == b.rows
    requires Distinct(a.columns + b.columns)
    ensures t.Valid() && t.rows == a.rows
    ensures t.columns == a.columns + b.columns
    ensures forall c :: c in a.data ==> t.data[c] == a.data[c]
    ensures forall c :: c in b.data ==> t.data[c] == b.data[c]
  {
    DistinctConcat(a.columns, b.columns);
    Table(a.columns + b.columns, a.data + b.data, a.rows)
  }

  /** `t[name] = vals`: an existing column is overwritten in place, a new
      one is appended after the others. */
  function SetColumn(t: Table, name: Name, vals: seq<Value>): (r: Table)
    requires t.Valid() && |vals| == t.rows
    ensures r.Valid() && r.rows == t.rows
    ensures r.columns == if name in t.data then t.columns else t.columns + [name]
    ensures name in r.data && r.data[name] == vals
    ensures forall c :: c in t.data && c != name ==> c in r.data && r.data[c] == t.data[c]
    ensures forall c :: c in r.data <==> c in t.data || c == name
  {
    if name in t.data then
      Table(t.columns, t.data[name := vals], t.rows)
    else
      var r := Table(t.columns + [name], t.data[name := vals], t.rows);
      assert Distinct(r.columns) by {
        DistinctConcat(t.columns, [name]);
      }
      r
  }

  /** The column map after assigning `cols[i]` to `names[i]` for every i. */
  function AssignedData(t: Table, names: seq<Name>, cols: seq<seq<Value>>): (m: map<Name, seq<Value>>)
    requires Distinct(names) && |cols| == |names|
    ensures forall c :: c in m <==> c in t.data || c in names
    ensures forall i :: 0 <= i < |names| ==> m[names[i]] == cols[i]
    ensures forall c :: c in t.data && c !in names ==> m[c] == t.data[c]
  {
    map c | c in t.data.Keys + SetOf(names) :: if c in names then cols[IndexOf(names, c)] else t.data[c]
  }

  /** Assigning `t[names[i]] = cols[i]` for i = 0, 1, ... in turn: the
      names already present keep their place and take their new column, the
      new ones are appended in order, and every other column keeps its
      values. */
  function SetColumns(t: Table, names: seq<Name>, cols: seq<seq<Value>>): (r: Table)
    requires t.Valid() && Distinct(names) && |cols| == |names|
    requires forall i :: 0 <= i < |cols| ==> |cols[i]| == t.rows
    ensures r.Valid() && r.rows == t.rows
    ensures r.columns == t.columns + Without(names, t.data.Keys)
    ensures forall i :: 0 <= i < |names| ==> names[i] in r.data && r.data[names[i]] == cols[i]
    ensures forall c :: c in t.data && c !in names ==> c in r.data && r.data[c] == t.data[c]
    ensures forall c :: c in r.data ==> c in t.data || c in names
  {
    var added := Without(names, t.data.Keys);
    var m := AssignedData(t, names, cols);
    DistinctConcat(t.columns, added);
    assert forall c :: c in m ==> |m[c]| == t.rows by {
      forall c | c in m ensures |m[c]| == t.rows {
        if c in names {
          var i :| 0 <= i < |names| && names[i] == c;
        }
      }
    }
    Table(t.columns + added, m, t.rows)
  }

  /** Two tables with the same columns, rows and column contents are equal. */
  lemma SameTable(a: Table, b: Table)
    requires a.columns == b.columns && a.rows == b.rows
    requires forall c :: c in a.data <==> c in b.data
    requires forall c :: c in a.data ==> a.data[c] == b.data[c]
    ensures a == b
  {
    assert a.data == b.data;
  }

  /** Filtering one more name adds it at the end unless it is excluded. */
  lemma WithoutSnoc(names: seq<Name>, name: Name, exclude: set<Name>)
    ensures Without(names + [name], exclude) ==
      if name in exclude then Without(names, exclude) else Without(names, exclude) + [name]
  {
    assert (names + [name])[..|names|] == names;
  }

  lemma AppendAssoc(a: seq<Name>, b: seq<Name>, x: Name)
    ensures a + (b + [x]) == a + b + [x]
  {
  }

  /** The columns of `cols + [vals]` all have the table's height. */
  lemma SnocHeights(t: Table, cols: seq<seq<Value>>, vals: seq<Value>)
    requires forall i :: 0 <= i < |cols| ==> |cols[i]| == t.rows
    requires |vals| == t.rows
    ensures forall i :: 0 <= i < |cols + [vals]| ==> |(cols + [vals])[i]| == t.rows
  {
  }

  /** One column of the all-at-once and of the one-after-the-other
      assignments holds the same values. */
  lemma SetColumnsSnocAt(t: Table, names: seq<Name>, cols: seq<seq<Value>>, name: Name, vals: seq<Value>, c: Name)
    requires t.Valid() && Distinct(names + [name]) && |cols| == |names|
    requires forall i :: 0 <= i < |cols| ==> |cols[i]| == t.rows
    requires |vals| == t.rows
    requires c in t.data || c in names + [name]
    ensures Distinct(names)
    ensures forall i :: 0 <= i < |cols + [vals]| ==> |(cols + [vals])[i]| == t.rows
    ensures var r, u := SetColumns(t, names + [name], cols + [vals]), SetColumns(t, names, cols);
      && c in r.data && c in SetColumn(u, name, vals).data && r.data[c] == SetColumn(u, name, vals).data[c]
  {
    DistinctConcat(names, [name]);
    SnocHeights(t, cols, vals);
    var all, allCols := names + [name], cols + [vals];
    if c == name {
      assert all[|names|] == name && allCols[|names|] == vals;
    } else if c in names {
      var i :| 0 <= i < |names| && names[i] == c;
      assert all[i] == c && allCols[i] == cols[i];
    }
  }

  /** The assignments made all at once are the assignments made one after
      the other: assigning one more column is a single `t[name] = vals`
      on the table the earlier assignments produced. */
  lemma SetColumnsSnoc(t: Table, names: seq<Name>, cols: seq<seq<Value>>, name: Name, vals: seq<Value>)
    requires t.Valid() && Distinct(names + [name]) && |cols| == |names|
    requires forall i :: 0 <= i < |cols| ==> |cols[i]| == t.rows
    requires |vals| == t.rows
    ensures Distinct(names)
    ensures forall i :: 0 <= i < |cols + [vals]| ==> |(cols + [vals])[i]| == t.rows
    ensures SetColumns(t, names + [name], cols + [vals]) == SetColumn(SetColumns(t, names, cols), name, vals)
  {
    DistinctConcat(names, [name]);
    SnocHeights(t, cols, vals);
    var u := SetColumns(t, names, cols);
    var r := SetColumns(t, names + [name], cols + [vals]);
    var s := SetColumn(u, name, vals);
    assert name in u.data <==> name in t.data;
    WithoutSnoc(names, name, t.data.Keys);
    AppendAssoc(t.columns, Without(names, t.data.Keys), name);
    forall c | c in r.data ensures c in s.data && r.data[c] == s.data[c] {
      SetColumnsSnocAt(t, names, cols, name, vals, c);
    }
    SameTable(r, s);
  }

  /** `t[names]` for distinct names that are all present: exactly those
      columns, in that order, with their values. */
  function Project(t: Table, names: seq<Name>): (r: Table)
    requires t.Valid() && Distinct(names) && HasAll(t, names)
    ensures r.Valid() && r.rows == t.rows && r.columns == names
    ensures forall c :: c in names ==> r.data[c] == t.data[c]
  {
    Table(names, map c | c in names :: t.data[c], t.rows)
  }
}
