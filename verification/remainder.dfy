/** The remainder block (main.py lines 39-41): every dataset column that no
    encoder consumes, kept in dataset order, renamed with a fixed prefix and
    passed through with its values untouched. */
module Remainder {
  import opened Tables

  const Prefix: Name := "remainder__"

  /** The dataset columns not listed in `used`, in dataset order. */
  function RemainderColumns(columns: seq<Name>, used: seq<Name>): (r: seq<Name>)
    ensures forall c :: c in r <==> c in columns && c !in used
    ensures Distinct(columns) ==> Distinct(r)
    ensures Distinct(columns) ==> forall i, j :: 0 <= i < j < |r| ==> IndexOf(columns, r[i]) < IndexOf(columns, r[j])
  {
    WithoutOrder(columns, SetOf(used));
    Without(columns, SetOf(used))
  }

  /** Each name with the remainder prefix in front. */
  function Renamed(names: seq<Name>): (r: seq<Name>)
    ensures |r| == |names|
    ensures forall i :: 0 <= i < |names| ==> r[i] == Prefix + names[i]
  {
    seq(|names|, i requires 0 <= i < |names| => Prefix + names[i])
  }

  /** The original name is recovered by dropping the prefix. */
  lemma StripPrefix(c: Name)
    ensures (Prefix + c)[|Prefix|..] == c
  {
  }

  /** Renaming keeps distinct names distinct. */
  lemma RenamedDistinct(names: seq<Name>)
    requires Distinct(names)
    ensures Distinct(Renamed(names))
  {
    var r := Renamed(names);
    forall i, j | 0 <= i < j < |r| ensures r[i] != r[j] {
      StripPrefix(names[i]);
      StripPrefix(names[j]);
    }
  }

  /** The remainder block of `df` given the columns consumed by the
      encoders: one column `remainder__c` per remainder column c, in
      dataset order, holding exactly the values of c. */
  function RemainderBlock(df: Table, used: seq<Name>): (r: Table)
    requires df.Valid()
    ensures r.Valid() && r.rows == df.rows
    ensures r.columns == Renamed(RemainderColumns(df.columns, used))
    ensures forall c :: c in df.data && c !in used ==> Prefix + c in r.data && r.data[Prefix + c] == df.data[c]
  {
    var rem := RemainderColumns(df.columns, used);
    RenamedDistinct(rem);
    var t := Make(Renamed(rem), seq(|rem|, i requires 0 <= i < |rem| => df.data[rem[i]]), df.rows);
    assert forall c :: c in df.data && c !in used ==> Prefix + c in t.data && t.data[Prefix + c] == df.data[c] by {
      forall c | c in df.data && c !in used
        ensures Prefix + c in t.data && t.data[Prefix + c] == df.data[c]
      {
        var i :| 0 <= i < |rem| && rem[i] == c;
        assert Renamed(rem)[i] == Prefix + c;
      }
    }
    t
  }
}
