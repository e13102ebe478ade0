/** The one-hot encoder's recorded metadata and the names of the indicator
    columns it produces (main.py lines 32-36). */
module OneHot {
  import opened Results
  import opened Tables

  /** A fitted one-hot encoder as the preparation step sees it. Two
      historical metadata shapes exist: newer encoders record their input
      names as `feature_names_in_`, older ones as `feature_names`. Each
      category list holds the string rendering of that input's categories,
      in the encoder's order. */
  datatype OneHotEncoder = OneHotEncoder(
    featureNamesIn: Option<seq<Name>>,
    featureNames: Option<seq<Name>>,
    categories: seq<seq<string>>,
    transform: Transform)

  const Separator: string := "__"

  /** The encoder's input columns: `feature_names_in_` when present,
      otherwise `feature_names`; an encoder with neither fails. */
  function InputColumns(e: OneHotEncoder): (r: Result<seq<Name>>)
    ensures r.Ok? <==> e.featureNamesIn.Some? || e.featureNames.Some?
    ensures e.featureNamesIn.Some? ==> r == Ok(e.featureNamesIn.value)
    ensures e.featureNamesIn.None? && e.featureNames.Some? ==> r == Ok(e.featureNames.value)
    ensures r.Err? ==> r.error == MissingMetadata
  {
    match e.featureNamesIn
    case Some(names) => Ok(names)
    case None =>
      match e.featureNames
      case Some(names) => Ok(names)
      case None => Err(MissingMetadata)
  }

  /** The indicator names of one input column, one per category. */
  function Expand(input: Name, cats: seq<string>): seq<Name> {
    seq(|cats|, j requires 0 <= j < |cats| => input + Separator + cats[j])
  }

  /** Total number of categories over all lists. */
  function SumLengths(cats: seq<seq<string>>): nat
    decreases |cats|
  {
    if cats == [] then 0 else SumLengths(cats[..|cats| - 1]) + |cats[|cats| - 1]|
  }

  /** Where category j of list i lands among the flattened names: after
      every category of the lists before it. */
  function Position(cats: seq<seq<string>>, i: nat, j: nat): nat
    requires i <= |cats|
  {
    SumLengths(cats[..i]) + j
  }

  /** The flattened indicator names, built list by list as the source's loop
      appends them: the i-th category list is named after the i-th input. */
  function Flatten(inputs: seq<Name>, cats: seq<seq<string>>): seq<Name>
    requires |cats| <= |inputs|
    decreases |cats|
  {
    if cats == [] then []
    else Flatten(inputs, cats[..|cats| - 1]) + Expand(inputs[|cats| - 1], cats[|cats| - 1])
  }

  /** The one-hot column names, or the failure of indexing an input name
      past the end of the input list. Surplus input names are ignored. */
  function OneHotColumns(inputs: seq<Name>, cats: seq<seq<string>>): (r: Result<seq<Name>>)
    ensures r.Ok? <==> |cats| <= |inputs|
    ensures r.Ok? ==> |r.value| == SumLengths(cats)
    ensures r.Ok? ==> forall i, j :: 0 <= i < |cats| && 0 <= j < |cats[i]| ==>
      Position(cats, i, j) < |r.value| && r.value[Position(cats, i, j)] == inputs[i] + Separator + cats[i][j]
    ensures r.Err? ==> r.error == TooFewInputNames(|inputs|, |cats|)
  {
    if |cats| > |inputs| then
      Err(TooFewInputNames(|inputs|, |cats|))
    else
      FlattenLength(inputs, cats);
      FlattenAll(inputs, cats);
      Ok(Flatten(inputs, cats))
  }

  /** There is one indicator name per category. */
  lemma {:induction false} FlattenLength(inputs: seq<Name>, cats: seq<seq<string>>)
    requires |cats| <= |inputs|
    ensures |Flatten(inputs, cats)| == SumLengths(cats)
    decreases |cats|
  {
    if cats != [] {
      FlattenLength(inputs, cats[..|cats| - 1]);
    }
  }

  /** Category j of list i is named at offset (categories before list i) + j,
      as input i, the separator and the category. */
  lemma {:induction false} FlattenAt(inputs: seq<Name>, cats: seq<seq<string>>, i: nat, j: nat)
    requires |cats| <= |inputs| && i < |cats| && j < |cats[i]|
    ensures Position(cats, i, j) < |Flatten(inputs, cats)|
    ensures Flatten(inputs, cats)[Position(cats, i, j)] == inputs[i] + Separator + cats[i][j]
    decreases |cats|
  {
    var n := |cats|;
    var prefix := cats[..n - 1];
    FlattenLength(inputs, prefix);
    if i < n - 1 {
      assert cats[..i] == prefix[..i];
      FlattenAt(inputs, prefix, i, j);
    } else {
      assert cats[..i] == prefix;
    }
  }

  lemma FlattenAll(inputs: seq<Name>, cats: seq<seq<string>>)
    requires |cats| <= |inputs|
    ensures forall i, j :: 0 <= i < |cats| && 0 <= j < |cats[i]| ==>
      Position(cats, i, j) < |Flatten(inputs, cats)|
      && Flatten(inputs, cats)[Position(cats, i, j)] == inputs[i] + Separator + cats[i][j]
  {
    forall i, j | 0 <= i < |cats| && 0 <= j < |cats[i]|
      ensures Position(cats, i, j) < |Flatten(inputs, cats)|
      ensures Flatten(inputs, cats)[Position(cats, i, j)] == inputs[i] + Separator + cats[i][j]
    {
      FlattenAt(inputs, cats, i, j);
    }
  }

  /** An input `COLOR` with categories `RED`, `BLUE` yields exactly
      `COLOR__RED`, `COLOR__BLUE`, in that order. */
  lemma ColorExample()
    ensures OneHotColumns(["COLOR"], [["RED", "BLUE"]]) == Ok(["COLOR__RED", "COLOR__BLUE"])
  {
    assert [["RED", "BLUE"]][..0] == [];
    assert "COLOR" + Separator + "RED" == "COLOR__RED";
    assert "COLOR" + Separator + "BLUE" == "COLOR__BLUE";
    assert Expand("COLOR", ["RED", "BLUE"]) == ["COLOR__RED", "COLOR__BLUE"];
    assert Flatten(["COLOR"], [["RED", "BLUE"]]) == [] + Expand("COLOR", ["RED", "BLUE"]);
    assert Flatten(["COLOR"], [["RED", "BLUE"]]) == ["COLOR__RED", "COLOR__BLUE"];
  }
}
