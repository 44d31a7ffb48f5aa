/**
 * The conversion of a parsed alpha-vector file into a flat value function
 * (DotAlphaParserFlat.getValueFunction). The parser's static fields
 * `actions` and `alphas` are the inputs; the arrays it allocates are the
 * output.
 */
module DotAlphaParserFlat {
  import opened Wrappers

  /** A flat value function: one coefficient row and one action per vector. */
  datatype ValueFunctionFlat = ValueFunctionFlat(vectors: seq<seq<real>>, actions: seq<int>)

  /**
   * The cells (i, j) of alphas the loops read: every action index i with
   * every column j of alphas[0].
   */
  function ReadCells(actions: seq<int>, alphas: seq<seq<real>>): set<(int, int)>
    requires |alphas| > 0
  {
    set i, j | 0 <= i < |actions| && 0 <= j < |alphas[0]| :: (i, j)
  }

  /**
   * The conversion runs without an index error: alphas[0] exists, and when
   * it has coefficients, there are rows for all the actions and none of
   * those rows is shorter than alphas[0]. When alphas[0] is empty the inner
   * loop never runs and no row but the first is ever looked at. This is the
   * same as alphas[0] existing and every cell the loops read existing.
   */
  predicate Convertible(actions: seq<int>, alphas: seq<seq<real>>): (ok: bool)
    ensures ok <==> (&& |alphas| > 0
                     && forall c :: c in ReadCells(actions, alphas) ==> c.0 < |alphas| && c.1 < |alphas[c.0]|)
  {
    if |alphas| == 0 then false
    else
      var d := |alphas[0]|;
      assert d > 0 && |actions| > |alphas| ==> (|alphas|, 0) in ReadCells(actions, alphas);
      assert forall i :: 0 <= i < |actions| && i < |alphas| && |alphas[i]| < d ==>
        (i, |alphas[i]|) in ReadCells(actions, alphas);
      d == 0 || (|actions| <= |alphas| && forall i :: 0 <= i < |actions| ==> |alphas[i]| >= d)
  }

  /**
   * The value function getValueFunction builds, or None where it fails: as
   * many vectors as actions, each the first |alphas[0]| coefficients of the
   * row with the same index, tagged with the action of that index.
   */
  function Convert(actions: seq<int>, alphas: seq<seq<real>>): (r: Option<ValueFunctionFlat>)
    ensures r.Some? <==> Convertible(actions, alphas)
    ensures r.Some? ==> |r.value.actions| == |actions| && |r.value.vectors| == |actions|
    ensures r.Some? ==> forall i :: 0 <= i < |actions| ==> r.value.actions[i] == actions[i]
    ensures r.Some? ==> forall i :: 0 <= i < |actions| ==> |r.value.vectors[i]| == |alphas[0]|
    ensures r.Some? ==> forall i, j :: 0 <= i < |actions| && 0 <= j < |alphas[0]| ==>
      r.value.vectors[i][j] == alphas[i][j]
  {
    if !Convertible(actions, alphas) then None
    else
      var d := |alphas[0]|;
      Some(ValueFunctionFlat(
        seq(|actions|, i requires 0 <= i < |actions| => if d == 0 then [] else alphas[i][..d]),
        actions))
  }

  /** The rows of a two-dimensional array, as sequences. */
  ghost function Matrix(v: array2<real>): seq<seq<real>>
    reads v
  {
    seq(v.Length0, i requires 0 <= i < v.Length0 reads v =>
      seq(v.Length1, j requires 0 <= j < v.Length1 reads v => v[i, j]))
  }

  /**
   * getValueFunction: fills a[] with the actions and v[][] with the first
   * d = alphas[0].length coefficients of each row; ok is false exactly
   * where the Java code raises an index error.
   */
  method GetValueFunction(actions: seq<int>, alphas: seq<seq<real>>)
    returns (ok: bool, a: array<int>, v: array2<real>)
    ensures ok <==> Convertible(actions, alphas)
    ensures ok ==> fresh(a) && fresh(v)
    ensures ok ==> Convert(actions, alphas) == Some(ValueFunctionFlat(Matrix(v), a[..]))
  {
    if |alphas| == 0 {
      ok, a, v := false, new int[0], new real[0, 0];
      return;
    }
    var s := |actions|;
    var d := |alphas[0]|;
    a := new int[s];
    v := new real[s, d];
    for i := 0 to s
      invariant d > 0 ==> i <= |alphas| && forall k :: 0 <= k < i ==> |alphas[k]| >= d
      invariant forall k :: 0 <= k < i ==> a[k] == actions[k]
      invariant forall k, j :: 0 <= k < i && 0 <= j < d ==> v[k, j] == alphas[k][j]
    {
      a[i] := actions[i];
      for j := 0 to d
        invariant j > 0 ==> i < |alphas| && |alphas[i]| >= j
        invariant forall k :: 0 <= k <= i ==> a[k] == actions[k]
        invariant forall k, l :: 0 <= k < i && 0 <= l < d ==> v[k, l] == alphas[k][l]
        invariant forall l :: 0 <= l < j ==> v[i, l] == alphas[i][l]
      {
        if i >= |alphas| || j >= |alphas[i]| {
          ok := false;
          return;
        }
        v[i, j] := alphas[i][j];
      }
    }
    ok := true;
    var r := Convert(actions, alphas).value;
    assert r.vectors == Matrix(v) by {
      forall k | 0 <= k < s
        ensures r.vectors[k] == Matrix(v)[k]
      {
        assert |r.vectors[k]| == d == |Matrix(v)[k]|;
        forall j | 0 <= j < d
          ensures r.vectors[k][j] == Matrix(v)[k][j]
        {
        }
      }
    }
    assert a[..] == actions;
  }

  /**
   * On rectangular input with one row per action the conversion is
   * lossless: the vectors are the parsed rows themselves.
   */
  lemma ConvertRectangular(actions: seq<int>, alphas: seq<seq<real>>)
    requires |alphas| == |actions| > 0
    requires forall i :: 0 <= i < |alphas| ==> |alphas[i]| == |alphas[0]|
    ensures Convert(actions, alphas) == Some(ValueFunctionFlat(alphas, actions))
  {
    var r := Convert(actions, alphas).value;
    forall i | 0 <= i < |alphas|
      ensures r.vectors[i] == alphas[i]
    {
      assert alphas[i][..|alphas[0]|] == alphas[i];
    }
    assert r.vectors == alphas;
  }
}
