/**
 * Dense real vectors and matrices: the arithmetic the value-iteration code
 * takes from CustomVector, from the transition operators of PomdpStd and from
 * Utils.argmin. Java doubles are idealised as reals.
 */
module Vectors {

  type Vector = seq<real>
  type Matrix = seq<Vector>

  function Sum(v: Vector): real
  {
    if |v| == 0 then 0.0 else v[0] + Sum(v[1..])
  }

  /** Appending x adds x to the sum. */
  lemma {:induction false} SumSnoc(v: Vector, x: real)
    ensures Sum(v + [x]) == Sum(v) + x
  {
    if |v| > 0 {
      assert (v + [x])[1..] == v[1..] + [x];
      SumSnoc(v[1..], x);
    }
  }

  function Dot(u: Vector, v: Vector): real
    requires |u| == |v|
  {
    if |u| == 0 then 0.0 else u[0] * v[0] + Dot(u[1..], v[1..])
  }

  /** CustomVector.getHomogene(n, c): the vector of length n filled with c. */
  function Homogene(n: nat, c: real): (r: Vector)
    ensures |r| == n
  {
    seq(n, _ => c)
  }

  /** v.scale(c). */
  function Scale(c: real, v: Vector): (r: Vector)
    ensures |r| == |v|
  {
    seq(|v|, i requires 0 <= i < |v| => c * v[i])
  }

  /** u.add(v), element-wise. */
  function Add(u: Vector, v: Vector): (r: Vector)
    requires |u| == |v|
    ensures |r| == |u|
  {
    seq(|u|, i requires 0 <= i < |u| => u[i] + v[i])
  }

  /** Every row of m has n entries. */
  predicate Rows(m: Matrix, n: nat)
  {
    forall i :: 0 <= i < |m| ==> |m[i]| == n
  }

  /** The matrix-vector product m·v, one dot product per row. */
  function MatVec(m: Matrix, v: Vector): (r: Vector)
    requires Rows(m, |v|)
    ensures |r| == |m|
  {
    seq(|m|, i requires 0 <= i < |m| => Dot(m[i], v))
  }

  /** u is below v in every coordinate. */
  predicate Le(u: Vector, v: Vector)
  {
    |u| == |v| && forall i :: 0 <= i < |u| ==> u[i] <= v[i]
  }

  /** A transition matrix: non-negative entries and every row summing to one. */
  predicate Stochastic(m: Matrix)
  {
    && (forall i, j :: 0 <= i < |m| && 0 <= j < |m[i]| ==> 0.0 <= m[i][j])
    && (forall i :: 0 <= i < |m| ==> Sum(m[i]) == 1.0)
  }

  /**
   * Utils.argmin: an index of a minimal entry.  The scan keeps the first
   * minimal index among v[..n].
   */
  function ArgMinPrefix(v: Vector, n: nat): (k: nat)
    requires 0 < n <= |v|
    ensures k < n
    ensures forall i :: 0 <= i < n ==> v[k] <= v[i]
  {
    if n == 1 then 0
    else
      var k := ArgMinPrefix(v, n - 1);
      if v[n - 1] < v[k] then n - 1 else k
  }

  function ArgMin(v: Vector): (k: nat)
    requires |v| > 0
    ensures k < |v|
    ensures forall i :: 0 <= i < |v| ==> v[k] <= v[i]
  {
    ArgMinPrefix(v, |v|)
  }

  /** The index of a maximal entry among v[..n]. */
  function ArgMaxPrefix(v: Vector, n: nat): (k: nat)
    requires 0 < n <= |v|
    ensures k < n
    ensures forall i :: 0 <= i < n ==> v[i] <= v[k]
  {
    if n == 1 then 0
    else
      var k := ArgMaxPrefix(v, n - 1);
      if v[k] < v[n - 1] then n - 1 else k
  }

  /** The smallest entry of a non-empty vector. */
  function MinOf(v: Vector): (r: real)
    requires |v| > 0
    ensures exists i :: 0 <= i < |v| && v[i] == r
    ensures forall i :: 0 <= i < |v| ==> r <= v[i]
  {
    v[ArgMin(v)]
  }

  /** The largest entry of a non-empty vector. */
  function MaxOf(v: Vector): (r: real)
    requires |v| > 0
    ensures exists i :: 0 <= i < |v| && v[i] == r
    ensures forall i :: 0 <= i < |v| ==> v[i] <= r
  {
    var k := ArgMaxPrefix(v, |v|);
    v[k]
  }

  lemma MulMonotone(c: real, x: real, y: real)
    requires 0.0 <= c && x <= y
    ensures c * x <= c * y
  {
    assert c * y - c * x == c * (y - x);
  }

  /** The minimum of c·v is at most c·v[t] for every t ... */
  lemma MinScaledLe(c: real, v: Vector, t: nat)
    requires t < |v|
    ensures MinOf(Scale(c, v)) <= c * v[t]
  {
    assert Scale(c, v)[t] == c * v[t];
  }

  /** ... and it is c·v[t] for some t. */
  lemma MinScaledAttained(c: real, v: Vector) returns (t: nat)
    requires |v| > 0
    ensures t < |v| && MinOf(Scale(c, v)) == c * v[t]
  {
    t := ArgMin(Scale(c, v));
    assert Scale(c, v)[t] == c * v[t];
  }

  /** For c > 0 the minimum of c·v is c times the minimum of v. */
  lemma ScaledMin(c: real, v: Vector)
    requires c > 0.0 && |v| > 0
    ensures MinOf(Scale(c, v)) == c * MinOf(v)
  {
    var t := MinScaledAttained(c, v);
    var k := ArgMin(v);
    MinScaledLe(c, v, k);
    MulMonotone(c, v[k], v[t]);
  }

  /** The maximum of c·v is at least c·v[t] for every t. */
  lemma MaxScaledGe(c: real, v: Vector, t: nat)
    requires t < |v|
    ensures c * v[t] <= MaxOf(Scale(c, v))
  {
    assert Scale(c, v)[t] == c * v[t];
  }

  /** A row against a constant vector gives the constant times the row's sum. */
  lemma {:induction false} DotHomogene(row: Vector, c: real)
    ensures Dot(row, Homogene(|row|, c)) == c * Sum(row)
  {
    if |row| > 0 {
      assert Homogene(|row|, c)[1..] == Homogene(|row| - 1, c);
      DotHomogene(row[1..], c);
    }
  }

  /** A non-negative row is monotone: u <= v gives row·u <= row·v. */
  lemma {:induction false} DotMonotone(row: Vector, u: Vector, v: Vector)
    requires |row| == |u|
    requires forall j :: 0 <= j < |row| ==> 0.0 <= row[j]
    requires Le(u, v)
    ensures Dot(row, u) <= Dot(row, v)
  {
    if |row| > 0 {
      DotMonotone(row[1..], u[1..], v[1..]);
      assert row[0] * (v[0] - u[0]) >= 0.0;
    }
  }

  /** A non-negative row against a vector bounded by c is bounded by c times its sum. */
  lemma DotBounded(row: Vector, v: Vector, c: real)
    requires |row| == |v|
    requires forall j :: 0 <= j < |row| ==> 0.0 <= row[j]
    requires forall j :: 0 <= j < |v| ==> v[j] <= c
    ensures Dot(row, v) <= c * Sum(row)
  {
    DotMonotone(row, v, Homogene(|row|, c));
    DotHomogene(row, c);
  }
}
