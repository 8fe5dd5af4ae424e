/** Dense real matrices as sequences of rows, with the few numpy operations
    the generator uses: `np.eye`, scalar scaling, elementwise sum and `np.dot`. */
module Matrices {

  type Matrix = seq<seq<real>>

  ghost predicate IsSquare(m: Matrix, n: nat) {
    |m| == n && forall i :: 0 <= i < n ==> |m[i]| == n
  }

  ghost predicate Symmetric(m: Matrix) {
    IsSquare(m, |m|) && forall i, j :: 0 <= i < |m| && 0 <= j < |m| ==> m[i][j] == m[j][i]
  }

  /** The n-by-n identity, `np.eye(n)`. */
  function Eye(n: nat): (m: Matrix)
    ensures IsSquare(m, n)
  {
    seq(n, i requires 0 <= i < n => seq(n, j requires 0 <= j < n => if i == j then 1.0 else 0.0))
  }

  /** Every entry multiplied by c. */
  function Scale(c: real, m: Matrix): (r: Matrix)
    ensures |r| == |m|
    ensures forall i :: 0 <= i < |m| ==> |r[i]| == |m[i]|
  {
    seq(|m|, i requires 0 <= i < |m| => seq(|m[i]|, j requires 0 <= j < |m[i]| => c * m[i][j]))
  }

  /** Elementwise sum of two matrices of the same shape. */
  function Add(a: Matrix, b: Matrix): (r: Matrix)
    requires |a| == |b|
    requires forall i :: 0 <= i < |a| ==> |a[i]| == |b[i]|
    ensures |r| == |a|
    ensures forall i :: 0 <= i < |a| ==> |r[i]| == |a[i]|
  {
    seq(|a|, i requires 0 <= i < |a| => seq(|a[i]|, j requires 0 <= j < |a[i]| => a[i][j] + b[i][j]))
  }

  /** Inner product of two vectors of the same length. */
  function Dot(u: seq<real>, v: seq<real>): real
    requires |u| == |v|
  {
    if |u| == 0 then 0.0 else u[0] * v[0] + Dot(u[1..], v[1..])
  }

  /** Matrix-vector product, `np.dot(m, v)`. The identity leaves the vector
      as it is. */
  function MulVec(m: Matrix, v: seq<real>): (r: seq<real>)
    requires forall i :: 0 <= i < |m| ==> |m[i]| == |v|
    ensures |r| == |m|
    ensures forall i :: 0 <= i < |m| ==> r[i] == Dot(m[i], v)
    ensures m == Eye(|v|) ==> r == v
  {
    EyePicksEntries(v);
    seq(|m|, i requires 0 <= i < |m| => Dot(m[i], v))
  }

  /** Row i of the identity picks entry i of any vector of its size. */
  lemma EyePicksEntries(v: seq<real>)
    ensures forall i :: 0 <= i < |v| ==> Dot(Eye(|v|)[i], v) == v[i]
  {
    forall i | 0 <= i < |v| ensures Dot(Eye(|v|)[i], v) == v[i] {
      DotUnit(Eye(|v|)[i], v, i);
    }
  }

  /** Entrywise sum of two vectors of the same length. */
  function AddVec(u: seq<real>, w: seq<real>): (r: seq<real>)
    requires |u| == |w|
    ensures |r| == |u|
  {
    seq(|u|, i requires 0 <= i < |u| => u[i] + w[i])
  }

  /** The product is additive in the vector: the field of a sum of noise
      vectors is the sum of their fields. */
  lemma MulVecAdditive(m: Matrix, v: seq<real>, w: seq<real>)
    requires |v| == |w|
    requires forall i :: 0 <= i < |m| ==> |m[i]| == |v|
    ensures MulVec(m, AddVec(v, w)) == AddVec(MulVec(m, v), MulVec(m, w))
  {
    forall i | 0 <= i < |m| ensures Dot(m[i], AddVec(v, w)) == Dot(m[i], v) + Dot(m[i], w) {
      DotAdditive(m[i], v, w);
    }
  }

  /** The inner product is additive in its second argument. */
  lemma {:induction false} DotAdditive(u: seq<real>, v: seq<real>, w: seq<real>)
    requires |u| == |v| == |w|
    ensures Dot(u, AddVec(v, w)) == Dot(u, v) + Dot(u, w)
  {
    if |u| > 0 {
      assert AddVec(v, w)[1..] == AddVec(v[1..], w[1..]);
      DotAdditive(u[1..], v[1..], w[1..]);
    }
  }

  /** The inner product with the i-th unit vector picks entry i. */
  lemma {:induction false} DotUnit(u: seq<real>, v: seq<real>, i: nat)
    requires |u| == |v| && i < |u|
    requires forall j :: 0 <= j < |u| ==> u[j] == if j == i then 1.0 else 0.0
    ensures Dot(u, v) == v[i]
  {
    if i == 0 {
      DotZero(u[1..], v[1..]);
    } else {
      DotUnit(u[1..], v[1..], i - 1);
    }
  }

  /** The inner product with the zero vector is 0. */
  lemma {:induction false} DotZero(u: seq<real>, v: seq<real>)
    requires |u| == |v|
    requires forall j :: 0 <= j < |u| ==> u[j] == 0.0
    ensures Dot(u, v) == 0.0
  {
    if |u| > 0 {
      DotZero(u[1..], v[1..]);
    }
  }
}
