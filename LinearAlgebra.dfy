/**
 * Dense vectors and matrices over the reals, as the engine's fixed-size
 * vector and matrix types use them: a matrix is a sequence of rows and
 * m[row][col] is the entry the source writes as m(row, col).
 */
module LinearAlgebra {

  type Vector = seq<real>
  type Matrix = seq<seq<real>>

  /** Every row of m has `cols` entries. */
  predicate IsMatrix(m: Matrix, cols: nat)
  {
    forall i :: 0 <= i < |m| ==> |m[i]| == cols
  }

  /** m is an n x n matrix. */
  predicate IsSquare(m: Matrix, n: nat)
  {
    |m| == n && IsMatrix(m, n)
  }

  function Zeros(n: nat): (v: Vector)
    ensures |v| == n && forall i :: 0 <= i < n ==> v[i] == 0.0
  {
    seq(n, _ => 0.0)
  }

  function Sum(v: Vector): real
    decreases |v|
  {
    if |v| == 0 then 0.0 else v[0] + Sum(v[1..])
  }

  function Dot(u: Vector, v: Vector): real
    requires |u| == |v|
    decreases |u|
  {
    if |u| == 0 then 0.0 else u[0] * v[0] + Dot(u[1..], v[1..])
  }

  function Add(u: Vector, v: Vector): (w: Vector)
    requires |u| == |v|
    ensures |w| == |u|
  {
    seq(|u|, i requires 0 <= i < |u| => u[i] + v[i])
  }

  function ScaleVector(v: Vector, s: real): (w: Vector)
    ensures |w| == |v|
  {
    seq(|v|, i requires 0 <= i < |v| => s * v[i])
  }

  function ScaleMatrix(m: Matrix, s: real): (r: Matrix)
    ensures |r| == |m|
    ensures forall i :: 0 <= i < |m| ==> |r[i]| == |m[i]|
  {
    seq(|m|, i requires 0 <= i < |m| => ScaleVector(m[i], s))
  }

  function Column(m: Matrix, j: nat): (c: Vector)
    requires forall i :: 0 <= i < |m| ==> j < |m[i]|
    ensures |c| == |m|
  {
    seq(|m|, i requires 0 <= i < |m| => m[i][j])
  }

  function Transpose(m: Matrix, cols: nat): (t: Matrix)
    requires IsMatrix(m, cols)
    ensures |t| == cols && IsMatrix(t, |m|)
  {
    seq(cols, j requires 0 <= j < cols => Column(m, j))
  }

  function MatVec(m: Matrix, v: Vector): (r: Vector)
    requires IsMatrix(m, |v|)
    ensures |r| == |m|
  {
    seq(|m|, i requires 0 <= i < |m| => Dot(m[i], v))
  }

  /** The product a * b of a (|a| x |b|) and a (|b| x cols) matrix. */
  function MatMul(a: Matrix, b: Matrix, cols: nat): (c: Matrix)
    requires IsMatrix(a, |b|) && IsMatrix(b, cols)
    ensures |c| == |a| && IsMatrix(c, cols)
  {
    seq(|a|, i requires 0 <= i < |a| =>
      seq(cols, j requires 0 <= j < cols => Dot(a[i], Column(b, j))))
  }

  lemma {:induction false} DotCommutes(u: Vector, v: Vector)
    requires |u| == |v|
    ensures Dot(u, v) == Dot(v, u)
    decreases |u|
  {
    if |u| > 0 {
      DotCommutes(u[1..], v[1..]);
    }
  }

  lemma {:induction false} DotAdd(u: Vector, v: Vector, w: Vector)
    requires |u| == |v| == |w|
    ensures Dot(Add(u, v), w) == Dot(u, w) + Dot(v, w)
    decreases |u|
  {
    if |u| > 0 {
      assert Add(u, v)[1..] == Add(u[1..], v[1..]);
      DotAdd(u[1..], v[1..], w[1..]);
    }
  }

  lemma {:induction false} DotScale(u: Vector, s: real, v: Vector)
    requires |u| == |v|
    ensures Dot(ScaleVector(u, s), v) == s * Dot(u, v)
    decreases |u|
  {
    if |u| > 0 {
      forall i | 0 <= i < |u| - 1
        ensures ScaleVector(u, s)[1..][i] == ScaleVector(u[1..], s)[i]
      {
      }
      assert ScaleVector(u, s)[1..] == ScaleVector(u[1..], s);
      DotScale(u[1..], s, v[1..]);
    }
  }

  lemma {:induction false} DotZeros(n: nat, v: Vector)
    requires |v| == n
    ensures Dot(Zeros(n), v) == 0.0
    decreases n
  {
    if n > 0 {
      assert Zeros(n)[1..] == Zeros(n - 1);
      DotZeros(n - 1, v[1..]);
    }
  }

  /** Sum over i of f[i] times row i of m. */
  function RowCombination(m: Matrix, f: Vector, cols: nat): (r: Vector)
    requires IsMatrix(m, cols) && |f| == |m|
    ensures |r| == cols
    decreases |m|
  {
    if |m| == 0 then Zeros(cols)
    else Add(ScaleVector(m[0], f[0]), RowCombination(m[1..], f[1..], cols))
  }

  lemma {:induction false} RowCombinationAt(m: Matrix, f: Vector, cols: nat, j: nat)
    requires IsMatrix(m, cols) && |f| == |m| && j < cols
    ensures RowCombination(m, f, cols)[j] == Dot(Column(m, j), f)
    decreases |m|
  {
    if |m| > 0 {
      assert Column(m, j)[1..] == Column(m[1..], j);
      RowCombinationAt(m[1..], f[1..], cols, j);
    }
  }

  /** Transpose(m) * f combines the rows of m with the weights f. */
  lemma TransposeTimesVector(m: Matrix, f: Vector, cols: nat)
    requires IsMatrix(m, cols) && |f| == |m|
    ensures MatVec(Transpose(m, cols), f) == RowCombination(m, f, cols)
  {
    forall j | 0 <= j < cols
      ensures MatVec(Transpose(m, cols), f)[j] == RowCombination(m, f, cols)[j]
    {
      RowCombinationAt(m, f, cols, j);
    }
  }

  lemma {:induction false} DotRowCombination(m: Matrix, f: Vector, c: Vector)
    requires IsMatrix(m, |c|) && |f| == |m|
    ensures Dot(RowCombination(m, f, |c|), c) == Dot(f, MatVec(m, c))
    decreases |m|
  {
    if |m| == 0 {
      DotZeros(|c|, c);
    } else {
      var a, rest := ScaleVector(m[0], f[0]), RowCombination(m[1..], f[1..], |c|);
      var mc := MatVec(m, c);
      calc {
        Dot(RowCombination(m, f, |c|), c);
        Dot(Add(a, rest), c);
        { DotAdd(a, rest, c); }
        Dot(a, c) + Dot(rest, c);
        { DotScale(m[0], f[0], c); DotRowCombination(m[1..], f[1..], c); }
        f[0] * Dot(m[0], c) + Dot(f[1..], MatVec(m[1..], c));
        { assert mc[1..] == MatVec(m[1..], c); }
        f[0] * mc[0] + Dot(f[1..], mc[1..]);
        Dot(f, mc);
      }
    }
  }

  /** <Transpose(m) f, c> == <f, m c>: the transpose is the adjoint. */
  lemma Adjoint(m: Matrix, f: Vector, c: Vector)
    requires IsMatrix(m, |c|) && |f| == |m|
    ensures Dot(MatVec(Transpose(m, |c|), f), c) == Dot(f, MatVec(m, c))
  {
    TransposeTimesVector(m, f, |c|);
    DotRowCombination(m, f, c);
  }

  /** (a b) v == a (b v). */
  lemma MatMulVec(a: Matrix, b: Matrix, v: Vector)
    requires IsMatrix(a, |b|) && IsMatrix(b, |v|)
    ensures MatVec(MatMul(a, b, |v|), v) == MatVec(a, MatVec(b, v))
  {
    var ab := MatMul(a, b, |v|);
    forall i | 0 <= i < |a|
      ensures MatVec(ab, v)[i] == MatVec(a, MatVec(b, v))[i]
    {
      var bt := Transpose(b, |v|);
      forall j | 0 <= j < |v|
        ensures ab[i][j] == MatVec(bt, a[i])[j]
      {
        DotCommutes(a[i], Column(b, j));
      }
      assert ab[i] == MatVec(bt, a[i]);
      Adjoint(b, a[i], v);
    }
  }

  lemma MatVecOfScaledMatrix(m: Matrix, s: real, v: Vector)
    requires IsMatrix(m, |v|)
    ensures IsMatrix(ScaleMatrix(m, s), |v|)
    ensures MatVec(ScaleMatrix(m, s), v) == ScaleVector(MatVec(m, v), s)
  {
    forall i | 0 <= i < |m|
      ensures MatVec(ScaleMatrix(m, s), v)[i] == ScaleVector(MatVec(m, v), s)[i]
    {
      DotScale(m[i], s, v);
    }
  }

  lemma MatVecOfScaledVector(m: Matrix, v: Vector, s: real)
    requires IsMatrix(m, |v|)
    ensures MatVec(m, ScaleVector(v, s)) == ScaleVector(MatVec(m, v), s)
  {
    forall i | 0 <= i < |m|
      ensures MatVec(m, ScaleVector(v, s))[i] == ScaleVector(MatVec(m, v), s)[i]
    {
      DotCommutes(m[i], ScaleVector(v, s));
      DotScale(v, s, m[i]);
      DotCommutes(v, m[i]);
    }
  }

  lemma TransposeOfScaled(m: Matrix, s: real, cols: nat)
    requires IsMatrix(m, cols)
    ensures IsMatrix(ScaleMatrix(m, s), cols)
    ensures Transpose(ScaleMatrix(m, s), cols) == ScaleMatrix(Transpose(m, cols), s)
  {
    var l, r := Transpose(ScaleMatrix(m, s), cols), ScaleMatrix(Transpose(m, cols), s);
    forall j | 0 <= j < cols
      ensures l[j] == r[j]
    {
      forall i | 0 <= i < |m|
        ensures l[j][i] == r[j][i]
      {
      }
    }
  }

  lemma {:induction false} SumAppend(u: Vector, v: Vector)
    ensures Sum(u + v) == Sum(u) + Sum(v)
    decreases |u|
  {
    if |u| == 0 {
      assert u + v == v;
    } else {
      assert (u + v)[1..] == u[1..] + v;
      SumAppend(u[1..], v);
    }
  }

  lemma {:induction false} SumAdd(u: Vector, v: Vector)
    requires |u| == |v|
    ensures Sum(Add(u, v)) == Sum(u) + Sum(v)
    decreases |u|
  {
    if |u| > 0 {
      assert Add(u, v)[1..] == Add(u[1..], v[1..]);
      SumAdd(u[1..], v[1..]);
    }
  }

  lemma {:induction false} SumScale(v: Vector, s: real)
    ensures Sum(ScaleVector(v, s)) == s * Sum(v)
    decreases |v|
  {
    if |v| > 0 {
      forall i | 0 <= i < |v| - 1
        ensures ScaleVector(v, s)[1..][i] == ScaleVector(v[1..], s)[i]
      {
      }
      assert ScaleVector(v, s)[1..] == ScaleVector(v[1..], s);
      SumScale(v[1..], s);
    }
  }

  lemma Sum3(v: Vector)
    requires |v| == 3
    ensures Sum(v) == v[0] + v[1] + v[2]
  {
    assert Sum(v[2..]) == v[2] + Sum(v[2..][1..]) && v[2..][1..] == [];
    assert Sum(v[1..]) == v[1] + Sum(v[1..][1..]) && v[1..][1..] == v[2..];
  }

  lemma Sum5(v: Vector)
    requires |v| == 5
    ensures Sum(v) == v[0] + v[1] + v[2] + v[3] + v[4]
  {
    assert Sum(v[4..]) == v[4] + Sum(v[4..][1..]) && v[4..][1..] == [];
    assert Sum(v[3..]) == v[3] + Sum(v[3..][1..]) && v[3..][1..] == v[4..];
    assert Sum(v[2..]) == v[2] + Sum(v[2..][1..]) && v[2..][1..] == v[3..];
    assert Sum(v[1..]) == v[1] + Sum(v[1..][1..]) && v[1..][1..] == v[2..];
  }

  lemma Sum4(v: Vector)
    requires |v| == 4
    ensures Sum(v) == v[0] + v[1] + v[2] + v[3]
  {
    assert Sum(v[3..]) == v[3] + Sum(v[3..][1..]) && v[3..][1..] == [];
    assert Sum(v[2..]) == v[2] + Sum(v[2..][1..]) && v[2..][1..] == v[3..];
    assert Sum(v[1..]) == v[1] + Sum(v[1..][1..]) && v[1..][1..] == v[2..];
  }

  lemma Sum9(v: Vector)
    requires |v| == 9
    ensures Sum(v) == v[0] + v[1] + v[2] + v[3] + v[4] + v[5] + v[6] + v[7] + v[8]
  {
    assert Sum(v[8..]) == v[8] + Sum(v[8..][1..]) && v[8..][1..] == [];
    assert Sum(v[7..]) == v[7] + Sum(v[7..][1..]) && v[7..][1..] == v[8..];
    assert Sum(v[6..]) == v[6] + Sum(v[6..][1..]) && v[6..][1..] == v[7..];
    assert Sum(v[5..]) == v[5] + Sum(v[5..][1..]) && v[5..][1..] == v[6..];
    assert Sum(v[4..]) == v[4] + Sum(v[4..][1..]) && v[4..][1..] == v[5..];
    assert Sum(v[3..]) == v[3] + Sum(v[3..][1..]) && v[3..][1..] == v[4..];
    assert Sum(v[2..]) == v[2] + Sum(v[2..][1..]) && v[2..][1..] == v[3..];
    assert Sum(v[1..]) == v[1] + Sum(v[1..][1..]) && v[1..][1..] == v[2..];
  }

  lemma ScaleDistributes(u: Vector, v: Vector, s: real)
    requires |u| == |v|
    ensures ScaleVector(Add(u, v), s) == Add(ScaleVector(u, s), ScaleVector(v, s))
  {
    forall i | 0 <= i < |u|
      ensures ScaleVector(Add(u, v), s)[i] == Add(ScaleVector(u, s), ScaleVector(v, s))[i]
    {
      assert s * (u[i] + v[i]) == s * u[i] + s * v[i];
    }
  }

  lemma ScaleTwice(v: Vector, a: real, b: real)
    ensures ScaleVector(ScaleVector(v, a), b) == ScaleVector(v, b * a)
  {
    forall i | 0 <= i < |v|
      ensures ScaleVector(ScaleVector(v, a), b)[i] == ScaleVector(v, b * a)[i]
    {
      assert b * (a * v[i]) == (b * a) * v[i];
    }
  }
}
