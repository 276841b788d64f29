/**
 * The geometry of the intergrid transfer on a 3-way refined cell: a fine
 * vertex at position p in the 4^d patch of a coarse cell is reached from the
 * coarse corner c through entry p - 3c + 2 of c's 5^d transfer stencil (entry
 * 2 per dimension is c itself). From that mapping come the cell-wise 2^d x 2^d
 * transfer matrix and the prolongation, restriction, residual and
 * Petrov-Galerkin products built on it, together with the lookup tables that
 * scatter cell-wise results back into per-vertex stencils.
 */
module Transfer {
  import opened Indexing
  import opened LinearAlgebra
  import opened StencilFactory

  // ---------------------------------------------------------------------
  // A fine vertex seen from a coarse corner
  // ---------------------------------------------------------------------

  /** A coarse corner of the cell: every component is 0 or 1. */
  predicate IsCorner(coarse: seq<int>)
  {
    |coarse| == DIMENSIONS && InRange(coarse, 2)
  }

  /**
   * The entry of the coarse corner's 5^d stencil that acts on the fine vertex:
   * per dimension, the fine vertex's distance from the corner plus 2.
   */
  function StencilEntry(coarse: seq<int>, fine: seq<int>): (e: seq<int>)
    requires |coarse| == |fine|
    ensures |e| == |coarse|
    ensures InRange(coarse, 2) ==> forall d :: 0 <= d < |e| ==> e[d] == fine[d] - 3 * coarse[d] + 2
  {
    seq(|coarse|, d requires 0 <= d < |coarse| =>
      if coarse[d] == 1 then 2 - (3 - fine[d]) else 2 + fine[d])
  }

  /** The coarse corner's stencil reaches the fine vertex: the entry lies inside the 5^d stencil. */
  predicate Influences(coarse: seq<int>, fine: seq<int>)
    requires |coarse| == |fine|
  {
    InRange(StencilEntry(coarse, fine), 5)
  }

  /** The linear index of the entry in the 5^d stencil. */
  function StencilIndex(coarse: seq<int>, fine: seq<int>): int
    requires |coarse| == |fine|
  {
    Linearised(StencilEntry(coarse, fine), 5)
  }

  /** A corner influences exactly the fine vertices at most two fine cells away in every dimension. */
  lemma InfluenceIsProximity(coarse: seq<int>, fine: seq<int>)
    requires IsCorner(coarse) && |fine| == DIMENSIONS
    ensures Influences(coarse, fine) <==> forall d :: 0 <= d < DIMENSIONS ==> -2 <= fine[d] - 3 * coarse[d] <= 2
  {
  }

  /** An influencing corner reads an entry of its own 5^d stencil. */
  lemma StencilIndexInRange(coarse: seq<int>, fine: seq<int>)
    requires IsCorner(coarse) && |fine| == DIMENSIONS && Influences(coarse, fine)
    ensures 0 <= StencilIndex(coarse, fine) < FIVE_POWER_D
  {
    LinearisedBounds(StencilEntry(coarse, fine), 5);
    PowsOfD();
  }

  /** The example of the documentation: fine vertex (3,0) lies out of reach of coarse vertex (0,1). */
  lemma DocumentationExample()
    ensures !Influences([0, 1], [3, 0])
  {
    assert StencilEntry([0, 1], [3, 0])[0] == 5;
  }

  /** Position of entry p of corner c's stencil in the 2^d concatenated 5^d stencils. */
  function CellOperatorPosition(coarseGridVertexNumber: int, positionInOperator: int): (n: int)
    ensures 0 <= positionInOperator < FIVE_POWER_D ==>
      n / FIVE_POWER_D == coarseGridVertexNumber && n % FIVE_POWER_D == positionInOperator
  {
    coarseGridVertexNumber * FIVE_POWER_D + positionInOperator
  }

  /** Position of entry p of corner c's stencil in the 2^d concatenated 3^d stencils. */
  function CellStencilPosition(coarseGridVertexNumber: int, positionInOperator: int): (n: int)
    ensures 0 <= positionInOperator < THREE_POWER_D ==>
      n / THREE_POWER_D == coarseGridVertexNumber && n % THREE_POWER_D == positionInOperator
  {
    coarseGridVertexNumber * THREE_POWER_D + positionInOperator
  }

  // ---------------------------------------------------------------------
  // The cell-wise transfer matrix
  // ---------------------------------------------------------------------

  /** The position of fine vertex l of the cell, from the d entries of vertex l in `positions`. */
  function FinePosition(positions: seq<int>, lScalar: nat): (p: seq<int>)
    requires |positions| == TWO_POWER_D * DIMENSIONS && lScalar < TWO_POWER_D
    ensures |p| == DIMENSIONS
  {
    positions[lScalar * DIMENSIONS..lScalar * DIMENSIONS + DIMENSIONS]
  }

  /** The weight of corner k's stencil at fine vertex l: its entry when it reaches l, else 0. */
  function TransferEntry(operators: Vector, positions: seq<int>, lScalar: nat, kScalar: nat): real
    requires |operators| == TWO_POWER_D * FIVE_POWER_D && |positions| == TWO_POWER_D * DIMENSIONS
    requires lScalar < TWO_POWER_D && kScalar < TWO_POWER_D
  {
    var fine := FinePosition(positions, lScalar);
    CornerEnumeration(kScalar);
    if Influences(Corner(kScalar), fine) then
      StencilIndexInRange(Corner(kScalar), fine);
      operators[CellOperatorPosition(kScalar, StencilIndex(Corner(kScalar), fine))]
    else
      0.0
  }

  /** Row l, column k: the weight of coarse corner k at fine vertex l. */
  function TransferMatrix(operators: Vector, positions: seq<int>): (t: Matrix)
    requires |operators| == TWO_POWER_D * FIVE_POWER_D && |positions| == TWO_POWER_D * DIMENSIONS
    ensures IsSquare(t, TWO_POWER_D)
  {
    seq(TWO_POWER_D, l requires 0 <= l < TWO_POWER_D =>
      seq(TWO_POWER_D, k requires 0 <= k < TWO_POWER_D => TransferEntry(operators, positions, l, k)))
  }

  /** Column k of the transfer matrix reads only block k, the stencil of corner k. */
  lemma TransferReadsOwnStencil(operators: Vector, positions: seq<int>, lScalar: nat, kScalar: nat)
    requires |operators| == TWO_POWER_D * FIVE_POWER_D && |positions| == TWO_POWER_D * DIMENSIONS
    requires lScalar < TWO_POWER_D && kScalar < TWO_POWER_D
    ensures Influences(Corner(kScalar), FinePosition(positions, lScalar)) ==>
      var n := CellOperatorPosition(kScalar, StencilIndex(Corner(kScalar), FinePosition(positions, lScalar)));
      kScalar * FIVE_POWER_D <= n < (kScalar + 1) * FIVE_POWER_D &&
      TransferMatrix(operators, positions)[lScalar][kScalar] == operators[n]
    ensures !Influences(Corner(kScalar), FinePosition(positions, lScalar)) ==>
      TransferMatrix(operators, positions)[lScalar][kScalar] == 0.0
  {
    var fine := FinePosition(positions, lScalar);
    CornerEnumeration(kScalar);
    if Influences(Corner(kScalar), fine) {
      StencilIndexInRange(Corner(kScalar), fine);
    }
  }

  // ---------------------------------------------------------------------
  // Products with the transfer matrix
  // ---------------------------------------------------------------------

  /** The transfer matrix scaled with 1/2^d, as prolongation and restriction use it. */
  function ScaledTransfer(operators: Vector, positions: seq<int>): (t: Matrix)
    requires |operators| == TWO_POWER_D * FIVE_POWER_D && |positions| == TWO_POWER_D * DIMENSIONS
    ensures IsSquare(t, TWO_POWER_D)
  {
    ScaleMatrix(TransferMatrix(operators, positions), 1.0 / TWO_POWER_D as real)
  }

  /** Fine values from coarse values: (T / 2^d) v. */
  function Prolonged(p: Vector, positions: seq<int>, cellValues: Vector): (r: Vector)
    requires |p| == TWO_POWER_D * FIVE_POWER_D && |positions| == TWO_POWER_D * DIMENSIONS
    requires |cellValues| == TWO_POWER_D
    ensures |r| == TWO_POWER_D
  {
    MatVec(ScaledTransfer(p, positions), cellValues)
  }

  /** Coarse values from fine values: (T / 2^d)^T v. */
  function Restricted(r: Vector, positions: seq<int>, cellValues: Vector): (s: Vector)
    requires |r| == TWO_POWER_D * FIVE_POWER_D && |positions| == TWO_POWER_D * DIMENSIONS
    requires |cellValues| == TWO_POWER_D
    ensures |s| == TWO_POWER_D
  {
    MatVec(Transpose(ScaledTransfer(r, positions), TWO_POWER_D), cellValues)
  }

  /** With the same stencils, restriction is the adjoint of prolongation. */
  lemma RestrictionIsAdjointOfProlongation(operators: Vector, positions: seq<int>, fine: Vector, coarse: Vector)
    requires |operators| == TWO_POWER_D * FIVE_POWER_D && |positions| == TWO_POWER_D * DIMENSIONS
    requires |fine| == TWO_POWER_D && |coarse| == TWO_POWER_D
    ensures Dot(Restricted(operators, positions, fine), coarse) == Dot(fine, Prolonged(operators, positions, coarse))
  {
    Adjoint(ScaledTransfer(operators, positions), fine, coarse);
  }

  /** rhs - A u, entry by entry. */
  function Residual(cellValues: Vector, rhs: Vector, a: Matrix): (r: Vector)
    requires |cellValues| == |rhs| == TWO_POWER_D && IsSquare(a, TWO_POWER_D)
    ensures |r| == TWO_POWER_D
  {
    var aTimesU := MatVec(a, cellValues);
    seq(TWO_POWER_D, i requires 0 <= i < TWO_POWER_D => rhs[i] - aTimesU[i])
  }

  /** The residual vanishes exactly when the cell values solve A u = rhs. */
  lemma ResidualVanishesIffSolved(cellValues: Vector, rhs: Vector, a: Matrix)
    requires |cellValues| == |rhs| == TWO_POWER_D && IsSquare(a, TWO_POWER_D)
    ensures Residual(cellValues, rhs, a) == Zeros(TWO_POWER_D) <==> MatVec(a, cellValues) == rhs
  {
    var r, z := Residual(cellValues, rhs, a), Zeros(TWO_POWER_D);
    if r == z {
      forall i | 0 <= i < TWO_POWER_D
        ensures MatVec(a, cellValues)[i] == rhs[i]
      {
        assert r[i] == z[i];
      }
    }
  }

  /** R^T (A P) with the unscaled transfer matrices of P and R. */
  function PetrovGalerkin(p: Vector, r: Vector, positions: seq<int>, a: Matrix): (g: Matrix)
    requires |p| == TWO_POWER_D * FIVE_POWER_D && |r| == TWO_POWER_D * FIVE_POWER_D
    requires |positions| == TWO_POWER_D * DIMENSIONS && IsSquare(a, TWO_POWER_D)
    ensures IsSquare(g, TWO_POWER_D)
  {
    var cellP := TransferMatrix(p, positions);
    var cellR := TransferMatrix(r, positions);
    MatMul(Transpose(cellR, TWO_POWER_D), MatMul(a, cellP, TWO_POWER_D), TWO_POWER_D)
  }

  /**
   * The coarse operator acts as prolongation, then A, then restriction;
   * since both transfers carry 1/2^d, the product with the scaled transfers
   * is 4^d times smaller.
   */
  lemma PetrovGalerkinComposes(p: Vector, r: Vector, positions: seq<int>, a: Matrix, coarse: Vector)
    requires |p| == TWO_POWER_D * FIVE_POWER_D && |r| == TWO_POWER_D * FIVE_POWER_D
    requires |positions| == TWO_POWER_D * DIMENSIONS && IsSquare(a, TWO_POWER_D) && |coarse| == TWO_POWER_D
    ensures MatVec(PetrovGalerkin(p, r, positions, a), coarse)
      == ScaleVector(Restricted(r, positions, MatVec(a, Prolonged(p, positions, coarse))), 16.0)
  {
    var cellP, cellR := TransferMatrix(p, positions), TransferMatrix(r, positions);
    var s := 1.0 / TWO_POWER_D as real;
    var rt := Transpose(cellR, TWO_POWER_D);
    var ap := MatMul(a, cellP, TWO_POWER_D);
    var pc := MatVec(cellP, coarse);
    var apc := MatVec(a, pc);
    calc {
      MatVec(PetrovGalerkin(p, r, positions, a), coarse);
      MatVec(MatMul(rt, ap, TWO_POWER_D), coarse);
      { MatMulVec(rt, ap, coarse); }
      MatVec(rt, MatVec(ap, coarse));
      { MatMulVec(a, cellP, coarse); }
      MatVec(rt, apc);
    }
    calc {
      Restricted(r, positions, MatVec(a, Prolonged(p, positions, coarse)));
      { MatVecOfScaledMatrix(cellP, s, coarse); }
      Restricted(r, positions, MatVec(a, ScaleVector(pc, s)));
      { MatVecOfScaledVector(a, pc, s); }
      Restricted(r, positions, ScaleVector(apc, s));
      MatVec(Transpose(ScaleMatrix(cellR, s), TWO_POWER_D), ScaleVector(apc, s));
      { TransposeOfScaled(cellR, s, TWO_POWER_D); }
      MatVec(ScaleMatrix(rt, s), ScaleVector(apc, s));
      { MatVecOfScaledMatrix(rt, s, ScaleVector(apc, s)); }
      ScaleVector(MatVec(rt, ScaleVector(apc, s)), s);
      { MatVecOfScaledVector(rt, apc, s); }
      ScaleVector(ScaleVector(MatVec(rt, apc), s), s);
    }
    ScaleTwice(MatVec(rt, apc), s, s);
    ScaleTwice(MatVec(rt, apc), s * s, 16.0);
    assert 16.0 * (s * s) == 1.0;
    assert ScaleVector(MatVec(rt, apc), 1.0) == MatVec(rt, apc);
  }

  // ---------------------------------------------------------------------
  // Transfer weights of one coarse vertex
  // ---------------------------------------------------------------------

  /** The weight a coarse corner's 5^d transfer stencil gives a fine vertex: its entry, or 0 out of reach. */
  function Weight(operator: Vector, coarse: seq<int>, fine: seq<int>): real
    requires |operator| == FIVE_POWER_D && IsCorner(coarse) && |fine| == DIMENSIONS
  {
    if Influences(coarse, fine) then
      StencilIndexInRange(coarse, fine);
      operator[StencilIndex(coarse, fine)]
    else
      0.0
  }

  /** Entry (l, k) of the transfer matrix is corner k's weight for fine vertex l, read from block k. */
  lemma TransferEntryIsWeight(operators: Vector, positions: seq<int>, lScalar: nat, kScalar: nat)
    requires |operators| == TWO_POWER_D * FIVE_POWER_D && |positions| == TWO_POWER_D * DIMENSIONS
    requires lScalar < TWO_POWER_D && kScalar < TWO_POWER_D
    ensures IsCorner(Corner(kScalar))
    ensures TransferMatrix(operators, positions)[lScalar][kScalar]
      == Weight(operators[kScalar * FIVE_POWER_D..(kScalar + 1) * FIVE_POWER_D], Corner(kScalar), FinePosition(positions, lScalar))
  {
    CornerEnumeration(kScalar);
    TransferReadsOwnStencil(operators, positions, lScalar, kScalar);
  }

  /** The 1-D hat weight at entry e of the 5-point interpolation stencil, 0 outside it. */
  function HatWeight(e: int): real
  {
    if 0 <= e < 5 then Get1DLinearInterpolationStencil()[e] else 0.0
  }

  /** Per dimension, the two coarse vertices' hat weights at a fine vertex of the patch add up to 1. */
  lemma HatWeightsPartitionUnity(p: int)
    requires 0 <= p < 4
    ensures HatWeight(p + 2) + HatWeight(p - 1) == 1.0
  {
    var w := Get1DLinearInterpolationStencil();
    assert w == [1.0 / 3.0, 2.0 / 3.0, 1.0, 2.0 / 3.0, 1.0 / 3.0];
  }

  /** Entry (a, b) of a 5^d stencil. */
  function Entry5(operator: Vector, a: int, b: int): real
    requires |operator| == FIVE_POWER_D && 0 <= a < 5 && 0 <= b < 5
  {
    operator[a + 5 * b]
  }

  /** The weight of corner k is entry (e0, e1) of its stencil when that lies inside the stencil. */
  lemma WeightAt(operator: Vector, kScalar: nat, fine: seq<int>, e0: int, e1: int)
    requires |operator| == FIVE_POWER_D && kScalar < TWO_POWER_D && |fine| == DIMENSIONS
    requires e0 == fine[0] - 3 * Corner(kScalar)[0] + 2 && e1 == fine[1] - 3 * Corner(kScalar)[1] + 2
    ensures IsCorner(Corner(kScalar))
    ensures Weight(operator, Corner(kScalar), fine)
      == if 0 <= e0 < 5 && 0 <= e1 < 5 then Entry5(operator, e0, e1) else 0.0
  {
    CornerEnumeration(kScalar);
    var e := StencilEntry(Corner(kScalar), fine);
    assert e == [e0, e1];
    Linearised2(e0, e1, 5);
  }

  /** A 5^d stencil whose entries are the products of the 1-D hat weights. */
  predicate IsHatProduct(operator: Vector)
  {
    |operator| == FIVE_POWER_D &&
    forall a, b :: 0 <= a < 5 && 0 <= b < 5 ==> Entry5(operator, a, b) == HatWeight(a) * HatWeight(b)
  }

  /** The d-linear interpolation stencil is the product of the 1-D hat weights. */
  lemma DLinearIsHatProduct()
    ensures IsHatProduct(GetDLinearInterpolation())
  {
    forall a, b | 0 <= a < 5 && 0 <= b < 5
      ensures Entry5(GetDLinearInterpolation(), a, b) == HatWeight(a) * HatWeight(b)
    {
      DLinearInterpolationAt(a, b);
    }
  }

  /** Out of reach, a hat product weight vanishes like the hat weights do. */
  lemma HatProductWeight(operator: Vector, kScalar: nat, fine: seq<int>, e0: int, e1: int)
    requires IsHatProduct(operator) && kScalar < TWO_POWER_D && |fine| == DIMENSIONS
    requires e0 == fine[0] - 3 * Corner(kScalar)[0] + 2 && e1 == fine[1] - 3 * Corner(kScalar)[1] + 2
    ensures IsCorner(Corner(kScalar))
    ensures Weight(operator, Corner(kScalar), fine) == HatWeight(e0) * HatWeight(e1)
  {
    WeightAt(operator, kScalar, fine, e0, e1);
    if !(0 <= e0 < 5) {
      assert HatWeight(e0) == 0.0;
    } else if !(0 <= e1 < 5) {
      assert HatWeight(e1) == 0.0;
    }
  }

  /** The fine vertex lies in the 4^d patch of the coarse cell. */
  predicate InPatch(fine: seq<int>)
  {
    |fine| == DIMENSIONS && InRange(fine, 4)
  }

  /** The two corners of one row of the cell share the hat weight of that row. */
  lemma HatProductRow(operator: Vector, fine: seq<int>, k0: nat, k1: nat, e1: int)
    requires IsHatProduct(operator) && InPatch(fine) && k0 < TWO_POWER_D && k1 < TWO_POWER_D
    requires Corner(k0) == [0, Corner(k0)[1]] && Corner(k1) == [1, Corner(k0)[1]]
    requires e1 == fine[1] - 3 * Corner(k0)[1] + 2
    ensures IsCorner(Corner(k0)) && IsCorner(Corner(k1))
    ensures Weight(operator, Corner(k0), fine) + Weight(operator, Corner(k1), fine) == HatWeight(e1)
  {
    HatProductWeight(operator, k0, fine, fine[0] + 2, e1);
    HatProductWeight(operator, k1, fine, fine[0] - 1, e1);
    HatWeightsPartitionUnity(fine[0]);
    ScaledPartition(HatWeight(fine[0] + 2), HatWeight(fine[0] - 1), HatWeight(e1));
  }

  lemma ScaledPartition(x0: real, x1: real, y: real)
    requires x0 + x1 == 1.0
    ensures x0 * y + x1 * y == y
  {
    assert x0 * y + x1 * y == (x0 + x1) * y;
  }

  /** d-linear interpolation: the weights of the four coarse corners at a fine vertex of the patch add up to 1. */
  lemma DLinearWeightsPartitionUnity(operator: Vector, fine: seq<int>)
    requires IsHatProduct(operator) && InPatch(fine)
    ensures forall k :: 0 <= k < TWO_POWER_D ==> IsCorner(Corner(k))
    ensures Weight(operator, Corner(0), fine) + Weight(operator, Corner(1), fine)
      + Weight(operator, Corner(2), fine) + Weight(operator, Corner(3), fine) == 1.0
  {
    forall k | 0 <= k < TWO_POWER_D
      ensures IsCorner(Corner(k))
    {
      CornerEnumeration(k);
    }
    CornerValues();
    HatProductRow(operator, fine, 0, 1, fine[1] + 2);
    HatProductRow(operator, fine, 2, 3, fine[1] - 1);
    HatWeightsPartitionUnity(fine[1]);
  }

  /** The transfer weights of the 2^d corners of the cell at the fine vertex, in `dfor2` order. */
  function CellWeights(operator: Vector, fine: seq<int>): (w: Vector)
    requires |operator| == FIVE_POWER_D && |fine| == DIMENSIONS
    ensures |w| == TWO_POWER_D
  {
    seq(TWO_POWER_D, k requires 0 <= k < TWO_POWER_D =>
      CornerEnumeration(k);
      Weight(operator, Corner(k), fine))
  }

  /** Entry k of the cell weights is the weight of corner k. */
  lemma CellWeightAt(operator: Vector, fine: seq<int>, k: nat)
    requires |operator| == FIVE_POWER_D && |fine| == DIMENSIONS && k < TWO_POWER_D
    ensures IsCorner(Corner(k))
    ensures CellWeights(operator, fine)[k] == Weight(operator, Corner(k), fine)
  {
    CornerEnumeration(k);
  }

  /** Fine vertex (1,1) of the patch receives 4/9 of corner (0,0): the hat weight 2/3 in both dimensions. */
  lemma DLinearWeightNextToCorner()
    ensures IsCorner([0, 0])
    ensures Weight(GetDLinearInterpolation(), [0, 0], [1, 1]) == 4.0 / 9.0
  {
    CornerEnumeration(0);
    DLinearIsHatProduct();
    HatProductWeight(GetDLinearInterpolation(), 0, [1, 1], 3, 3);
    assert HatWeight(3) == 2.0 / 3.0;
  }

  /** d-linear interpolation: the weights of the cell's corners at a fine vertex of its patch add up to 1. */
  lemma CellWeightsPartitionUnity(operator: Vector, fine: seq<int>)
    requires IsHatProduct(operator) && InPatch(fine)
    ensures Sum(CellWeights(operator, fine)) == 1.0
  {
    var w := CellWeights(operator, fine);
    DLinearWeightsPartitionUnity(operator, fine);
    assert w[0] == Weight(operator, Corner(0), fine) && w[1] == Weight(operator, Corner(1), fine);
    assert w[2] == Weight(operator, Corner(2), fine) && w[3] == Weight(operator, Corner(3), fine);
    Sum4(w);
  }

  /** The first n values weighted with the first n weights, summed. */
  function WeightedSum(values: Vector, weights: Vector, n: nat): real
    requires |values| == |weights| && n <= |values|
  {
    if n == 0 then 0.0 else WeightedSum(values, weights, n - 1) + values[n - 1] * weights[n - 1]
  }

  /** One more term of the weighted sum, with the weight given by value. */
  lemma WeightedSumStep(values: Vector, weights: Vector, n: nat, weight: real)
    requires |values| == |weights| && n < |values| && weight == weights[n]
    ensures WeightedSum(values, weights, n + 1) == WeightedSum(values, weights, n) + values[n] * weight
  {
  }

  /** How many of the first n corners influence the fine vertex. */
  function InfluenceCount(fine: seq<int>, n: nat): (count: nat)
    requires |fine| == DIMENSIONS && n <= TWO_POWER_D
    ensures count <= n
  {
    if n == 0 then 0
    else InfluenceCount(fine, n - 1) + (if Influences(Corner(n - 1), fine) then 1 else 0)
  }

  /** With one value for every entry, the weighted sum is that value times the sum of the weights. */
  lemma {:induction false} WeightedSumOfSharedValue(values: Vector, weights: Vector, n: nat, c: real)
    requires |values| == |weights| && n <= |values|
    requires forall k :: 0 <= k < |values| ==> values[k] == c
    ensures WeightedSum(values, weights, n) == c * Sum(weights[..n])
  {
    if n > 0 {
      WeightedSumOfSharedValue(values, weights, n - 1, c);
      assert weights[..n] == weights[..n - 1] + [weights[n - 1]];
      SumAppend(weights[..n - 1], [weights[n - 1]]);
      assert Sum([weights[n - 1]]) == weights[n - 1];
      var s := Sum(weights[..n - 1]);
      assert c * s + c * weights[n - 1] == c * (s + weights[n - 1]);
    } else {
      assert weights[..0] == [];
    }
  }

  /** d-linear interpolation reproduces a value that all four corners share at every vertex of the patch. */
  lemma InterpolationOfConstant(operator: Vector, values: Vector, fine: seq<int>)
    requires IsHatProduct(operator) && InPatch(fine) && |values| == TWO_POWER_D
    requires forall k :: 0 <= k < TWO_POWER_D ==> values[k] == values[0]
    ensures WeightedSum(values, CellWeights(operator, fine), TWO_POWER_D) == values[0]
  {
    var w := CellWeights(operator, fine);
    WeightedSumOfSharedValue(values, w, TWO_POWER_D, values[0]);
    assert w[..TWO_POWER_D] == w;
    CellWeightsPartitionUnity(operator, fine);
  }

  /** The engine's own d-linear operator reproduces a value that all four corners share. */
  lemma DLinearInterpolationOfConstant(values: Vector, fine: seq<int>)
    requires InPatch(fine) && |values| == TWO_POWER_D
    requires forall k :: 0 <= k < TWO_POWER_D ==> values[k] == values[0]
    ensures WeightedSum(values, CellWeights(GetDLinearInterpolation(), fine), TWO_POWER_D) == values[0]
  {
    DLinearIsHatProduct();
    InterpolationOfConstant(GetDLinearInterpolation(), values, fine);
  }
}
