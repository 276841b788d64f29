/**
 * Conversion between a vertex stencil (3^d entries) and the element-wise
 * assembly matrix (2^d x 2^d) of one cell, in both directions, for d = 2.
 *
 * Corner number jScalar of the cell is the corner Corner(jScalar) in {0,1}^d.
 * Entry (j, i) of the matrix couples corner j to corner i through the stencil
 * entry at offset i - j + 1 (per dimension), shared among the 2^s cells that
 * contain both corners, where s counts the dimensions in which i and j agree.
 */
module ElementMatrices {
  import opened Indexing
  import opened LinearAlgebra
  import opened StencilFactory

  /** The coordinate of the stencil centre: 1 in every dimension. */
  function Ones(n: nat): (v: seq<int>)
    ensures |v| == n && forall d :: 0 <= d < n ==> v[d] == 1
  {
    seq(n, _ => 1)
  }

  /** Per dimension, the stencil offset i(d) - j(d) + 1 that couples corner j to corner i. */
  function CouplingOffset(i: seq<int>, j: seq<int>): (o: seq<int>)
    requires |i| == |j|
    ensures |o| == |i|
  {
    seq(|i|, d requires 0 <= d < |i| => i[d] - j[d] + 1)
  }

  /** 2 to the power of the number of dimensions in which i and j agree. */
  function CommonFacesPowerTwo(i: seq<int>, j: seq<int>): (c: real)
    requires |i| == |j|
    ensures c >= 1.0
    decreases |i|
  {
    if |i| == 0 then 1.0
    else
      CommonFacesPowerTwo(i[..|i| - 1], j[..|j| - 1])
      * (if i[|i| - 1] == j[|j| - 1] then 2.0 else 1.0)
  }

  /** Component 0 of corner kScalar of a cell. */
  function LowBit(kScalar: nat): int
    requires kScalar < TWO_POWER_D
  {
    [0, 1, 0, 1][kScalar]
  }

  /** Component 1 of corner kScalar of a cell. */
  function HighBit(kScalar: nat): int
    requires kScalar < TWO_POWER_D
  {
    [0, 0, 1, 1][kScalar]
  }

  lemma CornerBits(kScalar: nat)
    requires kScalar < TWO_POWER_D
    ensures Corner(kScalar) == [LowBit(kScalar), HighBit(kScalar)]
  {
    CornerComponents(kScalar);
    assert kScalar == 0 || kScalar == 1 || kScalar == 2 || kScalar == 3;
  }

  /**
   * The number of cells of the grid that contain both corners jScalar and
   * iScalar of a cell: 2 for every dimension in which the corners agree.
   */
  function SharingCells(jScalar: nat, iScalar: nat): (c: real)
    requires jScalar < TWO_POWER_D && iScalar < TWO_POWER_D
    ensures c >= 1.0
  {
    (if LowBit(iScalar) == LowBit(jScalar) then 2.0 else 1.0) * (if HighBit(iScalar) == HighBit(jScalar) then 2.0 else 1.0)
  }

  /** The divisor computed dimension by dimension is the number of sharing cells. */
  lemma SharingCellsOfCorners(jScalar: nat, iScalar: nat)
    requires jScalar < TWO_POWER_D && iScalar < TWO_POWER_D
    ensures CommonFacesPowerTwo(Corner(iScalar), Corner(jScalar)) == SharingCells(jScalar, iScalar)
  {
    CornerBits(iScalar);
    CornerBits(jScalar);
    var i, j := Corner(iScalar), Corner(jScalar);
    var f0 := if LowBit(iScalar) == LowBit(jScalar) then 2.0 else 1.0;
    assert i[..1] == [LowBit(iScalar)] && j[..1] == [LowBit(jScalar)];
    assert i[..1][..0] == [] && j[..1][..0] == [];
    assert CommonFacesPowerTwo(i[..1][..0], j[..1][..0]) == 1.0;
    assert CommonFacesPowerTwo(i[..1], j[..1]) == f0;
  }

  /** The stencil entry that couples corner jScalar to corner iScalar: offset i - j + 1 per dimension. */
  function CouplingIndex(jScalar: nat, iScalar: nat): (n: nat)
    requires jScalar < TWO_POWER_D && iScalar < TWO_POWER_D
    ensures n < THREE_POWER_D
  {
    (LowBit(iScalar) - LowBit(jScalar) + 1) + 3 * (HighBit(iScalar) - HighBit(jScalar) + 1)
  }

  /** The offset computed dimension by dimension linearises to the coupling entry. */
  lemma CouplingIndexOfCorners(jScalar: nat, iScalar: nat)
    requires jScalar < TWO_POWER_D && iScalar < TWO_POWER_D
    ensures Linearised(CouplingOffset(Corner(iScalar), Corner(jScalar)), 3) == CouplingIndex(jScalar, iScalar)
  {
    CornerBits(iScalar);
    CornerBits(jScalar);
    var o := CouplingOffset(Corner(iScalar), Corner(jScalar));
    assert o == [LowBit(iScalar) - LowBit(jScalar) + 1, HighBit(iScalar) - HighBit(jScalar) + 1];
    Linearised2(o[0], o[1], 3);
  }

  /** Entry (jScalar, iScalar) of the element matrix derived from one stencil. */
  function AssemblyEntry(stencil: Vector, jScalar: nat, iScalar: nat): real
    requires |stencil| == THREE_POWER_D
    requires jScalar < TWO_POWER_D && iScalar < TWO_POWER_D
  {
    stencil[CouplingIndex(jScalar, iScalar)] / SharingCells(jScalar, iScalar)
  }

  /** The element-wise assembly matrix of a stencil that all corners of the cell share. */
  function AssemblyMatrix(stencil: Vector): (m: Matrix)
    requires |stencil| == THREE_POWER_D
    ensures IsSquare(m, TWO_POWER_D)
  {
    seq(TWO_POWER_D, j requires 0 <= j < TWO_POWER_D =>
      seq(TWO_POWER_D, i requires 0 <= i < TWO_POWER_D => AssemblyEntry(stencil, j, i)))
  }

  /**
   * Per dimension, the offset the vector-of-stencils variant computes by
   * comparison: 1 where the corners agree, 0 where i lies below j, else 2.
   */
  function ComparisonOffset(i: seq<int>, j: seq<int>): (o: seq<int>)
    requires |i| == |j|
    ensures |o| == |i|
  {
    seq(|i|, d requires 0 <= d < |i| => if i[d] == j[d] then 1 else if i[d] < j[d] then 0 else 2)
  }

  /** On the corners of a cell, comparing coordinates gives the same offsets as subtracting them. */
  lemma ComparisonIsCoupling(i: seq<int>, j: seq<int>)
    requires |i| == |j| && InRange(i, 2) && InRange(j, 2)
    ensures ComparisonOffset(i, j) == CouplingOffset(i, j)
  {
  }

  /** The entry of the 4 * 9 stencil vector that couples corner jScalar to corner iScalar: block jScalar. */
  function BlockIndex(jScalar: nat, iScalar: nat): (n: nat)
    requires jScalar < TWO_POWER_D && iScalar < TWO_POWER_D
    ensures jScalar * THREE_POWER_D <= n < (jScalar + 1) * THREE_POWER_D
  {
    jScalar * THREE_POWER_D + CouplingIndex(jScalar, iScalar)
  }

  /** The comparison offsets linearise to the coupling entry as well. */
  lemma BlockIndexOfCorners(jScalar: nat, iScalar: nat)
    requires jScalar < TWO_POWER_D && iScalar < TWO_POWER_D
    ensures jScalar * THREE_POWER_D + Linearised(ComparisonOffset(Corner(iScalar), Corner(jScalar)), 3)
         == BlockIndex(jScalar, iScalar)
  {
    CornerEnumeration(iScalar);
    CornerEnumeration(jScalar);
    ComparisonIsCoupling(Corner(iScalar), Corner(jScalar));
    CouplingIndexOfCorners(jScalar, iScalar);
  }

  /** Entry (jScalar, iScalar) of the element matrix derived from one stencil per corner. */
  function BlockAssemblyEntry(stencils: Vector, jScalar: nat, iScalar: nat): real
    requires |stencils| == TWO_POWER_D * THREE_POWER_D
    requires jScalar < TWO_POWER_D && iScalar < TWO_POWER_D
  {
    stencils[BlockIndex(jScalar, iScalar)] / SharingCells(jScalar, iScalar)
  }

  /** The element-wise assembly matrix of 2^d concatenated stencils, block j for corner j. */
  function BlockAssemblyMatrix(stencils: Vector): (m: Matrix)
    requires |stencils| == TWO_POWER_D * THREE_POWER_D
    ensures IsSquare(m, TWO_POWER_D)
  {
    seq(TWO_POWER_D, j requires 0 <= j < TWO_POWER_D =>
      seq(TWO_POWER_D, i requires 0 <= i < TWO_POWER_D => BlockAssemblyEntry(stencils, j, i)))
  }

  /** Per dimension, where reconstruction puts entry (j, k): 2 if j > k, 0 if j < k, else 1. */
  function TargetOffset(j: seq<int>, k: seq<int>): (o: seq<int>)
    requires |j| == |k|
    ensures |o| == |j|
  {
    seq(|j|, d requires 0 <= d < |j| => if j[d] > k[d] then 2 else if j[d] < k[d] then 0 else 1)
  }

  /**
   * The stencil entry that matrix entry (jScalar, kScalar) is added to: offset
   * j - k + 1 per dimension, the mirror image of the entry that couples them.
   */
  function TargetIndex(jScalar: nat, kScalar: nat): (n: nat)
    requires jScalar < TWO_POWER_D && kScalar < TWO_POWER_D
    ensures n < THREE_POWER_D
  {
    (LowBit(jScalar) - LowBit(kScalar) + 1) + 3 * (HighBit(jScalar) - HighBit(kScalar) + 1)
  }

  /** Matrix entry (j, k) goes back to the mirror image of the stencil entry it was read from. */
  lemma TargetMirrorsCoupling(jScalar: nat, kScalar: nat)
    requires jScalar < TWO_POWER_D && kScalar < TWO_POWER_D
    ensures TargetIndex(jScalar, kScalar) == THREE_POWER_D - 1 - CouplingIndex(jScalar, kScalar)
  {
  }

  /** The target offsets computed dimension by dimension linearise to the target entry. */
  lemma TargetIndexOfCorners(jScalar: nat, kScalar: nat)
    requires jScalar < TWO_POWER_D && kScalar < TWO_POWER_D
    ensures Linearised(TargetOffset(Corner(jScalar), Corner(kScalar)), 3) == TargetIndex(jScalar, kScalar)
  {
    CornerBits(jScalar);
    CornerBits(kScalar);
    var o := TargetOffset(Corner(jScalar), Corner(kScalar));
    assert o == [LowBit(jScalar) - LowBit(kScalar) + 1, HighBit(jScalar) - HighBit(kScalar) + 1];
    Linearised2(o[0], o[1], 3);
  }

  /**
   * The stencil reconstructed from an element matrix: every entry (j, k) is
   * collected in the stencil entry at offset j - k + 1 per dimension, so the
   * entry at offset o holds the sum of the entries (j, k) with j - k = o - 1.
   */
  function Reconstructed(m: Matrix): (s: Vector)
    requires IsSquare(m, TWO_POWER_D)
    ensures |s| == THREE_POWER_D
  {
    [m[0][3], m[0][2] + m[1][3], m[1][2],
     m[0][1] + m[2][3], m[0][0] + m[1][1] + m[2][2] + m[3][3], m[1][0] + m[3][2],
     m[2][1], m[2][0] + m[3][1], m[3][0]]
  }

  /** The element matrix of a stencil, entry by entry. */
  lemma AssemblyMatrixEntries(s: Vector)
    requires |s| == THREE_POWER_D
    ensures AssemblyMatrix(s) == [
      [s[4] / 4.0, s[5] / 2.0, s[7] / 2.0, s[8]],
      [s[3] / 2.0, s[4] / 4.0, s[6], s[7] / 2.0],
      [s[1] / 2.0, s[2], s[4] / 4.0, s[5] / 2.0],
      [s[0], s[1] / 2.0, s[3] / 2.0, s[4] / 4.0]]
  {
    var t := [
      [s[4] / 4.0, s[5] / 2.0, s[7] / 2.0, s[8]],
      [s[3] / 2.0, s[4] / 4.0, s[6], s[7] / 2.0],
      [s[1] / 2.0, s[2], s[4] / 4.0, s[5] / 2.0],
      [s[0], s[1] / 2.0, s[3] / 2.0, s[4] / 4.0]];
    var m := AssemblyMatrix(s);
    forall j | 0 <= j < TWO_POWER_D
      ensures m[j] == t[j]
    {
      forall i | 0 <= i < TWO_POWER_D
        ensures m[j][i] == t[j][i]
      {
        assert m[j][i] == s[CouplingIndex(j, i)] / SharingCells(j, i);
      }
    }
  }

  /** What entry (j, k) of the element matrix adds to entry n of the reconstructed stencil. */
  function Contribution(m: Matrix, n: nat, jScalar: nat, kScalar: nat): real
    requires IsSquare(m, TWO_POWER_D) && jScalar < TWO_POWER_D && kScalar < TWO_POWER_D
  {
    if TargetIndex(jScalar, kScalar) == n then m[jScalar][kScalar] else 0.0
  }

  /** Entry n collected from the first k entries of row j. */
  function RowPrefix(m: Matrix, n: nat, jScalar: nat, kScalar: nat): real
    requires IsSquare(m, TWO_POWER_D) && jScalar < TWO_POWER_D && kScalar <= TWO_POWER_D
  {
    if kScalar == 0 then 0.0 else RowPrefix(m, n, jScalar, kScalar - 1) + Contribution(m, n, jScalar, kScalar - 1)
  }

  /** Entry n collected from the first j rows. */
  function Collected(m: Matrix, n: nat, jScalar: nat): real
    requires IsSquare(m, TWO_POWER_D) && jScalar <= TWO_POWER_D
  {
    if jScalar == 0 then 0.0 else Collected(m, n, jScalar - 1) + RowPrefix(m, n, jScalar - 1, TWO_POWER_D)
  }

  lemma RowTotal(m: Matrix, n: nat, jScalar: nat)
    requires IsSquare(m, TWO_POWER_D) && jScalar < TWO_POWER_D
    ensures RowPrefix(m, n, jScalar, TWO_POWER_D) == Contribution(m, n, jScalar, 0) + Contribution(m, n, jScalar, 1)
      + Contribution(m, n, jScalar, 2) + Contribution(m, n, jScalar, 3)
  {
    assert RowPrefix(m, n, jScalar, 1) == Contribution(m, n, jScalar, 0);
    assert RowPrefix(m, n, jScalar, 3) == RowPrefix(m, n, jScalar, 2) + Contribution(m, n, jScalar, 2);
  }

  /** Row 0 of the element matrix feeds stencil entries 4, 3, 1 and 0. */
  lemma Row0Targets(m: Matrix, n: nat)
    requires IsSquare(m, TWO_POWER_D)
    ensures RowPrefix(m, n, 0, TWO_POWER_D) ==
      (if n == 4 then m[0][0] else 0.0) +
      (if n == 3 then m[0][1] else 0.0) +
      (if n == 1 then m[0][2] else 0.0) +
      (if n == 0 then m[0][3] else 0.0)
  {
    RowTotal(m, n, 0);
    assert TargetIndex(0, 0) == 4 && TargetIndex(0, 1) == 3 && TargetIndex(0, 2) == 1 && TargetIndex(0, 3) == 0;
  }

  /** Row 1 of the element matrix feeds stencil entries 5, 4, 2 and 1. */
  lemma Row1Targets(m: Matrix, n: nat)
    requires IsSquare(m, TWO_POWER_D)
    ensures RowPrefix(m, n, 1, TWO_POWER_D) ==
      (if n == 5 then m[1][0] else 0.0) +
      (if n == 4 then m[1][1] else 0.0) +
      (if n == 2 then m[1][2] else 0.0) +
      (if n == 1 then m[1][3] else 0.0)
  {
    RowTotal(m, n, 1);
    assert TargetIndex(1, 0) == 5 && TargetIndex(1, 1) == 4 && TargetIndex(1, 2) == 2 && TargetIndex(1, 3) == 1;
  }

  /** Row 2 of the element matrix feeds stencil entries 7, 6, 4 and 3. */
  lemma Row2Targets(m: Matrix, n: nat)
    requires IsSquare(m, TWO_POWER_D)
    ensures RowPrefix(m, n, 2, TWO_POWER_D) ==
      (if n == 7 then m[2][0] else 0.0) +
      (if n == 6 then m[2][1] else 0.0) +
      (if n == 4 then m[2][2] else 0.0) +
      (if n == 3 then m[2][3] else 0.0)
  {
    RowTotal(m, n, 2);
    assert TargetIndex(2, 0) == 7 && TargetIndex(2, 1) == 6 && TargetIndex(2, 2) == 4 && TargetIndex(2, 3) == 3;
  }

  /** Row 3 of the element matrix feeds stencil entries 8, 7, 5 and 4. */
  lemma Row3Targets(m: Matrix, n: nat)
    requires IsSquare(m, TWO_POWER_D)
    ensures RowPrefix(m, n, 3, TWO_POWER_D) ==
      (if n == 8 then m[3][0] else 0.0) +
      (if n == 7 then m[3][1] else 0.0) +
      (if n == 5 then m[3][2] else 0.0) +
      (if n == 4 then m[3][3] else 0.0)
  {
    RowTotal(m, n, 3);
    assert TargetIndex(3, 0) == 8 && TargetIndex(3, 1) == 7 && TargetIndex(3, 2) == 5 && TargetIndex(3, 3) == 4;
  }

  /** Collecting every entry of the element matrix at its target gives the reconstructed stencil. */
  lemma CollectedIsReconstructed(m: Matrix, n: nat)
    requires IsSquare(m, TWO_POWER_D) && n < THREE_POWER_D
    ensures Collected(m, n, TWO_POWER_D) == Reconstructed(m)[n]
  {
    Row0Targets(m, n);
    Row1Targets(m, n);
    Row2Targets(m, n);
    Row3Targets(m, n);
    assert Collected(m, n, 1) == RowPrefix(m, n, 0, TWO_POWER_D);
    assert Collected(m, n, 3) == Collected(m, n, 2) + RowPrefix(m, n, 2, TWO_POWER_D);
  }

  // ---------------------------------------------------------------------
  // Properties of the conversion
  // ---------------------------------------------------------------------

  /** The stencil centre (offset 1 in every dimension) is entry 4, the entry that couples a corner to itself. */
  lemma CentreIndex()
    ensures Linearised(Ones(DIMENSIONS), 3) == 4
    ensures forall k :: 0 <= k < TWO_POWER_D ==> CouplingIndex(k, k) == 4
  {
    Linearised2(1, 1, 3);
    assert Ones(DIMENSIONS) == [1, 1];
  }

  /** The worked example of the class documentation: -1 around a centre of 8. */
  lemma DocumentationExample()
    ensures AssemblyMatrix([-1.0, -1.0, -1.0, -1.0, 8.0, -1.0, -1.0, -1.0, -1.0]) == [
      [2.0, -0.5, -0.5, -1.0],
      [-0.5, 2.0, -1.0, -0.5],
      [-0.5, -1.0, 2.0, -0.5],
      [-1.0, -0.5, -0.5, 2.0]]
  {
    AssemblyMatrixEntries([-1.0, -1.0, -1.0, -1.0, 8.0, -1.0, -1.0, -1.0, -1.0]);
  }

  /** Collecting the shares of the element matrix puts every stencil entry back, at the opposite offset. */
  lemma ReconstructedOfShares(s: Vector, m: Matrix)
    requires |s| == THREE_POWER_D
    requires m == [
      [s[4] / 4.0, s[5] / 2.0, s[7] / 2.0, s[8]],
      [s[3] / 2.0, s[4] / 4.0, s[6], s[7] / 2.0],
      [s[1] / 2.0, s[2], s[4] / 4.0, s[5] / 2.0],
      [s[0], s[1] / 2.0, s[3] / 2.0, s[4] / 4.0]]
    ensures Reconstructed(m) == Mirrored(s)
  {
    assert m[0][0] + m[1][1] + m[2][2] + m[3][3] == s[4];
    assert Reconstructed(m) == [s[8], s[7], s[6], s[5], s[4], s[3], s[2], s[1], s[0]];
  }

  /**
   * Converting a stencil to an element matrix and back mirrors the stencil
   * through its centre: every matrix entry carries its share of the stencil
   * entry, and the shares of one stencil entry are collected again, but at
   * the opposite offset.
   */
  lemma RoundTripMirrors(s: Vector)
    requires |s| == THREE_POWER_D
    ensures Reconstructed(AssemblyMatrix(s)) == Mirrored(s)
  {
    AssemblyMatrixEntries(s);
    ReconstructedOfShares(s, AssemblyMatrix(s));
  }

  /** The round trip gives the stencil back exactly when the stencil is point symmetric. */
  lemma RoundTripExactIffSymmetric(s: Vector)
    requires |s| == THREE_POWER_D
    ensures Reconstructed(AssemblyMatrix(s)) == s <==> Mirrored(s) == s
  {
    RoundTripMirrors(s);
  }

  /** A stencil whose two opposite corner entries differ is not recovered by the round trip: they trade places. */
  lemma RoundTripSwapsCorners(s: Vector)
    requires |s| == THREE_POWER_D && s[0] != s[8]
    ensures var r := Reconstructed(AssemblyMatrix(s));
      r != s && r[0] == s[8] && r[8] == s[0]
  {
    RoundTripMirrors(s);
    assert Mirrored(s)[0] == s[8] && Mirrored(s)[8] == s[0];
  }

  /** The Laplacian survives the round trip unchanged. */
  lemma LaplacianRoundTrip(scaling: real, h: Vector)
    requires |h| == DIMENSIONS && h[0] > 0.0 && h[1] > 0.0
    ensures Reconstructed(AssemblyMatrix(GetLaplacian(scaling, h))) == GetLaplacian(scaling, h)
  {
    RoundTripMirrors(GetLaplacian(scaling, h));
    LaplacianSymmetric(scaling, h);
  }

  /** Reconstruction adds every matrix entry exactly once: the stencil sums to the sum of all entries. */
  lemma ReconstructedSum(m: Matrix)
    requires IsSquare(m, TWO_POWER_D)
    ensures Sum(Reconstructed(m)) == Sum(m[0]) + Sum(m[1]) + Sum(m[2]) + Sum(m[3])
  {
    Sum9(Reconstructed(m));
    Sum4(m[0]);
    Sum4(m[1]);
    Sum4(m[2]);
    Sum4(m[3]);
  }

  /** Mirroring the stencil transposes its element matrix. */
  lemma AssemblyOfMirrored(s: Vector)
    requires |s| == THREE_POWER_D
    ensures AssemblyMatrix(Mirrored(s)) == Transpose(AssemblyMatrix(s), TWO_POWER_D)
  {
    AssemblyMatrixEntries(s);
    AssemblyMatrixEntries(Mirrored(s));
    var l, r := AssemblyMatrix(Mirrored(s)), Transpose(AssemblyMatrix(s), TWO_POWER_D);
    forall j | 0 <= j < TWO_POWER_D
      ensures l[j] == r[j]
    {
      forall i | 0 <= i < TWO_POWER_D
        ensures l[j][i] == r[j][i]
      {
        assert r[j][i] == AssemblyMatrix(s)[i][j];
      }
    }
  }

  /** The element matrix of the Laplacian is symmetric. */
  lemma LaplacianElementMatrixSymmetric(scaling: real, h: Vector)
    requires |h| == DIMENSIONS && h[0] > 0.0 && h[1] > 0.0
    ensures var m := AssemblyMatrix(GetLaplacian(scaling, h));
      Transpose(m, TWO_POWER_D) == m
  {
    AssemblyOfMirrored(GetLaplacian(scaling, h));
    LaplacianSymmetric(scaling, h);
  }

  /** Row j of the vector-of-stencils variant is row j of the single-stencil matrix of block j. */
  lemma BlockRowReadsOwnStencil(stencils: Vector, j: nat)
    requires |stencils| == TWO_POWER_D * THREE_POWER_D && j < TWO_POWER_D
    ensures BlockAssemblyMatrix(stencils)[j]
         == AssemblyMatrix(stencils[j * THREE_POWER_D..(j + 1) * THREE_POWER_D])[j]
  {
    var block := stencils[j * THREE_POWER_D..(j + 1) * THREE_POWER_D];
    forall i | 0 <= i < TWO_POWER_D
      ensures BlockAssemblyMatrix(stencils)[j][i] == AssemblyMatrix(block)[j][i]
    {
      assert block[CouplingIndex(j, i)] == stencils[BlockIndex(j, i)];
    }
  }

  /** When every corner carries the same stencil, both variants give the same matrix. */
  lemma BlockOfEqualStencils(s: Vector)
    requires |s| == THREE_POWER_D
    ensures BlockAssemblyMatrix(s + s + s + s) == AssemblyMatrix(s)
  {
    var v := s + s + s + s;
    forall j | 0 <= j < TWO_POWER_D
      ensures BlockAssemblyMatrix(v)[j] == AssemblyMatrix(s)[j]
    {
      assert v[j * THREE_POWER_D..(j + 1) * THREE_POWER_D] == s;
      BlockRowReadsOwnStencil(v, j);
    }
  }

  // ---------------------------------------------------------------------
  // The converter
  // ---------------------------------------------------------------------

  /** Converts stencils into element-wise assembly matrices and back. */
  class ElementMatrix {
    /** The linear index of the stencil centre. */
    var centralElement: int

    predicate Valid()
      reads this
    {
      centralElement == Linearised(Ones(DIMENSIONS), 3)
    }

    constructor ()
      ensures Valid() && centralElement == 4
    {
      new;
      centralElement := 0;
      var base := 1;
      for d := 0 to DIMENSIONS
        invariant centralElement == Linearised(Ones(d), 3)
        invariant base == Pow(3, d)
      {
        LinearisedAppend(Ones(d), 1, 3);
        assert Ones(d + 1) == Ones(d) + [1];
        centralElement := centralElement + base;
        base := base * 3;
      }
      CentreIndex();
    }

    /** The element matrix of one stencil shared by all corners of the cell. */
    method GetElementWiseAssemblyMatrix(stencil: Vector) returns (result: Matrix)
      requires |stencil| == THREE_POWER_D
      ensures result == AssemblyMatrix(stencil)
    {
      result := seq(TWO_POWER_D, _ => Zeros(TWO_POWER_D));
      for jScalar := 0 to TWO_POWER_D
        invariant IsSquare(result, TWO_POWER_D)
        invariant forall j :: 0 <= j < jScalar ==> result[j] == AssemblyMatrix(stencil)[j]
      {
        for iScalar := 0 to TWO_POWER_D
          invariant IsSquare(result, TWO_POWER_D)
          invariant forall j :: 0 <= j < jScalar ==> result[j] == AssemblyMatrix(stencil)[j]
          invariant forall i :: 0 <= i < iScalar ==> result[jScalar][i] == AssemblyEntry(stencil, jScalar, i)
        {
          var stencilEntry, commonFacesPowerTwo := CouplingOfCorners(Corner(iScalar), Corner(jScalar));
          CouplingIndexOfCorners(jScalar, iScalar);
          SharingCellsOfCorners(jScalar, iScalar);
          assert stencil[Linearised(stencilEntry, 3)] / commonFacesPowerTwo == AssemblyEntry(stencil, jScalar, iScalar);
          result := result[jScalar := result[jScalar][iScalar := stencil[Linearised(stencilEntry, 3)] / commonFacesPowerTwo]];
        }
        assert result[jScalar] == AssemblyMatrix(stencil)[jScalar];
      }
    }

    /** The element matrix of 2^d concatenated stencils, one per corner. */
    method GetElementWiseAssemblyMatrixOfStencils(stencils: Vector) returns (result: Matrix)
      requires |stencils| == TWO_POWER_D * THREE_POWER_D
      ensures result == BlockAssemblyMatrix(stencils)
    {
      result := seq(TWO_POWER_D, _ => Zeros(TWO_POWER_D));
      for jScalar := 0 to TWO_POWER_D
        invariant IsSquare(result, TWO_POWER_D)
        invariant forall j :: 0 <= j < jScalar ==> result[j] == BlockAssemblyMatrix(stencils)[j]
      {
        for iScalar := 0 to TWO_POWER_D
          invariant IsSquare(result, TWO_POWER_D)
          invariant forall j :: 0 <= j < jScalar ==> result[j] == BlockAssemblyMatrix(stencils)[j]
          invariant forall i :: 0 <= i < iScalar ==> result[jScalar][i] == BlockAssemblyEntry(stencils, jScalar, i)
        {
          var stencilOffset := jScalar * THREE_POWER_D;
          var stencilEntry, commonFacesPowerTwo := ComparisonOfCorners(Corner(iScalar), Corner(jScalar));
          var vectorOfStencilIndex := stencilOffset + Linearised(stencilEntry, 3);
          BlockIndexOfCorners(jScalar, iScalar);
          SharingCellsOfCorners(jScalar, iScalar);
          assert stencils[vectorOfStencilIndex] / commonFacesPowerTwo == BlockAssemblyEntry(stencils, jScalar, iScalar);
          result := result[jScalar := result[jScalar][iScalar := stencils[vectorOfStencilIndex] / commonFacesPowerTwo]];
        }
        assert result[jScalar] == BlockAssemblyMatrix(stencils)[jScalar];
      }
    }

    /**
     * The diagonal entry of the operator, read off an element matrix. When the
     * diagonal is constant, as in every element matrix of a single stencil, it
     * is the centre of the stencil the matrix reconstructs.
     */
    static function GetDiagonalElementOfMatrix(matrix: Matrix): (r: real)
      requires IsSquare(matrix, TWO_POWER_D)
      ensures (forall k :: 0 <= k < TWO_POWER_D ==> matrix[k][k] == matrix[0][0]) ==> r == Reconstructed(matrix)[4]
    {
      matrix[0][0] * TWO_POWER_D as real
    }

    /** The diagonal entry of the operator, read off a stencil; it agrees with the element matrix. */
    function GetDiagonalElement(stencil: Vector): (r: real)
      reads this
      requires Valid() && |stencil| == THREE_POWER_D
      ensures r == GetDiagonalElementOfMatrix(AssemblyMatrix(stencil))
    {
      CentreIndex();
      AssemblyMatrixEntries(stencil);
      stencil[centralElement]
    }

    /** The stencil reconstructed from an element matrix, adding entry (j, k) at offset j - k + 1. */
    method ReconstructStencil(matrix: Matrix) returns (result: Vector)
      requires IsSquare(matrix, TWO_POWER_D)
      ensures result == Reconstructed(matrix)
    {
      result := Zeros(THREE_POWER_D);
      for jScalar := 0 to TWO_POWER_D
        invariant |result| == THREE_POWER_D
        invariant forall n :: 0 <= n < THREE_POWER_D ==> result[n] == Collected(matrix, n, jScalar)
      {
        for kScalar := 0 to TWO_POWER_D
          invariant |result| == THREE_POWER_D
          invariant forall n :: 0 <= n < THREE_POWER_D ==>
            result[n] == Collected(matrix, n, jScalar) + RowPrefix(matrix, n, jScalar, kScalar)
        {
          var stencilEntry := TargetOfCorners(Corner(jScalar), Corner(kScalar));
          var target := Linearised(stencilEntry, 3);
          TargetIndexOfCorners(jScalar, kScalar);
          result := result[target := result[target] + matrix[jScalar][kScalar]];
        }
      }
      forall n | 0 <= n < THREE_POWER_D
        ensures result[n] == Reconstructed(matrix)[n]
      {
        CollectedIsReconstructed(matrix, n);
      }
    }
  }

  /** The per-dimension loop of the single-stencil conversion: offset and shared-cell count. */
  method CouplingOfCorners(i: seq<int>, j: seq<int>) returns (stencilEntry: seq<int>, commonFacesPowerTwo: real)
    requires |i| == |j| == DIMENSIONS
    ensures stencilEntry == CouplingOffset(i, j)
    ensures commonFacesPowerTwo == CommonFacesPowerTwo(i, j)
  {
    stencilEntry := [];
    commonFacesPowerTwo := 1.0;
    for d := 0 to DIMENSIONS
      invariant stencilEntry == CouplingOffset(i[..d], j[..d])
      invariant commonFacesPowerTwo == CommonFacesPowerTwo(i[..d], j[..d])
    {
      assert i[..d + 1][..d] == i[..d] && j[..d + 1][..d] == j[..d];
      stencilEntry := stencilEntry + [i[d] - j[d] + 1];
      if i[d] == j[d] {
        commonFacesPowerTwo := commonFacesPowerTwo * 2.0;
      }
    }
    assert i[..DIMENSIONS] == i && j[..DIMENSIONS] == j;
  }

  /** The per-dimension loop of the vector-of-stencils conversion. */
  method ComparisonOfCorners(i: seq<int>, j: seq<int>) returns (stencilEntry: seq<int>, commonFacesPowerTwo: real)
    requires |i| == |j| == DIMENSIONS
    ensures stencilEntry == ComparisonOffset(i, j)
    ensures commonFacesPowerTwo == CommonFacesPowerTwo(i, j)
  {
    stencilEntry := [];
    commonFacesPowerTwo := 1.0;
    for d := 0 to DIMENSIONS
      invariant stencilEntry == ComparisonOffset(i[..d], j[..d])
      invariant commonFacesPowerTwo == CommonFacesPowerTwo(i[..d], j[..d])
    {
      assert i[..d + 1][..d] == i[..d] && j[..d + 1][..d] == j[..d];
      if i[d] == j[d] {
        stencilEntry := stencilEntry + [1];
        commonFacesPowerTwo := commonFacesPowerTwo * 2.0;
      } else if i[d] < j[d] {
        stencilEntry := stencilEntry + [0];
      } else {
        stencilEntry := stencilEntry + [2];
      }
    }
    assert i[..DIMENSIONS] == i && j[..DIMENSIONS] == j;
  }

  /** The per-dimension loop of the reconstruction. */
  method TargetOfCorners(j: seq<int>, k: seq<int>) returns (stencilEntry: seq<int>)
    requires |j| == |k| == DIMENSIONS
    ensures stencilEntry == TargetOffset(j, k)
  {
    stencilEntry := [];
    for d := 0 to DIMENSIONS
      invariant stencilEntry == TargetOffset(j[..d], k[..d])
    {
      if j[d] > k[d] {
        stencilEntry := stencilEntry + [2];
      } else if j[d] < k[d] {
        stencilEntry := stencilEntry + [0];
      } else {
        stencilEntry := stencilEntry + [1];
      }
    }
    assert j[..DIMENSIONS] == j && k[..DIMENSIONS] == k;
  }
}
