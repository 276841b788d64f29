/**
 * The fixed lookup tables (d = 2) that scatter cell-wise results back into
 * per-vertex data: a 2^d x 2^d update of the cell goes into the 3^d stencils
 * of the 2^d coarse vertices, and 2^d operators of 3^d entries go into the
 * 5^d intergrid transfer operators of the same vertices.
 */
module Scatter {
  import opened Indexing
  import opened LinearAlgebra
  import opened ElementMatrices
  import opened Transfer

  // ---------------------------------------------------------------------
  // Updates of the 3^d stencils
  // ---------------------------------------------------------------------

  /** For coarse vertex c of the cell, the entry of its 3^d stencil that receives row f of the update. */
  function PositionsInA(coarseVertexNumber: nat): (r: seq<int>)
    requires coarseVertexNumber < TWO_POWER_D
    ensures |r| == TWO_POWER_D
    ensures forall f :: 0 <= f < TWO_POWER_D ==> 0 <= r[f] < THREE_POWER_D
  {
    if coarseVertexNumber == 0 then [4, 5, 7, 8]
    else if coarseVertexNumber == 1 then [3, 4, 6, 7]
    else if coarseVertexNumber == 2 then [1, 2, 4, 5]
    else [0, 1, 3, 4]
  }

  /**
   * The table entry for (c, f) is the entry of c's stencil that couples c to
   * corner f of the cell, the entry the element matrix of the cell reads.
   */
  lemma PositionsInAAreCouplings(c: nat, f: nat)
    requires c < TWO_POWER_D && f < TWO_POWER_D
    ensures PositionsInA(c)[f] == CouplingIndex(c, f)
  {
    assert c == 0 || c == 1 || c == 2 || c == 3;
  }

  /** Each row of the table is a 2 x 2 window of four distinct entries of the 3^d stencil. */
  lemma PositionsInAWindow(c: nat)
    requires c < TWO_POWER_D
    ensures 0 <= PositionsInA(c)[0] && PositionsInA(c)[TWO_POWER_D - 1] < THREE_POWER_D
    ensures forall f :: 0 <= f < TWO_POWER_D ==> PositionsInA(c)[f] == PositionsInA(c)[0] + LowBit(f) + 3 * HighBit(f)
    ensures forall f, g :: 0 <= f < TWO_POWER_D && 0 <= g < TWO_POWER_D && f != g ==> PositionsInA(c)[f] != PositionsInA(c)[g]
  {
    assert c == 0 || c == 1 || c == 2 || c == 3;
  }

  /** The updates of row c whose target among the first f is entry p of c's stencil, summed. */
  function UpdatePrefix(update: Matrix, c: nat, p: int, f: nat): real
    requires IsSquare(update, TWO_POWER_D) && c < TWO_POWER_D && f <= TWO_POWER_D
  {
    if f == 0 then 0.0
    else UpdatePrefix(update, c, p, f - 1) + (if PositionsInA(c)[f - 1] == p then update[c][f - 1] else 0.0)
  }

  /** The stencils after adding every entry (c, f) of the update to entry PositionsInA(c)[f] of block c. */
  function UpdatedStencils(stencils: Vector, update: Matrix): (r: Vector)
    requires |stencils| == TWO_POWER_D * THREE_POWER_D && IsSquare(update, TWO_POWER_D)
    ensures |r| == |stencils|
  {
    seq(TWO_POWER_D * THREE_POWER_D, n requires 0 <= n < TWO_POWER_D * THREE_POWER_D =>
      stencils[n] + UpdatePrefix(update, n / THREE_POWER_D, n % THREE_POWER_D, TWO_POWER_D))
  }

  lemma UpdateOfVertex(update: Matrix, c: nat, p: int)
    requires IsSquare(update, TWO_POWER_D) && c < TWO_POWER_D
    ensures UpdatePrefix(update, c, p, TWO_POWER_D)
      == (if PositionsInA(c)[0] == p then update[c][0] else 0.0) + (if PositionsInA(c)[1] == p then update[c][1] else 0.0)
       + (if PositionsInA(c)[2] == p then update[c][2] else 0.0) + (if PositionsInA(c)[3] == p then update[c][3] else 0.0)
  {
    assert UpdatePrefix(update, c, p, 1) == (if PositionsInA(c)[0] == p then update[c][0] else 0.0);
    assert UpdatePrefix(update, c, p, 3) == UpdatePrefix(update, c, p, 2) + (if PositionsInA(c)[2] == p then update[c][2] else 0.0);
  }

  /** Entry (c, f) of the update lands, alone, on the entry of block c that couples c to f. */
  lemma UpdateReachesCoupling(stencils: Vector, update: Matrix, c: nat, f: nat)
    requires |stencils| == TWO_POWER_D * THREE_POWER_D && IsSquare(update, TWO_POWER_D)
    requires c < TWO_POWER_D && f < TWO_POWER_D
    ensures UpdatedStencils(stencils, update)[BlockIndex(c, f)] == stencils[BlockIndex(c, f)] + update[c][f]
  {
    var p := CouplingIndex(c, f);
    assert BlockIndex(c, f) == CellStencilPosition(c, p);
    PositionsInAAreCouplings(c, f);
    PositionsInAWindow(c);
    UpdateOfVertex(update, c, p);
  }

  /** An entry that couples no corner of the cell to another keeps its value. */
  lemma UpdateKeepsOtherEntries(stencils: Vector, update: Matrix, n: nat)
    requires |stencils| == TWO_POWER_D * THREE_POWER_D && IsSquare(update, TWO_POWER_D)
    requires n < TWO_POWER_D * THREE_POWER_D
    requires forall c, f :: 0 <= c < TWO_POWER_D && 0 <= f < TWO_POWER_D ==> n != BlockIndex(c, f)
    ensures UpdatedStencils(stencils, update)[n] == stencils[n]
  {
    var c, p := n / THREE_POWER_D, n % THREE_POWER_D;
    assert n == CellStencilPosition(c, p);
    forall f | 0 <= f < TWO_POWER_D
      ensures PositionsInA(c)[f] != p
    {
      PositionsInAAreCouplings(c, f);
      assert n != BlockIndex(c, f);
    }
    UpdateOfVertex(update, c, p);
  }

  /** Seen through the element matrix of the cell, the update adds update(c, f) over the sharing cells. */
  lemma AssemblyOfUpdatedStencils(stencils: Vector, update: Matrix, c: nat, f: nat)
    requires |stencils| == TWO_POWER_D * THREE_POWER_D && IsSquare(update, TWO_POWER_D)
    requires c < TWO_POWER_D && f < TWO_POWER_D
    ensures BlockAssemblyMatrix(UpdatedStencils(stencils, update))[c][f]
      == BlockAssemblyMatrix(stencils)[c][f] + update[c][f] / SharingCells(c, f)
  {
    UpdateReachesCoupling(stencils, update, c, f);
    var a, u, k := stencils[BlockIndex(c, f)], update[c][f], SharingCells(c, f);
    assert (a + u) / k == a / k + u / k;
  }

  // ---------------------------------------------------------------------
  // Filling 3^d operators into the 5^d transfer operators
  // ---------------------------------------------------------------------

  /** For coarse vertex c, the entry of its 5^d operator that receives entry i of its 3^d operator. */
  function PositionsInOperator(coarseVertexNumber: nat): (r: seq<int>)
    requires coarseVertexNumber < TWO_POWER_D
    ensures |r| == THREE_POWER_D
    ensures forall i :: 0 <= i < THREE_POWER_D ==> 0 <= r[i] < FIVE_POWER_D
  {
    if coarseVertexNumber == 0 then [12, 13, 14, 17, 18, 19, 22, 23, 24]
    else if coarseVertexNumber == 1 then [10, 11, 12, 15, 16, 17, 20, 21, 22]
    else if coarseVertexNumber == 2 then [2, 3, 4, 7, 8, 9, 12, 13, 14]
    else [0, 1, 2, 5, 6, 7, 10, 11, 12]
  }

  /** The lower left entry of c's 3 x 3 window inside its 5^d operator: 12, 10, 2 and 0. */
  function WindowBase(c: nat): (b: int)
    requires c < TWO_POWER_D
    ensures 0 <= b <= 12
  {
    (2 - 2 * LowBit(c)) + 5 * (2 - 2 * HighBit(c))
  }

  /** The table row of c is the 3 x 3 window at WindowBase(c): entry a + 3b goes to WindowBase(c) + a + 5b. */
  lemma PositionsInOperatorWindow(c: nat, i: nat)
    requires c < TWO_POWER_D && i < THREE_POWER_D
    ensures PositionsInOperator(c)[i] == WindowBase(c) + i % 3 + 5 * (i / 3)
  {
    assert c == 0 || c == 1 || c == 2 || c == 3;
    assert i == 0 || i == 1 || i == 2 || i == 3 || i == 4 || i == 5 || i == 6 || i == 7 || i == 8;
  }

  /**
   * Entry a + 3b of c's 3^d operator is the transfer weight corner c, at
   * (LowBit(c), HighBit(c)) == Corner(c) by CornerBits, gives to the fine
   * vertex (LowBit(c) + a, HighBit(c) + b) of the cell's 4^d patch: the 3^d
   * fine vertices of the patch nearest to c.
   */
  lemma PositionsInOperatorAreWeights(c: nat, a: int, b: int)
    requires c < TWO_POWER_D && 0 <= a < 3 && 0 <= b < 3
    ensures IsCorner([LowBit(c), HighBit(c)]) && InPatch([LowBit(c) + a, HighBit(c) + b])
    ensures Influences([LowBit(c), HighBit(c)], [LowBit(c) + a, HighBit(c) + b])
    ensures StencilIndex([LowBit(c), HighBit(c)], [LowBit(c) + a, HighBit(c) + b]) == PositionsInOperator(c)[a + 3 * b]
  {
    var lo, hi := LowBit(c), HighBit(c);
    assert 0 <= lo <= 1 && 0 <= hi <= 1;
    NearVertexEntryOfBits(lo, hi, a, b);
    DivModOfDigit(a, b, 3);
    PositionsInOperatorWindow(c, a + 3 * b);
  }

  /** The stencil entry of the corner (lo, hi) at the fine vertex (lo + a, hi + b). */
  lemma NearVertexEntryOfBits(lo: int, hi: int, a: int, b: int)
    requires 0 <= lo <= 1 && 0 <= hi <= 1 && 0 <= a < 3 && 0 <= b < 3
    ensures InPatch([lo + a, hi + b]) && IsCorner([lo, hi])
    ensures Influences([lo, hi], [lo + a, hi + b])
    ensures StencilIndex([lo, hi], [lo + a, hi + b]) == (2 - 2 * lo + a) + 5 * (2 - 2 * hi + b)
  {
    var e := StencilEntry([lo, hi], [lo + a, hi + b]);
    assert InRange([lo, hi], 2);
    assert e[0] == 2 - 2 * lo + a && e[1] == 2 - 2 * hi + b;
    assert e == [e[0], e[1]];
    Linearised2(e[0], e[1], 5);
  }

  /** Entry q of c's 5^d operator lies in c's 3 x 3 window. */
  predicate InWindow(c: nat, q: int)
    requires c < TWO_POWER_D
  {
    0 <= q % 5 - (2 - 2 * LowBit(c)) < 3 && 0 <= q / 5 - (2 - 2 * HighBit(c)) < 3
  }

  /** The 3^d entry that window entry q of c's 5^d operator comes from. */
  function LocalIndex(c: nat, q: int): int
    requires c < TWO_POWER_D
  {
    (q % 5 - (2 - 2 * LowBit(c))) + 3 * (q / 5 - (2 - 2 * HighBit(c)))
  }

  lemma WindowOfTable(c: nat, i: nat)
    requires c < TWO_POWER_D && i < THREE_POWER_D
    ensures 0 <= PositionsInOperator(c)[i] < FIVE_POWER_D
    ensures InWindow(c, PositionsInOperator(c)[i]) && LocalIndex(c, PositionsInOperator(c)[i]) == i
  {
    PositionsInOperatorWindow(c, i);
    var b0, b1 := 2 - 2 * LowBit(c), 2 - 2 * HighBit(c);
    DivModOfDigit(b0 + i % 3, b1 + i / 3, 5);
  }

  lemma TableOfWindow(c: nat, q: int)
    requires c < TWO_POWER_D && InWindow(c, q)
    ensures 0 <= LocalIndex(c, q) < THREE_POWER_D
    ensures PositionsInOperator(c)[LocalIndex(c, q)] == q
  {
    var a, b := q % 5 - (2 - 2 * LowBit(c)), q / 5 - (2 - 2 * HighBit(c));
    var i := a + 3 * b;
    DivModOfDigit(a, b, 3);
    PositionsInOperatorWindow(c, i);
  }

  /** The 5^d operators after overwriting every window entry with its 3^d entry. */
  function FilledIn(operators3x3: Vector, operators5x5: Vector): (r: Vector)
    requires |operators3x3| == TWO_POWER_D * THREE_POWER_D && |operators5x5| == TWO_POWER_D * FIVE_POWER_D
    ensures |r| == |operators5x5|
  {
    seq(TWO_POWER_D * FIVE_POWER_D, n requires 0 <= n < TWO_POWER_D * FIVE_POWER_D =>
      var c, q := n / FIVE_POWER_D, n % FIVE_POWER_D;
      if InWindow(c, q) then
        TableOfWindow(c, q);
        operators3x3[CellStencilPosition(c, LocalIndex(c, q))]
      else
        operators5x5[n])
  }

  /** Entry c * 5^d + PositionsInOperator(c)[i] receives entry i of c's 3^d operator. */
  lemma FilledInWritesTable(operators3x3: Vector, operators5x5: Vector, c: nat, i: nat)
    requires |operators3x3| == TWO_POWER_D * THREE_POWER_D && |operators5x5| == TWO_POWER_D * FIVE_POWER_D
    requires c < TWO_POWER_D && i < THREE_POWER_D
    ensures 0 <= CellOperatorPosition(c, PositionsInOperator(c)[i]) < TWO_POWER_D * FIVE_POWER_D
    ensures FilledIn(operators3x3, operators5x5)[CellOperatorPosition(c, PositionsInOperator(c)[i])]
      == operators3x3[CellStencilPosition(c, i)]
  {
    WindowOfTable(c, i);
  }

  /** Every entry that no table row names keeps the value of the 5^d operators. */
  lemma FilledInKeepsRest(operators3x3: Vector, operators5x5: Vector, n: nat)
    requires |operators3x3| == TWO_POWER_D * THREE_POWER_D && |operators5x5| == TWO_POWER_D * FIVE_POWER_D
    requires n < TWO_POWER_D * FIVE_POWER_D
    requires forall c, i :: 0 <= c < TWO_POWER_D && 0 <= i < THREE_POWER_D ==> n != CellOperatorPosition(c, PositionsInOperator(c)[i])
    ensures FilledIn(operators3x3, operators5x5)[n] == operators5x5[n]
  {
    WindowEntryIsNamed(n);
  }

  /** An entry of c's window is named by the table row of c. */
  lemma WindowEntryIsNamed(n: nat)
    requires n < TWO_POWER_D * FIVE_POWER_D
    ensures InWindow(n / FIVE_POWER_D, n % FIVE_POWER_D) ==>
      0 <= LocalIndex(n / FIVE_POWER_D, n % FIVE_POWER_D) < THREE_POWER_D &&
      n == CellOperatorPosition(n / FIVE_POWER_D, PositionsInOperator(n / FIVE_POWER_D)[LocalIndex(n / FIVE_POWER_D, n % FIVE_POWER_D)])
  {
    var c, q := n / FIVE_POWER_D, n % FIVE_POWER_D;
    if InWindow(c, q) {
      TableOfWindow(c, q);
    }
  }

  /** Filling in twice with the same 3^d operators is filling in once. */
  lemma FilledInIdempotent(operators3x3: Vector, operators5x5: Vector)
    requires |operators3x3| == TWO_POWER_D * THREE_POWER_D && |operators5x5| == TWO_POWER_D * FIVE_POWER_D
    ensures FilledIn(operators3x3, FilledIn(operators3x3, operators5x5)) == FilledIn(operators3x3, operators5x5)
  {
    var once := FilledIn(operators3x3, operators5x5);
    var twice := FilledIn(operators3x3, once);
    forall n | 0 <= n < TWO_POWER_D * FIVE_POWER_D
      ensures twice[n] == once[n]
    {
    }
  }
}
