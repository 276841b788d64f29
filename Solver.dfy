/**
 * The multigrid worker: it evaluates the intergrid transfer of one cell, cell
 * by cell, and counts the transfer-stencil entries it evaluates. A worker
 * thread works on a copy whose counter starts at zero and is merged back into
 * the master afterwards.
 */
module Solver {
  import opened Indexing
  import opened LinearAlgebra
  import opened StencilFactory
  import opened Transfer
  import opened Scatter

  /**
   * The stencils while the scatter loop is at row c, column f of the update:
   * the rows before c are added completely, row c up to column f.
   */
  ghost function UpdatedSoFar(update: Matrix, c: nat, f: nat, n: nat): real
    requires IsSquare(update, TWO_POWER_D) && c <= TWO_POWER_D && f <= TWO_POWER_D && n < TWO_POWER_D * THREE_POWER_D
  {
    if n / THREE_POWER_D < c then UpdatePrefix(update, n / THREE_POWER_D, n % THREE_POWER_D, TWO_POWER_D)
    else if n / THREE_POWER_D == c then UpdatePrefix(update, c, n % THREE_POWER_D, f)
    else 0.0
  }

  /**
   * Entry n of the operators while the fill-in loop is at vertex c, entry i:
   * the windows of the vertices before c are written completely, the window
   * of c up to entry i.
   */
  ghost function FilledSoFar(operators3x3: Vector, operators5x5: Vector, c: nat, i: nat, n: nat): real
    requires |operators3x3| == TWO_POWER_D * THREE_POWER_D && |operators5x5| == TWO_POWER_D * FIVE_POWER_D
    requires c <= TWO_POWER_D && n < TWO_POWER_D * FIVE_POWER_D
  {
    var vertex, q := n / FIVE_POWER_D, n % FIVE_POWER_D;
    if InWindow(vertex, q) && (vertex < c || (vertex == c && LocalIndex(vertex, q) < i)) then
      TableOfWindow(vertex, q);
      operators3x3[CellStencilPosition(vertex, LocalIndex(vertex, q))]
    else
      operators5x5[n]
  }

  /** Writing entry i of vertex c's window is the only change from (c, i) to (c, i + 1). */
  lemma FilledSoFarStep(operators3x3: Vector, operators5x5: Vector, c: nat, i: nat, n: nat)
    requires |operators3x3| == TWO_POWER_D * THREE_POWER_D && |operators5x5| == TWO_POWER_D * FIVE_POWER_D
    requires c < TWO_POWER_D && i < THREE_POWER_D && n < TWO_POWER_D * FIVE_POWER_D
    ensures 0 <= PositionsInOperator(c)[i] < FIVE_POWER_D
    ensures FilledSoFar(operators3x3, operators5x5, c, i + 1, n)
      == if n == CellOperatorPosition(c, PositionsInOperator(c)[i]) then operators3x3[CellStencilPosition(c, i)]
         else FilledSoFar(operators3x3, operators5x5, c, i, n)
  {
    WindowOfTable(c, i);
    var vertex, q := n / FIVE_POWER_D, n % FIVE_POWER_D;
    assert n == CellOperatorPosition(vertex, q);
    if InWindow(vertex, q) {
      TableOfWindow(vertex, q);
    }
  }

  /** After the whole window of c, the loop state is that at the start of c + 1. */
  lemma FilledSoFarNext(operators3x3: Vector, operators5x5: Vector, c: nat, n: nat)
    requires |operators3x3| == TWO_POWER_D * THREE_POWER_D && |operators5x5| == TWO_POWER_D * FIVE_POWER_D
    requires c < TWO_POWER_D && n < TWO_POWER_D * FIVE_POWER_D
    ensures FilledSoFar(operators3x3, operators5x5, c, THREE_POWER_D, n) == FilledSoFar(operators3x3, operators5x5, c + 1, 0, n)
  {
    var vertex, q := n / FIVE_POWER_D, n % FIVE_POWER_D;
    if InWindow(vertex, q) {
      TableOfWindow(vertex, q);
    }
  }

  class Multigrid {
    /** The d-linear interpolation stencil, fixed when the instance is created. */
    const dLinearInterpolation: Vector
    /** How many transfer-stencil entries this instance has evaluated since it was created or cleared. */
    var numberOfStencilEvaluations: nat

    /** The instance interpolates d-linearly. */
    predicate Valid()
    {
      dLinearInterpolation == GetDLinearInterpolation()
    }

    constructor()
      ensures Valid() && numberOfStencilEvaluations == 0
    {
      dLinearInterpolation := GetDLinearInterpolation();
      numberOfStencilEvaluations := 0;
    }

    /** The copy for a worker thread: same interpolation stencil, counter back at zero. */
    constructor CopyOf(workerThread: Multigrid)
      ensures dLinearInterpolation == workerThread.dLinearInterpolation
      ensures workerThread.Valid() ==> Valid()
      ensures numberOfStencilEvaluations == 0
    {
      dLinearInterpolation := workerThread.dLinearInterpolation;
      numberOfStencilEvaluations := 0;
    }

    /** Adds the evaluations of a worker to this instance's count. */
    method MergeWithWorkerThread(workerThread: Multigrid)
      modifies this
      ensures numberOfStencilEvaluations == old(numberOfStencilEvaluations) + old(workerThread.numberOfStencilEvaluations)
    {
      numberOfStencilEvaluations := numberOfStencilEvaluations + workerThread.numberOfStencilEvaluations;
    }

    method GetNumberOfStencilUpdates() returns (count: nat)
      ensures count == numberOfStencilEvaluations
    {
      count := numberOfStencilEvaluations;
    }

    method ClearNumberOfStencilUpdates()
      modifies this
      ensures numberOfStencilEvaluations == 0
    {
      numberOfStencilEvaluations := 0;
    }

    /**
     * The entry of the coarse vertex's 5^d stencil that acts on the fine
     * vertex, its linear index, and whether it lies inside the stencil.
     */
    static method GetPositionIn5PowDStencilRelativeToKthCoarseVertex(
      coarseGridVertexPosition: seq<int>, fineGridVertexPosition: seq<int>)
      returns (entryOfCoarseGridStencil: seq<int>, indexOfCoarseGridStencil: int, coarseGridStencilInfluencesFineGridVertex: bool)
      requires |coarseGridVertexPosition| == DIMENSIONS && |fineGridVertexPosition| == DIMENSIONS
      ensures entryOfCoarseGridStencil == StencilEntry(coarseGridVertexPosition, fineGridVertexPosition)
      ensures indexOfCoarseGridStencil == StencilIndex(coarseGridVertexPosition, fineGridVertexPosition)
      ensures coarseGridStencilInfluencesFineGridVertex == Influences(coarseGridVertexPosition, fineGridVertexPosition)
    {
      ghost var spec := StencilEntry(coarseGridVertexPosition, fineGridVertexPosition);
      entryOfCoarseGridStencil := seq(DIMENSIONS, _ => 0);
      indexOfCoarseGridStencil := 0;
      coarseGridStencilInfluencesFineGridVertex := true;
      var baseOfStencilEntry := 1;
      for d := 0 to DIMENSIONS
        invariant |entryOfCoarseGridStencil| == DIMENSIONS
        invariant entryOfCoarseGridStencil[..d] == spec[..d]
        invariant indexOfCoarseGridStencil == Linearised(spec[..d], 5)
        invariant coarseGridStencilInfluencesFineGridVertex == InRange(spec[..d], 5)
        invariant baseOfStencilEntry == Pow(5, d)
      {
        if coarseGridVertexPosition[d] == 1 {
          entryOfCoarseGridStencil := entryOfCoarseGridStencil[d := 2 - (3 - fineGridVertexPosition[d])];
        } else {
          entryOfCoarseGridStencil := entryOfCoarseGridStencil[d := 2 + fineGridVertexPosition[d]];
        }
        assert spec[..d + 1] == spec[..d] + [spec[d]];
        LinearisedAppend(spec[..d], spec[d], 5);
        coarseGridStencilInfluencesFineGridVertex := coarseGridStencilInfluencesFineGridVertex
          && entryOfCoarseGridStencil[d] >= 0 && entryOfCoarseGridStencil[d] < 5;
        indexOfCoarseGridStencil := indexOfCoarseGridStencil + entryOfCoarseGridStencil[d] * baseOfStencilEntry;
        baseOfStencilEntry := baseOfStencilEntry * 5;
      }
      assert spec[..DIMENSIONS] == spec && entryOfCoarseGridStencil[..DIMENSIONS] == entryOfCoarseGridStencil;
    }

    /** The weight of the coarse vertex's transfer stencil at the fine vertex; counts one evaluation when it reaches it. */
    method ComputeContributionWeightOfInterGridTransfer(
      currentCoarseGridVertex: seq<int>, currentCoarseGridVertexsInterGridTransferOperator: Vector, fineGridPositionOfVertex: seq<int>)
      returns (result: real)
      requires IsCorner(currentCoarseGridVertex) && |currentCoarseGridVertexsInterGridTransferOperator| == FIVE_POWER_D
      requires |fineGridPositionOfVertex| == DIMENSIONS
      modifies this
      ensures result == Weight(currentCoarseGridVertexsInterGridTransferOperator, currentCoarseGridVertex, fineGridPositionOfVertex)
      ensures numberOfStencilEvaluations == old(numberOfStencilEvaluations)
        + (if Influences(currentCoarseGridVertex, fineGridPositionOfVertex) then 1 else 0)
    {
      var positionRelativeToKthCoarseVertex, stencilEntry, isInfluencedByVertexK :=
        GetPositionIn5PowDStencilRelativeToKthCoarseVertex(currentCoarseGridVertex, fineGridPositionOfVertex);
      if isInfluencedByVertexK {
        StencilIndexInRange(currentCoarseGridVertex, fineGridPositionOfVertex);
        numberOfStencilEvaluations := numberOfStencilEvaluations + 1;
        result := currentCoarseGridVertexsInterGridTransferOperator[stencilEntry];
      } else {
        result := 0.0;
      }
    }

    /**
     * The d-linear interpolation of the 2^d coarse values at the fine vertex,
     * times scaling. Every corner counts one evaluation, and once more when
     * its stencil reaches the fine vertex. Inside the patch, a value all
     * corners share comes back scaled (Transfer.DLinearInterpolationOfConstant).
     */
    method GetDLinearInterpolatedValue(coarseGridValues: Vector, fineGridPositionOfVertex: seq<int>, scaling: real)
      returns (result: real)
      requires Valid() && |coarseGridValues| == TWO_POWER_D && |fineGridPositionOfVertex| == DIMENSIONS
      modifies this
      ensures result == WeightedSum(coarseGridValues, CellWeights(dLinearInterpolation, fineGridPositionOfVertex), TWO_POWER_D) * scaling
      ensures numberOfStencilEvaluations == old(numberOfStencilEvaluations) + TWO_POWER_D + InfluenceCount(fineGridPositionOfVertex, TWO_POWER_D)
    {
      ghost var weights := CellWeights(dLinearInterpolation, fineGridPositionOfVertex);
      result := 0.0;
      for kScalar := 0 to TWO_POWER_D
        invariant result == WeightedSum(coarseGridValues, weights, kScalar)
        invariant numberOfStencilEvaluations == old(numberOfStencilEvaluations) + kScalar + InfluenceCount(fineGridPositionOfVertex, kScalar)
      {
        CellWeightAt(dLinearInterpolation, fineGridPositionOfVertex, kScalar);
        var weight := ComputeContributionWeightOfInterGridTransfer(Corner(kScalar), dLinearInterpolation, fineGridPositionOfVertex);
        WeightedSumStep(coarseGridValues, weights, kScalar, weight);
        var tmp := coarseGridValues[kScalar] * weight;
        result := result + tmp;
        numberOfStencilEvaluations := numberOfStencilEvaluations + 1;
      }
      result := result * scaling;
    }

    /** The cell-wise transfer matrix: entry (l, k) is the weight of coarse corner k at fine vertex l. */
    method CalculateCellInterGridTransferOperator(coarseGridVerticesInterGridTransferOperators: Vector, fineGridVerticesPositions: seq<int>)
      returns (result: Matrix)
      requires |coarseGridVerticesInterGridTransferOperators| == TWO_POWER_D * FIVE_POWER_D
      requires |fineGridVerticesPositions| == TWO_POWER_D * DIMENSIONS
      ensures result == TransferMatrix(coarseGridVerticesInterGridTransferOperators, fineGridVerticesPositions)
    {
      ghost var spec := TransferMatrix(coarseGridVerticesInterGridTransferOperators, fineGridVerticesPositions);
      result := seq(TWO_POWER_D, _ => Zeros(TWO_POWER_D));
      for lScalar := 0 to TWO_POWER_D
        invariant IsSquare(result, TWO_POWER_D)
        invariant forall l :: 0 <= l < lScalar ==> result[l] == spec[l]
      {
        var fineGridVertexPosition := seq(DIMENSIONS, _ => 0);
        for d := 0 to DIMENSIONS
          invariant |fineGridVertexPosition| == DIMENSIONS
          invariant fineGridVertexPosition[..d] == FinePosition(fineGridVerticesPositions, lScalar)[..d]
        {
          fineGridVertexPosition := fineGridVertexPosition[d := fineGridVerticesPositions[lScalar * DIMENSIONS + d]];
        }
        assert fineGridVertexPosition == fineGridVertexPosition[..DIMENSIONS];
        assert fineGridVertexPosition == FinePosition(fineGridVerticesPositions, lScalar);
        for kScalar := 0 to TWO_POWER_D
          invariant IsSquare(result, TWO_POWER_D)
          invariant forall l :: 0 <= l < lScalar ==> result[l] == spec[l]
          invariant forall k :: 0 <= k < kScalar ==> result[lScalar][k] == spec[lScalar][k]
        {
          var entryOfCoarseGridStencil, indexOfCoarseGridStencil, coarseGridStencilInfluencesFineGridVertex :=
            GetPositionIn5PowDStencilRelativeToKthCoarseVertex(Corner(kScalar), fineGridVertexPosition);
          var indexInOperator := CellOperatorPosition(kScalar, indexOfCoarseGridStencil);
          var value := 0.0;
          if coarseGridStencilInfluencesFineGridVertex {
            CornerEnumeration(kScalar);
            StencilIndexInRange(Corner(kScalar), fineGridVertexPosition);
            value := coarseGridVerticesInterGridTransferOperators[indexInOperator];
          }
          assert value == TransferEntry(coarseGridVerticesInterGridTransferOperators, fineGridVerticesPositions, lScalar, kScalar);
          result := result[lScalar := result[lScalar][kScalar := value]];
        }
        assert result[lScalar] == spec[lScalar];
      }
    }

    /** Fine values from the coarse values of the cell: (T / 2^d) v. */
    method ProlongCellValues(coarseGridVerticesP: Vector, fineGridVerticesPositions: seq<int>, cellValues: Vector)
      returns (result: Vector)
      requires |coarseGridVerticesP| == TWO_POWER_D * FIVE_POWER_D && |fineGridVerticesPositions| == TWO_POWER_D * DIMENSIONS
      requires |cellValues| == TWO_POWER_D
      ensures result == Prolonged(coarseGridVerticesP, fineGridVerticesPositions, cellValues)
    {
      var cellP := CalculateCellInterGridTransferOperator(coarseGridVerticesP, fineGridVerticesPositions);
      cellP := ScaleMatrix(cellP, 1.0 / TWO_POWER_D as real);
      result := MatVec(cellP, cellValues);
    }

    /** Coarse values from the fine values of the cell: (T / 2^d)^T v. */
    method RestrictCellValues(coarseGridVerticesR: Vector, fineGridVerticesPositions: seq<int>, cellValues: Vector)
      returns (result: Vector)
      requires |coarseGridVerticesR| == TWO_POWER_D * FIVE_POWER_D && |fineGridVerticesPositions| == TWO_POWER_D * DIMENSIONS
      requires |cellValues| == TWO_POWER_D
      ensures result == Restricted(coarseGridVerticesR, fineGridVerticesPositions, cellValues)
    {
      var cellR := CalculateCellInterGridTransferOperator(coarseGridVerticesR, fineGridVerticesPositions);
      cellR := ScaleMatrix(cellR, 1.0 / TWO_POWER_D as real);
      result := MatVec(Transpose(cellR, TWO_POWER_D), cellValues);
    }

    /** rhs - A u on the cell. */
    method ComputeCellResidual(cellValues: Vector, rhs: Vector, elementWiseAssemblyMatrix: Matrix) returns (result: Vector)
      requires |cellValues| == |rhs| == TWO_POWER_D && IsSquare(elementWiseAssemblyMatrix, TWO_POWER_D)
      ensures result == Residual(cellValues, rhs, elementWiseAssemblyMatrix)
    {
      result := Zeros(TWO_POWER_D);
      var aTimesU := MatVec(elementWiseAssemblyMatrix, cellValues);
      for iScalar := 0 to TWO_POWER_D
        invariant |result| == TWO_POWER_D
        invariant forall i :: 0 <= i < iScalar ==> result[i] == Residual(cellValues, rhs, elementWiseAssemblyMatrix)[i]
      {
        result := result[iScalar := rhs[iScalar] - aTimesU[iScalar]];
      }
    }

    /** The coarse-grid operator of the cell, R^T (A P), with the unscaled transfer matrices. */
    method CalculatePetrovGalerkinCoarseGridOperator(coarseGridVerticesP: Vector, coarseGridVerticesR: Vector,
      fineGridVerticesPositions: seq<int>, elementWiseAssemblyMatrix: Matrix)
      returns (result: Matrix)
      requires |coarseGridVerticesP| == TWO_POWER_D * FIVE_POWER_D && |coarseGridVerticesR| == TWO_POWER_D * FIVE_POWER_D
      requires |fineGridVerticesPositions| == TWO_POWER_D * DIMENSIONS && IsSquare(elementWiseAssemblyMatrix, TWO_POWER_D)
      ensures result == PetrovGalerkin(coarseGridVerticesP, coarseGridVerticesR, fineGridVerticesPositions, elementWiseAssemblyMatrix)
    {
      var cellP := CalculateCellInterGridTransferOperator(coarseGridVerticesP, fineGridVerticesPositions);
      var cellR := CalculateCellInterGridTransferOperator(coarseGridVerticesR, fineGridVerticesPositions);
      var cellAP := MatMul(elementWiseAssemblyMatrix, cellP, TWO_POWER_D);
      result := MatMul(Transpose(cellR, TWO_POWER_D), cellAP, TWO_POWER_D);
    }

    /** Adds entry (c, f) of the cell-wise update to entry PositionsInA(c)[f] of the stencil of coarse vertex c. */
    method AddUpdateToStencils(verticesStencils: Vector, cellWiseStencilUpdate: Matrix) returns (result: Vector)
      requires |verticesStencils| == TWO_POWER_D * THREE_POWER_D && IsSquare(cellWiseStencilUpdate, TWO_POWER_D)
      ensures result == UpdatedStencils(verticesStencils, cellWiseStencilUpdate)
    {
      result := verticesStencils;
      for cScalar := 0 to TWO_POWER_D
        invariant |result| == TWO_POWER_D * THREE_POWER_D
        invariant forall n :: 0 <= n < TWO_POWER_D * THREE_POWER_D ==>
          result[n] == verticesStencils[n] + UpdatedSoFar(cellWiseStencilUpdate, cScalar, 0, n)
      {
        var positionsInA := PositionsInA(cScalar);
        PositionsInAWindow(cScalar);
        for fScalar := 0 to TWO_POWER_D
          invariant |result| == TWO_POWER_D * THREE_POWER_D
          invariant forall n :: 0 <= n < TWO_POWER_D * THREE_POWER_D ==>
            result[n] == verticesStencils[n] + UpdatedSoFar(cellWiseStencilUpdate, cScalar, fScalar, n)
        {
          var vertexIndex := CellStencilPosition(cScalar, positionsInA[fScalar]);
          result := result[vertexIndex := result[vertexIndex] + cellWiseStencilUpdate[cScalar][fScalar]];
        }
      }
    }

    /** Overwrites the window of every coarse vertex's 5^d operator with its 3^d operator. */
    method FillInIntergridTransferOperators(operators3x3: Vector, operators5x5: Vector) returns (result: Vector)
      requires |operators3x3| == TWO_POWER_D * THREE_POWER_D && |operators5x5| == TWO_POWER_D * FIVE_POWER_D
      ensures result == FilledIn(operators3x3, operators5x5)
    {
      result := operators5x5;
      for cScalar := 0 to TWO_POWER_D
        invariant |result| == TWO_POWER_D * FIVE_POWER_D
        invariant forall n :: 0 <= n < TWO_POWER_D * FIVE_POWER_D ==> result[n] == FilledSoFar(operators3x3, operators5x5, cScalar, 0, n)
      {
        var positionsInOperator := PositionsInOperator(cScalar);
        for i := 0 to THREE_POWER_D
          invariant |result| == TWO_POWER_D * FIVE_POWER_D
          invariant forall n :: 0 <= n < TWO_POWER_D * FIVE_POWER_D ==> result[n] == FilledSoFar(operators3x3, operators5x5, cScalar, i, n)
        {
          WindowOfTable(cScalar, i);
          var vertexIndex := CellOperatorPosition(cScalar, positionsInOperator[i]);
          var value := operators3x3[CellStencilPosition(cScalar, i)];
          result := result[vertexIndex := value];
          forall n | 0 <= n < TWO_POWER_D * FIVE_POWER_D
            ensures result[n] == FilledSoFar(operators3x3, operators5x5, cScalar, i + 1, n)
          {
            FilledSoFarStep(operators3x3, operators5x5, cScalar, i, n);
          }
        }
        forall n | 0 <= n < TWO_POWER_D * FIVE_POWER_D
          ensures result[n] == FilledSoFar(operators3x3, operators5x5, cScalar + 1, 0, n)
        {
          FilledSoFarNext(operators3x3, operators5x5, cScalar, n);
        }
      }
    }
  }
}
