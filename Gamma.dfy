/**
 * The closed-form 2 x 2 systems of the operator-dependent transfer in 2-D.
 * Along an edge of the cell lie the coarse vertex, two fine vertices and the
 * other coarse vertex. Two 3-point stencils, centred on the two fine
 * vertices, ask that the transfer weights (1, x0, x1, 1) are harmonic there.
 * Zeroing an end of a stencil fixes one coarse vertex's weight to 0.
 */
module Gamma {
  import opened LinearAlgebra

  /** The determinant of the 2 x 2 system given by two 3-point stencils. */
  function Determinant(stencil1: Vector, stencil2: Vector): real
    requires |stencil1| == 3 && |stencil2| == 3
  {
    stencil1[1] * stencil2[1] - stencil1[2] * stencil2[0]
  }

  /** x solves the system: both stencils vanish on (1, x0, x1) and (x0, x1, 1). */
  predicate Solves(stencil1: Vector, stencil2: Vector, x: Vector)
    requires |stencil1| == 3 && |stencil2| == 3 && |x| == 2
  {
    stencil1[0] + stencil1[1] * x[0] + stencil1[2] * x[1] == 0.0 &&
    stencil2[0] * x[0] + stencil2[1] * x[1] + stencil2[2] == 0.0
  }

  lemma CramerFirst(a: real, b: real, c: real, d: real, invdet: real, e: real, f: real)
    requires invdet * (a * d - b * c) == 1.0
    ensures a * (invdet * (d * e - b * f)) + b * (invdet * (a * f - c * e)) == e
    ensures c * (invdet * (d * e - b * f)) + d * (invdet * (a * f - c * e)) == f
  {
    calc {
      a * (invdet * (d * e - b * f)) + b * (invdet * (a * f - c * e));
      invdet * (a * d - b * c) * e;
      e;
    }
    calc {
      c * (invdet * (d * e - b * f)) + d * (invdet * (a * f - c * e));
      invdet * (a * d - b * c) * f;
      f;
    }
  }

  /** The solution of the system by Cramer's rule; a zero determinant is excluded. */
  function Solve2x2System(stencil1: Vector, stencil2: Vector): (x: Vector)
    requires |stencil1| == 3 && |stencil2| == 3 && Determinant(stencil1, stencil2) != 0.0
    ensures |x| == 2 && Solves(stencil1, stencil2, x)
  {
    var invdet := 1.0 / Determinant(stencil1, stencil2);
    var x := [invdet * (stencil2[1] * (-stencil1[0]) + (-stencil1[2] * (-stencil2[2]))),
              invdet * ((-stencil2[0]) * (-stencil1[0]) + stencil1[1] * (-stencil2[2]))];
    CramerFirst(stencil1[1], stencil1[2], stencil2[0], stencil2[1], invdet, -stencil1[0], -stencil2[2]);
    x
  }

  lemma HomogeneousOnlyZero(a: real, b: real, c: real, d: real, y0: real, y1: real)
    requires a * d - b * c != 0.0
    requires a * y0 + b * y1 == 0.0 && c * y0 + d * y1 == 0.0
    ensures y0 == 0.0 && y1 == 0.0
  {
    assert (a * d - b * c) * y0 == d * (a * y0 + b * y1) - b * (c * y0 + d * y1);
    assert (a * d - b * c) * y1 == a * (c * y0 + d * y1) - c * (a * y0 + b * y1);
  }

  /** With a non-zero determinant, the computed solution is the only one. */
  lemma SolutionIsUnique(stencil1: Vector, stencil2: Vector, x: Vector)
    requires |stencil1| == 3 && |stencil2| == 3 && |x| == 2 && Determinant(stencil1, stencil2) != 0.0
    ensures Solves(stencil1, stencil2, x) <==> x == Solve2x2System(stencil1, stencil2)
  {
    var s := Solve2x2System(stencil1, stencil2);
    if Solves(stencil1, stencil2, x) {
      HomogeneousOnlyZero(stencil1[1], stencil1[2], stencil2[0], stencil2[1], x[0] - s[0], x[1] - s[1]);
    }
  }

  /** The stencil with its first entry set to 0. */
  function WithoutFirst(stencil: Vector): (r: Vector)
    requires |stencil| == 3
    ensures |r| == 3 && r[0] == 0.0 && r[1] == stencil[1] && r[2] == stencil[2]
  {
    stencil[0 := 0.0]
  }

  /** The stencil with its last entry set to 0. */
  function WithoutLast(stencil: Vector): (r: Vector)
    requires |stencil| == 3
    ensures |r| == 3 && r[0] == stencil[0] && r[1] == stencil[1] && r[2] == 0.0
  {
    stencil[2 := 0.0]
  }

  /** The stencils of one edge, and the weights of its first coarse vertex (first pair) and its second one (second pair). */
  predicate EdgeSolved(stencil1: Vector, stencil2: Vector, fromFirst: Vector, fromSecond: Vector)
    requires |stencil1| == 3 && |stencil2| == 3 && |fromFirst| == 2 && |fromSecond| == 2
  {
    Solves(stencil1, WithoutLast(stencil2), fromFirst) && Solves(WithoutFirst(stencil1), stencil2, fromSecond)
  }

  /** Both systems of an edge share the determinant of the unmodified stencils. */
  lemma EdgeDeterminant(stencil1: Vector, stencil2: Vector)
    requires |stencil1| == 3 && |stencil2| == 3
    ensures Determinant(stencil1, WithoutLast(stencil2)) == Determinant(stencil1, stencil2)
    ensures Determinant(WithoutFirst(stencil1), stencil2) == Determinant(stencil1, stencil2)
  {
  }

  /** The two systems of one edge: the weights of its first and of its second coarse vertex. */
  function SolveEdge(stencil1: Vector, stencil2: Vector): (r: Vector)
    requires |stencil1| == 3 && |stencil2| == 3 && Determinant(stencil1, stencil2) != 0.0
    ensures |r| == 4 && EdgeSolved(stencil1, stencil2, r[..2], r[2..])
  {
    EdgeDeterminant(stencil1, stencil2);
    var first := Solve2x2System(stencil1, WithoutLast(stencil2));
    var second := Solve2x2System(WithoutFirst(stencil1), stencil2);
    assert (first + second)[..2] == first && (first + second)[2..] == second;
    first + second
  }

  /** A stencil whose entries add up to 0, like every Laplacian stencil. */
  predicate ZeroRowSum(stencil: Vector)
    requires |stencil| == 3
  {
    stencil[0] + stencil[1] + stencil[2] == 0.0
  }

  /**
   * For stencils with zero row sum the two coarse vertices of an edge give
   * weights that add up to 1 at both fine vertices: constants are transferred
   * exactly.
   */
  lemma EdgePartitionOfUnity(stencil1: Vector, stencil2: Vector, fromFirst: Vector, fromSecond: Vector)
    requires |stencil1| == 3 && |stencil2| == 3 && |fromFirst| == 2 && |fromSecond| == 2
    requires Determinant(stencil1, stencil2) != 0.0 && ZeroRowSum(stencil1) && ZeroRowSum(stencil2)
    requires EdgeSolved(stencil1, stencil2, fromFirst, fromSecond)
    ensures fromFirst[0] + fromSecond[0] == 1.0 && fromFirst[1] + fromSecond[1] == 1.0
  {
    var total := [fromFirst[0] + fromSecond[0], fromFirst[1] + fromSecond[1]];
    assert Solves(stencil1, stencil2, total) by {
      assert stencil1[0] + stencil1[1] * total[0] + stencil1[2] * total[1]
        == (stencil1[0] + stencil1[1] * fromFirst[0] + stencil1[2] * fromFirst[1])
         + (stencil1[1] * fromSecond[0] + stencil1[2] * fromSecond[1]);
      assert stencil2[0] * total[0] + stencil2[1] * total[1] + stencil2[2]
        == (stencil2[0] * fromFirst[0] + stencil2[1] * fromFirst[1])
         + (stencil2[0] * fromSecond[0] + stencil2[1] * fromSecond[1] + stencil2[2]);
    }
    assert Solves(stencil1, stencil2, [1.0, 1.0]);
    SolutionIsUnique(stencil1, stencil2, total);
    SolutionIsUnique(stencil1, stencil2, [1.0, 1.0]);
  }

  /**
   * The weights along the four edges of the cell (bottom, left, right, top),
   * each from both of its coarse vertices, in the slots the caller expects.
   */
  function SolveGammaSystems(stencil1: Vector, stencil2: Vector, stencil3: Vector, stencil4: Vector,
                             stencil5: Vector, stencil6: Vector, stencil7: Vector, stencil8: Vector): (r: Vector)
    requires |stencil1| == 3 && |stencil2| == 3 && |stencil3| == 3 && |stencil4| == 3
    requires |stencil5| == 3 && |stencil6| == 3 && |stencil7| == 3 && |stencil8| == 3
    requires Determinant(stencil1, stencil2) != 0.0 && Determinant(stencil3, stencil5) != 0.0
    requires Determinant(stencil4, stencil6) != 0.0 && Determinant(stencil7, stencil8) != 0.0
    ensures |r| == 16
    ensures EdgeSolved(stencil1, stencil2, [r[0], r[1]], [r[2], r[3]])
    ensures EdgeSolved(stencil3, stencil5, [r[4], r[8]], [r[6], r[10]])
    ensures EdgeSolved(stencil4, stencil6, [r[5], r[9]], [r[7], r[11]])
    ensures EdgeSolved(stencil7, stencil8, [r[12], r[13]], [r[14], r[15]])
  {
    var bottom := SolveEdge(stencil1, stencil2);
    var left := SolveEdge(stencil3, stencil5);
    var right := SolveEdge(stencil4, stencil6);
    var top := SolveEdge(stencil7, stencil8);
    assert bottom[..2] == [bottom[0], bottom[1]] && bottom[2..] == [bottom[2], bottom[3]];
    assert left[..2] == [left[0], left[1]] && left[2..] == [left[2], left[3]];
    assert right[..2] == [right[0], right[1]] && right[2..] == [right[2], right[3]];
    assert top[..2] == [top[0], top[1]] && top[2..] == [top[2], top[3]];
    [bottom[0], bottom[1], bottom[2], bottom[3],
     left[0], right[0], left[2], right[2],
     left[1], right[1], left[3], right[3],
     top[0], top[1], top[2], top[3]]
  }

  /** For zero-row-sum stencils, on every edge the weights of its two coarse vertices add up to 1 at both fine vertices. */
  lemma GammaPartitionOfUnity(stencil1: Vector, stencil2: Vector, stencil3: Vector, stencil4: Vector,
                              stencil5: Vector, stencil6: Vector, stencil7: Vector, stencil8: Vector)
    requires |stencil1| == 3 && |stencil2| == 3 && |stencil3| == 3 && |stencil4| == 3
    requires |stencil5| == 3 && |stencil6| == 3 && |stencil7| == 3 && |stencil8| == 3
    requires Determinant(stencil1, stencil2) != 0.0 && Determinant(stencil3, stencil5) != 0.0
    requires Determinant(stencil4, stencil6) != 0.0 && Determinant(stencil7, stencil8) != 0.0
    requires ZeroRowSum(stencil1) && ZeroRowSum(stencil2) && ZeroRowSum(stencil3) && ZeroRowSum(stencil4)
    requires ZeroRowSum(stencil5) && ZeroRowSum(stencil6) && ZeroRowSum(stencil7) && ZeroRowSum(stencil8)
    ensures var r := SolveGammaSystems(stencil1, stencil2, stencil3, stencil4, stencil5, stencil6, stencil7, stencil8);
      r[0] + r[2] == 1.0 && r[1] + r[3] == 1.0 && r[4] + r[6] == 1.0 && r[8] + r[10] == 1.0 &&
      r[5] + r[7] == 1.0 && r[9] + r[11] == 1.0 && r[12] + r[14] == 1.0 && r[13] + r[15] == 1.0
  {
    var r := SolveGammaSystems(stencil1, stencil2, stencil3, stencil4, stencil5, stencil6, stencil7, stencil8);
    EdgePartitionOfUnity(stencil1, stencil2, [r[0], r[1]], [r[2], r[3]]);
    EdgePartitionOfUnity(stencil3, stencil5, [r[4], r[8]], [r[6], r[10]]);
    EdgePartitionOfUnity(stencil4, stencil6, [r[5], r[9]], [r[7], r[11]]);
    EdgePartitionOfUnity(stencil7, stencil8, [r[12], r[13]], [r[14], r[15]]);
  }
}
