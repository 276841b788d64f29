/**
 * Dimension-generic index utilities: mixed-radix linearisation of integer
 * coordinates (dimension 0 is the least significant digit), its inverse,
 * and the enumeration of the 2^d corners of a cell that the `dfor2` loop
 * walks through (corner number `kScalar` <-> corner coordinate `k`).
 */
module Indexing {

  /** The build-time dimension of the engine. */
  const DIMENSIONS: nat := 2
  const TWO_POWER_D: nat := 4
  const THREE_POWER_D: nat := 9
  const FIVE_POWER_D: nat := 25

  function Pow(b: int, e: nat): int
  {
    if e == 0 then 1 else b * Pow(b, e - 1)
  }

  lemma PowPositive(b: int, e: nat)
    requires b > 0
    ensures Pow(b, e) > 0
  {
    if e > 0 {
      PowPositive(b, e - 1);
    }
  }

  lemma PowsOfD()
    ensures Pow(2, DIMENSIONS) == TWO_POWER_D
    ensures Pow(3, DIMENSIONS) == THREE_POWER_D
    ensures Pow(5, DIMENSIONS) == FIVE_POWER_D
  {
  }

  /** Every component of v lies in [0, L). */
  predicate InRange(v: seq<int>, L: int)
  {
    forall d :: 0 <= d < |v| ==> 0 <= v[d] < L
  }

  /** Sum of v(d) * L^d: the linear index of coordinate v in an L^|v| patch. */
  function Linearised(v: seq<int>, L: int): int
  {
    if |v| == 0 then 0 else v[0] + L * Linearised(v[1..], L)
  }

  /** The coordinate of linear index n in an L^dims patch. */
  function Delinearised(n: int, L: int, dims: nat): (v: seq<int>)
    requires L > 0
    ensures |v| == dims
    decreases dims
  {
    if dims == 0 then [] else [n % L] + Delinearised(n / L, L, dims - 1)
  }

  lemma MulNonnegative(a: int, b: int)
    requires a >= 0 && b >= 0
    ensures a * b >= 0
  {
  }

  lemma MulMonotonic(L: int, a: int, b: int)
    requires L >= 0 && a <= b
    ensures L * a <= L * b
  {
    MulNonnegative(L, b - a);
    assert L * b - L * a == L * (b - a);
  }

  /** Quotient and remainder of i + L*j by L when 0 <= i < L. */
  lemma DivModOfDigit(i: int, j: int, L: int)
    requires L > 0 && 0 <= i < L
    ensures (i + L * j) / L == j && (i + L * j) % L == i
  {
    var n := i + L * j;
    var q, r := n / L, n % L;
    assert n == L * q + r && 0 <= r < L;
    assert L * (q - j) == i - r;
    if q > j {
      MulMonotonic(L, 1, q - j);
    } else if q < j {
      MulMonotonic(L, 1, j - q);
    }
  }

  /** A digit below L followed by a number below p gives a number below L * p. */
  lemma DigitBounds(digit: int, rest: int, p: int, L: int)
    requires 0 <= digit < L && 0 <= rest < p
    ensures 0 <= digit + L * rest < L * p
  {
    MulMonotonic(L, rest, p - 1);
    MulNonnegative(L, rest);
    assert L * (p - 1) == L * p - L;
  }

  lemma {:induction false} LinearisedBounds(v: seq<int>, L: int)
    requires L > 0 && InRange(v, L)
    ensures 0 <= Linearised(v, L) < Pow(L, |v|)
  {
    if |v| > 0 {
      LinearisedBounds(v[1..], L);
      DigitBounds(v[0], Linearised(v[1..], L), Pow(L, |v| - 1), L);
    }
  }

  /** Appending a most significant digit: the accumulation loop's step. */
  lemma {:induction false} LinearisedAppend(v: seq<int>, x: int, L: int)
    ensures Linearised(v + [x], L) == Linearised(v, L) + x * Pow(L, |v|)
  {
    if |v| == 0 {
      assert (v + [x])[1..] == [];
    } else {
      assert (v + [x])[1..] == v[1..] + [x];
      LinearisedAppend(v[1..], x, L);
      var r, p := Linearised(v[1..], L), Pow(L, |v| - 1);
      assert L * (r + x * p) == L * r + x * (L * p);
      assert Linearised(v + [x], L) == v[0] + L * (r + x * p);
    }
  }

  /** The quotient of an in-range index drops one digit. */
  lemma QuotientInRange(n: int, L: int, dims: nat)
    requires L > 0 && dims > 0 && 0 <= n < Pow(L, dims)
    ensures 0 <= n / L < Pow(L, dims - 1)
    ensures n == L * (n / L) + n % L
  {
    var q, r := n / L, n % L;
    assert n == L * q + r && 0 <= r < L;
    if q >= Pow(L, dims - 1) {
      MulMonotonic(L, Pow(L, dims - 1), q);
    }
    if q < 0 {
      MulMonotonic(L, q, -1);
    }
  }

  lemma {:induction false} LinearisedOfDelinearised(n: int, L: int, dims: nat)
    requires L > 0 && 0 <= n < Pow(L, dims)
    ensures Linearised(Delinearised(n, L, dims), L) == n
    decreases dims
  {
    if dims > 0 {
      QuotientInRange(n, L, dims);
      var q, r := n / L, n % L;
      var v := Delinearised(n, L, dims);
      assert v == [r] + Delinearised(q, L, dims - 1);
      assert v[1..] == Delinearised(q, L, dims - 1);
      LinearisedOfDelinearised(q, L, dims - 1);
      assert Linearised(v, L) == r + L * q;
    }
  }

  /** Delinearising a linearised in-range coordinate gives the coordinate back. */
  lemma {:induction false} DelinearisedOfLinearised(v: seq<int>, L: int)
    requires L > 0 && InRange(v, L)
    ensures Delinearised(Linearised(v, L), L, |v|) == v
  {
    if |v| > 0 {
      DivModOfDigit(v[0], Linearised(v[1..], L), L);
      DelinearisedOfLinearised(v[1..], L);
      assert v == [v[0]] + v[1..];
    }
  }

  /** Two in-range coordinates of the same length with the same index are equal. */
  lemma LinearisedInjective(v: seq<int>, w: seq<int>, L: int)
    requires L > 0 && |v| == |w| && InRange(v, L) && InRange(w, L)
    requires Linearised(v, L) == Linearised(w, L)
    ensures v == w
  {
    DelinearisedOfLinearised(v, L);
    DelinearisedOfLinearised(w, L);
  }

  lemma Linearised2(a: int, b: int, L: int)
    ensures Linearised([a, b], L) == a + L * b
  {
    assert [a, b][1..] == [b];
    assert [b][1..] == [];
    assert Linearised([b], L) == b;
  }

  /** The corner k in {0,1}^d that `dfor2` visits as number kScalar. */
  function Corner(kScalar: nat): (k: seq<int>)
    ensures |k| == DIMENSIONS
  {
    Delinearised(kScalar, 2, DIMENSIONS)
  }

  lemma CornerComponents(kScalar: nat)
    ensures Corner(kScalar) == [kScalar % 2, (kScalar / 2) % 2]
  {
    assert Delinearised(kScalar / 2 / 2, 2, 0) == [];
  }

  /** `dfor2` enumerates {0,1}^d exactly once, with dimension 0 fastest. */
  lemma CornerEnumeration(kScalar: nat)
    requires kScalar < TWO_POWER_D
    ensures InRange(Corner(kScalar), 2)
    ensures Linearised(Corner(kScalar), 2) == kScalar
  {
    CornerComponents(kScalar);
    Linearised2(kScalar % 2, kScalar / 2 % 2, 2);
  }

  /** The four corners of a 2-D cell in `dfor2` order. */
  lemma CornerValues()
    ensures Corner(0) == [0, 0] && Corner(1) == [1, 0] && Corner(2) == [0, 1] && Corner(3) == [1, 1]
  {
    CornerComponents(0);
    CornerComponents(1);
    CornerComponents(2);
    CornerComponents(3);
  }

  /** The coordinate in {0,1,2}^d of entry n of a 3^d stencil. */
  function StencilCoordinate(n: nat): (v: seq<int>)
    ensures |v| == DIMENSIONS
  {
    Delinearised(n, 3, DIMENSIONS)
  }

  lemma StencilCoordinateComponents(n: nat)
    requires n < THREE_POWER_D
    ensures StencilCoordinate(n) == [n % 3, n / 3]
    ensures InRange(StencilCoordinate(n), 3)
    ensures Linearised(StencilCoordinate(n), 3) == n
  {
    assert Delinearised(n / 3 / 3, 3, 0) == [];
    Linearised2(n % 3, n / 3, 3);
  }
}
