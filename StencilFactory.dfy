/**
 * The stencil factory: closed-form 1-D stencils, their tensor products
 * (first operand fastest), coordinate exchange, and the d-dimensional
 * Laplacian, mass, identity and d-linear interpolation stencils built from
 * them. A 3^d stencil entry n belongs to offset StencilCoordinate(n) in
 * {0,1,2}^d, where 1 is the vertex itself.
 */
module StencilFactory {
  import opened Indexing
  import opened LinearAlgebra

  // ---------------------------------------------------------------------
  // 1-D stencils
  // ---------------------------------------------------------------------

  /** The 1-D hat function sampled at the five points of a 3-way refined patch. */
  function Get1DLinearInterpolationStencil(): (r: Vector)
    ensures |r| == 5
    ensures forall i :: 0 <= i < 5 ==> r[i] == 1.0 - (if i < 2 then 2 - i else i - 2) as real / 3.0
  {
    [1.0 / 3.0, 2.0 / 3.0, 3.0 / 3.0, 2.0 / 3.0, 1.0 / 3.0]
  }

  /** Consistent 1-D mass stencil on a unit cell: symmetric, weights 1:4:1, total 1. */
  function Get1DMassStencilWithoutHScaling(): (r: Vector)
    ensures |r| == 3 && r[0] == r[2] && r[1] == 4.0 * r[0]
    ensures r[0] + r[1] + r[2] == 1.0
  {
    [1.0 / 6.0, 4.0 / 6.0, 1.0 / 6.0]
  }

  function Get1DIdentityWithoutHScaling(): (r: Vector)
    ensures |r| == 3 && r[1] == 1.0 && r[0] == 0.0 && r[2] == 0.0
  {
    [0.0, 1.0, 0.0]
  }

  /** Averages the two neighbours and ignores the vertex itself. */
  function Get1DMeanValueStencil(): (r: Vector)
    ensures |r| == 3 && r[1] == 0.0 && r[0] == r[2] && r[0] + r[2] == 1.0
  {
    [1.0 / 2.0, 0.0, 1.0 / 2.0]
  }

  /** The mass stencil scaled with the mesh width: it integrates to h. */
  function Get1DMassStencil(h: real): (r: Vector)
    ensures |r| == 3 && r[0] == r[2] && r[1] == 4.0 * r[0]
    ensures r[0] + r[1] + r[2] == h
  {
    ScaleVector(Get1DMassStencilWithoutHScaling(), h)
  }

  /** Second difference: symmetric, annihilates constants. */
  function Get1DLaplaceStencilWithoutHScaling(): (r: Vector)
    ensures |r| == 3 && r[0] == r[2] && r[1] == -2.0 * r[0] && r[1] == 2.0
    ensures r[0] + r[1] + r[2] == 0.0
  {
    [-1.0, 2.0, -1.0]
  }

  /** The Laplace stencil scaled with 1/h; the source asserts h > 0. */
  function Get1DLaplaceStencil(h: real): (r: Vector)
    requires h > 0.0
    ensures |r| == 3 && r[0] == -1.0 / h && r[1] == 2.0 / h && r[2] == -1.0 / h
    ensures r[0] == r[2] && r[1] == -2.0 * r[0]
    ensures r[0] + r[1] + r[2] == 0.0
  {
    ScaleVector(Get1DLaplaceStencilWithoutHScaling(), 1.0 / h)
  }

  /** Multiplying the scaled Laplace stencil by h gives back [-1, 2, -1]. */
  lemma LaplaceStencilScaling(h: real)
    requires h > 0.0
    ensures ScaleVector(Get1DLaplaceStencil(h), h) == Get1DLaplaceStencilWithoutHScaling()
  {
    var l, c := Get1DLaplaceStencil(h), Get1DLaplaceStencilWithoutHScaling();
    forall i | 0 <= i < 3
      ensures ScaleVector(l, h)[i] == c[i]
    {
      assert l[i] == (1.0 / h) * c[i];
      assert h * ((1.0 / h) * c[i]) == (h * (1.0 / h)) * c[i];
    }
  }

  // ---------------------------------------------------------------------
  // Tensor products
  // ---------------------------------------------------------------------

  /** Tensor product a (x) b of a length-3 stencil a with b, a fastest: entry i + 3*j is a(i) * b(j). */
  function Tensor3(a: Vector, b: Vector): (r: Vector)
    requires |a| == 3
    ensures |r| == 3 * |b|
  {
    seq(3 * |b|, n requires 0 <= n < 3 * |b| => a[n % 3] * b[n / 3])
  }

  /** Tensor product a (x) b of a length-5 stencil a with b, a fastest: entry i + 5*j is a(i) * b(j). */
  function Tensor5(a: Vector, b: Vector): (r: Vector)
    requires |a| == 5
    ensures |r| == 5 * |b|
  {
    seq(5 * |b|, n requires 0 <= n < 5 * |b| => a[n % 5] * b[n / 5])
  }

  lemma Tensor3At(a: Vector, b: Vector, i: int, j: int)
    requires |a| == 3 && 0 <= i < 3 && 0 <= j < |b|
    ensures 0 <= i + 3 * j < 3 * |b| && Tensor3(a, b)[i + 3 * j] == a[i] * b[j]
  {
    assert (i + 3 * j) % 3 == i && (i + 3 * j) / 3 == j;
  }

  lemma Tensor5At(a: Vector, b: Vector, i: int, j: int)
    requires |a| == 5 && 0 <= i < 5 && 0 <= j < |b|
    ensures 0 <= i + 5 * j < 5 * |b| && Tensor5(a, b)[i + 5 * j] == a[i] * b[j]
  {
    assert (i + 5 * j) % 5 == i && (i + 5 * j) / 5 == j;
  }

  /** The product of two 1-D stencils of length 3: result(i + j*3) = a(i) * b(j). */
  method StencilProduct3x3(a: Vector, b: Vector) returns (r: Vector)
    requires |a| == |b| == 3
    ensures |r| == 9
    ensures forall i, j :: 0 <= i < 3 && 0 <= j < 3 ==> r[i + 3 * j] == a[i] * b[j]
    ensures r == Tensor3(a, b)
  {
    r := Zeros(9);
    for i := 0 to 3
      invariant |r| == 9
      invariant forall i', j' :: 0 <= i' < i && 0 <= j' < 3 ==> r[i' + 3 * j'] == a[i'] * b[j']
    {
      for j := 0 to 3
        invariant |r| == 9
        invariant forall i', j' :: 0 <= i' < i && 0 <= j' < 3 ==> r[i' + 3 * j'] == a[i'] * b[j']
        invariant forall j' :: 0 <= j' < j ==> r[i + 3 * j'] == a[i] * b[j']
      {
        r := r[i + 3 * j := a[i] * b[j]];
      }
    }
    TensorOfEntries3(r, a, b);
  }

  /** A vector holding a(i) * b(j) at i + 3j is the tensor product a (x) b. */
  lemma TensorOfEntries3(r: Vector, a: Vector, b: Vector)
    requires |a| == |b| == 3 && |r| == 9
    requires forall i, j :: 0 <= i < 3 && 0 <= j < 3 ==> r[i + 3 * j] == a[i] * b[j]
    ensures r == Tensor3(a, b)
  {
    forall n | 0 <= n < 9
      ensures r[n] == Tensor3(a, b)[n]
    {
      var i, j := n % 3, n / 3;
      assert n == i + 3 * j;
      Tensor3At(a, b, i, j);
    }
  }

  /** The product of two 1-D stencils of length 5: result(i + j*5) = a(i) * b(j). */
  method StencilProduct5x5(a: Vector, b: Vector) returns (r: Vector)
    requires |a| == |b| == 5
    ensures |r| == 25
    ensures forall i, j :: 0 <= i < 5 && 0 <= j < 5 ==> r[i + 5 * j] == a[i] * b[j]
    ensures r == Tensor5(a, b)
  {
    r := Zeros(25);
    for i := 0 to 5
      invariant |r| == 25
      invariant forall i', j' :: 0 <= i' < i && 0 <= j' < 5 ==> r[i' + 5 * j'] == a[i'] * b[j']
    {
      for j := 0 to 5
        invariant |r| == 25
        invariant forall i', j' :: 0 <= i' < i && 0 <= j' < 5 ==> r[i' + 5 * j'] == a[i'] * b[j']
        invariant forall j' :: 0 <= j' < j ==> r[i + 5 * j'] == a[i] * b[j']
      {
        r := r[i + 5 * j := a[i] * b[j]];
      }
    }
    TensorOfEntries5(r, a, b);
  }

  /** A vector holding a(i) * b(j) at i + 5j is the tensor product a (x) b. */
  lemma TensorOfEntries5(r: Vector, a: Vector, b: Vector)
    requires |a| == |b| == 5 && |r| == 25
    requires forall i, j :: 0 <= i < 5 && 0 <= j < 5 ==> r[i + 5 * j] == a[i] * b[j]
    ensures r == Tensor5(a, b)
  {
    forall n | 0 <= n < 25
      ensures r[n] == Tensor5(a, b)[n]
    {
      var i, j := n % 5, n / 5;
      assert n == i + 5 * j;
    }
  }

  /** The entry a(i) * b(j) * c(k) of a three-operand product. */
  function Triple(a: Vector, b: Vector, c: Vector, i: int, j: int, k: int): real
    requires 0 <= i < |a| && 0 <= j < |b| && 0 <= k < |c|
  {
    a[i] * b[j] * c[k]
  }

  /** Entries (i', j', k') before (i, j, k) in loop order (i slowest, k fastest) hold a(i') b(j') c(k'). */
  predicate Filled3(r: Vector, a: Vector, b: Vector, c: Vector, i: int, j: int, k: int)
    requires |r| == 27 && |a| == |b| == |c| == 3
  {
    forall i', j', k' ::
      (0 <= i' < 3 && 0 <= j' < 3 && 0 <= k' < 3 && (i' < i || (i' == i && (j' < j || (j' == j && k' < k))))) ==>
      r[i' + 3 * j' + 9 * k'] == Triple(a, b, c, i', j', k')
  }

  lemma Filled3Step(r: Vector, a: Vector, b: Vector, c: Vector, i: int, j: int, k: int)
    requires |r| == 27 && |a| == |b| == |c| == 3
    requires 0 <= i < 3 && 0 <= j < 3 && 0 <= k < 3 && Filled3(r, a, b, c, i, j, k)
    ensures Filled3(r[i + 3 * j + 9 * k := Triple(a, b, c, i, j, k)], a, b, c, i, j, k + 1)
  {
  }

  lemma Filled3Carry(r: Vector, a: Vector, b: Vector, c: Vector, i: int, j: int)
    requires |r| == 27 && |a| == |b| == |c| == 3
    ensures Filled3(r, a, b, c, i, j, 3) ==> Filled3(r, a, b, c, i, j + 1, 0)
    ensures Filled3(r, a, b, c, i, 3, 0) ==> Filled3(r, a, b, c, i + 1, 0, 0)
  {
  }

  lemma Filled3Complete(r: Vector, a: Vector, b: Vector, c: Vector)
    requires |r| == 27 && |a| == |b| == |c| == 3 && Filled3(r, a, b, c, 3, 0, 0)
    ensures forall i, j, k :: 0 <= i < 3 && 0 <= j < 3 && 0 <= k < 3 ==>
      r[i + 3 * j + 9 * k] == a[i] * b[j] * c[k]
  {
    forall i, j, k | 0 <= i < 3 && 0 <= j < 3 && 0 <= k < 3
      ensures r[i + 3 * j + 9 * k] == a[i] * b[j] * c[k]
    {
      assert r[i + 3 * j + 9 * k] == Triple(a, b, c, i, j, k);
    }
  }

  /** A 3^3 patch holding a(i) b(j) c(k) at every digit triple is a (x) (b (x) c). */
  lemma TensorOfTensor3(r: Vector, a: Vector, b: Vector, c: Vector)
    requires |r| == 27 && |a| == |b| == |c| == 3
    requires forall i, j, k :: 0 <= i < 3 && 0 <= j < 3 && 0 <= k < 3 ==>
      r[i + 3 * j + 9 * k] == a[i] * b[j] * c[k]
    ensures r == Tensor3(a, Tensor3(b, c))
  {
    var bc := Tensor3(b, c);
    forall n | 0 <= n < 27
      ensures r[n] == Tensor3(a, bc)[n]
    {
      var i, m := n % 3, n / 3;
      var j, k := m % 3, m / 3;
      assert n == i + 3 * j + 9 * k;
      assert r[i + 3 * j + 9 * k] == a[i] * b[j] * c[k];
    }
  }

  /**
   * The product of three 1-D stencils of length 3:
   * result(i + j*3 + k*9) = a(i) * b(j) * c(k), which is a (x) (b (x) c).
   */
  method StencilProduct3x3x3(a: Vector, b: Vector, c: Vector) returns (r: Vector)
    requires |a| == |b| == |c| == 3
    ensures |r| == 27
    ensures forall i, j, k :: 0 <= i < 3 && 0 <= j < 3 && 0 <= k < 3 ==>
      r[i + 3 * j + 9 * k] == a[i] * b[j] * c[k]
    ensures r == Tensor3(a, Tensor3(b, c))
  {
    r := Zeros(27);
    for i := 0 to 3
      invariant |r| == 27 && Filled3(r, a, b, c, i, 0, 0)
    {
      for j := 0 to 3
        invariant |r| == 27 && Filled3(r, a, b, c, i, j, 0)
      {
        for k := 0 to 3
          invariant |r| == 27 && Filled3(r, a, b, c, i, j, k)
        {
          Filled3Step(r, a, b, c, i, j, k);
          r := r[i + 3 * j + 9 * k := Triple(a, b, c, i, j, k)];
        }
        Filled3Carry(r, a, b, c, i, j);
      }
      Filled3Carry(r, a, b, c, i, 3);
    }
    Filled3Complete(r, a, b, c);
    TensorOfTensor3(r, a, b, c);
  }

  /** Entries (i', j', k') before (i, j, k) in loop order (i slowest, k fastest) hold a(i') b(j') c(k'). */
  predicate Filled5(r: Vector, a: Vector, b: Vector, c: Vector, i: int, j: int, k: int)
    requires |r| == 125 && |a| == |b| == |c| == 5
  {
    forall i', j', k' ::
      (0 <= i' < 5 && 0 <= j' < 5 && 0 <= k' < 5 && (i' < i || (i' == i && (j' < j || (j' == j && k' < k))))) ==>
      r[i' + 5 * j' + 25 * k'] == Triple(a, b, c, i', j', k')
  }

  lemma Filled5Step(r: Vector, a: Vector, b: Vector, c: Vector, i: int, j: int, k: int)
    requires |r| == 125 && |a| == |b| == |c| == 5
    requires 0 <= i < 5 && 0 <= j < 5 && 0 <= k < 5 && Filled5(r, a, b, c, i, j, k)
    ensures Filled5(r[i + 5 * j + 25 * k := Triple(a, b, c, i, j, k)], a, b, c, i, j, k + 1)
  {
    var r' := r[i + 5 * j + 25 * k := Triple(a, b, c, i, j, k)];
    forall i', j', k' | 0 <= i' < 5 && 0 <= j' < 5 && 0 <= k' < 5 && (i' < i || (i' == i && (j' < j || (j' == j && k' < k + 1))))
      ensures r'[i' + 5 * j' + 25 * k'] == Triple(a, b, c, i', j', k')
    {
      if i' != i || j' != j || k' != k {
        DistinctIndices5(i, j, k, i', j', k');
      }
    }
  }

  lemma DistinctIndices5(i: int, j: int, k: int, i': int, j': int, k': int)
    requires 0 <= i < 5 && 0 <= j < 5 && 0 <= k < 5 && 0 <= i' < 5 && 0 <= j' < 5 && 0 <= k' < 5
    requires i' != i || j' != j || k' != k
    ensures i' + 5 * j' + 25 * k' != i + 5 * j + 25 * k
  {
  }

  lemma Filled5Carry(r: Vector, a: Vector, b: Vector, c: Vector, i: int, j: int)
    requires |r| == 125 && |a| == |b| == |c| == 5
    ensures Filled5(r, a, b, c, i, j, 5) ==> Filled5(r, a, b, c, i, j + 1, 0)
    ensures Filled5(r, a, b, c, i, 5, 0) ==> Filled5(r, a, b, c, i + 1, 0, 0)
  {
  }

  lemma Filled5Complete(r: Vector, a: Vector, b: Vector, c: Vector)
    requires |r| == 125 && |a| == |b| == |c| == 5 && Filled5(r, a, b, c, 5, 0, 0)
    ensures forall i, j, k :: 0 <= i < 5 && 0 <= j < 5 && 0 <= k < 5 ==>
      r[i + 5 * j + 25 * k] == a[i] * b[j] * c[k]
  {
    forall i, j, k | 0 <= i < 5 && 0 <= j < 5 && 0 <= k < 5
      ensures r[i + 5 * j + 25 * k] == a[i] * b[j] * c[k]
    {
      assert r[i + 5 * j + 25 * k] == Triple(a, b, c, i, j, k);
    }
  }

  /** A 5^3 patch holding a(i) b(j) c(k) at every digit triple is a (x) (b (x) c). */
  lemma TensorOfTensor5(r: Vector, a: Vector, b: Vector, c: Vector)
    requires |r| == 125 && |a| == |b| == |c| == 5
    requires forall i, j, k :: 0 <= i < 5 && 0 <= j < 5 && 0 <= k < 5 ==>
      r[i + 5 * j + 25 * k] == a[i] * b[j] * c[k]
    ensures r == Tensor5(a, Tensor5(b, c))
  {
    var bc := Tensor5(b, c);
    forall n | 0 <= n < 125
      ensures r[n] == Tensor5(a, bc)[n]
    {
      var i, m := n % 5, n / 5;
      var j, k := m % 5, m / 5;
      assert n == i + 5 * j + 25 * k;
      assert r[i + 5 * j + 25 * k] == a[i] * b[j] * c[k];
    }
  }

  /**
   * The product of three 1-D stencils of length 5:
   * result(i + j*5 + k*25) = a(i) * b(j) * c(k), which is a (x) (b (x) c).
   */
  method StencilProduct5x5x5(a: Vector, b: Vector, c: Vector) returns (r: Vector)
    requires |a| == |b| == |c| == 5
    ensures |r| == 125
    ensures forall i, j, k :: 0 <= i < 5 && 0 <= j < 5 && 0 <= k < 5 ==>
      r[i + 5 * j + 25 * k] == a[i] * b[j] * c[k]
    ensures r == Tensor5(a, Tensor5(b, c))
  {
    r := Zeros(125);
    for i := 0 to 5
      invariant |r| == 125 && Filled5(r, a, b, c, i, 0, 0)
    {
      for j := 0 to 5
        invariant |r| == 125 && Filled5(r, a, b, c, i, j, 0)
      {
        for k := 0 to 5
          invariant |r| == 125 && Filled5(r, a, b, c, i, j, k)
        {
          Filled5Step(r, a, b, c, i, j, k);
          r := r[i + 5 * j + 25 * k := Triple(a, b, c, i, j, k)];
        }
        Filled5Carry(r, a, b, c, i, j);
      }
      Filled5Carry(r, a, b, c, i, 5);
    }
    Filled5Complete(r, a, b, c);
    TensorOfTensor5(r, a, b, c);
  }

  // ---------------------------------------------------------------------
  // Coordinate exchange
  // ---------------------------------------------------------------------

  /** The coordinate v with its components c0 and c1 swapped. */
  function Swapped(v: seq<int>, c0: int, c1: int): (w: seq<int>)
    requires 0 <= c0 < |v| && 0 <= c1 < |v|
    ensures |w| == |v| && w[c0] == v[c1] && w[c1] == v[c0]
    ensures forall d :: 0 <= d < |v| && d != c0 && d != c1 ==> w[d] == v[d]
  {
    v[c0 := v[c1]][c1 := v[c0]]
  }

  /**
   * The linear index of the offset that destination entry n reads from: n's
   * offset with coordinates c0 and c1 swapped. In two dimensions a proper
   * exchange transposes the 3 x 3 stencil.
   */
  function SourceIndex(n: int, c0: int, c1: int): (m: int)
    requires 0 <= n < THREE_POWER_D && 0 <= c0 < DIMENSIONS && 0 <= c1 < DIMENSIONS
    ensures 0 <= m < THREE_POWER_D
    ensures m == if c0 == c1 then n else n / 3 + 3 * (n % 3)
  {
    StencilCoordinateComponents(n);
    var v := StencilCoordinate(n);
    assert c0 == c1 ==> Swapped(v, c0, c1) == v;
    assert c0 != c1 ==> Swapped(v, c0, c1) == [n / 3, n % 3];
    Linearised2(n / 3, n % 3, 3);
    Linearised(Swapped(v, c0, c1), 3)
  }

  /** Entry n of the result is the entry of s at n's offset with coordinates c0 and c1 swapped. */
  function Exchanged(s: Vector, c0: int, c1: int): (r: Vector)
    requires |s| == THREE_POWER_D && 0 <= c0 < DIMENSIONS && 0 <= c1 < DIMENSIONS
    ensures |r| == THREE_POWER_D
  {
    seq(THREE_POWER_D, n requires 0 <= n < THREE_POWER_D => s[SourceIndex(n, c0, c1)])
  }

  /**
   * exchangeCoordinates: walks over all destination offsets in {0,1,2}^d and
   * copies the entry at the offset with coordinates coord0 and coord1 swapped.
   */
  method ExchangeCoordinates(s: Vector, coord0: int, coord1: int) returns (r: Vector)
    requires |s| == THREE_POWER_D && 0 <= coord0 < DIMENSIONS && 0 <= coord1 < DIMENSIONS
    ensures |r| == THREE_POWER_D
    ensures r == Exchanged(s, coord0, coord1)
  {
    r := Zeros(THREE_POWER_D);
    for n := 0 to THREE_POWER_D
      invariant |r| == THREE_POWER_D
      invariant forall m :: 0 <= m < n ==> r[m] == Exchanged(s, coord0, coord1)[m]
    {
      var destination := StencilCoordinate(n);
      var source := destination;
      source := source[coord0 := destination[coord1]];
      source := source[coord1 := destination[coord0]];
      StencilCoordinateComponents(n);
      assert Linearised(source, 3) == SourceIndex(n, coord0, coord1);
      r := r[Linearised(destination, 3) := s[Linearised(source, 3)]];
    }
  }

  /** Exchanging twice restores the stencil. */
  lemma ExchangeInvolution(s: Vector, c0: int, c1: int)
    requires |s| == THREE_POWER_D && 0 <= c0 < DIMENSIONS && 0 <= c1 < DIMENSIONS
    ensures Exchanged(Exchanged(s, c0, c1), c0, c1) == s
  {
    var e := Exchanged(s, c0, c1);
    forall n | 0 <= n < THREE_POWER_D
      ensures Exchanged(e, c0, c1)[n] == s[n]
    {
      var m := SourceIndex(n, c0, c1);
      if c0 != c1 {
        DivModOfDigit(n / 3, n % 3, 3);
        assert m / 3 == n % 3 && m % 3 == n / 3;
      }
      assert SourceIndex(m, c0, c1) == n;
    }
  }

  /** Exchanging a coordinate with itself changes nothing, and the order of the two coordinates does not matter. */
  lemma ExchangeTrivialCases(s: Vector, c0: int, c1: int)
    requires |s| == THREE_POWER_D && 0 <= c0 < DIMENSIONS && 0 <= c1 < DIMENSIONS
    ensures Exchanged(s, c0, c0) == s
    ensures Exchanged(s, c0, c1) == Exchanged(s, c1, c0)
  {
    forall n | 0 <= n < THREE_POWER_D
      ensures Exchanged(s, c0, c0)[n] == s[n] && Exchanged(s, c0, c1)[n] == Exchanged(s, c1, c0)[n]
    {
      assert SourceIndex(n, c0, c1) == SourceIndex(n, c1, c0);
    }
  }

  /** Exchanging the two coordinates of a tensor-product stencil swaps its factors. */
  lemma ExchangeOfProduct(a: Vector, b: Vector)
    requires |a| == |b| == 3
    ensures Exchanged(Tensor3(a, b), 0, 1) == Tensor3(b, a)
  {
    forall n | 0 <= n < THREE_POWER_D
      ensures Exchanged(Tensor3(a, b), 0, 1)[n] == Tensor3(b, a)[n]
    {
      var i, j := n % 3, n / 3;
      assert n == i + 3 * j;
      assert SourceIndex(n, 0, 1) == j + 3 * i;
      Tensor3At(a, b, j, i);
      Tensor3At(b, a, i, j);
    }
  }

  // ---------------------------------------------------------------------
  // d-dimensional stencils (d = 2)
  // ---------------------------------------------------------------------

  /** Point reflection of a stencil: offset o becomes 2 - o in every coordinate. */
  function Mirrored(s: Vector): (r: Vector)
    requires |s| == THREE_POWER_D
    ensures |r| == THREE_POWER_D
  {
    seq(THREE_POWER_D, n requires 0 <= n < THREE_POWER_D => s[THREE_POWER_D - 1 - n])
  }

  /** A 3 x 3 tensor product is three scaled copies of its first factor, one per row. */
  lemma TensorRows3(a: Vector, b: Vector)
    requires |a| == |b| == 3
    ensures Tensor3(a, b) == ScaleVector(a, b[0]) + ScaleVector(a, b[1]) + ScaleVector(a, b[2])
  {
    var p := Tensor3(a, b);
    var q := ScaleVector(a, b[0]) + ScaleVector(a, b[1]) + ScaleVector(a, b[2]);
    forall n | 0 <= n < 9
      ensures p[n] == q[n]
    {
      var i, j := n % 3, n / 3;
      Tensor3At(a, b, i, j);
      assert n == i + 3 * j;
      assert q[n] == b[j] * a[i];
    }
    assert p == q;
  }

  /** Summing a 3 x 3 tensor product row by row. */
  lemma SumOfRows3(a: Vector, b: Vector)
    requires |a| == |b| == 3
    ensures Sum(Tensor3(a, b)) == Sum(ScaleVector(a, b[0])) + Sum(ScaleVector(a, b[1])) + Sum(ScaleVector(a, b[2]))
  {
    var r0, r1, r2 := ScaleVector(a, b[0]), ScaleVector(a, b[1]), ScaleVector(a, b[2]);
    TensorRows3(a, b);
    SumAppend(r0 + r1, r2);
    SumAppend(r0, r1);
  }

  /** The entries of a 3 x 3 tensor product add up to the product of the factors' sums. */
  lemma SumOfProduct(a: Vector, b: Vector)
    requires |a| == |b| == 3
    ensures Sum(Tensor3(a, b)) == Sum(a) * Sum(b)
  {
    SumOfRows3(a, b);
    SumScale(a, b[0]); SumScale(a, b[1]); SumScale(a, b[2]);
    Sum3(b);
    Distribute3(b[0], b[1], b[2], Sum(a));
  }

  lemma Distribute3(x0: real, x1: real, x2: real, s: real)
    ensures x0 * s + x1 * s + x2 * s == s * (x0 + x1 + x2)
  {
  }

  /** A tensor product of two symmetric 1-D stencils is point symmetric. */
  lemma MirroredProduct(a: Vector, b: Vector)
    requires |a| == |b| == 3 && a[0] == a[2] && b[0] == b[2]
    ensures Mirrored(Tensor3(a, b)) == Tensor3(a, b)
  {
    var p := Tensor3(a, b);
    forall n | 0 <= n < 9
      ensures Mirrored(p)[n] == p[n]
    {
      assert (8 - n) % 3 == 2 - n % 3 && (8 - n) / 3 == 2 - n / 3;
      assert a[2 - n % 3] == a[n % 3] && b[2 - n / 3] == b[n / 3];
    }
  }

  /** The Laplacian of a 2-D cell with mesh widths h, scaled with a material coefficient. */
  function GetLaplacian(scaling: real, h: Vector): (r: Vector)
    requires |h| == DIMENSIONS && h[0] > 0.0 && h[1] > 0.0
    ensures |r| == THREE_POWER_D
  {
    ScaleVector(
      Add(Tensor3(Get1DLaplaceStencil(h[0]), Get1DMassStencil(h[1])),
          Tensor3(Get1DMassStencil(h[0]), Get1DLaplaceStencil(h[1]))),
      scaling)
  }

  /** The Laplacian with one material coefficient per direction. */
  function GetAnisotropicLaplacian(scaling: Vector, h: Vector): (r: Vector)
    requires |scaling| == DIMENSIONS
    requires |h| == DIMENSIONS && h[0] > 0.0 && h[1] > 0.0
    ensures |r| == THREE_POWER_D
  {
    Add(ScaleVector(Tensor3(Get1DLaplaceStencil(h[0]), Get1DMassStencil(h[1])), scaling[0]),
        ScaleVector(Tensor3(Get1DMassStencil(h[0]), Get1DLaplaceStencil(h[1])), scaling[1]))
  }

  /** The mass stencil of an h0 x h1 cell. */
  function GetMassMatrix(h: Vector): (r: Vector)
    requires |h| == DIMENSIONS
    ensures |r| == THREE_POWER_D
  {
    Tensor3(Get1DMassStencil(h[0]), Get1DMassStencil(h[1]))
  }

  /** The identity stencil scaled with the cell volume: only the vertex itself has weight h0 * h1. */
  function GetIdentity(h: Vector): (r: Vector)
    requires |h| == DIMENSIONS
    ensures |r| == THREE_POWER_D
    ensures r[4] == h[0] * h[1]
    ensures forall n :: 0 <= n < THREE_POWER_D && n != 4 ==> r[n] == 0.0
  {
    ScaleVector(ScaleVector(Tensor3(Get1DIdentityWithoutHScaling(), Get1DIdentityWithoutHScaling()), h[0]), h[1])
  }

  /** Weights of the d-linear interpolation from a coarse vertex onto the 5^d fine vertices around it. */
  function GetDLinearInterpolation(): (r: Vector)
    ensures |r| == FIVE_POWER_D
  {
    Tensor5(Get1DLinearInterpolationStencil(), Get1DLinearInterpolationStencil())
  }

  /** Entry (i, j) of s * (a (x) b + c (x) d). */
  lemma SumOfProductsAt(a: Vector, b: Vector, c: Vector, d: Vector, scaling: real, i: int, j: int)
    requires |a| == |b| == |c| == |d| == 3 && 0 <= i < 3 && 0 <= j < 3
    ensures ScaleVector(Add(Tensor3(a, b), Tensor3(c, d)), scaling)[i + 3 * j] == scaling * (a[i] * b[j] + c[i] * d[j])
  {
    Tensor3At(a, b, i, j);
    Tensor3At(c, d, i, j);
  }

  // With x = h1/h0 and y = h0/h1 the Laplacian's entries have closed forms;
  // the mirrored entries follow from LaplacianSymmetric.

  /** The weight of the vertex itself: 4/3 (x + y), the diagonal a Jacobi smoother divides by. */
  lemma LaplacianCentre(scaling: real, h: Vector)
    requires |h| == DIMENSIONS && h[0] > 0.0 && h[1] > 0.0
    ensures var x, y := h[1] / h[0], h[0] / h[1];
      GetLaplacian(scaling, h)[4] == scaling * (4.0 / 3.0 * (x + y))
  {
    SumOfProductsAt(Get1DLaplaceStencil(h[0]), Get1DMassStencil(h[1]), Get1DMassStencil(h[0]), Get1DLaplaceStencil(h[1]), scaling, 1, 1);
  }

  /** The weight of the left neighbour along the first axis: (y - 2x)/3. */
  lemma LaplacianFirstAxisNeighbour(scaling: real, h: Vector)
    requires |h| == DIMENSIONS && h[0] > 0.0 && h[1] > 0.0
    ensures var x, y := h[1] / h[0], h[0] / h[1];
      GetLaplacian(scaling, h)[3] == scaling * ((y - 2.0 * x) / 3.0)
  {
    SumOfProductsAt(Get1DLaplaceStencil(h[0]), Get1DMassStencil(h[1]), Get1DMassStencil(h[0]), Get1DLaplaceStencil(h[1]), scaling, 0, 1);
  }

  /** The weight of the lower neighbour along the second axis: (x - 2y)/3. */
  lemma LaplacianSecondAxisNeighbour(scaling: real, h: Vector)
    requires |h| == DIMENSIONS && h[0] > 0.0 && h[1] > 0.0
    ensures var x, y := h[1] / h[0], h[0] / h[1];
      GetLaplacian(scaling, h)[1] == scaling * ((x - 2.0 * y) / 3.0)
  {
    SumOfProductsAt(Get1DLaplaceStencil(h[0]), Get1DMassStencil(h[1]), Get1DMassStencil(h[0]), Get1DLaplaceStencil(h[1]), scaling, 1, 0);
  }

  /** The weight of the lower left diagonal neighbour: -(x + y)/6. */
  lemma LaplacianDiagonalNeighbour(scaling: real, h: Vector)
    requires |h| == DIMENSIONS && h[0] > 0.0 && h[1] > 0.0
    ensures var x, y := h[1] / h[0], h[0] / h[1];
      GetLaplacian(scaling, h)[0] == scaling * (-(x + y) / 6.0)
  {
    SumOfProductsAt(Get1DLaplaceStencil(h[0]), Get1DMassStencil(h[1]), Get1DMassStencil(h[0]), Get1DLaplaceStencil(h[1]), scaling, 0, 0);
  }

  /** Entry (i, j) of s0 * (a (x) b) + s1 * (c (x) d). */
  lemma WeightedProductsAt(a: Vector, b: Vector, c: Vector, d: Vector, s0: real, s1: real, i: int, j: int)
    requires |a| == |b| == |c| == |d| == 3 && 0 <= i < 3 && 0 <= j < 3
    ensures Add(ScaleVector(Tensor3(a, b), s0), ScaleVector(Tensor3(c, d), s1))[i + 3 * j] == s0 * (a[i] * b[j]) + s1 * (c[i] * d[j])
  {
    Tensor3At(a, b, i, j);
    Tensor3At(c, d, i, j);
  }

  /** The mass stencil weighs the vertex with 4/9, its four axis neighbours with 1/9 and its diagonal neighbours with 1/36 of the cell volume. */
  lemma MassMatrixEntries(h: Vector)
    requires |h| == DIMENSIONS
    ensures var m, v := GetMassMatrix(h), h[0] * h[1];
      && m[4] == 4.0 / 9.0 * v
      && m[1] == m[3] == m[5] == m[7] == v / 9.0
      && m[0] == m[2] == m[6] == m[8] == v / 36.0
  {
    MassProductEntries(Get1DMassStencil(h[0]), Get1DMassStencil(h[1]), h[0], h[1]);
  }

  /** Entries of the product of two stencils shaped like the 1-D mass stencil, with totals h0 and h1. */
  lemma MassProductEntries(a: Vector, b: Vector, h0: real, h1: real)
    requires |a| == |b| == 3
    requires a[0] == a[2] && a[1] == 4.0 * a[0] && a[0] + a[1] + a[2] == h0
    requires b[0] == b[2] && b[1] == 4.0 * b[0] && b[0] + b[1] + b[2] == h1
    ensures var m, v := Tensor3(a, b), h0 * h1;
      && m[4] == 4.0 / 9.0 * v
      && m[1] == m[3] == m[5] == m[7] == v / 9.0
      && m[0] == m[2] == m[6] == m[8] == v / 36.0
  {
    assert a[0] == h0 / 6.0 && b[0] == h1 / 6.0;
    Tensor3At(a, b, 1, 1);
    Tensor3At(a, b, 1, 0); Tensor3At(a, b, 0, 1); Tensor3At(a, b, 2, 1); Tensor3At(a, b, 1, 2);
    Tensor3At(a, b, 0, 0); Tensor3At(a, b, 2, 0); Tensor3At(a, b, 0, 2); Tensor3At(a, b, 2, 2);
  }

  /** The Laplacian annihilates constants: its entries add up to zero. */
  lemma LaplacianAnnihilatesConstants(scaling: real, h: Vector)
    requires |h| == DIMENSIONS && h[0] > 0.0 && h[1] > 0.0
    ensures Sum(GetLaplacian(scaling, h)) == 0.0
  {
    var l0, m1 := Get1DLaplaceStencil(h[0]), Get1DMassStencil(h[1]);
    var m0, l1 := Get1DMassStencil(h[0]), Get1DLaplaceStencil(h[1]);
    Sum3(l0); Sum3(m1); Sum3(m0); Sum3(l1);
    SumOfProduct(l0, m1);
    SumOfProduct(m0, l1);
    SumAdd(Tensor3(l0, m1), Tensor3(m0, l1));
    SumScale(Add(Tensor3(l0, m1), Tensor3(m0, l1)), scaling);
  }

  lemma AnisotropicLaplacianAnnihilatesConstants(scaling: Vector, h: Vector)
    requires |scaling| == DIMENSIONS
    requires |h| == DIMENSIONS && h[0] > 0.0 && h[1] > 0.0
    ensures Sum(GetAnisotropicLaplacian(scaling, h)) == 0.0
  {
    var l0, m1 := Get1DLaplaceStencil(h[0]), Get1DMassStencil(h[1]);
    var m0, l1 := Get1DMassStencil(h[0]), Get1DLaplaceStencil(h[1]);
    Sum3(l0); Sum3(m1); Sum3(m0); Sum3(l1);
    SumOfProduct(l0, m1);
    SumOfProduct(m0, l1);
    SumScale(Tensor3(l0, m1), scaling[0]);
    SumScale(Tensor3(m0, l1), scaling[1]);
    SumAdd(ScaleVector(Tensor3(l0, m1), scaling[0]), ScaleVector(Tensor3(m0, l1), scaling[1]));
  }

  /** With the same coefficient in every direction both Laplacians coincide. */
  lemma IsotropicLaplacianAgrees(scaling: real, h: Vector)
    requires |h| == DIMENSIONS && h[0] > 0.0 && h[1] > 0.0
    ensures GetAnisotropicLaplacian([scaling, scaling], h) == GetLaplacian(scaling, h)
  {
    ScaleDistributes(Tensor3(Get1DLaplaceStencil(h[0]), Get1DMassStencil(h[1])),
                     Tensor3(Get1DMassStencil(h[0]), Get1DLaplaceStencil(h[1])), scaling);
  }

  /** s * (a (x) b + c (x) d) is point symmetric when all four factors are symmetric. */
  lemma MirroredSumOfProducts(a: Vector, b: Vector, c: Vector, d: Vector, scaling: real)
    requires |a| == |b| == |c| == |d| == 3
    requires a[0] == a[2] && b[0] == b[2] && c[0] == c[2] && d[0] == d[2]
    ensures Mirrored(ScaleVector(Add(Tensor3(a, b), Tensor3(c, d)), scaling)) == ScaleVector(Add(Tensor3(a, b), Tensor3(c, d)), scaling)
  {
    var s := ScaleVector(Add(Tensor3(a, b), Tensor3(c, d)), scaling);
    forall n | 0 <= n < 9
      ensures Mirrored(s)[n] == s[n]
    {
      var i, j := n % 3, n / 3;
      assert n == i + 3 * j && 8 - n == (2 - i) + 3 * (2 - j);
      MirroredSumOfProductsAt(a, b, c, d, scaling, i, j);
    }
  }

  lemma MirroredSumOfProductsAt(a: Vector, b: Vector, c: Vector, d: Vector, scaling: real, i: int, j: int)
    requires |a| == |b| == |c| == |d| == 3 && 0 <= i < 3 && 0 <= j < 3
    requires a[0] == a[2] && b[0] == b[2] && c[0] == c[2] && d[0] == d[2]
    ensures ScaleVector(Add(Tensor3(a, b), Tensor3(c, d)), scaling)[(2 - i) + 3 * (2 - j)] == ScaleVector(Add(Tensor3(a, b), Tensor3(c, d)), scaling)[i + 3 * j]
  {
    SumOfProductsAt(a, b, c, d, scaling, i, j);
    SumOfProductsAt(a, b, c, d, scaling, 2 - i, 2 - j);
    assert a[2 - i] == a[i] && c[2 - i] == c[i] && b[2 - j] == b[j] && d[2 - j] == d[j];
  }

  /** The Laplacian is point symmetric. */
  lemma LaplacianSymmetric(scaling: real, h: Vector)
    requires |h| == DIMENSIONS && h[0] > 0.0 && h[1] > 0.0
    ensures Mirrored(GetLaplacian(scaling, h)) == GetLaplacian(scaling, h)
  {
    MirroredSumOfProducts(Get1DLaplaceStencil(h[0]), Get1DMassStencil(h[1]), Get1DMassStencil(h[0]), Get1DLaplaceStencil(h[1]), scaling);
  }

  /** Exchanging the coordinates of s * (a (x) b + c (x) d) gives s * (d (x) c + b (x) a). */
  lemma ExchangedSumOfProducts(a: Vector, b: Vector, c: Vector, d: Vector, scaling: real)
    requires |a| == |b| == |c| == |d| == 3
    ensures Exchanged(ScaleVector(Add(Tensor3(a, b), Tensor3(c, d)), scaling), 0, 1) == ScaleVector(Add(Tensor3(d, c), Tensor3(b, a)), scaling)
  {
    var s := ScaleVector(Add(Tensor3(a, b), Tensor3(c, d)), scaling);
    var t := ScaleVector(Add(Tensor3(d, c), Tensor3(b, a)), scaling);
    forall n | 0 <= n < THREE_POWER_D
      ensures Exchanged(s, 0, 1)[n] == t[n]
    {
      var i, j := n % 3, n / 3;
      assert SourceIndex(n, 0, 1) == j + 3 * i;
      SumOfProductsAt(a, b, c, d, scaling, j, i);
      SumOfProductsAt(d, c, b, a, scaling, i, j);
      assert n == i + 3 * j;
    }
  }

  /** Rotating the Laplacian of an h0 x h1 cell gives the Laplacian of the h1 x h0 cell. */
  lemma LaplacianRotation(scaling: real, h0: real, h1: real)
    requires h0 > 0.0 && h1 > 0.0
    ensures Exchanged(GetLaplacian(scaling, [h0, h1]), 0, 1) == GetLaplacian(scaling, [h1, h0])
  {
    ExchangedSumOfProducts(Get1DLaplaceStencil(h0), Get1DMassStencil(h1), Get1DMassStencil(h0), Get1DLaplaceStencil(h1), scaling);
  }

  /** s0 * (a (x) b) + s1 * (c (x) d) is point symmetric when all four factors are symmetric. */
  lemma MirroredWeightedProducts(a: Vector, b: Vector, c: Vector, d: Vector, s0: real, s1: real)
    requires |a| == |b| == |c| == |d| == 3
    requires a[0] == a[2] && b[0] == b[2] && c[0] == c[2] && d[0] == d[2]
    ensures var s := Add(ScaleVector(Tensor3(a, b), s0), ScaleVector(Tensor3(c, d), s1));
      Mirrored(s) == s
  {
    var s := Add(ScaleVector(Tensor3(a, b), s0), ScaleVector(Tensor3(c, d), s1));
    forall n | 0 <= n < 9
      ensures Mirrored(s)[n] == s[n]
    {
      var i, j := n % 3, n / 3;
      assert n == i + 3 * j && 8 - n == (2 - i) + 3 * (2 - j);
      MirroredWeightedProductsAt(a, b, c, d, s0, s1, i, j);
    }
  }

  lemma MirroredWeightedProductsAt(a: Vector, b: Vector, c: Vector, d: Vector, s0: real, s1: real, i: int, j: int)
    requires |a| == |b| == |c| == |d| == 3 && 0 <= i < 3 && 0 <= j < 3
    requires a[0] == a[2] && b[0] == b[2] && c[0] == c[2] && d[0] == d[2]
    ensures var s := Add(ScaleVector(Tensor3(a, b), s0), ScaleVector(Tensor3(c, d), s1));
      s[(2 - i) + 3 * (2 - j)] == s[i + 3 * j]
  {
    WeightedProductsAt(a, b, c, d, s0, s1, i, j);
    WeightedProductsAt(a, b, c, d, s0, s1, 2 - i, 2 - j);
    assert a[2 - i] == a[i] && c[2 - i] == c[i] && b[2 - j] == b[j] && d[2 - j] == d[j];
  }

  /** The anisotropic Laplacian is point symmetric. */
  lemma AnisotropicLaplacianSymmetric(scaling: Vector, h: Vector)
    requires |scaling| == DIMENSIONS
    requires |h| == DIMENSIONS && h[0] > 0.0 && h[1] > 0.0
    ensures Mirrored(GetAnisotropicLaplacian(scaling, h)) == GetAnisotropicLaplacian(scaling, h)
  {
    MirroredWeightedProducts(Get1DLaplaceStencil(h[0]), Get1DMassStencil(h[1]), Get1DMassStencil(h[0]), Get1DLaplaceStencil(h[1]), scaling[0], scaling[1]);
  }

  /** Exchanging the coordinates of s0 * (a (x) b) + s1 * (c (x) d) gives s1 * (d (x) c) + s0 * (b (x) a). */
  lemma ExchangedWeightedProducts(a: Vector, b: Vector, c: Vector, d: Vector, s0: real, s1: real)
    requires |a| == |b| == |c| == |d| == 3
    ensures Exchanged(Add(ScaleVector(Tensor3(a, b), s0), ScaleVector(Tensor3(c, d), s1)), 0, 1)
      == Add(ScaleVector(Tensor3(d, c), s1), ScaleVector(Tensor3(b, a), s0))
  {
    var s := Add(ScaleVector(Tensor3(a, b), s0), ScaleVector(Tensor3(c, d), s1));
    var t := Add(ScaleVector(Tensor3(d, c), s1), ScaleVector(Tensor3(b, a), s0));
    forall n | 0 <= n < THREE_POWER_D
      ensures Exchanged(s, 0, 1)[n] == t[n]
    {
      var i, j := n % 3, n / 3;
      assert SourceIndex(n, 0, 1) == j + 3 * i;
      WeightedProductsAt(a, b, c, d, s0, s1, j, i);
      WeightedProductsAt(d, c, b, a, s1, s0, i, j);
      assert n == i + 3 * j;
    }
  }

  /**
   * Rotating the anisotropic Laplacian of an h0 x h1 cell gives the one of the
   * h1 x h0 cell with the two coefficients exchanged: each coefficient stays
   * with its direction.
   */
  lemma AnisotropicLaplacianRotation(s0: real, s1: real, h0: real, h1: real)
    requires h0 > 0.0 && h1 > 0.0
    ensures Exchanged(GetAnisotropicLaplacian([s0, s1], [h0, h1]), 0, 1) == GetAnisotropicLaplacian([s1, s0], [h1, h0])
  {
    ExchangedWeightedProducts(Get1DLaplaceStencil(h0), Get1DMassStencil(h1), Get1DMassStencil(h0), Get1DLaplaceStencil(h1), s0, s1);
  }

  /** On the unit square the Laplacian has 8/3 at the centre and -1/3 at all eight neighbours. */
  lemma LaplacianOnUnitSquare()
    ensures GetLaplacian(1.0, [1.0, 1.0]) ==
      [-1.0 / 3.0, -1.0 / 3.0, -1.0 / 3.0,
       -1.0 / 3.0,  8.0 / 3.0, -1.0 / 3.0,
       -1.0 / 3.0, -1.0 / 3.0, -1.0 / 3.0]
  {
  }

  /** Scaling one factor by t and the other by 1/t leaves a tensor product unchanged. */
  lemma TensorRescaled(a: Vector, b: Vector, t: real)
    requires |a| == |b| == 3 && t > 0.0
    ensures Tensor3(ScaleVector(a, 1.0 / t), ScaleVector(b, t)) == Tensor3(a, b)
    ensures Tensor3(ScaleVector(a, t), ScaleVector(b, 1.0 / t)) == Tensor3(a, b)
  {
    var p, p', q := Tensor3(ScaleVector(a, 1.0 / t), ScaleVector(b, t)), Tensor3(ScaleVector(a, t), ScaleVector(b, 1.0 / t)), Tensor3(a, b);
    forall n | 0 <= n < 9
      ensures p[n] == q[n] && p'[n] == q[n]
    {
      var i, j := n % 3, n / 3;
      assert ((1.0 / t) * a[i]) * (t * b[j]) == ((1.0 / t) * t) * (a[i] * b[j]);
      assert (t * a[i]) * ((1.0 / t) * b[j]) == ((1.0 / t) * t) * (a[i] * b[j]);
    }
  }

  /** The 1-D stencils of a cell refined by the factor t. */
  lemma OneDimensionalRescaled(h: real, t: real)
    requires h > 0.0 && t > 0.0
    ensures Get1DLaplaceStencil(t * h) == ScaleVector(Get1DLaplaceStencil(h), 1.0 / t)
    ensures Get1DMassStencil(t * h) == ScaleVector(Get1DMassStencil(h), t)
  {
    PositiveProduct(t, h);
    var cl, cm := Get1DLaplaceStencilWithoutHScaling(), Get1DMassStencilWithoutHScaling();
    var invH, invT := 1.0 / h, 1.0 / t;
    ScaleTwice(cl, invH, invT);
    assert invT * invH == 1.0 / (t * h);
    ScaleTwice(cm, h, t);
  }

  lemma PositiveProduct(x: real, y: real)
    requires x > 0.0 && y > 0.0
    ensures x * y > 0.0
  {
  }

  /**
   * Refining a 2-D cell uniformly does not change its Laplacian stencil: each
   * term keeps its value when both mesh widths are multiplied by t.
   */
  lemma LaplacianTermsRescaled(h0: real, h1: real, t: real)
    requires h0 > 0.0 && h1 > 0.0 && t > 0.0
    ensures Tensor3(Get1DLaplaceStencil(t * h0), Get1DMassStencil(t * h1)) == Tensor3(Get1DLaplaceStencil(h0), Get1DMassStencil(h1))
    ensures Tensor3(Get1DMassStencil(t * h0), Get1DLaplaceStencil(t * h1)) == Tensor3(Get1DMassStencil(h0), Get1DLaplaceStencil(h1))
  {
    PositiveProduct(t, h0);
    PositiveProduct(t, h1);
    OneDimensionalRescaled(h0, t);
    OneDimensionalRescaled(h1, t);
    TensorRescaled(Get1DLaplaceStencil(h0), Get1DMassStencil(h1), t);
    TensorRescaled(Get1DMassStencil(h0), Get1DLaplaceStencil(h1), t);
  }

  /** The mass stencil integrates to the cell volume and is point symmetric. */
  lemma MassMatrixProperties(h: Vector)
    requires |h| == DIMENSIONS
    ensures Sum(GetMassMatrix(h)) == h[0] * h[1]
    ensures Mirrored(GetMassMatrix(h)) == GetMassMatrix(h)
  {
    Sum3(Get1DMassStencil(h[0]));
    Sum3(Get1DMassStencil(h[1]));
    SumOfProduct(Get1DMassStencil(h[0]), Get1DMassStencil(h[1]));
    MirroredProduct(Get1DMassStencil(h[0]), Get1DMassStencil(h[1]));
  }

  lemma TensorRows5(a: Vector, b: Vector)
    requires |a| == |b| == 5
    ensures Tensor5(a, b) == ScaleVector(a, b[0]) + ScaleVector(a, b[1]) + ScaleVector(a, b[2]) + ScaleVector(a, b[3]) + ScaleVector(a, b[4])
  {
    var p := Tensor5(a, b);
    var q := ScaleVector(a, b[0]) + ScaleVector(a, b[1]) + ScaleVector(a, b[2]) + ScaleVector(a, b[3]) + ScaleVector(a, b[4]);
    forall n | 0 <= n < 25
      ensures p[n] == q[n]
    {
      var i, j := n % 5, n / 5;
      Tensor5At(a, b, i, j);
      assert n == i + 5 * j;
      assert q[n] == b[j] * a[i];
    }
    assert p == q;
  }

  /** Summing a 5 x 5 tensor product row by row. */
  lemma SumOfRows5(a: Vector, b: Vector)
    requires |a| == |b| == 5
    ensures Sum(Tensor5(a, b)) == Sum(ScaleVector(a, b[0])) + Sum(ScaleVector(a, b[1])) + Sum(ScaleVector(a, b[2])) + Sum(ScaleVector(a, b[3])) + Sum(ScaleVector(a, b[4]))
  {
    var r0, r1, r2, r3, r4 := ScaleVector(a, b[0]), ScaleVector(a, b[1]), ScaleVector(a, b[2]), ScaleVector(a, b[3]), ScaleVector(a, b[4]);
    TensorRows5(a, b);
    SumAppend(r0 + r1 + r2 + r3, r4);
    SumAppend(r0 + r1 + r2, r3);
    SumAppend(r0 + r1, r2);
    SumAppend(r0, r1);
  }

  lemma SumOfProduct5(a: Vector, b: Vector)
    requires |a| == |b| == 5
    ensures Sum(Tensor5(a, b)) == Sum(a) * Sum(b)
  {
    SumOfRows5(a, b);
    SumScale(a, b[0]); SumScale(a, b[1]); SumScale(a, b[2]); SumScale(a, b[3]); SumScale(a, b[4]);
    Sum5(b);
    Distribute5(b[0], b[1], b[2], b[3], b[4], Sum(a));
  }

  lemma Distribute5(x0: real, x1: real, x2: real, x3: real, x4: real, s: real)
    ensures x0 * s + x1 * s + x2 * s + x3 * s + x4 * s == s * (x0 + x1 + x2 + x3 + x4)
  {
  }

  lemma DLinearInterpolationIsTensor()
    ensures GetDLinearInterpolation() == Tensor5(Get1DLinearInterpolationStencil(), Get1DLinearInterpolationStencil())
  {
  }

  /** Fine vertex (a, b) of the 5 x 5 patch gets the product of the two 1-D hat weights. */
  lemma DLinearInterpolationAt(a: int, b: int)
    requires 0 <= a < 5 && 0 <= b < 5
    ensures GetDLinearInterpolation()[a + 5 * b] == Get1DLinearInterpolationStencil()[a] * Get1DLinearInterpolationStencil()[b]
  {
    var w := Get1DLinearInterpolationStencil();
    DLinearInterpolationIsTensor();
    Tensor5At(w, w, a, b);
  }

  /** Swapping the two dimensions leaves the interpolation weights unchanged. */
  lemma DLinearInterpolationSymmetric(a: int, b: int)
    requires 0 <= a < 5 && 0 <= b < 5
    ensures GetDLinearInterpolation()[a + 5 * b] == GetDLinearInterpolation()[b + 5 * a]
  {
    DLinearInterpolationAt(a, b);
    DLinearInterpolationAt(b, a);
  }

  /** The coarse vertex itself keeps its full value. */
  lemma DLinearInterpolationCentre()
    ensures GetDLinearInterpolation()[12] == 1.0
  {
    var w := Get1DLinearInterpolationStencil();
    DLinearInterpolationIsTensor();
    Tensor5At(w, w, 2, 2);
  }

  /** The interpolation weights of one coarse vertex add up to 3^d. */
  lemma DLinearInterpolationTotal()
    ensures Sum(GetDLinearInterpolation()) == 9.0
  {
    InterpolationStencilTotal();
    SumOfProduct5(Get1DLinearInterpolationStencil(), Get1DLinearInterpolationStencil());
  }

  lemma InterpolationStencilTotal()
    ensures Sum(Get1DLinearInterpolationStencil()) == 3.0
  {
    Sum5(Get1DLinearInterpolationStencil());
  }
}
