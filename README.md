# Matrix-free multigrid core, modelled in Dafny

This project models the matrix-free multigrid engine of the Peano toolboxes
(`matrixfree/`) for d = 2. It has three parts.

- **Intergrid transfer** (module `Transfer`, `Scatter`, `Gamma`, class `Solver.Multigrid`).
  - A fine-grid vertex of a cell's 4^d patch is mapped to an entry of a coarse vertex's 5^d transfer stencil.
  - The 2^d x 2^d cell transfer matrix is built from that mapping.
  - Prolongation, restriction, the cell residual and the Petrov-Galerkin operator R^T A P are computed from it.
  - Cell updates are scattered back into per-vertex 3^d stencils and 5^d operators through fixed lookup tables.
  - The closed-form 2 x 2 "gamma" systems of the operator-induced transfer are solved.
  - The instance counts the stencil entries it evaluates, and worker copies merge their counts.
- **Stencil / element-matrix conversion** (module `ElementMatrices`, class `ElementMatrix`).
  - One 3^d stencil, or 2^d concatenated stencils, becomes a 2^d x 2^d element matrix.
  - Each entry is the stencil entry at the corner offset, divided by 2 to the number of shared dimensions.
  - A stencil can be reconstructed from such a matrix.
- **Stencil factory** (module `StencilFactory`).
  - Closed-form 1-D stencils and tensor products with the first operand running fastest.
  - Coordinate exchange.
  - The 2-D Laplacian, mass, identity and d-linear interpolation stencils.

`Indexing` holds the mixed-radix linearisation that `dfor2`, `d3for3`,
`dLinearised` and `getStencilEntryLinearisedIndex` stand for: dimension 0 is
the least significant digit. `LinearAlgebra` holds vectors as `seq<real>`
and matrices as row-major `seq<seq<real>>`.

`double` is modelled as `real`, so every constant (1/3, 1/6, ...) is exact.
Each loop of the source is a `method` with loop invariants, proved equal to a
specification function. The properties the source promises are lemmas about
those functions. The evaluation counter is a field of the class
`Solver.Multigrid`. The methods that change it say so in `modifies` and
`ensures`.

Facts about the stencils that the model proves:

- With unit scaling and mesh width the 2-D Laplacian is 8/3 at the centre and -1/3 at all eight neighbours (`StencilFactory.LaplacianOnUnitSquare`).
- The d-linear interpolation uses the 3-way refinement weights [1/3, 2/3, 1, 2/3, 1/3]. Fine vertex (1,1) of a cell gets 4/9 from corner (0,0) (`Transfer.DLinearWeightNextToCorner`).
- The unscaled weights of the four corners add up to 1 at every fine vertex of the 4^d patch (`Transfer.CellWeightsPartitionUnity`).
- The header documents the three-way stencil product as "Equals a * (b*c)" (`matrixfree/stencil/StencilFactory.h:74`). That product is `Tensor3(a, Tensor3(b, c))` (`StencilFactory.TensorOfTensor3`).

## Model

| member | source | states |
|---|---|---|
| Indexing.LinearisedBounds | matrixfree/solver/Multigrid.cpp:125-136 | the mixed-radix index of an in-range coordinate lies in [0, L^d) |
| Indexing.LinearisedAppend | matrixfree/solver/Multigrid.cpp:125-136 | adding a most significant digit adds digit * base, the step of the accumulation loop |
| Indexing.LinearisedOfDelinearised | matrixfree/stencil/Stencil.h:46 | linearising the coordinate of an in-range index gives the index back |
| Indexing.DelinearisedOfLinearised | matrixfree/stencil/Stencil.h:46 | delinearising the index of an in-range coordinate gives the coordinate back |
| Indexing.LinearisedInjective | matrixfree/stencil/Stencil.h:46 | two in-range coordinates with the same linear index are equal |
| Indexing.CornerEnumeration | matrixfree/stencil/ElementMatrix.cpp:24-25 | corner number k of the dfor2 loop is a {0,1}^d coordinate whose linear index is k |
| Indexing.StencilCoordinateComponents | matrixfree/stencil/StencilFactory.cpp:10-15 | entry n of a 3^d stencil sits at (n mod 3, n div 3) and linearises back to n |
| StencilFactory.Get1DLinearInterpolationStencil | matrixfree/stencil/StencilFactory.cpp:22-30 | entry i is the hat function 1 - abs(i - 2)/3 |
| StencilFactory.Get1DMassStencilWithoutHScaling | matrixfree/stencil/StencilFactory.cpp:33-39 | symmetric, centre four times the sides, total 1 |
| StencilFactory.Get1DIdentityWithoutHScaling | matrixfree/stencil/StencilFactory.cpp:42-48 | centre 1, both neighbours 0 |
| StencilFactory.Get1DMeanValueStencil | matrixfree/stencil/StencilFactory.cpp:52-58 | centre 0, the two neighbours equal and adding up to 1 |
| StencilFactory.Get1DMassStencil | matrixfree/stencil/StencilFactory.cpp:61-63 | symmetric, centre four times the sides, total h |
| StencilFactory.Get1DLaplaceStencilWithoutHScaling | matrixfree/stencil/StencilFactory.cpp:66-72 | centre 2, neighbours equal to minus half the centre, total 0 |
| StencilFactory.Get1DLaplaceStencil | matrixfree/stencil/StencilFactory.cpp:74-77 | requires h > 0 as the assertion does; the stencil is [-1/h, 2/h, -1/h]: symmetric, centre -2 times the sides, total 0 |
| StencilFactory.LaplaceStencilScaling | matrixfree/stencil/StencilFactory.cpp:74-77 | the stencil for mesh width h, times h, is the unscaled stencil |
| StencilFactory.OneDimensionalRescaled | matrixfree/stencil/StencilFactory.cpp:61-77 | stretching h by t divides the Laplace stencil by t and multiplies the mass stencil by t |
| StencilFactory.Tensor3At | matrixfree/stencil/StencilFactory.cpp:81-94 | entry i + 3j of the 3-point product is a(i) * b(j) |
| StencilFactory.Tensor5At | matrixfree/stencil/StencilFactory.cpp:97-110 | entry i + 5j of the 5-point product is a(i) * b(j) |
| StencilFactory.StencilProduct3x3 | matrixfree/stencil/StencilFactory.cpp:81-94 | the nested loops write a(i) * b(j) at i + 3j for every i, j, and the result is the tensor product |
| StencilFactory.StencilProduct5x5 | matrixfree/stencil/StencilFactory.cpp:97-110 | the nested loops write a(i) * b(j) at i + 5j for every i, j, and the result is the tensor product |
| StencilFactory.StencilProduct3x3x3 | matrixfree/stencil/StencilFactory.cpp:113-129 | entry i + 3j + 9k is a(i) * b(j) * c(k), and the result equals a (x) (b (x) c) |
| StencilFactory.StencilProduct5x5x5 | matrixfree/stencil/StencilFactory.cpp:132-148 | entry i + 5j + 25k is a(i) * b(j) * c(k), and the result equals a (x) (b (x) c) |
| StencilFactory.TensorOfTensor3 | matrixfree/stencil/StencilFactory.cpp:113-129 | a 27-vector holding a(i) b(j) c(k) at i + 3j + 9k is the nested two-way product a (x) (b (x) c) |
| StencilFactory.TensorOfTensor5 | matrixfree/stencil/StencilFactory.cpp:132-148 | a 125-vector holding a(i) b(j) c(k) at i + 5j + 25k is the nested two-way product |
| StencilFactory.SumOfProduct | matrixfree/stencil/StencilFactory.cpp:81-94 | the entries of a 3-point product add up to the product of the factors' totals |
| StencilFactory.SumOfProduct5 | matrixfree/stencil/StencilFactory.cpp:97-110 | the entries of a 5-point product add up to the product of the factors' totals |
| StencilFactory.SourceIndex | matrixfree/stencil/StencilFactory.cpp:10-15 | the source entry of destination n is n itself when the two coordinates coincide, else the transposed index n div 3 + 3 (n mod 3) |
| StencilFactory.ExchangeCoordinates | matrixfree/stencil/StencilFactory.cpp:6-19 | the loop writes s at the swapped coordinate into every destination entry |
| StencilFactory.ExchangeInvolution | matrixfree/stencil/StencilFactory.cpp:6-19 | exchanging the same pair of coordinates twice returns the stencil |
| StencilFactory.ExchangeTrivialCases | matrixfree/stencil/StencilFactory.cpp:6-19 | exchanging a coordinate with itself is the identity, and the order of the pair does not matter |
| StencilFactory.ExchangeOfProduct | matrixfree/stencil/StencilFactory.cpp:6-19 | exchanging the coordinates of a (x) b gives b (x) a |
| StencilFactory.GetIdentity | matrixfree/stencil/StencilFactory.cpp:258-281 | zero everywhere except the centre entry 4, which is h0 * h1 |
| StencilFactory.GetLaplacian | matrixfree/stencil/StencilFactory.cpp:151-188 | nine entries; the lemmas below state its entries in closed form, its zero sum, its symmetries and its invariance under uniform refinement |
| StencilFactory.LaplacianCentre | matrixfree/stencil/StencilFactory.cpp:151-188 | with x = h1/h0 and y = h0/h1 the centre entry is scaling * 4/3 (x + y) |
| StencilFactory.LaplacianFirstAxisNeighbour | matrixfree/stencil/StencilFactory.cpp:151-188 | the neighbour along the first axis has weight scaling * (y - 2x)/3 |
| StencilFactory.LaplacianSecondAxisNeighbour | matrixfree/stencil/StencilFactory.cpp:151-188 | the neighbour along the second axis has weight scaling * (x - 2y)/3 |
| StencilFactory.LaplacianDiagonalNeighbour | matrixfree/stencil/StencilFactory.cpp:151-188 | a diagonal neighbour has weight -scaling * (x + y)/6 |
| StencilFactory.LaplacianAnnihilatesConstants | matrixfree/stencil/StencilFactory.cpp:151-188 | the nine entries of the scaled Laplacian add up to 0 |
| StencilFactory.GetAnisotropicLaplacian | matrixfree/stencil/StencilFactory.cpp:191-231 | nine entries; the lemmas below state its zero sum, its symmetry, that each coefficient weighs its own direction's term, and that equal coefficients give GetLaplacian |
| StencilFactory.AnisotropicLaplacianSymmetric | matrixfree/stencil/StencilFactory.cpp:191-231 | the anisotropic Laplacian is point-symmetric through its centre |
| StencilFactory.AnisotropicLaplacianRotation | matrixfree/stencil/StencilFactory.cpp:191-231 | exchanging the two coordinates of the stencil for coefficients (s0, s1) and widths (h0, h1) gives the stencil for (s1, s0) and (h1, h0): each coefficient weighs the term of its own direction |
| StencilFactory.AnisotropicLaplacianAnnihilatesConstants | matrixfree/stencil/StencilFactory.cpp:191-231 | the nine entries of the per-dimension scaled Laplacian add up to 0 |
| StencilFactory.IsotropicLaplacianAgrees | matrixfree/stencil/StencilFactory.cpp:191-231 | with the same scaling in both dimensions the vector-scaling Laplacian equals the scalar-scaling one |
| StencilFactory.LaplacianSymmetric | matrixfree/stencil/StencilFactory.cpp:151-188 | the Laplacian is point-symmetric through its centre |
| StencilFactory.LaplacianRotation | matrixfree/stencil/StencilFactory.cpp:151-188 | exchanging the two coordinates of the Laplacian equals the Laplacian with h0 and h1 swapped |
| StencilFactory.LaplacianOnUnitSquare | matrixfree/stencil/StencilFactory.cpp:151-188 | for scaling 1 and h = (1,1) the centre is 8/3 and all eight neighbours are -1/3 |
| StencilFactory.LaplacianTermsRescaled | matrixfree/stencil/StencilFactory.cpp:155-163 | both terms of the 2-D Laplacian are unchanged when both mesh widths are stretched by the same factor |
| StencilFactory.GetMassMatrix | matrixfree/stencil/StencilFactory.cpp:234-255 | nine entries; MassMatrixEntries and MassMatrixProperties state their values, total and symmetry |
| StencilFactory.MassMatrixEntries | matrixfree/stencil/StencilFactory.cpp:234-255 | with v = h0 * h1 the vertex has weight 4/9 v, the four axis neighbours v/9 and the four diagonal neighbours v/36 |
| StencilFactory.MassMatrixProperties | matrixfree/stencil/StencilFactory.cpp:234-255 | the mass stencil adds up to h0 * h1 and is point-symmetric |
| StencilFactory.GetDLinearInterpolation | matrixfree/stencil/StencilFactory.cpp:284-304 | 25 weights; DLinearInterpolationAt, DLinearInterpolationSymmetric, DLinearInterpolationCentre and DLinearInterpolationTotal state that entry a + 5b is w(a) * w(b) for the 1-D hat weights w, that the stencil is symmetric, centre 1 and total 9 |
| StencilFactory.DLinearInterpolationAt | matrixfree/stencil/StencilFactory.cpp:284-291 | entry a + 5b is the product of the 1-D weights w(a) * w(b) |
| StencilFactory.DLinearInterpolationSymmetric | matrixfree/stencil/StencilFactory.cpp:284-291 | entry a + 5b equals entry b + 5a: swapping the dimensions leaves the stencil unchanged |
| StencilFactory.DLinearInterpolationCentre | matrixfree/stencil/StencilFactory.cpp:284-291 | the centre entry 12 is 1 |
| StencilFactory.DLinearInterpolationTotal | matrixfree/stencil/StencilFactory.cpp:284-291 | the 25 weights add up to 3^d = 9 |
| ElementMatrices.CornerBits | matrixfree/stencil/ElementMatrix.cpp:24-25 | corner k is (LowBit(k), HighBit(k)) |
| ElementMatrices.SharingCellsOfCorners | matrixfree/stencil/ElementMatrix.cpp:27-31 | the divisor built per dimension is 2 to the number of dimensions in which corners i and j agree |
| ElementMatrices.CouplingIndexOfCorners | matrixfree/stencil/ElementMatrix.cpp:28-32 | the stencil read for (j, i) is the one at offset i - j + 1, linearised |
| ElementMatrices.ComparisonIsCoupling | matrixfree/stencil/ElementMatrix.cpp:96-107 | for corners the three-way comparison gives the same offset as i - j + 1 |
| ElementMatrices.BlockIndex | matrixfree/stencil/ElementMatrix.cpp:93-108 | the entry read for row j lies in block j, between j * 3^d and (j + 1) * 3^d |
| ElementMatrices.BlockIndexOfCorners | matrixfree/stencil/ElementMatrix.cpp:93-108 | the index read is the block offset plus the linearised comparison offset |
| ElementMatrices.TargetIndexOfCorners | matrixfree/stencil/ElementMatrix.cpp:60-74 | the target of (j, k) is the linearised offset that is 2 if j > k, 0 if j < k, 1 if equal |
| ElementMatrices.TargetMirrorsCoupling | matrixfree/stencil/ElementMatrix.cpp:60-74 | the reconstruction target of (j, k) is the mirror 8 - n of the entry n that the conversion reads for (j, k) |
| ElementMatrices.CouplingOfCorners | matrixfree/stencil/ElementMatrix.cpp:28-31 | the per-dimension loop yields the offset i - j + 1 and the shared-cell divisor |
| ElementMatrices.ComparisonOfCorners | matrixfree/stencil/ElementMatrix.cpp:96-107 | the per-dimension loop yields the comparison offset and the shared-cell divisor |
| ElementMatrices.TargetOfCorners | matrixfree/stencil/ElementMatrix.cpp:61-71 | the per-dimension loop yields the reconstruction offset |
| ElementMatrices.AssemblyMatrixEntries | matrixfree/stencil/ElementMatrix.cpp:15-37 | the element matrix of s in closed form: centre/4 on the diagonal, face neighbours/2, opposite corners undivided |
| ElementMatrices.CentreIndex | matrixfree/stencil/ElementMatrix.cpp:5-12 | the centre index (1,...,1) linearises to 4, and every diagonal entry reads it |
| ElementMatrices.DocumentationExample | matrixfree/stencil/ElementMatrix.h:46-66 | the stencil with -1 around 8 gives 2 on the diagonal, -0.5 for face neighbours, -1 for the opposite corner |
| ElementMatrices.CollectedIsReconstructed | matrixfree/stencil/ElementMatrix.cpp:54-79 | adding every matrix entry once into its target gives the reconstructed stencil |
| ElementMatrices.RoundTripMirrors | matrixfree/stencil/ElementMatrix.cpp:54-79 | reconstructing the element matrix of s gives s mirrored through its centre |
| ElementMatrices.RoundTripExactIffSymmetric | matrixfree/stencil/ElementMatrix.h:92 | the round trip returns s exactly when s is point-symmetric |
| ElementMatrices.RoundTripSwapsCorners | matrixfree/stencil/ElementMatrix.h:92 | a stencil whose corners 0 and 8 differ comes back different, with those corners swapped |
| ElementMatrices.LaplacianRoundTrip | matrixfree/stencil/ElementMatrix.cpp:54-79 | the Laplacian survives the round trip unchanged |
| ElementMatrices.ReconstructedSum | matrixfree/stencil/ElementMatrix.cpp:54-79 | the reconstructed stencil adds up to the sum of all matrix entries |
| ElementMatrices.AssemblyOfMirrored | matrixfree/stencil/ElementMatrix.cpp:15-37 | the element matrix of the mirrored stencil is the transpose |
| ElementMatrices.LaplacianElementMatrixSymmetric | matrixfree/stencil/ElementMatrix.cpp:15-37 | the element matrix of the Laplacian is symmetric |
| ElementMatrices.BlockRowReadsOwnStencil | matrixfree/stencil/ElementMatrix.cpp:82-114 | row j of the vector-of-stencils matrix is row j of the element matrix of block j alone |
| ElementMatrices.BlockOfEqualStencils | matrixfree/stencil/ElementMatrix.cpp:82-114 | with all four blocks equal to s, the result equals the single-stencil element matrix of s |
| ElementMatrices.ElementMatrix.constructor | matrixfree/stencil/ElementMatrix.cpp:5-12 | the loop sets the central element to the sum of 3^d over d < D, which is 4 |
| ElementMatrices.ElementMatrix.GetElementWiseAssemblyMatrix | matrixfree/stencil/ElementMatrix.cpp:15-37 | the nested loops build the element matrix: entry (j, i) is the stencil at i - j + 1 over the shared-cell divisor |
| ElementMatrices.ElementMatrix.GetElementWiseAssemblyMatrixOfStencils | matrixfree/stencil/ElementMatrix.cpp:82-114 | the nested loops build the matrix whose row j reads block j |
| ElementMatrices.ElementMatrix.GetDiagonalElementOfMatrix | matrixfree/stencil/ElementMatrix.cpp:40-42 | when the matrix has a constant diagonal, matrix(0,0) * 2^d is the centre entry of the stencil the matrix reconstructs |
| ElementMatrices.ElementMatrix.GetDiagonalElement | matrixfree/stencil/ElementMatrix.cpp:40-50 | the centre entry of the stencil equals the diagonal read off its element matrix, matrix(0,0) * 2^d |
| ElementMatrices.ElementMatrix.ReconstructStencil | matrixfree/stencil/ElementMatrix.cpp:54-79 | starting from zero, the loops add each matrix entry once at its target |
| Transfer.StencilEntry | matrixfree/solver/Multigrid.cpp:125-133 | per dimension the entry is fine - 3 * coarse + 2: 2 + fine for bit 0, fine - 1 for bit 1 |
| Transfer.InfluenceIsProximity | matrixfree/solver/Multigrid.cpp:115-137 | the coarse vertex influences the fine vertex iff the fine vertex is at most two fine cells away in every dimension |
| Transfer.StencilIndexInRange | matrixfree/solver/Multigrid.cpp:115-137 | when the vertex influences, the stencil index lies in [0, 5^d) |
| Transfer.DocumentationExample | matrixfree/solver/Multigrid.h:249-251 | fine vertex (3,0) is not influenced by coarse vertex (0,1) |
| Transfer.CellOperatorPosition | matrixfree/solver/Multigrid.cpp:139-144 | for an entry below 5^d the position splits back into vertex number and entry |
| Transfer.CellStencilPosition | matrixfree/solver/Multigrid.cpp:146-151 | for an entry below 3^d the position splits back into vertex number and entry |
| Transfer.TransferReadsOwnStencil | matrixfree/solver/Multigrid.cpp:193-234 | entry (l, k) of the cell matrix is read from coarse vertex k's own block when k influences fine vertex l, else it is 0 |
| Transfer.TransferEntryIsWeight | matrixfree/solver/Multigrid.cpp:193-234 | entry (l, k) is the transfer weight of corner k's operator at fine vertex l |
| Transfer.RestrictionIsAdjointOfProlongation | matrixfree/solver/Multigrid.cpp:37-64 | with the same operators and positions, restriction is the adjoint of prolongation: (restrict f) . c == f . (prolong c) |
| Transfer.ResidualVanishesIffSolved | matrixfree/solver/Multigrid.cpp:66-82 | the residual is zero exactly when A u equals the right-hand side |
| Transfer.PetrovGalerkinComposes | matrixfree/solver/Multigrid.cpp:236-253 | applying R^T A P to c equals restricting A applied to the prolonged c, times (2^d)^2 for the unscaled cell matrices |
| Transfer.HatWeightsPartitionUnity | matrixfree/stencil/StencilFactory.cpp:22-30 | the two 1-D weights that reach a fine point of the patch add up to 1 |
| Transfer.WeightAt | matrixfree/solver/Multigrid.cpp:153-191 | the weight of corner k at a fine vertex is the operator entry at the stencil entry when it lies in the 5 x 5 range, else 0 |
| Transfer.HatProductWeight | matrixfree/solver/Multigrid.cpp:153-191 | for a hat-product operator, corner k's weight is the product of the per-dimension hat weights |
| Transfer.HatProductRow | matrixfree/solver/Multigrid.cpp:84-112 | the weights of two corners that differ in dimension 0 add up to the hat weight of dimension 1 |
| Transfer.DLinearWeightsPartitionUnity | matrixfree/solver/Multigrid.cpp:84-112 | at every fine vertex of the patch the four corner weights add up to 1 |
| Transfer.CellWeightsPartitionUnity | matrixfree/solver/Multigrid.cpp:84-112 | the vector of the four corner weights adds up to 1 |
| Transfer.DLinearWeightNextToCorner | matrixfree/solver/Multigrid.cpp:84-112 | with the engine's interpolation stencil, fine vertex (1,1) of the patch receives weight 4/9 from corner (0,0) |
| Transfer.InfluenceCount | matrixfree/solver/Multigrid.cpp:174-183 | no more corners influence the fine vertex than were visited |
| Transfer.InterpolationOfConstant | matrixfree/solver/Multigrid.cpp:84-112 | d-linear interpolation of four equal corner values gives that value at every fine vertex of the patch |
| Transfer.DLinearInterpolationOfConstant | matrixfree/solver/Multigrid.cpp:84-112 | the engine's own interpolation stencil reproduces a value all four corners share |
| Scatter.PositionsInA | matrixfree/solver/Multigrid.cpp:741-763 | for each of the 2^d corners, 2^d positions, all inside the 3^d stencil; what they address is stated by PositionsInAAreCouplings and PositionsInAWindow |
| Scatter.PositionsInAAreCouplings | matrixfree/solver/Multigrid.cpp:741-763 | table entry (c, f) is the stencil entry by which corner c couples to corner f |
| Scatter.PositionsInAWindow | matrixfree/solver/Multigrid.cpp:741-763 | each row holds four distinct indices in [0, 9) forming a 2 x 2 window |
| Scatter.UpdateOfVertex | matrixfree/solver/Multigrid.cpp:706-721 | entry p of vertex c's stencil gains exactly the updates whose table position is p |
| Scatter.UpdateReachesCoupling | matrixfree/solver/Multigrid.cpp:706-721 | entry c * 3^d + positionsInA(c)(f) gains update(c, f) |
| Scatter.UpdateKeepsOtherEntries | matrixfree/solver/Multigrid.cpp:706-721 | every entry no table position names keeps its value |
| Scatter.AssemblyOfUpdatedStencils | matrixfree/solver/Multigrid.cpp:706-721 | element-matrix entry (c, f) of the updated stencils grows by update(c, f) over the shared-cell divisor |
| Scatter.PositionsInOperator | matrixfree/solver/Multigrid.cpp:765-790 | for each corner, 3^d positions, all inside the 5^d operator; what they address is stated by PositionsInOperatorWindow, PositionsInOperatorAreWeights, WindowOfTable and TableOfWindow |
| Scatter.PositionsInOperatorWindow | matrixfree/solver/Multigrid.cpp:765-790 | entry a + 3b of row c is base(c) + a + 5b, with base 12, 10, 2, 0 |
| Scatter.PositionsInOperatorAreWeights | matrixfree/solver/Multigrid.cpp:765-790 | entry a + 3b of row c is the 5^d stencil index at which corner c reaches the fine vertex (LowBit(c) + a, HighBit(c) + b) |
| Scatter.NearVertexEntryOfBits | matrixfree/solver/Multigrid.cpp:125-133 | corner (lo, hi) reaches fine vertex (lo + a, hi + b), for a, b < 3, at entry (2 - 2 lo + a) + 5 (2 - 2 hi + b) |
| Scatter.WindowOfTable | matrixfree/solver/Multigrid.cpp:765-790 | every table entry lies in c's 3 x 3 window, at local index i |
| Scatter.TableOfWindow | matrixfree/solver/Multigrid.cpp:765-790 | every entry of c's 3 x 3 window is named by the table |
| Scatter.FilledInWritesTable | matrixfree/solver/Multigrid.cpp:724-740 | entry c * 5^d + pos(c)(i) becomes operators3x3(c * 3^d + i) |
| Scatter.FilledInKeepsRest | matrixfree/solver/Multigrid.cpp:724-740 | every entry the table does not name keeps its 5^d value |
| Scatter.FilledInIdempotent | matrixfree/solver/Multigrid.cpp:724-740 | filling in twice equals filling in once |
| Gamma.Solve2x2System | matrixfree/solver/Multigrid.cpp:647-665 | with a nonzero determinant the result solves both equations |
| Gamma.SolutionIsUnique | matrixfree/solver/Multigrid.cpp:647-665 | a vector solves the system iff it is the computed solution |
| Gamma.EdgeDeterminant | matrixfree/solver/Multigrid.cpp:441-454 | dropping the outer coupling of either stencil leaves the determinant unchanged |
| Gamma.SolveEdge | matrixfree/solver/Multigrid.cpp:441-454 | the two solves of one edge satisfy their systems |
| Gamma.EdgePartitionOfUnity | matrixfree/solver/Multigrid.cpp:441-454 | for zero-row-sum stencils the weights from the two ends of an edge add up to 1 |
| Gamma.SolveGammaSystems | matrixfree/solver/Multigrid.cpp:427-504 | each of the eight solves lands in its fixed pair of slots and satisfies its system |
| Gamma.GammaPartitionOfUnity | matrixfree/solver/Multigrid.cpp:427-504 | for zero-row-sum stencils the two weights of every fine vertex on an edge add up to 1 |
| Solver.Multigrid.constructor | matrixfree/solver/Multigrid.cpp:11-14 | the interpolation stencil is the d-linear one and the counter starts at 0 |
| Solver.Multigrid.CopyOf | matrixfree/solver/Multigrid.cpp:21-24 | the copy shares the interpolation stencil and its counter starts at 0 |
| Solver.Multigrid.MergeWithWorkerThread | matrixfree/solver/Multigrid.cpp:27-29 | the counter grows by the worker's count |
| Solver.Multigrid.GetNumberOfStencilUpdates | matrixfree/solver/Multigrid.cpp:696-698 | returns the counter |
| Solver.Multigrid.ClearNumberOfStencilUpdates | matrixfree/solver/Multigrid.cpp:701-703 | the counter is 0 again |
| Solver.Multigrid.GetPositionIn5PowDStencilRelativeToKthCoarseVertex | matrixfree/solver/Multigrid.cpp:115-137 | the accumulation loop yields the stencil entry, its linear index and whether it lies in the 5^d stencil |
| Solver.Multigrid.ComputeContributionWeightOfInterGridTransfer | matrixfree/solver/Multigrid.cpp:153-191 | returns the operator entry when influenced and counts one evaluation; else returns 0 and leaves the counter |
| Solver.Multigrid.GetDLinearInterpolatedValue | matrixfree/solver/Multigrid.cpp:84-112 | returns scaling times the sum of value(k) * weight(k), and counts 2^d plus the number of influencing corners |
| Solver.Multigrid.CalculateCellInterGridTransferOperator | matrixfree/solver/Multigrid.cpp:193-234 | the nested loops build the cell transfer matrix |
| Solver.Multigrid.ProlongCellValues | matrixfree/solver/Multigrid.cpp:37-50 | returns (T / 2^d) v |
| Solver.Multigrid.RestrictCellValues | matrixfree/solver/Multigrid.cpp:52-64 | returns (T / 2^d)^T v |
| Solver.Multigrid.ComputeCellResidual | matrixfree/solver/Multigrid.cpp:66-82 | returns rhs(i) - (A u)(i) for every i |
| Solver.Multigrid.CalculatePetrovGalerkinCoarseGridOperator | matrixfree/solver/Multigrid.cpp:236-253 | returns R^T (A P) with the unscaled cell matrices |
| Solver.Multigrid.AddUpdateToStencils | matrixfree/solver/Multigrid.cpp:706-721 | the nested loops add every update(c, f) at c * 3^d + positionsInA(c)(f) |
| Solver.Multigrid.FillInIntergridTransferOperators | matrixfree/solver/Multigrid.cpp:724-740 | the loops overwrite every table position with its 3^d entry and keep the rest |

## Left out

- The body of `computeBoxMGIntergridTransferOperator` (matrixfree/solver/Multigrid.cpp:256-425): the initial unit weights at the coarse points (:268-283), the collapse of the fine-grid stencils into the row and column sums `g1` ... `g14` that feed `solveGammaSystems` (:285-330), the scatter of the gamma weights (:334-360), and the iota stage with its own collapse and scatter (:362-425). The modelled `Gamma.SolveGammaSystems` therefore takes its eight 3-point stencils as parameters. `solveIotaSystem` and `solve4x4System` (:506-645, 667-693) are left out as well; the iota solves rest on a modified Gram-Schmidt QR from `tarch/la/GramSchmidt.h`, which is not part of this model, and on floating-point square roots.
- The non-2-D stub of `computeBoxMGIntergridTransferOperator` that returns zeros, and every 3-D `#elif` branch. The model fixes d = 2, so the 3-D Laplacian's third term, which passes `h(2)` instead of `h(1)` to its dimension-1 mass factor (matrixfree/stencil/StencilFactory.cpp:176-179, and :220-224 in the anisotropic version), is not represented.
- Gamma.Solve2x2System: the NaN and infinity assertions on the inverse determinant become the precondition that the determinant is nonzero, since reals have no NaN.
- Scatter.PositionsInA and Scatter.PositionsInOperator: the switch without a default leaves the result uninitialised for a vertex number of 4 or more; the model requires a number below 2^d.
- Solver.Multigrid.ComputeContributionWeightOfInterGridTransfer: the loop that computes `coarseGridVectorEntry` and never uses it (matrixfree/solver/Multigrid.cpp:175-180) is not modelled.
- Solver.Multigrid.GetNumberOfStencilUpdates: the counter is an unbounded `nat`, so the overflow of the C++ `int` counter is not modelled.
- Logging and trace macros, `setup()`, `plotStatistics()` and the destructor do nothing the model could observe.
- The MPI load-balancing oracles, the node-pool strategy and the shared-memory grain-size oracle (`mpibalancing/`, `sharedmemoryoracles/`) depend on MPI, singletons and wall-clock timing and are not part of this model.
- Floating-point rounding: `double` is modelled as `real`, so every equation holds exactly.
