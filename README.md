# ContModel core in Dafny

This project models the numerical core of ContModel, a finite-element solver for
two-dimensional boundary-value problems on rectangular meshes. It covers:

- **Sparse matrices.** Two formats, with a matrix-vector product and an
  enumeration of the non-zero values for each:
  - MSR: a diagonal plus compressed off-diagonal slots;
  - nine-diagonal: a diagonal, four lower and four upper bands, with bands 1-3
    displaced by `Gap`.
- **Banded assembly.** `DiagSlaeBuilderHermit` scatters 4 × 4 element blocks into
  the nine-diagonal format, then patches zero diagonal entries.
- **Search helpers.** `QFind` (binary lower-bound search) and `LFind` (linear
  search).
- **The rectangular mesh.** Its refinement into geometric node sequences, the
  halving refinement, degree-of-freedom numbering, and subdomain and element
  lookup.
- **The conjugate-gradient solver.** Its scratch buffers, iteration loop,
  stopping test and final residual.
- **Gauss-Legendre quadrature.** The three-point rule of order 5, its tensor
  product on rectangles, and its exactness.
- **Finite-element bases.** The 1D linear Lagrange and cubic Hermite bases, the
  bilinear Lagrange basis with its template matrices, and the 16-function
  bicubic Hermite index map.

How the model is built:

- **Numbers.** Doubles are exact reals and C# `int` is an unbounded integer.
- **One module per source file:**
  - `Gauss`, `LineLagrange`, `LineHermite`, `RectHermite`, `RectLagrange`;
  - `RectMeshes`, `MsrMatrices`, `Diag9Matrices`;
  - `SlaeBuilderShared`, `DiagSlaeBuilders`, `CgmHosts`.
- **Helper modules.** `Wrappers` holds `Option`/`Result` for the operations that
  throw, and the zero vector. `Partition` holds the row ranges of the parallel products.
- **Classes for the state the source updates in place.** These are
  `MsrMatrix`, `Diag9Matrix`, `RectMesh`, `RefineParams`,
  `DiagSlaeBuilderHermit` and `CgmHost`. Their loops are `while`/`for` loops
  proved against functions that state what they compute.
- **Functions and lemmas for pure code.** Each property is proved about those
  functions as lemmas.

## Model

| member | source | states |
|---|---|---|
| Partition.ChunkEnd | Main/Matrices/MsrMatrix.cs:59-67 | a worker range starting at `lo` is non-empty, ends within the rows, and is either a full grain or the last range |
| Gauss.MapNodes1At | Main/Quadrature/Gauss.cs:44-52 | node `i` of the mapped 1D rule is node `i` of the rule moved by `h(p + 1)/2 + p0`, weight kept |
| Gauss.MapNodes2At | Main/Quadrature/Gauss.cs:19-30 | node `i` of the mapped 2D rule has each coordinate moved onto its side of the rectangle, weight kept |
| Gauss.RowsLength | Main/Quadrature/Gauss.cs:88-107 | the tensor rows of `outer` against `d` hold `|outer| · |d|` nodes |
| Gauss.RowsAt | Main/Quadrature/Gauss.cs:94-103 | node `i·|d| + j` of the rows pairs `outer[i]` with `d[j]` |
| Gauss.TensorIndex | Main/Quadrature/Gauss.cs:88-107 | the 2D rule has `len²` nodes and node `i·len + j` has point `(pᵢ, pⱼ)` and weight `wᵢ·wⱼ` |
| Gauss.RuleCell | Main/Quadrature/Gauss.cs:94-103 | node `3i + j` of the order-5 2D rule pairs the 1D nodes `i` and `j` |
| Gauss.Get1DOrder5 | Main/Quadrature/Gauss.cs:65-86 | the loop fills the rule `-s, 0, s` with weights `5/9, 8/9, 5/9` |
| Gauss.Make2D | Main/Quadrature/Gauss.cs:88-107 | the nested loops with a running index produce exactly the tensor-product rule |
| Gauss.Get2DOrder5 | Main/Quadrature/Gauss.cs:58-62 | the 2D rule is the tensor product of the 1D rule |
| Gauss.Integrate1DOrder5 | Main/Quadrature/Gauss.cs:36-56 | the result is the rule's weighted sum at the mapped nodes times `h/2` |
| Gauss.IntegrateNodes1 | Main/Quadrature/Gauss.cs:40-55 | the accumulation loop over any node list computes the mapped weighted sum times `h/2` |
| Gauss.Integrate2DOrder5 | Main/Quadrature/Gauss.cs:10-34 | the result is the 2D rule's weighted sum at the mapped nodes times `hx·hy/4` |
| Gauss.IntegrateNodes2 | Main/Quadrature/Gauss.cs:14-33 | the accumulation loop over any node list computes the mapped weighted sum times `hx·hy/4` |
| Gauss.WSumLinear | Main/Quadrature/Gauss.cs:43-52 | the weighted sum is linear in the integrand |
| Gauss.RuleSum | Main/Quadrature/Gauss.cs:65-76 | the three-point sum is `5/9 f(-s) + 8/9 f(0) + 5/9 f(s)` |
| Gauss.TensorRuleSum | Main/Quadrature/Gauss.cs:88-107 | the nine-point sum has corner weights `25/81`, edge weights `40/81` and centre weight `64/81` |
| Gauss.WeightsSum | Main/Quadrature/Gauss.cs:72-76 | the 1D weights sum to 2, the length of `[-1, 1]`, and the 2D weights to 4, its area |
| Gauss.RuleNodes | Main/Quadrature/Gauss.cs:67-76 | the nodes lie in `[-1, 1]` with positive weights, symmetric about 0 with equal outer weights |
| Gauss.AffineInside | Main/Quadrature/Gauss.cs:49 | the map sends `-1` to `p0` and `1` to `p0 + h`, and keeps `[-1, 1]` inside `[p0, p0 + h]` |
| Gauss.EvaluatedInside | Main/Quadrature/Gauss.cs:44-52 | every point where the 1D integrator evaluates `func` lies in `[p0, p1]` |
| Gauss.Integral1Rule | Main/Quadrature/Gauss.cs:36-56 | the 1D integral is the three-point combination at the mapped nodes times `h/2` |
| Gauss.MappedCells | Main/Quadrature/Gauss.cs:19-30 | the nine nodes of the 2D rule on a rectangle, with their points and weights evaluated |
| Gauss.MappedTensorSum | Main/Quadrature/Gauss.cs:19-30 | the 2D weighted sum on a rectangle is the nine-point combination at the mapped nodes |
| Gauss.Integral2Rule | Main/Quadrature/Gauss.cs:10-34 | the 2D integral is the nine-point combination at the mapped nodes times `hx·hy/4` |
| Gauss.Integral1Linear | Main/Quadrature/Gauss.cs:36-56 | the 1D integrator is linear in the integrand |
| Gauss.Integral2Linear | Main/Quadrature/Gauss.cs:10-34 | the 2D integrator is linear in the integrand |
| Gauss.NineProduct | Main/Quadrature/Gauss.cs:98-101 | for `f(x, y) = g(x)·k(y)` the nine-point combination is the product of the two three-point ones |
| Gauss.ProductIntegral | Main/Quadrature/Gauss.cs:10-34 | a product integrand integrates over a rectangle to the product of the 1D integrals over its sides |
| Gauss.ConstantExact1 | Main/Quadrature/Gauss.cs:36-56 | a constant `c` integrates to `c·h` |
| Gauss.ConstantExact2 | Main/Quadrature/Gauss.cs:10-34 | a constant `c` integrates to `c·hx·hy` |
| Gauss.ExactToDegree5 | Main/Quadrature/Gauss.cs:65-86 | on `[-1, 1]` every polynomial of degree at most 5 is integrated exactly |
| Gauss.NotExactDegree6 | Main/Quadrature/Gauss.cs:65-86 | `x⁶` gives `6/25` instead of its integral `2/7`, so degree 5 is the limit |
| Gauss.ExactCubic | Main/Quadrature/Gauss.cs:36-56 | on any interval every cubic is integrated exactly, as the difference of its antiderivative |
| Gauss.ExampleCubicTemplate | Main.Tests/UnitTest1.cs:13-23 | `x³ + 2x + 1` over `[-1, 1]` gives 2 |
| Gauss.ExampleQuadratic | Main.Tests/UnitTest1.cs:25-35 | `0.1x² - 2x - 10` over `[-10, 20]` gives -300 |
| Gauss.SquareExample | Main.Tests/UnitTest1.cs:38-62 | `x²y² + x + y` over any square `[-r, r]²` gives its exact integral `(2r³/3)²` |
| Gauss.ExampleSquares | Main.Tests/UnitTest1.cs:38-62 | that integrand gives `4/9` on `[-1, 1]²` and `444444 + 4/9` on `[-10, 10]²` |
| LineLagrange.LagrangeNodal | Main/FiniteElements/Line/Lagrange.cs:12-13 | basis function `k` is 1 at node `k` and 0 at the other node |
| LineLagrange.LagrangeSum | Main/FiniteElements/Line/Lagrange.cs:12-13 | the two functions sum to 1 everywhere |
| LineLagrange.LagrangeMirror | Main/FiniteElements/Line/Lagrange.cs:12-13 | reflecting `c ↦ 1 - c` swaps the two functions |
| LineLagrange.LagrangeAffine | Main/FiniteElements/Line/Lagrange.cs:12-13 | each function is affine with slope -1 or 1 |
| LineLagrange.LagrangeSlopeSum | Main/FiniteElements/Line/Lagrange.cs:12-13 | the slopes sum to 0 |
| LineLagrange.ProductCoefficients | Main/FiniteElements/Line/Lagrange.cs:12-13 | the product of two basis functions is the stated quadratic |
| LineLagrange.MassByQuadrature | Main/FiniteElements/Line/Lagrange.cs:12-13 | the order-5 rule gives `∫₀¹ LᵢLⱼ` as `1/3` on the diagonal and `1/6` off it |
| LineLagrange.StiffBySlopes | Main/FiniteElements/Line/Lagrange.cs:12-13 | the 1D stiffness entries `±1` are the products of the slopes |
| LineHermite.HermiteAsCubic | Main/FiniteElements/Line/Hermit.cs:12-15 | each basis function is the cubic with the stated coefficients |
| LineHermite.HermiteExpansion | Main/FiniteElements/Line/Hermit.cs:12-15 | the stated slope is the derivative, via the exact expansion of the function around `a` |
| LineHermite.HermiteNodalValues | Main/FiniteElements/Line/Hermit.cs:12-15 | `Basis[2j]` is 1 at end `j` and every other function is 0 there |
| LineHermite.HermiteNodalSlopes | Main/FiniteElements/Line/Hermit.cs:12-15 | `Basis[2j+1]` has slope 1 at end `j` and every other function has slope 0 there |
| LineHermite.HermiteValueSum | Main/FiniteElements/Line/Hermit.cs:12-14 | the two value functions sum to 1 |
| LineHermite.HermiteMirror | Main/FiniteElements/Line/Hermit.cs:12-15 | reflection maps the left value function to the right one and negates the slope function |
| LineHermite.HermiteFactored | Main/FiniteElements/Line/Hermit.cs:13-15 | the slope functions are `a(1 - a)²` and `a²(a - 1)` |
| RectHermite.Mu | Main/FiniteElements/Rectangle/Hermit.cs:13 | for `i >= 0` the x index is in `[0, 4)` |
| RectHermite.Nu | Main/FiniteElements/Rectangle/Hermit.cs:14 | for `i < 16` the y index is in `[0, 4)` |
| RectHermite.NuLeavesTable | Main/FiniteElements/Rectangle/Hermit.cs:14 | from `i = 16` on the y index leaves the four 1D functions |
| RectHermite.MuNuOfDof | Main/FiniteElements/Rectangle/Hermit.cs:13-14 | on the number of a degree of freedom, `mu = 2cx + ox` and `nu = 2cy + oy` |
| RectHermite.MuNuBits | Main/FiniteElements/Rectangle/Hermit.cs:13-14 | the bits of `mu` and `nu` are the four bits of `i` |
| RectHermite.IndexOfMuNu | Main/FiniteElements/Rectangle/Hermit.cs:13-14 | `Index` inverts `(mu, nu)` on `[0, 16)` |
| RectHermite.MuNuOfIndex | Main/FiniteElements/Rectangle/Hermit.cs:13-14 | `(mu, nu)` inverts `Index` on `[0, 4)²`, so every pair is reached |
| RectHermite.MuNuInjective | Main/FiniteElements/Rectangle/Hermit.cs:13-14 | no two basis functions use the same pair of 1D functions |
| RectHermite.Dof1Nodal | Main/FiniteElements/Line/Hermit.cs:12-15 | the value or slope of a 1D function at an end is 1 for exactly one function |
| RectHermite.SameDof | Main/FiniteElements/Rectangle/Hermit.cs:13-14 | `i` uses the 1D functions of a degree of freedom iff `i` is that degree of freedom's number |
| RectHermite.CornerProduct | Main/FiniteElements/Rectangle/Hermit.cs:16-17 | a derivative at a corner is a product of two 1D Kronecker deltas |
| RectHermite.BasisDofs | Main/FiniteElements/Rectangle/Hermit.cs:11-18 | derivative `(ox, oy)` of `Basis(i)` at corner `(cx, cy)` is 1 iff `i = ox + 2oy + 4cx + 8cy`, else 0 |
| RectHermite.BasisCornerValues | Main/FiniteElements/Rectangle/Hermit.cs:16-17 | at corner `(cx, cy)` only `Basis(4cx + 8cy)` is non-zero, and it is 1 |
| RectLagrange.NodeBits | Main/FiniteElements/Rectangle/Lagrange.cs:10-16 | vertex `i` sits at `(i % 2, i / 2)` |
| RectLagrange.BasisSum | Main/FiniteElements/Rectangle/Lagrange.cs:10-16 | the four bilinear functions sum to 1 |
| RectLagrange.BasisTensor | Main/FiniteElements/Rectangle/Lagrange.cs:10-16 | each bilinear function is a product of two 1D Lagrange functions |
| RectLagrange.BasisKronecker | Main/FiniteElements/Rectangle/Lagrange.cs:10-16 | function `i` is 1 at vertex `i` and 0 at the other three |
| RectLagrange.BasisSlopeX | Main/FiniteElements/Rectangle/Lagrange.cs:18-36 | `BasisGrad[i, 0]` is the exact x-derivative of `Basis[i]` |
| RectLagrange.BasisSlopeY | Main/FiniteElements/Rectangle/Lagrange.cs:18-36 | `BasisGrad[i, 1]` is the exact y-derivative of `Basis[i]` |
| RectLagrange.GradTensor | Main/FiniteElements/Rectangle/Lagrange.cs:18-36 | the gradient is a 1D slope times a 1D basis value |
| RectLagrange.GradSum | Main/FiniteElements/Rectangle/Lagrange.cs:18-36 | each gradient component sums to 0 over the four functions |
| RectLagrange.TemplatesSymmetric | Main/FiniteElements/Rectangle/Lagrange.cs:112-129 | `LocalG1`, `LocalG2` and `LocalM` are symmetric 4 × 4 matrices |
| RectLagrange.TemplateRowSums | Main/FiniteElements/Rectangle/Lagrange.cs:112-129 | the rows of `LocalG1` and `LocalG2` sum to 0 and those of `LocalM` to 9 |
| RectLagrange.TemplatesTensor | Main/FiniteElements/Rectangle/Lagrange.cs:112-129 | each template entry is 36 or 6 times the product of the 1D mass and stiffness entries of its vertices |
| RectLagrange.ComputeLocalBTempl | Main/FiniteElements/Rectangle/Lagrange.cs:131-151 | `res = hx·hy/36 · LocalM · (f1, f2, f3, f4)`, the coefficient taken at the corners |
| RectLagrange.MassTotal | Main/FiniteElements/Rectangle/Lagrange.cs:124-129 | the entries of `LocalM · v` sum to `9 Σ v` |
| RectLagrange.LoadTotal | Main/FiniteElements/Rectangle/Lagrange.cs:145-148 | the local vector sums to the area times the corner mean of `f` |
| RectLagrange.AverageBetween | Main/FiniteElements/Rectangle/Lagrange.cs:155-173 | the corner average lies between any bounds of the four corner values |
| RectLagrange.AverageOfCorners | Main/FiniteElements/Rectangle/Lagrange.cs:155-173 | the average weighs the four corners equally |
| RectLagrange.ComputeLocalTempl | Main/FiniteElements/Rectangle/Lagrange.cs:153-191 | entry `(i, j)` is `λ_avg/6 (hy/hx G1ᵢⱼ + hx/hy G2ᵢⱼ) + γ_avg/36 hx hy Mᵢⱼ` |
| RectLagrange.LocalSymmetric | Main/FiniteElements/Rectangle/Lagrange.cs:185-186 | the local matrix is symmetric |
| RectLagrange.LocalRowSum | Main/FiniteElements/Rectangle/Lagrange.cs:175-188 | each row of the local matrix sums to `γ_avg·hx·hy/4` |
| RectMeshes.SumOnes | Main/RectMesh.cs:43 | unit split counts sum to their number |
| RectMeshes.SumDouble | Main/RectMesh.cs:139-148 | doubling every split count doubles their sum |
| RectMeshes.SumPrefixMonotone | Main/RectMesh.cs:171 | with non-negative counts a longer prefix sums to at least as much |
| RectMeshes.NodesWrittenVersusAllocated | Main/RectMesh.cs:171-203 | the loop writes at least the `Sum + 1` nodes it allocates, and exactly that many iff every split count is at least 1 |
| RectMeshes.GeometricSum | Main/RectMesh.cs:156-158 | `(1 - b)(1 + b + … + bⁿ⁻¹) = 1 - bⁿ` |
| RectMeshes.StepsUniform | Main/RectMesh.cs:159-161 | with ratio 1 the steps sum to `n` |
| RectMeshes.StepsRatio | Main/RectMesh.cs:156-158 | `(1 - bⁿ)/(1 - b)` is the geometric sum of the steps |
| RectMeshes.StepsClosedForm | Main/RectMesh.cs:153-164 | both branches of the denominator compute the positive sum of the `n` growing steps |
| RectMeshes.FirstStepSize | Main/RectMesh.cs:153-164 | the first step times the geometric sum of the steps is the gap |
| RectMeshes.OffsetIsSteps | Main/RectMesh.cs:186-200 | both branches of `step_n` place node `k` at `k` growing steps from the knot |
| RectMeshes.OffsetOne | Main/RectMesh.cs:186 | the first interior node is one first step past the knot |
| RectMeshes.OffsetGrows | Main/RectMesh.cs:189-200 | with a positive gap each node lies strictly past the previous one |
| RectMeshes.OffsetsIncrease | Main/RectMesh.cs:189-200 | node offsets within a segment strictly increase |
| RectMeshes.SegmentCloses | Main/RectMesh.cs:185-202 | after `seg_count` steps the segment reaches the next knot exactly |
| RectMeshes.Segment | Main/RectMesh.cs:185-203 | a gap contributes `seg_count` nodes, the last being the next knot |
| RectMeshes.SegmentIncreasing | Main/RectMesh.cs:185-203 | the nodes of a segment with positive gap increase strictly from past the knot |
| RectMeshes.AxisUpTo | Main/RectMesh.cs:171-204 | the axis over `n` knots has `Σ split + 1` nodes, starts at the first knot and ends at knot `n - 1` |
| RectMeshes.Axis | Main/RectMesh.cs:171-173 | the refined axis has `XSplitCount.Sum() + 1` nodes |
| RectMeshes.AxisKnot | Main/RectMesh.cs:201-202 | knot `i` lands at the sum of the split counts before it |
| RectMeshes.AxisInterior | Main/RectMesh.cs:189-200 | node `k` of gap `i` lies `Offset(k)` past knot `i` |
| RectMeshes.AxisIncreasing | Main/RectMesh.cs:171-204 | with increasing knots and positive ratios the refined axis is strictly increasing |
| RectMeshes.AxisExtend | Main/RectMesh.cs:178-204 | each pass of the outer loop appends the next segment |
| RectMeshes.HalvedAxis | Main/RectMesh.cs:137-151 | doubled counts with square-rooted ratios stay valid, double the number of gaps and double every knot position |
| RectMeshes.AxisUnsplit | Main/RectMesh.cs:33-47 | with one step per gap the refined axis is the initial one, the constructor's copy |
| RectMeshes.KnotOnAxis | Main/RectMesh.cs:201-202 | the recorded position of knot `i` is a node, and that node is the knot |
| RectMeshes.FillSegment | Main/RectMesh.cs:185-200 | the inner loop writes the segment after the knot at `idx` and leaves the prefix |
| RectMeshes.RefineGap | Main/RectMesh.cs:178-204 | one outer pass extends the axis by a segment and records the knot position `IXw[i]` |
| RectMeshes.RefineAxis | Main/RectMesh.cs:170-205 | the refinement of one axis yields the refined axis and the positions of its knots |
| RectMeshes.FirstMatchSpec | Main/RectMesh.cs:67-93 | the search returns the first subdomain that passes, `null` iff none does, and fails at the first failing test |
| RectMeshes.ElementIn | Main/RectMesh.cs:71-72 | true iff the knot indices are readable and the element lies in the half-open knot box; fails only on a bad index |
| RectMeshes.PointIn | Main/RectMesh.cs:85-86 | true iff the indices are readable and the point lies in the closed box; fails only on a bad index |
| RectMeshes.ScanAxisSpec | Main/RectMesh.cs:99-106 | a found index is the first gap holding the coordinate; an index error happens only when no gap holds it and the last node is at most the coordinate |
| RectMeshes.ScanAxisInside | Main/RectMesh.cs:99-106 | on an ascending axis a coordinate between the first and the last node is found |
| RectMeshes.ScanAxisAgrees | Main/RectMesh.cs:99-115 | the scan as written agrees with the intended one except where it reads past the end |
| RectMeshes.ScanAxisPastEnd | Main/RectMesh.cs:99-106 | a coordinate right of the last node gives an index error where `-1` was intended |
| RectMeshes.PastEndNotFound | Main/RectMesh.cs:99-106 | right of the last node no gap holds the coordinate |
| RectMeshes.ScanAxisCounterexample | Main/RectMesh.cs:99-106 | on the axis `[0, 1]` the coordinate 2 ends in an index error |
| RectMeshes.ScanAxisFixedSpec | Main/RectMesh.cs:99-106 | the intended scan finds a gap iff the axis has two nodes and the coordinate lies between its ends |
| RectMeshes.FixedBounds | Main/RectMesh.cs:99-106 | the intended scan returns -1 or a gap whose ends enclose the coordinate |
| RectMeshes.ElCoordsFixed | Main/RectMesh.cs:95-122 | the intended lookup succeeds iff the point is inside both axes, with gaps that enclose it, and otherwise fails with "Bad" |
| RectMeshes.RefineParams.constructor | Main/RectMesh.cs:41-48 | the four arrays are stored as given |
| RectMeshes.RefineParams.HalveX | Main/RectMesh.cs:139-143 | every x split count is doubled and every ratio replaced by its root; the y arrays are kept |
| RectMeshes.RefineParams.HalveY | Main/RectMesh.cs:144-148 | every y split count is doubled and every ratio replaced by its root; the x arrays are kept |
| RectMeshes.RectMesh.constructor | Main/RectMesh.cs:23-49 | axes are copied, knot `i` is node `i`, the node and element counts are set, and every split is 1 with ratio 1 |
| RectMeshes.RectMesh.Refine | Main/RectMesh.cs:166-245 | the axes and knot positions become the refinement by the given parameters and the counts are recomputed |
| RectMeshes.RectMesh.RefineDiv2 | Main/RectMesh.cs:137-151 | split counts double, ratios become their roots, the number of gaps doubles and every knot position doubles |
| RectMeshes.RectMesh.GetDofAtInitNode | Main/RectMesh.cs:57-65 | succeeds iff both knot indices are readable; a bad index is an index error |
| RectMeshes.RectMesh.GetSubdomNumAtElCoords | Main/RectMesh.cs:67-79 | returns the first subdomain whose knot box holds the element |
| RectMeshes.RectMesh.GetSubdomNumAtPoint | Main/RectMesh.cs:81-93 | returns the first subdomain whose closed box holds the point |
| RectMeshes.RectMesh.GetElCoordsAtPoint | Main/RectMesh.cs:95-122 | the two scans as written, then "Bad" if either found nothing |
| RectMeshes.RowMajor | Main/RectMesh.cs:64 | `iy·n + ix` has remainder `ix` and quotient `iy` and lies below `n·rows` |
| RectMeshes.DofAtInitNode | Main/RectMesh.cs:57-65 | the number of an initial node is a mesh node whose row and column are the knot's positions, carrying the knot's coordinates |
| RectMeshes.UnsplitValid | Main/RectMesh.cs:33-47 | the constructor's parameters are valid and keep the knots where they are |
| MsrMatrices.RowReadable | Main/Matrices/MsrMatrix.cs:67-76 | under the structural precondition every slot and column a row reads is in range |
| MsrMatrices.Product | Main/Matrices/MsrMatrix.cs:67-76 | row `i` is `Di[i]·v[i] + Σ Elems[a]·v[Ja[a]]` over the row's slots |
| MsrMatrices.MulResult | Main/Matrices/MsrMatrix.cs:56-95 | rows `0 .. Ia.Length-2` hold the product and the tail of `res` is kept |
| MsrMatrices.MulIdempotent | Main/Matrices/MsrMatrix.cs:56-95 | a second `Mul` with the same vector leaves `res` unchanged |
| MsrMatrices.NonZeros | Main/Matrices/MsrMatrix.cs:45 | the values kept from a slot range are all non-zero |
| MsrMatrices.LowerEnd | Main/Matrices/MsrMatrix.cs:40-47 | the first loop stops at the first slot whose column is past the diagonal, or at the row's end |
| MsrMatrices.FlatRowShape | Main/Matrices/MsrMatrix.cs:35-52 | a row yields the non-zero lower run, then `Di[i]`, then the rest; its length is one plus its non-zero count |
| MsrMatrices.FlatRowOffDiagonalNonZero | Main/Matrices/MsrMatrix.cs:45-51 | every value besides the diagonal is non-zero |
| MsrMatrices.FlatNonZeroLength | Main/Matrices/MsrMatrix.cs:31-54 | the enumeration has `rows + #(non-zero Elems in [Ia[0], Ia[rows]))` values |
| MsrMatrices.FlatFromLength | Main/Matrices/MsrMatrix.cs:31-54 | the same count for the rows from `i` on |
| MsrMatrices.MsrMatrix.constructor | Main.Tests/HalvesTests/MsrHalvesTests.cs:49-54 | the object holds four fresh arrays with the given contents |
| MsrMatrices.MsrMatrix.Size | Main/Matrices/MsrMatrix.cs:17 | `Size` is `Di.Length` |
| MsrMatrices.MsrMatrix.RowDot | Main/Matrices/MsrMatrix.cs:69-76 | the row loop computes row `i` of the product |
| MsrMatrices.MsrMatrix.MulRange | Main/Matrices/MsrMatrix.cs:67-77 | a worker writes the product rows of its range and nothing else |
| MsrMatrices.MsrMatrix.Mul | Main/Matrices/MsrMatrix.cs:58-79 | the parallel branch fails on an empty row range, otherwise it leaves the product rows and keeps the tail |
| MsrMatrices.MsrMatrix.MulSequential | Main/Matrices/MsrMatrix.cs:80-94 | the sequential branch produces the same result as the parallel one |
| MsrMatrices.SomeSlaeWellFormed | Main.Tests/HalvesTests/MsrHalvesTests.cs:45-58 | the fixture is multipliable by a 5-vector and has five rows |
| MsrMatrices.SomeSlaeRow0 | Main.Tests/HalvesTests/MsrHalvesTests.cs:45-58 | fixture row 0 yields `[1, 0.5]` |
| MsrMatrices.SomeSlaeRow1 | Main.Tests/HalvesTests/MsrHalvesTests.cs:45-58 | fixture row 1 yields `[0.5, 1]` |
| MsrMatrices.SomeSlaeRow2 | Main.Tests/HalvesTests/MsrHalvesTests.cs:45-58 | fixture row 2 yields `[1, 0.5]` |
| MsrMatrices.SomeSlaeRow3 | Main.Tests/HalvesTests/MsrHalvesTests.cs:45-58 | fixture row 3 yields `[1]` |
| MsrMatrices.SomeSlaeRow4 | Main.Tests/HalvesTests/MsrHalvesTests.cs:45-58 | fixture row 4 yields `[0.5, 1]` (its slot has column 3, below the diagonal) |
| MsrMatrices.SomeSlaeFlat | Main.Tests/HalvesTests/MsrHalvesTests.cs:45-58 | the fixture enumerates as `[1, .5, .5, 1, 1, .5, 1, .5, 1]` |
| MsrMatrices.SomeSlaeOneSlotRow | Main.Tests/HalvesTests/MsrHalvesTests.cs:45-58 | each fixture row with one slot gives 1.5 against the all-ones vector |
| MsrMatrices.SomeSlaeEmptyRow | Main.Tests/HalvesTests/MsrHalvesTests.cs:45-58 | the empty row 3 gives 1 |
| MsrMatrices.SomeSlaeProduct | Main.Tests/HalvesTests/MsrHalvesTests.cs:45-58 | the fixture times the all-ones vector is `[1.5, 1.5, 1.5, 1, 1.5]`, which is not the fixture's `b` |
| Diag9Matrices.PresentInRange | Main/Matrices/Diag9Matrix.cs:90-108 | each one-sided guard (`t >= 0` below, `t < Size` above) holds iff the column is a column of the matrix |
| Diag9Matrices.RowNine | Main/Matrices/Diag9Matrix.cs:86-110 | a row of the product is the sum of its nine guarded terms |
| Diag9Matrices.LowerStep | Main/Matrices/Diag9Matrix.cs:90-97 | a guarded lower-band statement adds that band's term, reading `Ld_k` at the column |
| Diag9Matrices.DiagStep | Main/Matrices/Diag9Matrix.cs:99 | the diagonal statement adds the diagonal term |
| Diag9Matrices.UpperStep | Main/Matrices/Diag9Matrix.cs:101-108 | a guarded upper-band statement adds that band's term, reading `Rd_k` at the row |
| Diag9Matrices.Product | Main/Matrices/Diag9Matrix.cs:86-111 | `Size` rows, row `i` being the row sum |
| Diag9Matrices.MulResult | Main/Matrices/Diag9Matrix.cs:76-114 | the first `Size` entries hold the product and the tail of `res` is kept |
| Diag9Matrices.MulIdempotent | Main/Matrices/Diag9Matrix.cs:76-114 | a second `Mul` with the same vector leaves `res` unchanged |
| Diag9Matrices.EntryNine | Main/Matrices/Diag9Matrix.cs:86-110 | a dense entry is the sum of the nine band contributions |
| Diag9Matrices.EntryLayout | Main/Matrices/Diag9Matrix.cs:24-29 | with `Gap >= 1`, `Di[j]` is entry `(j, j)`, `Ld_k[j]` is entry `(j + off_k, j)` and `Rd_k[j]` is entry `(j, j + off_k)` |
| Diag9Matrices.RowValueOfUnit | Main/Matrices/Diag9Matrix.cs:86-110 | `Mul` of a unit vector `e_c` gives column `c` of the represented matrix |
| Diag9Matrices.RowValueLinear | Main/Matrices/Diag9Matrix.cs:86-110 | each product row is linear in the vector |
| Diag9Matrices.TermLinear | Main/Matrices/Diag9Matrix.cs:90-108 | each guarded term is linear in the vector |
| Diag9Matrices.RowLinearFromTerms | Main/Matrices/Diag9Matrix.cs:86-110 | a row is linear once each of its nine terms is |
| Diag9Matrices.EntrySymmetric | Main/Matrices/Diag9Matrix.cs:90-108 | when `Ld_k == Rd_k` for every `k` the represented matrix is symmetric |
| Diag9Matrices.FlatRowLength | Main/Matrices/Diag9Matrix.cs:52-73 | a row yields at most nine values, and the diagonal always yields one |
| Diag9Matrices.FlatRowShape | Main/Matrices/Diag9Matrix.cs:52-73 | a row yields `Di[i]` after its lower values, and every other value it yields is non-zero |
| Diag9Matrices.FlatFromLength | Main/Matrices/Diag9Matrix.cs:50-74 | `Size <= |FlatNonZero| <= 9·Size` |
| Diag9Matrices.FlatFiveRows | Main/Matrices/Diag9Matrix.cs:52-73 | a five-row enumeration is its five rows in order |
| Diag9Matrices.Diag9Matrix.constructor | Main.Tests/HalvesTests/DiagHalvesTests.cs:42-64 | the object holds nine fresh arrays and the gap of the given contents |
| Diag9Matrices.Diag9Matrix.Size | Main/Matrices/Diag9Matrix.cs:31 | `Size` is `Di.Length` |
| Diag9Matrices.Diag9Matrix.RowDot | Main/Matrices/Diag9Matrix.cs:88-110 | the row body computes row `i` of the product |
| Diag9Matrices.Diag9Matrix.LowerDot | Main/Matrices/Diag9Matrix.cs:88-97 | the four guarded lower statements sum the lower-band terms |
| Diag9Matrices.Diag9Matrix.UpperDot | Main/Matrices/Diag9Matrix.cs:101-108 | the four guarded upper statements add the upper-band terms |
| Diag9Matrices.Diag9Matrix.MulRange | Main/Matrices/Diag9Matrix.cs:86-111 | a worker writes the product rows of its range and nothing else |
| Diag9Matrices.Diag9Matrix.Mul | Main/Matrices/Diag9Matrix.cs:76-114 | fails on an empty matrix, otherwise leaves the product rows and keeps the tail |
| Diag9Matrices.SomeSlaeProductRow | Main.Tests/HalvesTests/DiagHalvesTests.cs:42-64 | fixture row `i` against all-ones is 1.5 in the two coupled rows and 1 below them |
| Diag9Matrices.SomeSlaeProduct | Main.Tests/HalvesTests/DiagHalvesTests.cs:42-64 | the fixture has mirrored bands and times all-ones gives its `b = [1.5, 1.5, 1, 1, 1]` |
| Diag9Matrices.SomeSlaeFlatRow0 | Main.Tests/HalvesTests/DiagHalvesTests.cs:42-64 | fixture row 0 yields `[1, 0.5]` |
| Diag9Matrices.SomeSlaeFlatRow1 | Main.Tests/HalvesTests/DiagHalvesTests.cs:42-64 | fixture row 1 yields `[0.5, 1]` |
| Diag9Matrices.SomeSlaeFlatRow2 | Main.Tests/HalvesTests/DiagHalvesTests.cs:42-64 | fixture row 2 yields `[1]` |
| Diag9Matrices.SomeSlaeFlatRow3 | Main.Tests/HalvesTests/DiagHalvesTests.cs:42-64 | fixture row 3 yields `[1]` |
| Diag9Matrices.SomeSlaeFlatRow4 | Main.Tests/HalvesTests/DiagHalvesTests.cs:42-64 | fixture row 4 yields `[1]` |
| Diag9Matrices.SomeSlaeFlat | Main.Tests/HalvesTests/DiagHalvesTests.cs:42-64 | the fixture enumerates as `[1, .5, .5, 1, 1, 1, 1]` |
| SlaeBuilderShared.LowerBound | Main/SlaeBuilder/SlaeBuilder.cs:45-61 | the reference lower bound: everything before it is below `x`, and the value at it is not |
| SlaeBuilderShared.LowerBoundSplits | Main/SlaeBuilder/SlaeBuilder.cs:45-61 | in a sorted range everything from the lower bound on is at least `x` |
| SlaeBuilderShared.LowerBoundUnique | Main/SlaeBuilder/SlaeBuilder.cs:45-61 | any split point into `< x` and `>= x` is the lower bound |
| SlaeBuilderShared.LowerBoundFinds | Main/SlaeBuilder/SlaeBuilder.cs:45-67 | in a sorted range the lower bound holds `x` iff `x` occurs |
| SlaeBuilderShared.Half | Main/SlaeBuilder/SlaeBuilder.cs:51 | `(beg + end) / 2` truncates toward zero: the remainder is 0 or 1 for a non-negative sum, 0 or -1 for a negative one |
| SlaeBuilderShared.SearchStepKeeps | Main/SlaeBuilder/SlaeBuilder.cs:48-60 | a pass of the loop strictly narrows the bounds within `[start, end]` and keeps everything left of `beg` below `what` and everything from `end` on at least `what` |
| SlaeBuilderShared.SearchStuck | Main/SlaeBuilder/SlaeBuilder.cs:48-60 | with `start = -1` on `[5]`, searching for 3 reaches the bounds `(-1, 0)`, which one more pass leaves unchanged: the loop never ends |
| SlaeBuilderShared.SearchPastEnd | Main/SlaeBuilder/SlaeBuilder.cs:48-60 | with `end` one past `[1, 2, 3, 4]`, searching for 1 probes only indices 2, 1 and 0 |
| SlaeBuilderShared.QFind | Main/SlaeBuilder/SlaeBuilder.cs:45-68 | on a sorted range it returns the first position of `what` when present and fails otherwise; success always means `where[r] == what` |
| SlaeBuilderShared.LFind | Main/SlaeBuilder/SlaeBuilder.cs:70-75 | succeeds iff `what` occurs from `start` on, returning its first position; otherwise it runs off the array |
| Wrappers.Zeros | Main/SlaeBuilder/MsrSlaeBuilderHermit.cs:55 | `Enumerable.Repeat(0, n)` and a fresh `new double[n]` are `n` zeros |
| DiagSlaeBuilders.Initial | Main/SlaeBuilder/MsrSlaeBuilderHermit.cs:51-68 | the initial system has arrays of length `n`, all zero, with mirrored bands |
| DiagSlaeBuilders.BandDistance | Main/SlaeBuilder/MsrSlaeBuilderHermit.cs:102-123 | with `Gap = X.Length - 2`, each pair of element nodes is as far apart as the band it is written to |
| DiagSlaeBuilders.AddElement | Main/SlaeBuilder/MsrSlaeBuilderHermit.cs:102-130 | the scatter keeps sizes and gap, and keeps `Ld_k == Rd_k` |
| DiagSlaeBuilders.EntryDiagonal | Main/Matrices/Diag9Matrix.cs:99 | the dense diagonal is `Di` when the bands are apart |
| DiagSlaeBuilders.AddElementEntries | Main/SlaeBuilder/MsrSlaeBuilderHermit.cs:102-123 | local entry `(r, c)` is added to the global entries `(node r, node c)` and `(node c, node r)` that `Mul` reads |
| DiagSlaeBuilders.AddElementRhs | Main/SlaeBuilder/MsrSlaeBuilderHermit.cs:125-130 | the local vector is added at the four element nodes and the rest of `b` is kept |
| DiagSlaeBuilders.ElementInside | Main/SlaeBuilder/MsrSlaeBuilderHermit.cs:90-118 | the four nodes of an element are mesh nodes |
| DiagSlaeBuilders.Step | Main/SlaeBuilder/MsrSlaeBuilderHermit.cs:94-130 | one element keeps sizes, gap and mirrored bands, leaves the system unchanged outside every subdomain, and fails iff the subdomain lookup fails |
| DiagSlaeBuilders.AssembleRow | Main/SlaeBuilder/MsrSlaeBuilderHermit.cs:92-131 | a row of elements keeps sizes, gap and mirrored bands |
| DiagSlaeBuilders.Assemble | Main/SlaeBuilder/MsrSlaeBuilderHermit.cs:90-132 | the element loops keep sizes, gap and mirrored bands |
| DiagSlaeBuilders.PatchDiag | Main/SlaeBuilder/MsrSlaeBuilderHermit.cs:136-142 | afterwards no diagonal entry is zero, and non-zero entries are kept |
| DiagSlaeBuilders.BuildResult | Main/SlaeBuilder/MsrSlaeBuilderHermit.cs:35-143 | a non-host mode is an invalid operation; a built system has `nodesCount` rows, mirrored bands, a non-zero diagonal and is multipliable |
| DiagSlaeBuilders.Construct | Main/SlaeBuilder/MsrSlaeBuilderHermit.cs:32-33 | construction always fails with "not implemented" |
| DiagSlaeBuilders.DiagSlaeBuilderHermit.constructor | Main/SlaeBuilder/MsrSlaeBuilderHermit.cs:15-30 | mesh and functions are stored, host mode is set, and the system is empty |
| DiagSlaeBuilders.DiagSlaeBuilderHermit.GlobalMatrixPortraitCompose | Main/SlaeBuilder/MsrSlaeBuilderHermit.cs:70-74 | only the gap changes, to `X.Length - 2` |
| DiagSlaeBuilders.DiagSlaeBuilderHermit.GlobalMatrixInit | Main/SlaeBuilder/MsrSlaeBuilderHermit.cs:51-68 | the system becomes the zero system of `nodesCount` rows with that gap |
| DiagSlaeBuilders.DiagSlaeBuilderHermit.Scatter | Main/SlaeBuilder/MsrSlaeBuilderHermit.cs:102-130 | the twenty `+=` updates leave the system `AddElement` describes |
| DiagSlaeBuilders.DiagSlaeBuilderHermit.StepAt | Main/SlaeBuilder/MsrSlaeBuilderHermit.cs:94-131 | the loop body leaves the state `Step` describes, and fails exactly when it does, with the system untouched |
| DiagSlaeBuilders.DiagSlaeBuilderHermit.AssembleRowAt | Main/SlaeBuilder/MsrSlaeBuilderHermit.cs:92-131 | the inner loop leaves the state `AssembleRow` describes |
| DiagSlaeBuilders.DiagSlaeBuilderHermit.PatchDiagonal | Main/SlaeBuilder/MsrSlaeBuilderHermit.cs:136-142 | the patch loop replaces the diagonal by its patched version, nothing else |
| DiagSlaeBuilders.DiagSlaeBuilderHermit.GlobalMatrixBuildImplHost | Main/SlaeBuilder/MsrSlaeBuilderHermit.cs:88-143 | the assembled and patched system, or the lookup failure |
| DiagSlaeBuilders.DiagSlaeBuilderHermit.GlobalMatrixBuild | Main/SlaeBuilder/MsrSlaeBuilderHermit.cs:76-86 | only host mode builds; every other mode is an invalid operation and leaves the system unchanged |
| DiagSlaeBuilders.DiagSlaeBuilderHermit.Build | Main/SlaeBuilder/MsrSlaeBuilderHermit.cs:35-49 | init then build gives `BuildResult` |
| CgmHosts.Start | Main/SlaeSolver/CgmHost.cs:65-78 | the state before the loop keeps `x` and `az` and has every vector of length `n` |
| CgmHosts.Iterate | Main/SlaeSolver/CgmHost.cs:83-102 | one pass keeps every vector's length |
| CgmHosts.LoopFrom | Main/SlaeSolver/CgmHost.cs:80-110 | the loop entered at `iter` stops at the first pass whose state passes the test, or after `maxIter`, with the state of that pass |
| CgmHosts.LoopCount | Main/SlaeSolver/CgmHost.cs:80-110 | `iter` is in `[0, maxIter]`; below `maxIter` it is the pass that converged, and the state is the state after that pass |
| CgmHosts.LoopExhausted | Main/SlaeSolver/CgmHost.cs:80-110 | `iter == maxIter` iff no pass passed the stopping test |
| CgmHosts.MulCallsBounds | Main/SlaeSolver/CgmHost.cs:69-112 | `Mul` is called between 2 and `maxIter + 2` times, `maxIter + 2` only when the loop ran to its last pass |
| CgmHosts.CgmHost.constructor | Main/SlaeSolver/CgmHost.cs:21-32 | stores `maxIter`, `eps / 1e7`, size 0 and empty scratch vectors |
| CgmHosts.CgmHost.AllocateTemps | Main/SlaeSolver/CgmHost.cs:39-51 | for the same `n` nothing changes; otherwise the five scratch vectors are fresh zeros of length `n`, or the allocation fails for negative `n` |
| CgmHosts.CgmHost.Pass | Main/SlaeSolver/CgmHost.cs:83-102 | one pass of the loop body on the arrays is the step `Iterate` |
| CgmHosts.CgmHost.Solve | Main/SlaeSolver/CgmHost.cs:53-119 | `x` ends as the state of the loop; the returned `iter`, residual and scratch vectors are those of the source's steps |
| CgmHosts.CgmHost.SolveSized | Main/SlaeSolver/CgmHost.cs:57-119 | the same once the scratch vectors have the length of `x` |
| CgmHosts.CgmHost.Residual | Main/SlaeSolver/CgmHost.cs:112-116 | `z = A x`, `r = b - z`, and the returned discrepancy is `r·r` |
| CgmHosts.CgmHost.Iterations | Main/SlaeSolver/CgmHost.cs:65-110 | the set-up and the loop leave the state and `iter` that `Loop` describes |

## Left out

- IEEE doubles, rounding and test tolerances: the model uses exact reals, so the tolerances of the tests become equalities.
- 32-bit overflow of `int` arithmetic (`(beg + end) / 2`, `yi * X.Length + xi`, node counts): the model uses unbounded integers.
- `sqrt(0.6)` is a parameter `s` with `s > 0` and `s² = 3/5`. The square roots that `RefineDiv2` takes are a parameter with `r > 0` and `r² = ratio`.
- `GetComputeMatrix`, OpenCL and the device builders are not part of this model; they live in a library that is not shown.
- The `Parallel.ForEach`/`Partitioner` machinery and the unsafe pointers in both `Mul` methods: the workers run one after another over the ranges of a grain given as a parameter. Each worker writes its own rows, so the order does not change the result.
- `Shared.Add` (an atomic add) is not part of this model: it is only used for concurrency.
- MsrMatrices.MsrMatrix.Mul and Diag9Matrices.Diag9Matrix.Mul: require `res` to be an array other than `vec` and the matrix's own arrays. The C# spans may alias; the result of an aliased call, where a row reads values already overwritten, is not modelled.
- The half-multiply operators and the host/device parity tests: they are not in the modelled classes. Only the test fixtures are used, as `Mul` and `FlatNonZero` examples.
- Quadrature over the `TaskFuncs` callbacks is not modelled: `ComputeLocal`/`ComputeLocalB` in Main/FiniteElements/Rectangle/Lagrange.cs:38-109. The builder takes the local block and vector as inputs (`LocalFuncs`).
- `Cubic.Basis(i)` for `i < 0` or `i >= 16` reads outside the 1D table and throws `IndexOutOfRangeException`. For a negative `i`, C#'s `i % 2` is -1 and the index leaves the table. The model defines the basis only on `[0, 16)`: `Mu` and `Nu` promise their range only for `i >= 0` and `i < 16`, and `NuLeavesTable` shows where `i >= 16` leaves.
- The vector helpers `Dot`, `Axpy`, `Scale`, `Vmul`, `Rsqrt` and the matrix `Mul` seen by the solver are not shown in the source. They are parameters. Each in-place call is the function from what it reads to the new value of what it writes, and a result of the wrong length leaves the span as it was.
- CgmHosts.Iterate: line 95 calls `Vmul(di_inv, r)`, with its arguments in the opposite order to lines 74 and 77. The model keeps both outputs of the call and does not decide which span it writes.
- CgmHosts.Iterate: a zero denominator for `alpha` or `beta` gives infinity or NaN in floating point. The model's quotient gives 0 there. The stopping test with `b·b == 0` is modelled as failing, as a NaN comparison does.
- CgmHosts.CgmHost.Solve: requires `Di` and `b` to have the length of `x`. Other lengths depend on the unseen helpers.
- Convergence of the conjugate-gradient method is not modelled: the helpers are abstract.
- Trace and Stopwatch output in `Build` is not modelled.
- DiagSlaeBuilders.Construct: the constructor throws `NotImplementedException` before doing anything, so construction always fails. The rest of the builder is modelled as if the object existed: a class with the fields it would have.
- DiagSlaeBuilders.DiagSlaeBuilderHermit.Build: requires `nodesCount == X.Length · Y.Length`, which the mesh keeps but the builder does not check.
- DiagSlaeBuilders.AddElementEntries: requires `X.Length >= 3`. With two nodes per row the gap is 0 and bands 0 and 1 overlap, so an entry is the sum of two band slots.
- DiagSlaeBuilders: the global matrix under assembly is a value of the nine-diagonal datatype rather than the array-backed class. The `+=` updates are reassignments of its sequences.
- RectLagrange.ComputeLocalTempl: requires `hx != 0` and `hy != 0`. The source divides by them and would produce infinities.
- RectLagrange.ComputeLocalBTempl and RectLagrange.ComputeLocalTempl: the coefficients `F`, `Lambda` and `Gamma` are parameters.
- RectMeshes.RectMesh.constructor: requires both axes to be non-empty. With an empty axis, `Enumerable.Repeat` with a count of -1 throws.
- RectMeshes.RectMesh.Refine: requires every split count to be at least 1. For a count of 0 or less the loop still writes the closing knot, so it writes more nodes than the `Sum + 1` it allocates: `NodesWrittenVersusAllocated` proves this. The source then throws `IndexOutOfRangeException`, or `OverflowException` when the sum is below -1. That error path is not modelled.
- RectMeshes.RectMesh.Refine and RectMeshes.RefineAxis: require split and stretch lengths of `|w| - 1` per axis, one entry per gap, which the source does not check. With longer arrays the loop reads only the first `|w| - 1` entries but allocates `Sum + 1` nodes over all the counts. The tail of the axis then stays 0.0, and the node and element counts include it, with no error. With shorter arrays, reading `XSplitCount[i - 1]` or `XStretchRatio[i - 1]` throws `IndexOutOfRangeException`. Neither case is modelled.
- RectMeshes.RectMesh.Refine: requires every stretch ratio to be positive. The source does not check this and raises no error otherwise; the nodes simply stop increasing. Every caller in the repository passes 1 (Main/Main.cs:131-137, Main.Tests/SlaeBuildersTests.cs:33-38), and the model's refined axes are proved strictly increasing under this condition.
- Boundary conditions are not modelled: the mesh stores them but the modelled operations never read them.
- RectMeshes.RectMesh.GetElCoordsAtPoint: modelled as written, with the index error (see Findings). `ElCoordsFixed` is the intended lookup.
- SlaeBuilderShared.QFind: requires `0 <= start`. With a negative `start`, C#'s truncating `/ 2` can stop the loop from making progress, so it never ends. `SearchStuck` shows this on `[5]` searching for 3 from `(-1, 1)`: the bounds reach `(-1, 0)` and stay there. Non-termination is not modelled. An `end` past the array is modelled: depending on the values met, the search succeeds (`SearchPastEnd`), fails, or probes outside the array.
- The `GlobalMatrixImplType` enum is a datatype, and `GlobalMatrixBuild` accepts only `Host`.

## Findings

| source | as written | input that shows it | evidently intended | confidence | as-written member | corrected member |
|---|---|---|---|---|---|---|
| Main/RectMesh.cs:99-115 | both scans of `GetElCoordsAtPoint` run `i` up to `X.Length - 1` and read `X[i + 1]` | `X = [0, 1]`, `x = 2`: at `i = 1` the test `X[1] <= 2` holds and `X[2]` is read, giving `IndexOutOfRangeException` instead of the "Bad" exception | run `i` up to `X.Length - 2`, so that a point outside the axes reaches "Bad" | not executed | RectMeshes.ScanAxisCounterexample | RectMeshes.ElCoordsFixed |
