/**
 * The bilinear Lagrange element on a rectangle (`BiLinear`): the four basis
 * functions on the reference square `[0, 1]²` and their gradients, the
 * template matrices `LocalG1`, `LocalG2` and `LocalM`, and the closed-form
 * local load vector and local matrix of a rectangle with corners `p0`, `p1`.
 *
 * The problem's coefficients (`TaskFuncs.F`, `Gamma`, `Lambda`) are
 * parameters of type `(subdomain, x, y) -> value`.
 */
module RectLagrange {
  import opened Gauss
  import opened LineLagrange

  /** A coefficient of the problem, evaluated on a subdomain at a point. */
  type Coefficient = (int, real, real) -> real

  /** `Basis[i](vert)`: the basis function of template vertex `i`. */
  function Basis(i: int, v: Pair): real
    requires 0 <= i < 4
  {
    if i == 0 then (1.0 - v.x) * (1.0 - v.y)
    else if i == 1 then v.x * (1.0 - v.y)
    else if i == 2 then (1.0 - v.x) * v.y
    else v.x * v.y
  }

  /** `BasisGrad[i, d](vert)`: component `d` (0 = x, 1 = y) of the gradient of basis function `i`. */
  function BasisGrad(i: int, d: int, v: Pair): real
    requires 0 <= i < 4 && 0 <= d < 2
  {
    if i == 0 then (if d == 0 then -(1.0 - v.y) else -(1.0 - v.x))
    else if i == 1 then (if d == 0 then 1.0 - v.y else -v.x)
    else if i == 2 then (if d == 0 then -v.y else 1.0 - v.x)
    else (if d == 0 then v.y else v.x)
  }

  /** The template vertices in basis order: (0,0), (1,0), (0,1), (1,1). */
  function Vertex(j: int): Pair
    requires 0 <= j < 4
  {
    if j == 0 then Pair(0.0, 0.0)
    else if j == 1 then Pair(1.0, 0.0)
    else if j == 2 then Pair(0.0, 1.0)
    else Pair(1.0, 1.0)
  }

  /** The x and y positions of vertex `i` on the segment's two nodes: bit 0 and bit 1 of `i`. */
  function XNode(i: int): int { if i == 1 || i == 3 then 1 else 0 }
  function YNode(i: int): int { if i >= 2 then 1 else 0 }

  lemma NodeBits(i: int)
    requires 0 <= i < 4
    ensures XNode(i) == i % 2 && YNode(i) == i / 2
    ensures Vertex(i) == Pair(XNode(i) as real, YNode(i) as real)
  {
    assert i == 0 || i == 1 || i == 2 || i == 3;
  }

  // ---------------------------------------------------------------------
  // The basis
  // ---------------------------------------------------------------------

  /** The four basis functions sum to 1 everywhere. */
  lemma BasisSum(v: Pair)
    ensures Basis(0, v) + Basis(1, v) + Basis(2, v) + Basis(3, v) == 1.0
  {
    var x, y := v.x, v.y;
    assert (1.0 - x) * (1.0 - y) + x * (1.0 - y) == 1.0 - y;
    assert (1.0 - x) * y + x * y == y;
  }

  /** Each basis function is the product of the 1D Lagrange functions of its vertex's x and y node. */
  lemma BasisTensor(i: int, v: Pair)
    requires 0 <= i < 4
    ensures Basis(i, v) == LagrangeBasis(XNode(i), v.x) * LagrangeBasis(YNode(i), v.y)
  {
  }

  /** Basis function `i` is 1 at vertex `i` and 0 at the other three. */
  lemma BasisKronecker(i: int, j: int)
    requires 0 <= i < 4 && 0 <= j < 4
    ensures Basis(i, Vertex(j)) == if i == j then 1.0 else 0.0
  {
    NodeBits(j);
    var v := Vertex(j);
    BasisTensor(i, v);
    LagrangeNodal(XNode(i), XNode(j));
    LagrangeNodal(YNode(i), YNode(j));
    var a, b := LagrangeBasis(XNode(i), v.x), LagrangeBasis(YNode(i), v.y);
    assert Basis(i, v) == a * b;
  }

  /** Moving by `d` along x changes basis function `i` by `d` times the x component of its gradient. */
  lemma BasisSlopeX(i: int, v: Pair, d: real)
    requires 0 <= i < 4
    ensures Basis(i, Pair(v.x + d, v.y)) - Basis(i, v) == d * BasisGrad(i, 0, v)
  {
    var x, y := v.x, v.y;
    assert (1.0 - (x + d)) * (1.0 - y) - (1.0 - x) * (1.0 - y) == d * -(1.0 - y);
    assert (x + d) * (1.0 - y) - x * (1.0 - y) == d * (1.0 - y);
    assert (1.0 - (x + d)) * y - (1.0 - x) * y == d * -y;
    assert (x + d) * y - x * y == d * y;
  }

  /** Moving by `d` along y changes basis function `i` by `d` times the y component of its gradient. */
  lemma BasisSlopeY(i: int, v: Pair, d: real)
    requires 0 <= i < 4
    ensures Basis(i, Pair(v.x, v.y + d)) - Basis(i, v) == d * BasisGrad(i, 1, v)
  {
    var x, y := v.x, v.y;
    assert (1.0 - x) * (1.0 - (y + d)) - (1.0 - x) * (1.0 - y) == d * -(1.0 - x);
    assert x * (1.0 - (y + d)) - x * (1.0 - y) == d * -x;
    assert (1.0 - x) * (y + d) - (1.0 - x) * y == d * (1.0 - x);
    assert x * (y + d) - x * y == d * x;
  }

  /** The gradient is the tensor product of 1D slopes and 1D basis values. */
  lemma GradTensor(i: int, v: Pair)
    requires 0 <= i < 4
    ensures BasisGrad(i, 0, v) == LagrangeSlope(XNode(i)) * LagrangeBasis(YNode(i), v.y)
    ensures BasisGrad(i, 1, v) == LagrangeBasis(XNode(i), v.x) * LagrangeSlope(YNode(i))
  {
  }

  /** The gradients sum to 0 in each component, as the basis sums to a constant. */
  lemma GradSum(d: int, v: Pair)
    requires 0 <= d < 2
    ensures BasisGrad(0, d, v) + BasisGrad(1, d, v) + BasisGrad(2, d, v) + BasisGrad(3, d, v) == 0.0
  {
  }

  // ---------------------------------------------------------------------
  // Template matrices
  // ---------------------------------------------------------------------

  /** The stiffness template in x (Cartesian coordinates). */
  const LocalG1: seq<seq<real>> := [
    [ 2.0, -2.0,  1.0, -1.0],
    [-2.0,  2.0, -1.0,  1.0],
    [ 1.0, -1.0,  2.0, -2.0],
    [-1.0,  1.0, -2.0,  2.0]]

  /** The stiffness template in y. */
  const LocalG2: seq<seq<real>> := [
    [ 2.0,  1.0, -2.0, -1.0],
    [ 1.0,  2.0, -1.0, -2.0],
    [-2.0, -1.0,  2.0,  1.0],
    [-1.0, -2.0,  1.0,  2.0]]

  /** The mass template. */
  const LocalM: seq<seq<real>> := [
    [4.0, 2.0, 2.0, 1.0],
    [2.0, 4.0, 1.0, 2.0],
    [2.0, 1.0, 4.0, 2.0],
    [1.0, 2.0, 2.0, 4.0]]

  /** A 4 × 4 matrix. */
  predicate Square4(m: seq<seq<real>>)
  {
    |m| == 4 && forall i :: 0 <= i < 4 ==> |m[i]| == 4
  }

  predicate Symmetric4(m: seq<seq<real>>)
    requires Square4(m)
  {
    forall i, j :: 0 <= i < 4 && 0 <= j < 4 ==> m[i][j] == m[j][i]
  }

  function Sum4(r: seq<real>): real
    requires |r| == 4
  {
    r[0] + r[1] + r[2] + r[3]
  }

  /** The three templates are symmetric. */
  lemma TemplatesSymmetric()
    ensures Square4(LocalG1) && Square4(LocalG2) && Square4(LocalM)
    ensures Symmetric4(LocalG1) && Symmetric4(LocalG2) && Symmetric4(LocalM)
  {
  }

  /** The rows of `LocalG1` and `LocalG2` sum to 0 (constants have no gradient); those of `LocalM` sum to 9. */
  lemma TemplateRowSums(i: int)
    requires 0 <= i < 4
    ensures |LocalG1[i]| == 4 && |LocalG2[i]| == 4 && |LocalM[i]| == 4
    ensures Sum4(LocalG1[i]) == 0.0 && Sum4(LocalG2[i]) == 0.0 && Sum4(LocalM[i]) == 9.0
  {
  }

  /**
   * The templates are the tensor products of the 1D element matrices on
   * `[0, 1]`: `M = 36 (m ⊗ m)`, `G1 = 6 (k ⊗ m)`, `G2 = 6 (m ⊗ k)`,
   * where `m` is `Mass1` and `k` is `Stiff1`, indexed by the vertices' x and y nodes.
   */
  lemma TemplatesTensor(i: int, j: int)
    requires 0 <= i < 4 && 0 <= j < 4
    ensures LocalM[i][j] == 36.0 * (Mass1(XNode(i), XNode(j)) * Mass1(YNode(i), YNode(j)))
    ensures LocalG1[i][j] == 6.0 * (Stiff1(XNode(i), XNode(j)) * Mass1(YNode(i), YNode(j)))
    ensures LocalG2[i][j] == 6.0 * (Mass1(XNode(i), XNode(j)) * Stiff1(YNode(i), YNode(j)))
  {
  }

  // ---------------------------------------------------------------------
  // Local load vector
  // ---------------------------------------------------------------------

  /** The coefficient's values at the rectangle's corners, in vertex order. */
  function CornerValues(g: Coefficient, subDom: int, p0: Pair, p1: Pair): (r: seq<real>)
    ensures |r| == 4
  {
    [g(subDom, p0.x, p0.y), g(subDom, p1.x, p0.y), g(subDom, p0.x, p1.y), g(subDom, p1.x, p1.y)]
  }

  /** Row `i` of a 4 × 4 matrix times a 4-vector. */
  function RowTimes(m: seq<seq<real>>, v: seq<real>, i: int): real
    requires Square4(m) && |v| == 4 && 0 <= i < 4
  {
    m[i][0] * v[0] + m[i][1] * v[1] + m[i][2] * v[2] + m[i][3] * v[3]
  }

  /**
   * `ComputeLocalBTempl`: the load vector of a rectangle with the right-hand
   * side interpolated from its corners, `hx·hy/36 · LocalM · (f1, f2, f3, f4)`.
   */
  method ComputeLocalBTempl(f: Coefficient, p0: Pair, p1: Pair, subDom: int) returns (res: array<real>)
    ensures fresh(res) && res.Length == 4
    ensures Square4(LocalM)
    ensures forall i :: 0 <= i < 4 ==>
      res[i] == (p1.x - p0.x) * (p1.y - p0.y) / 36.0 * RowTimes(LocalM, CornerValues(f, subDom, p0, p1), i)
  {
    TemplatesSymmetric();
    res := new real[4];
    var f1 := f(subDom, p0.x, p0.y);
    var f2 := f(subDom, p1.x, p0.y);
    var f3 := f(subDom, p0.x, p1.y);
    var f4 := f(subDom, p1.x, p1.y);
    var hx := p1.x - p0.x;
    var hy := p1.y - p0.y;
    res[0] := hx * hy / 36.0 * (4.0 * f1 + 2.0 * f2 + 2.0 * f3 + f4);
    res[1] := hx * hy / 36.0 * (2.0 * f1 + 4.0 * f2 + f3 + 2.0 * f4);
    res[2] := hx * hy / 36.0 * (2.0 * f1 + f2 + 4.0 * f3 + 2.0 * f4);
    res[3] := hx * hy / 36.0 * (f1 + 2.0 * f2 + 2.0 * f3 + 4.0 * f4);
  }

  /** The columns of `LocalM` sum to 9, so `LocalM · v` sums to `9 Σ v`. */
  lemma MassTotal(v: seq<real>)
    requires |v| == 4
    ensures Square4(LocalM)
    ensures RowTimes(LocalM, v, 0) + RowTimes(LocalM, v, 1) + RowTimes(LocalM, v, 2) + RowTimes(LocalM, v, 3) == 9.0 * Sum4(v)
  {
  }

  /**
   * The load vector distributes `hx·hy` times the corner average of `f`:
   * for a constant right-hand side its entries add up to the exact integral.
   */
  lemma LoadTotal(v: seq<real>, area: real, b0: real, b1: real, b2: real, b3: real)
    requires |v| == 4 && Square4(LocalM)
    requires b0 == area / 36.0 * RowTimes(LocalM, v, 0) && b1 == area / 36.0 * RowTimes(LocalM, v, 1)
    requires b2 == area / 36.0 * RowTimes(LocalM, v, 2) && b3 == area / 36.0 * RowTimes(LocalM, v, 3)
    ensures b0 + b1 + b2 + b3 == area * (Sum4(v) / 4.0)
  {
    MassTotal(v);
    var r0, r1, r2, r3 := RowTimes(LocalM, v, 0), RowTimes(LocalM, v, 1), RowTimes(LocalM, v, 2), RowTimes(LocalM, v, 3);
    assert area / 36.0 * r0 + area / 36.0 * r1 + area / 36.0 * r2 + area / 36.0 * r3 == area / 36.0 * (r0 + r1 + r2 + r3);
  }

  // ---------------------------------------------------------------------
  // Local matrix
  // ---------------------------------------------------------------------

  /** `GetLamdaAverage` / `GetGammaAverage`: the mean of a coefficient over the rectangle's corners. */
  function CornerAverage(g: Coefficient, subDom: int, p0: Pair, p1: Pair): real
  {
    (g(subDom, p0.x, p0.y) + g(subDom, p1.x, p0.y) + g(subDom, p0.x, p1.y) + g(subDom, p1.x, p1.y)) / 4.0
  }

  /** The corner average lies between any bounds of the four corner values. */
  lemma AverageBetween(g: Coefficient, subDom: int, p0: Pair, p1: Pair, lo: real, hi: real)
    requires forall v :: v in CornerValues(g, subDom, p0, p1) ==> lo <= v <= hi
    ensures lo <= CornerAverage(g, subDom, p0, p1) <= hi
  {
    var c := CornerValues(g, subDom, p0, p1);
    assert c[0] in c && c[1] in c && c[2] in c && c[3] in c;
  }

  /** The average is `Sum4` of the corner values over 4: the corner values enter with equal weights. */
  lemma AverageOfCorners(g: Coefficient, subDom: int, p0: Pair, p1: Pair)
    ensures CornerAverage(g, subDom, p0, p1) == Sum4(CornerValues(g, subDom, p0, p1)) / 4.0
  {
  }

  /** Entry `(i, j)` of the local matrix: averaged stiffness `λ` plus averaged mass `γ`. */
  function LocalEntry(lAvg: real, gAvg: real, hx: real, hy: real, i: int, j: int): real
    requires hx != 0.0 && hy != 0.0
    requires 0 <= i < 4 && 0 <= j < 4
  {
    lAvg / 6.0 * (hy / hx * LocalG1[i][j] + hx / hy * LocalG2[i][j]) + gAvg / 36.0 * hx * hy * LocalM[i][j]
  }

  /**
   * `ComputeLocalTempl`: the local matrix of a rectangle with the
   * coefficients replaced by their corner averages.
   */
  method ComputeLocalTempl(lambda: Coefficient, gamma: Coefficient, p0: Pair, p1: Pair, subDom: int)
    returns (values: array2<real>)
    requires p1.x - p0.x != 0.0 && p1.y - p0.y != 0.0
    ensures fresh(values) && values.Length0 == 4 && values.Length1 == 4
    ensures forall i, j :: 0 <= i < 4 && 0 <= j < 4 ==>
      values[i, j] == LocalEntry(CornerAverage(lambda, subDom, p0, p1), CornerAverage(gamma, subDom, p0, p1),
                                 p1.x - p0.x, p1.y - p0.y, i, j)
  {
    var hy := p1.y - p0.y;
    var hx := p1.x - p0.x;
    var lAvg := CornerAverage(lambda, subDom, p0, p1);
    var gAvg := CornerAverage(gamma, subDom, p0, p1);
    values := new real[4, 4];
    for i := 0 to 4
      invariant forall r, c :: 0 <= r < i && 0 <= c < 4 ==> values[r, c] == LocalEntry(lAvg, gAvg, hx, hy, r, c)
    {
      for j := 0 to 4
        invariant forall r, c :: 0 <= r < i && 0 <= c < 4 ==> values[r, c] == LocalEntry(lAvg, gAvg, hx, hy, r, c)
        invariant forall c :: 0 <= c < j ==> values[i, c] == LocalEntry(lAvg, gAvg, hx, hy, i, c)
      {
        values[i, j] := lAvg / 6.0 * (hy / hx * LocalG1[i][j] + hx / hy * LocalG2[i][j])
          + gAvg / 36.0 * hx * hy * LocalM[i][j];
      }
    }
  }

  /** The local matrix is symmetric. */
  lemma LocalSymmetric(lAvg: real, gAvg: real, hx: real, hy: real, i: int, j: int)
    requires hx != 0.0 && hy != 0.0
    requires 0 <= i < 4 && 0 <= j < 4
    ensures LocalEntry(lAvg, gAvg, hx, hy, i, j) == LocalEntry(lAvg, gAvg, hx, hy, j, i)
  {
    TemplatesSymmetric();
  }

  /**
   * Each row of the local matrix sums to `γ_avg · hx · hy / 4`: the stiffness
   * part annihilates constants, the mass part integrates them.
   */
  lemma LocalRowSum(lAvg: real, gAvg: real, hx: real, hy: real, i: int)
    requires hx != 0.0 && hy != 0.0
    requires 0 <= i < 4
    ensures LocalEntry(lAvg, gAvg, hx, hy, i, 0) + LocalEntry(lAvg, gAvg, hx, hy, i, 1)
          + LocalEntry(lAvg, gAvg, hx, hy, i, 2) + LocalEntry(lAvg, gAvg, hx, hy, i, 3)
         == gAvg * hx * hy / 4.0
  {
    TemplateRowSums(i);
    var a, b, c, d := lAvg / 6.0, hy / hx, hx / hy, gAvg / 36.0 * hx * hy;
    RowCombination(a, b, c, d, LocalG1[i], LocalG2[i], LocalM[i]);
    assert d * 9.0 == gAvg * hx * hy / 4.0;
  }

  /** Summing `a (b g1ⱼ + c g2ⱼ) + d mⱼ` over a row factors through the row sums. */
  lemma RowCombination(a: real, b: real, c: real, d: real, g1: seq<real>, g2: seq<real>, m: seq<real>)
    requires |g1| == 4 && |g2| == 4 && |m| == 4
    ensures (a * (b * g1[0] + c * g2[0]) + d * m[0]) + (a * (b * g1[1] + c * g2[1]) + d * m[1])
          + (a * (b * g1[2] + c * g2[2]) + d * m[2]) + (a * (b * g1[3] + c * g2[3]) + d * m[3])
         == a * (b * Sum4(g1) + c * Sum4(g2)) + d * Sum4(m)
  {
  }
}
