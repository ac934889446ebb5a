/**
 * The linear Lagrange element on the reference segment `[0, 1]`: the two
 * basis functions `1 - c` and `c` (`LagrangeBasis`), their nodal and
 * partition-of-unity properties, and the element's one-dimensional mass
 * and stiffness matrices checked against the order-5 Gauss rule.
 */
module LineLagrange {
  import opened Gauss

  /** `LagrangeBasis[k](c)`: `1 - c` for the left node, `c` for the right one. */
  function LagrangeBasis(k: int, c: real): real
    requires 0 <= k < 2
  {
    if k == 0 then 1.0 - c else c
  }

  /** The constant slope of `LagrangeBasis[k]`. */
  function LagrangeSlope(k: int): real
    requires 0 <= k < 2
  {
    if k == 0 then -1.0 else 1.0
  }

  /** Basis function `k` is 1 at node `k` and 0 at the other node. */
  lemma LagrangeNodal(k: int, j: int)
    requires 0 <= k < 2 && 0 <= j < 2
    ensures LagrangeBasis(k, j as real) == if k == j then 1.0 else 0.0
  {
  }

  /** The two basis functions sum to 1 everywhere. */
  lemma LagrangeSum(c: real)
    ensures LagrangeBasis(0, c) + LagrangeBasis(1, c) == 1.0
  {
  }

  /** Reflecting the segment swaps the two basis functions. */
  lemma LagrangeMirror(c: real)
    ensures LagrangeBasis(0, c) == LagrangeBasis(1, 1.0 - c)
    ensures LagrangeBasis(1, c) == LagrangeBasis(0, 1.0 - c)
  {
  }

  /** Each basis function is affine with slope `LagrangeSlope(k)`. */
  lemma LagrangeAffine(k: int, c: real, d: real)
    requires 0 <= k < 2
    ensures LagrangeBasis(k, c + d) - LagrangeBasis(k, c) == d * LagrangeSlope(k)
  {
  }

  /** The slopes sum to 0, the derivative of the partition of unity. */
  lemma LagrangeSlopeSum()
    ensures LagrangeSlope(0) + LagrangeSlope(1) == 0.0
  {
  }

  // ---------------------------------------------------------------------
  // The 1D element matrices on [0, 1]
  // ---------------------------------------------------------------------

  /** `∫₀¹ Lᵢ Lⱼ`: 1/3 on the diagonal, 1/6 off it. */
  function Mass1(i: int, j: int): real
  {
    if i == j then 1.0 / 3.0 else 1.0 / 6.0
  }

  /** `∫₀¹ Lᵢ' Lⱼ'`: 1 on the diagonal, -1 off it. */
  function Stiff1(i: int, j: int): real
  {
    if i == j then 1.0 else -1.0
  }

  /** The product `Lᵢ Lⱼ` as a polynomial `b c² + c' c + d`: its coefficients. */
  function ProductSquare(i: int, j: int): real { if i == j then 1.0 else -1.0 }
  function ProductLinear(i: int, j: int): real { if i == j && i == 0 then -2.0 else if i == j then 0.0 else 1.0 }
  function ProductConstant(i: int, j: int): real { if i == 0 && j == 0 then 1.0 else 0.0 }

  lemma ProductCoefficients(i: int, j: int, c: real)
    requires 0 <= i < 2 && 0 <= j < 2
    ensures LagrangeBasis(i, c) * LagrangeBasis(j, c)
         == Cubic(0.0, ProductSquare(i, j), ProductLinear(i, j), ProductConstant(i, j), c)
  {
    if i == 0 && j == 0 {
      assert (1.0 - c) * (1.0 - c) == c * c - 2.0 * c + 1.0;
    } else if i == 0 {
      assert (1.0 - c) * c == c - c * c;
    } else if j == 0 {
      assert c * (1.0 - c) == c - c * c;
    }
  }

  /** The exact integral over `[0, 1]` of that polynomial is `Mass1(i, j)`. */
  lemma ProductArea(i: int, j: int)
    requires 0 <= i < 2 && 0 <= j < 2
    ensures CubicPrimitive(0.0, ProductSquare(i, j), ProductLinear(i, j), ProductConstant(i, j), 1.0)
          - CubicPrimitive(0.0, ProductSquare(i, j), ProductLinear(i, j), ProductConstant(i, j), 0.0)
         == Mass1(i, j)
  {
  }

  /**
   * The order-5 Gauss rule applied to `Lᵢ Lⱼ` on `[0, 1]` gives `Mass1(i, j)`:
   * the mass matrix below is the one the element's basis defines.
   */
  lemma MassByQuadrature(s: real, i: int, j: int)
    requires IsRoot(s)
    requires 0 <= i < 2 && 0 <= j < 2
    ensures Integral1(Rule1D(s), 0.0, 1.0, (c: real) => LagrangeBasis(i, c) * LagrangeBasis(j, c)) == Mass1(i, j)
  {
    var f := (c: real) => LagrangeBasis(i, c) * LagrangeBasis(j, c);
    var b, c1, d := ProductSquare(i, j), ProductLinear(i, j), ProductConstant(i, j);
    forall x: real
      ensures f(x) == Cubic(0.0, b, c1, d, x)
    {
      ProductCoefficients(i, j, x);
    }
    ExactCubic(s, 0.0, b, c1, d, 0.0, 1.0, f);
    ProductArea(i, j);
  }

  /** `Stiff1` is the product of the constant slopes (the segment has length 1). */
  lemma StiffBySlopes(i: int, j: int)
    requires 0 <= i < 2 && 0 <= j < 2
    ensures Stiff1(i, j) == LagrangeSlope(i) * LagrangeSlope(j)
  {
  }
}
