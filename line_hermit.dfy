/**
 * The cubic Hermite element on the reference segment `[0, 1]`: four cubics,
 * a value and a slope function for each end (`Basis[0..3]`), with their
 * nodal values, nodal slopes, symmetry and factored forms.
 */
module LineHermite {
  import opened Gauss

  /**
   * `Basis[k](a)`: the value function of the left end (k = 0), the slope
   * function of the left end (k = 1), the value function of the right end
   * (k = 2) and the slope function of the right end (k = 3).
   */
  function HermiteBasis(k: int, a: real): real
    requires 0 <= k < 4
  {
    if k == 0 then 1.0 - 3.0 * a * a + 2.0 * a * a * a
    else if k == 1 then a - 2.0 * a * a + a * a * a
    else if k == 2 then 3.0 * a * a - 2.0 * a * a * a
    else -a * a + a * a * a
  }

  /** The coefficients of `HermiteBasis(k, ·)` as a cubic, highest power first. */
  function Lead(k: int): real { if k == 0 then 2.0 else if k == 1 then 1.0 else if k == 2 then -2.0 else 1.0 }
  function Quad(k: int): real { if k == 0 then -3.0 else if k == 1 then -2.0 else if k == 2 then 3.0 else -1.0 }
  function Lin(k: int): real { if k == 1 then 1.0 else 0.0 }
  function Const(k: int): real { if k == 0 then 1.0 else 0.0 }

  /** The derivative of `HermiteBasis(k, ·)` at `a`. */
  function HermiteSlope(k: int, a: real): real
  {
    3.0 * Lead(k) * (a * a) + 2.0 * Quad(k) * a + Lin(k)
  }

  /** Each basis function is the cubic with those coefficients. */
  lemma HermiteAsCubic(k: int, a: real)
    requires 0 <= k < 4
    ensures HermiteBasis(k, a) == Cubic(Lead(k), Quad(k), Lin(k), Const(k), a)
  {
    assert a * a * a == a * (a * a);
  }

  /** The exact expansion of a cubic around `a`: its linear term is the slope at `a`. */
  lemma CubicTaylor(c3: real, c2: real, c1: real, c0: real, a: real, d: real)
    ensures Cubic(c3, c2, c1, c0, a + d)
         == Cubic(c3, c2, c1, c0, a) + d * (3.0 * c3 * (a * a) + 2.0 * c2 * a + c1)
          + (d * d) * (c2 + 3.0 * c3 * a) + (d * d * d) * c3
  {
    assert (a + d) * (a + d) == a * a + 2.0 * a * d + d * d;
    assert (a + d) * (a + d) * (a + d) == a * a * a + 3.0 * (a * a) * d + 3.0 * a * (d * d) + d * d * d;
  }

  /**
   * `HermiteSlope` is the derivative: moving by `d` changes the basis
   * function by `d · HermiteSlope(k, a)` up to terms in `d²` and `d³`.
   */
  lemma HermiteExpansion(k: int, a: real, d: real)
    requires 0 <= k < 4
    ensures HermiteBasis(k, a + d)
         == HermiteBasis(k, a) + d * HermiteSlope(k, a) + (d * d) * (Quad(k) + 3.0 * Lead(k) * a) + (d * d * d) * Lead(k)
  {
    HermiteAsCubic(k, a);
    HermiteAsCubic(k, a + d);
    CubicTaylor(Lead(k), Quad(k), Lin(k), Const(k), a, d);
  }

  /** Values at the ends: `Basis[2j]` is 1 at end `j`, every other basis function is 0 there. */
  lemma HermiteNodalValues(k: int, j: int)
    requires 0 <= k < 4 && 0 <= j < 2
    ensures HermiteBasis(k, j as real) == if k == 2 * j then 1.0 else 0.0
  {
  }

  /** Slopes at the ends: `Basis[2j + 1]` has slope 1 at end `j`, every other basis function slope 0. */
  lemma HermiteNodalSlopes(k: int, j: int)
    requires 0 <= k < 4 && 0 <= j < 2
    ensures HermiteSlope(k, j as real) == if k == 2 * j + 1 then 1.0 else 0.0
  {
  }

  /** The two value functions sum to 1 everywhere. */
  lemma HermiteValueSum(a: real)
    ensures HermiteBasis(0, a) + HermiteBasis(2, a) == 1.0
  {
  }

  /** Reflecting the segment maps the left value function to the right one and negates the slope function. */
  lemma HermiteMirror(a: real)
    ensures HermiteBasis(2, a) == HermiteBasis(0, 1.0 - a)
    ensures HermiteBasis(3, a) == -HermiteBasis(1, 1.0 - a)
  {
    var b := 1.0 - a;
    assert b * b == 1.0 - 2.0 * a + a * a;
    assert b * b * b == 1.0 - 3.0 * a + 3.0 * (a * a) - a * a * a;
  }

  /** The slope functions in factored form: `a(1 - a)²` and `a²(a - 1)`. */
  lemma HermiteFactored(a: real)
    ensures HermiteBasis(1, a) == a * ((1.0 - a) * (1.0 - a))
    ensures HermiteBasis(3, a) == (a * a) * (a - 1.0)
  {
    assert (1.0 - a) * (1.0 - a) == 1.0 - 2.0 * a + a * a;
  }
}
