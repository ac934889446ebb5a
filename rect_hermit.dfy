/**
 * The bicubic Hermite element on the reference square `[0, 1]²`: basis
 * function `i` (0 ≤ i < 16) is the product of the 1D Hermite functions
 * `mu(i)` in x and `nu(i)` in y. The index arithmetic is a bijection onto
 * the pairs `[0, 4)²`, and basis function `i` is the one that carries
 * degree of freedom `i`: derivative orders `i % 2` in x and `(i / 2) % 2`
 * in y, at corner `((i / 4) % 2, i / 8)`.
 */
module RectHermite {
  import opened Gauss
  import opened LineHermite

  /** The index of the 1D function in x. */
  function Mu(i: int): (m: int)
    ensures i >= 0 ==> 0 <= m < 4
  {
    2 * ((i / 4) % 2) + i % 2
  }

  /** The index of the 1D function in y. */
  function Nu(i: int): (n: int)
    ensures 0 <= i < 16 ==> 0 <= n < 4
  {
    2 * (i / 8) + (i / 2) % 2
  }

  /** `Basis(i)` evaluated at `p`: `Dim1.Basis[mu](p.X) · Dim1.Basis[nu](p.Y)`. */
  function Basis(i: int, p: Pair): real
    requires 0 <= i < 16
  {
    HermiteBasis(Mu(i), p.x) * HermiteBasis(Nu(i), p.y)
  }

  /** From index 16 on `nu` leaves the 1D table: `Basis(i)` is only defined below 16. */
  lemma NuLeavesTable(i: int)
    requires i >= 16
    ensures Nu(i) >= 4
  {
  }

  /** The number of the degree of freedom with derivative orders `(ox, oy)` at corner `(cx, cy)`. */
  function DofNumber(ox: int, oy: int, cx: int, cy: int): int
  {
    ox + 2 * oy + 4 * cx + 8 * cy
  }

  /** Division by 2, 4 or 8 recovered from a quotient and remainder. */
  lemma DivMod(x: int, d: int, q: int, r: int)
    requires d == 2 || d == 4 || d == 8
    requires x == d * q + r && 0 <= r < d
    ensures x / d == q && x % d == r
  {
  }

  /** Every index below 16 is the number of the degree of freedom given by its four bits. */
  lemma Bits(i: int)
    requires 0 <= i < 16
    ensures 0 <= i / 8 < 2
    ensures i == DofNumber(i % 2, (i / 2) % 2, (i / 4) % 2, i / 8)
  {
    var b0, h := i % 2, i / 2;
    var b1, q := h % 2, h / 2;
    var low2 := b0 + 2 * b1;
    DivMod(i, 4, q, low2);
    var b2, b3 := q % 2, q / 2;
    var low3 := low2 + 4 * b2;
    DivMod(i, 8, b3, low3);
  }

  /** On a degree-of-freedom number, `mu` is `2cx + ox` and `nu` is `2cy + oy`. */
  lemma MuNuOfDof(ox: int, oy: int, cx: int, cy: int)
    requires 0 <= ox < 2 && 0 <= oy < 2 && 0 <= cx < 2 && 0 <= cy < 2
    ensures Mu(DofNumber(ox, oy, cx, cy)) == 2 * cx + ox && Nu(DofNumber(ox, oy, cx, cy)) == 2 * cy + oy
  {
    var x := DofNumber(ox, oy, cx, cy);
    var half, quarter, low2, low3 := oy + 2 * cx + 4 * cy, cx + 2 * cy, ox + 2 * oy, ox + 2 * oy + 4 * cx;
    DivMod(x, 2, half, ox);
    DivMod(x, 4, quarter, low2);
    DivMod(x, 8, cy, low3);
    DivMod(quarter, 2, cy, cx);
    DivMod(half, 2, quarter, oy);
  }

  /** The low bit of each index is the corresponding bit of `i`, the high bit another bit of `i`. */
  lemma MuNuBits(i: int)
    requires 0 <= i < 16
    ensures Mu(i) % 2 == i % 2 && Nu(i) % 2 == (i / 2) % 2
    ensures Mu(i) / 2 == (i / 4) % 2 && Nu(i) / 2 == i / 8
  {
    Bits(i);
    var ox, oy, cx, cy := i % 2, (i / 2) % 2, (i / 4) % 2, i / 8;
    MuNuOfDof(ox, oy, cx, cy);
    var m, n := 2 * cx + ox, 2 * cy + oy;
    DivMod(m, 2, cx, ox);
    DivMod(n, 2, cy, oy);
  }

  /** The inverse of `i ↦ (mu, nu)`. */
  function Index(m: int, n: int): int
  {
    8 * (n / 2) + 4 * (m / 2) + 2 * (n % 2) + m % 2
  }

  /** `Index` undoes `(Mu, Nu)` on `[0, 16)`. */
  lemma IndexOfMuNu(i: int)
    requires 0 <= i < 16
    ensures 0 <= Index(Mu(i), Nu(i)) < 16 && Index(Mu(i), Nu(i)) == i
  {
    MuNuBits(i);
    Bits(i);
  }

  /** `(Mu, Nu)` undoes `Index` on `[0, 4)²`: every pair is reached. */
  lemma MuNuOfIndex(m: int, n: int)
    requires 0 <= m < 4 && 0 <= n < 4
    ensures 0 <= Index(m, n) < 16 && Mu(Index(m, n)) == m && Nu(Index(m, n)) == n
  {
    var ox, oy, cx, cy := m % 2, n % 2, m / 2, n / 2;
    assert Index(m, n) == DofNumber(ox, oy, cx, cy);
    MuNuOfDof(ox, oy, cx, cy);
  }

  /** No two basis functions use the same pair of 1D functions. */
  lemma MuNuInjective(i: int, j: int)
    requires 0 <= i < 16 && 0 <= j < 16
    requires Mu(i) == Mu(j) && Nu(i) == Nu(j)
    ensures i == j
  {
    IndexOfMuNu(i);
    IndexOfMuNu(j);
  }

  // ---------------------------------------------------------------------
  // Degrees of freedom
  // ---------------------------------------------------------------------

  /** The 1D function `k` (o = 0) or its derivative (o = 1). */
  function Dof1(k: int, o: int, a: real): real
    requires 0 <= k < 4 && 0 <= o < 2
  {
    if o == 0 then HermiteBasis(k, a) else HermiteSlope(k, a)
  }

  /** End `j` of the segment carries value and slope: `Dof1` there is 1 exactly for `k = 2j + o`. */
  lemma Dof1Nodal(k: int, o: int, j: int)
    requires 0 <= k < 4 && 0 <= o < 2 && 0 <= j < 2
    ensures Dof1(k, o, j as real) == if k == 2 * j + o then 1.0 else 0.0
  {
    if o == 0 {
      HermiteNodalValues(k, j);
    } else {
      HermiteNodalSlopes(k, j);
    }
  }

  /**
   * The derivative of `Basis(i)` of order `ox` in x and `oy` in y (orders 0
   * or 1); with both orders 0 it is `Basis(i)` itself.
   */
  function BasisDerivative(i: int, ox: int, oy: int, p: Pair): real
    requires 0 <= i < 16 && 0 <= ox < 2 && 0 <= oy < 2
  {
    Dof1(Mu(i), ox, p.x) * Dof1(Nu(i), oy, p.y)
  }

  /**
   * The Hermite property: derivative `(ox, oy)` of `Basis(i)` at corner
   * `(cx, cy)` is 1 when `i` is that degree of freedom's number and 0 otherwise.
   */
  lemma BasisDofs(i: int, ox: int, oy: int, cx: int, cy: int)
    requires 0 <= i < 16 && 0 <= ox < 2 && 0 <= oy < 2 && 0 <= cx < 2 && 0 <= cy < 2
    ensures BasisDerivative(i, ox, oy, Pair(cx as real, cy as real)) == if i == DofNumber(ox, oy, cx, cy) then 1.0 else 0.0
  {
    SameDof(i, ox, oy, cx, cy);
    CornerProduct(i, ox, oy, cx, cy);
  }

  /** `i` uses the 1D functions `2cx + ox` and `2cy + oy` exactly when it is that degree of freedom's number. */
  lemma SameDof(i: int, ox: int, oy: int, cx: int, cy: int)
    requires 0 <= i < 16 && 0 <= ox < 2 && 0 <= oy < 2 && 0 <= cx < 2 && 0 <= cy < 2
    ensures (Mu(i) == 2 * cx + ox && Nu(i) == 2 * cy + oy) <==> i == DofNumber(ox, oy, cx, cy)
  {
    var k := DofNumber(ox, oy, cx, cy);
    MuNuOfDof(ox, oy, cx, cy);
    if Mu(i) == 2 * cx + ox && Nu(i) == 2 * cy + oy {
      MuNuInjective(i, k);
    }
  }

  /** At a corner the derivative is the product of two 1D Kronecker deltas. */
  lemma CornerProduct(i: int, ox: int, oy: int, cx: int, cy: int)
    requires 0 <= i < 16 && 0 <= ox < 2 && 0 <= oy < 2 && 0 <= cx < 2 && 0 <= cy < 2
    ensures BasisDerivative(i, ox, oy, Pair(cx as real, cy as real))
         == if Mu(i) == 2 * cx + ox && Nu(i) == 2 * cy + oy then 1.0 else 0.0
  {
    var m, n, x, y := Mu(i), Nu(i), cx as real, cy as real;
    Dof1Nodal(m, ox, cx);
    Dof1Nodal(n, oy, cy);
    var a, b := Dof1(m, ox, x), Dof1(n, oy, y);
    assert BasisDerivative(i, ox, oy, Pair(x, y)) == a * b;
  }

  /** At the corners, only the four value functions `4cx + 8cy` are non-zero, and each is 1 at its own corner. */
  lemma BasisCornerValues(i: int, cx: int, cy: int)
    requires 0 <= i < 16 && 0 <= cx < 2 && 0 <= cy < 2
    ensures Basis(i, Pair(cx as real, cy as real)) == if i == 4 * cx + 8 * cy then 1.0 else 0.0
  {
    SameDof(i, 0, 0, cx, cy);
    var m, n, x, y := Mu(i), Nu(i), cx as real, cy as real;
    HermiteNodalValues(m, cx);
    HermiteNodalValues(n, cy);
    var a, b := HermiteBasis(m, x), HermiteBasis(n, y);
    assert Basis(i, Pair(x, y)) == a * b;
  }
}
