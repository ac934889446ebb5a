/**
 * The nine-diagonal matrix: a main diagonal `Di`, four lower bands
 * `Ld0..Ld3` and four upper bands `Rd0..Rd3`. Band 0 sits next to the
 * diagonal; bands 1, 2, 3 follow each other, displaced by `Gap` further
 * (so `Gap == 1` packs all four side by side). Band `k` lies at distance
 * `Offset(k)` from the diagonal; a lower band is indexed by the column of
 * its entry, an upper band by the row.
 *
 * The nine terms of a row are numbered in the order `Mul` adds them:
 * `0..3` are the lower bands 3, 2, 1, 0, `4` the diagonal, `5..8` the upper
 * bands 0, 1, 2, 3.
 */
module Diag9Matrices {
  import Partition

  /** The contents of a nine-diagonal matrix. */
  datatype Diag9 = Diag9(
    ld3: seq<real>, ld2: seq<real>, ld1: seq<real>, ld0: seq<real>,
    di: seq<real>,
    rd0: seq<real>, rd1: seq<real>, rd2: seq<real>, rd3: seq<real>,
    gap: int)
  {
    /** `Size => Di.Length`. */
    function Size(): nat { |di| }

    /** Distance of band `k` from the diagonal. */
    function Offset(k: int): int { if k == 0 then 1 else k + gap }

    function Lower(k: int): seq<real>
      requires 0 <= k < 4
    {
      if k == 0 then ld0 else if k == 1 then ld1 else if k == 2 then ld2 else ld3
    }

    function Upper(k: int): seq<real>
      requires 0 <= k < 4
    {
      if k == 0 then rd0 else if k == 1 then rd1 else if k == 2 then rd2 else rd3
    }

    /**
     * What `Mul` and `FlatNonZero` read stays in bounds: no band lies above
     * (for the lower ones) or below (for the upper ones) the diagonal, and
     * band `k` holds a value for each of the `Size - Offset(k)` rows it meets.
     */
    predicate Readable()
    {
      && gap >= -1
      && |ld0| >= |di| - 1 && |rd0| >= |di| - 1
      && |ld1| >= |di| - (1 + gap) && |rd1| >= |di| - (1 + gap)
      && |ld2| >= |di| - (2 + gap) && |rd2| >= |di| - (2 + gap)
      && |ld3| >= |di| - (3 + gap) && |rd3| >= |di| - (3 + gap)
    }

    /** Besides, a vector of length `n` covers every row. */
    predicate Multipliable(n: int)
    {
      Readable() && |di| <= n
    }

    /** Every lower band equals the upper band at the same distance. */
    predicate BandsMirrored()
    {
      ld0 == rd0 && ld1 == rd1 && ld2 == rd2 && ld3 == rd3
    }
  }

  /** The column term `j` of row `i` refers to. */
  function Column(m: Diag9, i: int, j: int): int
  {
    if j < 4 then i - m.Offset(3 - j) else if j == 4 then i else i + m.Offset(j - 5)
  }

  /** The source's guard on term `j`: `t >= 0` for a lower band, `t < Size` for an upper one. */
  predicate Present(m: Diag9, i: int, j: int)
  {
    if j < 4 then Column(m, i, j) >= 0 else if j == 4 then true else Column(m, i, j) < m.Size()
  }

  /** The one-sided guards are exact: a term is present iff its column is a column of the matrix. */
  lemma PresentInRange(m: Diag9, i: int, j: int)
    requires m.Readable() && 0 <= i < m.Size() && 0 <= j < 9
    ensures Present(m, i, j) <==> 0 <= Column(m, i, j) < m.Size()
  {
  }

  /** The stored coefficient of term `j` of row `i`. */
  function Coef(m: Diag9, i: int, j: int): real
    requires m.Readable() && 0 <= i < m.Size() && 0 <= j < 9
    requires 0 <= Column(m, i, j) < m.Size()
  {
    if j < 4 then m.Lower(3 - j)[Column(m, i, j)]
    else if j == 4 then m.di[i]
    else m.Upper(j - 5)[i]
  }

  /** The value term `j` adds to `dot` in `Mul`. */
  function RowTerm(m: Diag9, v: seq<real>, i: int, j: int): real
    requires m.Multipliable(|v|) && 0 <= i < m.Size() && 0 <= j < 9
  {
    PresentInRange(m, i, j);
    if Present(m, i, j) then Coef(m, i, j) * v[Column(m, i, j)] else 0.0
  }

  /** `dot` after the first `k` terms of row `i`. */
  function RowUpTo(m: Diag9, v: seq<real>, i: int, k: int): real
    requires m.Multipliable(|v|) && 0 <= i < m.Size() && 0 <= k <= 9
  {
    if k == 0 then 0.0 else RowUpTo(m, v, i, k - 1) + RowTerm(m, v, i, k - 1)
  }

  /** Row `i` of the product. */
  function RowValue(m: Diag9, v: seq<real>, i: int): real
    requires m.Multipliable(|v|) && 0 <= i < m.Size()
  {
    RowUpTo(m, v, i, 9)
  }

  /** The nine terms of a row, written out. */
  lemma RowNine(m: Diag9, v: seq<real>, i: int)
    requires m.Multipliable(|v|) && 0 <= i < m.Size()
    ensures RowValue(m, v, i)
      == RowTerm(m, v, i, 0) + RowTerm(m, v, i, 1) + RowTerm(m, v, i, 2) + RowTerm(m, v, i, 3)
       + RowTerm(m, v, i, 4) + RowTerm(m, v, i, 5) + RowTerm(m, v, i, 6) + RowTerm(m, v, i, 7)
       + RowTerm(m, v, i, 8)
  {
    assert RowUpTo(m, v, i, 1) == RowTerm(m, v, i, 0);
    assert RowUpTo(m, v, i, 3) == RowUpTo(m, v, i, 1) + RowTerm(m, v, i, 1) + RowTerm(m, v, i, 2);
    assert RowUpTo(m, v, i, 5) == RowUpTo(m, v, i, 3) + RowTerm(m, v, i, 3) + RowTerm(m, v, i, 4);
    assert RowUpTo(m, v, i, 7) == RowUpTo(m, v, i, 5) + RowTerm(m, v, i, 5) + RowTerm(m, v, i, 6);
    assert RowUpTo(m, v, i, 9) == RowUpTo(m, v, i, 7) + RowTerm(m, v, i, 7) + RowTerm(m, v, i, 8);
  }

  /** Term `3 - k` of a row: lower band `k`, read at column `t = i - Offset(k)` when `t >= 0`. */
  lemma LowerStep(m: Diag9, v: seq<real>, i: int, k: int, t: int, s: real, d: real)
    requires m.Multipliable(|v|) && 0 <= i < m.Size() && 0 <= k < 4 && t == i - m.Offset(k)
    requires d == if t >= 0 then s + m.Lower(k)[t] * v[t] else s
    ensures d == s + RowTerm(m, v, i, 3 - k)
  {
    PresentInRange(m, i, 3 - k);
  }

  /** Term 4 of a row: the diagonal. */
  lemma DiagStep(m: Diag9, v: seq<real>, i: int, s: real, d: real)
    requires m.Multipliable(|v|) && 0 <= i < m.Size()
    requires d == s + m.di[i] * v[i]
    ensures d == s + RowTerm(m, v, i, 4)
  {
  }

  /** Term `5 + k` of a row: upper band `k`, read at row `i` when the column `t = i + Offset(k)` is below `Size`. */
  lemma UpperStep(m: Diag9, v: seq<real>, i: int, k: int, t: int, s: real, d: real)
    requires m.Multipliable(|v|) && 0 <= i < m.Size() && 0 <= k < 4 && t == i + m.Offset(k)
    requires d == if t < m.Size() then s + m.Upper(k)[i] * v[t] else s
    ensures d == s + RowTerm(m, v, i, 5 + k)
  {
    PresentInRange(m, i, 5 + k);
  }

  /** The rows `Mul` computes. */
  function Product(m: Diag9, v: seq<real>): (r: seq<real>)
    requires m.Multipliable(|v|)
    ensures |r| == m.Size()
    ensures forall i :: 0 <= i < m.Size() ==> r[i] == RowValue(m, v, i)
  {
    seq(m.Size(), i requires 0 <= i < m.Size() => RowValue(m, v, i))
  }

  /** The result vector after `Mul`: the product rows, then the untouched tail of `res`. */
  function MulResult(m: Diag9, v: seq<real>, res: seq<real>): (r: seq<real>)
    requires m.Multipliable(|v|) && m.Size() <= |res|
    ensures |r| == |res|
    ensures r[..m.Size()] == Product(m, v) && r[m.Size()..] == res[m.Size()..]
  {
    Product(m, v) + res[m.Size()..]
  }

  /** `Mul` is idempotent: a second call with the same vector leaves `res` as the first one left it. */
  lemma MulIdempotent(m: Diag9, v: seq<real>, res: seq<real>)
    requires m.Multipliable(|v|) && m.Size() <= |res|
    ensures MulResult(m, v, MulResult(m, v, res)) == MulResult(m, v, res)
  {
    var once := MulResult(m, v, res);
    assert once[m.Size()..] == res[m.Size()..];
  }

  // ---- The matrix the bands represent ----

  /** What term `j` of row `r` contributes to column `c`. */
  function Part(m: Diag9, r: int, c: int, j: int): real
    requires m.Readable() && 0 <= r < m.Size() && 0 <= c < m.Size() && 0 <= j < 9
  {
    if Column(m, r, j) == c then Coef(m, r, j) else 0.0
  }

  /** The first `k` terms' contributions to entry `(r, c)`. */
  function EntryUpTo(m: Diag9, r: int, c: int, k: int): real
    requires m.Readable() && 0 <= r < m.Size() && 0 <= c < m.Size() && 0 <= k <= 9
  {
    if k == 0 then 0.0 else EntryUpTo(m, r, c, k - 1) + Part(m, r, c, k - 1)
  }

  /** Entry `(r, c)` of the represented dense matrix. */
  function Entry(m: Diag9, r: int, c: int): real
    requires m.Readable() && 0 <= r < m.Size() && 0 <= c < m.Size()
  {
    EntryUpTo(m, r, c, 9)
  }

  /** The nine contributions to an entry, written out. */
  lemma EntryNine(m: Diag9, r: int, c: int)
    requires m.Readable() && 0 <= r < m.Size() && 0 <= c < m.Size()
    ensures Entry(m, r, c)
      == Part(m, r, c, 0) + Part(m, r, c, 1) + Part(m, r, c, 2) + Part(m, r, c, 3) + Part(m, r, c, 4)
       + Part(m, r, c, 5) + Part(m, r, c, 6) + Part(m, r, c, 7) + Part(m, r, c, 8)
  {
    assert EntryUpTo(m, r, c, 1) == Part(m, r, c, 0);
    assert EntryUpTo(m, r, c, 3) == EntryUpTo(m, r, c, 1) + Part(m, r, c, 1) + Part(m, r, c, 2);
    assert EntryUpTo(m, r, c, 5) == EntryUpTo(m, r, c, 3) + Part(m, r, c, 3) + Part(m, r, c, 4);
    assert EntryUpTo(m, r, c, 7) == EntryUpTo(m, r, c, 5) + Part(m, r, c, 5) + Part(m, r, c, 6);
    assert EntryUpTo(m, r, c, 9) == EntryUpTo(m, r, c, 7) + Part(m, r, c, 7) + Part(m, r, c, 8);
  }

  /**
   * With the bands apart (`Gap >= 1`), the represented matrix has `Di` on
   * its diagonal, `Ld_k[j]` at `(j + Offset(k), j)` and `Rd_k[j]` at
   * `(j, j + Offset(k))`.
   */
  lemma EntryLayout(m: Diag9, k: int, j: int)
    requires m.Readable() && m.gap >= 1 && 0 <= k < 4 && 0 <= j && j + m.Offset(k) < m.Size()
    ensures Entry(m, j, j) == m.di[j]
    ensures Entry(m, j + m.Offset(k), j) == m.Lower(k)[j]
    ensures Entry(m, j, j + m.Offset(k)) == m.Upper(k)[j]
  {
    EntryNine(m, j, j);
    EntryNine(m, j + m.Offset(k), j);
    EntryNine(m, j, j + m.Offset(k));
  }

  /** The unit vector `e_c` of length `n`. */
  function Unit(n: nat, c: int): (e: seq<real>)
    ensures |e| == n
    ensures forall k :: 0 <= k < n ==> e[k] == if k == c then 1.0 else 0.0
  {
    seq(n, k => if k == c then 1.0 else 0.0)
  }

  /**
   * `Mul` applied to the unit vector `e_c` yields column `c` of the
   * represented matrix: row `i` of the product is `Entry(i, c)`.
   */
  lemma {:induction false} RowValueOfUnit(m: Diag9, i: int, c: int)
    requires m.Readable() && 0 <= i < m.Size() && 0 <= c < m.Size()
    ensures m.Multipliable(|Unit(m.Size(), c)|)
    ensures RowValue(m, Unit(m.Size(), c), i) == Entry(m, i, c)
  {
    var e := Unit(m.Size(), c);
    forall j | 0 <= j < 9
      ensures RowTerm(m, e, i, j) == Part(m, i, c, j)
    {
      PresentInRange(m, i, j);
    }
    RowUpToIsEntryUpTo(m, e, i, c, 9);
  }

  lemma {:induction false} RowUpToIsEntryUpTo(m: Diag9, e: seq<real>, i: int, c: int, k: int)
    requires m.Multipliable(|e|) && 0 <= i < m.Size() && 0 <= c < m.Size() && 0 <= k <= 9
    requires forall j :: 0 <= j < 9 ==> RowTerm(m, e, i, j) == Part(m, i, c, j)
    ensures RowUpTo(m, e, i, k) == EntryUpTo(m, i, c, k)
    decreases k
  {
    if k > 0 {
      RowUpToIsEntryUpTo(m, e, i, c, k - 1);
    }
  }

  /** The linear combination `a x + b y`. */
  function Combination(a: real, x: real, b: real, y: real): real
  {
    a * x + b * y
  }

  /** Each row of `Mul` is linear in the vector. */
  lemma RowValueLinear(m: Diag9, u: seq<real>, w: seq<real>, z: seq<real>, a: real, b: real, i: int)
    requires m.Multipliable(|u|) && |w| == |u| && |z| == |u| && 0 <= i < m.Size()
    requires forall p :: 0 <= p < |u| ==> z[p] == a * u[p] + b * w[p]
    ensures RowValue(m, z, i) == Combination(a, RowValue(m, u, i), b, RowValue(m, w, i))
  {
    forall j | 0 <= j < 9
      ensures RowTerm(m, z, i, j) == Combination(a, RowTerm(m, u, i, j), b, RowTerm(m, w, i, j))
    {
      TermLinear(m, u, w, z, a, b, i, j);
    }
    RowLinearFromTerms(m, u, w, z, a, b, i);
  }

  /** A row is linear once each of its nine terms is. */
  lemma RowLinearFromTerms(m: Diag9, u: seq<real>, w: seq<real>, z: seq<real>, a: real, b: real, i: int)
    requires m.Multipliable(|u|) && |w| == |u| && |z| == |u| && 0 <= i < m.Size()
    requires forall j :: 0 <= j < 9 ==> RowTerm(m, z, i, j) == Combination(a, RowTerm(m, u, i, j), b, RowTerm(m, w, i, j))
    ensures RowValue(m, z, i) == Combination(a, RowValue(m, u, i), b, RowValue(m, w, i))
  {
    RowNine(m, z, i);
    RowNine(m, u, i);
    RowNine(m, w, i);
    var us := seq(9, j requires 0 <= j < 9 => RowTerm(m, u, i, j));
    var ws := seq(9, j requires 0 <= j < 9 => RowTerm(m, w, i, j));
    var zs := seq(9, j requires 0 <= j < 9 => RowTerm(m, z, i, j));
    var su, sw, sz := RowValue(m, u, i), RowValue(m, w, i), RowValue(m, z, i);
    Combine9(us, ws, zs, a, b, su, sw, sz);
  }

  /** Nine linear combinations add up to the combination of the sums. */
  lemma Combine9(us: seq<real>, ws: seq<real>, zs: seq<real>, a: real, b: real, su: real, sw: real, sz: real)
    requires |us| == 9 && |ws| == 9 && |zs| == 9
    requires forall j :: 0 <= j < 9 ==> zs[j] == Combination(a, us[j], b, ws[j])
    requires su == us[0] + us[1] + us[2] + us[3] + us[4] + us[5] + us[6] + us[7] + us[8]
    requires sw == ws[0] + ws[1] + ws[2] + ws[3] + ws[4] + ws[5] + ws[6] + ws[7] + ws[8]
    requires sz == zs[0] + zs[1] + zs[2] + zs[3] + zs[4] + zs[5] + zs[6] + zs[7] + zs[8]
    ensures sz == Combination(a, su, b, sw)
  {
  }

  /** Each term of a row is linear in the vector. */
  lemma TermLinear(m: Diag9, u: seq<real>, w: seq<real>, z: seq<real>, a: real, b: real, i: int, j: int)
    requires m.Multipliable(|u|) && |w| == |u| && |z| == |u| && 0 <= i < m.Size() && 0 <= j < 9
    requires forall p :: 0 <= p < |u| ==> z[p] == a * u[p] + b * w[p]
    ensures RowTerm(m, z, i, j) == Combination(a, RowTerm(m, u, i, j), b, RowTerm(m, w, i, j))
  {
    PresentInRange(m, i, j);
    if Present(m, i, j) {
      var q, col := Coef(m, i, j), Column(m, i, j);
      var uc, wc := u[col], w[col];
      Distribute(q, a, b, uc, wc);
    }
  }

  lemma Distribute(q: real, a: real, b: real, x: real, y: real)
    ensures q * (a * x + b * y) == a * (q * x) + b * (q * y)
  {
  }

  /** Mirrored bands represent a symmetric matrix. */
  lemma EntrySymmetric(m: Diag9, r: int, c: int)
    requires m.Readable() && m.BandsMirrored() && 0 <= r < m.Size() && 0 <= c < m.Size()
    ensures Entry(m, r, c) == Entry(m, c, r)
  {
    EntryNine(m, r, c);
    EntryNine(m, c, r);
  }

  // ---- FlatNonZero ----

  /** What `FlatNonZero` yields for term `j` of row `i`: the diagonal always, a band value when present and non-zero. */
  function FlatTerm(m: Diag9, i: int, j: int): seq<real>
    requires m.Readable() && 0 <= i < m.Size() && 0 <= j < 9
  {
    PresentInRange(m, i, j);
    if j == 4 then [m.di[i]]
    else if Present(m, i, j) && Coef(m, i, j) != 0.0 then [Coef(m, i, j)]
    else []
  }

  /** The first `k` terms of row `i` of the enumeration. */
  function FlatUpTo(m: Diag9, i: int, k: int): seq<real>
    requires m.Readable() && 0 <= i < m.Size() && 0 <= k <= 9
  {
    if k == 0 then [] else FlatUpTo(m, i, k - 1) + FlatTerm(m, i, k - 1)
  }

  /** Rows `i .. Size-1` of the enumeration. */
  function FlatFrom(m: Diag9, i: nat): seq<real>
    requires m.Readable() && i <= m.Size()
    decreases m.Size() - i
  {
    if i == m.Size() then [] else FlatUpTo(m, i, 9) + FlatFrom(m, i + 1)
  }

  /** The sequence `FlatNonZero` yields. */
  function FlatNonZero(m: Diag9): seq<real>
    requires m.Readable()
  {
    FlatFrom(m, 0)
  }

  /** Row `i` of the enumeration holds at most nine values, and the diagonal term always adds one. */
  lemma {:induction false} FlatRowLength(m: Diag9, i: int, k: int)
    requires m.Readable() && 0 <= i < m.Size() && 0 <= k <= 9
    ensures |FlatUpTo(m, i, k)| <= k
    ensures k > 4 ==> |FlatUpTo(m, i, 4)| < |FlatUpTo(m, i, k)|
    decreases k
  {
    if k > 0 {
      FlatRowLength(m, i, k - 1);
    }
  }

  /**
   * Row `i` of the enumeration: the present non-zero lower-band values,
   * then `Di[i]`, then the present non-zero upper-band values; everything
   * but the diagonal is non-zero.
   */
  lemma {:induction false} FlatRowShape(m: Diag9, i: int, k: int)
    requires m.Readable() && 0 <= i < m.Size() && 0 <= k <= 9
    ensures k > 4 ==> |FlatUpTo(m, i, 4)| < |FlatUpTo(m, i, k)| && FlatUpTo(m, i, k)[|FlatUpTo(m, i, 4)|] == m.di[i]
    ensures forall p :: 0 <= p < |FlatUpTo(m, i, k)| && p != |FlatUpTo(m, i, 4)| ==> FlatUpTo(m, i, k)[p] != 0.0
    decreases k
  {
    FlatRowLength(m, i, k);
    if k > 0 {
      FlatRowShape(m, i, k - 1);
      FlatRowLength(m, i, k - 1);
      if k > 5 {
        assert FlatUpTo(m, i, k) == FlatUpTo(m, i, k - 1) + FlatTerm(m, i, k - 1);
      }
    }
  }

  /** One diagonal value per row and at most eight more: `Size <= |FlatNonZero| <= 9*Size`. */
  lemma {:induction false} FlatFromLength(m: Diag9, i: nat)
    requires m.Readable() && i <= m.Size()
    ensures m.Size() - i <= |FlatFrom(m, i)| <= 9 * (m.Size() - i)
    decreases m.Size() - i
  {
    if i < m.Size() {
      FlatRowLength(m, i, 9);
      FlatFromLength(m, i + 1);
    }
  }

  // ---- The source's class ----

  /** The source's class: nine public arrays and `Gap`. */
  class Diag9Matrix {
    var ld3: array<real>
    var ld2: array<real>
    var ld1: array<real>
    var ld0: array<real>
    var di: array<real>
    var rd0: array<real>
    var rd1: array<real>
    var rd2: array<real>
    var rd3: array<real>
    var gap: int

    /** The object initialiser of the source's tests: nine fresh arrays and the gap. */
    constructor (m: Diag9)
      ensures Value() == m
      ensures fresh(ld3) && fresh(ld2) && fresh(ld1) && fresh(ld0) && fresh(di)
      ensures fresh(rd0) && fresh(rd1) && fresh(rd2) && fresh(rd3)
    {
      var l3 := FreshCopy(m.ld3);
      var l2 := FreshCopy(m.ld2);
      var l1 := FreshCopy(m.ld1);
      var l0 := FreshCopy(m.ld0);
      var d := FreshCopy(m.di);
      var r0 := FreshCopy(m.rd0);
      var r1 := FreshCopy(m.rd1);
      var r2 := FreshCopy(m.rd2);
      var r3 := FreshCopy(m.rd3);
      ld3, ld2, ld1, ld0, di := l3, l2, l1, l0, d;
      rd0, rd1, rd2, rd3 := r0, r1, r2, r3;
      gap := m.gap;
    }

    /** A new array holding `s`. */
    static method FreshCopy(s: seq<real>) returns (a: array<real>)
      ensures fresh(a) && a[..] == s
    {
      a := new real[|s|](i requires 0 <= i < |s| => s[i]);
    }

    ghost function Value(): Diag9
      reads this, ld3, ld2, ld1, ld0, di, rd0, rd1, rd2, rd3
    {
      Diag9(ld3[..], ld2[..], ld1[..], ld0[..], di[..], rd0[..], rd1[..], rd2[..], rd3[..], gap)
    }

    /** `a` is none of the matrix's arrays. */
    predicate Outside(a: array<real>)
      reads this
    {
      a != ld3 && a != ld2 && a != ld1 && a != ld0 && a != di
      && a != rd0 && a != rd1 && a != rd2 && a != rd3
    }

    /** `Size => Di.Length`. */
    function Size(): (n: nat)
      reads this
      ensures n == di.Length
    {
      di.Length
    }

    /**
     * The body of the row loop: `dot` for row `i`, accumulated in the
     * source's order (the lower bands, the diagonal, the upper bands).
     */
    method RowDot(vec: array<real>, i: int) returns (dot: real)
      requires Value().Multipliable(vec.Length) && 0 <= i < Size()
      ensures dot == RowValue(Value(), vec[..], i)
    {
      ghost var m, v := Value(), vec[..];
      dot := LowerDot(vec, i, m, v);
      ghost var s := dot;
      dot := dot + di[i] * vec[i];
      DiagStep(m, v, i, s, dot);
      dot := UpperDot(vec, i, dot, m, v);
      RowNine(m, v, i);
    }

    /** `dot` after the four lower-band terms of row `i`, each guarded by `t >= 0`. */
    method LowerDot(vec: array<real>, i: int, ghost m: Diag9, ghost v: seq<real>) returns (dot: real)
      requires m == Value() && v == vec[..] && m.Multipliable(|v|) && 0 <= i < m.Size()
      ensures dot == RowTerm(m, v, i, 0) + RowTerm(m, v, i, 1) + RowTerm(m, v, i, 2) + RowTerm(m, v, i, 3)
    {
      assert m.ld3 == ld3[..] && m.ld2 == ld2[..] && m.ld1 == ld1[..] && m.ld0 == ld0[..] && m.gap == gap;
      dot := 0.0;
      ghost var s := dot;
      var t := i - 3 - gap;
      if t >= 0 { dot := dot + ld3[t] * vec[t]; }
      LowerStep(m, v, i, 3, t, s, dot);
      s := dot;
      t := i - 2 - gap;
      if t >= 0 { dot := dot + ld2[t] * vec[t]; }
      LowerStep(m, v, i, 2, t, s, dot);
      s := dot;
      t := i - 1 - gap;
      if t >= 0 { dot := dot + ld1[t] * vec[t]; }
      LowerStep(m, v, i, 1, t, s, dot);
      s := dot;
      t := i - 1;
      if t >= 0 { dot := dot + ld0[t] * vec[t]; }
      LowerStep(m, v, i, 0, t, s, dot);
    }

    /** `acc` plus the four upper-band terms of row `i`, each guarded by `t < Size`. */
    method UpperDot(vec: array<real>, i: int, acc: real, ghost m: Diag9, ghost v: seq<real>) returns (dot: real)
      requires m == Value() && v == vec[..] && m.Multipliable(|v|) && 0 <= i < m.Size()
      ensures dot == acc + RowTerm(m, v, i, 5) + RowTerm(m, v, i, 6) + RowTerm(m, v, i, 7) + RowTerm(m, v, i, 8)
    {
      assert m.rd0 == rd0[..] && m.rd1 == rd1[..] && m.rd2 == rd2[..] && m.rd3 == rd3[..] && m.gap == gap;
      assert m.di == di[..];
      dot := acc;
      ghost var s := dot;
      var t := i + 1;
      if t < di.Length { dot := dot + rd0[i] * vec[t]; }
      UpperStep(m, v, i, 0, t, s, dot);
      s := dot;
      t := i + 1 + gap;
      if t < di.Length { dot := dot + rd1[i] * vec[t]; }
      UpperStep(m, v, i, 1, t, s, dot);
      s := dot;
      t := i + 2 + gap;
      if t < di.Length { dot := dot + rd2[i] * vec[t]; }
      UpperStep(m, v, i, 2, t, s, dot);
      s := dot;
      t := i + 3 + gap;
      if t < di.Length { dot := dot + rd3[i] * vec[t]; }
      UpperStep(m, v, i, 3, t, s, dot);
    }

    /** Rows `lo .. hi-1` of the product: the body a worker runs for its range. */
    method MulRange(vec: array<real>, res: array<real>, lo: int, hi: int)
      requires Value().Multipliable(vec.Length) && Size() <= res.Length
      requires 0 <= lo <= hi <= Size()
      requires res != vec && Outside(res)
      modifies res
      ensures forall k :: 0 <= k < res.Length ==>
        res[k] == if lo <= k < hi then RowValue(Value(), vec[..], k) else old(res[k])
    {
      ghost var m, v := Value(), vec[..];
      var i := lo;
      while i < hi
        invariant lo <= i <= hi && Value() == m && vec[..] == v
        invariant forall k :: 0 <= k < res.Length ==>
          res[k] == if lo <= k < i then RowValue(m, v, k) else old(res[k])
      {
        var dot := RowDot(vec, i);
        res[i] := dot;
        i := i + 1;
      }
    }

    /**
     * `Mul`: refused for an empty matrix (the partitioner rejects an empty
     * range), otherwise every worker range runs `MulRange`; the ranges write
     * disjoint slots, so they are run here one after another.
     */
    method Mul(vec: array<real>, res: array<real>, grain: int) returns (ok: bool)
      requires Value().Multipliable(vec.Length) && Size() <= res.Length
      requires grain >= 1
      requires res != vec && Outside(res)
      modifies res
      ensures ok == Partition.Accepts(Size())
      ensures res[..] == if ok then MulResult(Value(), vec[..], old(res[..])) else old(res[..])
    {
      var rows := di.Length;
      if !Partition.Accepts(rows) {
        return false;
      }
      var lo := 0;
      while lo < rows
        invariant 0 <= lo <= rows
        invariant forall k :: 0 <= k < res.Length ==>
          res[k] == if k < lo then RowValue(Value(), vec[..], k) else old(res[k])
      {
        var hi := Partition.ChunkEnd(lo, rows, grain);
        MulRange(vec, res, lo, hi);
        lo := hi;
      }
      ok := true;
      assert res[..] == MulResult(Value(), vec[..], old(res[..]));
    }
  }

  // ---- The fixture of the half-multiply tests ----

  /** Five rows, `Gap == 1`, unit diagonal, and `0.5` at `(0, 1)` and `(1, 0)`. */
  function SomeSlae(): Diag9
  {
    Diag9([0.0, 0.0, 0.0, 0.0, 0.0], [0.0, 0.0, 0.0, 0.0, 0.0], [0.0, 0.0, 0.0, 0.0, 0.0],
          [0.5, 0.0, 0.0, 0.0, 0.0],
          [1.0, 1.0, 1.0, 1.0, 1.0],
          [0.5, 0.0, 0.0, 0.0, 0.0],
          [0.0, 0.0, 0.0, 0.0, 0.0], [0.0, 0.0, 0.0, 0.0, 0.0], [0.0, 0.0, 0.0, 0.0, 0.0],
          1)
  }

  /** The all-ones vector of the fixture's tests. */
  function Ones5(): seq<real>
  {
    [1.0, 1.0, 1.0, 1.0, 1.0]
  }

  /** Row `i` of the fixture's product with the all-ones vector: `1.5` in the two coupled rows, `1` below. */
  lemma SomeSlaeProductRow(i: int)
    requires 0 <= i < 5
    ensures SomeSlae().Multipliable(5)
    ensures RowValue(SomeSlae(), Ones5(), i) == if i < 2 then 1.5 else 1.0
  {
    RowNine(SomeSlae(), Ones5(), i);
  }

  /** The fixture's product with the all-ones vector is its right-hand side `[1.5, 1.5, 1, 1, 1]`. */
  lemma SomeSlaeProduct()
    ensures SomeSlae().Multipliable(5) && SomeSlae().BandsMirrored()
    ensures Product(SomeSlae(), Ones5()) == [1.5, 1.5, 1.0, 1.0, 1.0]
  {
    SomeSlaeProductRow(0);
    SomeSlaeProductRow(1);
    SomeSlaeProductRow(2);
    SomeSlaeProductRow(3);
    SomeSlaeProductRow(4);
  }

  /** The fixture's enumeration, row by row: `[1, .5]`, `[.5, 1]`, then the bare diagonal. */
  lemma SomeSlaeFlatRow0()
    ensures SomeSlae().Readable() && FlatUpTo(SomeSlae(), 0, 9) == [1.0, 0.5]
  {
  }

  lemma SomeSlaeFlatRow1()
    ensures SomeSlae().Readable() && FlatUpTo(SomeSlae(), 1, 9) == [0.5, 1.0]
  {
  }

  lemma SomeSlaeFlatRow2()
    ensures SomeSlae().Readable() && FlatUpTo(SomeSlae(), 2, 9) == [1.0]
  {
  }

  lemma SomeSlaeFlatRow3()
    ensures SomeSlae().Readable() && FlatUpTo(SomeSlae(), 3, 9) == [1.0]
  {
  }

  lemma SomeSlaeFlatRow4()
    ensures SomeSlae().Readable() && FlatUpTo(SomeSlae(), 4, 9) == [1.0]
  {
  }

  /** A five-row enumeration is its five rows, one after another. */
  lemma FlatFiveRows(m: Diag9)
    requires m.Readable() && m.Size() == 5
    ensures FlatNonZero(m)
         == FlatUpTo(m, 0, 9) + FlatUpTo(m, 1, 9) + FlatUpTo(m, 2, 9) + FlatUpTo(m, 3, 9) + FlatUpTo(m, 4, 9)
  {
    var r0, r1, r2, r3, r4 := FlatUpTo(m, 0, 9), FlatUpTo(m, 1, 9), FlatUpTo(m, 2, 9), FlatUpTo(m, 3, 9), FlatUpTo(m, 4, 9);
    assert FlatFrom(m, 4) == r4 + FlatFrom(m, 5);
    assert FlatFrom(m, 3) == r3 + FlatFrom(m, 4);
    assert FlatFrom(m, 2) == r2 + FlatFrom(m, 3);
    assert FlatFrom(m, 1) == r1 + FlatFrom(m, 2);
    assert FlatFrom(m, 0) == r0 + FlatFrom(m, 1);
  }

  /** The fixture's whole enumeration, `[1, .5, .5, 1, 1, 1, 1]`, row by row. */
  lemma SomeSlaeFlat()
    ensures SomeSlae().Readable()
    ensures FlatNonZero(SomeSlae()) == [1.0, 0.5] + [0.5, 1.0] + [1.0] + [1.0] + [1.0]
  {
    FlatFiveRows(SomeSlae());
    SomeSlaeFlatRow0(); SomeSlaeFlatRow1(); SomeSlaeFlatRow2(); SomeSlaeFlatRow3(); SomeSlaeFlatRow4();
  }
}
