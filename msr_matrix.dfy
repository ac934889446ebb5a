/**
 * The modified-sparse-row matrix: a diagonal `Di` plus one compressed
 * off-diagonal array `Elems` with column indices `Ja` and row offsets `Ia`.
 * Row `i` owns the slots `[Ia[i], Ia[i+1])` of `Elems`/`Ja`.
 *
 * The class keeps the source's arrays; `Value()` reads them into the value
 * `Msr`, on which the product and the non-zero enumeration are specified.
 */
module MsrMatrices {
  import Partition

  /** The contents of an MSR matrix. */
  datatype Msr = Msr(elems: seq<real>, di: seq<real>, ia: seq<int>, ja: seq<int>) {

    /** `Size` is the length of the diagonal. */
    function Size(): nat { |di| }

    /** The rows `Mul` and `FlatNonZero` walk: `0 .. Ia.Length - 2`. */
    function Rows(): nat { if |ia| == 0 then 0 else |ia| - 1 }

    /**
     * What `FlatNonZero` reads stays in bounds: `Di` covers the rows and each
     * row's slot range `[Ia[i], Ia[i+1])` lies inside `Elems` and `Ja` (or is empty).
     */
    predicate Enumerable()
    {
      && Rows() <= |di|
      && forall i, j :: 0 <= i < Rows() && j == i + 1 ==>
           ia[i] >= ia[j] || (0 <= ia[i] && ia[j] <= |elems| && ia[j] <= |ja|)
    }

    /**
     * What `Mul` reads stays in bounds for a vector of length `n`: besides the
     * above, `n` covers the rows and every column index of a row addresses it.
     */
    predicate Multipliable(n: int)
    {
      && Enumerable()
      && Rows() <= n
      && forall i, j, a :: 0 <= i < Rows() && j == i + 1 && ia[i] <= a < ia[j] ==> 0 <= ja[a] < n
    }

    /** `Ia` never decreases: the rows' slot ranges follow each other. */
    predicate Contiguous()
    {
      forall i, j :: 0 <= i < Rows() && j == i + 1 ==> ia[i] <= ia[j]
    }
  }

  /** The off-diagonal part of a row's dot product, accumulated over `[lo, hi)` in slot order. */
  function OffDiag(elems: seq<real>, ja: seq<int>, v: seq<real>, lo: int, hi: int): real
    requires hi <= lo || (0 <= lo && hi <= |elems| && hi <= |ja|)
    requires forall a :: lo <= a < hi ==> 0 <= ja[a] < |v|
    decreases hi - lo
  {
    if hi <= lo then 0.0 else OffDiag(elems, ja, v, lo, hi - 1) + elems[hi - 1] * v[ja[hi - 1]]
  }

  /** Row `i` of the product: `Di[i]*v[i] + sum of Elems[a]*v[Ja[a]]` over the row's slots. */
  function RowValue(m: Msr, v: seq<real>, i: int): real
    requires m.Multipliable(|v|) && 0 <= i < m.Rows()
  {
    m.di[i] * v[i] + OffDiag(m.elems, m.ja, v, m.ia[i], m.ia[i + 1])
  }

  /** The slots of row `i` and their columns are readable. */
  lemma RowReadable(m: Msr, n: int, i: int)
    requires m.Multipliable(n) && 0 <= i < m.Rows()
    ensures i < |m.di| && i < n
    ensures m.ia[i] < m.ia[i + 1] ==> 0 <= m.ia[i] && m.ia[i + 1] <= |m.elems| && m.ia[i + 1] <= |m.ja|
    ensures forall a :: m.ia[i] <= a < m.ia[i + 1] ==> 0 <= m.ja[a] < n
  {
  }

  /** The rows `Mul` computes. */
  function Product(m: Msr, v: seq<real>): (r: seq<real>)
    requires m.Multipliable(|v|)
    ensures |r| == m.Rows()
    ensures forall i :: 0 <= i < m.Rows() ==> r[i] == RowValue(m, v, i)
  {
    seq(m.Rows(), i requires 0 <= i < m.Rows() => RowValue(m, v, i))
  }

  /** The result vector after `Mul`: the product rows, then the untouched tail of `res`. */
  function MulResult(m: Msr, v: seq<real>, res: seq<real>): (r: seq<real>)
    requires m.Multipliable(|v|) && m.Rows() <= |res|
    ensures |r| == |res|
    ensures r[..m.Rows()] == Product(m, v) && r[m.Rows()..] == res[m.Rows()..]
  {
    Product(m, v) + res[m.Rows()..]
  }

  /** `Mul` is idempotent: a second call with the same vector leaves `res` as the first one left it. */
  lemma MulIdempotent(m: Msr, v: seq<real>, res: seq<real>)
    requires m.Multipliable(|v|) && m.Rows() <= |res|
    ensures MulResult(m, v, MulResult(m, v, res)) == MulResult(m, v, res)
  {
    var once := MulResult(m, v, res);
    assert once[m.Rows()..] == res[m.Rows()..];
  }

  /** The non-zero values among `Elems[lo..hi)`, in slot order. */
  function NonZeros(elems: seq<real>, lo: int, hi: int): (r: seq<real>)
    requires hi <= lo || (0 <= lo && hi <= |elems|)
    ensures forall k :: 0 <= k < |r| ==> r[k] != 0.0
    decreases hi - lo
  {
    if hi <= lo then []
    else NonZeros(elems, lo, hi - 1) + (if elems[hi - 1] != 0.0 then [elems[hi - 1]] else [])
  }

  /** How many of `Elems[lo..hi)` are non-zero. */
  function CountNonZero(elems: seq<real>, lo: int, hi: int): nat
    requires hi <= lo || (0 <= lo && hi <= |elems|)
    decreases hi - lo
  {
    if hi <= lo then 0
    else CountNonZero(elems, lo, hi - 1) + (if elems[hi - 1] != 0.0 then 1 else 0)
  }

  /**
   * Where the first inner loop of `FlatNonZero` leaves the cursor `curr_a`
   * of row `i`: the first slot from `a` on whose column exceeds `i`, or the
   * row's end.
   */
  function LowerEnd(m: Msr, i: int, a: int): (e: int)
    requires m.Enumerable() && 0 <= i < m.Rows()
    requires m.ia[i] <= a
    ensures a <= e
    ensures e == a || e <= m.ia[i + 1]
    ensures forall k :: a <= k < e ==> m.ja[k] <= i
    ensures e < m.ia[i + 1] ==> m.ja[e] > i
    decreases m.ia[i + 1] - a
  {
    if a >= m.ia[i + 1] || m.ja[a] > i then a else LowerEnd(m, i, a + 1)
  }

  /** What `FlatNonZero` yields for row `i`: lower run, then `Di[i]`, then the rest of the row. */
  function FlatRow(m: Msr, i: int): seq<real>
    requires m.Enumerable() && 0 <= i < m.Rows()
  {
    var e := LowerEnd(m, i, m.ia[i]);
    NonZeros(m.elems, m.ia[i], e) + [m.di[i]] + NonZeros(m.elems, e, m.ia[i + 1])
  }

  /** The rows `i .. Rows()-1` of the enumeration. */
  function FlatFrom(m: Msr, i: nat): seq<real>
    requires m.Enumerable() && i <= m.Rows()
    decreases m.Rows() - i
  {
    if i == m.Rows() then [] else FlatRow(m, i) + FlatFrom(m, i + 1)
  }

  /** The sequence `FlatNonZero` yields. */
  function FlatNonZero(m: Msr): seq<real>
    requires m.Enumerable()
  {
    FlatFrom(m, 0)
  }

  lemma {:induction false} NonZerosCount(elems: seq<real>, lo: int, hi: int)
    requires hi <= lo || (0 <= lo && hi <= |elems|)
    ensures |NonZeros(elems, lo, hi)| == CountNonZero(elems, lo, hi)
    decreases hi - lo
  {
    if hi > lo { NonZerosCount(elems, lo, hi - 1); }
  }

  lemma {:induction false} CountNonZeroSplit(elems: seq<real>, lo: int, mid: int, hi: int)
    requires 0 <= lo <= mid <= hi <= |elems|
    ensures CountNonZero(elems, lo, hi) == CountNonZero(elems, lo, mid) + CountNonZero(elems, mid, hi)
    decreases hi - mid
  {
    if hi > mid { CountNonZeroSplit(elems, lo, mid, hi - 1); }
  }

  lemma {:induction false} NonZerosSplit(elems: seq<real>, lo: int, mid: int, hi: int)
    requires 0 <= lo <= mid <= hi <= |elems|
    ensures NonZeros(elems, lo, hi) == NonZeros(elems, lo, mid) + NonZeros(elems, mid, hi)
    decreases hi - mid
  {
    if hi > mid { NonZerosSplit(elems, lo, mid, hi - 1); }
  }

  /**
   * Row `i` of the enumeration holds exactly one diagonal value, `Di[i]`,
   * preceded by the non-zero values of the slots whose columns do not exceed
   * `i` (the leading run) and followed by every other non-zero value of the
   * row, whatever its column; each stored slot shows up at most once.
   */
  lemma FlatRowShape(m: Msr, i: int)
    requires m.Enumerable() && 0 <= i < m.Rows()
    ensures var e := LowerEnd(m, i, m.ia[i]);
      && var lower := NonZeros(m.elems, m.ia[i], e);
      && FlatRow(m, i) == lower + [m.di[i]] + NonZeros(m.elems, e, m.ia[i + 1])
      && FlatRow(m, i)[|lower|] == m.di[i]
      && (forall k :: m.ia[i] <= k < e ==> m.ja[k] <= i)
      && |FlatRow(m, i)| == 1 + CountNonZero(m.elems, m.ia[i], m.ia[i + 1])
  {
    var s, t := m.ia[i], m.ia[i + 1];
    var e := LowerEnd(m, i, s);
    NonZerosCount(m.elems, s, e);
    NonZerosCount(m.elems, e, t);
    if s < t {
      CountNonZeroSplit(m.elems, s, e, t);
    }
  }

  /**
   * The enumeration holds one diagonal value per row and every non-zero
   * stored slot of the rows once: its length is the row count plus the
   * number of non-zero values in `Elems[Ia[0] .. Ia[rows])`.
   */
  lemma {:induction false} FlatNonZeroLength(m: Msr)
    requires m.Enumerable() && m.Contiguous() && m.Rows() > 0
    requires 0 <= m.ia[0] && m.ia[m.Rows()] <= |m.elems|
    ensures |FlatNonZero(m)| == m.Rows() + CountNonZero(m.elems, m.ia[0], m.ia[m.Rows()])
  {
    IaMonotone(m, 0, m.Rows());
    FlatFromLength(m, 0);
  }

  lemma {:induction false} FlatFromLength(m: Msr, i: nat)
    requires m.Enumerable() && m.Contiguous() && i < m.Rows()
    requires 0 <= m.ia[i] <= m.ia[m.Rows()] <= |m.elems|
    ensures |FlatFrom(m, i)| == m.Rows() - i + CountNonZero(m.elems, m.ia[i], m.ia[m.Rows()])
    decreases m.Rows() - i
  {
    FlatRowShape(m, i);
    IaMonotone(m, i + 1, m.Rows());
    if i + 1 < m.Rows() {
      FlatFromLength(m, i + 1);
      CountNonZeroSplit(m.elems, m.ia[i], m.ia[i + 1], m.ia[m.Rows()]);
    }
  }

  lemma {:induction false} IaMonotone(m: Msr, i: nat, j: nat)
    requires m.Contiguous() && i <= j < |m.ia|
    ensures m.ia[i] <= m.ia[j]
    decreases j - i
  {
    if i < j { IaMonotone(m, i, j - 1); }
  }

  /** Every value the enumeration yields besides the diagonal is a non-zero stored value. */
  lemma FlatRowOffDiagonalNonZero(m: Msr, i: int, k: int)
    requires m.Enumerable() && 0 <= i < m.Rows()
    requires 0 <= k < |FlatRow(m, i)|
    requires k != |NonZeros(m.elems, m.ia[i], LowerEnd(m, i, m.ia[i]))|
    ensures FlatRow(m, i)[k] != 0.0
  {
  }

  /** The source's class: four public arrays. */
  class MsrMatrix {
    var elems: array<real>
    var di: array<real>
    var ia: array<int>
    var ja: array<int>

    /** The object initialiser of the source's tests: the four arrays, fresh. */
    constructor (elems: seq<real>, di: seq<real>, ia: seq<int>, ja: seq<int>)
      ensures Value() == Msr(elems, di, ia, ja)
      ensures fresh(this.elems) && fresh(this.di) && fresh(this.ia) && fresh(this.ja)
      ensures this.elems != this.di
    {
      this.elems := new real[|elems|](i requires 0 <= i < |elems| => elems[i]);
      this.di := new real[|di|](i requires 0 <= i < |di| => di[i]);
      this.ia := new int[|ia|](i requires 0 <= i < |ia| => ia[i]);
      this.ja := new int[|ja|](i requires 0 <= i < |ja| => ja[i]);
    }

    ghost function Value(): Msr
      reads this, elems, di, ia, ja
    {
      Msr(elems[..], di[..], ia[..], ja[..])
    }

    /** `Size => Di.Length`. */
    function Size(): (n: nat)
      reads this
      ensures n == di.Length
    {
      di.Length
    }

    /** The body of the row loop: `dot` for row `i`, the diagonal term first, then the row's slots in order. */
    method RowDot(vec: array<real>, i: int) returns (dot: real)
      requires Value().Multipliable(vec.Length) && 0 <= i < Value().Rows()
      ensures dot == RowValue(Value(), vec[..], i)
    {
      ghost var m, v := Value(), vec[..];
      var start := ia[i];
      var stop := ia[i + 1];
      assert start == m.ia[i] && stop == m.ia[i + 1];
      RowReadable(m, vec.Length, i);
      dot := di[i] * vec[i];
      var a := start;
      while a < stop
        invariant start <= a && (a == start || a <= stop)
        invariant dot == m.di[i] * v[i] + OffDiag(m.elems, m.ja, v, start, a)
      {
        dot := dot + elems[a] * vec[ja[a]];
        a := a + 1;
      }
    }

    /** Rows `lo .. hi-1` of the product: the body a worker runs for its range. */
    method MulRange(vec: array<real>, res: array<real>, lo: int, hi: int)
      requires Value().Multipliable(vec.Length) && Value().Rows() <= res.Length
      requires 0 <= lo <= hi <= Value().Rows()
      requires res != vec && res != di && res != elems
      modifies res
      ensures forall k :: 0 <= k < res.Length ==>
        res[k] == if lo <= k < hi then RowValue(Value(), vec[..], k) else old(res[k])
    {
      ghost var m, v := Value(), vec[..];
      var i := lo;
      while i < hi
        invariant lo <= i <= hi && Value() == m && vec[..] == v
        invariant forall k :: 0 <= k < res.Length ==>
          res[k] == if lo <= k < i then RowValue(m, v, k) else old(res[k])
      {
        var dot := RowDot(vec, i);
        res[i] := dot;
        i := i + 1;
      }
    }

    /**
     * The host-parallel `Mul` (the branch compiled under `HOST_PARALLEL`):
     * refused for an empty row range, otherwise every worker range
     * `[lo, lo + grain)` runs `MulRange`; the ranges write disjoint slots, so
     * they are run here one after another.
     */
    method Mul(vec: array<real>, res: array<real>, grain: int) returns (ok: bool)
      requires Value().Multipliable(vec.Length) && Value().Rows() <= res.Length
      requires grain >= 1
      requires res != vec && res != di && res != elems
      modifies res
      ensures ok == Partition.Accepts(ia.Length - 1)
      ensures res[..] == if ok then MulResult(Value(), vec[..], old(res[..])) else old(res[..])
    {
      var rows := ia.Length - 1;
      if !Partition.Accepts(rows) {
        return false;
      }
      var lo := 0;
      while lo < rows
        invariant 0 <= lo <= rows
        invariant forall k :: 0 <= k < res.Length ==>
          res[k] == if k < lo then RowValue(Value(), vec[..], k) else old(res[k])
      {
        var hi := Partition.ChunkEnd(lo, rows, grain);
        MulRange(vec, res, lo, hi);
        lo := hi;
      }
      ok := true;
      assert res[..] == MulResult(Value(), vec[..], old(res[..]));
    }

    /** The sequential `Mul` (the branch compiled without `HOST_PARALLEL`): one pass over all rows. */
    method MulSequential(vec: array<real>, res: array<real>)
      requires Value().Multipliable(vec.Length) && Value().Rows() <= res.Length
      requires res != vec && res != di && res != elems
      modifies res
      ensures res[..] == MulResult(Value(), vec[..], old(res[..]))
    {
      ghost var m, v := Value(), vec[..];
      var i := 0;
      while i < ia.Length - 1
        invariant 0 <= i <= m.Rows() && Value() == m && vec[..] == v
        invariant forall k :: 0 <= k < res.Length ==>
          res[k] == if k < i then RowValue(m, v, k) else old(res[k])
      {
        var dot := RowDot(vec, i);
        res[i] := dot;
        i := i + 1;
      }
      assert res[..] == MulResult(Value(), vec[..], old(res[..]));
    }
  }

  /** The five-row fixture `SomeSlae` of the MSR half-multiply tests. */
  function SomeSlae(): Msr
  {
    Msr([0.5, 0.5, 0.5, 0.5], [1.0, 1.0, 1.0, 1.0, 1.0], [0, 1, 2, 3, 3, 4], [1, 0, 3, 3])
  }

  lemma SomeSlaeWellFormed()
    ensures SomeSlae().Multipliable(5) && SomeSlae().Rows() == 5
  {
    var m := SomeSlae();
    assert m.ia == [0, 1, 2, 3, 3, 4];
    forall i, a | 0 <= i < 5 && m.ia[i] <= a < m.ia[i + 1]
      ensures 0 <= m.ja[a] < 5
    {
      assert 0 <= a < 4;
    }
  }

  /** Row by row, what the enumeration yields on the fixture. */
  lemma SomeSlaeRow0()
    ensures SomeSlae().Enumerable() && FlatRow(SomeSlae(), 0) == [1.0, 0.5]
  {
    var m := SomeSlae();
    SomeSlaeWellFormed();
    assert LowerEnd(m, 0, 0) == 0;
    assert NonZeros(m.elems, 0, 0) == [];
    assert NonZeros(m.elems, 0, 1) == [0.5];
  }

  lemma SomeSlaeRow1()
    ensures SomeSlae().Enumerable() && FlatRow(SomeSlae(), 1) == [0.5, 1.0]
  {
    var m := SomeSlae();
    SomeSlaeWellFormed();
    assert LowerEnd(m, 1, 2) == 2;
    assert LowerEnd(m, 1, 1) == 2;
    assert NonZeros(m.elems, 1, 1) == [];
    assert NonZeros(m.elems, 1, 2) == [0.5];
  }

  lemma SomeSlaeRow2()
    ensures SomeSlae().Enumerable() && FlatRow(SomeSlae(), 2) == [1.0, 0.5]
  {
    var m := SomeSlae();
    SomeSlaeWellFormed();
    assert LowerEnd(m, 2, 2) == 2;
    assert NonZeros(m.elems, 2, 2) == [];
    assert NonZeros(m.elems, 2, 3) == [0.5];
  }

  lemma SomeSlaeRow3()
    ensures SomeSlae().Enumerable() && FlatRow(SomeSlae(), 3) == [1.0]
  {
    var m := SomeSlae();
    SomeSlaeWellFormed();
    assert LowerEnd(m, 3, 3) == 3;
    assert NonZeros(m.elems, 3, 3) == [];
  }

  lemma SomeSlaeRow4()
    ensures SomeSlae().Enumerable() && FlatRow(SomeSlae(), 4) == [0.5, 1.0]
  {
    var m := SomeSlae();
    SomeSlaeWellFormed();
    assert LowerEnd(m, 4, 4) == 4;
    assert LowerEnd(m, 4, 3) == 4;
    assert NonZeros(m.elems, 3, 3) == [];
    assert NonZeros(m.elems, 3, 4) == [0.5];
    assert NonZeros(m.elems, 4, 4) == [];
  }

  /** The enumeration of the fixture's last rows, built up from the bottom. */
  lemma SomeSlaeFrom4()
    ensures SomeSlae().Enumerable() && FlatFrom(SomeSlae(), 4) == [0.5, 1.0]
  {
    SomeSlaeRow4();
  }

  lemma SomeSlaeFrom3()
    ensures SomeSlae().Enumerable() && FlatFrom(SomeSlae(), 3) == [1.0, 0.5, 1.0]
  {
    SomeSlaeRow3(); SomeSlaeFrom4();
  }

  lemma SomeSlaeFrom2()
    ensures SomeSlae().Enumerable() && FlatFrom(SomeSlae(), 2) == [1.0, 0.5, 1.0, 0.5, 1.0]
  {
    SomeSlaeRow2(); SomeSlaeFrom3();
  }

  lemma SomeSlaeFrom1()
    ensures SomeSlae().Enumerable() && FlatFrom(SomeSlae(), 1) == [0.5, 1.0, 1.0, 0.5, 1.0, 0.5, 1.0]
  {
    SomeSlaeRow1(); SomeSlaeFrom2();
  }

  /** On the fixture, the flat enumeration of the non-zero entries row by row. */
  lemma SomeSlaeFlat()
    ensures SomeSlae().Enumerable()
    ensures FlatNonZero(SomeSlae()) == [1.0, 0.5, 0.5, 1.0, 1.0, 0.5, 1.0, 0.5, 1.0]
  {
    SomeSlaeRow0(); SomeSlaeFrom1();
  }

  /** The all-ones vector the fixture is multiplied by. */
  function Ones5(): seq<real>
  {
    [1.0, 1.0, 1.0, 1.0, 1.0]
  }

  /** A row with a single slot `a` contributes `Elems[a] * v[Ja[a]]`. */
  lemma OneSlot(elems: seq<real>, ja: seq<int>, v: seq<real>, a: int)
    requires 0 <= a < |elems| && a < |ja| && 0 <= ja[a] < |v|
    ensures OffDiag(elems, ja, v, a, a + 1) == elems[a] * v[ja[a]]
  {
    assert OffDiag(elems, ja, v, a, a) == 0.0;
  }

  /** On the fixture, row `i` (other than the empty row 3) of the product with the all-ones vector. */
  lemma SomeSlaeOneSlotRow(i: int)
    requires 0 <= i < 5 && i != 3
    ensures SomeSlae().Multipliable(5) && RowValue(SomeSlae(), Ones5(), i) == 1.5
  {
    var m, v := SomeSlae(), Ones5();
    SomeSlaeWellFormed();
    var a := if i < 3 then i else 3;
    assert m.ia[i] == a && m.ia[i + 1] == a + 1;
    OneSlot(m.elems, m.ja, v, a);
  }

  /** Row 3 of the fixture has no off-diagonal slot. */
  lemma SomeSlaeEmptyRow()
    ensures SomeSlae().Multipliable(5) && RowValue(SomeSlae(), Ones5(), 3) == 1.0
  {
    var m := SomeSlae();
    SomeSlaeWellFormed();
    assert m.ia[3] == 3 && m.ia[4] == 3;
  }

  /** On the fixture, the product with the all-ones vector. */
  lemma SomeSlaeProduct()
    ensures SomeSlae().Multipliable(5)
    ensures Product(SomeSlae(), Ones5()) == [1.5, 1.5, 1.5, 1.0, 1.5]
  {
    SomeSlaeOneSlotRow(0);
    SomeSlaeOneSlotRow(1);
    SomeSlaeOneSlotRow(2);
    SomeSlaeEmptyRow();
    SomeSlaeOneSlotRow(4);
    var p := Product(SomeSlae(), Ones5());
    assert |p| == 5 && p[0] == 1.5 && p[1] == 1.5 && p[2] == 1.5 && p[3] == 1.0 && p[4] == 1.5;
  }
}
