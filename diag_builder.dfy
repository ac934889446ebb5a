/**
 * The nine-diagonal SLAE builder for bilinear elements on a rectangular
 * mesh (`DiagSlaeBuilderHermit`). It sizes the bands to the node count,
 * puts `Gap = X.Length - 2`, scatters each element's local 4x4 block into
 * the diagonal and the bands at the element's four nodes, accumulates the
 * local right-hand side, and finally replaces zero diagonal entries by 1.
 *
 * The element's four nodes, numbered row by row over the refined axes, are
 * `a = yi * X.Length + xi`, `a + 1`, `a2 = a + X.Length` and `a2 + 1`; the
 * local matrix and vector (`ComputeLocal`, `ComputeLocalB`) are inputs.
 */
module DiagSlaeBuilders {
  import opened Wrappers
  import opened Diag9Matrices
  import RectMeshes
  import SlaeBuilderShared

  /** `PairF64`: a point of the plane. */
  datatype Point = Point(x: real, y: real)

  /** A local element matrix, rows and columns in the element's node order. */
  type Local4 = l: seq<seq<real>> | |l| == 4 && |l[0]| == 4 && |l[1]| == 4 && |l[2]| == 4 && |l[3]| == 4
    witness [[0.0, 0.0, 0.0, 0.0], [0.0, 0.0, 0.0, 0.0], [0.0, 0.0, 0.0, 0.0], [0.0, 0.0, 0.0, 0.0]]

  /** A local right-hand side, one value per node of the element. */
  type Vec4 = v: seq<real> | |v| == 4 witness [0.0, 0.0, 0.0, 0.0]

  /** The local matrix and vector of the element with corners `p0`, `p1` in a subdomain. */
  datatype LocalFuncs = LocalFuncs(matrix: (Point, Point, int) -> Local4, rhs: (Point, Point, int) -> Vec4)

  /**
   * Why a build fails: the constructor's `NotImplementedException`, the
   * `InvalidOperationException` for an unsupported implementation, or an
   * index error from the mesh's subdomain lookup.
   */
  datatype BuildError = NotImplemented | InvalidOperation | IndexOutOfRange

  /** The matrix and right-hand side under assembly. */
  datatype Slae = Slae(m: Diag9, b: seq<real>)

  /** What the builder reads from the mesh: the refined axes and the subdomain data. */
  datatype Grid = Grid(x: seq<real>, y: seq<real>, subs: seq<RectMeshes.Subdomain>, ixw: seq<int>, iyw: seq<int>)

  /** Every band, the diagonal and the right-hand side have length `n`. */
  predicate Sized(s: Slae, n: int)
  {
    && |s.m.di| == n
    && |s.m.ld0| == n && |s.m.ld1| == n && |s.m.ld2| == n && |s.m.ld3| == n
    && |s.m.rd0| == n && |s.m.rd1| == n && |s.m.rd2| == n && |s.m.rd3| == n
    && |s.b| == n
  }

  /** The state `GlobalMatrixInit` leaves: zero arrays of length `n` and the given gap. */
  function Initial(n: nat, gap: int): (s: Slae)
    ensures Sized(s, n) && s.m.gap == gap && s.m.BandsMirrored()
    ensures forall i :: 0 <= i < n ==> s.m.di[i] == 0.0 && s.b[i] == 0.0
  {
    var z := Zeros(n);
    Slae(Diag9(z, z, z, z, z, z, z, z, z, gap), z)
  }

  /** `s[i] += v`. */
  function Add(s: seq<real>, i: int, v: real): (r: seq<real>)
    requires 0 <= i < |s|
    ensures |r| == |s|
  {
    s[i := s[i] + v]
  }

  /** Node `r` of the element whose first node is `a`, in rows of `nx` nodes. */
  function Node(a: int, nx: int, r: int): int
  {
    if r == 0 then a else if r == 1 then a + 1 else if r == 2 then a + nx else a + nx + 1
  }

  /** The band that receives the local entry `(r, c)`, `r < c`. */
  function Band(r: int, c: int): int
  {
    if r == 0 && c == 1 then 0
    else if r == 1 && c == 2 then 1
    else if r == 2 && c == 3 then 0
    else if r == 0 && c == 3 then 3
    else 2
  }

  /**
   * With `Gap = nx - 2` the two nodes of every off-diagonal local entry lie
   * exactly as far apart as the band the entry goes to is from the diagonal.
   */
  lemma BandDistance(m: Diag9, a: int, nx: int, r: int, c: int)
    requires m.gap == nx - 2 && 0 <= r < c < 4
    ensures Node(a, nx, c) - Node(a, nx, r) == m.Offset(Band(r, c))
  {
  }

  /**
   * The scatter of one element at first node `a`, in the source's order:
   * each upper-triangle entry of the local matrix is added to the diagonal,
   * or to a lower band and the upper band of the same index at the same
   * slot; the local vector is added to the right-hand side.
   */
  function AddElement(s: Slae, a: int, nx: int, l: Local4, lb: Vec4): (r: Slae)
    requires Sized(s, |s.m.di|) && 0 <= a && 1 <= nx && a + nx + 1 < |s.m.di|
    ensures Sized(r, |s.m.di|) && r.m.gap == s.m.gap
    ensures s.m.BandsMirrored() ==> r.m.BandsMirrored()
  {
    var m, a2 := s.m, a + nx;
    Slae(
      m.(
        di := Add(Add(Add(Add(m.di, a, l[0][0]), a + 1, l[1][1]), a2, l[2][2]), a2 + 1, l[3][3]),
        ld0 := Add(Add(m.ld0, a, l[0][1]), a2, l[2][3]),
        rd0 := Add(Add(m.rd0, a, l[0][1]), a2, l[2][3]),
        ld1 := Add(m.ld1, a + 1, l[1][2]),
        rd1 := Add(m.rd1, a + 1, l[1][2]),
        ld2 := Add(Add(m.ld2, a, l[0][2]), a + 1, l[1][3]),
        rd2 := Add(Add(m.rd2, a, l[0][2]), a + 1, l[1][3]),
        ld3 := Add(m.ld3, a, l[0][3]),
        rd3 := Add(m.rd3, a, l[0][3])),
      Add(Add(Add(Add(s.b, a, lb[0]), a + 1, lb[1]), a2, lb[2]), a2 + 1, lb[3]))
  }

  /** The diagonal of the matrix the bands represent holds `Di` when the bands are apart. */
  lemma EntryDiagonal(m: Diag9, p: int)
    requires m.Readable() && m.gap >= 1 && 0 <= p < m.Size()
    ensures Entry(m, p, p) == m.di[p]
  {
    EntryNine(m, p, p);
  }

  /**
   * The scatter adds local entry `(r, c)` to the global entries `(p, q)` and
   * `(q, p)` of the element's nodes `p`, `q` — as `Diag9Matrix.Mul` reads
   * the bands — when there are at least three nodes per row, so that the
   * bands lie apart.
   */
  lemma AddElementEntries(s: Slae, a: int, nx: int, l: Local4, lb: Vec4, r: int, c: int)
    requires Sized(s, |s.m.di|) && 0 <= a && 3 <= nx && a + nx + 1 < |s.m.di| && s.m.gap == nx - 2
    requires 0 <= r <= c < 4
    ensures var m, m' := s.m, AddElement(s, a, nx, l, lb).m;
      var p, q := Node(a, nx, r), Node(a, nx, c);
      && 0 <= p <= q < m.Size()
      && Entry(m', q, p) == Entry(m, q, p) + l[r][c]
      && Entry(m', p, q) == Entry(m, p, q) + l[r][c]
  {
    var m, m' := s.m, AddElement(s, a, nx, l, lb).m;
    var p, q := Node(a, nx, r), Node(a, nx, c);
    if r == c {
      EntryDiagonal(m, p);
      EntryDiagonal(m', p);
    } else {
      var k := Band(r, c);
      BandDistance(m, a, nx, r, c);
      EntryLayout(m, k, p);
      EntryLayout(m', k, p);
    }
  }

  /** The scatter adds the local vector at the element's four nodes and leaves the rest of the right-hand side. */
  lemma AddElementRhs(s: Slae, a: int, nx: int, l: Local4, lb: Vec4)
    requires Sized(s, |s.m.di|) && 0 <= a && 2 <= nx && a + nx + 1 < |s.m.di|
    ensures var b' := AddElement(s, a, nx, l, lb).b;
      && (forall r :: 0 <= r < 4 ==> b'[Node(a, nx, r)] == s.b[Node(a, nx, r)] + lb[r])
      && (forall i :: 0 <= i < |s.b| && i != a && i != a + 1 && i != a + nx && i != a + nx + 1 ==> b'[i] == s.b[i])
  {
  }

  /** The four nodes of an element inside the mesh are nodes of the mesh. */
  lemma ElementInside(xi: int, yi: int, nx: int, ny: int)
    requires 0 <= xi < nx - 1 && 0 <= yi < ny - 1
    ensures 0 <= RectMeshes.Times(yi, nx) + xi
    ensures RectMeshes.Times(yi, nx) + xi + nx + 1 < RectMeshes.Times(nx, ny)
  {
    RectMeshes.RowMajor(xi + 1, yi + 1, nx, ny);
    assert RectMeshes.Times(yi + 1, nx) == RectMeshes.Times(yi, nx) + nx;
    RectMeshes.MulStep(0, nx, yi + 1);
  }

  /** The loop body for element `(xi, yi)`: skip it outside every subdomain, fail when the lookup fails. */
  function Step(g: Grid, f: LocalFuncs, s: Slae, xi: int, yi: int): (r: Result<Slae, BuildError>)
    requires 0 <= xi < |g.x| - 1 && 0 <= yi < |g.y| - 1 && Sized(s, RectMeshes.Times(|g.x|, |g.y|))
    ensures r.Success? ==> Sized(r.value, |s.m.di|) && r.value.m.gap == s.m.gap
    ensures r.Success? && s.m.BandsMirrored() ==> r.value.m.BandsMirrored()
    ensures r.Failure? <==> RectMeshes.SubdomAtElement(g.subs, g.ixw, g.iyw, xi, yi).Failure?
    ensures r.Failure? ==> r.error == IndexOutOfRange
    ensures RectMeshes.SubdomAtElement(g.subs, g.ixw, g.iyw, xi, yi) == Success(None) ==> r == Success(s)
  {
    ElementInside(xi, yi, |g.x|, |g.y|);
    match RectMeshes.SubdomAtElement(g.subs, g.ixw, g.iyw, xi, yi)
    case Failure(_) => Failure(IndexOutOfRange)
    case Success(None) => Success(s)
    case Success(Some(num)) =>
      var p0, p1 := Point(g.x[xi], g.y[yi]), Point(g.x[xi + 1], g.y[yi + 1]);
      Success(AddElement(s, RectMeshes.Times(yi, |g.x|) + xi, |g.x|, f.matrix(p0, p1, num), f.rhs(p0, p1, num)))
  }

  /** The inner loop from `xi` on, over the elements of row `yi`. */
  function AssembleRow(g: Grid, f: LocalFuncs, s: Slae, yi: int, xi: int): (r: Result<Slae, BuildError>)
    requires 0 <= xi && 0 <= yi < |g.y| - 1 && Sized(s, RectMeshes.Times(|g.x|, |g.y|))
    ensures r.Success? ==> Sized(r.value, |s.m.di|) && r.value.m.gap == s.m.gap
    ensures r.Success? && s.m.BandsMirrored() ==> r.value.m.BandsMirrored()
    ensures r.Failure? ==> r.error == IndexOutOfRange
    decreases |g.x| - xi
  {
    if xi >= |g.x| - 1 then Success(s)
    else match Step(g, f, s, xi, yi)
      case Failure(e) => Failure(e)
      case Success(t) => AssembleRow(g, f, t, yi, xi + 1)
  }

  /** The outer loop from row `yi` on. */
  function Assemble(g: Grid, f: LocalFuncs, s: Slae, yi: int): (r: Result<Slae, BuildError>)
    requires 0 <= yi && Sized(s, RectMeshes.Times(|g.x|, |g.y|))
    ensures r.Success? ==> Sized(r.value, |s.m.di|) && r.value.m.gap == s.m.gap
    ensures r.Success? && s.m.BandsMirrored() ==> r.value.m.BandsMirrored()
    ensures r.Failure? ==> r.error == IndexOutOfRange
    decreases |g.y| - yi
  {
    if yi >= |g.y| - 1 then Success(s)
    else match AssembleRow(g, f, s, yi, 0)
      case Failure(e) => Failure(e)
      case Success(t) => Assemble(g, f, t, yi + 1)
  }

  /** The final pass: a zero diagonal entry becomes 1, every other entry stays. */
  function PatchDiag(di: seq<real>): (r: seq<real>)
    ensures |r| == |di|
    ensures forall i :: 0 <= i < |di| ==> r[i] != 0.0
    ensures forall i :: 0 <= i < |di| && di[i] != 0.0 ==> r[i] == di[i]
  {
    seq(|di|, i requires 0 <= i < |di| => if di[i] == 0.0 then 1.0 else di[i])
  }

  /**
   * What `Build` returns for a mesh with `n` nodes: only the host
   * implementation is accepted; its result is square of size `n`, has
   * `Gap = X.Length - 2`, mirrored bands and no zero on the diagonal, and
   * can be multiplied by a vector of length `n`.
   */
  function BuildResult(g: Grid, n: int, impl: SlaeBuilderShared.GlobalMatrixImplType, f: LocalFuncs): (r: Result<(Diag9, seq<real>), BuildError>)
    requires n == RectMeshes.Times(|g.x|, |g.y|) && n >= 0
    ensures impl != SlaeBuilderShared.Host ==> r == Failure(InvalidOperation)
    ensures impl == SlaeBuilderShared.Host && r.Failure? ==> r.error == IndexOutOfRange
    ensures r.Success? ==> var (m, b) := r.value;
      && m.Size() == n && |b| == n && m.gap == |g.x| - 2 && m.BandsMirrored()
      && (forall i :: 0 <= i < n ==> m.di[i] != 0.0)
      && (|g.x| >= 1 ==> m.Multipliable(n))
  {
    if impl != SlaeBuilderShared.Host then Failure(InvalidOperation)
    else match Assemble(g, f, Initial(n, |g.x| - 2), 0)
      case Failure(e) => Failure(e)
      case Success(s) => Success((s.m.(di := PatchDiag(s.m.di)), s.b))
  }

  /** The node count of a mesh, the product of its axis lengths, is not negative. */
  lemma CountNonNegative(nx: nat, ny: nat)
    ensures RectMeshes.Times(nx, ny) >= 0
  {
    if nx > 0 && ny > 0 {
      RectMeshes.MulStep(0, ny, nx);
    }
  }

  /** The mesh data the builder reads. */
  function GridOf(mesh: RectMeshes.RectMesh): Grid
    reads mesh
  {
    Grid(mesh.x, mesh.y, mesh.subDomains, mesh.ixw, mesh.iyw)
  }

  /**
   * `Construct`: the builder's constructor throws `NotImplementedException`
   * before it assigns anything, so no builder is returned.
   */
  method Construct(mesh: RectMeshes.RectMesh, funcs: LocalFuncs) returns (r: Result<DiagSlaeBuilderHermit, BuildError>)
    ensures r == Failure(NotImplemented)
  {
    return Failure(NotImplemented);
  }

  /**
   * The builder. Its matrix is a `Diag9` value and its right-hand side a
   * sequence; the source's arrays are updated in place, here they are reassigned.
   */
  class DiagSlaeBuilderHermit {
    var matrix: Diag9
    var b: seq<real>
    const mesh: RectMeshes.RectMesh
    var globalMatrixImpl: SlaeBuilderShared.GlobalMatrixImplType
    const funcs: LocalFuncs

    /** The field initialisers and the assignments after the constructor's `throw`. */
    constructor (mesh: RectMeshes.RectMesh, funcs: LocalFuncs)
      ensures this.mesh == mesh && this.funcs == funcs
      ensures globalMatrixImpl == SlaeBuilderShared.Host
      ensures Slae(matrix, b) == Initial(0, 0)
    {
      this.mesh := mesh;
      this.funcs := funcs;
      globalMatrixImpl := SlaeBuilderShared.Host;
      matrix := Diag9([], [], [], [], [], [], [], [], [], 0);
      b := [];
    }

    /** `GlobalMatrixPortraitCompose`: for the banded format the portrait is just the gap. */
    method GlobalMatrixPortraitCompose()
      modifies this
      ensures matrix == old(matrix).(gap := |mesh.x| - 2)
      ensures b == old(b) && globalMatrixImpl == old(globalMatrixImpl)
    {
      matrix := matrix.(gap := |mesh.x| - 2);
    }

    /** `GlobalMatrixInit`: the gap, then zero arrays of the node count for the nine diagonals and the right-hand side. */
    method GlobalMatrixInit()
      modifies this
      requires mesh.nodesCount >= 0
      ensures Slae(matrix, b) == Initial(mesh.nodesCount, |mesh.x| - 2)
      ensures globalMatrixImpl == old(globalMatrixImpl)
    {
      GlobalMatrixPortraitCompose();
      var n := mesh.nodesCount;
      matrix := matrix.(di := Zeros(n));
      matrix := matrix.(ld0 := Zeros(n), ld1 := Zeros(n), ld2 := Zeros(n), ld3 := Zeros(n));
      matrix := matrix.(rd0 := Zeros(n), rd1 := Zeros(n), rd2 := Zeros(n), rd3 := Zeros(n));
      b := Zeros(n);
    }

    /** The sixteen `+=` of one element at first node `a` and the four of its right-hand side. */
    method Scatter(a: int, nx: int, local: Local4, localB: Vec4)
      modifies this
      requires Sized(Slae(matrix, b), |matrix.di|) && 0 <= a && 1 <= nx && a + nx + 1 < |matrix.di|
      ensures Slae(matrix, b) == AddElement(old(Slae(matrix, b)), a, nx, local, localB)
      ensures globalMatrixImpl == old(globalMatrixImpl)
    {
      ghost var target := AddElement(Slae(matrix, b), a, nx, local, localB);
      var di, ld0, ld1, ld2, ld3 := matrix.di, matrix.ld0, matrix.ld1, matrix.ld2, matrix.ld3;
      var rd0, rd1, rd2, rd3, rhs := matrix.rd0, matrix.rd1, matrix.rd2, matrix.rd3, b;
      di := Add(di, a, local[0][0]);
      ld0 := Add(ld0, a, local[0][1]);
      rd0 := Add(rd0, a, local[0][1]);
      ld2 := Add(ld2, a, local[0][2]);
      rd2 := Add(rd2, a, local[0][2]);
      ld3 := Add(ld3, a, local[0][3]);
      rd3 := Add(rd3, a, local[0][3]);

      di := Add(di, a + 1, local[1][1]);
      ld1 := Add(ld1, a + 1, local[1][2]);
      rd1 := Add(rd1, a + 1, local[1][2]);
      ld2 := Add(ld2, a + 1, local[1][3]);
      rd2 := Add(rd2, a + 1, local[1][3]);

      var a2 := a + nx;
      di := Add(di, a2, local[2][2]);
      ld0 := Add(ld0, a2, local[2][3]);
      rd0 := Add(rd0, a2, local[2][3]);

      di := Add(di, a2 + 1, local[3][3]);

      rhs := Add(rhs, a, localB[0]);
      rhs := Add(rhs, a + 1, localB[1]);
      rhs := Add(rhs, a2, localB[2]);
      rhs := Add(rhs, a2 + 1, localB[3]);
      assert target.m == matrix.(di := di, ld0 := ld0, ld1 := ld1, ld2 := ld2, ld3 := ld3, rd0 := rd0, rd1 := rd1, rd2 := rd2, rd3 := rd3);
      matrix := matrix.(di := di, ld0 := ld0, ld1 := ld1, ld2 := ld2, ld3 := ld3);
      matrix := matrix.(rd0 := rd0, rd1 := rd1, rd2 := rd2, rd3 := rd3);
      b := rhs;
    }

    /** The body of the element loop for element `(xi, yi)`. */
    method StepAt(xi: int, yi: int) returns (r: Result<(), BuildError>)
      modifies this
      requires 0 <= xi < |mesh.x| - 1 && 0 <= yi < |mesh.y| - 1
      requires Sized(Slae(matrix, b), RectMeshes.Times(|mesh.x|, |mesh.y|))
      ensures var spec := Step(GridOf(mesh), funcs, old(Slae(matrix, b)), xi, yi);
        && (r.Success? <==> spec.Success?)
        && (r.Success? ==> Slae(matrix, b) == spec.value)
      ensures r.Failure? ==> r.error == IndexOutOfRange && Slae(matrix, b) == old(Slae(matrix, b))
      ensures globalMatrixImpl == old(globalMatrixImpl)
    {
      var nx, ny, f := |mesh.x|, |mesh.y|, funcs;
      ghost var spec := Step(GridOf(mesh), f, Slae(matrix, b), xi, yi);
      var subDom := mesh.GetSubdomNumAtElCoords(xi, yi);
      if subDom.Failure? {
        return Failure(IndexOutOfRange);
      }
      if subDom.value.Some? {
        var p0 := Point(mesh.x[xi], mesh.y[yi]);
        var p1 := Point(mesh.x[xi + 1], mesh.y[yi + 1]);
        var local := f.matrix(p0, p1, subDom.value.value);
        var localB := f.rhs(p0, p1, subDom.value.value);
        ElementInside(xi, yi, nx, ny);
        var a := RectMeshes.Times(yi, nx) + xi;
        assert spec == Success(AddElement(Slae(matrix, b), a, nx, local, localB));
        Scatter(a, nx, local, localB);
      }
      return Success(());
    }

    /**
     * The element loop over row `yi`. On failure the arrays keep the elements
     * scattered before the failing lookup; the contract leaves that partial
     * state unspecified, as the exception that ends the source's loop does.
     */
    method AssembleRowAt(yi: int) returns (r: Result<(), BuildError>)
      modifies this
      requires 0 <= yi < |mesh.y| - 1
      requires Sized(Slae(matrix, b), RectMeshes.Times(|mesh.x|, |mesh.y|))
      ensures var spec := AssembleRow(GridOf(mesh), funcs, old(Slae(matrix, b)), yi, 0);
        && (r.Success? <==> spec.Success?)
        && (r.Success? ==> Slae(matrix, b) == spec.value)
      ensures r.Failure? ==> r.error == IndexOutOfRange
      ensures globalMatrixImpl == old(globalMatrixImpl)
    {
      ghost var g, f, s0 := GridOf(mesh), funcs, Slae(matrix, b);
      var nx, ny := |mesh.x|, |mesh.y|;
      var xi := 0;
      while xi < nx - 1
        invariant 0 <= xi && Sized(Slae(matrix, b), RectMeshes.Times(nx, ny))
        invariant AssembleRow(g, f, s0, yi, 0) == AssembleRow(g, f, Slae(matrix, b), yi, xi)
        invariant globalMatrixImpl == old(globalMatrixImpl)
      {
        r := StepAt(xi, yi);
        if r.Failure? {
          return;
        }
        xi := xi + 1;
      }
      return Success(());
    }

    /** The final pass over the diagonal: zero entries become 1. */
    method PatchDiagonal()
      modifies this
      ensures matrix == old(matrix).(di := PatchDiag(old(matrix.di))) && b == old(b)
      ensures globalMatrixImpl == old(globalMatrixImpl)
    {
      var di := matrix.di;
      var i := 0;
      while i < |di|
        invariant 0 <= i <= |di| == |old(matrix.di)|
        invariant forall k :: 0 <= k < i ==> di[k] == PatchDiag(old(matrix.di))[k]
        invariant forall k :: i <= k < |di| ==> di[k] == old(matrix.di)[k]
      {
        if di[i] == 0.0 {
          di := di[i := 1.0];
        }
        i := i + 1;
      }
      matrix := matrix.(di := di);
    }

    /**
     * `GlobalMatrixBuildImplHost`: scatters every element that lies in a
     * subdomain, row by row, then patches the diagonal. A failing subdomain
     * lookup ends the build, and the partially assembled arrays it leaves are
     * unspecified.
     */
    method GlobalMatrixBuildImplHost() returns (r: Result<(), BuildError>)
      modifies this
      requires Sized(Slae(matrix, b), RectMeshes.Times(|mesh.x|, |mesh.y|))
      ensures var spec := Assemble(GridOf(mesh), funcs, old(Slae(matrix, b)), 0);
        && (r.Success? <==> spec.Success?)
        && (r.Success? ==> matrix == spec.value.m.(di := PatchDiag(spec.value.m.di)) && b == spec.value.b)
      ensures r.Failure? ==> r.error == IndexOutOfRange
      ensures globalMatrixImpl == old(globalMatrixImpl)
    {
      ghost var g, f, s0 := GridOf(mesh), funcs, Slae(matrix, b);
      var nx, ny := |mesh.x|, |mesh.y|;
      var yi := 0;
      while yi < ny - 1
        invariant 0 <= yi && Sized(Slae(matrix, b), RectMeshes.Times(nx, ny))
        invariant Assemble(g, f, s0, 0) == Assemble(g, f, Slae(matrix, b), yi)
        invariant globalMatrixImpl == old(globalMatrixImpl)
      {
        r := AssembleRowAt(yi);
        if r.Failure? {
          return;
        }
        yi := yi + 1;
      }
      PatchDiagonal();
      return Success(());
    }

    /**
     * `GlobalMatrixBuild`: only the host implementation is supported. After a
     * failure the arrays are unspecified.
     */
    method GlobalMatrixBuild() returns (r: Result<(), BuildError>)
      modifies this
      requires Sized(Slae(matrix, b), RectMeshes.Times(|mesh.x|, |mesh.y|))
      ensures globalMatrixImpl != SlaeBuilderShared.Host ==> r == Failure(InvalidOperation) && matrix == old(matrix) && b == old(b)
      ensures var spec := Assemble(GridOf(mesh), funcs, old(Slae(matrix, b)), 0);
        globalMatrixImpl == SlaeBuilderShared.Host ==>
          && (r.Success? <==> spec.Success?)
          && (r.Success? ==> matrix == spec.value.m.(di := PatchDiag(spec.value.m.di)) && b == spec.value.b)
          && (r.Failure? ==> r.error == IndexOutOfRange)
      ensures globalMatrixImpl == old(globalMatrixImpl)
    {
      match globalMatrixImpl
      case Host =>
        r := GlobalMatrixBuildImplHost();
      case _ =>
        r := Failure(InvalidOperation);
    }

    /**
     * `Build`: sizes the arrays to the mesh, assembles them and returns the
     * matrix and the right-hand side.
     */
    method Build() returns (r: Result<(Diag9, seq<real>), BuildError>)
      modifies this
      requires mesh.nodesCount == RectMeshes.Times(|mesh.x|, |mesh.y|)
      ensures r == BuildResult(GridOf(mesh), mesh.nodesCount, globalMatrixImpl, funcs)
      ensures globalMatrixImpl == old(globalMatrixImpl)
    {
      CountNonNegative(|mesh.x|, |mesh.y|);
      GlobalMatrixInit();
      ghost var init := Slae(matrix, b);
      assert init == Initial(mesh.nodesCount, |mesh.x| - 2);
      var built := GlobalMatrixBuild();
      if built.Failure? {
        return Failure(built.error);
      }
      return Success((matrix, b));
    }
  }
}
