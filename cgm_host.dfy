/**
 * The conjugate-gradient solver with a diagonal preconditioner (`CgmHost`):
 * its scratch-vector bookkeeping, the iteration loop with its stopping
 * test, and the final residual.
 *
 * The matrix and the vector helpers the solver calls (`Dot`, `Axpy`,
 * `Scale`, `Vmul`, `Rsqrt`) are not part of this model: they are given as
 * functions. A helper that works in place on a span is the function from
 * the values it reads to the new value of what it writes.
 */
module CgmHosts {
  import opened Wrappers

  /**
   * A matrix as the solver sees it (`Types.IMatrix`): its diagonal `Di`
   * and `Mul(vec, res)`, as the function from `vec` and the old `res` to
   * the new `res`.
   */
  datatype Operator = Operator(di: seq<real>, mul: (seq<real>, seq<real>) -> seq<real>)
  {
    /** `Mul(vec, res)`: the new `res`, written in place. */
    function Mul(v: seq<real>, res: seq<real>): (w: seq<real>)
      ensures |w| == |res|
    {
      Fit(res, mul(v, res))
    }
  }

  /**
   * A value written in place into `dst`: a span keeps its length, so a
   * result of another length cannot arise and leaves `dst` as it was.
   */
  function Fit(dst: seq<real>, w: seq<real>): (r: seq<real>)
    ensures |r| == |dst|
    ensures |w| == |dst| ==> r == w
  {
    if |w| == |dst| then w else dst
  }

  /**
   * The vector helpers: `dot(u, v)` is the scalar product; `axpy(a, x, y)`
   * gives the new `y`; `scale(a, x)` the new `x`; `vmul(u, v)` the new `u`
   * and `v` (both are spans, and which one the call writes is left open);
   * `rsqrt(v)` the new `v`.
   */
  datatype Blas = Blas(
    dot: (seq<real>, seq<real>) -> real,
    axpy: (real, seq<real>, seq<real>) -> seq<real>,
    scale: (real, seq<real>) -> seq<real>,
    vmul: (seq<real>, seq<real>) -> (seq<real>, seq<real>),
    rsqrt: seq<real> -> seq<real>)
  {
    /** `Axpy(a, x, y)`: the new `y`. */
    function Axpy(a: real, x: seq<real>, y: seq<real>): (w: seq<real>)
      ensures |w| == |y|
    {
      Fit(y, axpy(a, x, y))
    }

    /** `Scale(a, x)`: the new `x`. */
    function Scale(a: real, x: seq<real>): (w: seq<real>)
      ensures |w| == |x|
    {
      Fit(x, scale(a, x))
    }

    /** `Vmul(u, v)`: the new `u` and `v`. */
    function Vmul(u: seq<real>, v: seq<real>): (w: (seq<real>, seq<real>))
      ensures |w.0| == |u| && |w.1| == |v|
    {
      (Fit(u, vmul(u, v).0), Fit(v, vmul(u, v).1))
    }

    /** `Rsqrt(v)`: the new `v`. */
    function Rsqrt(v: seq<real>): (w: seq<real>)
      ensures |w| == |v|
    {
      Fit(v, rsqrt(v))
    }
  }

  /** A quotient; a zero denominator, which gives an infinity or NaN in floating point, gives 0 here. */
  function Quot(p: real, q: real): real
  {
    if q == 0.0 then 0.0 else p / q
  }

  // ---------------------------------------------------------------------
  // The iteration
  // ---------------------------------------------------------------------

  /** The solution and the scratch vectors between two passes, and the running `mrr0`. */
  datatype Cg = Cg(x: seq<real>, r: seq<real>, diInv: seq<real>, mr: seq<real>, z: seq<real>, az: seq<real>, mrr0: real)

  /** Every vector of the state has length `n`. */
  predicate Shaped(c: Cg, n: int)
  {
    |c.x| == n && |c.r| == n && |c.diInv| == n && |c.mr| == n && |c.z| == n && |c.az| == n
  }

  /**
   * The steps before the loop: the preconditioner from the diagonal, the
   * first residual `r = b - A x`, the first direction `z`, `mr` and `mrr0`.
   * `z` and `az` are the scratch vectors as they were before the call.
   */
  function Start(a: Operator, ops: Blas, b: seq<real>, x: seq<real>, z: seq<real>, az: seq<real>): (c: Cg)
    ensures c.x == x && c.az == az
    ensures |a.di| == |x| && |b| == |x| && |az| == |x| ==> Shaped(c, |x|)
  {
    var diInv := ops.Rsqrt(a.di);
    var ax := a.Mul(x, z);
    var r := ops.Axpy(-1.0, ax, b);
    var (z1, diInv1) := ops.Vmul(r, diInv);
    var (mr, diInv2) := ops.Vmul(r, diInv1);
    Cg(x, r, diInv2, mr, z1, az, ops.dot(mr, r))
  }

  /**
   * One pass of the loop body before the stopping test: the product `az`,
   * the step `alpha`, the update of `x` and `r`, then `mr`, the
   * preconditioning call, the new `mrr`, `beta` and the new direction `z`.
   */
  function Iterate(a: Operator, ops: Blas, c: Cg): (c': Cg)
    ensures Shaped(c, |c.x|) ==> Shaped(c', |c.x|)
  {
    var az := a.Mul(c.z, c.z);
    var alpha := Quot(c.mrr0, ops.dot(az, c.z));
    var x := ops.Axpy(alpha, c.z, c.x);
    var r := ops.Axpy(-alpha, az, c.r);
    var mr := r;
    var (diInv, r1) := ops.Vmul(c.diInv, r);
    var mrr1 := ops.dot(mr, r1);
    var beta := Quot(mrr1, c.mrr0);
    var z := ops.Axpy(1.0, mr, ops.Scale(beta, c.z));
    Cg(x, r1, diInv, mr, z, az, mrr1)
  }

  /** The stopping test `rr / bb < eps`; with `bb == 0` the floating-point quotient is infinite or NaN and the test fails. */
  predicate Converged(ops: Blas, b: seq<real>, eps: real, c: Cg)
  {
    var rr, bb := ops.dot(c.r, c.r), ops.dot(b, b);
    bb != 0.0 && rr / bb < eps
  }

  /** The loop body as a step on states. */
  function Body(a: Operator, ops: Blas): Cg -> Cg
  {
    (c: Cg) => Iterate(a, ops, c)
  }

  /** The stopping test as a predicate on states. */
  function Done(ops: Blas, b: seq<real>, eps: real): Cg -> bool
  {
    (c: Cg) => Converged(ops, b, eps, c)
  }

  // ---------------------------------------------------------------------
  // The loop, for any body and stopping test
  // ---------------------------------------------------------------------

  /** `step` applied `k` times. */
  function Power<S>(step: S -> S, s: S, k: nat): S
    decreases k
  {
    if k == 0 then s else Power(step, step(s), k - 1)
  }

  /**
   * The loop `for (; iter < maxIter; iter++) { s = step(s); if (done(s)) break; }`
   * entered with `iter`: the state it leaves and the final `iter`.
   */
  function Loop<S>(step: S -> S, done: S -> bool, s: S, iter: int, maxIter: int): (S, int)
    decreases maxIter - iter
  {
    if iter >= maxIter then (s, iter)
    else
      var s' := step(s);
      if done(s') then (s', iter) else Loop(step, done, s', iter + 1, maxIter)
  }

  /** The loop entered with `iter`, in terms of the states `p` passes after entry. */
  lemma {:induction false} LoopFrom<S>(step: S -> S, done: S -> bool, s: S, iter: int, maxIter: int)
    ensures var (s', k) := Loop(step, done, s, iter, maxIter);
      && iter <= k && (iter <= maxIter ==> k <= maxIter)
      && (iter >= maxIter ==> k == iter && s' == s)
      && (forall p :: 1 <= p <= k - iter ==> !done(Power(step, s, p)))
      && (k < maxIter ==> done(Power(step, s, k - iter + 1)) && s' == Power(step, s, k - iter + 1))
      && (k >= maxIter ==> s' == Power(step, s, k - iter))
    decreases maxIter - iter
  {
    if iter < maxIter {
      var s1 := step(s);
      assert Power(step, s, 1) == s1;
      if !done(s1) {
        LoopFrom(step, done, s1, iter + 1, maxIter);
        var k := Loop(step, done, s1, iter + 1, maxIter).1;
        forall p | 1 <= p <= k - iter
          ensures !done(Power(step, s, p))
        {
          assert Power(step, s, p) == Power(step, s1, p - 1);
          if p == 1 {
            assert Power(step, s1, 0) == s1;
          }
        }
      }
    }
  }

  /**
   * The iteration count the loop returns: it lies in `[0, max(maxIter, 0)]`,
   * and below `maxIter` it is the zero-based pass after which the test first
   * held.
   */
  lemma LoopCount<S>(step: S -> S, done: S -> bool, s: S, maxIter: int)
    ensures var (s', k) := Loop(step, done, s, 0, maxIter);
      && 0 <= k && (maxIter >= 0 ==> k <= maxIter) && (maxIter <= 0 ==> k == 0 && s' == s)
      && (forall p :: 1 <= p <= k ==> !done(Power(step, s, p)))
      && (k < maxIter ==> done(Power(step, s, k + 1)) && s' == Power(step, s, k + 1))
      && (maxIter >= 0 && k == maxIter ==> s' == Power(step, s, maxIter))
  {
    LoopFrom(step, done, s, 0, maxIter);
    var (s', k) := Loop(step, done, s, 0, maxIter);
    forall p | 1 <= p <= k
      ensures !done(Power(step, s, p))
    {
      assert p <= k - 0;
    }
    if k < maxIter {
      assert k - 0 + 1 == k + 1;
    } else if maxIter >= 0 {
      assert k - 0 == maxIter;
    }
  }

  /** A non-negative `maxIter` is returned exactly when the test held after none of the passes. */
  lemma LoopExhausted<S>(step: S -> S, done: S -> bool, s: S, maxIter: int)
    requires maxIter >= 0
    ensures Loop(step, done, s, 0, maxIter).1 == maxIter <==>
      forall p :: 1 <= p <= maxIter ==> !done(Power(step, s, p))
  {
    LoopCount(step, done, s, maxIter);
    var k := Loop(step, done, s, 0, maxIter).1;
    if k < maxIter {
      assert 1 <= k + 1 <= maxIter && done(Power(step, s, k + 1));
    }
  }

  /** How many times `Solve` calls `Mul`: once before the loop, once per pass, once after. */
  function MulCalls(k: int, maxIter: int): int
  {
    (if k < maxIter then k + 1 else k) + 2
  }

  /** The count is the number of passes plus two: at least two and at most `max(maxIter, 0) + 2`. */
  lemma MulCallsBounds<S>(step: S -> S, done: S -> bool, s: S, maxIter: int)
    ensures var k := Loop(step, done, s, 0, maxIter).1;
      && 2 <= MulCalls(k, maxIter) <= (if maxIter >= 0 then maxIter else 0) + 2
      && (maxIter > 0 ==> (MulCalls(k, maxIter) == maxIter + 2 <==> k >= maxIter - 1))
  {
    LoopCount(step, done, s, maxIter);
    if maxIter > 0 {
      LoopExhausted(step, done, s, maxIter);
    }
  }

  // ---------------------------------------------------------------------
  // The solver
  // ---------------------------------------------------------------------

  /** Why `AllocateTemps` fails: `new Real[n]` with a negative `n`. */
  datatype AllocError = Overflow

  /**
   * The solver. The scratch arrays are sequence fields: `AllocateTemps`
   * replaces them by new zero vectors, `Solve` overwrites them.
   */
  class CgmHost {
    var maxIter: int
    var eps: real
    var n: int
    var r: seq<real>
    var diInv: seq<real>
    var mr: seq<real>
    var az: seq<real>
    var z: seq<real>

    /** Every scratch vector has length `n`. */
    predicate Valid()
      reads this
    {
      n >= 0 && |r| == n && |diInv| == n && |mr| == n && |az| == n && |z| == n
    }

    /** Stores `maxIter` as given and `eps` divided by `1e7`; the scratch vectors are empty. */
    constructor (maxIter: int, eps: real)
      ensures Valid()
      ensures this.maxIter == maxIter && this.eps == eps / 10000000.0 && n == 0
      ensures r == [] && diInv == [] && mr == [] && az == [] && z == []
    {
      this.maxIter := maxIter;
      this.eps := eps / 10000000.0;
      n := 0;
      r, diInv, mr, az, z := [], [], [], [], [];
    }

    /**
     * `AllocateTemps(n)`: when `n` differs from the current length, records
     * it and replaces the five scratch vectors by zero vectors of length
     * `n` (a negative `n` is recorded, then the allocation throws);
     * otherwise nothing changes.
     */
    method AllocateTemps(n: int) returns (res: Result<(), AllocError>)
      modifies this
      ensures n == old(this.n) ==> res.Success? && unchanged(this)
      ensures n != old(this.n) && n < 0 ==> res == Failure(Overflow) && this.n == n
      ensures n != old(this.n) && n < 0 ==> r == old(r) && diInv == old(diInv) && mr == old(mr) && az == old(az) && z == old(z)
      ensures n != old(this.n) && n >= 0 ==> res.Success? && this.n == n && Valid()
      ensures n != old(this.n) && n >= 0 ==> r == Zeros(n) && diInv == Zeros(n) && mr == Zeros(n) && az == Zeros(n) && z == Zeros(n)
      ensures maxIter == old(maxIter) && eps == old(eps)
    {
      if n != this.n {
        this.n := n;
        if n < 0 {
          return Failure(Overflow);
        }
        r, diInv, mr, z, az := Zeros(n), Zeros(n), Zeros(n), Zeros(n), Zeros(n);
      }
      return Success(());
    }

    /** A helper's result written into the caller's span `x`. */
    static method Store(x: array<real>, v: seq<real>)
      modifies x
      requires |v| == x.Length
      ensures x[..] == v
    {
      for i := 0 to x.Length
        invariant forall k :: 0 <= k < i ==> x[k] == v[k]
      {
        x[i] := v[i];
      }
    }

    /**
     * One pass of the loop body (steps 3 to 7) on the state `c`, whose
     * solution vector is the caller's `x`, updated in place by `Axpy`.
     */
    static method Pass(a: Operator, ops: Blas, c: Cg, x: array<real>) returns (c': Cg)
      modifies x
      requires Shaped(c, x.Length) && c.x == x[..]
      ensures c' == Iterate(a, ops, c) && x[..] == c'.x && Shaped(c', x.Length)
    {
      // 3.
      var azs := a.Mul(c.z, c.z);
      var azz := ops.dot(azs, c.z);
      var alpha := Quot(c.mrr0, azz);
      // 4.
      Store(x, ops.Axpy(alpha, c.z, x[..]));
      // 5.
      var rs := ops.Axpy(-alpha, azs, c.r);
      // 6.
      var mrs := rs;
      var (di, rs1) := ops.Vmul(c.diInv, rs);
      var mrr1 := ops.dot(mrs, rs1);
      var beta := Quot(mrr1, c.mrr0);
      // 7.
      var zs := ops.Axpy(1.0, mrs, ops.Scale(beta, c.z));
      c' := Cg(x[..], rs1, di, mrs, zs, azs, mrr1);
    }

    /**
     * `Solve`: sizes the scratch vectors to `x`, runs the preconditioned
     * conjugate-gradient loop from `start`, updating `x` in place, and
     * returns the squared norm of the residual `b - A x`, recomputed from
     * the final `x`, and the iteration count. `mulCalls` counts the calls
     * of `Mul`.
     */
    method Solve(a: Operator, ops: Blas, b: seq<real>, x: array<real>)
      returns (discrep: real, iter: int, ghost start: Cg, ghost final: Cg, ghost mulCalls: int)
      modifies this, x
      requires Valid() && |a.di| == x.Length && |b| == x.Length
      ensures Valid() && n == x.Length && maxIter == old(maxIter) && eps == old(eps)
      ensures var z0 := if x.Length == old(n) then old(z) else Zeros(x.Length);
        var az0 := if x.Length == old(n) then old(az) else Zeros(x.Length);
        start == Start(a, ops, b, old(x[..]), z0, az0)
      ensures (final, iter) == Loop(Body(a, ops), Done(ops, b, eps), start, 0, maxIter)
      ensures x[..] == final.x && z == a.Mul(final.x, final.z) && r == ops.Axpy(-1.0, z, b)
      ensures discrep == ops.dot(r, r)
      ensures diInv == final.diInv && mr == final.mr && az == final.az
      ensures mulCalls == MulCalls(iter, maxIter)
    {
      var _ := AllocateTemps(x.Length);
      discrep, iter, start, final, mulCalls := SolveSized(a, ops, b, x);
    }

    /** `Solve` once the scratch vectors have the length of `x`. */
    method SolveSized(a: Operator, ops: Blas, b: seq<real>, x: array<real>)
      returns (discrep: real, iter: int, ghost start: Cg, ghost final: Cg, ghost mulCalls: int)
      modifies this, x
      requires Valid() && n == x.Length && |a.di| == x.Length && |b| == x.Length
      ensures Valid() && n == old(n) && maxIter == old(maxIter) && eps == old(eps)
      ensures start == Start(a, ops, b, old(x[..]), old(z), old(az))
      ensures (final, iter) == Loop(Body(a, ops), Done(ops, b, eps), start, 0, maxIter)
      ensures x[..] == final.x && z == a.Mul(final.x, final.z) && r == ops.Axpy(-1.0, z, b)
      ensures discrep == ops.dot(r, r)
      ensures diInv == final.diInv && mr == final.mr && az == final.az
      ensures mulCalls == MulCalls(iter, maxIter)
    {
      var cur;
      cur, iter, mulCalls, start := Iterations(a, ops, b, x, z, az, maxIter, eps);
      final := cur;
      var zs, rs;
      zs, rs, discrep := Residual(a, ops, b, x[..], cur.z);
      mulCalls := mulCalls + 1;
      r, diInv, mr, z, az := rs, cur.diInv, cur.mr, zs, cur.az;
    }

    /** The lines after the loop: `z = A x` into the old `z`, `r = b - z` and its squared norm. */
    static method Residual(a: Operator, ops: Blas, b: seq<real>, xs: seq<real>, z: seq<real>) returns (zs: seq<real>, rs: seq<real>, rr: real)
      ensures zs == a.Mul(xs, z) && rs == ops.Axpy(-1.0, zs, b) && rr == ops.dot(rs, rs)
    {
      zs := a.Mul(xs, z);
      rs := ops.Axpy(-1.0, zs, b);
      rr := ops.dot(rs, rs);
    }

    /**
     * The body of `Solve` from the preconditioner to the end of the loop:
     * the start state from `x` and the scratch `z`, `az`, then the passes
     * until the stopping test holds or `bound` passes are done.
     */
    static method Iterations(a: Operator, ops: Blas, b: seq<real>, x: array<real>, z: seq<real>, az: seq<real>, bound: int, tol: real)
      returns (cur: Cg, iter: int, ghost mulCalls: int, ghost c0: Cg)
      modifies x
      requires |a.di| == x.Length && |b| == x.Length && |z| == x.Length && |az| == x.Length
      ensures c0 == Start(a, ops, b, old(x[..]), z, az)
      ensures (cur, iter) == Loop(Body(a, ops), Done(ops, b, tol), c0, 0, bound)
      ensures x[..] == cur.x && Shaped(cur, x.Length)
      ensures mulCalls + 1 == MulCalls(iter, bound)
    {
      var xs := x[..];
      ghost var step, done := Body(a, ops), Done(ops, b, tol);
      // precond
      var di := ops.Rsqrt(a.di);
      // 1.
      var zs := a.Mul(xs, z);
      var rs := ops.Axpy(-1.0, zs, b);
      // 2.
      var (z1, di1) := ops.Vmul(rs, di);
      var (mrs, di2) := ops.Vmul(rs, di1);
      cur := Cg(xs, rs, di2, mrs, z1, az, ops.dot(mrs, rs));
      c0 := cur;
      mulCalls := 1;

      iter := 0;
      while iter < bound
        invariant 0 <= iter && Shaped(cur, |xs|) && cur.x == x[..]
        invariant Loop(step, done, c0, 0, bound) == Loop(step, done, cur, iter, bound)
        invariant mulCalls == iter + 1
      {
        ghost var before := cur;
        cur := Pass(a, ops, cur, x);
        mulCalls := mulCalls + 1;
        assert cur == step(before);

        var rr := ops.dot(cur.r, cur.r);
        var bb := ops.dot(b, b);
        if bb != 0.0 && rr / bb < tol {
          assert Loop(step, done, c0, 0, bound) == (cur, iter);
          break;
        }
        iter := iter + 1;
      }
    }
  }
}
