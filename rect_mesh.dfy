/**
 * The rectangular mesh: two axes of initial knots (`Xw`, `Yw`), each refined
 * into a finer axis (`X`, `Y`) by splitting the gap between neighbouring
 * knots into a number of steps that grow geometrically by a stretch ratio.
 * `IXw[i]` is the position of knot `i` on the refined axis. Subdomains are
 * boxes given by knot indices; nodes are numbered row by row (`y * |X| + x`).
 */
module RectMeshes {
  import opened Wrappers

  /** A subdomain: its number and the knot indices of its box. */
  datatype Subdomain = Subdomain(num: int, x1: int, x2: int, y1: int, y2: int)

  /** `IndexOutOfRange` is a read outside an array; `Bad` is the "Bad" exception. */
  datatype MeshError = IndexOutOfRange | Bad

  // ---------------------------------------------------------------------
  // Sums and powers
  // ---------------------------------------------------------------------

  /** The sum of a sequence of integers (`Enumerable.Sum`). */
  function Sum(s: seq<int>): int
  {
    if |s| == 0 then 0 else Sum(s[..|s| - 1]) + s[|s| - 1]
  }

  /** Adding one more element to a prefix adds that element to its sum. */
  lemma SumStep(s: seq<int>, k: int)
    requires 0 <= k < |s|
    ensures Sum(s[..k + 1]) == Sum(s[..k]) + s[k]
  {
    assert s[..k + 1][..k] == s[..k];
  }

  /** With non-negative terms, a longer prefix has a sum at least as large. */
  lemma {:induction false} SumPrefixMonotone(s: seq<int>, a: int, b: int)
    requires 0 <= a <= b <= |s|
    requires forall k :: 0 <= k < |s| ==> s[k] >= 0
    ensures Sum(s[..a]) <= Sum(s[..b])
    decreases b - a
  {
    if a < b {
      SumStep(s, b - 1);
      SumPrefixMonotone(s, a, b - 1);
    }
  }

  /** A sequence of ones sums to its length. */
  lemma {:induction false} SumOnes(s: seq<int>)
    requires forall k :: 0 <= k < |s| ==> s[k] == 1
    ensures Sum(s) == |s|
  {
    if |s| > 0 {
      SumOnes(s[..|s| - 1]);
    }
  }

  /** Doubling every term doubles the sum. */
  lemma {:induction false} SumDouble(s: seq<int>, d: seq<int>)
    requires |d| == |s| && forall k :: 0 <= k < |s| ==> d[k] == 2 * s[k]
    ensures Sum(d) == 2 * Sum(s)
  {
    if |s| > 0 {
      SumDouble(s[..|s| - 1], d[..|d| - 1]);
    }
  }

  /**
   * The nodes the refinement loop writes for the split counts `split`: the
   * first knot, then per gap `split - 1` interior nodes (none when the count
   * is below 2) and the closing knot.
   */
  function NodesWritten(split: seq<int>): int
  {
    if |split| == 0 then 1
    else NodesWritten(split[..|split| - 1]) + (if split[|split| - 1] >= 1 then split[|split| - 1] else 1)
  }

  /**
   * The loop never writes fewer nodes than the `Sum + 1` it allocates, and
   * exactly as many iff every split count is at least 1; otherwise a write
   * lands past the end of the array.
   */
  lemma {:induction false} NodesWrittenVersusAllocated(split: seq<int>)
    ensures NodesWritten(split) >= Sum(split) + 1
    ensures NodesWritten(split) == Sum(split) + 1 <==> forall k :: 0 <= k < |split| ==> split[k] >= 1
  {
    if |split| > 0 {
      var front := split[..|split| - 1];
      NodesWrittenVersusAllocated(front);
      assert forall k :: 0 <= k < |front| ==> front[k] == split[k];
    }
  }

  /** `b` to the power `n`, built by repeated multiplication as the refinement loop does. */
  function Pow(b: real, n: nat): real
  {
    if n == 0 then 1.0 else Pow(b, n - 1) * b
  }

  lemma {:induction false} PowPositive(b: real, n: nat)
    requires b > 0.0
    ensures Pow(b, n) > 0.0
  {
    if n > 0 {
      PowPositive(b, n - 1);
    }
  }

  lemma {:induction false} PowOne(n: nat)
    ensures Pow(1.0, n) == 1.0
  {
    if n > 0 {
      PowOne(n - 1);
    }
  }

  /** `1 + b + ... + b^(n-1)`: the length of `n` steps that grow by the ratio `b`, in units of the first. */
  function Steps(b: real, n: nat): real
  {
    if n == 0 then 0.0 else Steps(b, n - 1) + Pow(b, n - 1)
  }

  /** The geometric sum in closed form. */
  lemma {:induction false} GeometricSum(b: real, n: nat)
    ensures Mul(1.0 - b, Steps(b, n)) == 1.0 - Pow(b, n)
  {
    if n > 0 {
      GeometricSum(b, n - 1);
      calc {
        (1.0 - b) * Steps(b, n);
        (1.0 - b) * Steps(b, n - 1) + (1.0 - b) * Pow(b, n - 1);
        1.0 - Pow(b, n - 1) + (1.0 - b) * Pow(b, n - 1);
        1.0 - Pow(b, n - 1) * b;
      }
    }
  }

  lemma {:induction false} StepsUniform(n: nat)
    ensures Steps(1.0, n) == n as real
  {
    if n > 0 {
      StepsUniform(n - 1);
      PowOne(n - 1);
    }
  }

  /** One more step strictly lengthens the run when the ratio is positive. */
  lemma StepsGrow(b: real, n: nat)
    requires b > 0.0
    ensures Steps(b, n + 1) > Steps(b, n)
  {
    PowPositive(b, n);
  }

  lemma {:induction false} StepsPositive(b: real, n: nat)
    requires b > 0.0 && n >= 1
    ensures Steps(b, n) > 0.0
  {
    StepsGrow(b, n - 1);
    if n > 1 {
      StepsPositive(b, n - 1);
    }
  }

  /**
   * Real division. Quotients are kept behind this function so that proofs
   * about them go through `Quotient` instead of the solver's non-linear
   * arithmetic.
   */
  function Div(a: real, c: real): real
    requires c != 0.0
  {
    a / c
  }

  /** Real multiplication, kept behind a function for the same reason as `Div`. */
  function Mul(a: real, b: real): real
  {
    a * b
  }

  /** The quotient is the factor that multiplies the divisor back to the dividend. */
  lemma Quotient(a: real, c: real, t: real)
    requires c != 0.0 && Mul(c, t) == a
    ensures Div(a, c) == t
  {
  }

  /** The geometric sum as the quotient `FirstStepSize` computes. */
  lemma StepsRatio(b: real, n: nat)
    requires b != 1.0
    ensures Div(1.0 - Pow(b, n), 1.0 - b) == Steps(b, n)
  {
    GeometricSum(b, n);
    Quotient(1.0 - Pow(b, n), 1.0 - b, Steps(b, n));
  }

  /** The denominator `FirstStepSize` divides by, for either branch, is the geometric sum. */
  lemma StepsClosedForm(stretch: real, n: int)
    requires stretch > 0.0 && n >= 1
    ensures Steps(stretch, n) > 0.0
    ensures stretch != 1.0 ==> Div(1.0 - Pow(stretch, n), 1.0 - stretch) == Steps(stretch, n)
    ensures stretch == 1.0 ==> Steps(stretch, n) == n as real
  {
    StepsPositive(stretch, n);
    if stretch == 1.0 {
      StepsUniform(n);
    } else {
      StepsRatio(stretch, n);
    }
  }

  // ---------------------------------------------------------------------
  // Refinement of one axis
  // ---------------------------------------------------------------------

  /**
   * `FirstStepSize`: the first step of a segment of length `gap` split into
   * `segCount` steps that grow by `stretch`. `segCount` steps then span the gap.
   */
  function FirstStepSize(stretch: real, segCount: int, gap: real): (step: real)
    requires stretch > 0.0 && segCount >= 1
    ensures step * Steps(stretch, segCount) == gap
  {
    StepsClosedForm(stretch, segCount);
    var sum := if stretch != 1.0 then Div(1.0 - Pow(stretch, segCount), 1.0 - stretch) else segCount as real;
    Div(gap, sum)
  }

  /** The distance of the `k`-th node of a segment from its first knot, as the loop computes `step_n`. */
  function Offset(step: real, stretch: real, k: nat): real
  {
    if stretch == 1.0 then Mul(step, k as real) else Div(Mul(step, Pow(stretch, k) - 1.0), stretch - 1.0)
  }

  lemma OffsetQuotient(step: real, b: real, p: real, t: real)
    requires b != 1.0 && Mul(1.0 - b, t) == 1.0 - p
    ensures Div(Mul(step, p - 1.0), b - 1.0) == step * t
  {
    assert Mul(b - 1.0, step * t) == Mul(step, p - 1.0);
    Quotient(Mul(step, p - 1.0), b - 1.0, step * t);
  }

  /** Both branches of `Offset` are `k` growing steps. */
  lemma OffsetIsSteps(step: real, stretch: real, k: nat)
    ensures Offset(step, stretch, k) == step * Steps(stretch, k)
  {
    if stretch == 1.0 {
      StepsUniform(k);
    } else {
      GeometricSum(stretch, k);
      OffsetQuotient(step, stretch, Pow(stretch, k), Steps(stretch, k));
    }
  }

  /** The first node of a segment lies one first step past its knot. */
  lemma OffsetOne(step: real, stretch: real)
    ensures Offset(step, stretch, 1) == step
  {
    OffsetIsSteps(step, stretch, 1);
    assert Steps(stretch, 1) == 1.0;
  }

  /** The interior nodes of a segment are strictly increasing when the gap is positive. */
  lemma OffsetGrows(stretch: real, segCount: int, gap: real, k: nat)
    requires stretch > 0.0 && segCount >= 1 && gap > 0.0
    ensures Offset(FirstStepSize(stretch, segCount, gap), stretch, k)
      < Offset(FirstStepSize(stretch, segCount, gap), stretch, k + 1)
  {
    var step := FirstStepSize(stretch, segCount, gap);
    StepsPositive(stretch, segCount);
    assert step > 0.0;
    OffsetIsSteps(step, stretch, k);
    OffsetIsSteps(step, stretch, k + 1);
    StepsGrow(stretch, k);
  }

  /** After `segCount` steps the segment reaches the next knot exactly. */
  lemma SegmentCloses(stretch: real, segCount: int, gap: real)
    requires stretch > 0.0 && segCount >= 1
    ensures Offset(FirstStepSize(stretch, segCount, gap), stretch, segCount) == gap
  {
    OffsetIsSteps(FirstStepSize(stretch, segCount, gap), stretch, segCount);
  }

  /** The split of one axis: one split count and one stretch ratio per gap between knots. */
  predicate Refinable(w: seq<real>, split: seq<int>, stretch: seq<real>)
  {
    && |w| >= 1 && |split| == |w| - 1 && |stretch| == |w| - 1
    && (forall k :: 0 <= k < |split| ==> split[k] >= 1)
    && (forall k :: 0 <= k < |stretch| ==> stretch[k] > 0.0)
  }

  /** The first `j` interior nodes of a segment starting at `w0`. */
  function Interior(w0: real, step: real, stretch: real, j: nat): (s: seq<real>)
  {
    seq(j, k requires 0 <= k < j => w0 + Offset(step, stretch, k + 1))
  }

  /** The nodes written for the gap from `w0` to `w1`: its interior nodes, then the knot `w1`. */
  function Segment(w0: real, w1: real, segCount: int, stretch: real): (s: seq<real>)
    requires stretch > 0.0 && segCount >= 1
    ensures |s| == segCount && s[segCount - 1] == w1
  {
    Interior(w0, FirstStepSize(stretch, segCount, w1 - w0), stretch, segCount - 1) + [w1]
  }

  /** The refined axis over the first `n` knots. */
  function AxisUpTo(w: seq<real>, split: seq<int>, stretch: seq<real>, n: int): (r: seq<real>)
    requires Refinable(w, split, stretch) && 1 <= n <= |w|
    ensures |r| >= 1 && |r| == Sum(split[..n - 1]) + 1
    ensures r[0] == w[0] && r[|r| - 1] == w[n - 1]
    decreases n
  {
    if n == 1 then [w[0]]
    else
      SumStep(split, n - 2);
      AxisUpTo(w, split, stretch, n - 1) + Segment(w[n - 2], w[n - 1], split[n - 2], stretch[n - 2])
  }

  /** The refined axis (`X` after `Refine`). */
  function Axis(w: seq<real>, split: seq<int>, stretch: seq<real>): (r: seq<real>)
    requires Refinable(w, split, stretch)
    ensures |r| == Sum(split) + 1
  {
    assert split[..|w| - 1] == split;
    AxisUpTo(w, split, stretch, |w|)
  }

  /** Knot `i` sits on the refined axis at the sum of the split counts before it. */
  lemma {:induction false} AxisKnot(w: seq<real>, split: seq<int>, stretch: seq<real>, n: int, i: int)
    requires Refinable(w, split, stretch) && 1 <= n <= |w| && 0 <= i < n
    ensures 0 <= Sum(split[..i]) < |AxisUpTo(w, split, stretch, n)|
    ensures AxisUpTo(w, split, stretch, n)[Sum(split[..i])] == w[i]
    decreases n
  {
    SumPrefixMonotone(split, 0, i);
    if i < n - 1 {
      AxisKnot(w, split, stretch, n - 1, i);
    }
  }

  /** Inside the gap after knot `i`, node `k` lies `Offset` past the knot. */
  lemma {:induction false} AxisInterior(w: seq<real>, split: seq<int>, stretch: seq<real>, n: int, i: int, k: int)
    requires Refinable(w, split, stretch) && 1 <= n <= |w| && 0 <= i < n - 1 && 0 < k < split[i]
    ensures 0 <= Sum(split[..i]) + k < |AxisUpTo(w, split, stretch, n)|
    ensures AxisUpTo(w, split, stretch, n)[Sum(split[..i]) + k]
      == w[i] + Offset(FirstStepSize(stretch[i], split[i], w[i + 1] - w[i]), stretch[i], k)
    decreases n
  {
    SumStep(split, i);
    SumPrefixMonotone(split, 0, i);
    SumPrefixMonotone(split, i + 1, n - 1);
    if i < n - 2 {
      AxisInterior(w, split, stretch, n - 1, i, k);
    }
  }

  /** With strictly increasing knots and positive ratios, the refined axis is strictly increasing. */
  lemma {:induction false} AxisIncreasing(w: seq<real>, split: seq<int>, stretch: seq<real>, n: int)
    requires Refinable(w, split, stretch) && 1 <= n <= |w|
    requires forall k :: 0 < k < |w| ==> w[k - 1] < w[k]
    ensures forall a, b :: 0 <= a < b < |AxisUpTo(w, split, stretch, n)| ==>
      AxisUpTo(w, split, stretch, n)[a] < AxisUpTo(w, split, stretch, n)[b]
    decreases n
  {
    if n > 1 {
      AxisIncreasing(w, split, stretch, n - 1);
      var front := AxisUpTo(w, split, stretch, n - 1);
      var seg := Segment(w[n - 2], w[n - 1], split[n - 2], stretch[n - 2]);
      SegmentIncreasing(w[n - 2], w[n - 1], split[n - 2], stretch[n - 2]);
      assert AxisUpTo(w, split, stretch, n) == front + seg;
      forall a, b | 0 <= a < b < |front + seg|
        ensures (front + seg)[a] < (front + seg)[b]
      {
        if b >= |front| && a < |front| {
          assert front[a] <= w[n - 2] by {
            if a < |front| - 1 {
              assert front[a] < front[|front| - 1];
            }
          }
        }
      }
    }
  }

  /** The nodes of one segment increase strictly from past `w0` up to `w1`. */
  lemma SegmentIncreasing(w0: real, w1: real, segCount: int, stretch: real)
    requires stretch > 0.0 && segCount >= 1 && w0 < w1
    ensures forall a :: 0 <= a < segCount ==> w0 < Segment(w0, w1, segCount, stretch)[a]
    ensures forall a, b :: 0 <= a < b < segCount ==>
      Segment(w0, w1, segCount, stretch)[a] < Segment(w0, w1, segCount, stretch)[b]
  {
    var step := FirstStepSize(stretch, segCount, w1 - w0);
    var s := Segment(w0, w1, segCount, stretch);
    // the nodes are w0 + Offset(step, stretch, a + 1), and the last one is w1 = w0 + Offset(.., segCount)
    SegmentCloses(stretch, segCount, w1 - w0);
    forall a | 0 <= a < segCount
      ensures s[a] == w0 + Offset(step, stretch, a + 1)
    {
    }
    forall a | 0 <= a < segCount
      ensures w0 < s[a]
    {
      OffsetsIncrease(stretch, segCount, w1 - w0, 0, a + 1);
      OffsetIsSteps(step, stretch, 0);
    }
    forall a, b | 0 <= a < b < segCount
      ensures s[a] < s[b]
    {
      OffsetsIncrease(stretch, segCount, w1 - w0, a + 1, b + 1);
    }
  }

  lemma {:induction false} OffsetsIncrease(stretch: real, segCount: int, gap: real, a: nat, b: nat)
    requires stretch > 0.0 && segCount >= 1 && gap > 0.0 && a < b
    ensures Offset(FirstStepSize(stretch, segCount, gap), stretch, a)
      < Offset(FirstStepSize(stretch, segCount, gap), stretch, b)
    decreases b - a
  {
    OffsetGrows(stretch, segCount, gap, b - 1);
    if a < b - 1 {
      OffsetsIncrease(stretch, segCount, gap, a, b - 1);
    }
  }

  /** `roots` holds a positive square root of every ratio (`Math.Sqrt` in `RefineDiv2`). */
  predicate SquareRoots(stretch: seq<real>, roots: seq<real>)
  {
    |roots| == |stretch| && forall k :: 0 <= k < |stretch| ==> roots[k] > 0.0 && roots[k] * roots[k] == stretch[k]
  }

  /** Every split count doubled. */
  function Doubled(split: seq<int>): seq<int>
  {
    seq(|split|, k requires 0 <= k < |split| => 2 * split[k])
  }

  /**
   * Halving the mesh keeps the split valid, doubles the number of gaps of
   * the refined axis and moves every knot to twice its old position.
   */
  lemma HalvedAxis(w: seq<real>, split: seq<int>, stretch: seq<real>, roots: seq<real>)
    requires Refinable(w, split, stretch) && SquareRoots(stretch, roots)
    ensures Refinable(w, Doubled(split), roots)
    ensures |Axis(w, Doubled(split), roots)| - 1 == 2 * (|Axis(w, split, stretch)| - 1)
    ensures forall i :: 0 <= i < |w| ==> Sum(Doubled(split)[..i]) == 2 * Sum(split[..i])
  {
    SumDouble(split, Doubled(split));
    forall i | 0 <= i < |w|
      ensures Sum(Doubled(split)[..i]) == 2 * Sum(split[..i])
    {
      SumDouble(split[..i], Doubled(split)[..i]);
    }
  }

  /** With one step per gap the refined axis is the initial one: the constructor's copy of the knots. */
  lemma {:induction false} AxisUnsplit(w: seq<real>, split: seq<int>, stretch: seq<real>, n: int)
    requires Refinable(w, split, stretch) && 1 <= n <= |w|
    requires forall k :: 0 <= k < |split| ==> split[k] == 1
    ensures AxisUpTo(w, split, stretch, n) == w[..n]
    decreases n
  {
    if n > 1 {
      AxisUnsplit(w, split, stretch, n - 1);
      assert Segment(w[n - 2], w[n - 1], 1, stretch[n - 2]) == [w[n - 1]];
      assert w[..n] == w[..n - 1] + [w[n - 1]];
    } else {
      assert w[..1] == [w[0]];
    }
  }

  /** The refined axis over `n` knots extends the one over `n - 1` knots by the last segment. */
  lemma AxisExtend(w: seq<real>, split: seq<int>, stretch: seq<real>, n: int, front: seq<real>)
    requires Refinable(w, split, stretch) && 2 <= n <= |w|
    requires front == AxisUpTo(w, split, stretch, n - 1)
    ensures AxisUpTo(w, split, stretch, n) == front + Segment(w[n - 2], w[n - 1], split[n - 2], stretch[n - 2])
  {
  }

  /** `Knots(k, split)`: `k` holds the position of every knot on the refined axis. */
  predicate Knots(k: seq<int>, split: seq<int>)
  {
    |k| == |split| + 1 && forall i {:trigger k[i]} :: 0 <= i < |k| ==> k[i] == Sum(split[..i])
  }

  /** `nodes` and `knots` are the refined axis of `w` and the positions of its knots. */
  predicate RefinedAxis(w: seq<real>, split: seq<int>, stretch: seq<real>, nodes: seq<real>, knots: seq<int>)
  {
    Refinable(w, split, stretch) && nodes == Axis(w, split, stretch) && Knots(knots, split)
  }

  /** On a refined axis, the recorded position of knot `i` is a node, and that node is the knot. */
  lemma KnotOnAxis(w: seq<real>, split: seq<int>, stretch: seq<real>, nodes: seq<real>, knots: seq<int>, i: int)
    requires RefinedAxis(w, split, stretch, nodes, knots) && 0 <= i < |w|
    ensures 0 <= knots[i] < |nodes| && nodes[knots[i]] == w[i]
  {
    assert split[..|w| - 1] == split;
    AxisKnot(w, split, stretch, |w|, i);
  }

  /**
   * One segment of `Refine`: the inner loop writes the interior nodes after
   * the knot at `idx`, each `step_n` past that knot, updating `step_n` from
   * the running power `stretch_n`; then the next knot `w1` closes the segment.
   */
  method FillSegment(nodes: array<real>, idx: int, w1: real, segCount: int, ratio: real, step: real)
    modifies nodes
    requires 0 <= idx && 1 <= segCount && idx + segCount < nodes.Length && ratio > 0.0
    requires step == FirstStepSize(ratio, segCount, w1 - nodes[idx])
    ensures nodes[..idx + 1 + segCount] == old(nodes[..idx + 1]) + Segment(old(nodes[idx]), w1, segCount, ratio)
  {
    var count := idx + 1;
    var stepN := step;
    var stretchN := ratio;
    OffsetOne(step, ratio);
    var j := 0;
    while j < segCount - 1
      invariant 0 <= j <= segCount - 1 && count == idx + 1 + j
      invariant stretchN == Pow(ratio, j + 1)
      invariant stepN == Offset(step, ratio, j + 1)
      invariant nodes[..idx + 1] == old(nodes[..idx + 1])
      invariant nodes[idx + 1..count] == Interior(old(nodes[idx]), step, ratio, j)
    {
      nodes[count] := nodes[idx] + stepN;
      count := count + 1;
      stretchN := stretchN * ratio;
      if ratio != 1.0 {
        stepN := Div(Mul(step, stretchN - 1.0), ratio - 1.0);
      } else {
        stepN := Mul(step, (j + 2) as real);
      }
      j := j + 1;
    }
    nodes[count] := w1;
    assert nodes[..count + 1] == nodes[..idx + 1] + nodes[idx + 1..count] + [w1];
  }

  /**
   * One gap of `Refine`: the knot `w[i]` is recorded at the position where
   * the segment from `w[i - 1]` ends, and the segment is written after the
   * nodes built so far.
   */
  method RefineGap(w: seq<real>, split: seq<int>, stretch: seq<real>, nodes: array<real>, knots: array<int>, i: int, count: int)
    returns (next: int)
    modifies nodes, knots
    requires Refinable(w, split, stretch) && 1 <= i < |w| && knots.Length == |w|
    requires count == Sum(split[..i - 1]) + 1 && nodes.Length == Sum(split) + 1
    requires 1 <= count <= nodes.Length && nodes[..count] == AxisUpTo(w, split, stretch, i)
    ensures next == Sum(split[..i]) + 1 && 1 <= next <= nodes.Length
    ensures nodes[..next] == AxisUpTo(w, split, stretch, i + 1)
    ensures knots[..] == old(knots[..])[i := next - 1]
  {
    var segCount := split[i - 1];
    var ratio := stretch[i - 1];
    var idx := count - 1;
    SumStep(split, i - 1);
    SumPrefixMonotone(split, i, |split|);
    assert split[..|split|] == split;
    ghost var front := nodes[..count];
    var step := FirstStepSize(ratio, segCount, w[i] - w[i - 1]);
    knots[i] := idx + segCount;
    FillSegment(nodes, idx, w[i], segCount, ratio, step);
    next := count + segCount;
    AxisExtend(w, split, stretch, i + 1, front);
  }

  /**
   * `Refine` for one axis: fills the refined nodes with a running counter,
   * segment by segment, and records where each knot lands. The knots, split
   * counts and ratios are only read, so they are passed as sequences.
   */
  method RefineAxis(w: seq<real>, split: seq<int>, stretch: seq<real>) returns (axis: seq<real>, knotAt: seq<int>)
    requires Refinable(w, split, stretch)
    ensures RefinedAxis(w, split, stretch, axis, knotAt)
  {
    SumPrefixMonotone(split, 0, |split|);
    assert split[..|split|] == split;
    var nodes := new real[Sum(split) + 1];
    var knots := new int[|w|];
    knots[0] := 0;
    nodes[0] := w[0];
    var count := 1;
    var i := 1;
    while i < |w|
      invariant 1 <= i <= |w|
      invariant nodes.Length == Sum(split) + 1 && knots.Length == |w|
      invariant count == Sum(split[..i - 1]) + 1
      invariant 1 <= count <= nodes.Length && nodes[..count] == AxisUpTo(w, split, stretch, i)
      invariant forall k {:trigger knots[k]} :: 0 <= k < i ==> knots[k] == Sum(split[..k])
    {
      count := RefineGap(w, split, stretch, nodes, knots, i, count);
      i := i + 1;
    }
    assert split[..|w| - 1] == split;
    assert Knots(knots[..], split);
    axis, knotAt := nodes[..], knots[..];
  }

  // ---------------------------------------------------------------------
  // Lookups
  // ---------------------------------------------------------------------


  /**
   * The first subdomain, in array order, whose test succeeds: its number,
   * `None` when no test succeeds, or the error of the first test that fails.
   */
  function FirstMatch(subs: seq<Subdomain>, test: Subdomain -> Result<bool, MeshError>): Result<Option<int>, MeshError>
  {
    if |subs| == 0 then Success(None)
    else match test(subs[0])
      case Failure(e) => Failure(e)
      case Success(hit) => if hit then Success(Some(subs[0].num)) else FirstMatch(subs[1..], test)
  }

  /**
   * `FirstMatch` finds subdomain `j` exactly when every test before `j` is a
   * clean miss and the test of `j` is a hit; it returns `None` exactly when
   * every test is a clean miss.
   */
  lemma {:induction false} FirstMatchSpec(subs: seq<Subdomain>, test: Subdomain -> Result<bool, MeshError>)
    ensures FirstMatch(subs, test).Success? && FirstMatch(subs, test).value.Some? ==>
      exists j :: 0 <= j < |subs| && test(subs[j]) == Success(true) && FirstMatch(subs, test).value.value == subs[j].num
        && forall k :: 0 <= k < j ==> test(subs[k]) == Success(false)
    ensures (forall k :: 0 <= k < |subs| ==> test(subs[k]) == Success(false)) <==> FirstMatch(subs, test) == Success(None)
    ensures forall j :: (0 <= j < |subs| && test(subs[j]) == Success(true) && (forall k :: 0 <= k < j ==> test(subs[k]) == Success(false))
      ==> FirstMatch(subs, test) == Success(Some(subs[j].num)))
  {
    if |subs| > 0 {
      FirstMatchSpec(subs[1..], test);
      var r := FirstMatch(subs, test);
      if test(subs[0]) == Success(false) {
        if r.Success? && r.value.Some? {
          var j :| 0 <= j < |subs| - 1 && test(subs[1..][j]) == Success(true) && r.value.value == subs[1..][j].num
            && forall k :: 0 <= k < j ==> test(subs[1..][k]) == Success(false);
          assert test(subs[j + 1]) == Success(true);
          assert forall k :: 0 <= k < j + 1 ==> test(subs[k]) == Success(false) by {
            forall k | 0 <= k < j + 1
              ensures test(subs[k]) == Success(false)
            {
              if k > 0 {
                assert subs[k] == subs[1..][k - 1];
              }
            }
          }
        }
        if forall k :: 0 <= k < |subs| - 1 ==> test(subs[1..][k]) == Success(false) {
          assert forall k :: 0 <= k < |subs| ==> test(subs[k]) == Success(false) by {
            forall k | 0 <= k < |subs|
              ensures test(subs[k]) == Success(false)
            {
              if k > 0 {
                assert subs[k] == subs[1..][k - 1];
              }
            }
          }
        }
        forall j | 0 <= j < |subs| && test(subs[j]) == Success(true) && (forall k :: 0 <= k < j ==> test(subs[k]) == Success(false))
          ensures r == Success(Some(subs[j].num))
        {
          assert j > 0;
          assert subs[j] == subs[1..][j - 1];
          assert forall k :: 0 <= k < j - 1 ==> test(subs[1..][k]) == Success(false) by {
            forall k | 0 <= k < j - 1
              ensures test(subs[1..][k]) == Success(false)
            {
              assert subs[1..][k] == subs[k + 1];
            }
          }
        }
      }
    }
  }

  /**
   * The test of `GetSubdomNumAtElCoords` for one subdomain: element `(x1, y1)`
   * lies in the half-open box `[IXw[X1], IXw[X2]) x [IYw[Y1], IYw[Y2])`. The
   * comparisons run left to right and stop at the first false one, so a knot
   * index outside `IXw` or `IYw` is an error only when its read is reached.
   */
  function ElementIn(a: Subdomain, ixw: seq<int>, iyw: seq<int>, x1: int, y1: int): (r: Result<bool, MeshError>)
    ensures r.Failure? ==> r.error == IndexOutOfRange
    ensures r == Success(true) <==>
      && 0 <= a.x1 < |ixw| && 0 <= a.x2 < |ixw| && 0 <= a.y1 < |iyw| && 0 <= a.y2 < |iyw|
      && ixw[a.x1] <= x1 < ixw[a.x2] && iyw[a.y1] <= y1 < iyw[a.y2]
    ensures 0 <= a.x1 < |ixw| && 0 <= a.x2 < |ixw| && 0 <= a.y1 < |iyw| && 0 <= a.y2 < |iyw| ==> r.Success?
  {
    if a.x1 < 0 || a.x1 >= |ixw| then Failure(IndexOutOfRange)
    else if !(x1 >= ixw[a.x1]) then Success(false)
    else if a.x2 < 0 || a.x2 >= |ixw| then Failure(IndexOutOfRange)
    else if !(x1 < ixw[a.x2]) then Success(false)
    else if a.y1 < 0 || a.y1 >= |iyw| then Failure(IndexOutOfRange)
    else if !(y1 >= iyw[a.y1]) then Success(false)
    else if a.y2 < 0 || a.y2 >= |iyw| then Failure(IndexOutOfRange)
    else Success(y1 < iyw[a.y2])
  }

  /**
   * The test of `GetSubdomNumAtPoint` for one subdomain: the point lies in the
   * closed box `[Xw[X1], Xw[X2]] x [Yw[Y1], Yw[Y2]]`, read left to right as above.
   */
  function PointIn(a: Subdomain, xw: seq<real>, yw: seq<real>, x1: real, y1: real): (r: Result<bool, MeshError>)
    ensures r.Failure? ==> r.error == IndexOutOfRange
    ensures r == Success(true) <==>
      && 0 <= a.x1 < |xw| && 0 <= a.x2 < |xw| && 0 <= a.y1 < |yw| && 0 <= a.y2 < |yw|
      && xw[a.x1] <= x1 <= xw[a.x2] && yw[a.y1] <= y1 <= yw[a.y2]
    ensures 0 <= a.x1 < |xw| && 0 <= a.x2 < |xw| && 0 <= a.y1 < |yw| && 0 <= a.y2 < |yw| ==> r.Success?
  {
    if a.x1 < 0 || a.x1 >= |xw| then Failure(IndexOutOfRange)
    else if !(x1 >= xw[a.x1]) then Success(false)
    else if a.x2 < 0 || a.x2 >= |xw| then Failure(IndexOutOfRange)
    else if !(x1 <= xw[a.x2]) then Success(false)
    else if a.y1 < 0 || a.y1 >= |yw| then Failure(IndexOutOfRange)
    else if !(y1 >= yw[a.y1]) then Success(false)
    else if a.y2 < 0 || a.y2 >= |yw| then Failure(IndexOutOfRange)
    else Success(y1 <= yw[a.y2])
  }

  /** `GetSubdomNumAtElCoords` on values: the first subdomain whose knot box holds the element. */
  function SubdomAtElement(subs: seq<Subdomain>, ixw: seq<int>, iyw: seq<int>, x1: int, y1: int): Result<Option<int>, MeshError>
  {
    FirstMatch(subs, a => ElementIn(a, ixw, iyw, x1, y1))
  }

  /** `GetSubdomNumAtPoint` on values: the first subdomain whose closed box holds the point. */
  function SubdomAtPoint(subs: seq<Subdomain>, xw: seq<real>, yw: seq<real>, x1: real, y1: real): Result<Option<int>, MeshError>
  {
    FirstMatch(subs, a => PointIn(a, xw, yw, x1, y1))
  }

  /**
   * The scan of `GetElCoordsAtPoint` over one axis from position `i`: the
   * first `i` with `s[i] <= v <= s[i + 1]`, or `-1`. The loop runs `i` up to
   * `|s| - 1`, so once `s[i] <= v` holds at the last node the read of
   * `s[i + 1]` falls outside the array.
   */
  function ScanAxis(s: seq<real>, v: real, i: nat): Result<int, MeshError>
    decreases |s| - i
  {
    if i >= |s| then Success(-1)
    else if s[i] <= v then
      if i + 1 >= |s| then Failure(IndexOutOfRange)
      else if v <= s[i + 1] then Success(i)
      else ScanAxis(s, v, i + 1)
    else ScanAxis(s, v, i + 1)
  }

  /** The scan as evidently intended: `i` runs up to `|s| - 2`, so `s[i + 1]` is always inside. */
  function ScanAxisFixed(s: seq<real>, v: real, i: nat): int
    decreases |s| - i
  {
    if i + 1 >= |s| then -1
    else if s[i] <= v && v <= s[i + 1] then i
    else ScanAxisFixed(s, v, i + 1)
  }

  /** `s` is in non-decreasing order. */
  predicate Ascending(s: seq<real>)
  {
    forall a, b :: 0 <= a < b < |s| ==> s[a] <= s[b]
  }

  /**
   * What the scan finds: a found `i` has `s[i] <= v <= s[i + 1]` and is the
   * first such position; an index error happens only when `s[|s| - 1] <= v`
   * and no earlier position matched.
   */
  lemma {:induction false} ScanAxisSpec(s: seq<real>, v: real, i: nat)
    ensures ScanAxis(s, v, i).Success? && ScanAxis(s, v, i).value >= 0 ==>
      var r := ScanAxis(s, v, i).value;
      && i <= r < |s| - 1 && s[r] <= v <= s[r + 1]
      && forall j :: i <= j < r ==> !(s[j] <= v <= s[j + 1])
    ensures ScanAxis(s, v, i).Success? ==> ScanAxis(s, v, i).value >= -1
    ensures ScanAxis(s, v, i).Failure? ==>
      ScanAxis(s, v, i).error == IndexOutOfRange && i < |s| && s[|s| - 1] <= v
      && forall j :: i <= j < |s| - 1 ==> !(s[j] <= v <= s[j + 1])
    decreases |s| - i
  {
    if i < |s| && !(s[i] <= v && (i + 1 >= |s| || v <= s[i + 1])) {
      ScanAxisSpec(s, v, i + 1);
    }
  }

  /** On an ascending axis of two nodes or more, a coordinate between the first and the last node is found. */
  lemma {:induction false} ScanAxisInside(s: seq<real>, v: real, i: nat)
    requires Ascending(s) && i < |s| - 1 && s[i] <= v <= s[|s| - 1]
    ensures ScanAxis(s, v, i).Success? && ScanAxis(s, v, i).value >= 0
    decreases |s| - i
  {
    if v > s[i + 1] {
      ScanAxisInside(s, v, i + 1);
    }
  }

  /** The scan does what the intended one does, except that it fails where the intended one reports `-1` after reading every gap. */
  lemma {:induction false} ScanAxisAgrees(s: seq<real>, v: real, i: nat)
    ensures ScanAxis(s, v, i).Success? ==> ScanAxis(s, v, i).value == ScanAxisFixed(s, v, i)
    ensures ScanAxis(s, v, i).Failure? ==> ScanAxisFixed(s, v, i) == -1
    decreases |s| - i
  {
    if i < |s| && !(s[i] <= v && (i + 1 >= |s| || v <= s[i + 1])) {
      ScanAxisAgrees(s, v, i + 1);
    }
  }

  /**
   * The index error of the scan as written: on an ascending axis, a
   * coordinate right of the last node fails with an index error instead of
   * reaching the "Bad" exception.
   */
  lemma ScanAxisPastEnd(s: seq<real>, v: real)
    requires Ascending(s) && |s| >= 1 && v > s[|s| - 1]
    ensures ScanAxis(s, v, 0) == Failure(IndexOutOfRange)
    ensures ScanAxisFixed(s, v, 0) == -1
  {
    ScanAxisSpec(s, v, 0);
    ScanAxisAgrees(s, v, 0);
    if ScanAxis(s, v, 0).Success? && ScanAxis(s, v, 0).value >= 0 {
      var r := ScanAxis(s, v, 0).value;
      assert s[r + 1] <= s[|s| - 1];
    }
    PastEndNotFound(s, v, 0);
  }

  /** Right of the last node of an ascending axis, no gap holds the coordinate, and the last node is at most it. */
  lemma {:induction false} PastEndNotFound(s: seq<real>, v: real, i: nat)
    requires Ascending(s) && |s| >= 1 && v > s[|s| - 1] && i <= |s|
    ensures i < |s| ==> ScanAxis(s, v, i) == Failure(IndexOutOfRange)
    ensures ScanAxisFixed(s, v, i) == -1
    decreases |s| - i
  {
    if i < |s| - 1 {
      assert s[i + 1] <= s[|s| - 1];
      PastEndNotFound(s, v, i + 1);
    }
  }

  /** A concrete case: on the axis `[0, 1]` the point `2` ends in an index error. */
  lemma ScanAxisCounterexample()
    ensures ScanAxis([0.0, 1.0], 2.0, 0) == Failure(IndexOutOfRange)
    ensures ScanAxisFixed([0.0, 1.0], 2.0, 0) == -1
  {
    PastEndNotFound([0.0, 1.0], 2.0, 0);
  }

  /**
   * The intended scan never reads outside the axis, and on an ascending axis
   * it finds a gap exactly when the coordinate lies between the first and
   * the last node.
   */
  lemma {:induction false} ScanAxisFixedSpec(s: seq<real>, v: real)
    requires Ascending(s)
    ensures ScanAxisFixed(s, v, 0) >= -1
    ensures ScanAxisFixed(s, v, 0) >= 0 ==> ScanAxisFixed(s, v, 0) < |s| - 1
    ensures ScanAxisFixed(s, v, 0) >= 0 <==> |s| >= 2 && s[0] <= v <= s[|s| - 1]
  {
    FixedBounds(s, v, 0);
    if |s| >= 2 && s[0] <= v <= s[|s| - 1] {
      ScanAxisInside(s, v, 0);
      ScanAxisAgrees(s, v, 0);
    }
    if ScanAxisFixed(s, v, 0) >= 0 {
      var r := ScanAxisFixed(s, v, 0);
      assert s[0] <= s[r] && s[r + 1] <= s[|s| - 1];
    }
  }

  lemma {:induction false} FixedBounds(s: seq<real>, v: real, i: nat)
    ensures ScanAxisFixed(s, v, i) >= -1
    ensures ScanAxisFixed(s, v, i) >= 0 ==> var r := ScanAxisFixed(s, v, i); i <= r < |s| - 1 && s[r] <= v <= s[r + 1]
    decreases |s| - i
  {
    if i + 1 < |s| && !(s[i] <= v && v <= s[i + 1]) {
      FixedBounds(s, v, i + 1);
    }
  }

  /** `GetElCoordsAtPoint` as written: the X scan, then the Y scan, then "Bad" if either found nothing. */
  function ElCoords(xs: seq<real>, ys: seq<real>, px: real, py: real): Result<(int, int), MeshError>
  {
    match ScanAxis(xs, px, 0)
    case Failure(e) => Failure(e)
    case Success(xi) =>
      match ScanAxis(ys, py, 0)
      case Failure(e) => Failure(e)
      case Success(yi) => if xi < 0 || yi < 0 then Failure(Bad) else Success((xi, yi))
  }

  /** `GetElCoordsAtPoint` as evidently intended, with both scans kept inside the axes. */
  function ElCoordsFixed(xs: seq<real>, ys: seq<real>, px: real, py: real): (r: Result<(int, int), MeshError>)
    requires Ascending(xs) && Ascending(ys)
    ensures r.Failure? ==> r.error == Bad
    ensures r.Success? <==> |xs| >= 2 && |ys| >= 2 && xs[0] <= px <= xs[|xs| - 1] && ys[0] <= py <= ys[|ys| - 1]
    ensures r.Success? ==> var (xi, yi) := r.value;
      && 0 <= xi < |xs| - 1 && xs[xi] <= px <= xs[xi + 1]
      && 0 <= yi < |ys| - 1 && ys[yi] <= py <= ys[yi + 1]
  {
    ScanAxisFixedSpec(xs, px);
    ScanAxisFixedSpec(ys, py);
    FixedBounds(xs, px, 0);
    FixedBounds(ys, py, 0);
    var xi := ScanAxisFixed(xs, px, 0);
    var yi := ScanAxisFixed(ys, py, 0);
    if xi < 0 || yi < 0 then Failure(Bad) else Success((xi, yi))
  }

  // ---------------------------------------------------------------------
  // The mesh
  // ---------------------------------------------------------------------

  /** The refinement parameters of both axes: one split count and one stretch ratio per gap between knots. */
  class RefineParams {
    var xSplitCount: seq<int>
    var xStretchRatio: seq<real>
    var ySplitCount: seq<int>
    var yStretchRatio: seq<real>

    constructor (xSplit: seq<int>, xStretch: seq<real>, ySplit: seq<int>, yStretch: seq<real>)
      ensures xSplitCount == xSplit && xStretchRatio == xStretch
      ensures ySplitCount == ySplit && yStretchRatio == yStretch
    {
      xSplitCount, xStretchRatio := xSplit, xStretch;
      ySplitCount, yStretchRatio := ySplit, yStretch;
    }

    /** The x half of `RefineDiv2`'s update: each split count doubled, each ratio replaced by its square root. */
    method HalveX(roots: seq<real>)
      modifies this
      requires |roots| == |xSplitCount| == |xStretchRatio|
      ensures xSplitCount == Doubled(old(xSplitCount)) && xStretchRatio == roots
      ensures ySplitCount == old(ySplitCount) && yStretchRatio == old(yStretchRatio)
    {
      ghost var split := xSplitCount;
      var i := 0;
      while i < |xSplitCount|
        invariant 0 <= i <= |split| && |xSplitCount| == |split| && |xStretchRatio| == |split|
        invariant forall k :: 0 <= k < i ==> xSplitCount[k] == 2 * split[k] && xStretchRatio[k] == roots[k]
        invariant forall k :: i <= k < |split| ==> xSplitCount[k] == split[k]
        invariant ySplitCount == old(ySplitCount) && yStretchRatio == old(yStretchRatio)
      {
        xSplitCount := xSplitCount[i := xSplitCount[i] * 2];
        xStretchRatio := xStretchRatio[i := roots[i]];
        i := i + 1;
      }
    }

    /** The y half of `RefineDiv2`'s update. */
    method HalveY(roots: seq<real>)
      modifies this
      requires |roots| == |ySplitCount| == |yStretchRatio|
      ensures ySplitCount == Doubled(old(ySplitCount)) && yStretchRatio == roots
      ensures xSplitCount == old(xSplitCount) && xStretchRatio == old(xStretchRatio)
    {
      ghost var split := ySplitCount;
      var i := 0;
      while i < |ySplitCount|
        invariant 0 <= i <= |split| && |ySplitCount| == |split| && |yStretchRatio| == |split|
        invariant forall k :: 0 <= k < i ==> ySplitCount[k] == 2 * split[k] && yStretchRatio[k] == roots[k]
        invariant forall k :: i <= k < |split| ==> ySplitCount[k] == split[k]
        invariant xSplitCount == old(xSplitCount) && xStretchRatio == old(xStretchRatio)
      {
        ySplitCount := ySplitCount[i := ySplitCount[i] * 2];
        yStretchRatio := yStretchRatio[i := roots[i]];
        i := i + 1;
      }
    }
  }

  /**
   * The mesh: the knots `xw`, `yw`; the refined axes `x`, `y`; the knot
   * positions `ixw`, `iyw` on them; the node and element counts.
   */
  class RectMesh {
    var subDomains: seq<Subdomain>
    var refineParams: RefineParams
    var xw: seq<real>
    var yw: seq<real>
    var x: seq<real>
    var y: seq<real>
    var ixw: seq<int>
    var iyw: seq<int>
    var nodesCount: int
    var feCount: int

    /** The axes and knot positions are the refinement of the knots by the current parameters. */
    ghost predicate Valid()
      reads this, refineParams
    {
      && RefinedAxis(xw, refineParams.xSplitCount, refineParams.xStretchRatio, x, ixw)
      && RefinedAxis(yw, refineParams.ySplitCount, refineParams.yStretchRatio, y, iyw)
      && nodesCount == Times(|x|, |y|)
      && feCount == Times(|x| - 1, |y| - 1)
    }

    /**
     * A mesh over the given knots, not yet refined: the axes are copies of
     * the knots, knot `i` is node `i`, and every gap has one step of ratio 1.
     */
    constructor (xAxis: seq<real>, yAxis: seq<real>, subs: seq<Subdomain>)
      requires |xAxis| >= 1 && |yAxis| >= 1
      ensures Valid()
      ensures xw == xAxis && yw == yAxis && subDomains == subs
      ensures x == xAxis && y == yAxis
      ensures |ixw| == |xAxis| && (forall i :: 0 <= i < |xAxis| ==> ixw[i] == i)
      ensures |iyw| == |yAxis| && (forall i :: 0 <= i < |yAxis| ==> iyw[i] == i)
      ensures nodesCount == |xAxis| * |yAxis| && feCount == (|xAxis| - 1) * (|yAxis| - 1)
      ensures refineParams.xSplitCount == Ones(|xAxis| - 1) && refineParams.xStretchRatio == UnitRatios(|xAxis| - 1)
      ensures refineParams.ySplitCount == Ones(|yAxis| - 1) && refineParams.yStretchRatio == UnitRatios(|yAxis| - 1)
    {
      xw := xAxis;
      yw := yAxis;
      subDomains := subs;
      x := xAxis;
      y := yAxis;
      ixw := seq(|xAxis|, i => i);
      iyw := seq(|yAxis|, i => i);
      nodesCount := Times(|xAxis|, |yAxis|);
      feCount := Times(|xAxis| - 1, |yAxis| - 1);
      refineParams := new RefineParams(Ones(|xAxis| - 1), UnitRatios(|xAxis| - 1), Ones(|yAxis| - 1), UnitRatios(|yAxis| - 1));
      new;
      UnsplitValid(xAxis, ixw);
      UnsplitValid(yAxis, iyw);
      assert x == xAxis && y == yAxis;
    }

    /**
     * `Refine`: stores the parameters and rebuilds both refined axes and
     * their knot positions, then the node and element counts.
     */
    method Refine(params: RefineParams)
      modifies this
      requires Refinable(xw, params.xSplitCount, params.xStretchRatio)
      requires Refinable(yw, params.ySplitCount, params.yStretchRatio)
      ensures Valid() && refineParams == params
      ensures xw == old(xw) && yw == old(yw) && subDomains == old(subDomains)
    {
      var xSplit, xStretch := params.xSplitCount, params.xStretchRatio;
      var ySplit, yStretch := params.ySplitCount, params.yStretchRatio;
      var xs, xKnots := RefineAxis(xw, xSplit, xStretch);
      var ys, yKnots := RefineAxis(yw, ySplit, yStretch);
      refineParams := params;
      x, ixw, y, iyw := xs, xKnots, ys, yKnots;
      nodesCount := Times(|x|, |y|);
      feCount := Times(|x| - 1, |y| - 1);
    }

    /**
     * `RefineDiv2`: doubles every split count and replaces every ratio by
     * its square root, in place in the stored parameters, then refines again.
     * The square roots are given, one per ratio.
     */
    method RefineDiv2(xRoots: seq<real>, yRoots: seq<real>)
      modifies this, refineParams
      requires Valid()
      requires SquareRoots(refineParams.xStretchRatio, xRoots) && SquareRoots(refineParams.yStretchRatio, yRoots)
      ensures Valid() && refineParams == old(refineParams)
      ensures xw == old(xw) && yw == old(yw) && subDomains == old(subDomains)
      ensures refineParams.xSplitCount == Doubled(old(refineParams.xSplitCount)) && refineParams.xStretchRatio == xRoots
      ensures refineParams.ySplitCount == Doubled(old(refineParams.ySplitCount)) && refineParams.yStretchRatio == yRoots
      ensures |x| - 1 == 2 * (|old(x)| - 1) && |y| - 1 == 2 * (|old(y)| - 1)
      ensures |ixw| == |old(ixw)| && forall i :: 0 <= i < |ixw| ==> ixw[i] == 2 * old(ixw)[i]
      ensures |iyw| == |old(iyw)| && forall i :: 0 <= i < |iyw| ==> iyw[i] == 2 * old(iyw)[i]
    {
      var p := refineParams;
      ghost var xSplit, ySplit := p.xSplitCount, p.ySplitCount;
      ghost var xStretch, yStretch := p.xStretchRatio, p.yStretchRatio;
      p.HalveX(xRoots);
      p.HalveY(yRoots);
      HalvedAxis(xw, xSplit, xStretch, xRoots);
      HalvedAxis(yw, ySplit, yStretch, yRoots);
      Refine(p);
    }

    /**
     * `GetDofAtInitNode`: the number of the node where knot `(xi, yi)`
     * landed, row by row over the refined axes; a knot index outside
     * `IXw` or `IYw` is an index error.
     */
    function GetDofAtInitNode(xi: int, yi: int): (r: Result<int, MeshError>)
      reads this
      ensures r.Success? <==> 0 <= xi < |ixw| && 0 <= yi < |iyw|
      ensures r.Failure? ==> r.error == IndexOutOfRange
    {
      if xi < 0 || xi >= |ixw| || yi < 0 || yi >= |iyw| then Failure(IndexOutOfRange)
      else Success(Times(iyw[yi], |x|) + ixw[xi])
    }

    /** `GetSubdomNumAtElCoords`: the number of the first subdomain whose knot box holds element `(x1, y1)`. */
    method GetSubdomNumAtElCoords(x1: int, y1: int) returns (r: Result<Option<int>, MeshError>)
      ensures r == SubdomAtElement(subDomains, ixw, iyw, x1, y1)
    {
      var i := 0;
      while i < |subDomains|
        invariant 0 <= i <= |subDomains|
        invariant SubdomAtElement(subDomains, ixw, iyw, x1, y1) == SubdomAtElement(subDomains[i..], ixw, iyw, x1, y1)
      {
        var a := subDomains[i];
        assert subDomains[i..][1..] == subDomains[i + 1..];
        var hit := true;
        if a.x1 < 0 || a.x1 >= |ixw| { return Failure(IndexOutOfRange); }
        if !(x1 >= ixw[a.x1]) { hit := false; }
        else {
          if a.x2 < 0 || a.x2 >= |ixw| { return Failure(IndexOutOfRange); }
          if !(x1 < ixw[a.x2]) { hit := false; }
          else {
            if a.y1 < 0 || a.y1 >= |iyw| { return Failure(IndexOutOfRange); }
            if !(y1 >= iyw[a.y1]) { hit := false; }
            else {
              if a.y2 < 0 || a.y2 >= |iyw| { return Failure(IndexOutOfRange); }
              hit := y1 < iyw[a.y2];
            }
          }
        }
        if hit {
          return Success(Some(a.num));
        }
        i := i + 1;
      }
      return Success(None);
    }

    /** `GetSubdomNumAtPoint`: the number of the first subdomain whose closed box holds the point. */
    method GetSubdomNumAtPoint(x1: real, y1: real) returns (r: Result<Option<int>, MeshError>)
      ensures r == SubdomAtPoint(subDomains, xw, yw, x1, y1)
    {
      var i := 0;
      while i < |subDomains|
        invariant 0 <= i <= |subDomains|
        invariant SubdomAtPoint(subDomains, xw, yw, x1, y1) == SubdomAtPoint(subDomains[i..], xw, yw, x1, y1)
      {
        var a := subDomains[i];
        assert subDomains[i..][1..] == subDomains[i + 1..];
        var hit := true;
        if a.x1 < 0 || a.x1 >= |xw| { return Failure(IndexOutOfRange); }
        if !(x1 >= xw[a.x1]) { hit := false; }
        else {
          if a.x2 < 0 || a.x2 >= |xw| { return Failure(IndexOutOfRange); }
          if !(x1 <= xw[a.x2]) { hit := false; }
          else {
            if a.y1 < 0 || a.y1 >= |yw| { return Failure(IndexOutOfRange); }
            if !(y1 >= yw[a.y1]) { hit := false; }
            else {
              if a.y2 < 0 || a.y2 >= |yw| { return Failure(IndexOutOfRange); }
              hit := y1 <= yw[a.y2];
            }
          }
        }
        if hit {
          return Success(Some(a.num));
        }
        i := i + 1;
      }
      return Success(None);
    }

    /**
     * `GetElCoordsAtPoint`: scans `X` for the first gap holding `px`, then
     * `Y` for `py`; either scan can read past its axis, and "Bad" is thrown
     * when either finds nothing.
     */
    method GetElCoordsAtPoint(px: real, py: real) returns (r: Result<(int, int), MeshError>)
      ensures r == ElCoords(x, y, px, py)
    {
      var xi := -1;
      var yi := -1;
      var i := 0;
      while i < |x|
        invariant 0 <= i <= |x| && xi == -1
        invariant ScanAxis(x, px, 0) == ScanAxis(x, px, i)
      {
        if x[i] <= px {
          if i + 1 >= |x| {
            return Failure(IndexOutOfRange);
          }
          if px <= x[i + 1] {
            xi := i;
            break;
          }
        }
        i := i + 1;
      }
      assert ScanAxis(x, px, 0) == Success(xi);
      i := 0;
      while i < |y|
        invariant 0 <= i <= |y| && yi == -1
        invariant ScanAxis(y, py, 0) == ScanAxis(y, py, i)
      {
        if y[i] <= py {
          if i + 1 >= |y| {
            return Failure(IndexOutOfRange);
          }
          if py <= y[i + 1] {
            yi := i;
            break;
          }
        }
        i := i + 1;
      }
      assert ScanAxis(y, py, 0) == Success(yi);
      if xi < 0 || yi < 0 {
        return Failure(Bad);
      }
      return Success((xi, yi));
    }
  }

  /** Integer product (node and element counts), kept behind a function like `Mul`. */
  function Times(a: int, b: int): int
  {
    a * b
  }

  /** `n` split counts of one. */
  function Ones(n: nat): (s: seq<int>)
    ensures |s| == n
  {
    seq(n, _ => 1)
  }

  /** `n` stretch ratios of one. */
  function UnitRatios(n: nat): (s: seq<real>)
    ensures |s| == n
  {
    seq(n, _ => 1.0)
  }

  /** Row-major numbering: column `a` of row `b` in rows of length `n` has remainder `a` and quotient `b`. */
  lemma RowMajor(a: int, b: int, n: int, rows: int)
    requires 0 <= a < n && 0 <= b < rows
    ensures 0 <= Times(b, n) + a < Times(n, rows)
    ensures (Times(b, n) + a) % n == a && (Times(b, n) + a) / n == b
  {
    MulStep(b, n, rows);
    assert Times(rows, n) == Times(n, rows);
    DivUnique(Times(b, n) + a, n, b, a);
  }

  /** A smaller non-negative factor gives a product at least one factor `n` smaller. */
  lemma MulStep(b: int, n: int, rows: int)
    requires 0 <= b < rows && 0 < n
    ensures 0 <= Times(b, n) && Times(b, n) + n <= Times(rows, n)
  {
    var k := rows - b - 1;
    assert Times(rows, n) == Times(b, n) + k * n + n;
    assert k * n >= 0;
  }

  /** Euclidean division is determined by a quotient and a remainder in range. */
  lemma DivUnique(d: int, n: int, q: int, r: int)
    requires 0 <= r < n && d == Times(q, n) + r
    ensures d % n == r && d / n == q
  {
    var q', r' := d / n, d % n;
    assert Times(q', n) + r' == d;
    assert Times(q - q', n) == r' - r;
    if q' < q {
      MulStep(0, n, q - q');
    } else if q < q' {
      MulStep(0, n, q' - q);
    }
  }

  /**
   * Under the invariant, knot `(xi, yi)` is a node of the mesh: its number is
   * below the node count, and the column and row it decodes to are the
   * positions of the knots on the refined axes, which hold the knots' coordinates.
   */
  lemma DofAtInitNode(m: RectMesh, xi: int, yi: int)
    requires m.Valid() && 0 <= xi < |m.xw| && 0 <= yi < |m.yw|
    ensures m.GetDofAtInitNode(xi, yi).Success?
    ensures 0 <= m.ixw[xi] < |m.x| && 0 <= m.iyw[yi] < |m.y|
    ensures var d := m.GetDofAtInitNode(xi, yi).value;
      && 0 <= d < m.nodesCount
      && d % |m.x| == m.ixw[xi] && d / |m.x| == m.iyw[yi]
      && m.x[d % |m.x|] == m.xw[xi] && m.y[d / |m.x|] == m.yw[yi]
  {
    var p := m.refineParams;
    KnotOnAxis(m.xw, p.xSplitCount, p.xStretchRatio, m.x, m.ixw, xi);
    KnotOnAxis(m.yw, p.ySplitCount, p.yStretchRatio, m.y, m.iyw, yi);
    RowMajor(m.ixw[xi], m.iyw[yi], |m.x|, |m.y|);
  }

  /** The constructor's unsplit parameters are valid and leave the knots where they are: knot `i` is node `i`. */
  lemma UnsplitValid(w: seq<real>, knots: seq<int>)
    requires |w| >= 1 && |knots| == |w| && forall i :: 0 <= i < |w| ==> knots[i] == i
    ensures Refinable(w, Ones(|w| - 1), UnitRatios(|w| - 1))
    ensures Axis(w, Ones(|w| - 1), UnitRatios(|w| - 1)) == w
    ensures Knots(knots, Ones(|w| - 1))
  {
    var split, stretch := Ones(|w| - 1), UnitRatios(|w| - 1);
    AxisUnsplit(w, split, stretch, |w|);
    assert w[..|w|] == w;
    forall i | 0 <= i < |w|
      ensures Sum(split[..i]) == i
    {
      SumOnes(split[..i]);
    }
  }
}
