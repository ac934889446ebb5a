/**
 * Gauss–Legendre quadrature of order 5: the three-point rule on [-1, 1],
 * its tensor product on [-1, 1]², and the integrators that map the rule
 * onto an interval `[p0, p1]` or a rectangle with corners `p0`, `p1`.
 *
 * The rule's outer nodes are `±sqrt(0.6)`; the model takes that root as a
 * parameter `s`, and the lemmas about the rule require `IsRoot(s)`.
 * Doubles are exact reals.
 */
module Gauss {

  /** A point of the plane (`PairF64`). */
  datatype Pair = Pair(x: real, y: real)

  /** A quadrature node: where to evaluate and with what weight. */
  datatype Node<P> = Node(point: P, weight: real)

  /** `s` is the positive square root of `0.6`. */
  predicate IsRoot(s: real)
  {
    s > 0.0 && s * s == 3.0 / 5.0
  }

  // ---------------------------------------------------------------------
  // Weighted sums and the integrals they define
  // ---------------------------------------------------------------------

  /** `Σ f(point) · weight` over the nodes, accumulated front to back. */
  function WSum<P>(nodes: seq<Node<P>>, f: P -> real): real
    decreases |nodes|
  {
    if nodes == [] then 0.0
    else WSum(nodes[..|nodes| - 1], f) + f(nodes[|nodes| - 1].point) * nodes[|nodes| - 1].weight
  }

  /** The map of the reference coordinate `p ∈ [-1, 1]` onto `[p0, p0 + h]`. */
  function Affine(p0: real, h: real, p: real): real
  {
    h * (p + 1.0) / 2.0 + p0
  }

  /** The 1D nodes moved from the reference interval onto `[p0, p0 + h]`, weights kept. */
  function MapNodes1(nodes: seq<Node<real>>, p0: real, h: real): (r: seq<Node<real>>)
    ensures |r| == |nodes|
    decreases |nodes|
  {
    if nodes == [] then []
    else
      var n := |nodes| - 1;
      MapNodes1(nodes[..n], p0, h) + [Node(Affine(p0, h, nodes[n].point), nodes[n].weight)]
  }

  /** The 2D nodes moved from the reference square onto `[p0.x, p0.x + hx] × [p0.y, p0.y + hy]`, weights kept. */
  function MapNodes2(nodes: seq<Node<Pair>>, p0: Pair, hx: real, hy: real): (r: seq<Node<Pair>>)
    ensures |r| == |nodes|
    decreases |nodes|
  {
    if nodes == [] then []
    else
      var n := |nodes| - 1;
      MapNodes2(nodes[..n], p0, hx, hy) + [Node(Pair(Affine(p0.x, hx, nodes[n].point.x), Affine(p0.y, hy, nodes[n].point.y)), nodes[n].weight)]
  }

  /** Node `i` of the mapped 1D rule is node `i` of the rule, moved. */
  lemma {:induction false} MapNodes1At(nodes: seq<Node<real>>, p0: real, h: real, i: int)
    requires 0 <= i < |nodes|
    ensures MapNodes1(nodes, p0, h)[i] == Node(Affine(p0, h, nodes[i].point), nodes[i].weight)
    decreases |nodes|
  {
    var n := |nodes| - 1;
    if i < n {
      MapNodes1At(nodes[..n], p0, h, i);
    }
  }

  /** Node `i` of the mapped 2D rule is node `i` of the rule, each coordinate moved. */
  lemma {:induction false} MapNodes2At(nodes: seq<Node<Pair>>, p0: Pair, hx: real, hy: real, i: int)
    requires 0 <= i < |nodes|
    ensures MapNodes2(nodes, p0, hx, hy)[i]
      == Node(Pair(Affine(p0.x, hx, nodes[i].point.x), Affine(p0.y, hy, nodes[i].point.y)), nodes[i].weight)
    decreases |nodes|
  {
    var n := |nodes| - 1;
    if i < n {
      MapNodes2At(nodes[..n], p0, hx, hy, i);
    }
  }

  /** What `Integrate1DOrder5` returns for a rule `nodes`: the weighted sum at the mapped nodes times the Jacobian `h / 2`. */
  function Integral1(nodes: seq<Node<real>>, p0: real, p1: real, func: real -> real): real
  {
    Jacobian1(WSum(MapNodes1(nodes, p0, p1 - p0), func), p0, p1)
  }

  /** A weighted sum on the reference interval scaled to `[p0, p1]`: times `h / 2`. */
  function Jacobian1(w: real, p0: real, p1: real): real
  {
    w * (p1 - p0) / 2.0
  }

  /** What `Integrate2DOrder5` returns for a rule `nodes`: the weighted sum at the mapped nodes times `hx · hy / 4`. */
  function Integral2(nodes: seq<Node<Pair>>, p0: Pair, p1: Pair, func: Pair -> real): real
  {
    Jacobian2(WSum(MapNodes2(nodes, p0, p1.x - p0.x, p1.y - p0.y), func), p0, p1)
  }

  /** A weighted sum on the reference square scaled to the cell `[p0, p1]`: times `hx · hy / 4`. */
  function Jacobian2(w: real, p0: Pair, p1: Pair): real
  {
    w * (p1.x - p0.x) * (p1.y - p0.y) / 4.0
  }

  /** The three-point combination `5/9 f(x0) + 8/9 f(x1) + 5/9 f(x2)`. */
  function Three(f: real -> real, x0: real, x1: real, x2: real): real
  {
    5.0 / 9.0 * f(x0) + 8.0 / 9.0 * f(x1) + 5.0 / 9.0 * f(x2)
  }

  /** The nine-point combination on the grid `{x0, x1, x2} × {y0, y1, y2}`: corners `25/81`, edges `40/81`, centre `64/81`. */
  function Nine(f: Pair -> real, x0: real, x1: real, x2: real, y0: real, y1: real, y2: real): real
  {
    25.0 / 81.0 * (f(Pair(x0, y0)) + f(Pair(x0, y2)) + f(Pair(x2, y0)) + f(Pair(x2, y2)))
    + 40.0 / 81.0 * (f(Pair(x0, y1)) + f(Pair(x1, y0)) + f(Pair(x1, y2)) + f(Pair(x2, y1)))
    + 64.0 / 81.0 * f(Pair(x1, y1))
  }

  // ---------------------------------------------------------------------
  // The rules
  // ---------------------------------------------------------------------

  /** The three-point rule: nodes `-s, 0, s`, weights `5/9, 8/9, 5/9`. */
  function Rule1D(s: real): seq<Node<real>>
  {
    [Node(-s, 5.0 / 9.0), Node(0.0, 8.0 / 9.0), Node(s, 5.0 / 9.0)]
  }

  /** The 2D node built from a node of each axis. */
  function Cell(n1: Node<real>, n2: Node<real>): Node<Pair>
  {
    Node(Pair(n1.point, n2.point), n1.weight * n2.weight)
  }

  /** One row of the tensor rule: `n1` paired with every node of `d`. */
  function Row(n1: Node<real>, d: seq<Node<real>>): seq<Node<Pair>>
  {
    seq(|d|, j requires 0 <= j < |d| => Cell(n1, d[j]))
  }

  /** The rows of the nodes `outer`, one after another. */
  function Rows(outer: seq<Node<real>>, d: seq<Node<real>>): seq<Node<Pair>>
    decreases |outer|
  {
    if outer == [] then [] else Rows(outer[..|outer| - 1], d) + Row(outer[|outer| - 1], d)
  }

  /** The tensor-product rule of `d`. */
  function Tensor(d: seq<Node<real>>): seq<Node<Pair>>
  {
    Rows(d, d)
  }

  // ---------------------------------------------------------------------
  // Shape of the tensor rule
  // ---------------------------------------------------------------------

  /** Position `i · n + j` of an `n × m` table is in range. */
  lemma Slot(i: int, j: int, n: int, m: int)
    requires 0 <= i < n && 0 <= j < m
    ensures 0 <= i * m + j < n * m
  {
    assert i * m <= (n - 1) * m;
  }

  /** The rows of `outer` hold `|outer| · |d|` nodes. */
  lemma {:induction false} RowsLength(outer: seq<Node<real>>, d: seq<Node<real>>)
    ensures |Rows(outer, d)| == |outer| * |d|
    decreases |outer|
  {
    if outer != [] {
      var n := |outer| - 1;
      RowsLength(outer[..n], d);
      assert (n + 1) * |d| == n * |d| + |d|;
    }
  }

  /** The rows of a prefix of `outer` are no more than the rows of `outer`. */
  lemma {:induction false} RowsPrefix(outer: seq<Node<real>>, d: seq<Node<real>>, a: int)
    requires 0 <= a <= |outer|
    ensures |Rows(outer[..a], d)| <= |Rows(outer, d)|
    decreases |outer| - a
  {
    if a < |outer| {
      RowsPrefix(outer, d, a + 1);
      assert outer[..a + 1][..a] == outer[..a];
    } else {
      assert outer[..a] == outer;
    }
  }

  /** Node `i · |d| + j` of the rows of `outer` pairs `outer[i]` with `d[j]`. */
  lemma {:induction false} RowsAt(outer: seq<Node<real>>, d: seq<Node<real>>, i: int, j: int)
    requires 0 <= i < |outer| && 0 <= j < |d|
    ensures i * |d| + j < |Rows(outer, d)| && Rows(outer, d)[i * |d| + j] == Cell(outer[i], d[j])
    decreases |outer|
  {
    var n := |outer| - 1;
    var front := outer[..n];
    RowsLength(front, d);
    RowsLength(outer, d);
    Slot(i, j, |outer|, |d|);
    if i < n {
      RowsAt(front, d, i, j);
    }
  }

  /** `Make2D`'s layout: `len²` nodes, node `i · len + j` pairing node `i` with node `j`. */
  lemma TensorIndex(d: seq<Node<real>>)
    ensures |Tensor(d)| == |d| * |d|
    ensures forall i, j :: 0 <= i < |d| && 0 <= j < |d| ==>
      Tensor(d)[i * |d| + j] == Node(Pair(d[i].point, d[j].point), d[i].weight * d[j].weight)
  {
    RowsLength(d, d);
    forall i, j | 0 <= i < |d| && 0 <= j < |d|
      ensures Tensor(d)[i * |d| + j] == Node(Pair(d[i].point, d[j].point), d[i].weight * d[j].weight)
    {
      RowsAt(d, d, i, j);
    }
  }

  // ---------------------------------------------------------------------
  // The operations
  // ---------------------------------------------------------------------

  /** `Get1DOrder5`: the points and weights copied node by node into a fresh array. */
  method Get1DOrder5(s: real) returns (nodes: seq<Node<real>>)
    ensures nodes == Rule1D(s)
  {
    var points := [-s, 0.0, s];
    var weights := [5.0 / 9.0, 8.0 / 9.0, 5.0 / 9.0];
    var res := new Node<real>[3];
    for i := 0 to 3
      invariant forall k :: 0 <= k < i ==> res[k] == Node(points[k], weights[k])
    {
      res[i] := Node(points[i], weights[i]);
    }
    nodes := res[..];
  }

  /**
   * `Make2D`: every pair of nodes, the outer loop over the first coordinate,
   * written at a running index.
   */
  method Make2D(dim1: seq<Node<real>>) returns (nodes: seq<Node<Pair>>)
    ensures nodes == Tensor(dim1)
  {
    var len := |dim1|;
    RowsLength(dim1, dim1);
    var res := new Node<Pair>[len * len];
    var i := 0;
    for i1 := 0 to len
      invariant 0 <= i <= res.Length && res[..i] == Rows(dim1[..i1], dim1)
    {
      var node1 := dim1[i1];
      ghost var done := Rows(dim1[..i1], dim1);
      RowsPrefix(dim1, dim1, i1 + 1);
      assert dim1[..i1 + 1][..i1] == dim1[..i1];
      assert |done| + len <= res.Length;
      for i2 := 0 to len
        invariant i == |done| + i2 && |done| + len <= res.Length
        invariant res[..i] == done + Row(node1, dim1)[..i2]
      {
        var node2 := dim1[i2];
        ghost var before := res[..i];
        res[i] := Cell(node1, node2);
        assert forall m :: 0 <= m < i ==> res[m] == before[m];
        assert res[..i + 1] == before + [Cell(node1, node2)];
        assert Row(node1, dim1)[..i2 + 1] == Row(node1, dim1)[..i2] + [Cell(node1, node2)];
        i := i + 1;
      }
      assert Row(node1, dim1)[..len] == Row(node1, dim1);
    }
    assert dim1[..len] == dim1;
    nodes := res[..];
  }

  /** `Get2DOrder5`: the tensor product of the three-point rule. */
  method Get2DOrder5(s: real) returns (nodes: seq<Node<Pair>>)
    ensures nodes == Tensor(Rule1D(s))
  {
    var dim1 := Get1DOrder5(s);
    nodes := Make2D(dim1);
  }

  /** `Integrate1DOrder5`: the three-point rule mapped onto `[p0, p1]`. */
  method Integrate1DOrder5(s: real, p0: real, p1: real, func: real -> real) returns (r: real)
    ensures r == Integral1(Rule1D(s), p0, p1, func)
  {
    var quad := Get1DOrder5(s);
    r := IntegrateNodes1(quad, p0, p1, func);
  }

  /** The body of `Integrate1DOrder5` for the nodes `quad`: `func` at each mapped node, weighted, summed, scaled by `h / 2`. */
  method IntegrateNodes1(quad: seq<Node<real>>, p0: real, p1: real, func: real -> real) returns (r: real)
    ensures r == Integral1(quad, p0, p1, func)
  {
    var h := p1 - p0;
    var res := 0.0;
    for k := 0 to |quad|
      invariant res == WSum(MapNodes1(quad[..k], p0, h), func)
    {
      var p := quad[k].point;
      var w := quad[k].weight;
      var x := Affine(p0, h, p);
      res := res + func(x) * w;
      ghost var done := MapNodes1(quad[..k], p0, h);
      assert quad[..k + 1][..k] == quad[..k];
      assert (done + [Node(x, w)])[..k] == done;
    }
    assert quad[..|quad|] == quad;
    r := res * h / 2.0;
  }

  /** `Integrate2DOrder5`: the tensor rule mapped onto the rectangle with corners `p0`, `p1`. */
  method Integrate2DOrder5(s: real, p0: Pair, p1: Pair, func: Pair -> real) returns (r: real)
    ensures r == Integral2(Tensor(Rule1D(s)), p0, p1, func)
  {
    var quad := Get2DOrder5(s);
    r := IntegrateNodes2(quad, p0, p1, func);
  }

  /** The body of `Integrate2DOrder5` for the nodes `quad`: each axis mapped as in 1D, the sum scaled by `hx · hy / 4`. */
  method IntegrateNodes2(quad: seq<Node<Pair>>, p0: Pair, p1: Pair, func: Pair -> real) returns (r: real)
    ensures r == Integral2(quad, p0, p1, func)
  {
    var hx := p1.x - p0.x;
    var hy := p1.y - p0.y;
    var res := 0.0;
    for k := 0 to |quad|
      invariant res == WSum(MapNodes2(quad[..k], p0, hx, hy), func)
    {
      var p := quad[k].point;
      var w := quad[k].weight;
      var x := Pair(Affine(p0.x, hx, p.x), Affine(p0.y, hy, p.y));
      res := res + func(x) * w;
      ghost var done := MapNodes2(quad[..k], p0, hx, hy);
      assert quad[..k + 1][..k] == quad[..k];
      assert (done + [Node(x, w)])[..k] == done;
    }
    assert quad[..|quad|] == quad;
    r := res * hx * hy / 4.0;
  }

  // ---------------------------------------------------------------------
  // Real arithmetic used by the proofs below
  // ---------------------------------------------------------------------

  lemma Distrib(c: real, x: real, y: real)
    ensures c * (x + y) == c * x + c * y
  {
  }

  lemma Combine(alpha: real, beta: real, a: real, b: real, h: real)
    ensures (alpha * a + beta * b) * h == alpha * (a * h) + beta * (b * h)
  {
    assert (alpha * a) * h == alpha * (a * h);
    assert (beta * b) * h == beta * (b * h);
  }

  // ---------------------------------------------------------------------
  // Sums: splitting, linearity, the tensor product
  // ---------------------------------------------------------------------

  /** The weighted sum is linear in the integrand. */
  lemma {:induction false} WSumLinear<P>(nodes: seq<Node<P>>, f: P -> real, g: P -> real, k: P -> real, alpha: real, beta: real)
    requires forall p :: f(p) == alpha * g(p) + beta * k(p)
    ensures WSum(nodes, f) == alpha * WSum(nodes, g) + beta * WSum(nodes, k)
    decreases |nodes|
  {
    if nodes != [] {
      var n := |nodes| - 1;
      WSumLinear(nodes[..n], f, g, k, alpha, beta);
      var pt, w := nodes[n].point, nodes[n].weight;
      Combine(alpha, beta, g(pt), k(pt), w);
      Distrib(alpha, WSum(nodes[..n], g), g(pt) * w);
      Distrib(beta, WSum(nodes[..n], k), k(pt) * w);
    }
  }

  /** Three more nodes of the weighted sum. */
  lemma WSumThree<P>(t: seq<Node<P>>, f: P -> real, k: int)
    requires 0 <= k && k + 3 <= |t|
    ensures WSum(t[..k + 3], f) == WSum(t[..k], f) + f(t[k].point) * t[k].weight
      + f(t[k + 1].point) * t[k + 1].weight + f(t[k + 2].point) * t[k + 2].weight
  {
    assert t[..k + 3][..k + 2] == t[..k + 2];
    assert t[..k + 2][..k + 1] == t[..k + 1];
    assert t[..k + 1][..k] == t[..k];
    assert WSum(t[..k + 1], f) == WSum(t[..k], f) + f(t[k].point) * t[k].weight;
    assert WSum(t[..k + 2], f) == WSum(t[..k + 1], f) + f(t[k + 1].point) * t[k + 1].weight;
  }

  /** Node `3i + j` of the 2D rule pairs node `i` with node `j` of the 1D rule. */
  lemma RuleCell(s: real, i: int, j: int)
    requires 0 <= i < 3 && 0 <= j < 3
    ensures 3 * i + j < |Tensor(Rule1D(s))|
    ensures Tensor(Rule1D(s))[3 * i + j] == Cell(Rule1D(s)[i], Rule1D(s)[j])
  {
    RowsAt(Rule1D(s), Rule1D(s), i, j);
  }

  /** The 2D rule's weighted sum written out: corner weights `25/81`, edge weights `40/81`, centre `64/81`. */
  lemma TensorRuleSum(s: real, f: Pair -> real)
    ensures WSum(Tensor(Rule1D(s)), f) == Nine(f, -s, 0.0, s, -s, 0.0, s)
  {
    var t := Tensor(Rule1D(s));
    RuleCell(s, 0, 0); RuleCell(s, 0, 1); RuleCell(s, 0, 2);
    RuleCell(s, 1, 0); RuleCell(s, 1, 1); RuleCell(s, 1, 2);
    RuleCell(s, 2, 0); RuleCell(s, 2, 1); RuleCell(s, 2, 2);
    RowsLength(Rule1D(s), Rule1D(s));
    WSumThree(t, f, 0);
    WSumThree(t, f, 3);
    WSumThree(t, f, 6);
    assert t[..0] == [] && t[..9] == t;
  }

  /** The product of two three-point sums, multiplied out. */
  lemma ProductExpand(a0: real, a1: real, a2: real, b0: real, b1: real, b2: real)
    ensures (5.0 / 9.0 * a0 + 8.0 / 9.0 * a1 + 5.0 / 9.0 * a2) * (5.0 / 9.0 * b0 + 8.0 / 9.0 * b1 + 5.0 / 9.0 * b2)
      == 25.0 / 81.0 * (a0 * b0 + a0 * b2 + a2 * b0 + a2 * b2)
       + 40.0 / 81.0 * (a0 * b1 + a1 * b0 + a1 * b2 + a2 * b1)
       + 64.0 / 81.0 * (a1 * b1)
  {
  }

  // ---------------------------------------------------------------------
  // Properties of the rules
  // ---------------------------------------------------------------------

  /** The three-point sum written out. */
  lemma RuleSum(s: real, g: real -> real)
    ensures WSum(Rule1D(s), g) == Three(g, -s, 0.0, s)
  {
    var r := Rule1D(s);
    var r1, r2 := r[..1], r[..2];
    assert r1[..0] == [] && r2[..1] == r1 && r[..2] == r2;
    assert WSum(r1, g) == g(-s) * (5.0 / 9.0);
    assert WSum(r2, g) == WSum(r1, g) + g(0.0) * (8.0 / 9.0);
  }

  /** The 1D weights sum to the length 2 of `[-1, 1]`, and the 2D weights to its area 4. */
  lemma WeightsSum(s: real)
    ensures WSum(Rule1D(s), (p: real) => 1.0) == 2.0
    ensures WSum(Tensor(Rule1D(s)), (q: Pair) => 1.0) == 4.0
  {
    RuleSum(s, (p: real) => 1.0);
    TensorRuleSum(s, (q: Pair) => 1.0);
  }

  /** The 1D nodes lie in `[-1, 1]`, symmetric about 0 with equal outer weights. */
  lemma RuleNodes(s: real)
    requires IsRoot(s)
    ensures forall n :: n in Rule1D(s) ==> -1.0 <= n.point <= 1.0 && n.weight > 0.0
    ensures Rule1D(s)[0].point == -Rule1D(s)[2].point && Rule1D(s)[0].weight == Rule1D(s)[2].weight
  {
  }

  /** The map sends `-1` to `p0`, `1` to `p0 + h`, and `[-1, 1]` into `[p0, p0 + h]` for `h >= 0`. */
  lemma AffineInside(p0: real, h: real, p: real)
    ensures Affine(p0, h, -1.0) == p0 && Affine(p0, h, 1.0) == p0 + h
    ensures h >= 0.0 && -1.0 <= p <= 1.0 ==> p0 <= Affine(p0, h, p) <= p0 + h
  {
    if h >= 0.0 && -1.0 <= p <= 1.0 {
      assert 0.0 <= h * (p + 1.0) <= h * 2.0;
    }
  }

  /** Every point where `Integrate1DOrder5` evaluates `func` lies in `[p0, p1]` when `p0 <= p1`. */
  lemma EvaluatedInside(s: real, p0: real, p1: real)
    requires IsRoot(s) && p0 <= p1
    ensures forall n :: n in MapNodes1(Rule1D(s), p0, p1 - p0) ==> p0 <= n.point <= p1
  {
    RuleNodes(s);
    var d := Rule1D(s);
    forall n | n in MapNodes1(d, p0, p1 - p0)
      ensures p0 <= n.point <= p1
    {
      var i :| 0 <= i < 3 && MapNodes1(d, p0, p1 - p0)[i] == n;
      MapNodes1At(d, p0, p1 - p0, i);
      assert d[i] in d;
      AffineInside(p0, p1 - p0, d[i].point);
    }
  }

  /** `Integrate1DOrder5` written out: `func` at the three mapped nodes, scaled by `h / 2`. */
  lemma Integral1Rule(s: real, p0: real, p1: real, func: real -> real)
    ensures Integral1(Rule1D(s), p0, p1, func)
      == Jacobian1(Three(func, Affine(p0, p1 - p0, -s), Affine(p0, p1 - p0, 0.0), Affine(p0, p1 - p0, s)), p0, p1)
  {
    var m := MapNodes1(Rule1D(s), p0, p1 - p0);
    MapNodes1At(Rule1D(s), p0, p1 - p0, 0);
    MapNodes1At(Rule1D(s), p0, p1 - p0, 1);
    MapNodes1At(Rule1D(s), p0, p1 - p0, 2);
    WSumThree(m, func, 0);
    assert m[..0] == [] && m[..3] == m;
  }

  /** Node `3i + j` of the 2D rule moved onto the rectangle: the two axes mapped separately, the weight a product. */
  lemma MappedCell(s: real, p0: Pair, hx: real, hy: real, i: int, j: int)
    requires 0 <= i < 3 && 0 <= j < 3
    ensures 3 * i + j < |MapNodes2(Tensor(Rule1D(s)), p0, hx, hy)|
    ensures MapNodes2(Tensor(Rule1D(s)), p0, hx, hy)[3 * i + j]
      == Node(Pair(Affine(p0.x, hx, Rule1D(s)[i].point), Affine(p0.y, hy, Rule1D(s)[j].point)),
              Rule1D(s)[i].weight * Rule1D(s)[j].weight)
  {
    RuleCell(s, i, j);
    MapNodes2At(Tensor(Rule1D(s)), p0, hx, hy, 3 * i + j);
  }

  /** A weighted sum over nine nodes, written out. */
  lemma WSumNine<P>(t: seq<Node<P>>, f: P -> real)
    requires |t| == 9
    ensures WSum(t, f)
      == f(t[0].point) * t[0].weight + f(t[1].point) * t[1].weight + f(t[2].point) * t[2].weight
       + f(t[3].point) * t[3].weight + f(t[4].point) * t[4].weight + f(t[5].point) * t[5].weight
       + f(t[6].point) * t[6].weight + f(t[7].point) * t[7].weight + f(t[8].point) * t[8].weight
  {
    WSumThree(t, f, 0);
    WSumThree(t, f, 3);
    WSumThree(t, f, 6);
    assert t[..0] == [] && t[..9] == t;
  }

  /** The nine nodes of the 2D rule moved onto a rectangle, with their weights evaluated. */
  lemma MappedCells(s: real, p0: Pair, hx: real, hy: real)
    ensures var m, x0, x1, x2, y0, y1, y2 := MapNodes2(Tensor(Rule1D(s)), p0, hx, hy),
        Affine(p0.x, hx, -s), Affine(p0.x, hx, 0.0), Affine(p0.x, hx, s),
        Affine(p0.y, hy, -s), Affine(p0.y, hy, 0.0), Affine(p0.y, hy, s);
      |m| == 9
      && m[0] == Node(Pair(x0, y0), 25.0 / 81.0) && m[1] == Node(Pair(x0, y1), 40.0 / 81.0)
      && m[2] == Node(Pair(x0, y2), 25.0 / 81.0) && m[3] == Node(Pair(x1, y0), 40.0 / 81.0)
      && m[4] == Node(Pair(x1, y1), 64.0 / 81.0) && m[5] == Node(Pair(x1, y2), 40.0 / 81.0)
      && m[6] == Node(Pair(x2, y0), 25.0 / 81.0) && m[7] == Node(Pair(x2, y1), 40.0 / 81.0)
      && m[8] == Node(Pair(x2, y2), 25.0 / 81.0)
  {
    MappedCell(s, p0, hx, hy, 0, 0); MappedCell(s, p0, hx, hy, 0, 1); MappedCell(s, p0, hx, hy, 0, 2);
    MappedCell(s, p0, hx, hy, 1, 0); MappedCell(s, p0, hx, hy, 1, 1); MappedCell(s, p0, hx, hy, 1, 2);
    MappedCell(s, p0, hx, hy, 2, 0); MappedCell(s, p0, hx, hy, 2, 1); MappedCell(s, p0, hx, hy, 2, 2);
    RowsLength(Rule1D(s), Rule1D(s));
  }

  /** The 2D rule's weighted sum at the nodes moved onto a rectangle. */
  lemma MappedTensorSum(s: real, p0: Pair, hx: real, hy: real, func: Pair -> real)
    ensures WSum(MapNodes2(Tensor(Rule1D(s)), p0, hx, hy), func)
      == Nine(func, Affine(p0.x, hx, -s), Affine(p0.x, hx, 0.0), Affine(p0.x, hx, s),
              Affine(p0.y, hy, -s), Affine(p0.y, hy, 0.0), Affine(p0.y, hy, s))
  {
    MappedCells(s, p0, hx, hy);
    WSumNine(MapNodes2(Tensor(Rule1D(s)), p0, hx, hy), func);
  }

  /** `Integrate2DOrder5` written out: `func` at the nine mapped nodes, scaled by `hx · hy / 4`. */
  lemma Integral2Rule(s: real, p0: Pair, p1: Pair, func: Pair -> real)
    ensures Integral2(Tensor(Rule1D(s)), p0, p1, func)
      == Jacobian2(Nine(func, Affine(p0.x, p1.x - p0.x, -s), Affine(p0.x, p1.x - p0.x, 0.0), Affine(p0.x, p1.x - p0.x, s),
                        Affine(p0.y, p1.y - p0.y, -s), Affine(p0.y, p1.y - p0.y, 0.0), Affine(p0.y, p1.y - p0.y, s)), p0, p1)
  {
    MappedTensorSum(s, p0, p1.x - p0.x, p1.y - p0.y, func);
  }

  /** Scaling by `h / 2` keeps a linear combination. */
  lemma Linear1(sf: real, sg: real, sk: real, alpha: real, beta: real, p0: real, p1: real)
    requires sf == alpha * sg + beta * sk
    ensures Jacobian1(sf, p0, p1) == alpha * Jacobian1(sg, p0, p1) + beta * Jacobian1(sk, p0, p1)
  {
  }

  /** Scaling by `hx · hy / 4` keeps a linear combination. */
  lemma Linear2(sf: real, sg: real, sk: real, alpha: real, beta: real, p0: Pair, p1: Pair)
    requires sf == alpha * sg + beta * sk
    ensures Jacobian2(sf, p0, p1) == alpha * Jacobian2(sg, p0, p1) + beta * Jacobian2(sk, p0, p1)
  {
    var hx, hy := p1.x - p0.x, p1.y - p0.y;
    assert sf * hx * hy == alpha * (sg * hx * hy) + beta * (sk * hx * hy);
  }

  /** `Integrate1DOrder5` is linear in the integrand. */
  lemma Integral1Linear(d: seq<Node<real>>, p0: real, p1: real, f: real -> real, g: real -> real, k: real -> real, alpha: real, beta: real)
    requires forall x :: f(x) == alpha * g(x) + beta * k(x)
    ensures Integral1(d, p0, p1, f) == alpha * Integral1(d, p0, p1, g) + beta * Integral1(d, p0, p1, k)
  {
    forall x: real
      ensures f(x) == alpha * g(x) + beta * k(x)
    {
    }
    WSumLinear(MapNodes1(d, p0, p1 - p0), f, g, k, alpha, beta);
    Linear1(WSum(MapNodes1(d, p0, p1 - p0), f), WSum(MapNodes1(d, p0, p1 - p0), g), WSum(MapNodes1(d, p0, p1 - p0), k),
      alpha, beta, p0, p1);
  }

  /** A linear relation between weighted sums survives the `hx · hy / 4` scaling of `Integrate2DOrder5`. */
  lemma Integral2Scale(t: seq<Node<Pair>>, p0: Pair, p1: Pair, f: Pair -> real, g: Pair -> real, k: Pair -> real, alpha: real, beta: real)
    requires WSum(MapNodes2(t, p0, p1.x - p0.x, p1.y - p0.y), f)
      == alpha * WSum(MapNodes2(t, p0, p1.x - p0.x, p1.y - p0.y), g) + beta * WSum(MapNodes2(t, p0, p1.x - p0.x, p1.y - p0.y), k)
    ensures Integral2(t, p0, p1, f) == alpha * Integral2(t, p0, p1, g) + beta * Integral2(t, p0, p1, k)
  {
    var m := MapNodes2(t, p0, p1.x - p0.x, p1.y - p0.y);
    Linear2(WSum(m, f), WSum(m, g), WSum(m, k), alpha, beta, p0, p1);

  }

  /** `Integrate2DOrder5` is linear in the integrand. */
  lemma Integral2Linear(t: seq<Node<Pair>>, p0: Pair, p1: Pair, f: Pair -> real, g: Pair -> real, k: Pair -> real, alpha: real, beta: real)
    requires forall q :: f(q) == alpha * g(q) + beta * k(q)
    ensures Integral2(t, p0, p1, f) == alpha * Integral2(t, p0, p1, g) + beta * Integral2(t, p0, p1, k)
  {
    forall q: Pair
      ensures f(q) == alpha * g(q) + beta * k(q)
    {
    }
    WSumLinear(MapNodes2(t, p0, p1.x - p0.x, p1.y - p0.y), f, g, k, alpha, beta);
    Integral2Scale(t, p0, p1, f, g, k, alpha, beta);
  }

  lemma Scaled2(a: real, hx: real, hy: real)
    ensures a * hx * hy / 4.0 == a * (hx * hy / 4.0)
  {
  }

  /** Scaling a product by `hx · hy / 4` is scaling each factor by half its side. */
  lemma Halves(whole: real, left: real, right: real, n: real, a: real, b: real, p0: Pair, p1: Pair)
    requires whole == Jacobian2(n, p0, p1)
    requires left == Jacobian1(a, p0.x, p1.x) && right == Jacobian1(b, p0.y, p1.y)
    requires n == a * b
    ensures whole == left * right
  {
    var hx, hy := p1.x - p0.x, p1.y - p0.y;
    assert a * b * hx * hy == (a * hx) * (b * hy);
  }

  /** For a product integrand the nine-point combination on a rectangle is the product of the two three-point ones. */
  lemma NineProduct(s: real, p0: Pair, p1: Pair, f: Pair -> real, g: real -> real, k: real -> real)
    requires forall x, y :: f(Pair(x, y)) == g(x) * k(y)
    ensures Nine(f, Affine(p0.x, p1.x - p0.x, -s), Affine(p0.x, p1.x - p0.x, 0.0), Affine(p0.x, p1.x - p0.x, s), Affine(p0.y, p1.y - p0.y, -s), Affine(p0.y, p1.y - p0.y, 0.0), Affine(p0.y, p1.y - p0.y, s)) == Three(g, Affine(p0.x, p1.x - p0.x, -s), Affine(p0.x, p1.x - p0.x, 0.0), Affine(p0.x, p1.x - p0.x, s)) * Three(k, Affine(p0.y, p1.y - p0.y, -s), Affine(p0.y, p1.y - p0.y, 0.0), Affine(p0.y, p1.y - p0.y, s))
  {
    ProductExpand(g(Affine(p0.x, p1.x - p0.x, -s)), g(Affine(p0.x, p1.x - p0.x, 0.0)), g(Affine(p0.x, p1.x - p0.x, s)),
      k(Affine(p0.y, p1.y - p0.y, -s)), k(Affine(p0.y, p1.y - p0.y, 0.0)), k(Affine(p0.y, p1.y - p0.y, s)));
  }

  /** The two 1D rules along the sides of a rectangle. */
  lemma SideRules(s: real, p0: Pair, p1: Pair, g: real -> real, k: real -> real)
    ensures Integral1(Rule1D(s), p0.x, p1.x, g) == Jacobian1(Three(g, Affine(p0.x, p1.x - p0.x, -s), Affine(p0.x, p1.x - p0.x, 0.0), Affine(p0.x, p1.x - p0.x, s)), p0.x, p1.x)
    ensures Integral1(Rule1D(s), p0.y, p1.y, k) == Jacobian1(Three(k, Affine(p0.y, p1.y - p0.y, -s), Affine(p0.y, p1.y - p0.y, 0.0), Affine(p0.y, p1.y - p0.y, s)), p0.y, p1.y)
  {
    Integral1Rule(s, p0.x, p1.x, g);
    Integral1Rule(s, p0.y, p1.y, k);
  }

  /** When the nine-point combination factors, the 2D rule's result is the product of the two 1D results. */
  lemma RectScale(s: real, p0: Pair, p1: Pair, f: Pair -> real, g: real -> real, k: real -> real)
    requires Nine(f, Affine(p0.x, p1.x - p0.x, -s), Affine(p0.x, p1.x - p0.x, 0.0), Affine(p0.x, p1.x - p0.x, s), Affine(p0.y, p1.y - p0.y, -s), Affine(p0.y, p1.y - p0.y, 0.0), Affine(p0.y, p1.y - p0.y, s)) == Three(g, Affine(p0.x, p1.x - p0.x, -s), Affine(p0.x, p1.x - p0.x, 0.0), Affine(p0.x, p1.x - p0.x, s)) * Three(k, Affine(p0.y, p1.y - p0.y, -s), Affine(p0.y, p1.y - p0.y, 0.0), Affine(p0.y, p1.y - p0.y, s))
    ensures Integral2(Tensor(Rule1D(s)), p0, p1, f) == Integral1(Rule1D(s), p0.x, p1.x, g) * Integral1(Rule1D(s), p0.y, p1.y, k)
  {
    Integral2Rule(s, p0, p1, f);
    SideRules(s, p0, p1, g, k);
    Halves(Integral2(Tensor(Rule1D(s)), p0, p1, f), Integral1(Rule1D(s), p0.x, p1.x, g), Integral1(Rule1D(s), p0.y, p1.y, k),
      Nine(f, Affine(p0.x, p1.x - p0.x, -s), Affine(p0.x, p1.x - p0.x, 0.0), Affine(p0.x, p1.x - p0.x, s), Affine(p0.y, p1.y - p0.y, -s), Affine(p0.y, p1.y - p0.y, 0.0), Affine(p0.y, p1.y - p0.y, s)), Three(g, Affine(p0.x, p1.x - p0.x, -s), Affine(p0.x, p1.x - p0.x, 0.0), Affine(p0.x, p1.x - p0.x, s)), Three(k, Affine(p0.y, p1.y - p0.y, -s), Affine(p0.y, p1.y - p0.y, 0.0), Affine(p0.y, p1.y - p0.y, s)), p0, p1);
  }

  /** On a rectangle, a product integrand integrates to the product of the two 1D integrals. */
  lemma ProductIntegral(s: real, p0: Pair, p1: Pair, f: Pair -> real, g: real -> real, k: real -> real)
    requires forall x, y :: f(Pair(x, y)) == g(x) * k(y)
    ensures Integral2(Tensor(Rule1D(s)), p0, p1, f)
      == Integral1(Rule1D(s), p0.x, p1.x, g) * Integral1(Rule1D(s), p0.y, p1.y, k)
  {
    NineProduct(s, p0, p1, f, g, k);
    RectScale(s, p0, p1, f, g, k);
  }

  /** A constant `c` integrates to `c · h` on an interval. */
  lemma ConstantExact1(s: real, c: real, p0: real, p1: real)
    ensures Integral1(Rule1D(s), p0, p1, (x: real) => c) == c * (p1 - p0)
  {
    var h := p1 - p0;
    Integral1Rule(s, p0, p1, (x: real) => c);
    assert Three((x: real) => c, Affine(p0, h, -s), Affine(p0, h, 0.0), Affine(p0, h, s)) == 2.0 * c;
  }

  /** A constant `c` integrates to `c · hx · hy` on a rectangle. */
  lemma ConstantExact2(s: real, c: real, p0: Pair, p1: Pair)
    ensures Integral2(Tensor(Rule1D(s)), p0, p1, (q: Pair) => c) == c * (p1.x - p0.x) * (p1.y - p0.y)
  {
    var hx, hy := p1.x - p0.x, p1.y - p0.y;
    Integral2Rule(s, p0, p1, (q: Pair) => c);
    assert Nine((q: Pair) => c, Affine(p0.x, hx, -s), Affine(p0.x, hx, 0.0), Affine(p0.x, hx, s),
                Affine(p0.y, hy, -s), Affine(p0.y, hy, 0.0), Affine(p0.y, hy, s)) == 4.0 * c;
    Scaled2(4.0 * c, hx, hy);
  }

  // ---------------------------------------------------------------------
  // Exactness
  // ---------------------------------------------------------------------

  /** The polynomial `c0 + c1 x + … + c5 x⁵`. */
  function Quintic(c0: real, c1: real, c2: real, c3: real, c4: real, c5: real, x: real): real
  {
    var x2 := x * x;
    c0 + c1 * x + c2 * x2 + c3 * (x2 * x) + c4 * (x2 * x2) + c5 * (x2 * x2 * x)
  }

  /** The odd powers cancel between `x` and `-x`. */
  lemma QuinticEven(c0: real, c1: real, c2: real, c3: real, c4: real, c5: real, x: real)
    ensures Quintic(c0, c1, c2, c3, c4, c5, x) + Quintic(c0, c1, c2, c3, c4, c5, -x)
      == 2.0 * (c0 + c2 * (x * x) + c4 * ((x * x) * (x * x)))
  {
    var x2 := x * x;
    assert (-x) * (-x) == x2;
    assert x2 * (-x) == -(x2 * x);
    assert x2 * x2 * (-x) == -(x2 * x2 * x);
  }

  /** On `[-1, 1]` the rule integrates every polynomial of degree at most 5 exactly. */
  lemma ExactToDegree5(s: real, c0: real, c1: real, c2: real, c3: real, c4: real, c5: real, f: real -> real)
    requires IsRoot(s)
    requires forall x :: f(x) == Quintic(c0, c1, c2, c3, c4, c5, x)
    ensures Integral1(Rule1D(s), -1.0, 1.0, f) == 2.0 * c0 + 2.0 / 3.0 * c2 + 2.0 / 5.0 * c4
  {
    Integral1Rule(s, -1.0, 1.0, f);
    assert Affine(-1.0, 2.0, -s) == -s && Affine(-1.0, 2.0, 0.0) == 0.0 && Affine(-1.0, 2.0, s) == s;
    QuinticEven(c0, c1, c2, c3, c4, c5, s);
    assert (s * s) * (s * s) == 9.0 / 25.0;
  }

  /** Degree 6 is beyond it: `x⁶` gives `6/25` instead of `2/7`. */
  lemma NotExactDegree6(s: real)
    requires IsRoot(s)
    ensures Integral1(Rule1D(s), -1.0, 1.0, (x: real) => (x * x) * (x * x) * (x * x)) == 6.0 / 25.0
    ensures 6.0 / 25.0 != 2.0 / 7.0
  {
    Integral1Rule(s, -1.0, 1.0, (x: real) => (x * x) * (x * x) * (x * x));
    assert Affine(-1.0, 2.0, -s) == -s && Affine(-1.0, 2.0, 0.0) == 0.0 && Affine(-1.0, 2.0, s) == s;
    assert (-s) * (-s) == s * s;
    assert (s * s) * (s * s) * (s * s) == 27.0 / 125.0;
  }

  /** The cubic `a x³ + b x² + c x + d`. */
  function Cubic(a: real, b: real, c: real, d: real, x: real): real
  {
    a * (x * x * x) + b * (x * x) + c * x + d
  }

  /** An antiderivative of `Cubic(a, b, c, d, ·)`. */
  function CubicPrimitive(a: real, b: real, c: real, d: real, x: real): real
  {
    a / 4.0 * (x * x * x * x) + b / 3.0 * (x * x * x) + c / 2.0 * (x * x) + d * x
  }

  /** `f(m + t) + f(m - t)` for a cubic: the odd part in `t` cancels. */
  lemma CubicPair(a: real, b: real, c: real, d: real, m: real, t: real)
    ensures Cubic(a, b, c, d, m + t) + Cubic(a, b, c, d, m - t)
      == 2.0 * Cubic(a, b, c, d, m) + 2.0 * (t * t) * (3.0 * a * m + b)
  {
    var t2 := t * t;
    assert (m + t) * (m + t) + (m - t) * (m - t) == 2.0 * (m * m) + 2.0 * t2;
    assert (m + t) * (m + t) * (m + t) + (m - t) * (m - t) * (m - t) == 2.0 * (m * m * m) + 6.0 * m * t2;
  }

  /** Differences of powers at `m ± u`. */
  lemma PowerDiffs(m: real, u: real)
    ensures (m + u) * (m + u) - (m - u) * (m - u) == 4.0 * m * u
    ensures (m + u) * (m + u) * (m + u) - (m - u) * (m - u) * (m - u) == 6.0 * (m * m) * u + 2.0 * (u * u * u)
    ensures (m + u) * (m + u) * (m + u) * (m + u) - (m - u) * (m - u) * (m - u) * (m - u)
      == 8.0 * (m * m * m) * u + 8.0 * m * (u * u * u)
  {
    var p, q := (m + u) * (m + u), (m - u) * (m - u);
    assert p == m * m + 2.0 * m * u + u * u;
    assert q == m * m - 2.0 * m * u + u * u;
    assert (m + u) * (m + u) * (m + u) == p * (m + u);
    assert (m - u) * (m - u) * (m - u) == q * (m - u);
    assert (m + u) * (m + u) * (m + u) * (m + u) == p * p;
    assert (m - u) * (m - u) * (m - u) * (m - u) == q * q;
    assert p * p - q * q == (p - q) * (p + q);
  }

  /** The exact integral of a cubic over `[lo, hi] = [m - u, m + u]`. */
  lemma CubicArea(a: real, b: real, c: real, d: real, m: real, u: real, lo: real, hi: real)
    requires lo == m - u && hi == m + u
    ensures CubicPrimitive(a, b, c, d, hi) - CubicPrimitive(a, b, c, d, lo)
      == 2.0 * u * Cubic(a, b, c, d, m) + 2.0 / 3.0 * (u * u * u) * (3.0 * a * m + b)
  {
    PowerDiffs(m, u);
  }

  /** Where the three nodes land on `[p0, p0 + h]` with `h = 2u`: the midpoint `m` and `± u·s` around it. */
  lemma NodesLand(s: real, p0: real, h: real, u: real, m: real)
    requires h == 2.0 * u && m == p0 + u
    ensures Affine(p0, h, -s) == m - u * s
    ensures Affine(p0, h, 0.0) == m
    ensures Affine(p0, h, s) == m + u * s
  {
    assert h * (-s + 1.0) == 2.0 * (u - u * s);
    assert h * (s + 1.0) == 2.0 * (u + u * s);
  }

  /** The three-point combination of a cubic at `m` and `m ± u·s`. */
  lemma RuleOnCubic(s: real, a: real, b: real, c: real, d: real, m: real, u: real, f: real -> real)
    requires IsRoot(s)
    requires forall x :: f(x) == Cubic(a, b, c, d, x)
    ensures Three(f, m - u * s, m, m + u * s) == 2.0 * Cubic(a, b, c, d, m) + 2.0 / 3.0 * (u * u) * (3.0 * a * m + b)
  {
    var t := u * s;
    CubicPair(a, b, c, d, m, t);
    TSquared(s, u);
    RuleCubic(Cubic(a, b, c, d, m), 3.0 * a * m + b, t * t, u * u, Cubic(a, b, c, d, m - t), Cubic(a, b, c, d, m + t));
  }

  /** On any interval the rule integrates every cubic exactly. */
  lemma ExactCubic(s: real, a: real, b: real, c: real, d: real, p0: real, p1: real, f: real -> real)
    requires IsRoot(s)
    requires forall x :: f(x) == Cubic(a, b, c, d, x)
    ensures Integral1(Rule1D(s), p0, p1, f) == CubicPrimitive(a, b, c, d, p1) - CubicPrimitive(a, b, c, d, p0)
  {
    var h := p1 - p0;
    var u := h / 2.0;
    var m := p0 + u;
    Integral1Rule(s, p0, p1, f);
    NodesLand(s, p0, h, u, m);
    RuleOnCubic(s, a, b, c, d, m, u, f);
    ScaleByHalf(Cubic(a, b, c, d, m), 3.0 * a * m + b, u, h);
    CubicArea(a, b, c, d, m, u, p0, p1);
  }

  lemma TSquared(s: real, u: real)
    requires IsRoot(s)
    ensures (u * s) * (u * s) == (u * u) * (3.0 / 5.0)
  {
    assert (u * s) * (u * s) == (u * u) * (s * s);
  }

  lemma RuleCubic(fm: real, k: real, t2: real, u2: real, lo: real, hi: real)
    requires t2 == u2 * (3.0 / 5.0)
    requires hi + lo == 2.0 * fm + 2.0 * t2 * k
    ensures 5.0 / 9.0 * lo + 8.0 / 9.0 * fm + 5.0 / 9.0 * hi == 2.0 * fm + 2.0 / 3.0 * u2 * k
  {
  }

  lemma ScaleByHalf(fm: real, k: real, u: real, h: real)
    requires h == 2.0 * u
    ensures (2.0 * fm + 2.0 / 3.0 * (u * u) * k) * h / 2.0 == 2.0 * u * fm + 2.0 / 3.0 * (u * u * u) * k
  {
  }

  // ---------------------------------------------------------------------
  // The documented examples
  // ---------------------------------------------------------------------

  /** `x³ + 2x + 1` over `[-1, 1]` gives 2. */
  lemma ExampleCubicTemplate(s: real)
    requires IsRoot(s)
    ensures Integral1(Rule1D(s), -1.0, 1.0, (x: real) => x * x * x + 2.0 * x + 1.0) == 2.0
  {
    ExactCubic(s, 1.0, 0.0, 2.0, 1.0, -1.0, 1.0, (x: real) => x * x * x + 2.0 * x + 1.0);
  }

  /** `0.1x² - 2x - 10` over `[-10, 20]` gives -300. */
  lemma ExampleQuadratic(s: real)
    requires IsRoot(s)
    ensures Integral1(Rule1D(s), -10.0, 20.0, (x: real) => 0.1 * x * x - 2.0 * x - 10.0) == -300.0
  {
    ExactCubic(s, 0.0, 0.1, -2.0, -10.0, -10.0, 20.0, (x: real) => 0.1 * x * x - 2.0 * x - 10.0);
  }

  /** The integrand of the 2D examples, `x²y² + x + y`. */
  function Example2D(q: Pair): real { q.x * q.x * q.y * q.y + q.x + q.y }

  /** Its exact integral over `[-r, r]²`: the `x + y` part vanishes and `x²y²` gives `(2r³/3)²`. */
  function ExampleExact(r: real): real { (2.0 / 3.0 * (r * r * r)) * (2.0 / 3.0 * (r * r * r)) }

  /** On the grid `{-a, 0, a}²` the odd part `x + y` cancels and only the corners of `x²y²` remain. */
  lemma ExampleNine(a: real)
    ensures Nine(Example2D, -a, 0.0, a, -a, 0.0, a) == 100.0 / 81.0 * ((a * a) * (a * a))
  {
    assert (-a) * (-a) == a * a;
  }

  /** On the square `[-r, r]²` the mapped nodes are `-a`, `0` and `a` on both axes, where `a = r·s`. */
  lemma SquareNodes(s: real, r: real, a: real, p0: Pair, p1: Pair)
    requires a == r * s && p0 == Pair(-r, -r) && p1 == Pair(r, r)
    ensures Affine(p0.x, p1.x - p0.x, -s) == -a && Affine(p0.x, p1.x - p0.x, 0.0) == 0.0 && Affine(p0.x, p1.x - p0.x, s) == a
    ensures Affine(p0.y, p1.y - p0.y, -s) == -a && Affine(p0.y, p1.y - p0.y, 0.0) == 0.0 && Affine(p0.y, p1.y - p0.y, s) == a
  {
  }

  /** The 2D rule on the square `[-r, r]²`. */
  lemma SquareRule(s: real, r: real, a: real, f: Pair -> real)
    requires a == r * s
    ensures Integral2(Tensor(Rule1D(s)), Pair(-r, -r), Pair(r, r), f)
      == Jacobian2(Nine(f, -a, 0.0, a, -a, 0.0, a), Pair(-r, -r), Pair(r, r))
  {
    Integral2Rule(s, Pair(-r, -r), Pair(r, r), f);
    SquareNodes(s, r, a, Pair(-r, -r), Pair(r, r));
  }

  /** Scaling the nine-point value `100/81 · a⁴` of the example by `hx · hy / 4 = r²`, with `a = r·s` and `s² = 3/5`. */
  lemma ExampleScale(n: real, s: real, r: real, a: real)
    requires IsRoot(s) && a == r * s
    requires n == 100.0 / 81.0 * ((a * a) * (a * a))
    ensures Jacobian2(n, Pair(-r, -r), Pair(r, r)) == ExampleExact(r)
  {
    assert (a * a) * (a * a) == ((r * r) * (r * r)) * ((s * s) * (s * s));
  }

  /** `x²y² + x + y` over the square `[-r, r]²` is integrated exactly. */
  lemma SquareExample(s: real, r: real)
    requires IsRoot(s)
    ensures Integral2(Tensor(Rule1D(s)), Pair(-r, -r), Pair(r, r), Example2D) == ExampleExact(r)
  {
    var a := r * s;
    SquareRule(s, r, a, Example2D);
    ExampleNine(a);
    ExampleScale(Nine(Example2D, -a, 0.0, a, -a, 0.0, a), s, r, a);
  }

  /** The two square examples: `4/9` on `[-1, 1]²` and `444444 + 4/9` on `[-10, 10]²`. */
  lemma ExampleSquares(s: real)
    requires IsRoot(s)
    ensures Integral2(Tensor(Rule1D(s)), Pair(-1.0, -1.0), Pair(1.0, 1.0), Example2D) == 4.0 / 9.0
    ensures Integral2(Tensor(Rule1D(s)), Pair(-10.0, -10.0), Pair(10.0, 10.0), Example2D)
      == 444444.0 + 4.0 / 9.0
  {
    SquareExample(s, 1.0);
    SquareExample(s, 10.0);
  }
}
