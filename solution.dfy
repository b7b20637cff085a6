/**
 * The Ipopt callbacks of src/solution.cc. A `Solution` works on the problem
 * it was handed: it reports the size of the flat parameter vector, its bounds
 * and starting point, evaluates the loss and the gradient of the active side,
 * and writes the optimised weights back into the vertices.
 */
module Solutions {
  import opened CMath
  import opened Util
  import opened Vertices
  import opened Layout
  import opened Adjacency
  import opened Problems

  /** Ipopt's numbering of sparse structures; `CStyle` counts from 0. */
  datatype IndexStyle = CStyle | FortranStyle

  /** Every weight is kept within [-2, 2]. */
  const LowerBound: real := -2.0
  const UpperBound: real := 2.0

  // ---- the objective, as a reference definition ----

  /** `x[t]`; 0 outside the vector (the model only asks for positions in range). */
  function At(x: seq<real>, t: int): real
  {
    if 0 <= t < |x| then x[t] else 0.0
  }

  /** The inner product of the `len` entries of `x` from `a` and the `len` entries from `b`. */
  function Inner(x: seq<real>, a: int, b: int, len: nat): real
  {
    if len == 0 then 0.0 else Inner(x, a, b, len - 1) + At(x, a + len - 1) * At(x, b + len - 1)
  }

  /** The sum of the squares of `x[lo .. hi)`. */
  function SumSquares(x: seq<real>, lo: int, hi: int): real
    decreases hi - lo
  {
    if hi <= lo then 0.0 else SumSquares(x, lo, hi - 1) + At(x, hi - 1) * At(x, hi - 1)
  }

  /** The smallest key of a non-empty key set (`std::map` visits its keys in ascending order). */
  ghost function MinKey(keys: set<int>): (k: int)
    requires keys != {}
    ensures k in keys && forall k' :: k' in keys ==> k <= k'
  {
    NonEmpty(keys);
    var x :| x in keys;
    if keys == {x} then x
    else
      var r := MinKey(keys - {x});
      assert forall k' :: k' in keys ==> k' == x || k' in keys - {x};
      if x < r then x else r
  }

  lemma NonEmpty(keys: set<int>)
    requires keys != {}
    ensures exists k :: k in keys
  {
    if forall k :: k !in keys {
      assert false;
    }
  }

  /**
   * The log-loss of one edge whose latent vectors have inner product `dot`:
   * with `ctr = sigmod(-dot)`, clicks weigh `log(ctr)` and impressions
   * without a click weigh `-log(1 - 1/ctr)`.
   */
  function EdgeTerm(m: Libm, vc: ViewClick, dot: real): real
  {
    var click := vc.click as real;
    var noclick := vc.view as real - click;
    var ctr := Sigmod(m, -dot);
    click * m.log(ctr) - noclick * m.log(1.0 - m.div(1.0, ctr))
  }

  /** The log-loss of the edge from source `i` to target `k` at `x`. */
  function EdgeLoss(m: Libm, x: seq<real>, d: nat, offset: int, i: int, k: int, vc: ViewClick): real
  {
    EdgeTerm(m, vc, Inner(x, i * d, k * d + offset, d))
  }

  /** The edge losses of row `i` for the keys in `keys`, smallest key first. */
  ghost function RowLoss(m: Libm, x: seq<real>, d: nat, offset: int, i: int,
                         row: map<int, ViewClick>, keys: set<int>): real
    requires keys <= row.Keys
    decreases keys
  {
    if keys == {} then 0.0
    else
      var k := MinKey(keys);
      EdgeLoss(m, x, d, offset, i, k, row[k]) + RowLoss(m, x, d, offset, i, row, keys - {k})
  }

  /** The edge losses of rows `0 .. n-1`. */
  ghost function GraphLoss(m: Libm, x: seq<real>, d: nat, offset: int, g: Graph, n: nat): real
    requires n <= |g|
  {
    if n == 0 then 0.0
    else GraphLoss(m, x, d, offset, g, n - 1) + RowLoss(m, x, d, offset, n - 1, g[n - 1], g[n - 1].Keys)
  }

  /**
   * The value `eval_f` computes: the summed edge losses divided by
   * `graph_size_`, plus half of the target block's squared norm weighted by
   * `alpha` and the source block's weighted by `beta`.
   */
  ghost function Objective(m: Libm, x: seq<real>, d: nat, nAd: nat, nPs: nat, g: Graph,
                           graphSize: int, alpha: real, beta: real): real
  {
    var offset := d * nAd;
    m.div(GraphLoss(m, x, d, offset, g, |g|), graphSize as real)
      + 0.5 * (SumSquares(x, offset, offset + nPs * d) * alpha + SumSquares(x, 0, offset) * beta)
  }

  /** A squared norm is never negative. */
  lemma {:induction false} SumSquaresNonNegative(x: seq<real>, lo: int, hi: int)
    ensures 0.0 <= SumSquares(x, lo, hi)
    decreases hi - lo
  {
    if lo < hi {
      SumSquaresNonNegative(x, lo, hi - 1);
      var v := At(x, hi - 1);
      assert 0.0 <= v * v by {
        if v < 0.0 {
          assert v * v == (-v) * (-v);
        }
      }
    }
  }

  /** The squared norm of a range is the sum of the squared norms of its two parts. */
  lemma {:induction false} SumSquaresSplit(x: seq<real>, lo: int, mid: int, hi: int)
    requires lo <= mid <= hi
    ensures SumSquares(x, lo, hi) == SumSquares(x, lo, mid) + SumSquares(x, mid, hi)
    decreases hi - mid
  {
    if mid < hi {
      SumSquaresSplit(x, lo, mid, hi - 1);
    }
  }

  /** The regularisation part of the objective is never negative for non-negative weights. */
  lemma RegularisationNonNegative(x: seq<real>, d: nat, nAd: nat, nPs: nat, alpha: real, beta: real)
    requires 0.0 <= alpha && 0.0 <= beta
    ensures 0.0 <= 0.5 * (SumSquares(x, d * nAd, d * nAd + nPs * d) * alpha + SumSquares(x, 0, d * nAd) * beta)
  {
    SumSquaresNonNegative(x, d * nAd, d * nAd + nPs * d);
    SumSquaresNonNegative(x, 0, d * nAd);
  }

  // ---- the loops of the callbacks ----

  /** The inner-product loop of `eval_f` and `eval_grad_f`. */
  method Dot(x: seq<real>, a: int, b: int, d: nat) returns (dot: real)
    requires 0 <= a && a + d <= |x| && 0 <= b && b + d <= |x|
    ensures dot == Inner(x, a, b, d)
  {
    dot := 0.0;
    for j := 0 to d
      invariant dot == Inner(x, a, b, j)
    {
      dot := dot + x[a + j] * x[b + j];
    }
  }

  /** A regularisation loop of `eval_f`: the squared norm of `count` vertices of `d` weights from `lo`. */
  method SquaredNorm(x: seq<real>, lo: nat, count: nat, d: nat) returns (r: real)
    requires lo + count * d <= |x|
    ensures r == SumSquares(x, lo, lo + count * d)
  {
    r := 0.0;
    for i := 0 to count
      invariant r == SumSquares(x, lo, lo + i * d)
    {
      for j := 0 to d
        invariant r == SumSquares(x, lo, lo + i * d + j)
      {
        SlotBound(i, j, d, count);
        r := r + x[lo + i * d + j] * x[lo + i * d + j];
      }
      MulSucc(i, d);
    }
  }

  /**
   * The edge loop of `eval_f`: every row in order, every key of a row in
   * ascending order, each edge adding its log-loss. Every weight it reads
   * lies inside `x`.
   */
  method EdgeLossSum(m: Libm, x: seq<real>, d: nat, nAd: nat, nPs: nat, g: Graph) returns (loss: real)
    requires |g| <= nAd && |x| == d * (nAd + nPs)
    requires forall i, k :: 0 <= i < |g| && k in g[i] ==> 0 <= k < nPs
    ensures loss == GraphLoss(m, x, d, d * nAd, g, |g|)
  {
    loss := 0.0;
    for i := 0 to |g|
      invariant loss == GraphLoss(m, x, d, d * nAd, g, i)
    {
      var row := RowLossSum(m, x, d, nAd, nPs, i, g[i]);
      loss := loss + row;
    }
  }

  /** One row of the edge loop of `eval_f`: the keys of row `i` in ascending order. */
  method RowLossSum(m: Libm, x: seq<real>, d: nat, nAd: nat, nPs: nat, i: nat, edge: map<int, ViewClick>)
    returns (loss: real)
    requires i < nAd && |x| == d * (nAd + nPs)
    requires forall k :: k in edge ==> 0 <= k < nPs
    ensures loss == RowLoss(m, x, d, d * nAd, i, edge, edge.Keys)
  {
    var offset := d * nAd;
    loss := 0.0;
    var keys := edge.Keys;
    ghost var total := RowLoss(m, x, d, offset, i, edge, keys);
    while keys != {}
      invariant keys <= edge.Keys
      invariant loss + RowLoss(m, x, d, offset, i, edge, keys) == total
      decreases keys
    {
      ghost var least := MinKey(keys);
      var k :| k in keys && forall k' :: k' in keys ==> k <= k';
      assert k == least;
      var term := EdgeLossAt(m, x, d, nAd, nPs, i, k, edge[k]);
      loss := loss + term;
      keys := keys - {k};
    }
  }

  /** The log-loss of the edge from source `i` to target `k`, read from `x`. */
  method EdgeLossAt(m: Libm, x: seq<real>, d: nat, nAd: nat, nPs: nat, i: nat, k: int, vc: ViewClick)
    returns (term: real)
    requires i < nAd && 0 <= k < nPs && |x| == d * (nAd + nPs)
    ensures term == EdgeLoss(m, x, d, d * nAd, i, k, vc)
  {
    EdgeBlocks(d, nAd, nPs, i, k);
    var dot := Dot(x, i * d, k * d + d * nAd, d);
    term := EdgeTerm(m, vc, dot);
  }

  /** A regularisation loop of `eval_grad_f`: `grad[t] += x[t] * coef` over `count` vertices from `lo`. */
  method Regularise(grad: array<real>, x: seq<real>, lo: nat, count: nat, d: nat, coef: real)
    requires lo + count * d <= |x| <= grad.Length
    modifies grad
    ensures forall t :: lo <= t < lo + count * d ==> grad[t] == old(grad[t]) + x[t] * coef
    ensures forall t :: 0 <= t < grad.Length && !(lo <= t < lo + count * d) ==> grad[t] == old(grad[t])
  {
    for i := 0 to count
      invariant forall t :: lo <= t < lo + i * d ==> grad[t] == old(grad[t]) + x[t] * coef
      invariant forall t :: 0 <= t < grad.Length && !(lo <= t < lo + i * d) ==> grad[t] == old(grad[t])
    {
      BlockEnd(i, d, count);
      for j := 0 to d
        invariant forall t :: lo <= t < lo + i * d + j ==> grad[t] == old(grad[t]) + x[t] * coef
        invariant forall t :: 0 <= t < grad.Length && !(lo <= t < lo + i * d + j) ==> grad[t] == old(grad[t])
      {
        SlotBound(i, j, d, count);
        grad[lo + i * d + j] := grad[lo + i * d + j] + x[lo + i * d + j] * coef;
      }
      MulSucc(i, d);
    }
  }

  /** One edge's share of a gradient entry: `scale * v / graphSize`. */
  function Share(m: Libm, scale: real, v: real, gs: real): real
  {
    m.div(scale * v, gs)
  }

  /** One edge's share of the gradient: `grad[dst + j] += scale * x[src + j] / graphSize` for `j < d`. */
  method Accumulate(grad: array<real>, x: seq<real>, dst: int, src: int, d: nat, scale: real, gs: real, m: Libm)
    requires 0 <= dst && dst + d <= grad.Length && 0 <= src && src + d <= |x|
    modifies grad
    ensures forall t :: dst <= t < dst + d ==> grad[t] == old(grad[t]) + Share(m, scale, x[src + (t - dst)], gs)
    ensures forall t :: 0 <= t < grad.Length && !(dst <= t < dst + d) ==> grad[t] == old(grad[t])
  {
    for j := 0 to d
      invariant forall t :: dst <= t < dst + j ==> grad[t] == old(grad[t]) + Share(m, scale, x[src + (t - dst)], gs)
      invariant forall t :: 0 <= t < grad.Length && !(dst <= t < dst + j) ==> grad[t] == old(grad[t])
    {
      grad[dst + j] := grad[dst + j] + Share(m, scale, x[src + j], gs);
    }
  }

  /**
   * The vertex that flat position `t` of a block of `d`-weight vertices
   * starting at `base` belongs to (with `d == 0` there is no position).
   */
  function VertexOf(t: int, base: int, d: nat): int
  {
    if d == 0 then 0 else (t - base) / d
  }

  /** Every position of the block of vertex `i` belongs to `i`. */
  lemma BlockVertices(i: nat, d: nat, base: int)
    ensures forall t :: base + i * d <= t < base + i * d + d ==> VertexOf(t, base, d) == i
  {
    forall t | base + i * d <= t < base + i * d + d
      ensures VertexOf(t, base, d) == i
    {
      BlockOf(i, d, t - base);
    }
  }

  /** Source `i` has no adjacency entry. */
  predicate NoEdgesFrom(g: Graph, i: int)
  {
    !(0 <= i < |g|) || g[i] == map[]
  }

  /** No row holds an entry for target `k`. */
  predicate NoEdgesTo(g: Graph, k: int)
  {
    forall i :: 0 <= i < |g| ==> k !in g[i]
  }

  /**
   * The positions the edge loop of `eval_grad_f` may write: a source's
   * weights when `flag` is set and the source has an edge, a target's weights
   * otherwise when some edge leads to it.
   */
  predicate Touched(g: Graph, flag: bool, d: nat, offset: int, n: int, t: int)
  {
    if flag then 0 <= t < offset && !NoEdgesFrom(g, VertexOf(t, 0, d))
    else offset <= t < n && !NoEdgesTo(g, VertexOf(t, offset, d))
  }

  /** The reset loop of `eval_grad_f`. */
  method ResetGradient(grad: array<real>, n: int)
    requires 0 <= n <= grad.Length
    modifies grad
    ensures forall t :: 0 <= t < n ==> grad[t] == 0.0
    ensures forall t :: n <= t < grad.Length ==> grad[t] == old(grad[t])
  {
    for i := 0 to n
      invariant forall t :: 0 <= t < i ==> grad[t] == 0.0
      invariant forall t :: i <= t < grad.Length ==> grad[t] == old(grad[t])
    {
      grad[i] := 0.0;
    }
  }

  /**
   * The edge loop of `eval_grad_f`: every row in order, every key of a row in
   * ascending order, each edge adding its share to the active side's weights.
   * Only touched positions change.
   */
  method AddEdges(grad: array<real>, x: seq<real>, g: Graph, d: nat, nAd: nat, nPs: nat, flag: bool,
                  gs: real, m: Libm)
    requires |g| <= nAd && |x| == d * (nAd + nPs) && |x| <= grad.Length
    requires forall i, k :: 0 <= i < |g| && k in g[i] ==> 0 <= k < nPs
    modifies grad
    ensures forall t :: 0 <= t < grad.Length && !Touched(g, flag, d, nAd * d, |x|, t) ==> grad[t] == old(grad[t])
  {
    var offset := nAd * d;
    for i := 0 to |g|
      invariant forall t :: 0 <= t < grad.Length && !Touched(g, flag, d, offset, |x|, t) ==> grad[t] == old(grad[t])
    {
      var edge := g[i];
      var keys := edge.Keys;
      while keys != {}
        invariant keys <= edge.Keys
        invariant forall t :: 0 <= t < grad.Length && !Touched(g, flag, d, offset, |x|, t) ==> grad[t] == old(grad[t])
        decreases keys
      {
        ghost var least := MinKey(keys);
        var k :| k in keys && forall k' :: k' in keys ==> k <= k';
        AddEdge(grad, x, g, d, nAd, nPs, flag, gs, m, i, k);
        keys := keys - {k};
      }
    }
  }

  /** The body of the edge loop of `eval_grad_f` for the edge from `i` to `k`. */
  method AddEdge(grad: array<real>, x: seq<real>, g: Graph, d: nat, nAd: nat, nPs: nat, flag: bool,
                 gs: real, m: Libm, i: nat, k: int)
    requires |g| <= nAd && |x| == d * (nAd + nPs) && |x| <= grad.Length
    requires i < |g| && k in g[i] && 0 <= k < nPs
    modifies grad
    ensures forall t :: 0 <= t < grad.Length && !Touched(g, flag, d, nAd * d, |x|, t) ==> grad[t] == old(grad[t])
    ensures flag ==> forall t :: 0 <= t < grad.Length && !(i * d <= t < i * d + d) ==> grad[t] == old(grad[t])
    ensures !flag ==> forall t :: 0 <= t < grad.Length && !(nAd * d + k * d <= t < nAd * d + k * d + d) ==>
      grad[t] == old(grad[t])
  {
    var offset := nAd * d;
    var vc := g[i][k];
    EdgeBlocks(d, nAd, nPs, i, k);
    var a, p := i * d, k * d + offset;
    var dot := Dot(x, a, p, d);
    var ctr := m.div(1.0, Sigmod(m, -dot));
    var scale := vc.view as real * ctr - vc.click as real;
    assert !NoEdgesFrom(g, i) && !NoEdgesTo(g, k);
    if flag {
      Accumulate(grad, x, a, p, d, scale, gs, m);
      BlockVertices(i, d, 0);
    } else {
      Accumulate(grad, x, p, a, d, scale, gs, m);
      BlockVertices(k, d, offset);
    }
  }

  /** The callbacks Ipopt calls back into; `problem` is the problem handed over by `SetProblem`. */
  /**
   * One loop of `get_starting_point`: the weights of `vs` into
   * `x[offset + i * D + j]`, with `offset` 0 for the ads and the ads' count
   * times `D` for the publishers.
   */
  method PackSide(vs: seq<Vertex>, d: nat, offset: nat, x: array<real>)
    requires Uniform(vs, d) && offset + |vs| * d <= x.Length
    modifies x
    ensures |Flatten(vs)| == |vs| * d
    ensures forall t :: 0 <= t < |vs| * d ==> x[offset + t] == Flatten(vs)[t]
    ensures forall t :: 0 <= t < x.Length && !(offset <= t < offset + |vs| * d) ==> x[t] == old(x[t])
  {
    ghost var flat := Flatten(vs);
    FlattenLength(vs, d);
    for i := 0 to |vs|
      invariant i * d <= |vs| * d
      invariant forall t :: 0 <= t < i * d ==> x[offset + t] == flat[t]
      invariant forall t :: 0 <= t < x.Length && !(offset <= t < offset + |vs| * d) ==> x[t] == old(x[t])
    {
      BlockEnd(i, d, |vs|);
      for j := 0 to d
        invariant forall t :: 0 <= t < i * d + j ==> x[offset + t] == flat[t]
        invariant forall t :: 0 <= t < x.Length && !(offset <= t < offset + |vs| * d) ==> x[t] == old(x[t])
      {
        FlattenAt(vs, d, i, j);
        x[offset + i * d + j] := vs[i].weights[j];
      }
      MulSucc(i, d);
    }
  }

  class Solution {
    const problem: Problem

    /** `new Solution()` followed by `SetProblem(p)`. */
    constructor (p: Problem)
      ensures problem == p
    {
      problem := p;
    }

    /** Where the target block starts in the flat vector. */
    function Offset(): nat
      reads problem`adVec, problem`latentDims
    {
      |problem.adVec| * problem.latentDims
    }

    /** `get_nlp_info`: `GetDims()` variables, no constraint, no Hessian entries, 0-based indices. */
    method GetNlpInfo() returns (ok: bool, n: int, m: int, nnzJacG: int, nnzHLag: int, style: IndexStyle)
      ensures ok && n == problem.GetDims()
      ensures m == 0 && nnzJacG == 0 && nnzHLag == 0 && style == CStyle
    {
      n := problem.GetDims();
      m := 0;
      nnzJacG := 0;
      nnzHLag := 0;
      style := CStyle;
      ok := true;
    }

    /** `get_bounds_info`: every one of the `n` variables lies within [-2, 2]. */
    method GetBoundsInfo(n: int, xl: array<real>, xu: array<real>, m: int) returns (ok: bool)
      requires n == problem.GetDims() && m == 0
      requires n <= xl.Length && n <= xu.Length && xl != xu
      modifies xl, xu
      ensures ok
      ensures forall i :: 0 <= i < n ==> xl[i] == LowerBound && xu[i] == UpperBound
      ensures forall i :: n <= i < xl.Length ==> xl[i] == old(xl[i])
      ensures forall i :: n <= i < xu.Length ==> xu[i] == old(xu[i])
    {
      for i := 0 to n
        invariant forall i' :: 0 <= i' < i ==> xl[i'] == LowerBound && xu[i'] == UpperBound
        invariant forall i' :: i <= i' < xl.Length ==> xl[i'] == old(xl[i'])
        invariant forall i' :: i <= i' < xu.Length ==> xu[i'] == old(xu[i'])
      {
        xl[i] := LowerBound;
        xu[i] := UpperBound;
      }
      ok := true;
    }

    /**
     * `get_starting_point`: the current weights, packed sources first, are
     * the start; only the primal start is asked for.
     */
    method GetStartingPoint(n: int, initX: bool, x: array<real>, initZ: bool, m: int, initLambda: bool)
      returns (ok: bool)
      requires initX && !initZ && !initLambda
      requires problem.WeightsSized() && problem.GetDims() <= x.Length
      modifies x
      ensures ok
      ensures x[..problem.GetDims()] == problem.Packed()
      ensures x[problem.GetDims()..] == old(x[problem.GetDims()..])
    {
      var d := problem.latentDims;
      var ad, ps := problem.adVec, problem.psVec;
      ghost var packed := Pack(ad, ps);
      PackLength(ad, ps, d);
      Distribute(d, |ad|, |ps|);
      MulMono(0, |ps|, d);
      PackSide(ad, d, 0, x);
      PackSide(ps, d, |ad| * d, x);
      forall t | 0 <= t < |packed| ensures x[t] == packed[t] {
        if |ad| * d <= t {
          assert x[|ad| * d + (t - |ad| * d)] == Flatten(ps)[t - |ad| * d];
        }
      }
      assert x[..|packed|] == packed;
      ok := true;
    }

    /**
     * `eval_f`: the objective at `x`, also stored into `loss_`. Every weight
     * it reads lies inside `x`.
     */
    method EvalF(n: int, x: seq<real>, newX: bool, m: Libm) returns (ok: bool, obj: real)
      requires n == problem.GetDims() && |x| == n
      requires problem.EdgesInRange()
      modifies problem`loss
      ensures ok && problem.loss == obj
      ensures obj == Objective(m, x, problem.latentDims, |problem.adVec|, |problem.psVec|, problem.graph,
                               problem.graphSize, problem.regularAlpha, problem.regularBeta)
    {
      var d := problem.latentDims;
      var nAd, nPs := |problem.adVec|, |problem.psVec|;
      var offset := d * nAd;
      Distribute(d, nAd, nPs);
      var loss := EdgeLossSum(m, x, d, nAd, nPs, problem.graph);
      loss := m.div(loss, problem.graphSize as real);
      var lossBeta := SquaredNorm(x, 0, nAd, d);
      var lossAlpha := SquaredNorm(x, offset, nPs, d);
      loss := loss + 0.5 * (lossAlpha * problem.regularAlpha + lossBeta * problem.regularBeta);
      obj := loss;
      problem.loss := loss;
      ok := true;
    }

    /**
     * `eval_grad_f`: the first `n` entries of `grad` are reset and only the
     * active block is written: the source block when `opt_flag_` is set, the
     * target block otherwise. The inactive block stays 0, and an active vertex
     * without edges gets exactly its regularisation term `x[t] * beta` (source)
     * or `x[t] * alpha` (target). Every weight read lies inside `x`.
     */
    method EvalGradF(n: int, x: seq<real>, newX: bool, grad: array<real>, m: Libm) returns (ok: bool)
      requires n == problem.GetDims() && |x| == n && n <= grad.Length
      requires problem.EdgesInRange()
      modifies grad
      ensures ok
      ensures forall t :: n <= t < grad.Length ==> grad[t] == old(grad[t])
      ensures problem.optFlag ==> forall t :: Offset() <= t < n ==> grad[t] == 0.0
      ensures problem.optFlag ==> forall t :: 0 <= t < Offset() && NoEdgesFrom(problem.graph, VertexOf(t, 0, problem.latentDims)) ==>
        grad[t] == x[t] * problem.regularBeta
      ensures !problem.optFlag ==> forall t :: 0 <= t < Offset() ==> grad[t] == 0.0
      ensures !problem.optFlag ==> forall t :: Offset() <= t < n && NoEdgesTo(problem.graph, VertexOf(t, Offset(), problem.latentDims)) ==>
        grad[t] == x[t] * problem.regularAlpha
    {
      var d := problem.latentDims;
      var nAd, nPs := |problem.adVec|, |problem.psVec|;
      var offset := nAd * d;
      Distribute(d, nAd, nPs);

      // reset state
      ResetGradient(grad, n);

      // the regularisation part
      if problem.optFlag {
        Regularise(grad, x, 0, nAd, d, problem.regularBeta);
      } else {
        Regularise(grad, x, offset, nPs, d, problem.regularAlpha);
      }

      // the edges
      AddEdges(grad, x, problem.graph, d, nAd, nPs, problem.optFlag, problem.graphSize as real, m);
      ok := true;
    }

    /**
     * `finalize_solution`: the weights of `x` are written back, sources from
     * `x[0 ..]`, targets from `x[offset ..]`; ids are kept. Packing the new
     * weights gives `x` back when `x` has exactly `GetDims()` entries.
     */
    method FinalizeSolution(status: int, n: int, x: seq<real>)
      requires problem.WeightsSized() && problem.GetDims() <= |x|
      modifies problem`adVec, problem`psVec
      ensures problem.adVec == Unflatten(old(problem.adVec), x[..old(Offset())], problem.latentDims)
      ensures problem.psVec == Unflatten(old(problem.psVec), x[old(Offset())..old(problem.GetDims())], problem.latentDims)
      ensures SameIds(problem.adVec, old(problem.adVec)) && SameIds(problem.psVec, old(problem.psVec))
      ensures problem.WeightsSized()
      ensures |x| == problem.GetDims() ==> problem.Packed() == x
    {
      var ad', ps' := Unpack(problem.adVec, problem.psVec, x, problem.latentDims);
      problem.adVec, problem.psVec := ad', ps';
    }
  }

  /**
   * The write-back of `finalize_solution` on values: the sources take the first `|ad|*d` entries
   * of `x` and the targets the next `|ps|*d`; every vertex keeps its id and gets `d` weights, and
   * packing the result gives `x` back when `x` holds exactly those entries.
   */
  method Unpack(ad: seq<Vertex>, ps: seq<Vertex>, x: seq<real>, d: nat) returns (ad': seq<Vertex>, ps': seq<Vertex>)
    requires Uniform(ad, d) && Uniform(ps, d) && d * (|ad| + |ps|) <= |x|
    ensures ad' == Unflatten(ad, x[..|ad| * d], d)
    ensures ps' == Unflatten(ps, x[|ad| * d..d * (|ad| + |ps|)], d)
    ensures SameIds(ad', ad) && SameIds(ps', ps) && Uniform(ad', d) && Uniform(ps', d)
    ensures |x| == d * (|ad| + |ps|) ==> Pack(ad', ps') == x
  {
    Distribute(d, |ad|, |ps|);
    ad' := Reweighted(ad, x, 0, d);
    assert x[0..|ad| * d] == x[..|ad| * d];
    ps' := Reweighted(ps, x, |ad| * d, d);
    UnflattenIds(ad, x[..|ad| * d], d);
    UnflattenIds(ps, x[|ad| * d..d * (|ad| + |ps|)], d);
    if |x| == d * (|ad| + |ps|) {
      assert x[|ad| * d..] == x[|ad| * d..d * (|ad| + |ps|)];
      PackUnpack(ad, ps, x, d);
    }
  }

  /** A write-back loop of `finalize_solution`: vertex `i`'s weight `j` becomes `x[lo + i*d + j]`. */
  method Reweighted(vs: seq<Vertex>, x: seq<real>, lo: nat, d: nat) returns (r: seq<Vertex>)
    requires Uniform(vs, d) && lo + |vs| * d <= |x|
    ensures r == Unflatten(vs, x[lo..lo + |vs| * d], d)
  {
    MulMono(0, |vs|, d);
    ghost var y := x[lo..lo + |vs| * d];
    r := vs;
    for i := 0 to |vs|
      invariant |r| == |vs|
      invariant forall i' :: i <= i' < |vs| ==> r[i'] == vs[i']
      invariant forall i' :: 0 <= i' < i ==> r[i'] == Vertex(vs[i'].id, Chunk(y, i', d))
    {
      BlockEnd(i, d, |vs|);
      MulMono(0, i, d);
      var w := r[i].weights;
      for j := 0 to d
        invariant |w| == d
        invariant forall j' :: 0 <= j' < j ==> w[j'] == y[i * d + j']
      {
        w := w[j := x[lo + i * d + j]];
      }
      assert w == Chunk(y, i, d);
      r := r[i := r[i].(weights := w)];
    }
    UnflattenChunks(vs, y, d, r);
  }
}
