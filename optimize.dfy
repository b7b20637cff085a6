/**
 * `Problem::Optimize` of src/problem.cc: up to `iter_num` rounds of
 * alternating optimisation. Each round backs the weights up, runs Ipopt on
 * the active side, switches the side, and stops early when the largest step
 * falls below `1 / (latent_dims_ * graph_size_)` (C integer division) or the
 * loss moved by less than 10.
 */
module Optimizer {
  import opened Wrappers
  import opened CMath
  import opened Vertices
  import opened Layout
  import opened Problems
  import opened Solutions

  /** Ipopt's `Solve_Succeeded` status. */
  const SolveSucceeded: int := 0

  /** The loss `Optimize` compares the first round's loss with (1e10). */
  const InitialLoss: real := 10000000000.0

  /** The loss change below which the rounds stop. */
  const LossTolerance: real := 10.0

  /**
   * What one `OptimizeTNLP` call does through the callbacks: the points it
   * evaluates the objective and gradient at, in order, the point it hands to
   * `finalize_solution`, and its status.
   */
  datatype Run = Run(status: int, evals: seq<seq<real>>, final: seq<real>)

  /**
   * The Ipopt application: `initialize(r)` is the status of `Initialize` in
   * round `r`, `solve(r, start)` the run of `OptimizeTNLP` in round `r` from
   * the starting point `start`.
   */
  datatype Ipopt = Ipopt(initialize: nat -> int, solve: (nat, seq<real>) -> Run)

  /** Why `Optimize` returned. */
  datatype Stop =
    | IterationLimit          // `iter_num` rounds ran
    | InitFailed(status: int) // `Initialize` did not succeed
    | StepTooSmall            // the largest step was below the threshold
    | LossConverged           // the loss moved by less than 10
    | ZeroDivisor             // `latent_dims_ * graph_size_` is 0: the integer division is undefined

  // ---- the step threshold ----

  function AbsInt(a: int): nat
  {
    if a < 0 then -a else a
  }

  /** C's integer division, which truncates toward zero. */
  function TruncDiv(a: int, b: int): int
    requires b != 0
  {
    var q := AbsInt(a) / AbsInt(b);
    if (a < 0) == (b < 0) then q else -q
  }

  /**
   * `1 / (latent_dims_ * graph_size_)` in C integers: none when the divisor
   * is 0, 1 or -1 for a unit divisor, and 0 for every other divisor.
   */
  function Threshold(d: nat, size: int): (r: Option<int>)
    ensures r.None? <==> d * size == 0
    ensures r.Some? ==> r.value == (if d * size == 1 then 1 else if d * size == -1 then -1 else 0)
  {
    if d * size == 0 then None else Some(TruncDiv(1, d * size))
  }

  /** A step, which is never negative, is below the threshold only when `latent_dims_ * graph_size_ == 1`. */
  lemma StepTestNeedsUnitProduct(d: nat, size: int, maxStep: real)
    requires 0.0 <= maxStep
    requires Threshold(d, size).Some? && maxStep < Threshold(d, size).value as real
    ensures d * size == 1
  {
  }

  // ---- the largest step ----

  /** The largest `|a[s] - b[s]|` over `s < t`, or 0; the running maximum of the step check. */
  function MaxDiff(a: seq<real>, b: seq<real>, t: nat): real
    requires t <= |a| && t <= |b|
  {
    if t == 0 then 0.0
    else
      var m := MaxDiff(a, b, t - 1);
      var step := Abs(a[t - 1] - b[t - 1]);
      if m < step then step else m
  }

  /** The running maximum bounds every step seen and is never negative. */
  lemma {:induction false} MaxDiffBounds(a: seq<real>, b: seq<real>, t: nat)
    requires t <= |a| && t <= |b|
    ensures 0.0 <= MaxDiff(a, b, t)
    ensures forall s :: 0 <= s < t ==> Abs(a[s] - b[s]) <= MaxDiff(a, b, t)
  {
    if t > 0 {
      MaxDiffBounds(a, b, t - 1);
    }
  }

  /** The running maximum is 0 or one of the steps. */
  lemma {:induction false} MaxDiffAttained(a: seq<real>, b: seq<real>, t: nat)
    requires t <= |a| && t <= |b|
    ensures MaxDiff(a, b, t) == 0.0 || exists s :: 0 <= s < t && MaxDiff(a, b, t) == Abs(a[s] - b[s])
  {
    if t > 0 {
      MaxDiffAttained(a, b, t - 1);
    }
  }

  /** The backup loop of `Optimize`: `last_vec` receives the packed weights. */
  method Backup(p: Problem, last: array<real>)
    requires p.WeightsSized() && last.Length == p.GetDims()
    modifies last
    ensures last[..] == p.Packed()
  {
    var d := p.latentDims;
    var ad, ps := p.adVec, p.psVec;
    ghost var packed := Pack(ad, ps);
    PackLength(ad, ps, d);
    Distribute(d, |ad|, |ps|);
    MulMono(0, |ad|, d);
    var t := 0;
    for i := 0 to |ad|
      invariant t == i * d && t <= |ad| * d
      invariant forall s :: 0 <= s < t ==> last[s] == packed[s]
    {
      BlockEnd(i, d, |ad|);
      for j := 0 to d
        invariant t == i * d + j && i * d + d <= |ad| * d
        invariant forall s :: 0 <= s < t ==> last[s] == packed[s]
      {
        PackAt(ad, ps, d, Slot(false, i, j));
        last[t] := ad[i].weights[j];
        t := t + 1;
      }
      MulSucc(i, d);
    }
    var offset := t;
    MulMono(0, |ps|, d);
    for i := 0 to |ps|
      invariant t == offset + i * d && t <= |packed|
      invariant forall s :: 0 <= s < t ==> last[s] == packed[s]
    {
      BlockEnd(i, d, |ps|);
      for j := 0 to d
        invariant t == offset + i * d + j && offset + i * d + d <= |packed|
        invariant forall s :: 0 <= s < t ==> last[s] == packed[s]
      {
        PackAt(ad, ps, d, Slot(true, i, j));
        last[t] := ps[i].weights[j];
        t := t + 1;
      }
      MulSucc(i, d);
    }
    assert last[..] == packed;
  }

  /** One more step of the running maximum. */
  lemma MaxDiffNext(a: seq<real>, b: seq<real>, t: nat, m: real, x: real, y: real)
    requires t < |a| && t < |b| && a[t] == x && b[t] == y
    requires m == MaxDiff(a, b, t)
    ensures (if m < Abs(x - y) then Abs(x - y) else m) == MaxDiff(a, b, t + 1)
  {
  }

  /** The step check of `Optimize`: the largest change of a weight since the backup. */
  method MaxStep(p: Problem, last: array<real>) returns (maxStep: real)
    requires p.WeightsSized() && last.Length == p.GetDims()
    ensures maxStep == MaxDiff(last[..], p.Packed(), last.Length)
  {
    PackLength(p.adVec, p.psVec, p.latentDims);
    MulMono(0, |p.psVec|, p.latentDims);
    maxStep := MaxStepAds(p.adVec, p.psVec, p.latentDims, last);
    maxStep := MaxStepPss(p.adVec, p.psVec, p.latentDims, last, maxStep);
  }

  /** The step check over the ad weights, the first `|ad| * d` entries of the packed vector. */
  method MaxStepAds(ad: seq<Vertex>, ps: seq<Vertex>, d: nat, last: array<real>) returns (maxStep: real)
    requires Uniform(ad, d) && Uniform(ps, d) && last.Length == |Pack(ad, ps)| == |ad| * d + |ps| * d
    requires |ad| * d <= last.Length
    ensures maxStep == MaxDiff(last[..], Pack(ad, ps), |ad| * d)
  {
    MulMono(0, |ad|, d);
    maxStep := 0.0;
    var t := 0;
    for i := 0 to |ad|
      invariant t == i * d && t <= |ad| * d
      invariant maxStep == MaxDiff(last[..], Pack(ad, ps), t)
    {
      BlockEnd(i, d, |ad|);
      PackVertex(ad, ps, d, false, ad, i);
      maxStep := MaxStepVertex(last, Pack(ad, ps), ad[i].weights, t, maxStep);
      MulSucc(i, d);
      t := t + d;
    }
  }

  /** The step check continued over the publisher weights, from the running maximum `prior`. */
  method MaxStepPss(ad: seq<Vertex>, ps: seq<Vertex>, d: nat, last: array<real>, prior: real) returns (maxStep: real)
    requires Uniform(ad, d) && Uniform(ps, d) && last.Length == |Pack(ad, ps)| == |ad| * d + |ps| * d
    requires |ad| * d <= last.Length
    requires prior == MaxDiff(last[..], Pack(ad, ps), |ad| * d)
    ensures maxStep == MaxDiff(last[..], Pack(ad, ps), last.Length)
  {
    var t := |ad| * d;
    maxStep := prior;
    for i := 0 to |ps|
      invariant t == |ad| * d + i * d && t <= last.Length
      invariant maxStep == MaxDiff(last[..], Pack(ad, ps), t)
    {
      BlockEnd(i, d, |ps|);
      PackVertex(ad, ps, d, true, ps, i);
      maxStep := MaxStepVertex(last, Pack(ad, ps), ps[i].weights, t, maxStep);
      MulSucc(i, d);
      t := t + d;
    }
  }

  /** The step check over the weights `w` of one vertex, packed from position `t0` on. */
  method MaxStepVertex(last: array<real>, ghost packed: seq<real>, w: seq<real>, t0: nat, prior: real)
    returns (maxStep: real)
    requires t0 + |w| <= last.Length == |packed|
    requires forall j :: 0 <= j < |w| ==> packed[t0 + j] == w[j]
    requires prior == MaxDiff(last[..], packed, t0)
    ensures maxStep == MaxDiff(last[..], packed, t0 + |w|)
  {
    maxStep := prior;
    for j := 0 to |w|
      invariant maxStep == MaxDiff(last[..], packed, t0 + j)
    {
      MaxDiffNext(last[..], packed, t0 + j, maxStep, last[t0 + j], w[j]);
      var step := Abs(last[t0 + j] - w[j]);
      maxStep := if maxStep < step then step else maxStep;
    }
  }

  /**
   * One `OptimizeTNLP` call as the callbacks see it: the size, the bounds and
   * the starting point are asked for, the objective and the gradient are
   * evaluated at every point of the run, and the final point is written
   * back. Only the weights and `loss_` change, and every vertex keeps its id.
   */
  method OptimizeTnlp(sol: Solution, app: Ipopt, round: nat, m: Libm) returns (status: int)
    requires sol.problem.WeightsSized() && sol.problem.EdgesInRange()
    modifies sol.problem`adVec, sol.problem`psVec, sol.problem`loss
    ensures sol.problem.WeightsSized() && sol.problem.EdgesInRange()
    ensures SameIds(sol.problem.adVec, old(sol.problem.adVec)) && SameIds(sol.problem.psVec, old(sol.problem.psVec))
  {
    var p := sol.problem;
    var ok, n, mm, nnzJacG, nnzHLag, style := sol.GetNlpInfo();
    MulMono(0, |p.adVec| + |p.psVec|, p.latentDims);
    var xl := new real[n];
    var xu := new real[n];
    ok := sol.GetBoundsInfo(n, xl, xu, mm);
    var start := new real[n];
    ok := sol.GetStartingPoint(n, true, start, false, mm, false);
    var run := app.solve(round, start[..]);
    Evaluate(sol, run.evals, n, m);
    if |run.final| == n {
      sol.FinalizeSolution(run.status, n, run.final);
    } else {
      assert SameIds(p.adVec, p.adVec) && SameIds(p.psVec, p.psVec);
    }
    status := run.status;
  }

  /** The objective and the gradient evaluated at every point of a run that has the problem's size. */
  method Evaluate(sol: Solution, evals: seq<seq<real>>, n: int, m: Libm)
    requires n == sol.problem.GetDims() && sol.problem.EdgesInRange()
    modifies sol.problem`loss
  {
    for e := 0 to |evals| {
      var x := evals[e];
      if |x| == n {
        var ok, obj := sol.EvalF(n, x, true, m);
        var grad := new real[n];
        ok := sol.EvalGradF(n, x, true, grad, m);
      }
    }
  }

  /**
   * The body of one round of `Optimize` up to the step test: the backup into
   * `last_vec`, `Initialize`, and when it succeeds `OptimizeTNLP`, the switch
   * of the active side and the largest step since the backup.
   */
  method Round(p: Problem, r: nat, last: array<real>, app: Ipopt, m: Libm) returns (status: int, maxStep: real)
    requires p.WeightsSized() && p.EdgesInRange() && last.Length == p.GetDims()
    modifies last, p`adVec, p`psVec, p`optFlag, p`loss
    ensures p.WeightsSized() && p.EdgesInRange() && p.GetDims() == old(p.GetDims())
    ensures SameIds(p.adVec, old(p.adVec)) && SameIds(p.psVec, old(p.psVec))
    ensures status == app.initialize(r)
    ensures status != SolveSucceeded ==> p.adVec == old(p.adVec) && p.psVec == old(p.psVec) && p.loss == old(p.loss)
    ensures last[..] == old(p.Packed())
    ensures p.optFlag == (old(p.optFlag) != (status == SolveSucceeded))
    ensures status == SolveSucceeded ==> maxStep == MaxDiff(last[..], p.Packed(), last.Length)
    ensures 0.0 <= maxStep
  {
    // backup
    Backup(p, last);

    // optimization
    status := app.initialize(r);
    if status != SolveSucceeded {
      assert SameIds(p.adVec, p.adVec) && SameIds(p.psVec, p.psVec);
      return status, 0.0;
    }
    var sol := new Solution(p);
    // the status of the run only selects a log message
    var solved := OptimizeTnlp(sol, app, r, m);

    // switch flag
    p.optFlag := !p.optFlag;

    // check step
    maxStep := MaxStep(p, last);
    MaxDiffBounds(last[..], p.Packed(), last.Length);
  }

  /** Whether `n` is odd: after an odd number of rounds the active side is the other one. */
  predicate Odd(n: nat)
  {
    n % 2 == 1
  }

  /** One more round flips the parity. */
  lemma OddSucc(n: nat)
    ensures Odd(n + 1) == !Odd(n)
  {
  }

  /**
   * `Optimize(iter_num)`: at most `iter_num` rounds; the active side switches
   * once per completed round; a failed `Initialize` ends the call at once,
   * reporting its non-zero status as `true`; the step test can only fire
   * when `latent_dims_ * graph_size_ == 1`, because the threshold is computed
   * in integers; a zero divisor ends the call without a result. Only the
   * weights, `opt_flag_` and `loss_` change, and the graph invariant is kept.
   */
  method Optimize(p: Problem, iterNum: int, app: Ipopt, m: Libm) returns (ok: bool, stop: Stop, rounds: nat)
    requires p.Valid()
    modifies p`adVec, p`psVec, p`optFlag, p`loss
    ensures p.Valid()
    ensures rounds <= (if iterNum < 0 then 0 else iterNum)
    ensures p.optFlag == (old(p.optFlag) != Odd(rounds))
    ensures stop == IterationLimit ==> rounds == (if iterNum < 0 then 0 else iterNum)
    ensures stop.InitFailed? ==> stop.status != SolveSucceeded && rounds < iterNum
    ensures stop == StepTooSmall ==> p.latentDims * p.graphSize == 1
    ensures stop == ZeroDivisor ==> p.latentDims * p.graphSize == 0 && 0 < rounds
    ensures ok <==> stop != ZeroDivisor
    ensures SameIds(p.adVec, old(p.adVec)) && SameIds(p.psVec, old(p.psVec))
  {
    ghost var s0 := p.Snapshot();
    ok, stop, rounds := Rounds(p, iterNum, app, m);
    ReweightLoaded(s0, p.latentDims, p.adVec, p.psVec);
    assert p.Snapshot() == s0.(adVec := p.adVec, psVec := p.psVec);
  }

  /** The loop of `Optimize`, over the part of the invariant that the rounds rely on. */
  method Rounds(p: Problem, iterNum: int, app: Ipopt, m: Libm) returns (ok: bool, stop: Stop, rounds: nat)
    requires p.WeightsSized() && p.EdgesInRange()
    modifies p`adVec, p`psVec, p`optFlag, p`loss
    ensures p.WeightsSized() && p.EdgesInRange()
    ensures rounds <= (if iterNum < 0 then 0 else iterNum)
    ensures p.optFlag == (old(p.optFlag) != Odd(rounds))
    ensures stop == IterationLimit ==> rounds == (if iterNum < 0 then 0 else iterNum)
    ensures stop.InitFailed? ==> stop.status != SolveSucceeded && rounds < iterNum
    ensures stop == StepTooSmall ==> p.latentDims * p.graphSize == 1
    ensures stop == ZeroDivisor ==> p.latentDims * p.graphSize == 0 && 0 < rounds
    ensures ok <==> stop != ZeroDivisor
    ensures SameIds(p.adVec, old(p.adVec)) && SameIds(p.psVec, old(p.psVec))
  {
    ghost var ad0, ps0, flag0 := p.adVec, p.psVec, p.optFlag;
    var lastLoss := InitialLoss;
    var dims := p.GetDims();
    MulMono(0, |p.adVec| + |p.psVec|, p.latentDims);
    var last := new real[dims];
    rounds := 0;
    ok, stop := true, IterationLimit;
    var r := 0;
    while r < iterNum
      invariant 0 <= r && rounds == r && r <= (if iterNum < 0 then 0 else iterNum)
      invariant p.WeightsSized() && p.EdgesInRange() && p.GetDims() == dims
      invariant SameIds(p.adVec, ad0) && SameIds(p.psVec, ps0)
      invariant p.optFlag == (flag0 != Odd(rounds))
      decreases iterNum - r
    {
      var status, maxStep := Round(p, r, last, app, m);
      if status != SolveSucceeded {
        ok, stop := status != 0, InitFailed(status);
        break;
      }
      OddSucc(rounds);
      rounds := rounds + 1;

      // check step
      var threshold := Threshold(p.latentDims, p.graphSize);
      if threshold.None? {
        ok, stop := false, ZeroDivisor;
        break;
      }
      if maxStep < threshold.value as real {
        StepTestNeedsUnitProduct(p.latentDims, p.graphSize, maxStep);
        stop := StepTooSmall;
        break;
      }

      // loss too small
      if Abs(p.loss - lastLoss) < LossTolerance {
        stop := LossConverged;
        break;
      }
      lastLoss := p.loss;
      r := r + 1;
    }
  }
}
