/** The trainer as a function: step-indexed batches, one gradient step, checkpoints. */
module SgdSpec {
  import opened Prelude

  const BATCH := 4

  datatype Model = Model(w: seq<real>, b: real)

  datatype Checkpoint = Checkpoint(step: nat, model: Model)

  /** The dataset, the learning rate, the logistic function and the logarithm. */
  datatype Problem = Problem(xs: seq<seq<real>>, ys: seq<real>, lr: real, sigmoid: real -> real, log: real -> real) {
    function Dims(): nat
      requires |xs| > 0
    {
      |xs[0]|
    }
  }

  /** A dataset the trainer can use: labelled, not empty, every row as wide as the first. */
  ghost predicate Loaded(p: Problem) {
    && |p.xs| == |p.ys| > 0
    && forall i :: 0 <= i < |p.xs| ==> |p.xs[i]| >= |p.xs[0]|
  }

  predicate Fits(p: Problem, m: Model)
    requires |p.xs| > 0
  {
    |m.w| == p.Dims()
  }

  function Fresh(p: Problem): Model
    requires |p.xs| > 0
  {
    Model(seq(p.Dims(), _ => 0.0), 0.0)
  }

  /** The samples of a step's batch, by index. */
  function Batch(step: nat, n: nat): (idx: seq<nat>)
    requires step >= 1 && n > 0
    ensures |idx| == BATCH && forall i :: 0 <= i < BATCH ==> idx[i] < n
  {
    seq(BATCH, i requires 0 <= i < BATCH => (((step - 1) * BATCH) % n + i) % n)
  }

  function Dot(w: seq<real>, x: seq<real>, k: nat): real
    requires k <= |w| && k <= |x|
  {
    if k == 0 then 0.0 else Dot(w, x, k - 1) + w[k - 1] * x[k - 1]
  }

  /** The model's probability that sample `i` is positive. */
  function Guess(p: Problem, m: Model, i: nat): real
    requires i < |p.xs|
  {
    p.sigmoid(Dot(m.w, p.xs[i], Min(|m.w|, |p.xs[i]|)) + m.b)
  }

  function Err(p: Problem, m: Model, i: nat): real
    requires |p.xs| == |p.ys| && i < |p.xs|
  {
    Guess(p, m, i) - p.ys[i]
  }

  // ------------------------------------------------------------- the loss

  const MARGIN := 0.000000000001

  /** Kept away from 0 and 1, where the logarithm has no value. */
  function Clamp(q: real): real {
    if q < MARGIN then MARGIN else if q > 1.0 - MARGIN then 1.0 - MARGIN else q
  }

  function CrossEntropy(log: real -> real, y: real, q: real): real {
    -(y * log(q) + (1.0 - y) * log(1.0 - q))
  }

  /** Summed over the first `k` samples. */
  function LossSum(p: Problem, m: Model, k: nat): real
    requires |p.xs| == |p.ys| && k <= |p.xs|
  {
    if k == 0 then 0.0 else LossSum(p, m, k - 1) + CrossEntropy(p.log, p.ys[k - 1], Clamp(Guess(p, m, k - 1)))
  }

  function MeanLoss(p: Problem, m: Model): real
    requires |p.xs| == |p.ys| > 0
  {
    LossSum(p, m, |p.xs|) / |p.xs| as real
  }

  // --------------------------------------------------------- one step

  /** Coordinate `d` of the gradient over a batch. */
  function GradW(p: Problem, m: Model, idx: seq<nat>, d: nat): real
    requires |p.xs| == |p.ys| && forall i :: 0 <= i < |idx| ==> idx[i] < |p.xs| && d < |p.xs[idx[i]]|
  {
    if idx == [] then 0.0
    else
      var i := idx[|idx| - 1];
      GradW(p, m, idx[..|idx| - 1], d) + Err(p, m, i) * p.xs[i][d]
  }

  function GradB(p: Problem, m: Model, idx: seq<nat>): real
    requires |p.xs| == |p.ys| && forall i :: 0 <= i < |idx| ==> idx[i] < |p.xs|
  {
    if idx == [] then 0.0 else GradB(p, m, idx[..|idx| - 1]) + Err(p, m, idx[|idx| - 1])
  }

  function Moved(x: real, lr: real, g: real): real {
    x - lr * g / BATCH as real
  }

  ghost function Next(p: Problem, m: Model, step: nat): (r: Model)
    requires Loaded(p) && Fits(p, m) && step >= 1
    ensures Fits(p, r)
  {
    var idx := Batch(step, |p.xs|);
    Model(seq(p.Dims(), d requires 0 <= d < p.Dims() => Moved(m.w[d], p.lr, GradW(p, m, idx, d))), Moved(m.b, p.lr, GradB(p, m, idx)))
  }

  /** Training from `m` at step `from` through step `upto`. */
  ghost function Advance(p: Problem, m: Model, from: nat, upto: nat): (r: Model)
    requires Loaded(p) && Fits(p, m)
    ensures Fits(p, r)
    decreases upto
  {
    if upto <= from then m else Next(p, Advance(p, m, from, upto - 1), upto)
  }

  /** The model after `step` steps of one uninterrupted run. */
  ghost function Trajectory(p: Problem, step: nat): (r: Model)
    requires Loaded(p)
    ensures Fits(p, r)
  {
    Advance(p, Fresh(p), 0, step)
  }

  // ------------------------------------------------------------ one attempt

  datatype Schedule = Schedule(steps: nat, every: int, killAt: Option<int>)

  /** What an attempt that finishes reports. */
  datatype Metrics = Metrics(model: Model, loss: real)

  datatype Outcome = Finished(metrics: Metrics, start: nat, resumed: bool) | Killed(step: nat)

  function Report(p: Problem, m: Model): Metrics
    requires |p.xs| == |p.ys| > 0
  {
    Metrics(m, MeanLoss(p, m))
  }

  function StartStep(resume: Option<Checkpoint>): nat {
    if resume.Some? then resume.value.step else 0
  }

  ghost function StartModel(p: Problem, resume: Option<Checkpoint>): Model
    requires Loaded(p)
  {
    if resume.Some? then resume.value.model else Fresh(p)
  }

  ghost predicate Resumable(p: Problem, resume: Option<Checkpoint>) {
    Loaded(p) && (resume.Some? ==> Fits(p, resume.value.model))
  }

  predicate CheckpointDue(s: Schedule, step: nat)
    requires s.every != 0
  {
    step % s.every == 0 && step < s.steps
  }

  /** The checkpoint files written through step `upto`. */
  ghost function Files(p: Problem, s: Schedule, resume: Option<Checkpoint>, upto: nat): seq<Checkpoint>
    requires Resumable(p, resume) && s.every != 0
    decreases upto
  {
    if upto <= StartStep(resume) then []
    else
      Files(p, s, resume, upto - 1) +
      if CheckpointDue(s, upto) then [Checkpoint(upto, Advance(p, StartModel(p, resume), StartStep(resume), upto))] else []
  }

  /** The step at which the kill hook fires: a fresh run's first step at or after it. */
  function KillStep(s: Schedule, resume: Option<Checkpoint>): Option<nat> {
    if s.killAt.Some? && resume.None? && Max(1, s.killAt.value) <= s.steps then Some(Max(1, s.killAt.value)) else None
  }

  ghost function Attempted(p: Problem, s: Schedule, resume: Option<Checkpoint>): (r: (Outcome, seq<Checkpoint>))
    requires Resumable(p, resume) && s.every != 0
  {
    match KillStep(s, resume)
    case Some(k) => (Killed(k), Files(p, s, resume, k))
    case None => (Finished(Report(p, Advance(p, StartModel(p, resume), StartStep(resume), s.steps)), StartStep(resume), resume.Some?),
                  Files(p, s, resume, s.steps))
  }
}
