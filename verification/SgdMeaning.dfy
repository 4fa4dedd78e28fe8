/** What the trainer's numbers mean, spelled out: one step moves the model down the
    gradient of its four samples, and the loss and checkpoints are what they say. */
module SgdMeaning {
  import opened Mixing
  import opened Prelude
  import opened SgdSpec

  /** Prediction less label for sample `i`. */
  function Residual(p: Problem, m: Model, i: nat): real
    requires i < |p.xs| && i < |p.ys| && |p.xs[i]| >= |m.w|
  {
    p.sigmoid(Mix(m.w, p.xs[i][..|m.w|]) + m.b) - p.ys[i]
  }

  lemma {:induction false} DotIsMix(w: seq<real>, x: seq<real>, k: nat)
    requires k <= |w| && k <= |x|
    ensures Dot(w, x, k) == Mix(w[..k], x[..k])
  {
    if k > 0 {
      DotIsMix(w, x, k - 1);
      assert w[..k][..k - 1] == w[..k - 1] && x[..k][..k - 1] == x[..k - 1];
    }
  }

  lemma ErrIsResidual(p: Problem, m: Model, i: nat)
    requires Loaded(p) && Fits(p, m) && i < |p.xs|
    ensures Err(p, m, i) == Residual(p, m, i)
    ensures Guess(p, m, i) == p.sigmoid(Mix(m.w, p.xs[i][..|m.w|]) + m.b)
  {
    var k := |m.w|;
    assert Min(|m.w|, |p.xs[i]|) == k;
    DotIsMix(m.w, p.xs[i], k);
    assert m.w[..k] == m.w;
  }

  /** Residual times coordinate `d`, for the sample drawn `k`th in this step. */
  function Pull(p: Problem, m: Model, step: nat, k: nat, d: nat): real
    requires step >= 1 && Loaded(p) && Fits(p, m) && k < 4 && d < |p.xs[0]|
  {
    var i := Batch(step, |p.xs|)[k];
    Residual(p, m, i) * p.xs[i][d]
  }

  function BiasPull(p: Problem, m: Model, step: nat, k: nat): real
    requires step >= 1 && Loaded(p) && Fits(p, m) && k < 4
  {
    Residual(p, m, Batch(step, |p.xs|)[k])
  }

  /** The gradient of the summed cross-entropy of the step's four samples. */
  function SlopeW(p: Problem, m: Model, step: nat, d: nat): real
    requires step >= 1 && Loaded(p) && Fits(p, m) && d < |p.xs[0]|
  {
    Pull(p, m, step, 0, d) + Pull(p, m, step, 1, d) + Pull(p, m, step, 2, d) + Pull(p, m, step, 3, d)
  }

  function SlopeB(p: Problem, m: Model, step: nat): real
    requires step >= 1 && Loaded(p) && Fits(p, m)
  {
    BiasPull(p, m, step, 0) + BiasPull(p, m, step, 1) + BiasPull(p, m, step, 2) + BiasPull(p, m, step, 3)
  }

  lemma GradWOfFour(p: Problem, m: Model, idx: seq<nat>, d: nat)
    requires |p.xs| == |p.ys| && |idx| == 4 && forall i :: 0 <= i < |idx| ==> idx[i] < |p.xs| && d < |p.xs[idx[i]]|
    ensures GradW(p, m, idx, d) == Err(p, m, idx[0]) * p.xs[idx[0]][d] + Err(p, m, idx[1]) * p.xs[idx[1]][d]
                                 + Err(p, m, idx[2]) * p.xs[idx[2]][d] + Err(p, m, idx[3]) * p.xs[idx[3]][d]
  {
    hide Err;
    assert idx[..3][..2] == idx[..2] && idx[..2][..1] == idx[..1] && idx[..1][..0] == [];
    assert GradW(p, m, idx[..1], d) == Err(p, m, idx[0]) * p.xs[idx[0]][d];
    assert GradW(p, m, idx[..2], d) == GradW(p, m, idx[..1], d) + Err(p, m, idx[1]) * p.xs[idx[1]][d];
    assert GradW(p, m, idx[..3], d) == GradW(p, m, idx[..2], d) + Err(p, m, idx[2]) * p.xs[idx[2]][d];
  }

  lemma GradBOfFour(p: Problem, m: Model, idx: seq<nat>)
    requires |p.xs| == |p.ys| && |idx| == 4 && forall i :: 0 <= i < |idx| ==> idx[i] < |p.xs|
    ensures GradB(p, m, idx) == Err(p, m, idx[0]) + Err(p, m, idx[1]) + Err(p, m, idx[2]) + Err(p, m, idx[3])
  {
    hide Err;
    assert idx[..3][..2] == idx[..2] && idx[..2][..1] == idx[..1] && idx[..1][..0] == [];
    assert GradB(p, m, idx[..1]) == Err(p, m, idx[0]);
    assert GradB(p, m, idx[..2]) == GradB(p, m, idx[..1]) + Err(p, m, idx[1]);
  }

  lemma MovedDown(x: real, lr: real, g: real)
    ensures 4.0 * (x - Moved(x, lr, g)) == lr * g
  {
  }

  /** One step moves each weight, and the bias, against the slope of its four samples:
      four times the move is the learning rate times the summed slope. */
  lemma StepFollowsTheSlope(p: Problem, m: Model, step: nat)
    requires step >= 1 && Loaded(p) && Fits(p, m)
    ensures |Next(p, m, step).w| == |m.w|
    ensures forall d :: 0 <= d < |m.w| ==> 4.0 * (m.w[d] - Next(p, m, step).w[d]) == p.lr * SlopeW(p, m, step, d)
    ensures 4.0 * (m.b - Next(p, m, step).b) == p.lr * SlopeB(p, m, step)
  {
    hide Residual, Err, GradW, GradB, Batch, Moved;
    var idx := Batch(step, |p.xs|);
    forall k | 0 <= k < 4 ensures Err(p, m, idx[k]) == Residual(p, m, idx[k]) {
      ErrIsResidual(p, m, idx[k]);
    }
    forall d | 0 <= d < |m.w| ensures 4.0 * (m.w[d] - Next(p, m, step).w[d]) == p.lr * SlopeW(p, m, step, d) {
      GradWOfFour(p, m, idx, d);
      MovedDown(m.w[d], p.lr, GradW(p, m, idx, d));
    }
    GradBOfFour(p, m, idx);
    MovedDown(m.b, p.lr, GradB(p, m, idx));
  }

  /** What the step changes, times the slope, over the first `k` coordinates. */
  ghost function Climb(p: Problem, m: Model, step: nat, k: nat): real
    requires step >= 1 && Loaded(p) && Fits(p, m) && k <= |m.w|
  {
    if k == 0 then 0.0 else Climb(p, m, step, k - 1) + (Next(p, m, step).w[k - 1] - m.w[k - 1]) * SlopeW(p, m, step, k - 1)
  }

  lemma AgainstTheSlope(x: real, y: real, lr: real, g: real)
    requires lr >= 0.0 && 4.0 * (x - y) == lr * g
    ensures (y - x) * g <= 0.0
  {
    SquareIsNonNegative(g);
    assert 4.0 * ((y - x) * g) == -(lr * (g * g)) by {
      assert 4.0 * (y - x) == -(lr * g);
      TimesBoth(4.0 * (y - x), -(lr * g), g);
    }
    assert lr * (g * g) >= 0.0;
  }

  lemma TimesBoth(a: real, b: real, g: real)
    requires a == b
    ensures a * g == b * g
  {
  }

  /** With a learning rate that is not negative no step ever points uphill. */
  lemma {:induction false} NeverUphill(p: Problem, m: Model, step: nat, k: nat)
    requires step >= 1 && Loaded(p) && Fits(p, m) && k <= |m.w| && p.lr >= 0.0
    ensures Climb(p, m, step, k) <= 0.0
    ensures (Next(p, m, step).b - m.b) * SlopeB(p, m, step) <= 0.0
  {
    hide SlopeW, SlopeB, Next;
    StepFollowsTheSlope(p, m, step);
    AgainstTheSlope(m.b, Next(p, m, step).b, p.lr, SlopeB(p, m, step));
    if k > 0 {
      NeverUphill(p, m, step, k - 1);
      AgainstTheSlope(m.w[k - 1], Next(p, m, step).w[k - 1], p.lr, SlopeW(p, m, step, k - 1));
    }
  }

  /** A fresh run starts from zeros and takes its steps one by one from step 1. */
  lemma RunsStartFromZero(p: Problem, k: nat)
    requires Loaded(p)
    ensures Trajectory(p, 0).b == 0.0 && |Trajectory(p, 0).w| == |p.xs[0]| && forall d :: 0 <= d < |p.xs[0]| ==> Trajectory(p, 0).w[d] == 0.0
    ensures Trajectory(p, k + 1) == Next(p, Trajectory(p, k), k + 1)
  {
    hide Next;
  }

  // -------------------------------------------------------------- the loss

  function SampleLoss(p: Problem, m: Model, i: nat): real
    requires i < |p.xs| && i < |p.ys| && |p.xs[i]| >= |m.w|
  {
    var q := p.sigmoid(Mix(m.w, p.xs[i][..|m.w|]) + m.b);
    var kept := if q < 0.000000000001 then 0.000000000001 else if q > 0.999999999999 then 0.999999999999 else q;
    -(p.ys[i] * p.log(kept)) - (1.0 - p.ys[i]) * p.log(1.0 - kept)
  }

  ghost function SampleLosses(p: Problem, m: Model, k: nat): (r: seq<real>)
    requires Loaded(p) && Fits(p, m) && k <= |p.xs|
    ensures |r| == k && forall i :: 0 <= i < k ==> r[i] == SampleLoss(p, m, i)
  {
    seq(k, i requires 0 <= i < k => SampleLoss(p, m, i))
  }

  lemma CrossEntropyIs(p: Problem, m: Model, i: nat)
    requires Loaded(p) && Fits(p, m) && i < |p.xs|
    ensures CrossEntropy(p.log, p.ys[i], Clamp(Guess(p, m, i))) == SampleLoss(p, m, i)
  {
    ErrIsResidual(p, m, i);
    hide Guess;
  }

  lemma {:induction false} LossIsSum(p: Problem, m: Model, k: nat)
    requires Loaded(p) && Fits(p, m) && k <= |p.xs|
    ensures LossSum(p, m, k) == Sum(SampleLosses(p, m, k))
  {
    hide SampleLoss, CrossEntropy, Clamp, Guess;
    if k > 0 {
      LossIsSum(p, m, k - 1);
      CrossEntropyIs(p, m, k - 1);
      assert SampleLosses(p, m, k)[..k - 1] == SampleLosses(p, m, k - 1);
    }
  }

  lemma MeanTimes(a: real, n: real)
    requires n > 0.0
    ensures a / n * n == a
  {
  }

  /** The loss reported is the mean over the samples of the cross-entropy of the clamped
      prediction. */
  lemma LossIsTheMean(p: Problem, m: Model)
    requires Loaded(p) && Fits(p, m)
    ensures MeanLoss(p, m) * |p.xs| as real == Sum(SampleLosses(p, m, |p.xs|))
  {
    LossIsSum(p, m, |p.xs|);
    MeanTimes(LossSum(p, m, |p.xs|), |p.xs| as real);
    hide LossSum, SampleLosses;
  }

  // ------------------------------------------------------- the checkpoints

  /** Step `step`'s checkpoint is due in an attempt that starts after `start`. */
  predicate DueIn(s: Schedule, start: nat, upto: nat, step: nat)
    requires s.every != 0
  {
    start < step <= upto && step < s.steps && step % s.every == 0
  }

  /** The attempt's model after some step. */
  ghost function ModelAt(p: Problem, resume: Option<Checkpoint>, step: nat): Model
    requires Resumable(p, resume)
  {
    match resume
    case None => Advance(p, Fresh(p), 0, step)
    case Some(c) => Advance(p, c.model, c.step, step)
  }

  function StartOf(resume: Option<Checkpoint>): nat {
    match resume case None => 0 case Some(c) => c.step
  }

  ghost predicate AreTheDue(files: seq<Checkpoint>, p: Problem, s: Schedule, resume: Option<Checkpoint>, upto: nat)
    requires Resumable(p, resume) && s.every != 0
  {
    && (forall step: nat :: DueIn(s, StartOf(resume), upto, step) ==> Checkpoint(step, ModelAt(p, resume, step)) in files)
    && (forall c :: c in files ==> DueIn(s, StartOf(resume), upto, c.step) && c.model == ModelAt(p, resume, c.step))
    && (forall i, j :: 0 <= i < j < |files| ==> files[i].step < files[j].step)
  }

  lemma OneMoreDue(files: seq<Checkpoint>, p: Problem, s: Schedule, resume: Option<Checkpoint>, upto: nat)
    requires Resumable(p, resume) && s.every != 0 && upto > StartOf(resume) && AreTheDue(files, p, s, resume, upto - 1)
    ensures var now := files + if upto < s.steps && upto % s.every == 0 then [Checkpoint(upto, ModelAt(p, resume, upto))] else [];
            AreTheDue(now, p, s, resume, upto)
  {
    hide ModelAt;
    var now := files + if upto < s.steps && upto % s.every == 0 then [Checkpoint(upto, ModelAt(p, resume, upto))] else [];
    forall step: nat | DueIn(s, StartOf(resume), upto, step) ensures Checkpoint(step, ModelAt(p, resume, step)) in now {
      if step < upto { assert DueIn(s, StartOf(resume), upto - 1, step); } else { assert now[|files|].step == upto; }
    }
    forall i | 0 <= i < |files| ensures files[i].step < upto {
      assert files[i] in files;
    }
  }

  /** The files of an attempt are the checkpoints at the multiples of the interval after
      its start and before the last step, each the model then, in ascending order. */
  lemma {:induction false} FilesAreTheDueOnes(p: Problem, s: Schedule, resume: Option<Checkpoint>, upto: nat)
    requires Resumable(p, resume) && s.every != 0
    ensures AreTheDue(Files(p, s, resume, upto), p, s, resume, upto)
  {
    hide Advance;
    if upto > StartStep(resume) {
      FilesAreTheDueOnes(p, s, resume, upto - 1);
      OneMoreDue(Files(p, s, resume, upto - 1), p, s, resume, upto);
      hide AreTheDue;
    }
  }

  /** An attempt dies of its own hook exactly when it starts fresh with a hook no later
      than the last step, at the first step that has reached it. */
  lemma HookKillsWhen(s: Schedule, resume: Option<Checkpoint>)
    ensures KillStep(s, resume).Some? <==> resume.None? && s.steps >= 1 && s.killAt.Some? && s.killAt.value <= s.steps
    ensures var k := KillStep(s, resume); k.Some? ==>
              1 <= k.value <= s.steps && k.value >= s.killAt.value && (k.value == 1 || k.value - 1 < s.killAt.value)
  {
  }

  /** An attempt that its hook does not kill reports the model after the last step, with its
      loss, where it started and whether it resumed, and leaves every checkpoint due; one
      that is killed leaves those due up to then. */
  lemma AttemptReports(p: Problem, s: Schedule, resume: Option<Checkpoint>)
    requires Resumable(p, resume) && s.every != 0
    ensures var (outcome, files) := Attempted(p, s, resume);
            match KillStep(s, resume)
            case Some(k) => outcome == Killed(k) && AreTheDue(files, p, s, resume, k)
            case None =>
              && outcome.Finished? && outcome.start == StartOf(resume) && (outcome.resumed <==> resume.Some?)
              && outcome.metrics.model == ModelAt(p, resume, s.steps) && outcome.metrics.loss == MeanLoss(p, ModelAt(p, resume, s.steps))
              && AreTheDue(files, p, s, resume, s.steps)
  {
    hide Advance, MeanLoss, Files, AreTheDue, KillStep;
    match KillStep(s, resume)
    case Some(k) => FilesAreTheDueOnes(p, s, resume, k);
    case None => FilesAreTheDueOnes(p, s, resume, s.steps);
  }

  /** The same of any outcome and files of an attempt. */
  lemma AttemptMeans(p: Problem, s: Schedule, resume: Option<Checkpoint>, outcome: Outcome, files: seq<Checkpoint>)
    requires Resumable(p, resume) && s.every != 0 && (outcome, files) == Attempted(p, s, resume)
    ensures outcome.Killed? <==> resume.None? && s.steps >= 1 && s.killAt.Some? && s.killAt.value <= s.steps
    ensures AreTheDue(files, p, s, resume, if outcome.Killed? then outcome.step else s.steps)
    ensures outcome.Finished? ==>
              outcome.metrics.model == ModelAt(p, resume, s.steps) && outcome.start == StartOf(resume) && (outcome.resumed <==> resume.Some?)
  {
    AttemptReports(p, s, resume);
    HookKillsWhen(s, resume);
    hide Attempted, AreTheDue, ModelAt, KillStep;
  }
}
