/** The trainer's loops, and the fairness of its batches. */
module SgdTrainer {
  import opened Prelude
  import opened SgdMeaning
  import opened SgdSpec

  method Accumulate(gw: seq<real>, err: real, x: seq<real>) returns (r: seq<real>)
    requires |x| >= |gw|
    ensures |r| == |gw| && forall d :: 0 <= d < |gw| ==> r[d] == gw[d] + err * x[d]
  {
    r := gw;
    for d := 0 to |gw|
      invariant |r| == |gw|
      invariant forall e :: 0 <= e < d ==> r[e] == gw[e] + err * x[e]
      invariant forall e :: d <= e < |gw| ==> r[e] == gw[e]
    {
      r := r[d := r[d] + err * x[d]];
    }
  }

  lemma GradStep(p: Problem, m: Model, idx: seq<nat>, k: nat, d: nat)
    requires Loaded(p) && k < |idx| && d < p.Dims() && forall i :: 0 <= i < |idx| ==> idx[i] < |p.xs|
    ensures GradW(p, m, idx[..k + 1], d) == GradW(p, m, idx[..k], d) + Err(p, m, idx[k]) * p.xs[idx[k]][d]
  {
    assert idx[..k + 1][..k] == idx[..k];
  }

  method Gradient(p: Problem, m: Model, idx: seq<nat>) returns (gw: seq<real>, gb: real)
    requires Loaded(p) && Fits(p, m) && forall i :: 0 <= i < |idx| ==> idx[i] < |p.xs|
    ensures |gw| == p.Dims() && forall d :: 0 <= d < |gw| ==> gw[d] == GradW(p, m, idx, d)
    ensures gb == GradB(p, m, idx)
  {
    gw, gb := seq(p.Dims(), _ => 0.0), 0.0;
    var k := 0;
    while k < |idx|
      invariant k <= |idx| && |gw| == p.Dims() && gb == GradB(p, m, idx[..k])
      invariant forall d :: 0 <= d < |gw| ==> gw[d] == GradW(p, m, idx[..k], d)
    {
      hide Err, Dot, Guess;
      var i := idx[k];
      assert idx[..k + 1][..k] == idx[..k];
      var err := Err(p, m, i);
      var next := Accumulate(gw, err, p.xs[i]);
      forall d | 0 <= d < |gw| ensures next[d] == GradW(p, m, idx[..k + 1], d) {
        GradStep(p, m, idx, k, d);
      }
      gw := next;
      gb := gb + err;
      k := k + 1;
    }
    assert idx[..k] == idx;
  }

  method Descend(w: seq<real>, lr: real, gw: seq<real>) returns (r: seq<real>)
    requires |gw| == |w|
    ensures |r| == |w| && forall d :: 0 <= d < |w| ==> r[d] == Moved(w[d], lr, gw[d])
  {
    r := w;
    for d := 0 to |w|
      invariant |r| == |w|
      invariant forall e :: 0 <= e < d ==> r[e] == Moved(w[e], lr, gw[e])
      invariant forall e :: d <= e < |w| ==> r[e] == w[e]
    {
      r := r[d := Moved(r[d], lr, gw[d])];
    }
  }

  method Step(p: Problem, m: Model, step: nat) returns (r: Model)
    requires Loaded(p) && Fits(p, m) && step >= 1
    ensures r == Next(p, m, step)
    ensures |r.w| == |m.w| && forall d :: 0 <= d < |m.w| ==> 4.0 * (m.w[d] - r.w[d]) == p.lr * SlopeW(p, m, step, d)
    ensures 4.0 * (m.b - r.b) == p.lr * SlopeB(p, m, step)
  {
    var n := |p.xs|;
    var base := ((step - 1) * BATCH) % n;
    var idx: seq<nat> := seq(BATCH, i requires 0 <= i < BATCH => (base + i) % n);
    assert idx == Batch(step, n);
    var gw, gb := Gradient(p, m, idx);
    hide Batch, GradW, GradB, Moved;
    var w := Descend(m.w, p.lr, gw);
    r := Model(w, Moved(m.b, p.lr, gb));
    assert w == Next(p, m, step).w;
    assert r == Next(p, m, step);
    hide *;
    StepFollowsTheSlope(p, m, step);
  }

  method Loss(p: Problem, m: Model) returns (loss: real)
    requires |p.xs| == |p.ys| > 0
    ensures loss == MeanLoss(p, m)
  {
    hide Guess, Clamp, CrossEntropy;
    var total := 0.0;
    for i := 0 to |p.xs|
      invariant total == LossSum(p, m, i)
    {
      total := total + CrossEntropy(p.log, p.ys[i], Clamp(Guess(p, m, i)));
    }
    loss := total / |p.xs| as real;
  }

  /** One attempt: from the checkpoint it is given, or fresh, to the last step or the
      kill hook, writing exactly the checkpoints that fall due on the way. */
  method RunTrainer(p: Problem, s: Schedule, resume: Option<Checkpoint>) returns (outcome: Outcome, files: seq<Checkpoint>)
    requires Resumable(p, resume) && s.every != 0
    ensures (outcome, files) == Attempted(p, s, resume)
    ensures outcome.Killed? <==> resume.None? && s.steps >= 1 && s.killAt.Some? && s.killAt.value <= s.steps
    ensures AreTheDue(files, p, s, resume, if outcome.Killed? then outcome.step else s.steps)
    ensures outcome.Finished? ==>
              outcome.metrics.model == ModelAt(p, resume, s.steps) && outcome.start == StartOf(resume) && (outcome.resumed <==> resume.Some?)
  {
    hide Next, MeanLoss, AreTheDue, ModelAt;
    var start := if resume.Some? then resume.value.step else 0;
    var model := if resume.Some? then resume.value.model else Fresh(p);
    files := [];
    var step := start;
    while step < s.steps
      invariant start <= step && (step <= s.steps || step == start)
      invariant model == Advance(p, StartModel(p, resume), start, step)
      invariant files == Files(p, s, resume, step)
      invariant KillStep(s, resume).Some? ==> step < KillStep(s, resume).value
    {
      step := step + 1;
      model := Step(p, model, step);
      if step % s.every == 0 && step < s.steps {
        files := files + [Checkpoint(step, model)];
      }
      if s.killAt.Some? && resume.None? && step >= s.killAt.value {
        assert files == Files(p, s, resume, step);
        assert (Killed(step), files) == Attempted(p, s, resume);
        hide *;
        AttemptMeans(p, s, resume, Killed(step), files);
        return Killed(step), files;
      }
    }
    NothingAfter(p, s, resume, step);
    var loss := Loss(p, model);
    outcome := Finished(Metrics(model, loss), start, resume.Some?);
    assert (outcome, files) == Attempted(p, s, resume);
    hide *;
    AttemptMeans(p, s, resume, outcome, files);
  }

  lemma NothingAfter(p: Problem, s: Schedule, resume: Option<Checkpoint>, step: nat)
    requires Resumable(p, resume) && s.every != 0 && step >= s.steps && (step == s.steps || step == StartStep(resume))
    ensures Files(p, s, resume, step) == Files(p, s, resume, s.steps)
    ensures Advance(p, StartModel(p, resume), StartStep(resume), step) == Advance(p, StartModel(p, resume), StartStep(resume), s.steps)
  {
  }

  // ------------------------------------------------------------ fair batches

  /** How often sample `j` is drawn over the `k` steps from step `a`. */
  function Draws(n: nat, a: nat, k: nat, j: nat): nat
    requires n > 0 && a >= 1
  {
    if k == 0 then 0 else Draws(n, a, k - 1, j) + multiset(Batch(a + k - 1, n))[j]
  }

  function Rest(x: nat, n: nat): (r: nat)
    requires n > 0
    ensures r < n
  {
    x % n
  }

  function IsOne(b: bool): nat { if b then 1 else 0 }

  /** How many of the `len` numbers from `lo` leave remainder `j`. */
  function Window(n: nat, lo: nat, len: nat, j: nat): nat
    requires n > 0
  {
    if len == 0 then 0 else Window(n, lo, len - 1, j) + IsOne(Rest(lo + len - 1, n) == j)
  }

  /** Reducing before adding changes nothing. */
  lemma NestedModulo(x: nat, i: nat, n: nat)
    requires n > 0
    ensures (x % n + i) % n == Rest(x + i, n)
  {
    var q, s := x / n, x % n + i;
    var q', r := s / n, s % n;
    assert x == q * n + x % n;
    assert s == q' * n + r;
    assert x + i == (q + q') * n + r;
    Remainder(q + q', r, n);
  }

  lemma AddOneRound(x: nat, n: nat)
    requires n > 0
    ensures Rest(x + n, n) == Rest(x, n)
  {
    var q, r := x / n, x % n;
    assert x + n == (q + 1) * n + r;
    Remainder(q + 1, r, n);
  }

  lemma Below(x: nat, n: nat)
    requires x < n
    ensures Rest(x, n) == x
  {
    Remainder(0, x, n);
  }

  /** The batch is four consecutive numbers, wrapped once. */
  lemma BatchIsConsecutive(step: nat, n: nat)
    requires step >= 1 && n > 0
    ensures var lo := (step - 1) * BATCH; Batch(step, n) == [Rest(lo, n), Rest(lo + 1, n), Rest(lo + 2, n), Rest(lo + 3, n)]
  {
    var lo, idx := (step - 1) * BATCH, Batch(step, n);
    forall i | 0 <= i < BATCH ensures idx[i] == Rest(lo + i, n) {
      NestedModulo(lo, i, n);
    }
    hide Rest;
  }

  lemma BatchIsWindow(step: nat, n: nat, j: nat)
    requires step >= 1 && n > 0
    ensures multiset(Batch(step, n))[j] == Window(n, (step - 1) * BATCH, BATCH, j)
  {
    hide Rest, Batch;
    var lo := (step - 1) * BATCH;
    BatchIsConsecutive(step, n);
    assert Window(n, lo, 1, j) == Window(n, lo, 0, j) + IsOne(Rest(lo, n) == j);
    assert Window(n, lo, 2, j) == Window(n, lo, 1, j) + IsOne(Rest(lo + 1, n) == j);
    assert Window(n, lo, 3, j) == Window(n, lo, 2, j) + IsOne(Rest(lo + 2, n) == j);
    assert Window(n, lo, 4, j) == Window(n, lo, 3, j) + IsOne(Rest(lo + 3, n) == j);
  }

  lemma {:induction false} WindowJoins(n: nat, lo: nat, a: nat, b: nat, j: nat)
    requires n > 0
    ensures Window(n, lo, a + b, j) == Window(n, lo, a, j) + Window(n, lo + a, b, j)
  {
    hide Rest;
    if b > 0 { WindowJoins(n, lo, a, b - 1, j); }
  }

  lemma {:induction false} DrawsAreAWindow(n: nat, a: nat, k: nat, j: nat)
    requires n > 0 && a >= 1
    ensures Draws(n, a, k, j) == Window(n, (a - 1) * BATCH, k * BATCH, j)
  {
    if k > 0 {
      DrawsAreAWindow(n, a, k - 1, j);
      BatchIsWindow(a + k - 1, n, j);
      hide Window, Batch, Rest;
      WindowJoins(n, (a - 1) * BATCH, (k - 1) * BATCH, BATCH, j);
    }
  }

  lemma {:induction false} FirstRound(n: nat, len: nat, j: nat)
    requires j < n && len <= n
    ensures Window(n, 0, len, j) == if j < len then 1 else 0
  {
    hide Rest;
    if len > 0 {
      FirstRound(n, len - 1, j);
      Below(len - 1, n);
    }
  }

  /** Any `n` consecutive numbers leave each remainder once. */
  lemma {:induction false} OneRound(n: nat, lo: nat, j: nat)
    requires j < n
    ensures Window(n, lo, n, j) == 1
  {
    hide Rest;
    if lo == 0 {
      FirstRound(n, n, j);
    } else {
      OneRound(n, lo - 1, j);
      WindowJoins(n, lo - 1, 1, n - 1, j);
      WindowJoins(n, lo, n - 1, 1, j);
      AddOneRound(lo - 1, n);
      assert Window(n, lo - 1, 0, j) == 0 && Window(n, lo + n - 1, 0, j) == 0;
      assert Window(n, lo - 1, 1, j) == Window(n, lo + n - 1, 1, j);
    }
  }

  /** Over any `n` consecutive steps, wherever they start, each of the `n` samples is
      drawn exactly `BATCH` times. */
  lemma BatchesAreFair(n: nat, a: nat, j: nat)
    requires a >= 1 && j < n
    ensures Draws(n, a, n, j) == BATCH
  {
    hide Window;
    var lo := (a - 1) * BATCH;
    DrawsAreAWindow(n, a, n, j);
    assert n * BATCH == n + (n + (n + n));
    WindowJoins(n, lo, n, n + (n + n), j);
    WindowJoins(n, lo + n, n, n + n, j);
    WindowJoins(n, lo + n + n, n, n, j);
    OneRound(n, lo, j);
    OneRound(n, lo + n, j);
    OneRound(n, lo + n + n, j);
    OneRound(n, lo + n + n + n, j);
  }
}
