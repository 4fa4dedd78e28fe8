/** The local run's restart loop: each parameter set is launched until it succeeds,
    fails in a way a retry would repeat, or spends its restart budget. */
module RestartLoop {
  import opened Prelude
  import opened RecoveryPolicy

  datatype LaunchState = PENDING | RUNNING | SUCCEEDED | FAILED | CANCELLED

  /** How one launch ends: whether it was cancelled, its exit code, log, and metrics
      file if it holds a dictionary. */
  datatype Outcome = Outcome(cancelled: bool, exitCode: Option<int>, log: Log, metrics: Option<string>) {
    function State(): LaunchState {
      if cancelled then CANCELLED else if exitCode == Some(0) then SUCCEEDED else FAILED
    }
  }

  datatype AttemptId = AttemptId(task: nat, restart: nat)

  /** Fan-out trials get a checkpoint tree each; a single workload keeps one id. */
  datatype JobId = Local | Trial(task: nat)

  datatype Row = Row(id: AttemptId, job: JobId, state: LaunchState)

  datatype Event =
    | LaunchStarted(id: AttemptId)
    | FailureClassified(id: AttemptId, failure: FailureClass)
    | RecoveryActionSelected(id: AttemptId, action: Action)

  /** How launch `restart` of parameter set `task` ends, whenever it happens. */
  type Environment = (nat, nat) -> Outcome

  function Decision(o: Outcome, mode: Mode): Action {
    Decide(Classify(FromLocalLaunch(o.exitCode, o.log)), mode)
  }

  /** A failure ends its parameter set at once exactly when the exit code is a nonzero
      one and the log shows a bug. */
  lemma FailFastMeansDeterministic(o: Outcome, mode: Mode)
    ensures Decision(o, mode) == FAIL_JOB <==>
              o.exitCode.Some? && o.exitCode.value != 0 && (o.log.deterministicTerminal || (o.log.traceback && !o.log.elasticWrapper))
    ensures Classify(FromLocalLaunch(o.exitCode, o.log)) in {APPLICATION_ERROR, WORKER_CRASH, UNKNOWN}
  {
    var f := Classify(FromLocalLaunch(o.exitCode, o.log));
    assert f == if o.exitCode.Some? && o.exitCode.value != 0 then (if ShowsABug(o.log) then APPLICATION_ERROR else WORKER_CRASH) else UNKNOWN;
  }

  predicate Stops(o: Outcome, mode: Mode) {
    o.State() == SUCCEEDED || Decision(o, mode) == FAIL_JOB
  }

  /** How many launches parameter set `i` gets within `budget`. */
  function Launches(env: Environment, mode: Mode, i: nat, budget: nat): (n: nat)
    ensures n <= budget
  {
    if budget == 0 then 0
    else
      var n := Launches(env, mode, i, budget - 1);
      if n < budget - 1 || (n > 0 && Stops(env(i, n - 1), mode)) then n else n + 1
  }

  /** The launches run exactly to the first one that stops, or to the budget. */
  lemma {:induction false} LaunchesToTheFirstStop(env: Environment, mode: Mode, i: nat, budget: nat)
    ensures var n := Launches(env, mode, i, budget);
            && (forall r :: 0 <= r < n - 1 ==> !Stops(env(i, r), mode))
            && (n == budget || (n > 0 && Stops(env(i, n - 1), mode)))
            && (budget > 0 ==> n > 0)
  {
    hide Stops;
    if budget > 0 {
      LaunchesToTheFirstStop(env, mode, i, budget - 1);
    }
  }

  lemma LaunchesIs(env: Environment, mode: Mode, i: nat, budget: nat, n: nat)
    requires n <= budget && forall r :: 0 <= r < n - 1 ==> !Stops(env(i, r), mode)
    requires n == budget || (n > 0 && Stops(env(i, n - 1), mode))
    ensures n == Launches(env, mode, i, budget)
  {
    hide Stops;
    LaunchesToTheFirstStop(env, mode, i, budget);
  }

  // -------------------------------------------------------- what is recorded

  function AttemptEvents(env: Environment, mode: Mode, i: nat, r: nat): seq<Event> {
    var id, o := AttemptId(i, r), env(i, r);
    [LaunchStarted(id)] +
    if o.State() == SUCCEEDED then []
    else [FailureClassified(id, Classify(FromLocalLaunch(o.exitCode, o.log))), RecoveryActionSelected(id, Decision(o, mode))]
  }

  function SetEvents(env: Environment, mode: Mode, i: nat, n: nat): seq<Event> {
    if n == 0 then [] else SetEvents(env, mode, i, n - 1) + AttemptEvents(env, mode, i, n - 1)
  }

  function SetRows(env: Environment, i: nat, job: JobId, n: nat): seq<Row> {
    if n == 0 then [] else SetRows(env, i, job, n - 1) + [Row(AttemptId(i, n - 1), job, env(i, n - 1).State())]
  }

  /** The last metrics any launch of the set left. */
  function SetMetrics(env: Environment, i: nat, n: nat): Option<string> {
    if n == 0 then None
    else if env(i, n - 1).metrics.Some? then env(i, n - 1).metrics
    else SetMetrics(env, i, n - 1)
  }

  function FinalState(env: Environment, i: nat, n: nat): LaunchState {
    if n == 0 then FAILED else env(i, n - 1).State()
  }

  /** The last row with this id, settled. */
  function Settled(rows: seq<Row>, id: AttemptId, final: LaunchState): seq<Row> {
    if rows == [] then []
    else
      var n := |rows| - 1;
      if rows[n].id == id then rows[..n] + [rows[n].(state := final)] else Settled(rows[..n], id, final) + [rows[n]]
  }

  datatype Workload = Workload(fanout: bool, sets: nat, maxRestarts: int)

  function ModeOf(w: Workload): Mode { if w.fanout then IndependentTasks else CoordinatedTraining }
  function JobOf(w: Workload, i: nat): JobId { if w.fanout then Trial(i) else Local }
  function Budget(w: Workload): nat { Max(0, w.maxRestarts + 1) }
  function LaunchesOf(w: Workload, env: Environment, i: nat): nat { Launches(env, ModeOf(w), i, Budget(w)) }

  function AllEvents(w: Workload, env: Environment, k: nat): seq<Event> {
    if k == 0 then []
    else AllEvents(w, env, k - 1) + SetEvents(env, ModeOf(w), k - 1, LaunchesOf(w, env, k - 1))
  }

  function AllRows(w: Workload, env: Environment, k: nat): seq<Row> {
    if k == 0 then []
    else AllRows(w, env, k - 1) + SetRows(env, k - 1, JobOf(w, k - 1), LaunchesOf(w, env, k - 1))
  }

  function AllTrials(w: Workload, env: Environment, k: nat): seq<string> {
    if k == 0 then []
    else
      var m := SetMetrics(env, k - 1, LaunchesOf(w, env, k - 1));
      AllTrials(w, env, k - 1) + if m.Some? then [m.value] else []
  }

  ghost predicate AllSucceed(w: Workload, env: Environment) {
    w.sets > 0 && forall i :: 0 <= i < w.sets ==> FinalState(env, i, LaunchesOf(w, env, i)) == SUCCEEDED
  }

  // ------------------------------------------------------------ the run object

  class Run {
    var state: LaunchState
    var events: seq<Event>
    var attempts: seq<Row>
    var trials: seq<string>

    constructor ()
      ensures state == PENDING && events == [] && attempts == [] && trials == []
    {
      state, events, attempts, trials := PENDING, [], [], [];
    }

    method FinishAttempt(id: AttemptId, final: LaunchState)
      modifies this`attempts
      ensures attempts == Settled(old(attempts), id, final)
    {
      var k := |attempts|;
      assert attempts[..k] == attempts;
      while k > 0
        invariant 0 <= k <= |attempts| && attempts == old(attempts)
        invariant Settled(attempts, id, final) == Settled(attempts[..k], id, final) + attempts[k..]
      {
        k := k - 1;
        assert attempts[..k + 1][..k] == attempts[..k];
        if attempts[k].id == id {
          attempts := attempts[k := attempts[k].(state := final)];
          assert attempts == attempts[..k] + [attempts[k]] + attempts[k + 1..];
          return;
        }
        assert attempts[k..] == [attempts[k]] + attempts[k + 1..];
      }
    }

    method Launch(env: Environment, mode: Mode, job: JobId, i: nat, r: nat) returns (o: Outcome, stop: bool)
      modifies this
      ensures o == env(i, r) && (stop <==> Stops(o, mode))
      ensures events == old(events) + AttemptEvents(env, mode, i, r)
      ensures attempts == old(attempts) + [Row(AttemptId(i, r), job, o.State())]
      ensures trials == old(trials) && state == old(state)
    {
      var id := AttemptId(i, r);
      events := events + [LaunchStarted(id)];
      attempts := attempts + [Row(id, job, RUNNING)];
      o := env(i, r);
      FinishAttempt(id, o.State());
      if o.State() == SUCCEEDED {
        return o, true;
      }
      var failure := Classify(FromLocalLaunch(o.exitCode, o.log));
      var action := Decide(failure, mode);
      events := events + [FailureClassified(id, failure)];
      events := events + [RecoveryActionSelected(id, action)];
      stop := action == FAIL_JOB;
    }

    /** All the launches of one parameter set. */
    method DriveSet(w: Workload, env: Environment, i: nat) returns (final: LaunchState)
      modifies this
      ensures final == FinalState(env, i, LaunchesOf(w, env, i))
      ensures events == old(events) + SetEvents(env, ModeOf(w), i, LaunchesOf(w, env, i))
      ensures attempts == old(attempts) + SetRows(env, i, JobOf(w, i), LaunchesOf(w, env, i))
      ensures trials == old(trials) + (var m := SetMetrics(env, i, LaunchesOf(w, env, i)); if m.Some? then [m.value] else [])
      ensures state == old(state)
    {
      hide Stops, AttemptEvents, Launches;
      var mode, budget := ModeOf(w), Budget(w);
      final := FAILED;
      var metrics: Option<string> := None;
      var restart := 0;
      var stopped := false;
      while restart < w.maxRestarts + 1 && !stopped
        invariant restart <= budget
        invariant forall r :: 0 <= r < (if stopped then restart - 1 else restart) ==> !Stops(env(i, r), mode)
        invariant stopped ==> restart > 0 && Stops(env(i, restart - 1), mode)
        invariant final == FinalState(env, i, restart) && metrics == SetMetrics(env, i, restart)
        invariant events == old(events) + SetEvents(env, mode, i, restart)
        invariant attempts == old(attempts) + SetRows(env, i, JobOf(w, i), restart)
        invariant trials == old(trials) && state == old(state)
      {
        var o, stop := Launch(env, mode, JobOf(w, i), i, restart);
        if o.metrics.Some? {
          metrics := o.metrics;
        }
        final, stopped, restart := o.State(), stop, restart + 1;
      }
      LaunchesIs(env, mode, i, budget, restart);
      if metrics.Some? {
        trials := trials + [metrics.value];
      }
    }

    /** The whole drive: what is launched, what is recorded for it, and what the run
        ends as. */
    method Drive(w: Workload, env: Environment)
      requires events == [] && attempts == [] && trials == []
      modifies this
      ensures events == AllEvents(w, env, w.sets)
      ensures attempts == AllRows(w, env, w.sets)
      ensures trials == AllTrials(w, env, w.sets)
      ensures state == if AllSucceed(w, env) then SUCCEEDED else FAILED
    {
      hide LaunchesOf, SetEvents, SetRows, SetMetrics, FinalState;
      state := RUNNING;
      var ok := true;
      var i := 0;
      while i < w.sets
        invariant i <= w.sets
        invariant events == AllEvents(w, env, i) && attempts == AllRows(w, env, i) && trials == AllTrials(w, env, i)
        invariant ok <==> forall j :: 0 <= j < i ==> FinalState(env, j, LaunchesOf(w, env, j)) == SUCCEEDED
      {
        var final := DriveSet(w, env, i);
        ok := ok && final == SUCCEEDED;
        i := i + 1;
      }
      state := if w.sets > 0 && ok then SUCCEEDED else FAILED;
    }
  }

  // ------------------------------------------------ whose metrics a trial holds

  /** Launch `r` is the one that decides set `i`, and it succeeded. */
  ghost predicate Wins(w: Workload, env: Environment, i: nat, r: nat) {
    && r < Budget(w) && env(i, r).State() == SUCCEEDED
    && forall e :: 0 <= e < r ==> !Stops(env(i, e), ModeOf(w))
  }

  /** The trial recorded for set `i`, if any, holds the metrics of the launch that
      succeeded. */
  ghost predicate TrialIsTheWinners(w: Workload, env: Environment, i: nat) {
    var n := LaunchesOf(w, env, i);
    SetMetrics(env, i, n).Some? && n > 0 && env(i, n - 1).State() == SUCCEEDED && SetMetrics(env, i, n) == env(i, n - 1).metrics
  }

  /** A set has a trial exactly when some launch of it left metrics, and the trial's are
      those of the last that did. */
  lemma {:induction false} TrialIsTheLastMetrics(env: Environment, i: nat, n: nat)
    ensures SetMetrics(env, i, n).Some? <==> exists r :: 0 <= r < n && env(i, r).metrics.Some?
    ensures SetMetrics(env, i, n).Some? ==> exists r ::
              (0 <= r < n && env(i, r).metrics == SetMetrics(env, i, n) && forall e :: r < e < n ==> env(i, e).metrics.None?)
  {
    if n > 0 {
      TrialIsTheLastMetrics(env, i, n - 1);
      if env(i, n - 1).metrics.None? && SetMetrics(env, i, n - 1).Some? {
        var r :| 0 <= r < n - 1 && env(i, r).metrics == SetMetrics(env, i, n - 1) && forall e :: r < e < n - 1 ==> env(i, e).metrics.None?;
        assert env(i, r).metrics == SetMetrics(env, i, n);
      }
    }
  }

  lemma WinnerIsLast(w: Workload, env: Environment, i: nat, r: nat)
    requires Wins(w, env, i, r)
    ensures LaunchesOf(w, env, i) == r + 1
  {
    assert Stops(env(i, r), ModeOf(w));
    LaunchesIs(env, ModeOf(w), i, Budget(w), r + 1);
  }

  lemma LastSuccessWins(w: Workload, env: Environment, i: nat)
    requires LaunchesOf(w, env, i) > 0 && env(i, LaunchesOf(w, env, i) - 1).State() == SUCCEEDED
    ensures Wins(w, env, i, LaunchesOf(w, env, i) - 1)
  {
    hide Decision;
    LaunchesToTheFirstStop(env, ModeOf(w), i, Budget(w));
  }

  /** A set's trial is the winning launch's own exactly when a launch succeeds within the
      budget with no launch before it that stops, and leaves metrics itself. */
  lemma TrialIsTheWinnersWhen(w: Workload, env: Environment, i: nat)
    ensures TrialIsTheWinners(w, env, i) <==> exists r :: Wins(w, env, i, r) && env(i, r).metrics.Some?
  {
    hide Stops, LaunchesOf;
    var n := LaunchesOf(w, env, i);
    if r: nat :| Wins(w, env, i, r) && env(i, r).metrics.Some? {
      WinnerIsLast(w, env, i, r);
    }
    if TrialIsTheWinners(w, env, i) {
      LastSuccessWins(w, env, i);
    }
  }

  /** Some launch left metrics, so there is a trial, but they are not a winner's. */
  ghost predicate TrialIsNotTheWinners(w: Workload, env: Environment, i: nat) {
    SetMetrics(env, i, LaunchesOf(w, env, i)).Some? && !TrialIsTheWinners(w, env, i)
  }

  /** A trial that is not a winner's is recorded exactly when some launch left metrics
      and the deciding launch failed or left none. */
  lemma TrialIsNotTheWinnersWhen(w: Workload, env: Environment, i: nat)
    ensures TrialIsNotTheWinners(w, env, i) <==>
            && (exists r :: 0 <= r < LaunchesOf(w, env, i) && env(i, r).metrics.Some?)
            && !(exists r :: Wins(w, env, i, r) && env(i, r).metrics.Some?)
  {
    TrialIsTheLastMetrics(env, i, LaunchesOf(w, env, i));
    TrialIsTheWinnersWhen(w, env, i);
    hide Wins, LaunchesOf, TrialIsTheWinners;
  }

  const QUIET := Log(false, false, false)

  /** Killed with metrics on disk, then a clean exit that leaves none. */
  function LosersMetrics(): Environment {
    (i, r) => if r == 0 then Outcome(false, Some(137), QUIET, Some("half")) else Outcome(false, Some(0), QUIET, None)
  }

  /** Killed every time, with metrics on disk. */
  function NobodysMetrics(): Environment {
    (i, r) => Outcome(false, Some(137), QUIET, Some("half"))
  }

  /** The winner's metrics are not what is kept: a failed launch's survive a winner that
      leaves none, and a set that never succeeds has a trial all the same. */
  lemma TrialNeedNotBeTheWinners()
    ensures var w := Workload(true, 1, 1);
            && TrialIsNotTheWinners(w, LosersMetrics(), 0) && FinalState(LosersMetrics(), 0, LaunchesOf(w, LosersMetrics(), 0)) == SUCCEEDED
            && TrialIsNotTheWinners(w, NobodysMetrics(), 0) && FinalState(NobodysMetrics(), 0, LaunchesOf(w, NobodysMetrics(), 0)) == FAILED
  {
    var w := Workload(true, 1, 1);
    LaunchesIs(LosersMetrics(), IndependentTasks, 0, 2, 2);
    LaunchesIs(NobodysMetrics(), IndependentTasks, 0, 2, 2);
    assert SetMetrics(LosersMetrics(), 0, 1) == Some("half");
    assert SetMetrics(LosersMetrics(), 0, 2) == Some("half");
  }

  // -------------------------------------------------- one decision per failure

  function Count(events: seq<Event>, p: Event -> bool): nat {
    if events == [] then 0 else Count(events[..|events| - 1], p) + if p(events[|events| - 1]) then 1 else 0
  }

  lemma {:induction false} CountConcat(a: seq<Event>, b: seq<Event>, p: Event -> bool)
    ensures Count(a + b, p) == Count(a, p) + Count(b, p)
  {
    if b == [] {
      assert a + b == a;
    } else {
      assert (a + b)[..|a + b| - 1] == a + b[..|b| - 1];
      CountConcat(a, b[..|b| - 1], p);
    }
  }

  function Classifies(id: AttemptId): Event -> bool { (e: Event) => e.FailureClassified? && e.id == id }
  function Decides(id: AttemptId): Event -> bool { (e: Event) => e.RecoveryActionSelected? && e.id == id }
  function Begins(id: AttemptId): Event -> bool { (e: Event) => e.LaunchStarted? && e.id == id }

  function One(b: bool): nat { if b then 1 else 0 }

  lemma AttemptCounts(env: Environment, mode: Mode, i: nat, r: nat, id: AttemptId)
    ensures Count(AttemptEvents(env, mode, i, r), Begins(id)) == One(id == AttemptId(i, r))
    ensures Count(AttemptEvents(env, mode, i, r), Classifies(id)) == One(id == AttemptId(i, r) && env(i, r).State() != SUCCEEDED)
    ensures Count(AttemptEvents(env, mode, i, r), Decides(id)) == One(id == AttemptId(i, r) && env(i, r).State() != SUCCEEDED)
  {
    hide Classify, FromLocalLaunch, Decision, Count;
    var all := AttemptEvents(env, mode, i, r);
    if env(i, r).State() == SUCCEEDED {
      assert all == [all[0]];
      CountOne(all[0], Begins(id));
      CountOne(all[0], Classifies(id));
      CountOne(all[0], Decides(id));
    } else {
      assert all == [all[0], all[1], all[2]];
      CountThree(all[0], all[1], all[2], Begins(id));
      CountThree(all[0], all[1], all[2], Classifies(id));
      CountThree(all[0], all[1], all[2], Decides(id));
    }
  }

  lemma CountOne(a: Event, p: Event -> bool)
    ensures Count([a], p) == One(p(a))
  {
    assert [a][..0] == [];
  }

  lemma CountThree(a: Event, b: Event, c: Event, p: Event -> bool)
    ensures Count([a, b, c], p) == One(p(a)) + One(p(b)) + One(p(c))
  {
    CountOne(a, p);
    assert [a, b][..1] == [a];
    assert Count([a, b], p) == Count([a], p) + One(p(b));
    assert [a, b, c][..2] == [a, b];
  }

  lemma {:induction false} SetCounts(env: Environment, mode: Mode, i: nat, n: nat, id: AttemptId)
    ensures Count(SetEvents(env, mode, i, n), Begins(id)) == One(id.task == i && id.restart < n)
    ensures Count(SetEvents(env, mode, i, n), Classifies(id)) == One(id.task == i && id.restart < n && env(i, id.restart).State() != SUCCEEDED)
    ensures Count(SetEvents(env, mode, i, n), Decides(id)) == One(id.task == i && id.restart < n && env(i, id.restart).State() != SUCCEEDED)
  {
    hide AttemptEvents, Begins, Classifies, Decides, Count;
    if n > 0 {
      SetCounts(env, mode, i, n - 1, id);
      AttemptCounts(env, mode, i, n - 1, id);
      CountConcat(SetEvents(env, mode, i, n - 1), AttemptEvents(env, mode, i, n - 1), Begins(id));
      CountConcat(SetEvents(env, mode, i, n - 1), AttemptEvents(env, mode, i, n - 1), Classifies(id));
      CountConcat(SetEvents(env, mode, i, n - 1), AttemptEvents(env, mode, i, n - 1), Decides(id));
    } else {
      NoEvents(Begins(id));
      NoEvents(Classifies(id));
      NoEvents(Decides(id));
    }
  }

  lemma NoEvents(p: Event -> bool)
    ensures Count([], p) == 0
  {
  }

  /** Every launch has exactly one start event; every launch that did not succeed has
      exactly one classification and one decision, and nothing else has any. */
  lemma {:induction false} EveryFailureIsDecidedOnce(w: Workload, env: Environment, k: nat, id: AttemptId)
    ensures var launched := id.task < k && id.restart < LaunchesOf(w, env, id.task);
            var failed := launched && env(id.task, id.restart).State() != SUCCEEDED;
            && Count(AllEvents(w, env, k), Begins(id)) == One(launched)
            && Count(AllEvents(w, env, k), Classifies(id)) == One(failed)
            && Count(AllEvents(w, env, k), Decides(id)) == One(failed)
  {
    hide SetEvents, Begins, Classifies, Decides, LaunchesOf, Count;
    if k > 0 {
      var i, n := k - 1, LaunchesOf(w, env, k - 1);
      EveryFailureIsDecidedOnce(w, env, i, id);
      SetCounts(env, ModeOf(w), i, n, id);
      CountConcat(AllEvents(w, env, i), SetEvents(env, ModeOf(w), i, n), Begins(id));
      CountConcat(AllEvents(w, env, i), SetEvents(env, ModeOf(w), i, n), Classifies(id));
      CountConcat(AllEvents(w, env, i), SetEvents(env, ModeOf(w), i, n), Decides(id));
    } else {
      NoEvents(Begins(id));
      NoEvents(Classifies(id));
      NoEvents(Decides(id));
    }
  }

  /** A set that never succeeds within its budget is launched to its first bug, or
      exactly one time more than its restarts allow. */
  lemma FailingSetSpendsItsBudget(w: Workload, env: Environment, i: nat)
    requires w.maxRestarts >= 0 && FinalState(env, i, LaunchesOf(w, env, i)) != SUCCEEDED
    ensures LaunchesOf(w, env, i) > 0
    ensures LaunchesOf(w, env, i) == w.maxRestarts + 1 ||
            (var o := env(i, LaunchesOf(w, env, i) - 1); o.exitCode.Some? && o.exitCode.value != 0 && ShowsABug(o.log))
    ensures forall r :: 0 <= r < LaunchesOf(w, env, i) ==> env(i, r).State() != SUCCEEDED
  {
    hide Decision, Launches;
    var n := LaunchesOf(w, env, i);
    LaunchesToTheFirstStop(env, ModeOf(w), i, Budget(w));
    FailFastMeansDeterministic(env(i, n - 1), ModeOf(w));
  }
}
