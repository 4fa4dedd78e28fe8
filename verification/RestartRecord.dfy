/** What a finished run of the restart loop has on record: an event, a row and a trial at a
    time, each in its place, and when the whole run has succeeded. */
module RestartRecord {
  import opened Prelude
  import opened RecoveryPolicy
  import opened RestartLoop

  /** A launch ends in one of three ways, and ends its set by success or by showing a bug. */
  lemma StopsMeans(o: Outcome, mode: Mode)
    ensures o.State() == CANCELLED <==> o.cancelled
    ensures o.State() == SUCCEEDED <==> !o.cancelled && o.exitCode == Some(0)
    ensures o.State() == FAILED <==> !o.cancelled && o.exitCode != Some(0)
    ensures Stops(o, mode) <==>
              || (!o.cancelled && o.exitCode == Some(0))
              || (o.exitCode.Some? && o.exitCode.value != 0 && (o.log.deterministicTerminal || (o.log.traceback && !o.log.elasticWrapper)))
  {
    FailFastMeansDeterministic(o, mode);
    hide Decision;
  }

  // ------------------------------------------------------------------ events

  /** From position `at` on, the events of launch `id`: its start and, unless it succeeded,
      what it failed of and what the policy says of that. */
  ghost predicate Tells(events: seq<Event>, at: nat, id: AttemptId, o: Outcome, mode: Mode) {
    && at < |events| && events[at] == LaunchStarted(id)
    && (o.State() != SUCCEEDED ==>
          && at + 2 < |events|
          && events[at + 1] == FailureClassified(id, Classify(FromLocalLaunch(o.exitCode, o.log)))
          && events[at + 2] == RecoveryActionSelected(id, Decide(Classify(FromLocalLaunch(o.exitCode, o.log)), mode)))
  }

  ghost predicate Told(events: seq<Event>, id: AttemptId, o: Outcome, mode: Mode) {
    exists at: nat :: Tells(events, at, id, o, mode)
  }

  lemma ToldLater(events: seq<Event>, more: seq<Event>, id: AttemptId, o: Outcome, mode: Mode)
    requires Told(events, id, o, mode)
    ensures Told(events + more, id, o, mode)
  {
    hide Classify, FromLocalLaunch, Decide;
    var at: nat :| Tells(events, at, id, o, mode);
    assert Tells(events + more, at, id, o, mode);
  }

  lemma ToldAfter(before: seq<Event>, events: seq<Event>, id: AttemptId, o: Outcome, mode: Mode)
    requires Told(events, id, o, mode)
    ensures Told(before + events, id, o, mode)
  {
    hide Classify, FromLocalLaunch, Decide;
    var at: nat :| Tells(events, at, id, o, mode);
    assert Tells(before + events, |before| + at, id, o, mode);
  }

  lemma AttemptTells(env: Environment, mode: Mode, i: nat, r: nat)
    ensures Told(AttemptEvents(env, mode, i, r), AttemptId(i, r), env(i, r), mode)
  {
    hide Classify, FromLocalLaunch, Decide;
    assert Tells(AttemptEvents(env, mode, i, r), 0, AttemptId(i, r), env(i, r), mode);
  }

  lemma {:induction false} SetTells(env: Environment, mode: Mode, i: nat, n: nat, r: nat)
    requires r < n
    ensures Told(SetEvents(env, mode, i, n), AttemptId(i, r), env(i, r), mode)
  {
    hide Told, AttemptEvents;
    if r == n - 1 {
      AttemptTells(env, mode, i, r);
      ToldAfter(SetEvents(env, mode, i, n - 1), AttemptEvents(env, mode, i, r), AttemptId(i, r), env(i, r), mode);
    } else {
      SetTells(env, mode, i, n - 1, r);
      ToldLater(SetEvents(env, mode, i, n - 1), AttemptEvents(env, mode, i, n - 1), AttemptId(i, r), env(i, r), mode);
    }
  }

  /** Every launch is told in one stretch of the run's events: its start, then its failure,
      then the policy's action for it, by the mode of the workload. */
  lemma {:induction false} EveryLaunchIsTold(w: Workload, env: Environment, k: nat, i: nat, r: nat)
    requires i < k && r < LaunchesOf(w, env, i)
    ensures Told(AllEvents(w, env, k), AttemptId(i, r), env(i, r), if w.fanout then IndependentTasks else CoordinatedTraining)
  {
    hide Told, SetEvents, LaunchesOf;
    var mode, n := ModeOf(w), LaunchesOf(w, env, k - 1);
    if i == k - 1 {
      SetTells(env, mode, i, n, r);
      ToldAfter(AllEvents(w, env, k - 1), SetEvents(env, mode, i, n), AttemptId(i, r), env(i, r), mode);
    } else {
      EveryLaunchIsTold(w, env, k - 1, i, r);
      ToldLater(AllEvents(w, env, k - 1), SetEvents(env, mode, k - 1, n), AttemptId(i, r), env(i, r), mode);
    }
  }

  // -------------------------------------------------------------------- rows

  /** How many launches the first `i` sets got. */
  function LaunchesBefore(w: Workload, env: Environment, i: nat): nat {
    if i == 0 then 0 else LaunchesBefore(w, env, i - 1) + LaunchesOf(w, env, i - 1)
  }

  lemma {:induction false} SetRowAt(env: Environment, i: nat, job: JobId, n: nat, r: nat)
    requires r < n
    ensures |SetRows(env, i, job, n)| == n && SetRows(env, i, job, n)[r] == Row(AttemptId(i, r), job, env(i, r).State())
  {
    SetRowCount(env, i, job, n - 1);
    if r < n - 1 { SetRowAt(env, i, job, n - 1, r); }
  }

  lemma {:induction false} SetRowCount(env: Environment, i: nat, job: JobId, n: nat)
    ensures |SetRows(env, i, job, n)| == n
  {
    if n > 0 { SetRowCount(env, i, job, n - 1); }
  }

  lemma {:induction false} RowCount(w: Workload, env: Environment, k: nat)
    ensures |AllRows(w, env, k)| == LaunchesBefore(w, env, k)
  {
    hide LaunchesOf;
    if k > 0 {
      RowCount(w, env, k - 1);
      SetRowCount(env, k - 1, JobOf(w, k - 1), LaunchesOf(w, env, k - 1));
    }
  }

  /** The rows are the launches in order, one each, with how it ended and its job: one job
      a parameter set in a fan-out, so that none restores another's checkpoints, and one
      for all otherwise. */
  lemma {:induction false} RowsAreTheLaunches(w: Workload, env: Environment, k: nat, i: nat, r: nat)
    requires i < k && r < LaunchesOf(w, env, i)
    ensures LaunchesBefore(w, env, i) + r < |AllRows(w, env, k)| == LaunchesBefore(w, env, k)
    ensures AllRows(w, env, k)[LaunchesBefore(w, env, i) + r]
         == Row(AttemptId(i, r), if w.fanout then Trial(i) else Local, env(i, r).State())
  {
    hide LaunchesOf, SetRows;
    RowCount(w, env, k);
    RowCount(w, env, k - 1);
    SetRowCount(env, k - 1, JobOf(w, k - 1), LaunchesOf(w, env, k - 1));
    if i == k - 1 {
      SetRowAt(env, i, JobOf(w, i), LaunchesOf(w, env, i), r);
    } else {
      RowsAreTheLaunches(w, env, k - 1, i, r);
    }
  }

  /** Launches of one set share a job; in a fan-out launches of different sets do not. */
  lemma JobsByTheSet(w: Workload, env: Environment, k: nat, i: nat, r: nat, j: nat, q: nat)
    requires i < k && r < LaunchesOf(w, env, i) && j < k && q < LaunchesOf(w, env, j)
    ensures LaunchesBefore(w, env, i) + r < |AllRows(w, env, k)| && LaunchesBefore(w, env, j) + q < |AllRows(w, env, k)|
    ensures AllRows(w, env, k)[LaunchesBefore(w, env, i) + r].job == AllRows(w, env, k)[LaunchesBefore(w, env, j) + q].job
            <==> i == j || !w.fanout
  {
    hide AllRows, LaunchesBefore, LaunchesOf;
    RowsAreTheLaunches(w, env, k, i, r);
    RowsAreTheLaunches(w, env, k, j, q);
  }

  /** Settling changes the state of the last row with the id and of no other. */
  lemma {:induction false} SettledMeans(rows: seq<Row>, id: AttemptId, final: LaunchState, k: nat)
    requires k < |rows|
    ensures |Settled(rows, id, final)| == |rows|
    ensures Settled(rows, id, final)[k] ==
            if rows[k].id == id && forall j :: k < j < |rows| ==> rows[j].id != id then rows[k].(state := final) else rows[k]
  {
    var n := |rows| - 1;
    SettledLength(rows[..n], id, final);
    if rows[n].id != id && k < n { SettledMeans(rows[..n], id, final, k); }
  }

  lemma {:induction false} SettledLength(rows: seq<Row>, id: AttemptId, final: LaunchState)
    ensures |Settled(rows, id, final)| == |rows|
  {
    if rows != [] { SettledLength(rows[..|rows| - 1], id, final); }
  }

  // ------------------------------------------------------------------ trials

  /** Some launch of set `i` left metrics. */
  ghost predicate LeftMetrics(w: Workload, env: Environment, i: nat) {
    exists r :: 0 <= r < LaunchesOf(w, env, i) && env(i, r).metrics.Some?
  }

  ghost function WithMetrics(w: Workload, env: Environment, k: nat): set<nat> {
    set i | 0 <= i < k && LeftMetrics(w, env, i)
  }

  /** One trial for each set that left metrics, in the sets' order, holding the metrics of
      the last of its launches that left any. */
  lemma {:induction false} TrialsAreTheMetrics(w: Workload, env: Environment, k: nat, i: nat)
    requires i < k
    ensures |AllTrials(w, env, k)| == |WithMetrics(w, env, k)|
    ensures LeftMetrics(w, env, i) ==> |WithMetrics(w, env, i)| < |AllTrials(w, env, k)| && exists r ::
              (0 <= r < LaunchesOf(w, env, i) && env(i, r).metrics == Some(AllTrials(w, env, k)[|WithMetrics(w, env, i)|])
               && forall e :: r < e < LaunchesOf(w, env, i) ==> env(i, e).metrics.None?)
  {
    hide SetMetrics, LaunchesOf;
    TrialCount(w, env, k);
    TrialCount(w, env, k - 1);
    TrialIsTheLastMetrics(env, i, LaunchesOf(w, env, i));
    if i < k - 1 {
      TrialsAreTheMetrics(w, env, k - 1, i);
    }
  }

  lemma {:induction false} TrialCount(w: Workload, env: Environment, k: nat)
    ensures |AllTrials(w, env, k)| == |WithMetrics(w, env, k)|
  {
    hide SetMetrics, LaunchesOf, LeftMetrics;
    if k > 0 {
      var i := k - 1;
      TrialCount(w, env, i);
      assert WithMetrics(w, env, k) == WithMetrics(w, env, i) + if LeftMetrics(w, env, i) then {i} else {};
      HasTrialWhen(w, env, i);
    } else {
      assert WithMetrics(w, env, k) == {};
    }
  }

  lemma HasTrialWhen(w: Workload, env: Environment, i: nat)
    ensures SetMetrics(env, i, LaunchesOf(w, env, i)).Some? <==> LeftMetrics(w, env, i)
  {
    TrialIsTheLastMetrics(env, i, LaunchesOf(w, env, i));
  }

  // --------------------------------------------------------- the whole run

  /** Set `i` is launched to a success: within the restarts allowed, with nothing before
      it that ends the set. */
  ghost predicate Reached(w: Workload, env: Environment, i: nat) {
    exists r :: Wins(w, env, i, r)
  }

  /** A run succeeds exactly when it has a parameter set and every one of them is launched
      to a success. */
  lemma RunSucceedsWhen(w: Workload, env: Environment)
    ensures AllSucceed(w, env) <==> w.sets > 0 && forall i :: 0 <= i < w.sets ==> Reached(w, env, i)
  {
    hide LaunchesOf, Wins;
    forall i | 0 <= i < w.sets ensures FinalState(env, i, LaunchesOf(w, env, i)) == SUCCEEDED <==> Reached(w, env, i) {
      if r: nat :| Wins(w, env, i, r) {
        WinnerIsLast(w, env, i, r);
        WinnerSucceeded(w, env, i, r);
      }
      if FinalState(env, i, LaunchesOf(w, env, i)) == SUCCEEDED { LastSuccessWins(w, env, i); }
    }
  }

  lemma WinnerSucceeded(w: Workload, env: Environment, i: nat, r: nat)
    requires Wins(w, env, i, r)
    ensures env(i, r).State() == SUCCEEDED && r < w.maxRestarts + 1
  {
  }
}
