/** A worker's claim-and-execute loop against any coordinator, any tasks and any host. */
module ExecutorLoop {
  import opened Prelude

  /** How running one lease ends. `Raised` is an error of the client itself, which the
      loop does not catch. */
  datatype TaskOutcome = Accepted | Declined | LeaseLost | TaskError | Raised

  /** What the health check answers if asked: the blocking problems, or an error of its
      own. */
  datatype Health = Report(problems: seq<string>) | CheckRaises

  /** What one pass of the loop meets. `completed` says the task got as far as offering
      its result. */
  datatype Turn =
    | StopSet
    | Unreachable(stop: bool)
    | NoWork(stop: bool)
    | Work(task: string, attempt: nat, started: int, outcome: TaskOutcome, completed: bool, health: Health)

  datatype Config = Config(maxTasks: Option<int>, idleExit: bool, hasHealthCheck: bool, maxConsecutive: int)

  datatype End = Running | Exited | Died

  /** What a loop's log shows, in order. */
  datatype Mark = Accept | HostError | CleanCheck | BadCheck

  datatype State = State(accepted: nat, failed: nat, consecutive: nat, quarantined: bool, backoff: nat, claims: nat,
                         end: End, log: seq<Mark>)

  const MAX_BACKOFF := 30

  predicate Enough(cfg: Config, s: State) {
    cfg.maxTasks.Some? && s.accepted >= cfg.maxTasks.value
  }

  /** The effect of one task's outcome on the counters. */
  function Executed(s: State, outcome: TaskOutcome): State {
    match outcome
    case Accepted => s.(accepted := s.accepted + 1, consecutive := 0, log := s.log + [Accept])
    case TaskError => s.(failed := s.failed + 1, consecutive := s.consecutive + 1, log := s.log + [HostError])
    case Declined => s
    case LeaseLost => s
    case Raised => s.(end := Died)
  }

  /** After a streak of failures, ask whether it is the host. */
  function Checked(cfg: Config, s: State, health: Health): State {
    if !cfg.hasHealthCheck || cfg.maxConsecutive <= 0 || s.consecutive < cfg.maxConsecutive then s
    else match health
      case CheckRaises => s.(end := Died)
      case Report(problems) =>
        if problems != [] then s.(quarantined := true, end := Exited, log := s.log + [BadCheck])
        else s.(consecutive := 0, log := s.log + [CleanCheck])
  }

  function Next(cfg: Config, s: State, t: Turn): State {
    if s.end != Running then s
    else if t.StopSet? || Enough(cfg, s) then s.(end := Exited)
    else match t
      case Unreachable(stop) => if stop then s.(end := Exited) else s.(backoff := Min(s.backoff * 2, MAX_BACKOFF))
      case NoWork(stop) => s.(backoff := 1, end := if cfg.idleExit || stop then Exited else Running)
      case Work(_, _, _, outcome, _, health) =>
        var done := Executed(s.(backoff := 1, claims := s.claims + 1), outcome);
        if done.end == Died then done else Checked(cfg, done, health)
  }

  function After(cfg: Config, s: State, turns: seq<Turn>): State {
    if turns == [] then s else Next(cfg, After(cfg, s, turns[..|turns| - 1]), turns[|turns| - 1])
  }

  // ------------------------------------------------------- the loop's promises

  /** Failures logged since the last accepted task or clean health check. */
  function Streak(log: seq<Mark>): nat {
    if log == [] then 0
    else match log[|log| - 1]
      case Accept => 0
      case CleanCheck => 0
      case BadCheck => Streak(log[..|log| - 1])
      case HostError => Streak(log[..|log| - 1]) + 1
  }

  function Marks(log: seq<Mark>, m: Mark): nat {
    if log == [] then 0 else Marks(log[..|log| - 1], m) + if log[|log| - 1] == m then 1 else 0
  }

  /** A health check is only ever asked for after the configured streak. */
  ghost predicate ChecksAreEarned(cfg: Config, log: seq<Mark>) {
    forall i :: 0 <= i < |log| && (log[i] == CleanCheck || log[i] == BadCheck) ==>
      cfg.hasHealthCheck && Streak(log[..i]) >= cfg.maxConsecutive > 0
  }

  ghost predicate Consistent(cfg: Config, s: State) {
    && s.consecutive == Streak(s.log)
    && s.accepted == Marks(s.log, Accept) && s.failed == Marks(s.log, HostError)
    && (s.quarantined <==> Marks(s.log, BadCheck) > 0)
    && (s.quarantined ==> s.end == Exited)
    && ChecksAreEarned(cfg, s.log)
    && 1 <= s.backoff <= MAX_BACKOFF
  }

  const FRESH := State(0, 0, 0, false, 1, 0, Running, [])

  lemma Marked(cfg: Config, log: seq<Mark>, m: Mark)
    requires ChecksAreEarned(cfg, log)
    requires m == CleanCheck || m == BadCheck ==> cfg.hasHealthCheck && Streak(log) >= cfg.maxConsecutive > 0
    ensures ChecksAreEarned(cfg, log + [m])
    ensures forall k :: Marks(log + [m], k) == Marks(log, k) + if m == k then 1 else 0
    ensures Streak(log + [m]) == match m case Accept => 0 case CleanCheck => 0 case BadCheck => Streak(log) case HostError => Streak(log) + 1
  {
    assert (log + [m])[..|log|] == log;
    forall i | 0 <= i < |log| ensures (log + [m])[..i] == log[..i] { }
  }

  lemma NextKeeps(cfg: Config, s: State, t: Turn)
    requires Consistent(cfg, s)
    ensures Consistent(cfg, Next(cfg, s, t))
  {
    hide Streak, Marks, ChecksAreEarned;
    if s.end == Running && t.Work? && !Enough(cfg, s) {
      var done := Executed(s.(backoff := 1, claims := s.claims + 1), t.outcome);
      if t.outcome == Accepted { Marked(cfg, s.log, Accept); }
      if t.outcome == TaskError { Marked(cfg, s.log, HostError); }
      if cfg.hasHealthCheck && cfg.maxConsecutive > 0 && done.consecutive >= cfg.maxConsecutive && t.health.Report? {
        Marked(cfg, done.log, if t.health.problems != [] then BadCheck else CleanCheck);
      }
    }
  }

  /** In every state a loop reaches: the failure counter is exactly the task errors since
      its last accepted task or clean check, the totals are the logged ones, the health
      check was asked only after a full streak, and quarantine means a check went badly
      and the loop is over. */
  lemma {:induction false} CountersMeanWhatTheySay(cfg: Config, turns: seq<Turn>)
    ensures Consistent(cfg, After(cfg, FRESH, turns))
  {
    if turns != [] {
      CountersMeanWhatTheySay(cfg, turns[..|turns| - 1]);
      NextKeeps(cfg, After(cfg, FRESH, turns[..|turns| - 1]), turns[|turns| - 1]);
      hide Consistent, Next;
    }
  }

  /** A loop never passes its task limit, and at the limit it claims nothing more. */
  lemma {:induction false} NeverPassesItsLimit(cfg: Config, s: State, turns: seq<Turn>)
    requires cfg.maxTasks.Some?
    ensures s.accepted <= After(cfg, s, turns).accepted <= Max(s.accepted, cfg.maxTasks.value)
    ensures s.accepted >= cfg.maxTasks.value ==> After(cfg, s, turns).claims == s.claims
  {
    if turns != [] {
      NeverPassesItsLimit(cfg, s, turns[..|turns| - 1]);
    }
  }

  /** Once quarantined, or ended in any other way, a loop does nothing more. */
  lemma {:induction false} EndedLoopsClaimNothing(cfg: Config, s: State, turns: seq<Turn>)
    requires s.end != Running
    ensures After(cfg, s, turns) == s
  {
    if turns != [] {
      EndedLoopsClaimNothing(cfg, s, turns[..|turns| - 1]);
    }
  }

  // --------------------------------------------------------- how a loop ends

  /** Results accepted over these turns. */
  function AcceptedIn(turns: seq<Turn>): nat {
    if turns == [] then 0
    else
      var t := turns[|turns| - 1];
      AcceptedIn(turns[..|turns| - 1]) + if t.Work? && t.outcome == Accepted then 1 else 0
  }

  /** The streak of task errors with one more outcome. */
  function StreakWith(streak: nat, outcome: TaskOutcome): nat {
    match outcome
    case Accepted => 0
    case TaskError => streak + 1
    case _ => streak
  }

  /** The streak is one the health check is asked about. */
  predicate Full(cfg: Config, streak: nat) {
    cfg.hasHealthCheck && cfg.maxConsecutive > 0 && streak >= cfg.maxConsecutive
  }

  /** Task errors since the last accepted task, or the last full streak a clean health
      check forgave. */
  function ErrorsIn(cfg: Config, turns: seq<Turn>): nat {
    if turns == [] then 0
    else
      var before, t := ErrorsIn(cfg, turns[..|turns| - 1]), turns[|turns| - 1];
      if !t.Work? then before
      else
        var streak := StreakWith(before, t.outcome);
        if Full(cfg, streak) && t.health == Report([]) then 0 else streak
  }

  /** Turn `i` asks the loop to stop, or finds the task limit reached. */
  predicate StopOrLimit(cfg: Config, turns: seq<Turn>, i: nat)
    requires i < |turns|
  {
    || turns[i].StopSet?
    || (cfg.maxTasks.Some? && AcceptedIn(turns[..i]) >= cfg.maxTasks.value)
    || ((turns[i].Unreachable? || turns[i].NoWork?) && turns[i].stop)
  }

  /** Turn `i` runs a task after which the health check is asked. */
  predicate Asked(cfg: Config, turns: seq<Turn>, i: nat)
    requires i < |turns|
  {
    turns[i].Work? && turns[i].outcome != Raised && Full(cfg, StreakWith(ErrorsIn(cfg, turns[..i]), turns[i].outcome))
  }

  /** Turn `i` runs a task in which the client raises, or asks a health check that does. */
  predicate Raises(cfg: Config, turns: seq<Turn>, i: nat)
    requires i < |turns|
  {
    || (turns[i].Work? && turns[i].outcome == Raised)
    || (Asked(cfg, turns, i) && turns[i].health.CheckRaises?)
  }

  /** Turn `i` ends the loop in some other way: the client or the health check raises, the
      queue is drained and the loop was to exit then, or the health check is bad. */
  predicate OtherEnd(cfg: Config, turns: seq<Turn>, i: nat)
    requires i < |turns|
  {
    || Raises(cfg, turns, i)
    || (turns[i].NoWork? && cfg.idleExit)
    || (Asked(cfg, turns, i) && turns[i].health != Report([]))
  }

  ghost predicate NothingEnds(cfg: Config, turns: seq<Turn>) {
    forall i :: 0 <= i < |turns| ==> !StopOrLimit(cfg, turns, i) && !OtherEnd(cfg, turns, i)
  }

  /** One more turn, taken by a loop whose counters are those of its turns. */
  ghost predicate TakenAt(cfg: Config, s: State, turns: seq<Turn>) {
    && turns != [] && s.end == Running
    && s.accepted == AcceptedIn(turns[..|turns| - 1]) && s.consecutive == ErrorsIn(cfg, turns[..|turns| - 1])
  }

  lemma NextRuns(cfg: Config, s: State, turns: seq<Turn>)
    requires TakenAt(cfg, s, turns)
    ensures Next(cfg, s, turns[|turns| - 1]).end == Running
            <==> !StopOrLimit(cfg, turns, |turns| - 1) && !OtherEnd(cfg, turns, |turns| - 1)
  {
    hide AcceptedIn, ErrorsIn;
  }

  lemma NextAccepts(cfg: Config, s: State, turns: seq<Turn>)
    requires TakenAt(cfg, s, turns) && Next(cfg, s, turns[|turns| - 1]).end == Running
    ensures Next(cfg, s, turns[|turns| - 1]).accepted == AcceptedIn(turns)
  {
    hide ErrorsIn;
  }

  lemma NextErrs(cfg: Config, s: State, turns: seq<Turn>)
    requires TakenAt(cfg, s, turns) && Next(cfg, s, turns[|turns| - 1]).end == Running
    ensures Next(cfg, s, turns[|turns| - 1]).consecutive == ErrorsIn(cfg, turns)
  {
    hide AcceptedIn;
  }

  lemma NextDies(cfg: Config, s: State, turns: seq<Turn>)
    requires TakenAt(cfg, s, turns)
    ensures Next(cfg, s, turns[|turns| - 1]).end == Died <==> !StopOrLimit(cfg, turns, |turns| - 1) && Raises(cfg, turns, |turns| - 1)
  {
    hide AcceptedIn, ErrorsIn;
  }

  lemma EndsEarlier(cfg: Config, turns: seq<Turn>, t: Turn, i: nat)
    requires i < |turns|
    ensures StopOrLimit(cfg, turns + [t], i) == StopOrLimit(cfg, turns, i)
    ensures OtherEnd(cfg, turns + [t], i) == OtherEnd(cfg, turns, i)
    ensures Raises(cfg, turns + [t], i) == Raises(cfg, turns, i)
  {
    assert (turns + [t])[..i] == turns[..i];
  }

  lemma NothingEndsSplits(cfg: Config, turns: seq<Turn>, t: Turn)
    ensures NothingEnds(cfg, turns + [t]) <==>
            NothingEnds(cfg, turns) && !StopOrLimit(cfg, turns + [t], |turns|) && !OtherEnd(cfg, turns + [t], |turns|)
  {
    hide StopOrLimit, OtherEnd;
    forall i | 0 <= i < |turns|
      ensures StopOrLimit(cfg, turns + [t], i) == StopOrLimit(cfg, turns, i) && OtherEnd(cfg, turns + [t], i) == OtherEnd(cfg, turns, i)
    {
      EndsEarlier(cfg, turns, t, i);
    }
  }

  /** A loop is still running after some turns exactly when none of them asked it to
      stop, met the limit, or ended it in another way. */
  lemma {:induction false} RunsWhileNothingEnds(cfg: Config, turns: seq<Turn>)
    ensures After(cfg, FRESH, turns).end == Running <==> NothingEnds(cfg, turns)
    ensures After(cfg, FRESH, turns).end == Running ==>
            After(cfg, FRESH, turns).accepted == AcceptedIn(turns) && After(cfg, FRESH, turns).consecutive == ErrorsIn(cfg, turns)
  {
    if turns != [] {
      var before, t := turns[..|turns| - 1], turns[|turns| - 1];
      assert before + [t] == turns;
      RunsWhileNothingEnds(cfg, before);
      NothingEndsSplits(cfg, before, t);
      var s := After(cfg, FRESH, before);
      hide StopOrLimit, OtherEnd, NothingEnds, AcceptedIn, ErrorsIn, Next;
      if s.end == Running {
        NextRuns(cfg, s, turns);
        if Next(cfg, s, t).end == Running {
          NextAccepts(cfg, s, turns);
          NextErrs(cfg, s, turns);
        }
      } else {
        EndedStaysEnded(cfg, s, t);
      }
    }
  }

  lemma EndedStaysEnded(cfg: Config, s: State, t: Turn)
    requires s.end != Running
    ensures Next(cfg, s, t) == s
  {
  }

  /** Unreachable turns since the coordinator last answered. */
  function Misses(turns: seq<Turn>): nat {
    if turns == [] then 0 else if turns[|turns| - 1].Unreachable? then Misses(turns[..|turns| - 1]) + 1 else 0
  }

  function WorkIn(turns: seq<Turn>): nat {
    if turns == [] then 0 else WorkIn(turns[..|turns| - 1]) + if turns[|turns| - 1].Work? then 1 else 0
  }

  function FailuresIn(turns: seq<Turn>): nat {
    if turns == [] then 0
    else
      var t := turns[|turns| - 1];
      FailuresIn(turns[..|turns| - 1]) + if t.Work? && t.outcome == TaskError then 1 else 0
  }

  /** One second, doubled for each miss, and never more than thirty. */
  function Pause(misses: nat): nat {
    if misses == 0 then 1 else if misses < 5 then 2 * Pause(misses - 1) else 30
  }

  lemma PauseDoubles(misses: nat)
    ensures Pause(misses + 1) == Min(Pause(misses) * 2, 30)
  {
    assert Pause(0) == 1 && Pause(1) == 2 && Pause(2) == 4 && Pause(3) == 8 && Pause(4) == 16;
  }

  /** While a loop runs, it has claimed once for each turn that had work, failed once for
      each task error, and waits longer after each turn the coordinator did not answer,
      from one second again once it does. */
  lemma {:induction false} RunningLoopsCount(cfg: Config, turns: seq<Turn>)
    requires After(cfg, FRESH, turns).end == Running
    ensures var s := After(cfg, FRESH, turns);
            s.claims == WorkIn(turns) && s.failed == FailuresIn(turns) && s.backoff == Pause(Misses(turns))
  {
    if turns != [] {
      var before, t := turns[..|turns| - 1], turns[|turns| - 1];
      assert After(cfg, FRESH, turns) == Next(cfg, After(cfg, FRESH, before), t);
      RunningLoopsCount(cfg, before);
      PauseDoubles(Misses(before));
      hide After;
    }
  }

  /** After every number of turns, a loop that has ended had been asked to stop or had
      reached its limit. */
  ghost predicate EndsOnlyByStopOrLimit(cfg: Config, turns: seq<Turn>) {
    forall n :: 0 <= n <= |turns| && After(cfg, FRESH, turns[..n]).end != Running ==> StoppedBy(cfg, turns, n)
  }

  ghost predicate StoppedBy(cfg: Config, turns: seq<Turn>, n: int) {
    exists i :: 0 <= i < n && i < |turns| && StopOrLimit(cfg, turns, i)
  }

  lemma PrefixEnds(cfg: Config, turns: seq<Turn>, n: nat, i: nat)
    requires i < n <= |turns|
    ensures StopOrLimit(cfg, turns[..n], i) == StopOrLimit(cfg, turns, i) && OtherEnd(cfg, turns[..n], i) == OtherEnd(cfg, turns, i)
    ensures Raises(cfg, turns[..n], i) == Raises(cfg, turns, i)
  {
    assert turns[..n][..i] == turns[..i];
  }

  /** A loop ends only by stop or limit exactly when nothing else would have ended it
      without a stop or the limit coming no later. */
  lemma EndsOnlyByStopOrLimitWhen(cfg: Config, turns: seq<Turn>)
    ensures EndsOnlyByStopOrLimit(cfg, turns) <==>
            forall j :: 0 <= j < |turns| && OtherEnd(cfg, turns, j) ==> StoppedBy(cfg, turns, j + 1)
  {
    hide StopOrLimit, OtherEnd, After;
    if EndsOnlyByStopOrLimit(cfg, turns) {
      forall j | 0 <= j < |turns| && OtherEnd(cfg, turns, j) ensures StoppedBy(cfg, turns, j + 1) {
        RunsWhileNothingEnds(cfg, turns[..j + 1]);
        PrefixEnds(cfg, turns, j + 1, j);
      }
    }
    if forall j :: 0 <= j < |turns| && OtherEnd(cfg, turns, j) ==> StoppedBy(cfg, turns, j + 1) {
      forall n | 0 <= n <= |turns| && After(cfg, FRESH, turns[..n]).end != Running ensures StoppedBy(cfg, turns, n) {
        RunsWhileNothingEnds(cfg, turns[..n]);
        var i :| 0 <= i < |turns[..n]| && (StopOrLimit(cfg, turns[..n], i) || OtherEnd(cfg, turns[..n], i));
        PrefixEnds(cfg, turns, n, i);
        if OtherEnd(cfg, turns, i) {
          var k :| 0 <= k < i + 1 && k < |turns| && StopOrLimit(cfg, turns, k);
          assert k < n;
        }
      }
    }
  }

  /** Turn `i` is the one the loop dies of. */
  ghost predicate DiesAt(cfg: Config, turns: seq<Turn>, i: nat) {
    i < |turns| && Raises(cfg, turns, i) && !StopOrLimit(cfg, turns, i) && NothingEnds(cfg, turns[..i])
  }

  lemma DiesAtEarlier(cfg: Config, turns: seq<Turn>, t: Turn, i: nat)
    ensures i < |turns| ==> DiesAt(cfg, turns + [t], i) == DiesAt(cfg, turns, i)
    ensures DiesAt(cfg, turns + [t], |turns|) <==>
            Raises(cfg, turns + [t], |turns|) && !StopOrLimit(cfg, turns + [t], |turns|) && NothingEnds(cfg, turns)
  {
    hide StopOrLimit, Raises, NothingEnds;
    assert (turns + [t])[..|turns|] == turns;
    if i < |turns| {
      assert (turns + [t])[..i] == turns[..i];
      EndsEarlier(cfg, turns, t, i);
    }
  }

  /** An error the client raises inside a task, or the health check when asked, reaches the
      loop's caller exactly when no earlier turn, and no stop or limit at its own, has
      ended the loop. */
  lemma {:induction false} DiesOfTheFirstRaise(cfg: Config, turns: seq<Turn>)
    ensures After(cfg, FRESH, turns).end == Died <==> exists i :: DiesAt(cfg, turns, i)
  {
    if turns != [] {
      var m := |turns| - 1;
      var before, t := turns[..m], turns[m];
      assert before + [t] == turns;
      var s := After(cfg, FRESH, before);
      assert After(cfg, FRESH, turns) == Next(cfg, s, t);
      DiesOfTheFirstRaise(cfg, before);
      RunsWhileNothingEnds(cfg, before);
      DiesAtEarlier(cfg, before, t, 0);
      hide After, DiesAt, Next, NothingEnds, StopOrLimit, Raises, AcceptedIn, ErrorsIn;
      if s.end == Running {
        NextDies(cfg, s, turns);
      } else {
        EndedStaysEnded(cfg, s, t);
      }
      if i: nat :| DiesAt(cfg, before, i) {
        DiesAtInside(cfg, before, i);
        DiesAtEarlier(cfg, before, t, i);
      }
      if i: nat :| DiesAt(cfg, turns, i) {
        DiesAtInside(cfg, turns, i);
        DiesAtEarlier(cfg, before, t, i);
      }
    }
  }

  lemma DiesAtInside(cfg: Config, turns: seq<Turn>, i: nat)
    requires DiesAt(cfg, turns, i)
    ensures i < |turns|
  {
  }

  /** The loop's own account of itself is false: with no limit and no drain, one task in
      which the client raises ends it, and so does one health check that raises. */
  lemma ARaiseEndsTheLoop()
    ensures var cfg := Config(None, false, false, 0);
            var turns := [Work("shard-000", 1, 0, Raised, false, Report([]))];
            After(cfg, FRESH, turns).end == Died && !StopOrLimit(cfg, turns, 0)
    ensures var cfg := Config(None, false, true, 1);
            var turns := [Work("shard-000", 1, 0, TaskError, false, CheckRaises)];
            After(cfg, FRESH, turns).end == Died && !StopOrLimit(cfg, turns, 0)
  {
    var turns := [Work("shard-000", 1, 0, Raised, false, Report([]))];
    assert turns[..0] == [];
    var asking := [Work("shard-000", 1, 0, TaskError, false, CheckRaises)];
    assert asking[..0] == [];
  }

  // ------------------------------------------------------------- the loop itself

  class Executor {
    const cfg: Config
    var tasksAccepted: nat
    var tasksFailed: nat
    var consecutiveFailures: nat
    var currentTask: Option<string>
    var currentAttempt: Option<nat>
    var currentStarted: Option<int>
    var quarantined: bool
    var healthReport: Option<seq<string>>
    ghost var claims: nat
    ghost var log: seq<Mark>

    constructor (cfg: Config)
      ensures this.cfg == cfg && View(1, Running) == FRESH && Idle() && healthReport == None
    {
      this.cfg := cfg;
      tasksAccepted, tasksFailed, consecutiveFailures, quarantined := 0, 0, 0, false;
      currentTask, currentAttempt, currentStarted, healthReport := None, None, None, None;
      claims, log := 0, [];
    }

    ghost function View(backoff: nat, end: End): State
      reads this
    {
      State(tasksAccepted, tasksFailed, consecutiveFailures, quarantined, backoff, claims, end, log)
    }

    /** No task is shown as running. */
    predicate Idle()
      reads this
    {
      currentTask == None && currentAttempt == None && currentStarted == None
    }

    /** Run one lease; only a task error counts against this host. */
    method ExecuteOne(task: string, attempt: nat, started: int, outcome: TaskOutcome) returns (raised: bool)
      modifies this
      ensures forall b: nat :: View(b, if raised then Died else Running) == Executed(old(View(b, Running)), outcome)
      ensures Idle() && healthReport == old(healthReport)
    {
      currentTask, currentAttempt, currentStarted := Some(task), Some(attempt), Some(started);
      raised := false;
      match outcome {
        case Accepted =>
          tasksAccepted := tasksAccepted + 1;
          consecutiveFailures := 0;
          log := log + [Accept];
        case TaskError =>
          tasksFailed := tasksFailed + 1;
          consecutiveFailures := consecutiveFailures + 1;
          log := log + [HostError];
        case Declined =>
        case LeaseLost =>
        case Raised => raised := true;
      }
      currentTask, currentAttempt, currentStarted := None, None, None;
    }

    method ShouldStopVolunteering(health: Health) returns (end: End)
      modifies this
      ensures forall b: nat :: View(b, end) == Checked(cfg, old(View(b, Running)), health)
      ensures Idle() == old(Idle())
      ensures healthReport == if end == Exited && health.Report? then Some(health.problems) else old(healthReport)
    {
      if !cfg.hasHealthCheck || cfg.maxConsecutive <= 0 {
        return Running;
      }
      if consecutiveFailures < cfg.maxConsecutive {
        return Running;
      }
      if health.CheckRaises? {
        return Died;
      }
      if health.problems == [] {
        consecutiveFailures := 0;
        log := log + [CleanCheck];
        return Running;
      }
      quarantined, healthReport := true, Some(health.problems);
      log := log + [BadCheck];
      end := Exited;
    }

    /** Claim and execute through `turns`, or until the loop ends itself. */
    method Run(turns: seq<Turn>) returns (end: End)
      requires Idle()
      modifies this
      ensures exists b: nat :: View(b, end) == After(cfg, old(View(1, Running)), turns)
      ensures Idle()
    {
      hide Executed, Checked;
      ghost var start := View(1, Running);
      var backoff: nat := 1;
      end := Running;
      var i := 0;
      while i < |turns| && end == Running
        invariant i <= |turns| && Idle()
        invariant View(backoff, end) == After(cfg, start, turns[..i])
      {
        var t := turns[i];
        assert turns[..i + 1][..i] == turns[..i];
        i := i + 1;
        if t.StopSet? || (cfg.maxTasks.Some? && tasksAccepted >= cfg.maxTasks.value) {
          end := Exited;
        } else {
          match t
          case Unreachable(stop) =>
            if stop { end := Exited; } else { backoff := Min(backoff * 2, MAX_BACKOFF); }
          case NoWork(stop) =>
            backoff := 1;
            if cfg.idleExit || stop { end := Exited; }
          case Work(task, attempt, started, outcome, _, health) =>
            backoff := 1;
            claims := claims + 1;
            ghost var claimed := View(1, Running);
            var raised := ExecuteOne(task, attempt, started, outcome);
            assert View(1, if raised then Died else Running) == Executed(claimed, outcome);
            if raised {
              end := Died;
            } else {
              ghost var done := View(1, Running);
              end := ShouldStopVolunteering(health);
              assert View(1, end) == Checked(cfg, done, health);
            }
        }
      }
      if end != Running { EndedLoopsClaimNothing(cfg, After(cfg, start, turns[..i]), turns[i..]); }
      AfterConcat(cfg, start, turns[..i], turns[i..]);
      assert turns == turns[..i] + turns[i..];
    }
  }

  lemma {:induction false} AfterConcat(cfg: Config, s: State, a: seq<Turn>, b: seq<Turn>)
    ensures After(cfg, s, a + b) == After(cfg, After(cfg, s, a), b)
  {
    if b == [] {
      assert a + b == a;
    } else {
      assert (a + b)[..|a + b| - 1] == a + b[..|b| - 1];
      AfterConcat(cfg, s, a, b[..|b| - 1]);
    }
  }
}
