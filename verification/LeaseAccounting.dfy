/** Conservation laws of the lease protocol: commits against completed tasks, lease
    events against attempts, and claims against the attempt budget. */
module LeaseAccounting {
  import opened Prelude
  import opened LeaseSpec
  import opened LeaseTable
  import opened LeaseSafety
  import opened LeaseRuns

  // -------------------------------------------- commits and completed tasks

  function CompletedCount(tasks: Tasks): nat {
    if tasks == [] then 0
    else CompletedCount(tasks[..|tasks| - 1]) + if tasks[|tasks| - 1].state == COMPLETED then 1 else 0
  }

  lemma {:induction false} CompletedUpdate(tasks: Tasks, i: nat, r: Record)
    requires i < |tasks|
    ensures CompletedCount(tasks[i := r]) + (if tasks[i].state == COMPLETED then 1 else 0)
         == CompletedCount(tasks) + (if r.state == COMPLETED then 1 else 0)
  {
    var n := |tasks| - 1;
    if i < n {
      CompletedUpdate(tasks[..n], i, r);
      assert tasks[i := r][..n] == tasks[..n][i := r];
    } else {
      assert tasks[i := r][..n] == tasks[..n];
    }
  }

  /** Saves that commit a result. */
  function CommitSaves(effects: seq<Effect>): nat {
    if effects == [] then 0
    else
      var last := effects[|effects| - 1];
      CommitSaves(effects[..|effects| - 1]) + if last.Save? && last.record.state == COMPLETED then 1 else 0
  }

  lemma {:induction false} CommitSavesConcat(a: seq<Effect>, b: seq<Effect>)
    ensures CommitSaves(a + b) == CommitSaves(a) + CommitSaves(b)
  {
    if b == [] {
      assert a + b == a;
    } else {
      assert (a + b)[..|a + b| - 1] == a + b[..|b| - 1];
      CommitSavesConcat(a, b[..|b| - 1]);
    }
  }

  lemma SaveCounts(tasks: Tasks, r: Record, now: int)
    requires TableInv(tasks) && SaveOk(tasks, r, now)
    ensures CompletedCount(Put(tasks, r)) == CompletedCount(tasks) + if r.state == COMPLETED then 1 else 0
  {
    match IndexOf(tasks, r.spec.key)
    case None =>
      assert (tasks + [r])[..|tasks|] == tasks;
    case Some(i) =>
      CompletedUpdate(tasks, i, r);
  }

  lemma {:induction false} LegalCounts(tasks: Tasks, effects: seq<Effect>, now: int)
    requires TableInv(tasks) && Legal(tasks, effects, now)
    ensures CompletedCount(After(tasks, effects)) == CompletedCount(tasks) + CommitSaves(effects)
  {
    hide TableInv, SaveOk;
    if effects != [] {
      var rest, last := effects[..|effects| - 1], effects[|effects| - 1];
      LegalCounts(tasks, rest, now);
      LegalKeepsTable(tasks, rest, now, now);
      if last.Save? {
        SaveCounts(After(tasks, rest), last.record, now);
      }
    }
  }

  lemma EmitCommitsNothing(e: Event)
    ensures CommitSaves([Emit(e)]) == 0
  {
    assert [Emit(e)][..0] == [];
  }

  lemma ReleaseCommitsNothing(r: Record, e: Event, now: int)
    ensures CommitSaves(ReleaseEffects(r, now)) == 0 && CommitSaves([Emit(e)] + ReleaseEffects(r, now)) == 0
  {
    var rel := ReleaseEffects(r, now);
    assert rel[..1] == [rel[0]];
    EmitCommitsNothing(rel[0].event);
    EmitCommitsNothing(e);
    CommitSavesConcat([Emit(e)], rel);
  }

  lemma {:induction false} SweepCommitsNothing(tasks: Tasks, now: int)
    ensures CommitSaves(SweepEffects(tasks, now)) == 0
  {
    if tasks != [] {
      var n := |tasks| - 1;
      SweepCommitsNothing(tasks[..n], now);
      if Overdue(tasks[n], now) {
        ReleaseCommitsNothing(tasks[n], LeaseEvent(LEASE_EXPIRED, tasks[n].active.value, now), now);
      }
      CommitSavesConcat(SweepEffects(tasks[..n], now), ExpiryEffects(tasks[n], now));
    }
  }

  lemma PairCommits(r: Record, e: Event)
    ensures CommitSaves([Save(r)]) == CommitSaves([Save(r), Emit(e)]) == if r.state == COMPLETED then 1 else 0
  {
    assert [Save(r), Emit(e)][..1] == [Save(r)] && [Save(r)][..0] == [];
  }

  /** The only request that saves a committed result is a `complete` it answers True. */
  lemma CommitsAreAnsweredTrue(tasks: Tasks, req: Request, now: int)
    ensures CommitSaves(Handle(tasks, req, now).effects)
         == if req.Complete? && Handle(tasks, req, now).reply == Committed(true) then 1 else 0
  {
    hide After, PickIndex, SweepEffects;
    match req
    case Add(spec) => PairCommits(NewRecord(spec), Event(TASK_CREATED, spec.key, None, now));
    case Cancel(key) =>
      var at := IndexOf(tasks, key);
      if at.Some? { PairCommits(Withdrawn(tasks[at.value]), Event(TASK_CREATED, key, None, now)); }
    case Claim(node, pick, id) =>
      SweepCommitsNothing(Leased(tasks), now);
      var swept := After(tasks, SweepOutcome(tasks, now).effects);
      var grant := GrantOutcome(swept, node, pick, id, now);
      CommitSavesConcat(SweepOutcome(tasks, now).effects, grant.effects);
      if grant.reply.Granted? {
        PairCommits(grant.effects[0].record, grant.effects[1].event);
      }
    case Heartbeat(id) =>
      var out := Handle(tasks, req, now);
      if out.reply.Renewed? { PairCommits(out.effects[0].record, out.effects[1].event); }
    case Complete(id) =>
      var out := Handle(tasks, req, now);
      if out.reply == Committed(true) { PairCommits(out.effects[0].record, out.effects[1].event); }
    case Fail(id) =>
      var at := FindLease(tasks, id);
      if at.Some? && IsLive(tasks[at.value], id, now) {
        ReleaseCommitsNothing(tasks[at.value], LeaseEvent(TASK_ATTEMPT_FAILED, tasks[at.value].history[id], now), now);
      }
    case Sweep => SweepCommitsNothing(Leased(tasks), now);
  }

  predicate AnsweredTrue(tasks: Tasks, s: Step) {
    s.Call? && s.req.Complete? && Handle(tasks, s.req, s.now).reply == Committed(true)
  }

  /** The commit was saved but the coordinator died before answering. */
  predicate CommitReplyLost(tasks: Tasks, s: Step) {
    s.Crash? && CommitSaves(Effects(tasks, s)) == 1
  }

  function CountTrue(states: seq<Tasks>, steps: seq<Step>, n: nat): nat
    requires n <= |steps| <= |states|
  {
    if n == 0 then 0 else CountTrue(states, steps, n - 1) + if AnsweredTrue(states[n - 1], steps[n - 1]) then 1 else 0
  }

  function CountLost(states: seq<Tasks>, steps: seq<Step>, n: nat): nat
    requires n <= |steps| <= |states|
  {
    if n == 0 then 0 else CountLost(states, steps, n - 1) + if CommitReplyLost(states[n - 1], steps[n - 1]) then 1 else 0
  }

  lemma {:induction false} PrefixCommits(effects: seq<Effect>, k: nat)
    requires k <= |effects|
    ensures CommitSaves(effects[..k]) <= CommitSaves(effects)
  {
    assert effects == effects[..k] + effects[k..];
    CommitSavesConcat(effects[..k], effects[k..]);
  }

  lemma StepCommits(tasks: Tasks, s: Step)
    ensures CommitSaves(Effects(tasks, s))
         == (if AnsweredTrue(tasks, s) then 1 else 0) + (if CommitReplyLost(tasks, s) then 1 else 0)
  {
    hide Handle;
    CommitsAreAnsweredTrue(tasks, s.req, s.now);
    var all := Handle(tasks, s.req, s.now).effects;
    if s.Crash? && s.cut <= |all| {
      PrefixCommits(all, s.cut);
    }
  }

  /** Completed tasks are exactly the commits answered True plus those whose answer a
      crash swallowed, in every reachable state. */
  lemma {:induction false} CompletedTasksAreCommits(states: seq<Tasks>, steps: seq<Step>, n: nat)
    requires Run(states, steps) && n <= |steps|
    ensures CompletedCount(states[n]) == CountTrue(states, steps, n) + CountLost(states, steps, n)
  {
    hide TableInv, Legal, Effects, CommitReplyLost, AnsweredTrue;
    if n > 0 {
      var s := steps[n - 1];
      CompletedTasksAreCommits(states, steps, n - 1);
      RunStep(states, steps, n - 1);
      StepKeeps(states[n - 1], s, states[n]);
      LegalCounts(states[n - 1], Effects(states[n - 1], s), s.now);
      StepCommits(states[n - 1], s);
    }
  }

  // ------------------------------------------------- lease events and attempts

  /** Events of one kind about one task. */
  function Count(effects: seq<Effect>, kind: EventKind, key: TaskKey): nat {
    if effects == [] then 0
    else
      var last := effects[|effects| - 1];
      Count(effects[..|effects| - 1], kind, key)
      + if last.Emit? && last.event.kind == kind && last.event.key == key then 1 else 0
  }

  lemma {:induction false} CountConcat(a: seq<Effect>, b: seq<Effect>, kind: EventKind, key: TaskKey)
    ensures Count(a + b, kind, key) == Count(a, kind, key) + Count(b, kind, key)
  {
    if b == [] {
      assert a + b == a;
    } else {
      assert (a + b)[..|a + b| - 1] == a + b[..|b| - 1];
      CountConcat(a, b[..|b| - 1], kind, key);
    }
  }

  /** How leases of a task end, by the event that says so. */
  function Ends(effects: seq<Effect>, key: TaskKey): nat {
    Count(effects, TASK_COMMIT_ACCEPTED, key) + Count(effects, TASK_ATTEMPT_FAILED, key) + Count(effects, LEASE_EXPIRED, key)
  }

  function AttemptsOf(tasks: Tasks, key: TaskKey): nat {
    match IndexOf(tasks, key) case None => 0 case Some(i) => tasks[i].attempts
  }

  function ActiveOf(tasks: Tasks, key: TaskKey): nat {
    match IndexOf(tasks, key) case None => 0 case Some(i) => if tasks[i].active.Some? then 1 else 0
  }

  /** Over `effects`, attempts grow with the claims announced, and claims no longer
      active grow with the ends announced plus `silent` withdrawals. */
  ghost predicate Balanced(tasks: Tasks, effects: seq<Effect>, key: TaskKey, silent: nat) {
    var after := After(tasks, effects);
    && AttemptsOf(after, key) == AttemptsOf(tasks, key) + Count(effects, LEASE_CLAIMED, key)
    && AttemptsOf(after, key) - ActiveOf(after, key)
       == AttemptsOf(tasks, key) - ActiveOf(tasks, key) + Ends(effects, key) + silent
  }

  lemma BalancedConcat(tasks: Tasks, a: seq<Effect>, b: seq<Effect>, key: TaskKey, s: nat, t: nat)
    requires Balanced(tasks, a, key, s) && Balanced(After(tasks, a), b, key, t)
    ensures Balanced(tasks, a + b, key, s + t)
  {
    hide AttemptsOf, ActiveOf, Count, After;
    AfterConcat(tasks, a, b);
    CountConcat(a, b, LEASE_CLAIMED, key);
    CountConcat(a, b, TASK_COMMIT_ACCEPTED, key);
    CountConcat(a, b, TASK_ATTEMPT_FAILED, key);
    CountConcat(a, b, LEASE_EXPIRED, key);
  }

  lemma BalancedNothing(tasks: Tasks, key: TaskKey)
    ensures Balanced(tasks, [], key, 0)
  {
  }

  lemma CountPair(r: Record, e: Event, kind: EventKind, key: TaskKey)
    ensures Count([Save(r), Emit(e)], kind, key) == Count([Emit(e), Save(r)], kind, key)
         == Count([Emit(e)], kind, key) == if e.kind == kind && e.key == key then 1 else 0
    ensures Count([Save(r)], kind, key) == 0
  {
    assert [Save(r), Emit(e)][..1] == [Save(r)] && [Emit(e), Save(r)][..1] == [Emit(e)];
    assert [Save(r)][..0] == [] && [Emit(e)][..0] == [];
    assert Count([Save(r)], kind, key) == 0;
  }

  lemma ReplaceReads(tasks: Tasks, i: nat, r: Record, key: TaskKey)
    requires UniqueKeys(tasks) && i < |tasks| && tasks[i].spec.key == r.spec.key
    ensures AttemptsOf(tasks[i := r], key) == if key == r.spec.key then r.attempts else AttemptsOf(tasks, key)
    ensures ActiveOf(tasks[i := r], key)
         == if key == r.spec.key then (if r.active.Some? then 1 else 0) else ActiveOf(tasks, key)
    ensures AttemptsOf(tasks, r.spec.key) == tasks[i].attempts
    ensures ActiveOf(tasks, r.spec.key) == if tasks[i].active.Some? then 1 else 0
  {
    var t := tasks[i := r];
    PutReplaces(tasks, r, i);
    PutReplaces(t, r, i);
    if key != r.spec.key {
      match IndexOf(tasks, key)
      case Some(j) => FirstIs(t, (s: Record) => s.spec.key == key, j);
      case None =>
        assert IndexOf(t, key).None?;
    }
  }

  /** One save and one event about the same record, in either order. */
  lemma BalancedBlock(tasks: Tasks, i: nat, r: Record, e: Event, saveFirst: bool, key: TaskKey)
    requires UniqueKeys(tasks) && i < |tasks| && tasks[i].spec.key == r.spec.key == e.key
    requires r.attempts == tasks[i].attempts + if e.kind == LEASE_CLAIMED then 1 else 0
    requires (if r.active.Some? then 1 else 0) + (if e.kind in {TASK_COMMIT_ACCEPTED, TASK_ATTEMPT_FAILED, LEASE_EXPIRED} then 1 else 0)
          == (if tasks[i].active.Some? then 1 else 0) + (if e.kind == LEASE_CLAIMED then 1 else 0)
    ensures Balanced(tasks, if saveFirst then [Save(r), Emit(e)] else [Emit(e), Save(r)], key, 0)
  {
    hide AttemptsOf, ActiveOf, Count, After;
    PutReplaces(tasks, r, i);
    AfterPair(tasks, r, e);
    ReplaceReads(tasks, i, r, key);
    CountPair(r, e, LEASE_CLAIMED, key);
    CountPair(r, e, TASK_COMMIT_ACCEPTED, key);
    CountPair(r, e, TASK_ATTEMPT_FAILED, key);
    CountPair(r, e, LEASE_EXPIRED, key);
  }

  /** The announcement that ends a lease, followed by the release of its record. */
  lemma BalancedRelease(tasks: Tasks, i: nat, e: Event, now: int, key: TaskKey)
    requires UniqueKeys(tasks) && i < |tasks| && e.key == tasks[i].spec.key && tasks[i].active.Some?
    requires e.kind in {TASK_ATTEMPT_FAILED, LEASE_EXPIRED}
    ensures Balanced(tasks, [Emit(e)] + ReleaseEffects(tasks[i], now), key, 0)
  {
    hide Count;
    var r := Released(tasks[i]);
    var rel := ReleaseEffects(tasks[i], now);
    ReleaseReads(tasks, i, e, now);
    ReplaceReads(tasks, i, r, key);
    CountRelease(tasks[i], e, now, LEASE_CLAIMED, key);
    CountRelease(tasks[i], e, now, TASK_COMMIT_ACCEPTED, key);
    CountRelease(tasks[i], e, now, TASK_ATTEMPT_FAILED, key);
    CountRelease(tasks[i], e, now, LEASE_EXPIRED, key);
  }

  lemma ReleaseReads(tasks: Tasks, i: nat, e: Event, now: int)
    requires UniqueKeys(tasks) && i < |tasks|
    ensures After(tasks, [Emit(e)] + ReleaseEffects(tasks[i], now)) == tasks[i := Released(tasks[i])]
  {
    var rel := ReleaseEffects(tasks[i], now);
    AfterConcat(tasks, [Emit(e)], rel);
    AfterEmit(tasks, e);
    AfterPair(tasks, Released(tasks[i]), rel[0].event);
    PutReplaces(tasks, Released(tasks[i]), i);
  }

  lemma CountRelease(r: Record, e: Event, now: int, kind: EventKind, key: TaskKey)
    requires kind !in {TASK_EXHAUSTED, TASK_REQUEUED}
    ensures Count([Emit(e)] + ReleaseEffects(r, now), kind, key) == if e.kind == kind && e.key == key then 1 else 0
  {
    var rel := ReleaseEffects(r, now);
    CountConcat([Emit(e)], rel, kind, key);
    CountPair(Released(r), rel[0].event, kind, key);
    CountPair(Released(r), e, kind, key);
  }

  lemma {:induction false} BalancedSweep(tasks: Tasks, now: int, p: nat, key: TaskKey)
    requires TableInv(tasks) && p <= |tasks|
    ensures Balanced(tasks, SweepEffects(tasks[..p], now), key, 0)
  {
    hide Balanced, UniqueKeys, DisjointHistories, AttemptNumbers, After;
    if p == 0 {
      SweepNothing(tasks, now);
      BalancedNothing(tasks, key);
    } else {
      var q := p - 1;
      BalancedSweep(tasks, now, q, key);
      SweepLegal(tasks, now, q);
      PartlySweptStep(tasks, now, q);
      SweepStep(tasks, tasks, q, now);
      var mid := PartlySwept(tasks, now, q);
      assert RecordInv(tasks[q]);
      if Overdue(tasks[q], now) {
        BalancedRelease(mid, q, LeaseEvent(LEASE_EXPIRED, tasks[q].active.value, now), now, key);
      } else {
        BalancedNothing(mid, key);
      }
      BalancedConcat(tasks, SweepEffects(tasks[..q], now), ExpiryEffects(tasks[q], now), key, 0, 0);
    }
  }

  lemma BalancedGrant(tasks: Tasks, node: NodeId, pick: Pick, id: LeaseId, now: int, key: TaskKey)
    requires TableInv(tasks)
    ensures Balanced(tasks, GrantOutcome(tasks, node, pick, id, now).effects, key, 0)
  {
    hide Balanced, DisjointHistories, HistoryInv;
    match PickIndex(tasks, pick)
    case None => BalancedNothing(tasks, key);
    case Some(i) =>
      var l := NewLease(tasks[i], node, id, now);
      assert RecordInv(tasks[i]);
      BalancedBlock(tasks, i, Claimed(tasks[i], l), LeaseEvent(LEASE_CLAIMED, l, now), true, key);
  }

  /** Leases withdrawn by a cancellation, which announces nothing. */
  function Withdrawals(tasks: Tasks, req: Request, key: TaskKey): nat {
    if req.Cancel? && req.key == key then ActiveOf(tasks, key) else 0
  }

  lemma BalancedCancel(tasks: Tasks, i: nat, now: int, key: TaskKey)
    requires TableInv(tasks) && i < |tasks| && IndexOf(tasks, tasks[i].spec.key) == Some(i)
    requires !Terminal(tasks[i].state)
    ensures Balanced(tasks, [Save(Withdrawn(tasks[i]))], key, Withdrawals(tasks, Cancel(tasks[i].spec.key), key))
  {
    hide Count;
    var r := Withdrawn(tasks[i]);
    var e := Event(TASK_CREATED, r.spec.key, None, now);
    PutReplaces(tasks, r, i);
    assert [Save(r)][..0] == [] && After(tasks, [Save(r)]) == tasks[i := r];
    ReplaceReads(tasks, i, r, key);
    CountPair(r, e, LEASE_CLAIMED, key);
    CountPair(r, e, TASK_COMMIT_ACCEPTED, key);
    CountPair(r, e, TASK_ATTEMPT_FAILED, key);
    CountPair(r, e, LEASE_EXPIRED, key);
  }

  lemma BalancedAdd(tasks: Tasks, spec: TaskSpec, now: int, key: TaskKey)
    requires TableInv(tasks) && IndexOf(tasks, spec.key).None?
    ensures Balanced(tasks, [Save(NewRecord(spec)), Emit(Event(TASK_CREATED, spec.key, None, now))], key, 0)
  {
    var r := NewRecord(spec);
    var e := Event(TASK_CREATED, spec.key, None, now);
    PutAppends(tasks, r);
    AppendReads(tasks, r, key);
    hide Count, After, AttemptsOf, ActiveOf, TableInv;
    AfterPair(tasks, r, e);
    CountPair(r, e, LEASE_CLAIMED, key);
    CountPair(r, e, TASK_COMMIT_ACCEPTED, key);
    CountPair(r, e, TASK_ATTEMPT_FAILED, key);
    CountPair(r, e, LEASE_EXPIRED, key);
  }

  lemma AppendReads(tasks: Tasks, r: Record, key: TaskKey)
    requires IndexOf(tasks, r.spec.key).None? && r.attempts == 0 && r.active.None?
    ensures AttemptsOf(tasks + [r], key) == AttemptsOf(tasks, key) && ActiveOf(tasks + [r], key) == ActiveOf(tasks, key)
  {
    var t := tasks + [r];
    var p := (s: Record) => s.spec.key == key;
    if key == r.spec.key {
      FirstIs(t, p, |tasks|);
    } else {
      match IndexOf(tasks, key)
      case Some(j) => FirstIs(t, p, j);
      case None => assert IndexOf(t, key).None?;
    }
  }

  lemma BalancedRejection(tasks: Tasks, l: Lease, now: int, key: TaskKey)
    ensures Balanced(tasks, [Emit(LeaseEvent(TASK_COMMIT_REJECTED, l, now))], key, 0)
  {
    hide Count;
    var e := LeaseEvent(TASK_COMMIT_REJECTED, l, now);
    var r := NewRecord(TaskSpec(l.key, l.payload, 1, 0));
    AfterEmit(tasks, e);
    CountPair(r, e, LEASE_CLAIMED, key);
    CountPair(r, e, TASK_COMMIT_ACCEPTED, key);
    CountPair(r, e, TASK_ATTEMPT_FAILED, key);
    CountPair(r, e, LEASE_EXPIRED, key);
  }

  lemma BalancedLeaseRequest(tasks: Tasks, req: Request, now: int, key: TaskKey)
    requires TableInv(tasks) && (req.Heartbeat? || req.Complete? || req.Fail?)
    ensures Balanced(tasks, Handle(tasks, req, now).effects, key, 0)
  {
    hide Balanced, DisjointHistories, AttemptNumbers, After, ReleaseEffects;
    var id := match req case Heartbeat(l) => l case Complete(l) => l case Fail(l) => l case _ => "";
    BalancedNothing(tasks, key);
    var at := FindLease(tasks, id);
    if at.Some? {
      var i := at.value;
      var r := tasks[i];
      assert RecordInv(r);
      if IsLive(r, id, now) {
        match req
        case Heartbeat(_) =>
          var renewed := r.history[id].(deadline := now + r.spec.window);
          BalancedBlock(tasks, i, r.(active := Some(renewed)), LeaseEvent(LEASE_RENEWED, renewed, now), true, key);
        case Complete(_) =>
          BalancedBlock(tasks, i, Accepted(r, id), LeaseEvent(TASK_COMMIT_ACCEPTED, r.history[id], now), true, key);
        case Fail(_) =>
          BalancedRelease(tasks, i, LeaseEvent(TASK_ATTEMPT_FAILED, r.history[id], now), now, key);
      } else if req.Complete? {
        BalancedRejection(tasks, r.history[id], now, key);
      }
    }
  }

  lemma WholeSweepBalanced(tasks: Tasks, now: int, key: TaskKey)
    requires TableInv(tasks)
    ensures Balanced(tasks, SweepOutcome(tasks, now).effects, key, 0)
  {
    hide Balanced, TableInv;
    SweepOfLeased(tasks, now);
    BalancedSweep(tasks, now, |tasks|, key);
    assert tasks[..|tasks|] == tasks;
  }

  lemma HandleBalanced(tasks: Tasks, req: Request, now: int, key: TaskKey)
    requires TableInv(tasks) && FreshFor(tasks, req)
    ensures Balanced(tasks, Handle(tasks, req, now).effects, key, Withdrawals(tasks, req, key))
  {
    hide Balanced, TableInv, GrantOutcome, After, SweepOutcome;
    BalancedNothing(tasks, key);
    match req
    case Add(spec) =>
      if IndexOf(tasks, spec.key).None? { BalancedAdd(tasks, spec, now, key); }
    case Cancel(k) =>
      var at := IndexOf(tasks, k);
      if at.Some? {
        if Terminal(tasks[at.value].state) {
          TerminalHasNoLease(tasks, at.value);
        } else {
          BalancedCancel(tasks, at.value, now, key);
        }
      }
    case Claim(node, pick, id) =>
      WholeSweepBalanced(tasks, now, key);
      var effects := SweepOutcome(tasks, now).effects;
      HandleLegal(tasks, Request.Sweep, now);
      LegalKeepsTable(tasks, effects, now, now);
      var swept := After(tasks, effects);
      BalancedGrant(swept, node, pick, id, now, key);
      BalancedConcat(tasks, effects, GrantOutcome(swept, node, pick, id, now).effects, key, 0, 0);
    case Heartbeat(_) => BalancedLeaseRequest(tasks, req, now, key);
    case Complete(_) => BalancedLeaseRequest(tasks, req, now, key);
    case Fail(_) => BalancedLeaseRequest(tasks, req, now, key);
    case Sweep => WholeSweepBalanced(tasks, now, key);
  }

  lemma TerminalHasNoLease(tasks: Tasks, i: nat)
    requires TableInv(tasks) && i < |tasks| && Terminal(tasks[i].state)
    ensures tasks[i].active.None?
  {
    assert RecordInv(tasks[i]);
  }

  /** Everything the first `n` requests did. */
  function Log(states: seq<Tasks>, steps: seq<Step>, n: nat): seq<Effect>
    requires n <= |steps| <= |states|
  {
    if n == 0 then [] else Log(states, steps, n - 1) + Effects(states[n - 1], steps[n - 1])
  }

  function Silent(states: seq<Tasks>, steps: seq<Step>, n: nat, key: TaskKey): nat
    requires n <= |steps| <= |states|
  {
    if n == 0 then 0 else Silent(states, steps, n - 1, key) + Withdrawals(states[n - 1], steps[n - 1].req, key)
  }

  lemma {:induction false} RunBalanced(states: seq<Tasks>, steps: seq<Step>, n: nat, key: TaskKey)
    requires Run(states, steps) && n <= |steps|
    requires forall i :: 0 <= i < n ==> steps[i].Call?
    ensures After([], Log(states, steps, n)) == states[n]
    ensures Balanced([], Log(states, steps, n), key, Silent(states, steps, n, key))
  {
    hide Balanced, TableInv, Handle, Withdrawals, FreshFor, Next, After;
    BalancedNothing([], key);
    AfterNothing([]);
    if n > 0 {
      var tasks, s := states[n - 1], steps[n - 1];
      RunBalanced(states, steps, n - 1, key);
      RunStep(states, steps, n - 1);
      HandleBalanced(tasks, s.req, s.now, key);
      AfterConcat([], Log(states, steps, n - 1), Effects(tasks, s));
      BalancedConcat([], Log(states, steps, n - 1), Effects(tasks, s), key,
                     Silent(states, steps, n - 1, key), Withdrawals(tasks, s.req, key));
    }
  }

  /** In every crash-free run, for every task: one claim event per attempt, one
      history entry per attempt, numbered 1, 2, ... and never beyond the maximum; a
      lease is active exactly while the task is LEASED; and every claim has ended in
      an acceptance, a failure, an expiry or a cancellation, or is still active. */
  lemma LeasesAreAccountedFor(states: seq<Tasks>, steps: seq<Step>, n: nat, p: nat)
    requires Run(states, steps) && n <= |steps| && p < |states[n]|
    requires forall i :: 0 <= i < n ==> steps[i].Call?
    ensures var r, log := states[n][p], Log(states, steps, n);
            var key := r.spec.key;
            && r.attempts == |r.history| == Count(log, LEASE_CLAIMED, key) <= r.spec.maxAttempts
            && AttemptNumbers(r.history) == UpTo(r.attempts)
            && (r.state == LEASED <==> r.active.Some?)
            && Count(log, LEASE_CLAIMED, key)
               == Count(log, TASK_COMMIT_ACCEPTED, key) + Count(log, TASK_ATTEMPT_FAILED, key)
                + Count(log, LEASE_EXPIRED, key) + (if r.active.Some? then 1 else 0) + Silent(states, steps, n, key)
  {
    hide Count, Log, Silent;
    var r := states[n][p];
    var key := r.spec.key;
    RunKeepsInvariant(states, steps, n);
    RunBalanced(states, steps, n, key);
    PutReplaces(states[n], r, p);
    assert AttemptsOf([], key) == 0 && ActiveOf([], key) == 0;
    assert RecordInv(r);
  }
}
