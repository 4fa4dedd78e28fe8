/** What every reachable task table satisfies, and how tables may evolve, whatever
    requests arrive and wherever the coordinator is cut off inside one. */
module LeaseSafety {
  import opened Prelude
  import opened LeaseSpec
  import opened LeaseTable

  // --------------------------------------------------------------- invariants

  ghost function AttemptNumbers(history: map<LeaseId, Lease>): set<nat> {
    set id | id in history :: history[id].attempt
  }

  /** {1, ..., n} */
  ghost function UpTo(n: nat): set<nat> {
    if n == 0 then {} else UpTo(n - 1) + {n}
  }

  /** One lease per attempt, numbered 1, 2, ..., each for this task. */
  ghost predicate HistoryInv(history: map<LeaseId, Lease>, attempts: nat, spec: TaskSpec) {
    && |history| == attempts
    && AttemptNumbers(history) == UpTo(attempts)
    && forall id :: id in history ==>
         history[id].id == id && history[id].key == spec.key && history[id].payload == spec.payload
  }

  ghost predicate RecordInv(r: Record) {
    && HistoryInv(r.history, r.attempts, r.spec)
    && r.attempts <= r.spec.maxAttempts
    && (r.state == LEASED <==> r.active.Some?)
    && (r.state == PENDING ==> r.attempts < r.spec.maxAttempts)
    && (r.state == FAILED ==> r.attempts == r.spec.maxAttempts)
    && (r.state == COMPLETED <==> r.accepted.Some?)
    && (r.accepted.Some? ==> r.accepted.value in r.history)
    && (r.active.Some? ==>
          var l := r.active.value;
          && l.id in r.history
          && l == r.history[l.id].(deadline := l.deadline)
          && l.attempt == r.attempts)
  }

  /** No lease id is in two histories. */
  ghost predicate DisjointHistories(tasks: Tasks) {
    forall i, j, id :: 0 <= i < |tasks| && 0 <= j < |tasks| && id in tasks[i].history && id in tasks[j].history ==> i == j
  }

  ghost predicate TableInv(tasks: Tasks) {
    && UniqueKeys(tasks)
    && DisjointHistories(tasks)
    && forall i :: 0 <= i < |tasks| ==> RecordInv(tasks[i])
  }

  ghost predicate Known(tasks: Tasks, id: LeaseId) {
    exists i :: 0 <= i < |tasks| && id in tasks[i].history
  }

  // -------------------------------------------------------------- transitions

  /** The moves of one record. A lease is only ever renewed before its deadline. */
  ghost predicate Moves(r: Record, r': Record, now: int) {
    || (r.state == PENDING && r'.active.Some?
        && var l := r'.active.value;
           l == NewLease(r, l.node, l.id, now) && l.id !in r.history && r' == Claimed(r, l))
    || (r.state == LEASED && r.active.Some? && r.active.value.deadline > now && r'.active.Some?
        && r.active.value.id in r.history
        && r'.active.value == r.history[r.active.value.id].(deadline := r'.active.value.deadline)
        && r' == r.(active := r'.active))
    || (r.state == LEASED && r.active.Some? && r' == Accepted(r, r.active.value.id))
    || (r.state == LEASED && r' == Released(r))
    || (!Terminal(r.state) && r' == Withdrawn(r))
  }

  /** A saved record is either new or one move away from the one it replaces, and
      any lease id it brings is new to the whole table. */
  ghost predicate SaveOk(tasks: Tasks, r': Record, now: int) {
    match IndexOf(tasks, r'.spec.key)
    case None => r' == NewRecord(r'.spec)
    case Some(i) =>
      && Moves(tasks[i], r', now)
      && forall id :: id in r'.history && id !in tasks[i].history ==> !Known(tasks, id)
  }

  ghost predicate Legal(tasks: Tasks, effects: seq<Effect>, now: int) {
    effects == [] ||
    var rest, last := effects[..|effects| - 1], effects[|effects| - 1];
    Legal(tasks, rest, now) && (last.Save? ==> SaveOk(After(tasks, rest), last.record, now))
  }

  lemma {:induction false} LegalPrefix(tasks: Tasks, effects: seq<Effect>, now: int, k: nat)
    requires Legal(tasks, effects, now) && k <= |effects|
    ensures Legal(tasks, effects[..k], now)
  {
    if k == |effects| {
      assert effects[..k] == effects;
    } else {
      var rest := effects[..|effects| - 1];
      assert rest[..k] == effects[..k];
      LegalPrefix(tasks, rest, now, k);
    }
  }

  lemma {:induction false} LegalConcat(tasks: Tasks, a: seq<Effect>, b: seq<Effect>, now: int)
    requires Legal(tasks, a, now) && Legal(After(tasks, a), b, now)
    ensures Legal(tasks, a + b, now)
  {
    if b == [] {
      assert a + b == a;
    } else {
      var b' := b[..|b| - 1];
      LegalConcat(tasks, a, b', now);
      AfterConcat(tasks, a, b');
      assert (a + b)[..|a + b| - 1] == a + b';
    }
  }

  // ---------------------------------------------------- what one record keeps

  /** Superseded, or past its deadline at time `t`. */
  ghost predicate Dead(r: Record, id: LeaseId, t: int) {
    !(r.active.Some? && r.active.value.id == id && r.active.value.deadline > t)
  }

  ghost predicate RecordEvolves(r: Record, r': Record) {
    && r'.spec == r.spec
    && r.attempts <= r'.attempts
    && (forall id :: id in r.history ==> id in r'.history && r'.history[id] == r.history[id])
    && (Terminal(r.state) ==> r' == r)
  }

  /** Leases dead at time `t` stay dead at time `t`. */
  ghost predicate DeadStays(r: Record, r': Record, t: int) {
    forall id :: id in r.history && Dead(r, id, t) ==> Dead(r', id, t)
  }

  lemma OneMoreAttempt(history: map<LeaseId, Lease>, l: Lease)
    requires l.id !in history
    ensures AttemptNumbers(history[l.id := l]) == AttemptNumbers(history) + {l.attempt}
  {
    var h := history[l.id := l];
    forall k | k in AttemptNumbers(history) ensures k in AttemptNumbers(h) {
      var id :| id in history && history[id].attempt == k;
      assert id in h && h[id].attempt == k;
    }
    assert h[l.id] == l;
  }

  lemma OneMoreKey(history: map<LeaseId, Lease>, id: LeaseId, l: Lease)
    requires id !in history
    ensures |history[id := l]| == |history| + 1
  {
    var h := history[id := l];
    assert h.Keys == history.Keys + {id};
    assert |h| == |h.Keys| && |history| == |history.Keys|;
  }

  lemma ClaimKeepsHistory(history: map<LeaseId, Lease>, attempts: nat, spec: TaskSpec, l: Lease)
    requires HistoryInv(history, attempts, spec) && l.id !in history
    requires l.attempt == attempts + 1 && l.key == spec.key && l.payload == spec.payload
    ensures HistoryInv(history[l.id := l], attempts + 1, spec)
  {
    hide AttemptNumbers;
    OneMoreKey(history, l.id, l);
    OneMoreAttempt(history, l);
  }

  lemma MoveKeepsRecord(r: Record, r': Record, now: int)
    requires RecordInv(r) && Moves(r, r', now)
    ensures RecordInv(r') && RecordEvolves(r, r')
    ensures forall t :: t <= now ==> DeadStays(r, r', t)
  {
    hide HistoryInv;
    if r.state == PENDING && r'.active.Some? && r'.active.value.id !in r.history && r' == Claimed(r, r'.active.value) {
      ClaimKeepsHistory(r.history, r.attempts, r.spec, r'.active.value);
    }
  }

  // --------------------------------------------------- what the table keeps

  ghost predicate Evolves(tasks: Tasks, tasks': Tasks) {
    |tasks| <= |tasks'| && forall i :: 0 <= i < |tasks| ==> RecordEvolves(tasks[i], tasks'[i])
  }

  ghost predicate DeadStayDead(tasks: Tasks, tasks': Tasks, t: int) {
    |tasks| <= |tasks'| && forall i :: 0 <= i < |tasks| ==> DeadStays(tasks[i], tasks'[i], t)
  }

  lemma SaveKeepsHistoriesApart(tasks: Tasks, r': Record, now: int)
    requires TableInv(tasks) && SaveOk(tasks, r', now)
    ensures DisjointHistories(Put(tasks, r'))
  {
    var p := Put(tasks, r');
    match IndexOf(tasks, r'.spec.key)
    case None =>
    case Some(i) =>
      assert forall j :: 0 <= j < |tasks| && j != i ==> p[j] == tasks[j];
  }

  lemma SaveKeepsTable(tasks: Tasks, r': Record, now: int)
    requires TableInv(tasks) && SaveOk(tasks, r', now)
    ensures TableInv(Put(tasks, r')) && Evolves(tasks, Put(tasks, r'))
    ensures forall t :: t <= now ==> DeadStayDead(tasks, Put(tasks, r'), t)
  {
    SaveKeepsHistoriesApart(tasks, r', now);
    match IndexOf(tasks, r'.spec.key)
    case None =>
      PutAppends(tasks, r');
      assert HistoryInv(map[], 0, r'.spec) by {
        assert AttemptNumbers(map[]) == UpTo(0);
      }
    case Some(i) =>
      PutReplaces(tasks, r', i);
      MoveKeepsRecord(tasks[i], r', now);
  }

  lemma EvolvesReflexive(tasks: Tasks, t: int)
    ensures Evolves(tasks, tasks) && DeadStayDead(tasks, tasks, t)
  {
  }

  lemma EvolvesTransitive(a: Tasks, b: Tasks, c: Tasks)
    requires Evolves(a, b) && Evolves(b, c)
    ensures Evolves(a, c)
  {
    forall i | 0 <= i < |a| ensures RecordEvolves(a[i], c[i]) {
      assert RecordEvolves(a[i], b[i]) && RecordEvolves(b[i], c[i]);
    }
  }

  lemma DeadTransitive(a: Tasks, b: Tasks, c: Tasks, t: int)
    requires Evolves(a, b) && DeadStayDead(a, b, t) && DeadStayDead(b, c, t)
    ensures DeadStayDead(a, c, t)
  {
    forall i | 0 <= i < |a| ensures DeadStays(a[i], c[i], t) {
      assert RecordEvolves(a[i], b[i]) && DeadStays(a[i], b[i], t) && DeadStays(b[i], c[i], t);
    }
  }

  /** Legal effects, all of them or the part a crash lets through, keep the
      invariant; tables only evolve, and dead leases stay dead. */
  lemma {:induction false} LegalKeepsTable(tasks: Tasks, effects: seq<Effect>, now: int, t: int)
    requires TableInv(tasks) && Legal(tasks, effects, now)
    ensures TableInv(After(tasks, effects)) && Evolves(tasks, After(tasks, effects))
    ensures t <= now ==> DeadStayDead(tasks, After(tasks, effects), t)
  {
    if effects != [] {
      var rest, last := effects[..|effects| - 1], effects[|effects| - 1];
      LegalKeepsTable(tasks, rest, now, t);
      var mid := After(tasks, rest);
      if last.Save? {
        var end := Put(mid, last.record);
        SaveKeepsTable(mid, last.record, now);
        EvolvesTransitive(tasks, mid, end);
        if t <= now { DeadTransitive(tasks, mid, end, t); }
      }
    }
  }

  // ------------------------------------------------- every request is legal

  function SweptRecord(r: Record, now: int): Record {
    if Overdue(r, now) then Released(r) else r
  }

  function Swept(tasks: Tasks, now: int): Tasks {
    if tasks == [] then []
    else Swept(tasks[..|tasks| - 1], now) + [SweptRecord(tasks[|tasks| - 1], now)]
  }

  lemma {:induction false} SweptAt(tasks: Tasks, now: int)
    ensures |Swept(tasks, now)| == |tasks|
    ensures forall i :: 0 <= i < |tasks| ==> Swept(tasks, now)[i] == SweptRecord(tasks[i], now)
  {
    if tasks != [] {
      SweptAt(tasks[..|tasks| - 1], now);
    }
  }

  /** Records that are not leased contribute nothing, so sweeping the list of leased
      records is sweeping the table. */
  lemma {:induction false} SweepOfLeased(tasks: Tasks, now: int)
    ensures SweepEffects(Leased(tasks), now) == SweepEffects(tasks, now)
    ensures OverdueCount(Leased(tasks), now) == OverdueCount(tasks, now)
  {
    if tasks != [] {
      var n := |tasks| - 1;
      SweepOfLeased(tasks[..n], now);
      var shorter := Leased(tasks[..n]);
      if tasks[n].state == LEASED {
        assert Leased(tasks) == shorter + [tasks[n]];
        assert (shorter + [tasks[n]])[..|shorter|] == shorter;
      } else {
        assert Leased(tasks) == shorter;
        assert SweepEffects(tasks, now) == SweepEffects(tasks[..n], now) + [];
      }
    }
  }

  lemma EmitSaveLegal(tasks: Tasks, r': Record, e: Event, now: int)
    requires SaveOk(tasks, r', now)
    ensures Legal(tasks, [Emit(e)], now) && Legal(tasks, [Emit(e), Save(r')], now)
  {
    assert [Emit(e), Save(r')][..1] == [Emit(e)] && [Emit(e)][..0] == [];
    assert After(tasks, [Emit(e)]) == tasks;
  }

  lemma SavingTheReleased(tasks: Tasks, i: nat, e: Event, now: int)
    requires UniqueKeys(tasks) && i < |tasks| && tasks[i].state == LEASED
    ensures Legal(tasks, [Emit(e)] + ReleaseEffects(tasks[i], now), now)
    ensures After(tasks, [Emit(e)] + ReleaseEffects(tasks[i], now)) == tasks[i := Released(tasks[i])]
  {
    var r' := Released(tasks[i]);
    var rel := ReleaseEffects(tasks[i], now);
    PutReplaces(tasks, r', i);
    SaveOkAt(tasks, i, r', now);
    EmitSaveLegal(tasks, r', e, now);
    EmitSaveLegal(tasks, r', rel[0].event, now);
    AfterEmit(tasks, e);
    AfterPair(tasks, r', rel[0].event);
    AfterConcat(tasks, [Emit(e)], rel);
    LegalConcat(tasks, [Emit(e)], rel, now);
  }

  lemma ExpiryLegal(tasks: Tasks, i: nat, now: int)
    requires UniqueKeys(tasks) && i < |tasks|
    ensures Legal(tasks, ExpiryEffects(tasks[i], now), now)
    ensures After(tasks, ExpiryEffects(tasks[i], now)) == tasks[i := SweptRecord(tasks[i], now)]
  {
    if Overdue(tasks[i], now) {
      SavingTheReleased(tasks, i, LeaseEvent(LEASE_EXPIRED, tasks[i].active.value, now), now);
    }
  }

  /** After the first `p` records have been swept. */
  function PartlySwept(tasks: Tasks, now: int, p: nat): Tasks
    requires p <= |tasks|
  {
    Swept(tasks[..p], now) + tasks[p..]
  }

  lemma PartlySweptStep(tasks: Tasks, now: int, p: nat)
    requires UniqueKeys(tasks) && p < |tasks|
    ensures |PartlySwept(tasks, now, p)| == |tasks| && PartlySwept(tasks, now, p)[p] == tasks[p]
    ensures UniqueKeys(PartlySwept(tasks, now, p))
    ensures PartlySwept(tasks, now, p)[p := SweptRecord(tasks[p], now)] == PartlySwept(tasks, now, p + 1)
  {
    SweptAt(tasks[..p], now);
    var mid := PartlySwept(tasks, now, p);
    assert forall i :: 0 <= i < |tasks| ==> mid[i].spec == tasks[i].spec;
    assert tasks[..p + 1][..p] == tasks[..p];
    assert Swept(tasks[..p + 1], now) == Swept(tasks[..p], now) + [SweptRecord(tasks[p], now)];
    assert |Swept(tasks[..p], now)| == p;
    hide Swept, SweptRecord;
    PutAfter(Swept(tasks[..p], now), tasks[p..], SweptRecord(tasks[p], now));
    assert tasks[p..][1..] == tasks[p + 1..];
  }

  lemma PutAfter<T>(a: seq<T>, b: seq<T>, x: T)
    requires b != []
    ensures (a + b)[|a| := x] == (a + [x]) + b[1..]
  {
  }

  lemma {:induction false} SweepLegal(tasks: Tasks, now: int, p: nat)
    requires UniqueKeys(tasks) && p <= |tasks|
    ensures Legal(tasks, SweepEffects(tasks[..p], now), now)
    ensures After(tasks, SweepEffects(tasks[..p], now)) == PartlySwept(tasks, now, p)
  {
    hide SweepEffects, ExpiryEffects, SaveOk, UniqueKeys;
    SweepNothing(tasks, now);
    if p == 0 {
      assert Swept(tasks[..0], now) + tasks == tasks;
    } else {
      var q := p - 1;
      SweepLegal(tasks, now, q);
      SweepStep(tasks, tasks, q, now);
      PartlySweptStep(tasks, now, q);
      ExpiryLegal(PartlySwept(tasks, now, q), q, now);
      LegalConcat(tasks, SweepEffects(tasks[..q], now), ExpiryEffects(tasks[q], now), now);
    }
  }

  lemma SweepIsSwept(tasks: Tasks, now: int)
    requires UniqueKeys(tasks)
    ensures Legal(tasks, SweepOutcome(tasks, now).effects, now)
    ensures After(tasks, SweepOutcome(tasks, now).effects) == Swept(tasks, now)
  {
    SweepOfLeased(tasks, now);
    SweepLegal(tasks, now, |tasks|);
    assert tasks[..|tasks|] == tasks;
  }

  /** The request's fresh lease id, if it brings one, is in no history. */
  ghost predicate FreshFor(tasks: Tasks, req: Request) {
    req.Claim? ==> !Known(tasks, req.id)
  }

  lemma OneSaveLegal(tasks: Tasks, r': Record, e: Event, now: int)
    requires SaveOk(tasks, r', now)
    ensures Legal(tasks, [Save(r')], now) && Legal(tasks, [Save(r'), Emit(e)], now)
  {
    assert [Save(r'), Emit(e)][..1] == [Save(r')] && [Save(r')][..0] == [];
    assert After(tasks, []) == tasks;
  }

  lemma SaveOkAt(tasks: Tasks, i: nat, r': Record, now: int)
    requires UniqueKeys(tasks) && i < |tasks| && tasks[i].spec.key == r'.spec.key
    requires Moves(tasks[i], r', now)
    requires forall id :: id in r'.history && id !in tasks[i].history ==> !Known(tasks, id)
    ensures SaveOk(tasks, r', now)
  {
    PutReplaces(tasks, r', i);
  }

  lemma GrantLegal(tasks: Tasks, node: NodeId, pick: Pick, id: LeaseId, now: int)
    requires UniqueKeys(tasks) && !Known(tasks, id)
    ensures Legal(tasks, GrantOutcome(tasks, node, pick, id, now).effects, now)
  {
    var at := PickIndex(tasks, pick);
    if at.Some? {
      var r := tasks[at.value];
      var l := NewLease(r, node, id, now);
      assert r.state == PENDING;
      SaveOkAt(tasks, at.value, Claimed(r, l), now);
      OneSaveLegal(tasks, Claimed(r, l), LeaseEvent(LEASE_CLAIMED, l, now), now);
    }
  }

  lemma LiveLegal(tasks: Tasks, id: LeaseId, i: nat, now: int)
    requires TableInv(tasks) && i < |tasks| && id in tasks[i].history && IsLive(tasks[i], id, now)
    ensures SaveOk(tasks, Accepted(tasks[i], id), now)
    ensures SaveOk(tasks, tasks[i].(active := Some(tasks[i].history[id].(deadline := now + tasks[i].spec.window))), now)
  {
    var r := tasks[i];
    SaveOkAt(tasks, i, Accepted(r, id), now);
    SaveOkAt(tasks, i, r.(active := Some(r.history[id].(deadline := now + r.spec.window))), now);
  }

  lemma HeartbeatLegal(tasks: Tasks, id: LeaseId, now: int)
    requires TableInv(tasks)
    ensures Legal(tasks, Handle(tasks, Request.Heartbeat(id), now).effects, now)
  {
    assert Legal(tasks, [], now);
    hide Legal, SaveOk, TableInv;
    var at := FindLease(tasks, id);
    if at.Some? && IsLive(tasks[at.value], id, now) {
      var r := tasks[at.value];
      LiveLegal(tasks, id, at.value, now);
      var renewed := r.history[id].(deadline := now + r.spec.window);
      OneSaveLegal(tasks, r.(active := Some(renewed)), LeaseEvent(LEASE_RENEWED, renewed, now), now);
      var out := Handle(tasks, Request.Heartbeat(id), now);
      assert out.effects == [Save(r.(active := Some(renewed))), Emit(LeaseEvent(LEASE_RENEWED, renewed, now))];
    }
  }

  lemma CompleteLegal(tasks: Tasks, id: LeaseId, now: int)
    requires TableInv(tasks)
    ensures Legal(tasks, Handle(tasks, Request.Complete(id), now).effects, now)
  {
    assert Legal(tasks, [], now);
    var at := FindLease(tasks, id);
    if at.Some? {
      var l := tasks[at.value].history[id];
      EmitLegal(tasks, LeaseEvent(TASK_COMMIT_REJECTED, l, now), now);
      hide Legal, SaveOk, TableInv;
      if IsLive(tasks[at.value], id, now) {
        LiveLegal(tasks, id, at.value, now);
        OneSaveLegal(tasks, Accepted(tasks[at.value], id), LeaseEvent(TASK_COMMIT_ACCEPTED, l, now), now);
      }
    }
  }

  lemma EmitLegal(tasks: Tasks, e: Event, now: int)
    ensures Legal(tasks, [Emit(e)], now)
  {
    assert [Emit(e)][..0] == [];
    assert Legal(tasks, [], now);
  }

  lemma FailLegal(tasks: Tasks, id: LeaseId, now: int)
    requires TableInv(tasks)
    ensures Legal(tasks, Handle(tasks, Request.Fail(id), now).effects, now)
  {
    assert Legal(tasks, [], now);
    hide Legal, SaveOk;
    var at := FindLease(tasks, id);
    if at.Some? && IsLive(tasks[at.value], id, now) {
      SavingTheReleased(tasks, at.value, LeaseEvent(TASK_ATTEMPT_FAILED, tasks[at.value].history[id], now), now);
    }
  }

  lemma LeaseRequestLegal(tasks: Tasks, req: Request, now: int)
    requires TableInv(tasks) && (req.Heartbeat? || req.Complete? || req.Fail?)
    ensures Legal(tasks, Handle(tasks, req, now).effects, now)
  {
    hide Legal, TableInv, Handle;
    match req
    case Heartbeat(id) => HeartbeatLegal(tasks, id, now);
    case Complete(id) => CompleteLegal(tasks, id, now);
    case Fail(id) => FailLegal(tasks, id, now);
  }

  lemma SweptKeepsKeys(tasks: Tasks, now: int, id: LeaseId)
    requires UniqueKeys(tasks)
    ensures UniqueKeys(Swept(tasks, now)) && (Known(Swept(tasks, now), id) ==> Known(tasks, id))
  {
    SweptAt(tasks, now);
  }

  lemma ClaimLegal(tasks: Tasks, node: NodeId, pick: Pick, id: LeaseId, now: int)
    requires TableInv(tasks) && !Known(tasks, id)
    ensures Legal(tasks, Handle(tasks, Request.Claim(node, pick, id), now).effects, now)
  {
    SweepIsSwept(tasks, now);
    SweptKeepsKeys(tasks, now, id);
    hide Legal, TableInv, SweepOutcome, GrantOutcome, After, Swept, Known, UniqueKeys;
    var swept := Swept(tasks, now);
    GrantLegal(swept, node, pick, id, now);
    LegalConcat(tasks, SweepOutcome(tasks, now).effects, GrantOutcome(swept, node, pick, id, now).effects, now);
  }

  lemma CancelLegal(tasks: Tasks, key: TaskKey, now: int)
    requires TableInv(tasks)
    ensures Legal(tasks, Handle(tasks, Cancel(key), now).effects, now)
  {
    var at := IndexOf(tasks, key);
    if at.Some? && !Terminal(tasks[at.value].state) {
      SaveOkAt(tasks, at.value, Withdrawn(tasks[at.value]), now);
      OneSaveLegal(tasks, Withdrawn(tasks[at.value]), Event(TASK_CREATED, key, None, now), now);
    }
  }

  /** Whatever is asked, the coordinator's effects are legal. */
  lemma HandleLegal(tasks: Tasks, req: Request, now: int)
    requires TableInv(tasks) && FreshFor(tasks, req)
    ensures Legal(tasks, Handle(tasks, req, now).effects, now)
  {
    match req
    case Add(spec) =>
      if IndexOf(tasks, spec.key).None? {
        OneSaveLegal(tasks, NewRecord(spec), Event(TASK_CREATED, spec.key, None, now), now);
      }
    case Cancel(key) => CancelLegal(tasks, key, now);
    case Claim(node, pick, id) => ClaimLegal(tasks, node, pick, id, now);
    case Heartbeat(_) => LeaseRequestLegal(tasks, req, now);
    case Complete(_) => LeaseRequestLegal(tasks, req, now);
    case Fail(_) => LeaseRequestLegal(tasks, req, now);
    case Sweep => SweepIsSwept(tasks, now);
  }
}
