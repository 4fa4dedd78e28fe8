/** The coordinator's mutable objects: task records, the store that holds them and
    the manager that drives them, each proved against `LeaseSpec.Handle`. */
module LeaseManager {
  import opened Prelude
  import opened LeaseOutcomes
  import opened LeaseSpec
  import opened LeaseTable

  class TaskRecord {
    const spec: TaskSpec
    var state: TaskState
    var attempts: nat
    var active: Option<Lease>
    var accepted: Option<LeaseId>
    var history: map<LeaseId, Lease>

    constructor (spec: TaskSpec)
      ensures Value() == NewRecord(spec)
    {
      this.spec, state, attempts := spec, PENDING, 0;
      active, accepted, history := None, None, map[];
    }

    constructor FromRow(r: Record)
      ensures Value() == r
    {
      spec, state, attempts := r.spec, r.state, r.attempts;
      active, accepted, history := r.active, r.accepted, r.history;
    }

    function Value(): Record
      reads this
    {
      Record(spec, state, attempts, active, accepted, history)
    }
  }

  /** The SQLite file; it outlives the coordinator. */
  class Database {
    var rows: Table

    constructor ()
      ensures rows == map[]
    {
      rows := map[];
    }
  }

  /** An insertion-ordered dictionary of live records. Without a database it is the
      in-memory store; with one, every save is also written through to the table.
      `model` is the table as of the last save of each record. */
  class LeaseStore {
    const db: Database?
    var cache: seq<TaskRecord>
    var counter: nat
    ghost var model: Tasks

    /** Every record outside `unsaved` is as it was last saved, and the table, if
        there is one, reads back as `model`. */
    ghost predicate SavedExcept(unsaved: set<TaskRecord>)
      reads this, cache, db
    {
      && |cache| == |model|
      && UniqueKeys(model)
      && (forall i :: 0 <= i < |cache| ==> cache[i].spec == model[i].spec)
      && (forall i :: 0 <= i < |cache| && cache[i] !in unsaved ==> cache[i].Value() == model[i])
      && (db != null ==> Synced(db.rows, model) && Numbered(db.rows, counter))
    }

    ghost predicate Valid()
      reads this, cache, db
    {
      SavedExcept({})
    }

    constructor InMemory()
      ensures Valid() && fresh(cache) && model == [] && db == null
    {
      db, cache, counter, model := null, [], 0, [];
    }

    /** Opens the file an earlier store left behind and rebuilds its cache. */
    constructor Open(file: Database, ghost tasks: Tasks)
      requires Synced(file.rows, tasks)
      ensures Valid() && fresh(cache) && model == tasks && db == file
    {
      db, cache, counter, model := file, [], 0, [];
      new;
      hide Synced, Numbered;
      var rows := OrderBySeq(file.rows, tasks);
      cache, counter := Rehydrate(rows, tasks);
      model := tasks;
      SyncedKeysAreUnique(file.rows, tasks);
      CounterCovers(file.rows, tasks, rows, counter);
    }

    /** A live record per row, and the greatest number seen. */
    static method Rehydrate(rows: seq<Row>, ghost tasks: Tasks) returns (cache: seq<TaskRecord>, counter: nat)
      requires |rows| == |tasks| && forall i :: 0 <= i < |rows| ==> rows[i].record == tasks[i]
      ensures |cache| == |tasks| && forall j :: 0 <= j < |cache| ==> fresh(cache[j]) && cache[j].Value() == tasks[j]
      ensures forall j :: 0 <= j < |rows| ==> rows[j].seqNo <= counter
    {
      cache, counter := [], 0;
      for i := 0 to |rows|
        invariant |cache| == i
        invariant forall j :: 0 <= j < i ==> fresh(cache[j]) && cache[j].Value() == tasks[j]
        invariant forall j :: 0 <= j < i ==> rows[j].seqNo <= counter
      {
        var record := new TaskRecord.FromRow(rows[i].record);
        cache := cache + [record];
        counter := Max(counter, rows[i].seqNo);
      }
    }

    method Persist(record: TaskRecord, seqNo: nat)
      modifies db
      ensures db != null ==> db.rows == Upsert(old(db.rows), record.Value(), seqNo)
    {
      if db != null {
        db.rows := Upsert(db.rows, record.Value(), seqNo);
      }
    }

    /** Appends a record under a key the table does not hold. */
    method Append(record: TaskRecord)
      requires Valid() && record !in cache && IndexOf(model, record.spec.key).None?
      modifies this, db
      ensures Valid()
      ensures cache == old(cache) + [record] && model == old(model) + [record.Value()]
    {
      hide Synced, Upsert, Put, Numbered, UniqueKeys;
      ghost var r := record.Value();
      PutAppends(model, r);
      if db != null {
        UpsertSynced(db.rows, model, r, counter);
      }
      cache := cache + [record];
      counter := counter + 1;
      Persist(record, counter);
      model := model + [r];
    }

    /** False, and nothing changed, when the key is taken. */
    method Add(record: TaskRecord) returns (ok: bool)
      requires Valid() && record !in cache
      modifies this, db
      ensures Valid()
      ensures ok == IndexOf(old(model), record.spec.key).None?
      ensures ok ==> cache == old(cache) + [record] && model == Put(old(model), record.Value())
      ensures !ok ==> cache == old(cache) && model == old(model)
    {
      var found, _ := Get(record.spec.key);
      if found != null {
        return false;
      }
      PutAppends(model, record.Value());
      hide Synced, Numbered, UniqueKeys, Put;
      Append(record);
      ok := true;
    }

    method Save(record: TaskRecord)
      requires record in cache && SavedExcept({record})
      modifies this, db
      ensures Valid() && cache == old(cache)
      ensures model == Put(old(model), record.Value())
    {
      hide Synced, Upsert, Put, Numbered;
      ghost var r := record.Value();
      ghost var i :| 0 <= i < |cache| && cache[i] == record;
      PutReplaces(model, r, i);
      OnlyItsOwnSpec(model, r, i);
      hide UniqueKeys, IndexOf;
      assert forall j :: 0 <= j < |cache| && j != i ==> cache[j] != record;
      if db != null {
        UpsertSynced(db.rows, model, r, counter);
      }
      Persist(record, 0);
      model := model[i := r];
    }

    method Get(key: TaskKey) returns (record: TaskRecord?, ghost at: nat)
      requires Valid()
      ensures record == null <==> IndexOf(model, key).None?
      ensures record != null ==> IndexOf(model, key) == Some(at) && at < |cache| && cache[at] == record
    {
      ghost var p := (r: Record) => r.spec.key == key;
      for i := 0 to |cache|
        invariant forall j :: 0 <= j < i ==> !p(model[j])
      {
        if cache[i].spec.key == key {
          FirstIs(model, p, i);
          return cache[i], i;
        }
      }
      return null, 0;
    }

    method NextPending(job: Option<string>) returns (record: TaskRecord?, ghost at: nat)
      requires Valid()
      ensures record == null <==> PickIndex(model, Fifo(job)).None?
      ensures record != null ==> PickIndex(model, Fifo(job)) == Some(at) && at < |cache| && cache[at] == record
    {
      ghost var p := (r: Record) => r.state == PENDING && InJob(r, job);
      for i := 0 to |cache|
        invariant forall j :: 0 <= j < i ==> !p(model[j])
      {
        assert cache[i].Value() == model[i];
        if cache[i].state == PENDING && (job.None? || cache[i].spec.key.job == job.value) {
          FirstIs(model, p, i);
          return cache[i], i;
        }
      }
      return null, 0;
    }

    method ListLeased() returns (records: seq<TaskRecord>)
      requires Valid()
      ensures |records| == |Leased(model)|
      ensures forall i :: 0 <= i < |records| ==> records[i] in cache && records[i].Value() == Leased(model)[i]
    {
      records := [];
      for i := 0 to |cache|
        invariant |records| == |Leased(model[..i])|
        invariant forall j :: 0 <= j < |records| ==> records[j] in cache && records[j].Value() == Leased(model[..i])[j]
      {
        assert cache[i].Value() == model[i];
        assert model[..i + 1][..i] == model[..i];
        if cache[i].state == LEASED {
          records := records + [cache[i]];
        }
      }
      assert model[..|cache|] == model;
    }
  }

  /** With unique keys, only the record at `i` has the spec of `r`. */
  lemma OnlyItsOwnSpec(tasks: Tasks, r: Record, i: nat)
    requires UniqueKeys(tasks) && i < |tasks| && tasks[i].spec == r.spec
    ensures forall j :: 0 <= j < |tasks| && tasks[j].spec.key == r.spec.key ==> j == i && tasks[j].spec == r.spec
  {
  }

  /** Leased records keep distinct keys, each from a record of the table. */
  lemma {:induction false} LeasedIsSubsequence(tasks: Tasks)
    requires UniqueKeys(tasks)
    ensures UniqueKeys(Leased(tasks))
    ensures forall r :: r in Leased(tasks) ==> r in tasks && r.state == LEASED
  {
    if tasks != [] {
      var n := |tasks| - 1;
      LeasedIsSubsequence(tasks[..n]);
      var shorter := Leased(tasks[..n]);
      forall i | 0 <= i < |shorter| ensures shorter[i].spec.key != tasks[n].spec.key {
        assert shorter[i] in tasks[..n];
      }
    }
  }

  class LeaseManager {
    const store: LeaseStore
    /** Every event emitted and every record saved, in order. */
    ghost var log: seq<Effect>

    constructor (store: LeaseStore)
      requires store.Valid()
      ensures this.store == store && log == []
    {
      this.store, log := store, [];
    }

    ghost predicate Valid()
      reads this, store, store.cache, store.db
    {
      store.Valid()
    }

    /** The request was handled as specified, effect by effect. */
    ghost predicate Performed(before: Tasks, logged: seq<Effect>, done: Outcome)
      reads this, store
    {
      log == logged + done.effects && store.model == After(before, done.effects)
    }

    ghost method Record(e: Effect)
      modifies this`log
      ensures log == old(log) + [e]
    {
      log := log + [e];
    }

    method AddTask(spec: TaskSpec, now: int) returns (reply: Reply)
      requires Valid()
      modifies this, store, store.db
      ensures Valid() && Performed(old(store.model), old(log), Handle(old(store.model), Request.Add(spec), now))
      ensures reply == Handle(old(store.model), Request.Add(spec), now).reply
    {
      var record := new TaskRecord(spec);
      var ok := store.Add(record);
      if !ok {
        return Refused(DuplicateTask);
      }
      Record(Save(record.Value()));
      Record(Emit(Event(TASK_CREATED, spec.key, None, now)));
      AfterPair(old(store.model), NewRecord(spec), Event(TASK_CREATED, spec.key, None, now));
      return Done;
    }

    method CancelTask(key: TaskKey, now: int) returns (reply: Reply)
      requires Valid()
      modifies this, store, store.cache, store.db
      ensures Valid() && Performed(old(store.model), old(log), Handle(old(store.model), Cancel(key), now))
      ensures reply == Handle(old(store.model), Cancel(key), now).reply
    {
      var record, _ := store.Get(key);
      if record == null {
        return Refused(UnknownTask);
      }
      if record.state in {COMPLETED, FAILED, CANCELLED} {
        return Done;
      }
      record.state := CANCELLED;
      record.active := None;
      store.Save(record);
      Record(Save(record.Value()));
      return Done;
    }

    /** Requeue, or fail for good once the attempts are used up. */
    method Release(record: TaskRecord, ghost at: nat, now: int)
      requires Valid() && at < |store.cache| && store.cache[at] == record
      modifies this, store, store.cache, store.db
      ensures Valid() && store.cache == old(store.cache)
      ensures log == old(log) + ReleaseEffects(old(store.model)[at], now)
      ensures store.model == old(store.model)[at := Released(old(store.model)[at])]
      ensures forall i :: 0 <= i < |store.cache| && i != at ==> store.cache[i].Value() == old(store.cache[i].Value())
    {
      hide Put, Synced, Numbered, UniqueKeys;
      ghost var r := store.model[at];
      assert record.Value() == r;
      record.active := None;
      if record.attempts >= record.spec.maxAttempts {
        record.state := FAILED;
        Record(Emit(Event(TASK_EXHAUSTED, record.spec.key, None, now)));
      } else {
        record.state := PENDING;
        Record(Emit(Event(TASK_REQUEUED, record.spec.key, None, now)));
      }
      assert record.Value() == Released(r);
      PutReplaces(store.model, Released(r), at);
      store.Save(record);
      Record(Save(Released(r)));
    }

    /** The body of the sweep's loop. */
    method ExpireIfOverdue(record: TaskRecord, ghost at: nat, now: int) returns (overdue: bool)
      requires Valid() && at < |store.cache| && store.cache[at] == record && record.state == LEASED
      modifies this, store, store.cache, store.db
      ensures Valid() && store.cache == old(store.cache)
      ensures log == old(log) + ExpiryEffects(old(store.model)[at], now)
      ensures store.model == After(old(store.model), ExpiryEffects(old(store.model)[at], now))
      ensures overdue == Overdue(old(store.model)[at], now)
      ensures forall i :: 0 <= i < |store.cache| && i != at ==> store.cache[i].Value() == old(store.cache[i].Value())
    {
      assert record.Value() == store.model[at];
      overdue := record.active.Some? && record.active.value.deadline <= now;
      if overdue {
        var l := record.active.value;
        ReleaseAfterEmit(store.model, at, LeaseEvent(LEASE_EXPIRED, l, now), now);
        Record(Emit(LeaseEvent(LEASE_EXPIRED, l, now)));
        Release(record, at, now);
      }
    }

    method SweepExpired(now: int) returns (expired: nat)
      requires Valid()
      modifies this, store, store.cache, store.db
      ensures Valid() && store.cache == old(store.cache)
      ensures Performed(old(store.model), old(log), SweepOutcome(old(store.model), now))
      ensures Expired(expired) == SweepOutcome(old(store.model), now).reply
      ensures |store.model| == |old(store.model)| && expired == |LateTasks(old(store.model), now)|
      ensures forall p :: 0 <= p < |store.model| ==> SweptTo(old(store.model), p, now, store.model[p])
    {
      hide After, SweepEffects, ExpiryEffects, OverdueCount, Put, Synced, Numbered, UniqueKeys, Leased;
      ghost var before := store.model;
      ghost var todo := Leased(before);
      var leased := store.ListLeased();
      LeasedIsSubsequence(before);
      SweepNothing(before, now);
      expired := 0;
      for i := 0 to |leased|
        invariant Valid() && store.cache == old(store.cache)
        invariant log == old(log) + SweepEffects(todo[..i], now)
        invariant store.model == After(before, SweepEffects(todo[..i], now))
        invariant expired == OverdueCount(todo[..i], now)
        invariant forall j :: i <= j < |leased| ==> leased[j].Value() == todo[j]
      {
        assert leased[i] in store.cache;
        ghost var at :| 0 <= at < |store.cache| && store.cache[at] == leased[i];
        assert store.model[at] == todo[i];
        SweepStep(before, todo, i, now);
        var overdue := ExpireIfOverdue(leased[i], at, now);
        if overdue {
          expired := expired + 1;
        }
      }
      assert todo[..|leased|] == todo;
      SweepOutcomeMeans(before, now);
      hide LateTasks, SweptTo, SweepOutcome;
    }

    /** Save a changed record, then announce it. */
    method SaveThenEmit(record: TaskRecord, ghost e: Event)
      requires record in store.cache && store.SavedExcept({record})
      modifies this, store, store.db
      ensures Valid() && store.cache == old(store.cache)
      ensures Performed(old(store.model), old(log), Outcome([Save(record.Value()), Emit(e)], Done))
    {
      store.Save(record);
      Record(Save(record.Value()));
      Record(Emit(e));
      AfterPair(old(store.model), record.Value(), e);
    }

    /** The policy's answer, looked up among the pending tasks; a foreign one finds nothing. */
    method Choose(pick: Pick) returns (record: TaskRecord?, ghost at: nat)
      requires Valid()
      ensures record == null <==> PickIndex(store.model, pick).None?
      ensures record != null ==> PickIndex(store.model, pick) == Some(at) && at < |store.cache| && store.cache[at] == record
    {
      match pick
      case Fifo(job) =>
        record, at := store.NextPending(job);
      case Policy(job, None) =>
        record, at := null, 0;
      case Policy(job, Some(k)) =>
        ghost var p := (r: Record) => r.state == PENDING && InJob(r, job) && r.spec.key == k;
        for i := 0 to |store.cache|
          invariant forall j :: 0 <= j < i ==> !p(store.model[j])
        {
          var candidate := store.cache[i];
          assert candidate.Value() == store.model[i];
          if candidate.state == PENDING && (job.None? || candidate.spec.key.job == job.value) && candidate.spec.key == k {
            FirstIs(store.model, p, i);
            return candidate, i;
          }
        }
        record, at := null, 0;
    }

    method Grant(node: NodeId, pick: Pick, id: LeaseId, now: int) returns (reply: Reply)
      requires Valid()
      modifies this, store, store.cache, store.db
      ensures Valid() && Performed(old(store.model), old(log), GrantOutcome(old(store.model), node, pick, id, now))
      ensures reply == GrantOutcome(old(store.model), node, pick, id, now).reply
    {
      hide Put, After, PickIndex;
      var record, at := Choose(pick);
      if record == null {
        AfterNothing(store.model);
        return NoWork;
      }
      ghost var r := store.model[at];
      assert record.Value() == r;
      record.attempts := record.attempts + 1;
      var l := Lease(id, record.spec.key, node, record.attempts, now + record.spec.window, record.spec.payload);
      record.state := LEASED;
      record.active := Some(l);
      record.history := record.history[l.id := l];
      assert record.Value() == Claimed(r, NewLease(r, node, id, now));
      SaveThenEmit(record, LeaseEvent(LEASE_CLAIMED, l, now));
      return Granted(l);
    }

    method Claim(node: NodeId, pick: Pick, id: LeaseId, now: int) returns (reply: Reply)
      requires Valid()
      modifies this, store, store.cache, store.db
      ensures Valid() && Performed(old(store.model), old(log), Handle(old(store.model), Request.Claim(node, pick, id), now))
      ensures reply == Handle(old(store.model), Request.Claim(node, pick, id), now).reply
      ensures ClaimAnswered(TableAfter(old(store.model), Request.Sweep, now), store.model, reply, node, pick, id, now)
    {
      hide After, SweepOutcome, GrantOutcome;
      ghost var before := store.model;
      var _ := SweepExpired(now);
      AfterConcat(before, SweepOutcome(before, now).effects,
                  GrantOutcome(store.model, node, pick, id, now).effects);
      reply := Grant(node, pick, id, now);
      assert UniqueKeys(before) && store.model == After(before, Handle(before, Request.Claim(node, pick, id), now).effects);
      assert Performed(before, old(log), Handle(before, Request.Claim(node, pick, id), now));
      hide *;
      ClaimAnswers(before, node, pick, id, now, store.model, reply);
    }

    method Locate(id: LeaseId) returns (record: TaskRecord?, ghost at: nat)
      requires Valid()
      ensures record == null <==> FindLease(store.model, id).None?
      ensures record != null ==> FindLease(store.model, id) == Some(at) && at < |store.cache| && store.cache[at] == record
      ensures record != null ==> record.Value() == store.model[at] && id in record.history
    {
      ghost var p := (r: Record) => id in r.history;
      for i := 0 to |store.cache|
        invariant forall j :: 0 <= j < i ==> !p(store.model[j])
      {
        assert store.cache[i].Value() == store.model[i];
        if id in store.cache[i].history {
          FirstIs(store.model, p, i);
          return store.cache[i], i;
        }
      }
      return null, 0;
    }

    method Heartbeat(id: LeaseId, now: int) returns (reply: Reply)
      requires Valid()
      modifies this, store, store.cache, store.db
      ensures Valid() && Performed(old(store.model), old(log), Handle(old(store.model), Request.Heartbeat(id), now))
      ensures reply == Handle(old(store.model), Request.Heartbeat(id), now).reply
    {
      hide Put, After, FindLease, Synced, Numbered, UniqueKeys;
      AfterNothing(store.model);
      var record, at := Locate(id);
      if record == null {
        return Refused(UnknownLease);
      }
      if !IsLive(record.Value(), id, now) {
        return Refused(LeaseNotLive);
      }
      ghost var r := store.model[at];
      assert record.Value() == r;
      var renewed := record.history[id].(deadline := now + record.spec.window);
      record.active := Some(renewed);
      assert record.Value() == r.(active := Some(renewed));
      SaveThenEmit(record, LeaseEvent(LEASE_RENEWED, renewed, now));
      return Renewed(renewed);
    }

    method Complete(id: LeaseId, now: int) returns (reply: Reply)
      requires Valid()
      modifies this, store, store.cache, store.db
      ensures Valid() && Performed(old(store.model), old(log), Handle(old(store.model), Request.Complete(id), now))
      ensures reply == Handle(old(store.model), Request.Complete(id), now).reply
    {
      hide Put, After, FindLease;
      AfterNothing(store.model);
      var record, at := Locate(id);
      if record == null {
        return Refused(UnknownLease);
      }
      var l := record.history[id];
      if record.state == COMPLETED || !IsLive(record.Value(), id, now) {
        Record(Emit(LeaseEvent(TASK_COMMIT_REJECTED, l, now)));
        AfterEmit(store.model, LeaseEvent(TASK_COMMIT_REJECTED, l, now));
        return Committed(false);
      }
      record.state := COMPLETED;
      record.accepted := Some(l.id);
      record.active := None;
      SaveThenEmit(record, LeaseEvent(TASK_COMMIT_ACCEPTED, l, now));
      return Committed(true);
    }

    method Fail(id: LeaseId, now: int) returns (reply: Reply)
      requires Valid()
      modifies this, store, store.cache, store.db
      ensures Valid() && Performed(old(store.model), old(log), Handle(old(store.model), Request.Fail(id), now))
      ensures reply == Handle(old(store.model), Request.Fail(id), now).reply
    {
      hide Put, After, FindLease, ReleaseEffects;
      AfterNothing(store.model);
      var record, at := Locate(id);
      if record == null {
        return Refused(UnknownLease);
      }
      if !IsLive(record.Value(), id, now) {
        return Refused(LeaseNotLive);
      }
      var l := record.history[id];
      ReleaseAfterEmit(store.model, at, LeaseEvent(TASK_ATTEMPT_FAILED, l, now), now);
      Record(Emit(LeaseEvent(TASK_ATTEMPT_FAILED, l, now)));
      Release(record, at, now);
      return Done;
    }

    method LiveLeasesForNode(node: NodeId, now: int) returns (scope: set<TaskKey>)
      requires Valid()
      ensures scope == WriteScope(store.model, node, now)
    {
      scope := {};
      for i := 0 to |store.cache|
        invariant scope == WriteScope(store.model[..i], node, now)
      {
        var record := store.cache[i];
        assert record.Value() == store.model[i];
        if record.state == LEASED && record.active.Some? && record.active.value.node == node
           && IsLive(record.Value(), record.active.value.id, now) {
          scope := scope + {record.active.value.key};
        }
        ScopeStep(store.model, i, node, now);
      }
      assert store.model[..|store.cache|] == store.model;
    }
  }

  /** What a release does to the table, with the event that precedes it. */
  lemma ReleaseAfterEmit(tasks: Tasks, at: nat, e: Event, now: int)
    requires UniqueKeys(tasks) && at < |tasks|
    ensures After(tasks, [Emit(e)] + ReleaseEffects(tasks[at], now)) == tasks[at := Released(tasks[at])]
  {
    var rest := ReleaseEffects(tasks[at], now);
    AfterConcat(tasks, [Emit(e)], rest);
    assert [Emit(e)][..0] == [];
    AfterPair(tasks, Released(tasks[at]), rest[0].event);
    PutReplaces(tasks, Released(tasks[at]), at);
  }
}
