/** The lease protocol of the coordinator as a function from requests to effects.

    A request is handled by a list of effects in the order the coordinator issues
    them: `Emit` appends an event, `Save` commits one record to the store. A
    coordinator that dies in the middle of a request has performed a prefix of the
    list; one that survives has performed all of it and then replies. */
module LeaseSpec {
  import opened Prelude

  type LeaseId = string
  type NodeId = string

  /** Task ids are positional within a job, so the job id is part of the key. */
  datatype TaskKey = TaskKey(job: string, task: string)

  type pos = n: nat | n >= 1 witness 1

  /** `window` is the lease duration in clock ticks. */
  datatype TaskSpec = TaskSpec(key: TaskKey, payload: string, maxAttempts: pos, window: nat)

  datatype TaskState = PENDING | LEASED | COMPLETED | FAILED | CANCELLED

  datatype Lease = Lease(id: LeaseId, key: TaskKey, node: NodeId, attempt: nat, deadline: int, payload: string)

  datatype Record = Record(
    spec: TaskSpec,
    state: TaskState,
    attempts: nat,
    active: Option<Lease>,
    accepted: Option<LeaseId>,
    history: map<LeaseId, Lease>)

  /** Insertion-ordered task table. */
  type Tasks = seq<Record>

  datatype EventKind =
    | TASK_CREATED | LEASE_CLAIMED | LEASE_RENEWED | LEASE_EXPIRED | TASK_ATTEMPT_FAILED
    | TASK_REQUEUED | TASK_EXHAUSTED | TASK_COMMIT_ACCEPTED | TASK_COMMIT_REJECTED

  datatype Event = Event(kind: EventKind, key: TaskKey, node: Option<NodeId>, at: int)

  datatype Effect = Emit(event: Event) | Save(record: Record)

  /** How `claim` selects among pending tasks: queue order, or whatever an external
      policy answered (any key, or nothing). */
  datatype Pick = Fifo(job: Option<string>) | Policy(job: Option<string>, chosen: Option<TaskKey>)

  datatype Request =
    | Add(spec: TaskSpec)
    | Cancel(key: TaskKey)
    | Claim(node: NodeId, pick: Pick, id: LeaseId)
    | Heartbeat(lease: LeaseId)
    | Complete(lease: LeaseId)
    | Fail(lease: LeaseId)
    | Sweep

  datatype Error = DuplicateTask | UnknownTask | UnknownLease | LeaseNotLive

  datatype Reply =
    | Done
    | Granted(lease: Lease)
    | NoWork
    | Renewed(lease: Lease)
    | Committed(accepted: bool)
    | Expired(count: nat)
    | Refused(error: Error)

  datatype Outcome = Outcome(effects: seq<Effect>, reply: Reply)

  // ---------------------------------------------------------------- the store

  function IndexOf(tasks: Tasks, key: TaskKey): Option<nat> {
    First(tasks, (r: Record) => r.spec.key == key)
  }

  function FindLease(tasks: Tasks, id: LeaseId): Option<nat> {
    First(tasks, (r: Record) => id in r.history)
  }

  /** An insertion-ordered dictionary update: replace in place, else append. */
  function Put(tasks: Tasks, r: Record): Tasks {
    match IndexOf(tasks, r.spec.key)
    case Some(i) => tasks[i := r]
    case None => tasks + [r]
  }

  /** The table after `effects`. */
  function After(tasks: Tasks, effects: seq<Effect>): Tasks {
    if effects == [] then tasks
    else match effects[|effects| - 1]
      case Emit(_) => After(tasks, effects[..|effects| - 1])
      case Save(r) => Put(After(tasks, effects[..|effects| - 1]), r)
  }

  lemma {:induction false} AfterConcat(tasks: Tasks, a: seq<Effect>, b: seq<Effect>)
    ensures After(tasks, a + b) == After(After(tasks, a), b)
  {
    if b == [] {
      assert a + b == a;
    } else {
      assert (a + b)[..|a + b| - 1] == a + b[..|b| - 1];
      AfterConcat(tasks, a, b[..|b| - 1]);
    }
  }

  lemma AfterNothing(tasks: Tasks)
    ensures After(tasks, []) == tasks
  {
  }

  lemma AfterEmit(tasks: Tasks, e: Event)
    ensures After(tasks, [Emit(e)]) == tasks
  {
  }

  lemma AfterPair(tasks: Tasks, r: Record, e: Event)
    ensures After(tasks, [Save(r), Emit(e)]) == Put(tasks, r)
    ensures After(tasks, [Emit(e), Save(r)]) == Put(tasks, r)
  {
    assert [Save(r), Emit(e)][..1] == [Save(r)] && [Emit(e), Save(r)][..1] == [Emit(e)];
    assert [Save(r)][..0] == [] && [Emit(e)][..0] == [];
    assert After(tasks, [Save(r)]) == Put(tasks, r) && After(tasks, [Emit(e)]) == tasks;
  }

  // ------------------------------------------------------- record transitions

  predicate Terminal(s: TaskState) { s in {COMPLETED, FAILED, CANCELLED} }

  function NewRecord(spec: TaskSpec): Record {
    Record(spec, PENDING, 0, None, None, map[])
  }

  function NewLease(r: Record, node: NodeId, id: LeaseId, now: int): Lease {
    Lease(id, r.spec.key, node, r.attempts + 1, now + r.spec.window, r.spec.payload)
  }

  function Claimed(r: Record, l: Lease): Record {
    r.(state := LEASED, attempts := r.attempts + 1, active := Some(l), history := r.history[l.id := l])
  }

  function Released(r: Record): Record {
    r.(active := None, state := if r.attempts >= r.spec.maxAttempts then FAILED else PENDING)
  }

  function Accepted(r: Record, id: LeaseId): Record {
    r.(state := COMPLETED, accepted := Some(id), active := None)
  }

  function Withdrawn(r: Record): Record {
    r.(state := CANCELLED, active := None)
  }

  /** Lease `id` is the active one of `r` and its deadline is ahead. */
  predicate IsLive(r: Record, id: LeaseId, now: int) {
    r.active.Some? && r.active.value.id == id && r.active.value.deadline > now && r.state == LEASED
  }

  predicate Overdue(r: Record, now: int) {
    r.state == LEASED && r.active.Some? && r.active.value.deadline <= now
  }

  // ----------------------------------------------------------------- handlers

  function LeaseEvent(kind: EventKind, l: Lease, now: int): Event {
    Event(kind, l.key, Some(l.node), now)
  }

  function ReleaseEffects(r: Record, now: int): seq<Effect> {
    [Emit(Event(if r.attempts >= r.spec.maxAttempts then TASK_EXHAUSTED else TASK_REQUEUED,
                r.spec.key, None, now)),
     Save(Released(r))]
  }

  function ExpiryEffects(r: Record, now: int): seq<Effect> {
    if Overdue(r, now) then
      [Emit(LeaseEvent(LEASE_EXPIRED, r.active.value, now))] + ReleaseEffects(r, now)
    else []
  }

  /** The records `leased()` lists, in table order. */
  function Leased(tasks: Tasks): Tasks {
    if tasks == [] then []
    else
      var last := tasks[|tasks| - 1];
      Leased(tasks[..|tasks| - 1]) + if last.state == LEASED then [last] else []
  }

  function SweepEffects(tasks: Tasks, now: int): seq<Effect> {
    if tasks == [] then []
    else SweepEffects(tasks[..|tasks| - 1], now) + ExpiryEffects(tasks[|tasks| - 1], now)
  }

  function OverdueCount(tasks: Tasks, now: int): nat {
    if tasks == [] then 0
    else OverdueCount(tasks[..|tasks| - 1], now) + if Overdue(tasks[|tasks| - 1], now) then 1 else 0
  }

  /** One more listed record adds its expiry to the sweep. */
  lemma SweepStep(before: Tasks, todo: Tasks, i: nat, now: int)
    requires i < |todo|
    ensures SweepEffects(todo[..i + 1], now) == SweepEffects(todo[..i], now) + ExpiryEffects(todo[i], now)
    ensures After(before, SweepEffects(todo[..i + 1], now))
         == After(After(before, SweepEffects(todo[..i], now)), ExpiryEffects(todo[i], now))
    ensures OverdueCount(todo[..i + 1], now) == OverdueCount(todo[..i], now) + if Overdue(todo[i], now) then 1 else 0
  {
    assert todo[..i + 1][..i] == todo[..i];
    AfterConcat(before, SweepEffects(todo[..i], now), ExpiryEffects(todo[i], now));
  }

  lemma SweepNothing(tasks: Tasks, now: int)
    ensures SweepEffects([], now) == [] && OverdueCount([], now) == 0 && After(tasks, []) == tasks
  {
  }

  predicate InJob(r: Record, job: Option<string>) {
    job.None? || r.spec.key.job == job.value
  }

  function PickIndex(tasks: Tasks, pick: Pick): Option<nat> {
    match pick
    case Fifo(job) => First(tasks, (r: Record) => r.state == PENDING && InJob(r, job))
    case Policy(job, None) => None
    case Policy(job, Some(k)) =>
      First(tasks, (r: Record) => r.state == PENDING && InJob(r, job) && r.spec.key == k)
  }

  /** Claiming from a table that has just been swept. */
  function GrantOutcome(tasks: Tasks, node: NodeId, pick: Pick, id: LeaseId, now: int): Outcome {
    match PickIndex(tasks, pick)
    case None => Outcome([], NoWork)
    case Some(i) =>
      var l := NewLease(tasks[i], node, id, now);
      Outcome([Save(Claimed(tasks[i], l)), Emit(LeaseEvent(LEASE_CLAIMED, l, now))], Granted(l))
  }

  function SweepOutcome(tasks: Tasks, now: int): Outcome {
    Outcome(SweepEffects(Leased(tasks), now), Expired(OverdueCount(Leased(tasks), now)))
  }

  function Handle(tasks: Tasks, req: Request, now: int): Outcome {
    match req
    case Add(spec) =>
      if IndexOf(tasks, spec.key).Some? then Outcome([], Refused(DuplicateTask))
      else Outcome([Save(NewRecord(spec)), Emit(Event(TASK_CREATED, spec.key, None, now))], Done)
    case Cancel(key) =>
      (match IndexOf(tasks, key)
       case None => Outcome([], Refused(UnknownTask))
       case Some(i) =>
         Outcome(if Terminal(tasks[i].state) then [] else [Save(Withdrawn(tasks[i]))], Done))
    case Claim(node, pick, id) =>
      var sweep := SweepOutcome(tasks, now).effects;
      var grant := GrantOutcome(After(tasks, sweep), node, pick, id, now);
      Outcome(sweep + grant.effects, grant.reply)
    case Heartbeat(id) =>
      (match FindLease(tasks, id)
       case None => Outcome([], Refused(UnknownLease))
       case Some(i) =>
         var r := tasks[i];
         if !IsLive(r, id, now) then Outcome([], Refused(LeaseNotLive))
         else
           var renewed := r.history[id].(deadline := now + r.spec.window);
           Outcome([Save(r.(active := Some(renewed))), Emit(LeaseEvent(LEASE_RENEWED, renewed, now))],
                   Renewed(renewed)))
    case Complete(id) =>
      (match FindLease(tasks, id)
       case None => Outcome([], Refused(UnknownLease))
       case Some(i) =>
         var r := tasks[i];
         var l := r.history[id];
         if r.state == COMPLETED || !IsLive(r, id, now) then
           Outcome([Emit(LeaseEvent(TASK_COMMIT_REJECTED, l, now))], Committed(false))
         else
           Outcome([Save(Accepted(r, l.id)), Emit(LeaseEvent(TASK_COMMIT_ACCEPTED, l, now))], Committed(true)))
    case Fail(id) =>
      (match FindLease(tasks, id)
       case None => Outcome([], Refused(UnknownLease))
       case Some(i) =>
         var r := tasks[i];
         if !IsLive(r, id, now) then Outcome([], Refused(LeaseNotLive))
         else
           Outcome([Emit(LeaseEvent(TASK_ATTEMPT_FAILED, r.history[id], now))] + ReleaseEffects(r, now), Done))
    case Sweep => SweepOutcome(tasks, now)
  }

  /** The tasks `node` may currently write to. */
  function WriteScope(tasks: Tasks, node: NodeId, now: int): set<TaskKey> {
    set i | 0 <= i < |tasks| && tasks[i].state == LEASED && tasks[i].active.Some?
            && tasks[i].active.value.node == node
            && IsLive(tasks[i], tasks[i].active.value.id, now)
      :: tasks[i].active.value.key
  }

  lemma ScopeStep(tasks: Tasks, i: nat, node: NodeId, now: int)
    requires i < |tasks|
    ensures WriteScope(tasks[..i + 1], node, now)
         == WriteScope(tasks[..i], node, now)
          + if tasks[i].state == LEASED && tasks[i].active.Some? && tasks[i].active.value.node == node
               && IsLive(tasks[i], tasks[i].active.value.id, now)
            then {tasks[i].active.value.key} else {}
  {
    var s, t := tasks[..i], tasks[..i + 1];
    assert t[i] == tasks[i] && forall j :: 0 <= j < i ==> t[j] == s[j];
  }
}
