/** Whole runs of the coordinator: any requests in any order (so any delays,
    duplicates and losses on the network, from any number of workers), with the
    coordinator cut off after any effect of any request and rehydrated from its
    table. */
module LeaseRuns {
  import opened Prelude
  import opened LeaseSpec
  import opened LeaseTable
  import opened LeaseSafety

  /** `Crash` performs the first `cut` effects and never replies; cut 0 is a plain
      restart between requests. */
  datatype Step = Call(req: Request, now: int) | Crash(req: Request, now: int, cut: nat)

  function Effects(tasks: Tasks, s: Step): seq<Effect> {
    var all := Handle(tasks, s.req, s.now).effects;
    if s.Crash? && s.cut <= |all| then all[..s.cut] else all
  }

  ghost predicate Next(tasks: Tasks, s: Step, tasks': Tasks) {
    FreshFor(tasks, s.req) && tasks' == After(tasks, Effects(tasks, s))
  }

  ghost predicate Run(states: seq<Tasks>, steps: seq<Step>) {
    && |states| == |steps| + 1
    && states[0] == []
    && forall i :: 0 <= i < |steps| ==> Next(states[i], steps[i], states[i + 1])
  }

  lemma StepKeeps(tasks: Tasks, s: Step, tasks': Tasks)
    requires TableInv(tasks) && Next(tasks, s, tasks')
    ensures Legal(tasks, Effects(tasks, s), s.now)
    ensures TableInv(tasks') && Evolves(tasks, tasks')
    ensures forall t :: t <= s.now ==> DeadStayDead(tasks, tasks', t)
  {
    hide TableInv, Legal, Evolves, DeadStayDead;
    HandleLegal(tasks, s.req, s.now);
    var all := Handle(tasks, s.req, s.now).effects;
    if s.Crash? && s.cut <= |all| {
      LegalPrefix(tasks, all, s.now, s.cut);
    }
    LegalKeepsTable(tasks, Effects(tasks, s), s.now, s.now);
    forall t | t <= s.now ensures DeadStayDead(tasks, tasks', t) {
      LegalKeepsTable(tasks, Effects(tasks, s), s.now, t);
    }
  }

  lemma {:induction false} RunKeepsInvariant(states: seq<Tasks>, steps: seq<Step>, i: nat)
    requires Run(states, steps) && i < |states|
    ensures TableInv(states[i])
  {
    if i > 0 {
      RunKeepsInvariant(states, steps, i - 1);
      StepKeeps(states[i - 1], steps[i - 1], states[i]);
    }
  }

  /** What a run says about its step `i`. */
  lemma RunStep(states: seq<Tasks>, steps: seq<Step>, i: nat)
    requires Run(states, steps) && i < |steps|
    ensures states[0] == [] && TableInv(states[i]) && FreshFor(states[i], steps[i].req)
    ensures states[i + 1] == After(states[i], Effects(states[i], steps[i]))
  {
    RunKeepsInvariant(states, steps, i);
    assert Next(states[i], steps[i], states[i + 1]);
  }

  lemma {:induction false} RunEvolves(states: seq<Tasks>, steps: seq<Step>, i: nat, j: nat)
    requires Run(states, steps) && i <= j < |states|
    ensures Evolves(states[i], states[j])
  {
    hide Next, TableInv, RecordEvolves;
    EvolvesReflexive(states[i], 0);
    if i < j {
      RunEvolves(states, steps, i, j - 1);
      RunKeepsInvariant(states, steps, j - 1);
      StepKeeps(states[j - 1], steps[j - 1], states[j]);
      EvolvesTransitive(states[i], states[j - 1], states[j]);
    }
  }

  // ------------------------------------------------------ exactly one commit

  /** Request `i` is a `complete` for lease `id` of task number `p`, and it was
      answered True. */
  ghost predicate AcceptedAt(states: seq<Tasks>, steps: seq<Step>, i: nat, id: LeaseId, p: nat)
    requires |states| == |steps| + 1
  {
    && i < |steps|
    && steps[i].Call? && steps[i].req == Complete(id)
    && FindLease(states[i], id) == Some(p)
    && Handle(states[i], steps[i].req, steps[i].now).reply == Committed(true)
  }

  lemma AcceptedMeans(tasks: Tasks, id: LeaseId, p: nat, now: int)
    requires TableInv(tasks) && FindLease(tasks, id) == Some(p)
    requires Handle(tasks, Complete(id), now).reply == Committed(true)
    ensures p < |tasks| && tasks[p].state == LEASED && IsLive(tasks[p], id, now)
    ensures |After(tasks, Handle(tasks, Complete(id), now).effects)| == |tasks|
    ensures After(tasks, Handle(tasks, Complete(id), now).effects)[p] == Accepted(tasks[p], id)
  {
    var r := tasks[p];
    AfterPair(tasks, Accepted(r, id), LeaseEvent(TASK_COMMIT_ACCEPTED, r.history[id], now));
    PutReplaces(tasks, Accepted(r, id), p);
  }

  /** The accepted task stays COMPLETED with that lease id in every later state. */
  lemma CommitIsForever(states: seq<Tasks>, steps: seq<Step>, i: nat, id: LeaseId, p: nat, m: nat)
    requires Run(states, steps) && AcceptedAt(states, steps, i, id, p)
    requires i < m < |states|
    ensures p < |states[i]| && p < |states[m]|
    ensures states[m][p] == Accepted(states[i][p], id)
    ensures states[m][p].state == COMPLETED && states[m][p].accepted == Some(id)
  {
    RunKeepsInvariant(states, steps, i);
    AcceptedMeans(states[i], id, p, steps[i].now);
    assert Next(states[i], steps[i], states[i + 1]);
    RunEvolves(states, steps, i + 1, m);
    assert RecordEvolves(states[i + 1][p], states[m][p]);
  }

  /** Over every run, at most one `complete` per task is ever answered True. */
  lemma ExactlyOneCommit(states: seq<Tasks>, steps: seq<Step>, i: nat, a: LeaseId, j: nat, b: LeaseId, p: nat)
    requires Run(states, steps)
    requires AcceptedAt(states, steps, i, a, p) && AcceptedAt(states, steps, j, b, p)
    ensures i == j && a == b
  {
    if i != j {
      var first, second := if i < j then i else j, if i < j then j else i;
      CommitIsForever(states, steps, first, if i < j then a else b, p, second);
      RunKeepsInvariant(states, steps, second);
      AcceptedMeans(states[second], if i < j then b else a, p, steps[second].now);
      assert false;
    }
  }

  // ------------------------------------------------------------ what replies mean

  /** Lease `id` is live in some record. */
  ghost predicate LiveLease(tasks: Tasks, id: LeaseId, now: int) {
    exists i :: 0 <= i < |tasks| && IsLive(tasks[i], id, now)
  }

  lemma LiveLeaseIsAtItsOwner(tasks: Tasks, id: LeaseId, now: int)
    requires TableInv(tasks)
    ensures LiveLease(tasks, id, now) <==> FindLease(tasks, id).Some? && IsLive(tasks[FindLease(tasks, id).value], id, now)
    ensures FindLease(tasks, id).Some? <==> Known(tasks, id)
  {
    if LiveLease(tasks, id, now) {
      var i :| 0 <= i < |tasks| && IsLive(tasks[i], id, now);
      assert id in tasks[i].history;
    }
  }

  /** Heartbeats and failure reports are refused, and commits rejected, exactly when
      the lease is not live; a lease is an error only if it never existed. */
  lemma RepliesFollowLiveness(tasks: Tasks, id: LeaseId, now: int)
    requires TableInv(tasks)
    ensures Handle(tasks, Complete(id), now).reply
         == if !Known(tasks, id) then Refused(UnknownLease) else Committed(LiveLease(tasks, id, now))
    ensures Handle(tasks, Heartbeat(id), now).reply.Renewed? <==> LiveLease(tasks, id, now)
    ensures Handle(tasks, Fail(id), now).reply == Done <==> LiveLease(tasks, id, now)
    ensures !LiveLease(tasks, id, now) ==>
              && Handle(tasks, Heartbeat(id), now).reply.Refused?
              && Handle(tasks, Fail(id), now).reply.Refused?
  {
    LiveLeaseIsAtItsOwner(tasks, id, now);
  }

  lemma ScopeIsLiveLeases(tasks: Tasks, node: NodeId, now: int, key: TaskKey)
    requires TableInv(tasks)
    ensures key in WriteScope(tasks, node, now) <==>
              exists i :: 0 <= i < |tasks| && tasks[i].spec.key == key && tasks[i].active.Some?
                          && tasks[i].active.value.node == node && tasks[i].active.value.deadline > now
  {
  }

  /** No two nodes may write to the same task at the same time. */
  lemma WriteScopesDisjoint(tasks: Tasks, a: NodeId, b: NodeId, now: int)
    requires TableInv(tasks) && a != b
    ensures WriteScope(tasks, a, now) !! WriteScope(tasks, b, now)
  {
    forall key | key in WriteScope(tasks, a, now) ensures key !in WriteScope(tasks, b, now) {
      ScopeIsLiveLeases(tasks, a, now, key);
      ScopeIsLiveLeases(tasks, b, now, key);
    }
  }

  // -------------------------------------------------------- dead stays dead

  lemma {:induction false} RunKeepsDead(states: seq<Tasks>, steps: seq<Step>, i: nat, j: nat, t: int)
    requires Run(states, steps) && i <= j < |states|
    requires forall k :: i <= k < j ==> steps[k].now >= t
    ensures DeadStayDead(states[i], states[j], t)
  {
    hide Next, TableInv, Evolves, DeadStays, RecordEvolves;
    EvolvesReflexive(states[i], t);
    if i < j {
      RunKeepsDead(states, steps, i, j - 1, t);
      RunEvolves(states, steps, i, j - 1);
      RunKeepsInvariant(states, steps, j - 1);
      StepKeeps(states[j - 1], steps[j - 1], states[j]);
      DeadTransitive(states[i], states[j - 1], states[j], t);
    }
  }

  lemma DeadAtItsOwner(tasks: Tasks, p: nat, id: LeaseId, t: int, now: int)
    requires TableInv(tasks) && p < |tasks| && id in tasks[p].history && Dead(tasks[p], id, t) && t <= now
    ensures Known(tasks, id) && !LiveLease(tasks, id, now)
  {
    LiveLeaseIsAtItsOwner(tasks, id, now);
    assert FindLease(tasks, id) == Some(p);
  }

  /** Once an issued lease is not live at time `t`, then in every later state whose
      clock has not gone back before `t` it is live for nobody, at no time from `t`
      on: heartbeats and failure reports are refused and commits rejected. */
  lemma DeadStaysDead(states: seq<Tasks>, steps: seq<Step>, i: nat, j: nat, id: LeaseId, t: int, now: int)
    requires Run(states, steps) && i <= j < |states|
    requires Known(states[i], id) && !LiveLease(states[i], id, t)
    requires (forall k :: i <= k < j ==> steps[k].now >= t) && now >= t
    ensures Known(states[j], id) && !LiveLease(states[j], id, now)
    ensures Handle(states[j], Heartbeat(id), now).reply.Refused?
    ensures Handle(states[j], Fail(id), now).reply.Refused?
    ensures Handle(states[j], Complete(id), now).reply == Committed(false)
  {
    RunKeepsInvariant(states, steps, i);
    RunKeepsInvariant(states, steps, j);
    RunEvolves(states, steps, i, j);
    RunKeepsDead(states, steps, i, j, t);
    var p :| 0 <= p < |states[i]| && id in states[i][p].history;
    assert RecordEvolves(states[i][p], states[j][p]) && DeadStays(states[i][p], states[j][p], t);
    assert !IsLive(states[i][p], id, t);
    assert Dead(states[i][p], id, t) && Dead(states[j][p], id, t);
    DeadAtItsOwner(states[j], p, id, t, now);
    RepliesFollowLiveness(states[j], id, now);
  }

  /** Such a lease never opens a write scope again: whatever a node may write to from
      then on, it may through another lease. */
  lemma DeadLeaseOpensNoScope(states: seq<Tasks>, steps: seq<Step>, i: nat, j: nat, id: LeaseId, t: int, now: int,
                              node: NodeId, key: TaskKey)
    requires Run(states, steps) && i <= j < |states|
    requires Known(states[i], id) && !LiveLease(states[i], id, t)
    requires (forall k :: i <= k < j ==> steps[k].now >= t) && now >= t
    ensures key in WriteScope(states[j], node, now) <==>
              exists q :: 0 <= q < |states[j]| && states[j][q].spec.key == key && states[j][q].active.Some?
                          && states[j][q].active.value.id != id
                          && states[j][q].active.value.node == node && states[j][q].active.value.deadline > now
  {
    DeadStaysDead(states, steps, i, j, id, t, now);
    RunKeepsInvariant(states, steps, j);
    ScopeIsLiveLeases(states[j], node, now, key);
    hide Run, WriteScope, Handle, Known;
    forall q | 0 <= q < |states[j]| && states[j][q].active.Some? && states[j][q].active.value.deadline > now
      ensures states[j][q].active.value.id != id
    {
      assert RecordInv(states[j][q]);
      assert IsLive(states[j][q], states[j][q].active.value.id, now);
    }
  }
}
