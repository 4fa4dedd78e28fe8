/** What each lease request does to the table, on the records' own fields: which leases a
    sweep ends, whom a claim picks, until when a lease is live. */
module LeaseOutcomes {
  import opened LeaseDrain
  import opened LeaseRuns
  import opened LeaseSafety
  import opened LeaseSpec
  import opened LeaseTable
  import opened Prelude

  function TableAfter(tasks: Tasks, req: Request, now: int): Tasks {
    After(tasks, Handle(tasks, req, now).effects)
  }

  function ReplyTo(tasks: Tasks, req: Request, now: int): Reply {
    Handle(tasks, req, now).reply
  }

  // ------------------------------------------------------------- the sweep

  /** Task number `p` is held under a lease whose deadline has come. */
  predicate LateAt(tasks: Tasks, p: nat, now: int) {
    p < |tasks| && tasks[p].state == LEASED && tasks[p].active.Some? && tasks[p].active.value.deadline <= now
  }

  ghost function LateTasks(tasks: Tasks, now: int): set<nat> {
    set p | 0 <= p < |tasks| && LateAt(tasks, p, now)
  }

  /** Task number `p` has lost its late lease: another try if it has attempts left. */
  ghost predicate GivenUpAt(tasks: Tasks, p: nat, r: Record) {
    p < |tasks| && r == tasks[p].(active := None, state := if tasks[p].attempts < tasks[p].spec.maxAttempts then PENDING else FAILED)
  }

  /** What a sweep leaves of task number `p`. */
  ghost predicate SweptTo(tasks: Tasks, p: nat, now: int, r: Record) {
    p < |tasks| && if LateAt(tasks, p, now) then GivenUpAt(tasks, p, r) else r == tasks[p]
  }

  lemma SweptIsSweptTo(tasks: Tasks, now: int)
    ensures |Swept(tasks, now)| == |tasks| && forall p :: 0 <= p < |tasks| ==> SweptTo(tasks, p, now, Swept(tasks, now)[p])
  {
    SweptAt(tasks, now);
    hide Swept;
  }

  lemma {:induction false} CountsTheLate(tasks: Tasks, now: int)
    ensures OverdueCount(tasks, now) == |LateTasks(tasks, now)|
  {
    if tasks != [] {
      CountsTheLate(tasks[..|tasks| - 1], now);
      LateBefore(tasks, now);
      hide LateTasks;
    } else {
      assert LateTasks(tasks, now) == {};
    }
  }

  lemma SweepTable(tasks: Tasks, now: int)
    requires UniqueKeys(tasks)
    ensures TableAfter(tasks, Request.Sweep, now) == Swept(tasks, now)
  {
    SweepIsSwept(tasks, now);
    hide After, Swept, SweepOutcome, UniqueKeys;
  }

  lemma SweepAnswers(tasks: Tasks, now: int)
    ensures Handle(tasks, Request.Sweep, now) == Outcome(SweepEffects(tasks, now), Expired(OverdueCount(tasks, now)))
  {
    SweepOfLeased(tasks, now);
    hide SweepEffects, OverdueCount, Leased;
  }

  /** A sweep ends exactly the leases whose deadline has come, leaves every other record
      as it was, and answers how many there were. */
  lemma SweepMeans(tasks: Tasks, now: int)
    requires UniqueKeys(tasks)
    ensures var after := TableAfter(tasks, Request.Sweep, now);
            |after| == |tasks| && forall p :: 0 <= p < |tasks| ==> SweptTo(tasks, p, now, after[p])
    ensures ReplyTo(tasks, Request.Sweep, now) == Expired(|LateTasks(tasks, now)|)
    ensures Handle(tasks, Request.Sweep, now).effects == SweepEffects(tasks, now)
  {
    hide *;
    SweepTable(tasks, now);
    SweptIsSweptTo(tasks, now);
    SweepAnswers(tasks, now);
    CountsTheLate(tasks, now);
    ReplyIs(tasks, Request.Sweep, now);
  }

  /** The same of what a sweep is specified to do. */
  lemma SweepOutcomeMeans(tasks: Tasks, now: int)
    requires UniqueKeys(tasks)
    ensures var after := After(tasks, SweepOutcome(tasks, now).effects);
            |after| == |tasks| && forall p :: 0 <= p < |tasks| ==> SweptTo(tasks, p, now, after[p])
    ensures SweepOutcome(tasks, now).reply == Expired(|LateTasks(tasks, now)|)
  {
    SweepMeans(tasks, now);
    hide After, UniqueKeys, SweptTo, LateTasks, SweepOutcome;
  }

  lemma ReplyIs(tasks: Tasks, req: Request, now: int)
    ensures ReplyTo(tasks, req, now) == Handle(tasks, req, now).reply
  {
  }

  /** Task number `p`'s late lease is announced, then its release, then it is saved. */
  ghost predicate ShowsExpiry(effects: seq<Effect>, i: nat, tasks: Tasks, p: nat, now: int) {
    && i + 3 <= |effects| && LateAt(tasks, p, now)
    && var r := tasks[p];
       var again := r.attempts < r.spec.maxAttempts;
       && effects[i] == Emit(Event(LEASE_EXPIRED, r.active.value.key, Some(r.active.value.node), now))
       && effects[i + 1] == Emit(Event(if again then TASK_REQUEUED else TASK_EXHAUSTED, r.spec.key, None, now))
       && effects[i + 2] == Save(r.(active := None, state := if again then PENDING else FAILED))
  }

  ghost predicate Shown(effects: seq<Effect>, tasks: Tasks, p: nat, now: int) {
    exists i: nat :: ShowsExpiry(effects, i, tasks, p, now)
  }

  lemma ShownLater(before: seq<Effect>, more: seq<Effect>, tasks: Tasks, r: Record, p: nat, now: int)
    requires Shown(before, tasks, p, now)
    ensures Shown(before + more, tasks + [r], p, now)
  {
    var i: nat :| ShowsExpiry(before, i, tasks, p, now);
    assert ShowsExpiry(before + more, i, tasks + [r], p, now);
  }

  lemma ExpiryIsShown(before: seq<Effect>, tasks: Tasks, p: nat, now: int)
    requires LateAt(tasks, p, now)
    ensures |ExpiryEffects(tasks[p], now)| == 3 && Shown(before + ExpiryEffects(tasks[p], now), tasks, p, now)
  {
    assert ShowsExpiry(before + ExpiryEffects(tasks[p], now), |before|, tasks, p, now);
  }

  /** A sweep does nothing but announce and save each late lease's end. */
  lemma {:induction false} SweepShowsTheLate(tasks: Tasks, now: int)
    ensures |SweepEffects(tasks, now)| == 3 * |LateTasks(tasks, now)|
    ensures forall p: nat :: LateAt(tasks, p, now) ==> Shown(SweepEffects(tasks, now), tasks, p, now)
  {
    if tasks != [] {
      var n := |tasks| - 1;
      var before := SweepEffects(tasks[..n], now);
      SweepShowsTheLate(tasks[..n], now);
      assert tasks == tasks[..n] + [tasks[n]];
      LateBefore(tasks, now);
      assert SweepEffects(tasks, now) == before + ExpiryEffects(tasks[n], now);
      assert !LateAt(tasks, n, now) ==> ExpiryEffects(tasks[n], now) == [];
      hide SweepEffects, Shown, ExpiryEffects, LateTasks;
      if LateAt(tasks, n, now) { ExpiryIsShown(before, tasks, n, now); }
      forall p: nat | LateAt(tasks, p, now) ensures Shown(before + ExpiryEffects(tasks[n], now), tasks, p, now) {
        if p < n {
          assert LateAt(tasks[..n], p, now);
          ShownLater(before, ExpiryEffects(tasks[n], now), tasks[..n], tasks[n], p, now);
        }
      }
    } else {
      assert LateTasks(tasks, now) == {};
    }
  }

  lemma LateBefore(tasks: Tasks, now: int)
    requires tasks != []
    ensures var n := |tasks| - 1;
            |LateTasks(tasks, now)| == |LateTasks(tasks[..n], now)| + if LateAt(tasks, n, now) then 1 else 0
  {
    var n := |tasks| - 1;
    assert forall p :: 0 <= p < n ==> LateAt(tasks[..n], p, now) == LateAt(tasks, p, now);
    assert LateTasks(tasks, now) == LateTasks(tasks[..n], now) + if LateAt(tasks, n, now) then {n} else {};
  }

  // ------------------------------------------------------------- the claim

  /** The new lease of a record with this spec and these attempts spent. */
  ghost predicate IsNewLease(l: Lease, spec: TaskSpec, attempts: nat, node: NodeId, id: LeaseId, now: int) {
    l == Lease(id, spec.key, node, attempts + 1, now + spec.window, spec.payload)
  }

  /** `r'` is `r` held under lease `l`. */
  ghost predicate HeldUnder(r: Record, r': Record, l: Lease) {
    r' == Record(r.spec, LEASED, r.attempts + 1, Some(l), r.accepted, r.history[l.id := l])
  }

  ghost predicate Wanted(r: Record, pick: Pick) {
    && r.state == PENDING
    && (pick.job == None || r.spec.key.job == pick.job.value)
    && (pick.Policy? ==> pick.chosen == Some(r.spec.key))
  }

  /** From `swept` the first wanted task, number `p`, is handed out under lease `l`. */
  ghost predicate HandsOut(swept: Tasks, after: Tasks, p: nat, pick: Pick, l: Lease, node: NodeId, id: LeaseId, now: int) {
    && p < |swept| == |after| && Wanted(swept[p], pick)
    && (forall q :: 0 <= q < p ==> !Wanted(swept[q], pick))
    && IsNewLease(l, swept[p].spec, swept[p].attempts, node, id, now)
    && HeldUnder(swept[p], after[p], l)
    && (forall q :: 0 <= q < |swept| && q != p ==> after[q] == swept[q])
  }

  ghost predicate ClaimAnswered(swept: Tasks, after: Tasks, reply: Reply, node: NodeId, pick: Pick, id: LeaseId, now: int) {
    match reply
    case NoWork => after == swept && forall p :: 0 <= p < |swept| ==> !Wanted(swept[p], pick)
    case Granted(l) => exists p: nat :: HandsOut(swept, after, p, pick, l, node, id, now)
    case _ => false
  }

  lemma PickedIsHandedOut(swept: Tasks, node: NodeId, pick: Pick, id: LeaseId, now: int, p: nat)
    requires p < |swept| && Wanted(swept[p], pick) && forall q :: 0 <= q < p ==> !Wanted(swept[q], pick)
    ensures var l := NewLease(swept[p], node, id, now);
            ClaimAnswered(swept, swept[p := Claimed(swept[p], l)], Granted(l), node, pick, id, now)
  {
    hide Wanted;
    var l := NewLease(swept[p], node, id, now);
    assert HandsOut(swept, swept[p := Claimed(swept[p], l)], p, pick, l, node, id, now);
  }

  lemma NothingIsWanted(swept: Tasks, node: NodeId, pick: Pick, id: LeaseId, now: int)
    requires forall p :: 0 <= p < |swept| ==> !Wanted(swept[p], pick)
    ensures ClaimAnswered(swept, swept, NoWork, node, pick, id, now)
  {
  }

  lemma ClaimTable(tasks: Tasks, node: NodeId, pick: Pick, id: LeaseId, now: int)
    requires UniqueKeys(tasks)
    ensures var swept, req := Swept(tasks, now), Claim(node, pick, id);
            match PickIndex(swept, pick)
            case None => ReplyTo(tasks, req, now) == NoWork && TableAfter(tasks, req, now) == swept
            case Some(i) =>
              var l := NewLease(swept[i], node, id, now);
              ReplyTo(tasks, req, now) == Granted(l) && TableAfter(tasks, req, now) == swept[i := Claimed(swept[i], l)]
  {
    ClaimMeans(tasks, node, pick, id, now);
    hide After, Swept, PickIndex, Handle, UniqueKeys, Claimed, NewLease;
  }

  /** A claim first ends the late leases as a sweep does. Then it hands out the first
      pending task, in insertion order, of the job asked for if one is, the one the
      policy names if there is a policy; and nothing if there is no such task. */
  lemma ClaimTakes(tasks: Tasks, node: NodeId, pick: Pick, id: LeaseId, now: int)
    requires UniqueKeys(tasks)
    ensures var req := Claim(node, pick, id);
            ClaimAnswered(TableAfter(tasks, Request.Sweep, now), TableAfter(tasks, req, now), ReplyTo(tasks, req, now), node, pick, id, now)
  {
    hide *;
    var swept := Swept(tasks, now);
    SweepTable(tasks, now);
    ClaimTable(tasks, node, pick, id, now);
    PickMeans(swept, pick);
    match PickIndex(swept, pick)
    case Some(p) => PickedIsHandedOut(swept, node, pick, id, now, p);
    case None => NothingIsWanted(swept, node, pick, id, now);
  }

  /** The same of any table and reply a claim leads to. */
  lemma ClaimAnswers(tasks: Tasks, node: NodeId, pick: Pick, id: LeaseId, now: int, after: Tasks, reply: Reply)
    requires UniqueKeys(tasks) && after == After(tasks, Handle(tasks, Claim(node, pick, id), now).effects)
    requires reply == Handle(tasks, Claim(node, pick, id), now).reply
    ensures ClaimAnswered(TableAfter(tasks, Request.Sweep, now), after, reply, node, pick, id, now)
  {
    ClaimTakes(tasks, node, pick, id, now);
    hide After, Handle, ClaimAnswered, UniqueKeys;
  }

  lemma PickMeans(tasks: Tasks, pick: Pick)
    ensures match PickIndex(tasks, pick)
            case None => forall p :: 0 <= p < |tasks| ==> !Wanted(tasks[p], pick)
            case Some(p) => p < |tasks| && Wanted(tasks[p], pick) && forall q :: 0 <= q < p ==> !Wanted(tasks[q], pick)
  {
  }

  /** Neither a sweep nor anyone's claim touches a task whose lease is live. */
  lemma LiveLeasesAreLeftAlone(tasks: Tasks, req: Request, now: int, p: nat)
    requires TableInv(tasks) && (req.Sweep? || req.Claim?)
    requires p < |tasks| && tasks[p].state == LEASED && tasks[p].active.Some? && tasks[p].active.value.deadline > now
    ensures p < |TableAfter(tasks, req, now)| && TableAfter(tasks, req, now)[p] == tasks[p]
  {
    SweepMeans(tasks, now);
    var swept := TableAfter(tasks, Request.Sweep, now);
    assert SweptTo(tasks, p, now, swept[p]);
    hide TableAfter, ReplyTo, TableInv;
    if req.Claim? { ClaimTakes(tasks, req.node, req.pick, req.id, now); }
  }

  // ------------------------------------------------- requests about one task

  /** The table with one record changed. */
  ghost predicate OnlyAt(tasks: Tasks, p: nat, r: Record, after: Tasks) {
    p < |tasks| == |after| && after[p] == r && forall q :: 0 <= q < |tasks| && q != p ==> after[q] == tasks[q]
  }

  /** Task number `p` is held under lease `id`, whose deadline is ahead. */
  ghost predicate HoldsLive(tasks: Tasks, p: nat, id: LeaseId, now: int) {
    && p < |tasks| && tasks[p].state == LEASED && tasks[p].active.Some?
    && tasks[p].active.value.id == id && tasks[p].active.value.deadline > now
  }

  /** Lease `id` was issued for task number `p`. */
  ghost predicate IssuedFor(tasks: Tasks, p: nat, id: LeaseId) {
    p < |tasks| && id in tasks[p].history
  }

  ghost predicate NobodyHolds(tasks: Tasks, id: LeaseId, now: int) {
    forall p :: 0 <= p < |tasks| ==> !HoldsLive(tasks, p, id, now)
  }

  lemma OwnerIs(tasks: Tasks, p: nat, id: LeaseId)
    requires TableInv(tasks) && IssuedFor(tasks, p, id)
    ensures FindLease(tasks, id) == Some(p) && RecordInv(tasks[p]) && tasks[p].history[id].id == id
    ensures forall q :: 0 <= q < |tasks| && id in tasks[q].history ==> q == p
  {
    FirstIs(tasks, (r: Record) => id in r.history, p);
  }

  lemma HolderIsOwner(tasks: Tasks, p: nat, id: LeaseId, now: int)
    requires TableInv(tasks) && HoldsLive(tasks, p, id, now)
    ensures IssuedFor(tasks, p, id)
  {
    assert RecordInv(tasks[p]);
  }

  lemma {:induction false} SaveThenEmit(tasks: Tasks, p: nat, r: Record, e: Event)
    requires UniqueKeys(tasks) && p < |tasks| && r.spec.key == tasks[p].spec.key
    ensures OnlyAt(tasks, p, r, After(tasks, [Save(r), Emit(e)]))
    ensures OnlyAt(tasks, p, r, After(tasks, [Save(r), Emit(e)][..1])) && After(tasks, [Emit(e)]) == tasks
  {
    AfterPair(tasks, r, e);
    AfterEmit(tasks, e);
    PutReplaces(tasks, r, p);
    assert [Save(r), Emit(e)][..1] == [Save(r)] && [Save(r)][..0] == [];
    assert After(tasks, [Save(r)]) == Put(tasks, r);
  }

  /** A heartbeat for a live lease moves its deadline a full window past now and nothing
      else; the event comes after the save. */
  lemma {:induction false} HeartbeatRenews(tasks: Tasks, p: nat, id: LeaseId, now: int)
    requires TableInv(tasks) && HoldsLive(tasks, p, id, now)
    ensures var req, renewed := Request.Heartbeat(id), tasks[p].active.value.(deadline := now + tasks[p].spec.window);
            var r := tasks[p].(active := Some(renewed));
            && ReplyTo(tasks, req, now) == Renewed(renewed)
            && OnlyAt(tasks, p, r, TableAfter(tasks, req, now))
            && Handle(tasks, req, now).effects == [Save(r), Emit(Event(LEASE_RENEWED, r.spec.key, Some(renewed.node), now))]
  {
    HolderIsOwner(tasks, p, id, now);
    OwnerIs(tasks, p, id);
    var renewed := tasks[p].active.value.(deadline := now + tasks[p].spec.window);
    SaveThenEmit(tasks, p, tasks[p].(active := Some(renewed)), Event(LEASE_RENEWED, tasks[p].spec.key, Some(renewed.node), now));
    hide After, TableInv, OnlyAt, FindLease;
  }

  /** A completion of a live lease commits the task under that lease id, saving before it
      announces, so that a coordinator that dies in between has committed. */
  lemma {:induction false} CompleteCommits(tasks: Tasks, p: nat, id: LeaseId, now: int)
    requires TableInv(tasks) && HoldsLive(tasks, p, id, now)
    ensures var req, r := Complete(id), tasks[p].(state := COMPLETED, accepted := Some(id), active := None);
            var effects := Handle(tasks, req, now).effects;
            && ReplyTo(tasks, req, now) == Committed(true)
            && OnlyAt(tasks, p, r, TableAfter(tasks, req, now)) && OnlyAt(tasks, p, r, After(tasks, effects[..1]))
            && effects == [Save(r), Emit(Event(TASK_COMMIT_ACCEPTED, r.spec.key, Some(tasks[p].active.value.node), now))]
  {
    HolderIsOwner(tasks, p, id, now);
    OwnerIs(tasks, p, id);
    SaveThenEmit(tasks, p, Accepted(tasks[p], id), LeaseEvent(TASK_COMMIT_ACCEPTED, tasks[p].history[id], now));
    hide After, TableInv, OnlyAt, FindLease;
  }

  /** A failure report for a live lease gives the task another try if it has attempts
      left and fails it otherwise, announcing both before it saves. */
  lemma {:induction false} FailReleases(tasks: Tasks, p: nat, id: LeaseId, now: int)
    requires TableInv(tasks) && HoldsLive(tasks, p, id, now)
    ensures var req, l := Fail(id), tasks[p].active.value;
            var again := tasks[p].attempts < tasks[p].spec.maxAttempts;
            var r := tasks[p].(active := None, state := if again then PENDING else FAILED);
            && ReplyTo(tasks, req, now) == Done
            && OnlyAt(tasks, p, r, TableAfter(tasks, req, now))
            && Handle(tasks, req, now).effects ==
                 [Emit(Event(TASK_ATTEMPT_FAILED, r.spec.key, Some(l.node), now)),
                  Emit(Event(if again then TASK_REQUEUED else TASK_EXHAUSTED, r.spec.key, None, now)), Save(r)]
  {
    HolderIsOwner(tasks, p, id, now);
    OwnerIs(tasks, p, id);
    SavingTheReleased(tasks, p, LeaseEvent(TASK_ATTEMPT_FAILED, tasks[p].history[id], now), now);
    hide After, TableInv, FindLease;
  }

  /** Without a live lease nothing is saved: heartbeats and failure reports are refused,
      a completion is announced as rejected if the lease was ever issued, and any request
      for a lease never issued is refused. */
  lemma {:induction false} DeadLeasesSaveNothing(tasks: Tasks, req: Request, id: LeaseId, now: int)
    requires TableInv(tasks) && NobodyHolds(tasks, id, now)
    requires req == Request.Heartbeat(id) || req == Complete(id) || req == Fail(id)
    ensures TableAfter(tasks, req, now) == tasks
    ensures (forall p: nat :: !IssuedFor(tasks, p, id)) ==> ReplyTo(tasks, req, now) == Refused(UnknownLease) && Handle(tasks, req, now).effects == []
    ensures forall p: nat :: IssuedFor(tasks, p, id) ==>
              if req.Complete? then
                && ReplyTo(tasks, req, now) == Committed(false)
                && Handle(tasks, req, now).effects == [Emit(Event(TASK_COMMIT_REJECTED, tasks[p].spec.key, Some(tasks[p].history[id].node), now))]
              else ReplyTo(tasks, req, now) == Refused(LeaseNotLive) && Handle(tasks, req, now).effects == []
  {
    AfterNothing(tasks);
    forall p: nat | IssuedFor(tasks, p, id) ensures FindLease(tasks, id) == Some(p) && RecordInv(tasks[p]) && !HoldsLive(tasks, p, id, now) {
      OwnerIs(tasks, p, id);
    }
    var at := FindLease(tasks, id);
    if at.Some? {
      assert IssuedFor(tasks, at.value, id) && !IsLive(tasks[at.value], id, now);
      AfterEmit(tasks, LeaseEvent(TASK_COMMIT_REJECTED, tasks[at.value].history[id], now));
    }
    hide After, TableInv, FindLease;
  }

  // ----------------------------------------------- adding and cancelling

  ghost predicate HasKey(tasks: Tasks, key: TaskKey) {
    exists p :: 0 <= p < |tasks| && tasks[p].spec.key == key
  }

  /** A task under a new key joins the end of the queue, pending, with nothing spent; a
      taken key is refused and changes nothing. */
  lemma {:induction false} AddAppends(tasks: Tasks, spec: TaskSpec, now: int)
    requires TableInv(tasks)
    ensures HasKey(tasks, spec.key) ==>
              ReplyTo(tasks, Add(spec), now) == Refused(DuplicateTask) && Handle(tasks, Add(spec), now).effects == []
    ensures !HasKey(tasks, spec.key) ==>
              var r := Record(spec, PENDING, 0, None, None, map[]);
              && ReplyTo(tasks, Add(spec), now) == Done && TableAfter(tasks, Add(spec), now) == tasks + [r]
              && Handle(tasks, Add(spec), now).effects == [Save(r), Emit(Event(TASK_CREATED, spec.key, None, now))]
  {
    if !HasKey(tasks, spec.key) {
      AfterPair(tasks, NewRecord(spec), Event(TASK_CREATED, spec.key, None, now));
      PutAppends(tasks, NewRecord(spec));
    }
  }

  /** Cancelling withdraws a task that has not ended, lease and all, without an event; a
      task that has ended stays as it is, and an unknown one is refused. */
  lemma {:induction false} CancelWithdraws(tasks: Tasks, key: TaskKey, now: int)
    requires TableInv(tasks)
    ensures !HasKey(tasks, key) ==> ReplyTo(tasks, Cancel(key), now) == Refused(UnknownTask) && Handle(tasks, Cancel(key), now).effects == []
    ensures forall p :: 0 <= p < |tasks| && tasks[p].spec.key == key ==>
              && ReplyTo(tasks, Cancel(key), now) == Done
              && (if tasks[p].state in {COMPLETED, FAILED, CANCELLED} then Handle(tasks, Cancel(key), now).effects == []
                  else
                    var r := tasks[p].(state := CANCELLED, active := None);
                    Handle(tasks, Cancel(key), now).effects == [Save(r)] && OnlyAt(tasks, p, r, TableAfter(tasks, Cancel(key), now)))
  {
    forall p | 0 <= p < |tasks| && tasks[p].spec.key == key
      ensures IndexOf(tasks, key) == Some(p) && OnlyAt(tasks, p, Withdrawn(tasks[p]), After(tasks, [Save(Withdrawn(tasks[p]))]))
    {
      PutReplaces(tasks, tasks[p], p);
      SaveThenEmit(tasks, p, Withdrawn(tasks[p]), Event(TASK_CREATED, key, None, now));
      assert [Save(Withdrawn(tasks[p])), Emit(Event(TASK_CREATED, key, None, now))][..1] == [Save(Withdrawn(tasks[p]))];
    }
    hide After, TableInv, OnlyAt;
  }

  // -------------------------------------------- until when a lease is live

  /** A claim that grants saves the record, under its new lease, before it announces it. */
  lemma {:induction false} GrantIsSavedFirst(tasks: Tasks, node: NodeId, pick: Pick, id: LeaseId, now: int, l: Lease)
    requires ReplyTo(tasks, Claim(node, pick, id), now) == Granted(l)
    ensures var sweep, effects := Handle(tasks, Request.Sweep, now).effects, Handle(tasks, Claim(node, pick, id), now).effects;
            && |effects| == |sweep| + 2 && effects[..|sweep|] == sweep
            && effects[|sweep|].Save? && effects[|sweep|].record.active == Some(l)
            && effects[|sweep| + 1] == Emit(Event(LEASE_CLAIMED, l.key, Some(node), now))
  {
    hide SweepOutcome, PickIndex, After;
  }

  /** A lease just granted or renewed is live until a full window from now and not a tick
      longer, and until then opens the task to its own node and to no other. */
  lemma LeaseLivesItsWindow(tasks: Tasks, req: Request, now: int, l: Lease, t: int, node: NodeId)
    requires TableInv(tasks) && FreshFor(tasks, req)
    requires ReplyTo(tasks, req, now) == Granted(l) || ReplyTo(tasks, req, now) == Renewed(l)
    ensures exists p :: 0 <= p < |tasks| && tasks[p].spec.key == l.key
              && (LiveLease(TableAfter(tasks, req, now), l.id, t) <==> t < now + tasks[p].spec.window)
              && (l.key in WriteScope(TableAfter(tasks, req, now), node, t) <==> node == l.node && t < now + tasks[p].spec.window)
  {
    var p := LeasedAt(tasks, req, now, l);
    HandleLegal(tasks, req, now);
    LegalKeepsTable(tasks, Handle(tasks, req, now).effects, now, now);
    hide Handle, After, TableInv;
    LiveWhile(TableAfter(tasks, req, now), p, l, t, node);
  }

  lemma GrantedAt(tasks: Tasks, req: Request, now: int, l: Lease) returns (p: nat)
    requires TableInv(tasks) && req.Claim? && ReplyTo(tasks, req, now) == Granted(l)
    ensures p < |tasks| == |TableAfter(tasks, req, now)| && tasks[p].spec.key == l.key && l.deadline == now + tasks[p].spec.window
    ensures TableAfter(tasks, req, now)[p].active == Some(l)
  {
    ClaimTakes(tasks, req.node, req.pick, req.id, now);
    SweepMeans(tasks, now);
    hide TableInv, TableAfter, ReplyTo, Wanted;
    var swept, after := TableAfter(tasks, Request.Sweep, now), TableAfter(tasks, req, now);
    p :| HandsOut(swept, after, p, req.pick, l, req.node, req.id, now);
    assert SweptTo(tasks, p, now, swept[p]);
  }

  lemma RenewedAt(tasks: Tasks, req: Request, now: int, l: Lease) returns (p: nat)
    requires TableInv(tasks) && ReplyTo(tasks, req, now) == Renewed(l)
    ensures p < |tasks| == |TableAfter(tasks, req, now)| && tasks[p].spec.key == l.key && l.deadline == now + tasks[p].spec.window
    ensures TableAfter(tasks, req, now)[p].active == Some(l)
  {
    OnlyHeartbeatsRenew(tasks, req, now);
    p := FindLease(tasks, req.lease).value;
    HeartbeatRenews(tasks, p, req.lease, now);
    OwnerIs(tasks, p, req.lease);
    hide TableInv, TableAfter, ReplyTo, FindLease;
  }

  lemma OnlyHeartbeatsRenew(tasks: Tasks, req: Request, now: int)
    requires TableInv(tasks) && ReplyTo(tasks, req, now).Renewed?
    ensures req.Heartbeat? && FindLease(tasks, req.lease).Some? && HoldsLive(tasks, FindLease(tasks, req.lease).value, req.lease, now)
    ensures IssuedFor(tasks, FindLease(tasks, req.lease).value, req.lease)
  {
  }

  lemma OnlyClaimsGrant(tasks: Tasks, req: Request, now: int)
    requires ReplyTo(tasks, req, now).Granted?
    ensures req.Claim?
  {
  }

  lemma LeasedAt(tasks: Tasks, req: Request, now: int, l: Lease) returns (p: nat)
    requires TableInv(tasks)
    requires ReplyTo(tasks, req, now) == Granted(l) || ReplyTo(tasks, req, now) == Renewed(l)
    ensures p < |tasks| == |TableAfter(tasks, req, now)| && tasks[p].spec.key == l.key && l.deadline == now + tasks[p].spec.window
    ensures TableAfter(tasks, req, now)[p].active == Some(l)
  {
    hide *;
    if ReplyTo(tasks, req, now) == Granted(l) {
      OnlyClaimsGrant(tasks, req, now);
      p := GrantedAt(tasks, req, now, l);
    } else {
      p := RenewedAt(tasks, req, now, l);
    }
  }

  lemma LiveWhile(tasks: Tasks, p: nat, l: Lease, t: int, node: NodeId)
    requires TableInv(tasks) && p < |tasks| && tasks[p].active == Some(l)
    ensures tasks[p].spec.key == l.key
    ensures LiveLease(tasks, l.id, t) <==> t < l.deadline
    ensures l.key in WriteScope(tasks, node, t) <==> node == l.node && t < l.deadline
  {
    assert RecordInv(tasks[p]);
    OwnerIs(tasks, p, l.id);
    LiveLeaseIsAtItsOwner(tasks, l.id, t);
    ScopeIsLiveLeases(tasks, node, t, l.key);
    hide WriteScope, FindLease;
  }
}
