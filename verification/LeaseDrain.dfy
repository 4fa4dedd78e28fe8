/** How many claims a queue can grant when nothing ever completes. */
module LeaseDrain {
  import opened Prelude
  import opened LeaseSpec
  import opened LeaseTable
  import opened LeaseSafety
  import opened LeaseRuns

  /** Attempts the table can still spend. */
  function Budget(tasks: Tasks): int {
    if tasks == [] then 0
    else
      var last := tasks[|tasks| - 1];
      Budget(tasks[..|tasks| - 1]) + (last.spec.maxAttempts - last.attempts)
  }

  lemma {:induction false} BudgetUpdate(tasks: Tasks, i: nat, r: Record)
    requires i < |tasks| && r.spec == tasks[i].spec
    ensures Budget(tasks[i := r]) == Budget(tasks) + tasks[i].attempts - r.attempts
  {
    var n := |tasks| - 1;
    if i < n {
      BudgetUpdate(tasks[..n], i, r);
      assert tasks[i := r][..n] == tasks[..n][i := r];
    } else {
      assert tasks[i := r][..n] == tasks[..n];
    }
  }

  lemma {:induction false} SweepKeepsBudget(tasks: Tasks, now: int)
    ensures Budget(Swept(tasks, now)) == Budget(tasks)
  {
    if tasks != [] {
      var n := |tasks| - 1;
      SweepKeepsBudget(tasks[..n], now);
      var s := Swept(tasks[..n], now);
      assert (s + [SweptRecord(tasks[n], now)])[..|s|] == s;
    }
  }

  lemma {:induction false} BudgetSign(tasks: Tasks)
    requires forall i :: 0 <= i < |tasks| ==> RecordInv(tasks[i])
    ensures Budget(tasks) >= 0
    ensures (forall i :: 0 <= i < |tasks| ==> tasks[i].state == FAILED) ==> Budget(tasks) == 0
    ensures (exists i :: 0 <= i < |tasks| && tasks[i].state == PENDING) ==> Budget(tasks) > 0
  {
    hide HistoryInv;
    if tasks != [] {
      var n := |tasks| - 1;
      assert RecordInv(tasks[n]);
      BudgetSign(tasks[..n]);
      if i :| 0 <= i < |tasks| && tasks[i].state == PENDING {
        if i < n { assert tasks[..n][i].state == PENDING; }
      }
    }
  }

  /** A claim is a sweep and then, if anything is pending, one record handed out. */
  lemma ClaimMeans(tasks: Tasks, node: NodeId, pick: Pick, id: LeaseId, now: int)
    requires UniqueKeys(tasks)
    ensures var out, swept := Handle(tasks, Claim(node, pick, id), now), Swept(tasks, now);
            match PickIndex(swept, pick)
            case None => out.reply == NoWork && After(tasks, out.effects) == swept
            case Some(i) =>
              && i < |swept| && swept[i].state == PENDING
              && out.reply == Granted(NewLease(swept[i], node, id, now))
              && After(tasks, out.effects) == swept[i := Claimed(swept[i], NewLease(swept[i], node, id, now))]
  {
    var swept := Swept(tasks, now);
    SweepIsSwept(tasks, now);
    SweptKeepsKeys(tasks, now, id);
    hide After, Swept, SweepOutcome, UniqueKeys, Legal, SweepEffects;
    var grant := GrantOutcome(swept, node, pick, id, now);
    AfterConcat(tasks, SweepOutcome(tasks, now).effects, grant.effects);
    AfterNothing(swept);
    var at := PickIndex(swept, pick);
    if at.Some? {
      var r := swept[at.value];
      var l := NewLease(r, node, id, now);
      AfterPair(swept, Claimed(r, l), LeaseEvent(LEASE_CLAIMED, l, now));
      PutReplaces(swept, Claimed(r, l), at.value);
    }
  }

  /** Every granted claim, under any policy and whatever else happens, spends exactly
      one attempt of the table's budget. */
  lemma GrantSpendsOneAttempt(tasks: Tasks, node: NodeId, pick: Pick, id: LeaseId, now: int)
    requires UniqueKeys(tasks)
    ensures var out := Handle(tasks, Claim(node, pick, id), now);
            Budget(After(tasks, out.effects)) == Budget(tasks) - (if out.reply.Granted? then 1 else 0)
  {
    ClaimMeans(tasks, node, pick, id, now);
    SweepKeepsBudget(tasks, now);
    hide *;
    var swept := Swept(tasks, now);
    var at := PickIndex(swept, pick);
    if at.Some? {
      BudgetAfterClaim(swept, at.value, NewLease(swept[at.value], node, id, now));
    }
  }

  lemma BudgetAfterClaim(tasks: Tasks, i: nat, l: Lease)
    requires i < |tasks|
    ensures Budget(tasks[i := Claimed(tasks[i], l)]) == Budget(tasks) - 1
  {
    BudgetUpdate(tasks, i, Claimed(tasks[i], l));
  }

  /** Nothing committed, nothing cancelled. */
  ghost predicate Draining(tasks: Tasks) {
    TableInv(tasks) && forall i :: 0 <= i < |tasks| ==> tasks[i].state in {PENDING, LEASED, FAILED}
  }

  /** Every worker that held a lease has been silent past its deadline. */
  ghost predicate AllSilent(tasks: Tasks, now: int) {
    forall i :: 0 <= i < |tasks| && tasks[i].active.Some? ==> tasks[i].active.value.deadline <= now
  }

  lemma SweepRevivesAll(tasks: Tasks, now: int)
    requires Draining(tasks) && AllSilent(tasks, now)
    ensures Draining(Swept(tasks, now)) && |Swept(tasks, now)| == |tasks|
    ensures forall i :: 0 <= i < |tasks| ==> Swept(tasks, now)[i].state in {PENDING, FAILED}
  {
    SweepIsSwept(tasks, now);
    LegalKeepsTable(tasks, SweepOutcome(tasks, now).effects, now, now);
    SweptAt(tasks, now);
    forall i | 0 <= i < |tasks| ensures Swept(tasks, now)[i].state in {PENDING, FAILED} {
      assert RecordInv(tasks[i]);
    }
  }

  ghost predicate AllFailed(tasks: Tasks) {
    forall i :: 0 <= i < |tasks| ==> tasks[i].state == FAILED
  }

  /** The queue order or policy names a pending task whenever there is one. */
  ghost predicate NamesPending(tasks: Tasks, pick: Pick) {
    (exists i :: 0 <= i < |tasks| && tasks[i].state == PENDING) ==> PickIndex(tasks, pick).Some?
  }

  /** The plain queue order does. */
  lemma QueueOrderNamesPending(tasks: Tasks)
    ensures NamesPending(tasks, Fifo(None))
  {
  }

  lemma NothingPending(tasks: Tasks, pick: Pick)
    requires Draining(tasks) && forall i :: 0 <= i < |tasks| ==> tasks[i].state in {PENDING, FAILED}
    requires NamesPending(tasks, pick)
    ensures PickIndex(tasks, pick).Some? <==> Budget(tasks) > 0
    ensures PickIndex(tasks, pick).None? ==> AllFailed(tasks)
  {
    BudgetSign(tasks);
    hide Budget, TableInv;
  }

  ghost predicate NoneDone(tasks: Tasks) {
    forall i :: 0 <= i < |tasks| ==> tasks[i].state in {PENDING, LEASED, FAILED}
  }

  lemma ClaimCompletesNothing(tasks: Tasks, node: NodeId, pick: Pick, id: LeaseId, now: int)
    requires UniqueKeys(tasks) && NoneDone(Swept(tasks, now))
    ensures NoneDone(After(tasks, Handle(tasks, Claim(node, pick, id), now).effects))
  {
    ClaimMeans(tasks, node, pick, id, now);
    hide UniqueKeys, Handle, Swept, After, PickIndex;
  }

  lemma ClaimKeepsDraining(tasks: Tasks, node: NodeId, pick: Pick, id: LeaseId, now: int)
    requires Draining(tasks) && AllSilent(tasks, now) && !Known(tasks, id)
    ensures Draining(After(tasks, Handle(tasks, Claim(node, pick, id), now).effects))
  {
    var req := Claim(node, pick, id);
    assert UniqueKeys(tasks) && FreshFor(tasks, req);
    SweepRevivesAll(tasks, now);
    hide AllSilent, TableInv, Handle, Swept, After, Legal, Known, UniqueKeys;
    assert NoneDone(Swept(tasks, now));
    ClaimCompletesNothing(tasks, node, pick, id, now);
    HandleLegal(tasks, req, now);
    LegalKeepsTable(tasks, Handle(tasks, req, now).effects, now, now);
  }

  lemma ClaimGrantsWhilePending(tasks: Tasks, node: NodeId, pick: Pick, id: LeaseId, now: int)
    requires Draining(tasks) && AllSilent(tasks, now) && NamesPending(Swept(tasks, now), pick)
    ensures var out := Handle(tasks, Claim(node, pick, id), now);
            && (out.reply.Granted? <==> Budget(tasks) > 0)
            && (!out.reply.Granted? ==> out.reply == NoWork && AllFailed(After(tasks, out.effects)))
  {
    ClaimMeans(tasks, node, pick, id, now);
    SweepRevivesAll(tasks, now);
    hide AllSilent, AllFailed, TableInv, Handle, Swept, Budget, After, PickIndex, NamesPending;
    SweepKeepsBudget(tasks, now);
    NothingPending(Swept(tasks, now), pick);
  }

  lemma OneClaim(tasks: Tasks, node: NodeId, pick: Pick, id: LeaseId, now: int)
    requires Draining(tasks) && AllSilent(tasks, now) && !Known(tasks, id) && NamesPending(Swept(tasks, now), pick)
    ensures var out := Handle(tasks, Claim(node, pick, id), now);
            var after := After(tasks, out.effects);
            && Draining(after)
            && (out.reply.Granted? <==> Budget(tasks) > 0)
            && Budget(after) == Budget(tasks) - (if out.reply.Granted? then 1 else 0)
            && (!out.reply.Granted? ==> out.reply == NoWork && AllFailed(after))
  {
    assert UniqueKeys(tasks);
    hide Draining, AllSilent, AllFailed, Handle, Budget, After, Known, UniqueKeys, NamesPending, Swept;
    ClaimKeepsDraining(tasks, node, pick, id, now);
    ClaimGrantsWhilePending(tasks, node, pick, id, now);
    GrantSpendsOneAttempt(tasks, node, pick, id, now);
  }

  /** Claims with fresh ids and nothing else, each retried once every lease still out
      has passed its deadline, under any policy that names a pending task whenever there
      is one. */
  ghost predicate DrainRun(states: seq<Tasks>, steps: seq<Step>) {
    && |states| == |steps| + 1
    && Draining(states[0])
    && forall i :: 0 <= i < |steps| ==>
         && steps[i].Call? && steps[i].req.Claim?
         && NamesPending(Swept(states[i], steps[i].now), steps[i].req.pick)
         && AllSilent(states[i], steps[i].now)
         && Next(states[i], steps[i], states[i + 1])
  }

  lemma {:induction false} BudgetCountsDown(states: seq<Tasks>, steps: seq<Step>, n: nat)
    requires DrainRun(states, steps) && n <= |steps|
    ensures Draining(states[n])
    ensures Budget(states[n]) == Max(0, Budget(states[0]) - n)
  {
    hide Draining, AllSilent, After, Handle, NamesPending, Swept, Budget;
    BudgetIsNat(states[0]);
    if n > 0 {
      BudgetCountsDown(states, steps, n - 1);
      var s := steps[n - 1];
      assert Next(states[n - 1], s, states[n]);
      OneClaim(states[n - 1], s.req.node, s.req.pick, s.req.id, s.now);
    }
  }

  lemma BudgetIsNat(tasks: Tasks)
    requires Draining(tasks)
    ensures Budget(tasks) >= 0
  {
    BudgetSign(tasks);
  }

  /** If every worker dies, exactly as many claims succeed as there are attempts in
      the queue; from then on every claim finds nothing and every task is FAILED. */
  lemma DrainIsExact(states: seq<Tasks>, steps: seq<Step>, i: nat)
    requires DrainRun(states, steps) && i < |steps|
    ensures Handle(states[i], steps[i].req, steps[i].now).reply.Granted? <==> i < Budget(states[0])
    ensures i >= Budget(states[0]) ==>
              && Handle(states[i], steps[i].req, steps[i].now).reply == NoWork
              && AllFailed(states[i + 1])
  {
    hide Draining, AllSilent, After, Handle, NamesPending, Swept, Budget;
    BudgetCountsDown(states, steps, i);
    var s := steps[i];
    assert Next(states[i], s, states[i + 1]);
    OneClaim(states[i], s.req.node, s.req.pick, s.req.id, s.now);
  }

  /** A fresh queue's budget is the sum of its tasks' maximum attempts. */
  function MaxAttempts(tasks: Tasks): nat {
    if tasks == [] then 0
    else MaxAttempts(tasks[..|tasks| - 1]) + tasks[|tasks| - 1].spec.maxAttempts
  }

  lemma {:induction false} FreshBudget(tasks: Tasks)
    requires UniqueKeys(tasks) && forall i :: 0 <= i < |tasks| ==> tasks[i] == NewRecord(tasks[i].spec)
    ensures Draining(tasks) && Budget(tasks) == MaxAttempts(tasks)
  {
    assert AttemptNumbers(map[]) == UpTo(0);
    if tasks != [] {
      FreshBudget(tasks[..|tasks| - 1]);
    }
  }
}
