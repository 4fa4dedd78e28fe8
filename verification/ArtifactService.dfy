/** The coordinator's artifact store beside its lease table: who may write which file,
    and the check every committed result passes. Keys are paths in normal form. */
module ArtifactService {
  import opened LeaseAccounting
  import opened LeaseOutcomes
  import opened LeaseRuns
  import opened LeaseSafety
  import opened LeaseSpec
  import opened LeaseTable
  import opened Prelude

  datatype Service = Service(tasks: Tasks, files: map<string, Bytes>)

  /** `Leasing` is any request of the lease protocol but a completion. An offer reads the
      clock for failing its lease and again for committing it, and may be cut off by a
      crash like any request. A write with no node is an operator's. */
  datatype Action =
    | Leasing(step: Step)
    | Offer(lease: LeaseId, claimed: Digest, tried: int, now: int, cut: Option<nat>)
    | Write(node: Option<NodeId>, key: string, bytes: Bytes, now: int)

  function TaskPrefix(key: TaskKey): string {
    "jobs/" + key.job + "/" + key.task + "/"
  }

  /** Where a task's result is anchored. */
  function CommitKey(key: TaskKey): string {
    TaskPrefix(key) + "metrics.json"
  }

  predicate OutputValid(files: map<string, Bytes>, key: string, claimed: Digest) {
    key in files && Digest(files[key]) == claimed
  }

  /** The request a completion puts to the lease manager, and the time it reads for it: a
      result that does not check out fails the lease if that is still live. */
  function OfferRequest(s: Service, a: Action): (Request, int)
    requires a.Offer?
  {
    match FindLease(s.tasks, a.lease)
    case None => (Complete(a.lease), a.now)
    case Some(i) =>
      if !OutputValid(s.files, CommitKey(s.tasks[i].spec.key), a.claimed) && Handle(s.tasks, Fail(a.lease), a.tried).reply == Done
      then (Fail(a.lease), a.tried)
      else (Complete(a.lease), a.now)
  }

  /** What an action is to the lease table; a write is nothing at all. */
  function LeaseStep(s: Service, a: Action): Step {
    match a
    case Leasing(step) => step
    case Offer(_, _, _, _, cut) =>
      var (req, now) := OfferRequest(s, a);
      if cut.None? then Call(req, now) else Crash(req, now, cut.value)
    case Write(_, _, _, now) => Crash(Request.Sweep, now, 0)
  }

  /** With credentials enforced, a node writes only under the tasks it holds live. */
  ghost predicate MayWrite(tasks: Tasks, enforcing: bool, a: Action)
    requires a.Write?
  {
    !enforcing || a.node.None? || exists key :: key in WriteScope(tasks, a.node.value, a.now) && TaskPrefix(key) <= a.key
  }

  ghost predicate NextService(enforcing: bool, s: Service, a: Action, s': Service) {
    && LeaseRuns.Next(s.tasks, LeaseStep(s, a), s'.tasks)
    && s'.files == (if a.Write? && MayWrite(s.tasks, enforcing, a) then s.files[a.key := a.bytes] else s.files)
  }

  ghost predicate Admissible(a: Action) {
    && (a.Leasing? ==> !a.step.req.Complete?)
    && (a.Offer? ==> a.tried <= a.now)
  }

  /** A coordinator's life from an empty lease table, whatever is in its artifact
      directory. */
  ghost predicate Served(enforcing: bool, states: seq<Service>, actions: seq<Action>) {
    && |states| == |actions| + 1
    && states[0].tasks == []
    && forall i :: 0 <= i < |actions| ==> Admissible(actions[i]) && NextService(enforcing, states[i], actions[i], states[i + 1])
  }

  // ------------------------------------------- a run of the lease protocol

  ghost function Tables(states: seq<Service>): (r: seq<Tasks>)
    ensures |r| == |states| && forall i :: 0 <= i < |states| ==> r[i] == states[i].tasks
  {
    seq(|states|, i requires 0 <= i < |states| => states[i].tasks)
  }

  ghost function Steps(states: seq<Service>, actions: seq<Action>): (r: seq<Step>)
    requires |states| >= |actions|
    ensures |r| == |actions| && forall i :: 0 <= i < |actions| ==> r[i] == LeaseStep(states[i], actions[i])
  {
    seq(|actions|, i requires 0 <= i < |actions| => LeaseStep(states[i], actions[i]))
  }

  /** To the lease table a life of the service is a run of the lease protocol, so every
      result about runs holds of it. */
  lemma ServiceRunsAreRuns(enforcing: bool, states: seq<Service>, actions: seq<Action>)
    requires Served(enforcing, states, actions)
    ensures Run(Tables(states), Steps(states, actions))
  {
    hide LeaseRuns.Next, LeaseStep, MayWrite;
    var tables, steps := Tables(states), Steps(states, actions);
    forall i | 0 <= i < |steps| ensures LeaseRuns.Next(tables[i], steps[i], tables[i + 1]) {
      assert NextService(enforcing, states[i], actions[i], states[i + 1]);
    }
  }

  lemma TablesEvolve(enforcing: bool, states: seq<Service>, actions: seq<Action>, i: nat, j: nat)
    requires Served(enforcing, states, actions) && i <= j < |states|
    ensures TableInv(states[i].tasks) && TableInv(states[j].tasks) && Evolves(states[i].tasks, states[j].tasks)
  {
    ServiceRunsAreRuns(enforcing, states, actions);
    RunKeepsInvariant(Tables(states), Steps(states, actions), i);
    RunKeepsInvariant(Tables(states), Steps(states, actions), j);
    RunEvolves(Tables(states), Steps(states, actions), i, j);
  }

  lemma OneAction(enforcing: bool, states: seq<Service>, actions: seq<Action>, i: nat)
    requires Served(enforcing, states, actions) && i < |actions|
    ensures Admissible(actions[i]) && NextService(enforcing, states[i], actions[i], states[i + 1])
  {
  }

  // ----------------------------------------- who may write, what an offer does

  /** Keys have this form. */
  lemma KeysLookLikeThis()
    ensures CommitKey(TaskKey("j1", "trial-000")) == "jobs/j1/trial-000/metrics.json"
  {
  }

  /** A write is let through with no credentials enforced, for an operator, and else exactly
      under a task whose active lease is the node's own with its deadline ahead. */
  lemma WriteIsAllowedWhen(tasks: Tasks, enforcing: bool, a: Action)
    requires TableInv(tasks) && a.Write?
    ensures MayWrite(tasks, enforcing, a) <==>
              || !enforcing || a.node == None
              || exists p: nat :: HoldsAt(tasks, p, a.node.value, a.now) && TaskPrefix(tasks[p].spec.key) <= a.key
  {
    hide TaskPrefix, TableInv;
    if enforcing && a.node.Some? {
      forall key ensures key in WriteScope(tasks, a.node.value, a.now) <==> exists p: nat :: HoldsAt(tasks, p, a.node.value, a.now) && tasks[p].spec.key == key {
        ScopeIsLiveLeases(tasks, a.node.value, a.now, key);
        if i :| 0 <= i < |tasks| && tasks[i].spec.key == key && tasks[i].active.Some?
                && tasks[i].active.value.node == a.node.value && tasks[i].active.value.deadline > a.now {
          assert HoldsAt(tasks, i, a.node.value, a.now);
        }
      }
      hide WriteScope;
      if p: nat :| HoldsAt(tasks, p, a.node.value, a.now) && TaskPrefix(tasks[p].spec.key) <= a.key {
        assert tasks[p].spec.key in WriteScope(tasks, a.node.value, a.now);
      }
    }
  }

  ghost predicate HoldsAt(tasks: Tasks, p: nat, node: NodeId, now: int) {
    p < |tasks| && tasks[p].active.Some? && tasks[p].active.value.node == node && tasks[p].active.value.deadline > now
  }

  /** An offer under a live lease commits the task if its result is in place with the
      claimed hash, and else fails the lease: another try, or the end of them. */
  lemma OfferOutcome(s: Service, a: Action, p: nat)
    requires TableInv(s.tasks) && a.Offer? && a.cut == None && a.tried <= a.now && HoldsLive(s.tasks, p, a.lease, a.now)
    ensures var after := After(s.tasks, Effects(s.tasks, LeaseStep(s, a)));
            var key := TaskPrefix(s.tasks[p].spec.key) + "metrics.json";
            OnlyAt(s.tasks, p,
                   if key in s.files && Digest(s.files[key]) == a.claimed
                   then s.tasks[p].(state := COMPLETED, accepted := Some(a.lease), active := None)
                   else s.tasks[p].(active := None, state := if s.tasks[p].attempts < s.tasks[p].spec.maxAttempts then PENDING else FAILED),
                   after)
  {
    hide TaskPrefix, TableInv, OnlyAt;
    HolderIsOwner(s.tasks, p, a.lease, a.now);
    OwnerIs(s.tasks, p, a.lease);
    CompleteCommits(s.tasks, p, a.lease, a.now);
    FailReleases(s.tasks, p, a.lease, a.tried);
    hide Handle, After, FindLease;
  }

  /** A crash in an offer cuts it off after as many effects. */
  lemma CutOffersStopThere(s: Service, a: Action)
    requires a.Offer?
    ensures a.cut == None ==> LeaseStep(s, a).Call?
    ensures a.cut.Some? ==> LeaseStep(s, a) == Crash(LeaseStep(s, a.(cut := None)).req, LeaseStep(s, a.(cut := None)).now, a.cut.value)
  {
  }

  /** An offer under a lease nobody holds live changes no task. */
  lemma LateOffersChangeNothing(s: Service, a: Action)
    requires TableInv(s.tasks) && a.Offer? && a.cut == None && NobodyHolds(s.tasks, a.lease, a.tried) && NobodyHolds(s.tasks, a.lease, a.now)
    ensures After(s.tasks, Effects(s.tasks, LeaseStep(s, a))) == s.tasks
  {
    hide TaskPrefix, TableInv, NobodyHolds;
    DeadLeasesSaveNothing(s.tasks, Complete(a.lease), a.lease, a.now);
    DeadLeasesSaveNothing(s.tasks, Fail(a.lease), a.lease, a.tried);
    hide Handle, After, FindLease;
  }

  // ------------------------------------------------ who completes a task

  lemma SaveCompletes(tasks: Tasks, r: Record, now: int, p: nat)
    requires TableInv(tasks) && SaveOk(tasks, r, now) && r.state != COMPLETED
    requires p < |Put(tasks, r)| && Put(tasks, r)[p].state == COMPLETED
    ensures p < |tasks| && tasks[p].state == COMPLETED
  {
  }

  lemma {:induction false} EffectsComplete(tasks: Tasks, effects: seq<Effect>, now: int, p: nat)
    requires TableInv(tasks) && Legal(tasks, effects, now) && CommitSaves(effects) == 0
    requires p < |After(tasks, effects)| && After(tasks, effects)[p].state == COMPLETED
    ensures p < |tasks| && tasks[p].state == COMPLETED
  {
    hide TableInv, SaveOk;
    if effects != [] {
      var rest, last := effects[..|effects| - 1], effects[|effects| - 1];
      LegalKeepsTable(tasks, rest, now, now);
      if last.Save? { SaveCompletes(After(tasks, rest), last.record, now, p); }
      EffectsComplete(tasks, rest, now, p);
    }
  }

  ghost predicate IsCompleted(tasks: Tasks, p: nat) {
    p < |tasks| && tasks[p].state == COMPLETED
  }

  /** Only a completion of a task's live lease completes it. */
  lemma OnlyItsLeaseCompletes(tasks: Tasks, s: Step, tasks': Tasks, p: nat)
    requires TableInv(tasks) && LeaseRuns.Next(tasks, s, tasks')
    requires IsCompleted(tasks', p) && !IsCompleted(tasks, p)
    ensures s.req.Complete? && FindLease(tasks, s.req.lease) == Some(p) && IsLive(tasks[p], s.req.lease, s.now)
  {
    StepKeeps(tasks, s, tasks');
    StepCommits(tasks, s);
    CommitsAreAnsweredTrue(tasks, s.req, s.now);
    var all := Handle(tasks, s.req, s.now).effects;
    if CommitSaves(all) == 0 {
      hide Handle;
      if s.Crash? && s.cut <= |all| { PrefixCommits(all, s.cut); }
      EffectsComplete(tasks, Effects(tasks, s), s.now, p);
    } else {
      var i := FindLease(tasks, s.req.lease).value;
      AcceptedMeans(tasks, s.req.lease, i, s.now);
      AcceptedElsewhere(tasks, s, i, p);
    }
  }

  lemma {:induction false} AcceptedElsewhere(tasks: Tasks, s: Step, i: nat, p: nat)
    requires TableInv(tasks) && i < |tasks| && s.req.Complete? && FindLease(tasks, s.req.lease) == Some(i)
    requires IsLive(tasks[i], s.req.lease, s.now)
    requires IsCompleted(After(tasks, Effects(tasks, s)), p) && !IsCompleted(tasks, p)
    ensures p == i
  {
    var r, id := tasks[i], s.req.lease;
    var l := r.history[id];
    var effects := [Save(Accepted(r, l.id)), Emit(LeaseEvent(TASK_COMMIT_ACCEPTED, l, s.now))];
    assert Handle(tasks, s.req, s.now).effects == effects;
    AfterPair(tasks, Accepted(r, l.id), LeaseEvent(TASK_COMMIT_ACCEPTED, l, s.now));
    PutReplaces(tasks, Accepted(r, l.id), i);
    AfterNothing(tasks);
    assert effects[..0] == [] && effects[..1] == [effects[0]] && effects[..2] == effects && [effects[0]][..0] == [];
    assert After(tasks, [effects[0]]) == Put(tasks, Accepted(r, l.id));
  }

  // ------------------------------------------------------- the commit guard

  /** Action `i` commits task number `p`, whose result is in place with the claimed hash. */
  ghost predicate CheckedAt(states: seq<Service>, actions: seq<Action>, i: nat, p: nat) {
    && i < |actions| < |states|
    && actions[i].Offer?
    && p < |states[i].tasks| && states[i].tasks[p].state == LEASED && IsCompleted(states[i + 1].tasks, p)
    && OutputValid(states[i].files, CommitKey(states[i].tasks[p].spec.key), actions[i].claimed)
  }

  lemma LiveCanFail(tasks: Tasks, id: LeaseId, p: nat, tried: int, now: int)
    requires FindLease(tasks, id) == Some(p) && IsLive(tasks[p], id, now) && tried <= now
    ensures Handle(tasks, Fail(id), tried).reply == Done
  {
  }

  /** An offer that completes a task has a result that checks out. */
  lemma OfferIsChecked(s: Service, a: Action, tasks': Tasks, p: nat)
    requires TableInv(s.tasks) && Admissible(a) && LeaseRuns.Next(s.tasks, LeaseStep(s, a), tasks')
    requires IsCompleted(tasks', p) && !IsCompleted(s.tasks, p)
    ensures a.Offer? && p < |s.tasks| && s.tasks[p].state == LEASED
    ensures OutputValid(s.files, CommitKey(s.tasks[p].spec.key), a.claimed)
  {
    OnlyItsLeaseCompletes(s.tasks, LeaseStep(s, a), tasks', p);
    hide LeaseRuns.Next, TableInv, OutputValid, Handle, CommitKey;
    if a.Offer? && IsLive(s.tasks[p], a.lease, a.now) {
      LiveCanFail(s.tasks, a.lease, p, a.tried, a.now);
    }
  }

  /** Whatever anyone requests or writes, a task is only ever completed by an offer made
      while its result was in place with the claimed hash, and from then on the result
      is never missing. */
  lemma {:induction false} EveryCommitWasChecked(enforcing: bool, states: seq<Service>, actions: seq<Action>, n: nat, p: nat)
    requires Served(enforcing, states, actions) && n < |states| && IsCompleted(states[n].tasks, p)
    ensures exists i :: 0 <= i < n && CheckedAt(states, actions, i, p)
    ensures CommitKey(states[n].tasks[p].spec.key) in states[n].files
  {
    assert n > 0;
    var m := n - 1;
    OneAction(enforcing, states, actions, m);
    TablesEvolve(enforcing, states, actions, m, n);
    hide TableInv, Served;
    if IsCompleted(states[m].tasks, p) {
      EveryCommitWasChecked(enforcing, states, actions, m, p);
      assert RecordEvolves(states[m].tasks[p], states[n].tasks[p]);
      var i :| 0 <= i < m && CheckedAt(states, actions, i, p);
      assert 0 <= i < n && CheckedAt(states, actions, i, p);
    } else {
      OfferIsChecked(states[m], actions[m], states[n].tasks, p);
      assert RecordEvolves(states[m].tasks[p], states[n].tasks[p]);
      assert CheckedAt(states, actions, m, p);
    }
  }

  // ------------------------------------------ committed results are frozen

  /** Ids that are single path segments. */
  predicate Plain(key: TaskKey) {
    '/' !in key.job && '/' !in key.task
  }

  lemma SameSegment(a: string, b: string, u: string, v: string)
    requires '/' !in a && '/' !in b && a + "/" + u <= b + "/" + v
    ensures a == b && u <= v
  {
    var x, y := a + "/" + u, b + "/" + v;
    assert x[|a|] == '/' && y[|b|] == '/';
    assert forall i :: 0 <= i < |a| ==> x[i] == a[i] == y[i];
    assert forall i :: 0 <= i < |b| ==> y[i] == b[i];
    assert |a| == |b|;
    assert a == x[..|a|] && b == y[..|a|];
    assert u == x[|a| + 1..] && v == y[|a| + 1..];
  }

  lemma DropCommon(c: string, a: string, b: string)
    requires c + a <= c + b
    ensures a <= b
  {
    assert a == (c + a)[|c|..] && b == (c + b)[|c|..];
  }

  /** A task's result lies under no other task. */
  lemma PrefixesApart(a: TaskKey, b: TaskKey)
    requires Plain(a) && Plain(b) && TaskPrefix(a) <= CommitKey(b)
    ensures a == b
  {
    var u, v := a.task + "/" + "", b.task + "/" + "metrics.json";
    assert TaskPrefix(a) == "jobs/" + (a.job + "/" + u);
    assert CommitKey(b) == "jobs/" + (b.job + "/" + v);
    DropCommon("jobs/", a.job + "/" + u, b.job + "/" + v);
    SameSegment(a.job, b.job, u, v);
    SameSegment(a.task, b.task, "", "metrics.json");
  }

  ghost predicate AllPlain(tasks: Tasks) {
    forall i :: 0 <= i < |tasks| ==> Plain(tasks[i].spec.key)
  }

  /** A completed task is in nobody's scope, so no node's write reaches its result. */
  lemma CompletedIsOutOfReach(tasks: Tasks, p: nat, a: Action)
    requires TableInv(tasks) && AllPlain(tasks) && IsCompleted(tasks, p)
    requires a.Write? && a.node.Some? && a.key == CommitKey(tasks[p].spec.key)
    ensures !MayWrite(tasks, true, a)
  {
    hide TaskPrefix, CommitKey, TableInv, Plain;
    forall key | key in WriteScope(tasks, a.node.value, a.now) ensures !(TaskPrefix(key) <= a.key) {
      ScopeIsLiveLeases(tasks, a.node.value, a.now, key);
      var i :| 0 <= i < |tasks| && tasks[i].spec.key == key && tasks[i].active.Some?
               && tasks[i].active.value.node == a.node.value && tasks[i].active.value.deadline > a.now;
      LeasedIsNotCompleted(tasks, i, p);
      if TaskPrefix(key) <= a.key { PrefixesApart(key, tasks[p].spec.key); }
    }
  }

  lemma LeasedIsNotCompleted(tasks: Tasks, i: nat, p: nat)
    requires TableInv(tasks) && i < |tasks| && tasks[i].active.Some? && IsCompleted(tasks, p)
    ensures tasks[i].spec.key != tasks[p].spec.key
  {
    assert RecordInv(tasks[i]);
  }

  /** No operator writes the file `key` from action `i` on. */
  ghost predicate LeftAlone(actions: seq<Action>, i: nat, key: string) {
    forall j :: i <= j < |actions| && actions[j].Write? && actions[j].node.None? ==> actions[j].key != key
  }

  lemma PlainBefore(states: seq<Service>, actions: seq<Action>, k: nat)
    requires Served(true, states, actions) && k < |states| && AllPlain(states[|actions|].tasks)
    ensures AllPlain(states[k].tasks)
  {
    TablesEvolve(true, states, actions, k, |actions|);
    hide Plain, TableInv, Served;
    var now, end := states[k].tasks, states[|actions|].tasks;
    forall i | 0 <= i < |now| ensures Plain(now[i].spec.key) {
      assert RecordEvolves(now[i], end[i]);
    }
  }

  /** One more action leaves a completed task completed and its result alone. */
  lemma ResultStays(s: Service, a: Action, s': Service, p: nat, claimed: Digest)
    requires TableInv(s.tasks) && AllPlain(s.tasks) && IsCompleted(s.tasks, p) && NextService(true, s, a, s')
    requires a.Write? && a.node.None? ==> a.key != CommitKey(s.tasks[p].spec.key)
    requires OutputValid(s.files, CommitKey(s.tasks[p].spec.key), claimed)
    ensures OutputValid(s'.files, CommitKey(s.tasks[p].spec.key), claimed)
  {
    if a.Write? && a.node.Some? && a.key == CommitKey(s.tasks[p].spec.key) {
      CompletedIsOutOfReach(s.tasks, p, a);
    }
    hide TableInv, AllPlain, LeaseRuns.Next, CommitKey, MayWrite, LeaseStep;
  }

  lemma SameTask(enforcing: bool, states: seq<Service>, actions: seq<Action>, i: nat, j: nat, p: nat)
    requires Served(enforcing, states, actions) && i <= j < |states| && p < |states[i].tasks|
    ensures p < |states[j].tasks| && states[j].tasks[p].spec == states[i].tasks[p].spec
    ensures IsCompleted(states[i].tasks, p) ==> IsCompleted(states[j].tasks, p)
  {
    TablesEvolve(enforcing, states, actions, i, j);
    hide TableInv, Served;
    assert RecordEvolves(states[i].tasks[p], states[j].tasks[p]);
  }

  lemma CommitWritesNothing(enforcing: bool, states: seq<Service>, actions: seq<Action>, i: nat, p: nat)
    requires Served(enforcing, states, actions) && CheckedAt(states, actions, i, p)
    ensures states[i + 1].files == states[i].files
  {
    OneAction(enforcing, states, actions, i);
  }

  /** With credentials enforced, no node can change a committed result: what was hashed
      when it was accepted is what is there ever after. */
  lemma {:induction false} CommittedResultIsFrozen(states: seq<Service>, actions: seq<Action>, i: nat, p: nat, m: nat)
    requires Served(true, states, actions) && CheckedAt(states, actions, i, p) && i < m < |states|
    requires AllPlain(states[|actions|].tasks) && LeftAlone(actions, i, CommitKey(states[i].tasks[p].spec.key))
    ensures IsCompleted(states[m].tasks, p) && states[m].tasks[p].spec == states[i].tasks[p].spec
    ensures OutputValid(states[m].files, CommitKey(states[i].tasks[p].spec.key), actions[i].claimed)
    decreases m
  {
    SameTask(true, states, actions, i, m, p);
    SameTask(true, states, actions, i + 1, m, p);
    if m == i + 1 {
      CommitWritesNothing(true, states, actions, i, p);
    } else {
      var k := m - 1;
      CommittedResultIsFrozen(states, actions, i, p, k);
      OneAction(true, states, actions, k);
      TablesEvolve(true, states, actions, k, m);
      PlainBefore(states, actions, k);
      hide *;
      NotWritten(actions, i, CommitKey(states[i].tasks[p].spec.key), k);
      ResultStays(states[k], actions[k], states[m], p, actions[i].claimed);
    }
  }

  lemma NotWritten(actions: seq<Action>, i: nat, key: string, k: nat)
    requires LeftAlone(actions, i, key) && i <= k < |actions|
    ensures actions[k].Write? && actions[k].node.None? ==> actions[k].key != key
  {
  }

  // ------------------------------------------------------------ job states

  datatype JobState = JobPending | JobRunning | JobFailed | JobSucceeded | JobCancelled

  function Tally(tasks: Tasks, job: string, state: TaskState): nat {
    if tasks == [] then 0
    else
      var last := tasks[|tasks| - 1];
      Tally(tasks[..|tasks| - 1], job, state) + if last.spec.key.job == job && last.state == state then 1 else 0
  }

  /** A job's state, from the counts of its tasks by state. */
  function JobStateOf(tasks: Tasks, job: string): JobState {
    var done, failed := Tally(tasks, job, COMPLETED), Tally(tasks, job, FAILED);
    var active := Tally(tasks, job, PENDING) + Tally(tasks, job, LEASED);
    var total := done + failed + active + Tally(tasks, job, CANCELLED);
    if total == 0 then JobPending
    else if active > 0 then JobRunning
    else if failed > 0 then JobFailed
    else if done == total then JobSucceeded
    else JobCancelled
  }

  lemma {:induction false} TallyIsZeroWhen(tasks: Tasks, job: string, state: TaskState)
    ensures Tally(tasks, job, state) == 0 <==> forall i :: 0 <= i < |tasks| && tasks[i].spec.key.job == job ==> tasks[i].state != state
  {
    if tasks != [] {
      var n := |tasks| - 1;
      TallyIsZeroWhen(tasks[..n], job, state);
      assert forall i :: 0 <= i < n ==> tasks[..n][i] == tasks[i];
    }
  }

  /** Some task of the job is in this state. */
  ghost predicate SomeIn(tasks: Tasks, job: string, state: TaskState) {
    exists i :: 0 <= i < |tasks| && tasks[i].spec.key.job == job && tasks[i].state == state
  }

  /** Every job state on the states of its tasks. */
  lemma JobStatesMean(tasks: Tasks, job: string)
    ensures JobStateOf(tasks, job) == JobPending <==> forall i :: 0 <= i < |tasks| ==> tasks[i].spec.key.job != job
    ensures JobStateOf(tasks, job) == JobRunning <==> SomeIn(tasks, job, PENDING) || SomeIn(tasks, job, LEASED)
    ensures JobStateOf(tasks, job) == JobFailed <==>
              !SomeIn(tasks, job, PENDING) && !SomeIn(tasks, job, LEASED) && SomeIn(tasks, job, FAILED)
    ensures JobStateOf(tasks, job) == JobCancelled <==>
              !SomeIn(tasks, job, PENDING) && !SomeIn(tasks, job, LEASED) && !SomeIn(tasks, job, FAILED) && SomeIn(tasks, job, CANCELLED)
  {
    hide Tally;
    TallyIsZeroWhen(tasks, job, COMPLETED);
    TallyIsZeroWhen(tasks, job, FAILED);
    TallyIsZeroWhen(tasks, job, PENDING);
    TallyIsZeroWhen(tasks, job, LEASED);
    TallyIsZeroWhen(tasks, job, CANCELLED);
  }

  /** A job has succeeded exactly when it has tasks and all of them are completed. */
  lemma SucceededMeans(tasks: Tasks, job: string)
    ensures JobStateOf(tasks, job) == JobSucceeded <==>
            && (exists i :: 0 <= i < |tasks| && tasks[i].spec.key.job == job)
            && (forall i :: 0 <= i < |tasks| && tasks[i].spec.key.job == job ==> tasks[i].state == COMPLETED)
  {
    hide Tally;
    TallyIsZeroWhen(tasks, job, COMPLETED);
    TallyIsZeroWhen(tasks, job, FAILED);
    TallyIsZeroWhen(tasks, job, PENDING);
    TallyIsZeroWhen(tasks, job, LEASED);
    TallyIsZeroWhen(tasks, job, CANCELLED);
  }
}
