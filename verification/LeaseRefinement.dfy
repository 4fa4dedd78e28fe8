/** The durable store against the in-memory one: the same requests, with the
    coordinator restarted anywhere, give the same tables and the same answers. */
module LeaseRefinement {
  import opened LeaseSpec
  import opened LeaseTable
  import opened LeaseSafety
  import opened LeaseRuns

  /** The coordinator's cache beside the file it writes through to. */
  datatype Durable = Durable(cache: Tasks, rows: Table, counter: nat)

  ghost predicate InStep(d: Durable) {
    Synced(d.rows, d.cache) && Numbered(d.rows, d.counter)
  }

  /** Write-through of one effect: `add` numbers a new row, `save` keeps the old number. */
  function Write(d: Durable, e: Effect): Durable {
    match e
    case Emit(_) => d
    case Save(r) =>
      if IndexOf(d.cache, r.spec.key).None?
      then Durable(Put(d.cache, r), Upsert(d.rows, r, d.counter + 1), d.counter + 1)
      else Durable(Put(d.cache, r), Upsert(d.rows, r, 0), d.counter)
  }

  function WriteAll(d: Durable, effects: seq<Effect>): Durable {
    if effects == [] then d
    else Write(WriteAll(d, effects[..|effects| - 1]), effects[|effects| - 1])
  }

  lemma {:induction false} WritesAreTheCache(d: Durable, effects: seq<Effect>)
    ensures WriteAll(d, effects).cache == After(d.cache, effects)
  {
    if effects != [] {
      WritesAreTheCache(d, effects[..|effects| - 1]);
    }
  }

  lemma SaveOkKeepsSpec(tasks: Tasks, r: Record, now: int)
    requires UniqueKeys(tasks) && SaveOk(tasks, r, now)
    ensures forall i :: 0 <= i < |tasks| && tasks[i].spec.key == r.spec.key ==> tasks[i].spec == r.spec
  {
    match IndexOf(tasks, r.spec.key)
    case None =>
    case Some(j) =>
      assert forall i :: 0 <= i < |tasks| && tasks[i].spec.key == r.spec.key ==> i == j;
  }

  /** After every write, read in sequence order the file is exactly the cache. */
  lemma {:induction false} WritesStayInStep(d: Durable, effects: seq<Effect>, now: int)
    requires InStep(d) && Legal(d.cache, effects, now)
    ensures InStep(WriteAll(d, effects))
  {
    hide Synced, Upsert, SaveOk;
    if effects != [] {
      var rest, last := effects[..|effects| - 1], effects[|effects| - 1];
      WritesStayInStep(d, rest, now);
      WritesAreTheCache(d, rest);
      var mid := WriteAll(d, rest);
      if last.Save? {
        SyncedKeysAreUnique(mid.rows, mid.cache);
        SaveOkKeepsSpec(mid.cache, last.record, now);
        UpsertSynced(mid.rows, mid.cache, last.record, mid.counter);
      }
    }
  }

  /** A coordinator that opens the file finds the rows in order and resumes numbering
      after the last of them. */
  ghost predicate Reopened(d: Durable, d': Durable) {
    d'.rows == d.rows && InStep(d')
  }

  datatype Op =
    | Serve(req: Request, now: int)
    | Restart
    | Die(req: Request, now: int, cut: nat)

  function OpEffects(d: Durable, op: Op): seq<Effect> {
    match op
    case Serve(req, now) => Handle(d.cache, req, now).effects
    case Restart => []
    case Die(req, now, cut) => Effects(d.cache, Crash(req, now, cut))
  }

  ghost predicate NextOp(d: Durable, op: Op, d': Durable) {
    && (op != Restart ==> FreshFor(d.cache, op.req))
    && (if op.Serve? then d' == WriteAll(d, OpEffects(d, op)) else Reopened(WriteAll(d, OpEffects(d, op)), d'))
  }

  ghost predicate DurableRun(ds: seq<Durable>, ops: seq<Op>) {
    && |ds| == |ops| + 1
    && ds[0] == Durable([], map[], 0)
    && forall i :: 0 <= i < |ops| ==> NextOp(ds[i], ops[i], ds[i + 1])
  }

  lemma OpLegal(d: Durable, op: Op)
    requires TableInv(d.cache) && (op != Restart ==> FreshFor(d.cache, op.req))
    ensures Legal(d.cache, OpEffects(d, op), if op.Restart? then 0 else op.now)
  {
    hide TableInv;
    if op != Restart {
      HandleLegal(d.cache, op.req, op.now);
      if op.Die? && op.cut <= |Handle(d.cache, op.req, op.now).effects| {
        LegalPrefix(d.cache, Handle(d.cache, op.req, op.now).effects, op.now, op.cut);
      }
    }
  }

  lemma OpKeepsInStep(d: Durable, op: Op, d': Durable)
    requires InStep(d) && TableInv(d.cache) && NextOp(d, op, d')
    ensures InStep(d') && TableInv(d'.cache) && d'.cache == After(d.cache, OpEffects(d, op))
  {
    hide TableInv, Legal, Synced, OpEffects;
    var effects := OpEffects(d, op);
    var now := if op.Restart? then 0 else op.now;
    var end := WriteAll(d, effects);
    OpLegal(d, op);
    WritesStayInStep(d, effects, now);
    WritesAreTheCache(d, effects);
    LegalKeepsTable(d.cache, effects, now, now);
    if !op.Serve? {
      SyncedIsUnique(end.rows, end.cache, d'.cache);
    }
  }

  /** In every state of every durable run, wherever it crashed or restarted, the file
      decodes to exactly the cache, in insertion order. */
  lemma {:induction false} FileIsTheCache(ds: seq<Durable>, ops: seq<Op>, n: nat)
    requires DurableRun(ds, ops) && n < |ds|
    ensures InStep(ds[n]) && TableInv(ds[n].cache)
    ensures n > 0 ==> ds[n].cache == After(ds[n - 1].cache, OpEffects(ds[n - 1], ops[n - 1]))
  {
    hide NextOp, OpEffects, After;
    if n > 0 {
      FileIsTheCache(ds, ops, n - 1);
      assert NextOp(ds[n - 1], ops[n - 1], ds[n]);
      OpKeepsInStep(ds[n - 1], ops[n - 1], ds[n]);
    }
  }

  /** The step of the abstract run an operation stands for. */
  function AbstractStep(op: Op): Step {
    match op
    case Serve(req, now) => Call(req, now)
    case Restart => Crash(Request.Sweep, 0, 0)
    case Die(req, now, cut) => Crash(req, now, cut)
  }

  /** Every durable run, crashes and all, is a run of the protocol on its caches, so
      everything proved of such runs holds of it. */
  lemma DurableRunsAreRuns(ds: seq<Durable>, ops: seq<Op>)
    requires DurableRun(ds, ops)
    ensures Run(seq(|ds|, i requires 0 <= i < |ds| => ds[i].cache),
                seq(|ops|, i requires 0 <= i < |ops| => AbstractStep(ops[i])))
  {
    var states := seq(|ds|, i requires 0 <= i < |ds| => ds[i].cache);
    var steps := seq(|ops|, i requires 0 <= i < |ops| => AbstractStep(ops[i]));
    forall i | 0 <= i < |steps| ensures Next(states[i], steps[i], states[i + 1]) {
      FileIsTheCache(ds, ops, i + 1);
      assert NextOp(ds[i], ops[i], ds[i + 1]);
      OpIsStep(ds[i], ops[i]);
    }
  }

  lemma OpIsStep(d: Durable, op: Op)
    ensures OpEffects(d, op) == Effects(d.cache, AbstractStep(op))
  {
  }

  // -------------------------------------------- against the in-memory store

  /** The in-memory store serving `calls` in order, and its answers. */
  function InMemory(calls: seq<(Request, int)>): Tasks {
    if calls == [] then []
    else
      var last, before := calls[|calls| - 1], InMemory(calls[..|calls| - 1]);
      After(before, Handle(before, last.0, last.1).effects)
  }

  function Answers(calls: seq<(Request, int)>): seq<Reply> {
    if calls == [] then []
    else
      var last := calls[|calls| - 1];
      Answers(calls[..|calls| - 1]) + [Handle(InMemory(calls[..|calls| - 1]), last.0, last.1).reply]
  }

  /** The requests among the operations, restarts dropped. */
  function Calls(ops: seq<Op>): seq<(Request, int)> {
    if ops == [] then []
    else
      var last := ops[|ops| - 1];
      Calls(ops[..|ops| - 1]) + if last.Serve? then [(last.req, last.now)] else []
  }

  function DurableAnswers(ds: seq<Durable>, ops: seq<Op>, n: nat): seq<Reply>
    requires n <= |ops| <= |ds|
  {
    if n == 0 then []
    else
      DurableAnswers(ds, ops, n - 1)
      + if ops[n - 1].Serve? then [Handle(ds[n - 1].cache, ops[n - 1].req, ops[n - 1].now).reply] else []
  }

  /** A run on the durable store with restarts between operations is step for step the
      run on the in-memory store with none: same table in the same order (so the same
      next pending task), same answers. */
  lemma {:induction false} RestartsAreInvisible(ds: seq<Durable>, ops: seq<Op>, n: nat)
    requires DurableRun(ds, ops) && n <= |ops|
    requires forall i :: 0 <= i < n ==> !ops[i].Die?
    ensures ds[n].cache == InMemory(Calls(ops[..n]))
    ensures DurableAnswers(ds, ops, n) == Answers(Calls(ops[..n]))
  {
    hide NextOp, Handle, After;
    if n > 0 {
      RestartsAreInvisible(ds, ops, n - 1);
      FileIsTheCache(ds, ops, n);
      var op := ops[n - 1];
      var earlier := Calls(ops[..n - 1]);
      assert ops[..n][..n - 1] == ops[..n - 1];
      if op.Serve? {
        assert Calls(ops[..n]) == earlier + [(op.req, op.now)];
        assert (earlier + [(op.req, op.now)])[..|earlier|] == earlier;
      } else {
        assert Calls(ops[..n]) == earlier;
        AfterNothing(ds[n - 1].cache);
      }
    }
  }
}
