/** Any schedule of attempts that are killed, relayed late or partly, and resumed from
    the newest committed checkpoint, ends with the model of one uninterrupted run. */
module SgdRecovery {
  import opened Prelude
  import opened SgdSpec
  import opened CatalogSpec
  import opened CatalogRuns

  /** The trained task: its problem and schedule, its scope in the catalog, the artifact
      key a step's checkpoint file is uploaded under, and what the store hashes it to
      and how large it is. Every attempt of the task uses the same keys. */
  datatype Job = Job(p: Problem, s: Schedule, scope: string, key: nat -> string, hash: Checkpoint -> string, size: Checkpoint -> nat)

  ghost predicate Runnable(job: Job) {
    && Loaded(job.p) && job.s.every != 0
    && forall i, j :: job.key(i) == job.key(j) ==> i == j
  }

  /** `written` are the checkpoint files any attempt has left for its relay, `results`
      what the attempts that finished reported. */
  datatype World = World(artifacts: map<string, Checkpoint>, catalog: State, written: seq<Checkpoint>, results: seq<Metrics>)

  const START := World(map[], EMPTY, [], [])

  /** How far a relay gets with one file before it fails or dies. */
  datatype Reach = Uploaded | Registered | Committed

  datatype Event =
    /** An attempt starts now; `killedAfter` is the last step before its process dies,
        if it does. */
    | Attempt(killedAfter: Option<nat>)
    /** Some attempt's relay ships one of the files written so far. */
    | Ship(file: nat, lease: string, reach: Reach, id: string, now: int)
    /** Someone quarantines a manifest or marks it restorable. */
    | Judge(op: Op)
    /** Another task of the same coordinator uploads an artifact under a key of its own and
        registers or commits under its own scope. */
    | Foreign(key: string, content: Checkpoint, op: Op)

  /** What the executor hands the trainer: the first part of the newest valid manifest. */
  function Resume(job: Job, w: World): Option<Checkpoint> {
    match Latest(w.catalog.manifests, Query(job.scope, None, false))
    case None => None
    case Some(m) =>
      if m.parts == [] || m.parts[0].key !in w.artifacts then None else Some(w.artifacts[m.parts[0].key])
  }

  function PartFor(job: Job, c: Checkpoint): Part {
    Part(job.key(c.step), job.hash(c), job.size(c))
  }

  function Shipped(job: Job, w: World, c: Checkpoint, lease: string, reach: Reach, id: string, now: int): World {
    var part, bucket := PartFor(job, c), Bucket(job.scope, lease, c.step);
    var uploaded := w.(artifacts := w.artifacts[part.key := c]);
    if reach == Uploaded then uploaded
    else
      var registered := Apply(w.catalog, Register(bucket, part));
      if reach == Registered then uploaded.(catalog := registered)
      else uploaded.(catalog := Apply(registered, Commit(bucket, [part], 1, [], id, now)))
  }

  /** Everything stored is on the one trajectory. */
  ghost predicate OnTrajectory(job: Job, w: World)
    requires Runnable(job)
  {
    && (forall i :: 0 <= i < |w.written| ==> Genuine(job, w.written[i]))
    && (forall n: nat :: job.key(n) in w.artifacts ==> Genuine(job, w.artifacts[job.key(n)]) && w.artifacts[job.key(n)].step == n)
    && (forall i :: 0 <= i < |w.catalog.manifests| && w.catalog.manifests[i].job == job.scope ==> Downloads(job, w, w.catalog.manifests[i]))
  }

  /** Nothing of the operation or the key is this task's. */
  ghost predicate IsForeign(job: Job, key: string, op: Op) {
    && (forall n: nat :: job.key(n) != key)
    && (op.Register? || op.Commit?) && op.bucket.job != job.scope
  }

  ghost predicate Genuine(job: Job, c: Checkpoint)
    requires Runnable(job)
  {
    c.step <= job.s.steps && c.model == Trajectory(job.p, c.step)
  }

  /** A manifest's part can be downloaded, and is the checkpoint of the manifest's step. */
  ghost predicate Downloads(job: Job, w: World, m: Manifest) {
    && |m.parts| == 1 && m.parts[0].key == job.key(m.step)
    && m.parts[0].key in w.artifacts
  }

  ghost function Step(job: Job, w: World, e: Event): World
    requires Runnable(job) && OnTrajectory(job, w)
  {
    match e
    case Attempt(killedAfter) =>
      ResumeIsGenuine(job, w);
      var resume := Resume(job, w);
      var (outcome, files) := Attempted(job.p, job.s, resume);
      if killedAfter.Some? then
        w.(written := w.written + Files(job.p, job.s, resume, Dies(job.s, resume, killedAfter.value)))
      else if outcome.Finished? then
        w.(written := w.written + files, results := w.results + [outcome.metrics])
      else
        w.(written := w.written + files)
    case Ship(i, lease, reach, id, now) =>
      if i < |w.written| then Shipped(job, w, w.written[i], lease, reach, id, now) else w
    case Judge(op) =>
      if op.Quarantine? || op.MarkRestoreVerified? then w.(catalog := Apply(w.catalog, op)) else w
    case Foreign(key, content, op) =>
      if IsForeign(job, key, op) then w.(artifacts := w.artifacts[key := content], catalog := Apply(w.catalog, op)) else w
  }

  /** An attempt killed from outside may still be killed by its own hook first. */
  function Dies(s: Schedule, resume: Option<Checkpoint>, after: nat): nat {
    match KillStep(s, resume)
    case Some(k) => Min(k, after)
    case None => after
  }

  ghost predicate Starts(job: Job, resume: Option<Checkpoint>)
    requires Runnable(job)
  {
    resume.Some? ==> Genuine(job, resume.value)
  }

  lemma ResumeIsGenuine(job: Job, w: World)
    requires Runnable(job) && OnTrajectory(job, w)
    ensures Starts(job, Resume(job, w)) && Resumable(job.p, Resume(job, w))
  {
    hide Trajectory, Latest;
    SelectionIsBest(w.catalog.manifests, job.scope, None, false);
  }

  /** The checkpoint an attempt resumes from is the one of the newest selectable step. */
  lemma ResumesAtTheNewest(job: Job, w: World)
    requires Runnable(job) && OnTrajectory(job, w)
    ensures var m := Latest(w.catalog.manifests, Query(job.scope, None, false));
            (m.None? <==> Resume(job, w).None?) && (m.Some? ==> Resume(job, w).value.step == m.value.step)
  {
    hide Trajectory, Latest;
    SelectionIsBest(w.catalog.manifests, job.scope, None, false);
  }

  /** A manifest of the task's own that is not quarantined. */
  ghost predicate Own(job: Job, m: Manifest) {
    m.job == job.scope && m.validation != Quarantined
  }

  /** However many tasks share the catalog, an attempt resumes from this task's own newest
      manifest that is not quarantined, with the model of that step of its own run, and
      starts afresh only if it has none. */
  lemma ResumesFromItsOwnScope(job: Job, w: World)
    requires Runnable(job) && OnTrajectory(job, w)
    ensures Resume(job, w).None? <==> forall i :: 0 <= i < |w.catalog.manifests| ==> !Own(job, w.catalog.manifests[i])
    ensures Resume(job, w).Some? ==>
              && Resume(job, w).value.model == Trajectory(job.p, Resume(job, w).value.step)
              && (forall i :: 0 <= i < |w.catalog.manifests| && Own(job, w.catalog.manifests[i]) ==>
                    w.catalog.manifests[i].step <= Resume(job, w).value.step)
              && (exists i :: 0 <= i < |w.catalog.manifests| && Own(job, w.catalog.manifests[i])
                    && w.catalog.manifests[i].step == Resume(job, w).value.step)
  {
    hide Trajectory, Latest;
    SelectionIsBest(w.catalog.manifests, job.scope, None, false);
    ResumeIsGenuine(job, w);
    ResumesAtTheNewest(job, w);
  }

  // ------------------------------------------------------------- one attempt

  /** Training on from a point of a run is the run itself. */
  lemma {:induction false} AdvanceJoins(p: Problem, m: Model, from: nat, mid: nat, upto: nat)
    requires Loaded(p) && Fits(p, m) && from <= mid <= upto
    ensures Advance(p, Advance(p, m, from, mid), mid, upto) == Advance(p, m, from, upto)
    decreases upto
  {
    hide Next;
    if mid < upto { AdvanceJoins(p, m, from, mid, upto - 1); }
  }

  lemma ResumedIsUninterrupted(job: Job, resume: Option<Checkpoint>, upto: nat)
    requires Runnable(job) && Starts(job, resume) && Resumable(job.p, resume) && StartStep(resume) <= upto
    ensures Advance(job.p, StartModel(job.p, resume), StartStep(resume), upto) == Trajectory(job.p, upto)
  {
    AdvanceJoins(job.p, SgdSpec.Fresh(job.p), 0, StartStep(resume), upto);
    hide Next, Advance;
  }

  lemma {:induction false} FilesAreGenuine(job: Job, resume: Option<Checkpoint>, upto: nat)
    requires Runnable(job) && Starts(job, resume) && Resumable(job.p, resume)
    ensures forall i :: 0 <= i < |Files(job.p, job.s, resume, upto)| ==> Genuine(job, Files(job.p, job.s, resume, upto)[i])
  {
    hide Trajectory, Advance, StartModel;
    if upto > StartStep(resume) {
      FilesAreGenuine(job, resume, upto - 1);
      ResumedIsUninterrupted(job, resume, upto);
    }
  }

  // -------------------------------------------------------------- every step

  lemma ShippedKeeps(job: Job, w: World, c: Checkpoint, lease: string, reach: Reach, id: string, now: int)
    requires Runnable(job) && OnTrajectory(job, w) && Genuine(job, c)
    ensures OnTrajectory(job, Shipped(job, w, c, lease, reach, id, now))
  {
    hide Trajectory, Apply, Genuine, Commits;
    var r := Shipped(job, w, c, lease, reach, id, now);
    var part, bucket := PartFor(job, c), Bucket(job.scope, lease, c.step);
    var reg, com := Register(bucket, part), Commit(bucket, [part], 1, [], id, now);
    RegisterKeepsManifests(w.catalog, reg);
    forall i | 0 <= i < |r.catalog.manifests| && r.catalog.manifests[i].job == job.scope ensures Downloads(job, r, r.catalog.manifests[i]) {
      if reach == Committed {
        ApplyFrom(Apply(w.catalog, reg), com, i);
      }
    }
  }

  lemma RegisterKeepsManifests(s: State, op: Op)
    requires op.Register?
    ensures Apply(s, op).manifests == s.manifests
  {
  }

  lemma ForeignKeeps(job: Job, w: World, key: string, content: Checkpoint, op: Op)
    requires Runnable(job) && OnTrajectory(job, w) && IsForeign(job, key, op)
    ensures OnTrajectory(job, w.(artifacts := w.artifacts[key := content], catalog := Apply(w.catalog, op)))
  {
    hide Trajectory, Genuine, Apply, Commits;
    var r := w.(artifacts := w.artifacts[key := content], catalog := Apply(w.catalog, op));
    forall i | 0 <= i < |r.catalog.manifests| && r.catalog.manifests[i].job == job.scope ensures Downloads(job, r, r.catalog.manifests[i]) {
      ApplyFrom(w.catalog, op, i);
    }
  }

  lemma StepKeeps(job: Job, w: World, e: Event)
    requires Runnable(job) && OnTrajectory(job, w)
    ensures OnTrajectory(job, Step(job, w, e))
  {
    hide Trajectory, Genuine, Shipped, Resume, Files, Apply;
    match e
    case Attempt(killedAfter) =>
      ResumeIsGenuine(job, w);
      var resume := Resume(job, w);
      FilesAreGenuine(job, resume, job.s.steps);
      match KillStep(job.s, resume) {
        case Some(k) => FilesAreGenuine(job, resume, k);
        case None =>
      }
      if killedAfter.Some? { FilesAreGenuine(job, resume, Dies(job.s, resume, killedAfter.value)); }
      hide Advance;
    case Ship(i, lease, reach, id, now) =>
      if i < |w.written| { ShippedKeeps(job, w, w.written[i], lease, reach, id, now); }
    case Judge(op) =>
      forall i | 0 <= i < |Step(job, w, e).catalog.manifests| && Step(job, w, e).catalog.manifests[i].job == job.scope
        ensures Downloads(job, w, Step(job, w, e).catalog.manifests[i])
      {
        if op.Quarantine? || op.MarkRestoreVerified? { ApplyFrom(w.catalog, op, i); }
      }
    case Foreign(key, content, op) =>
      if IsForeign(job, key, op) { ForeignKeeps(job, w, key, content, op); }
  }

  lemma StepFinishes(job: Job, w: World, e: Event)
    requires Runnable(job) && OnTrajectory(job, w)
    ensures Step(job, w, e).results == w.results || Step(job, w, e).results == w.results + [Report(job.p, Trajectory(job.p, job.s.steps))]
  {
    hide Trajectory, Resume, Files, Apply, Advance, StartModel, MeanLoss;
    if e.Attempt? {
      ResumeIsGenuine(job, w);
      var resume := Resume(job, w);
      assert StartStep(resume) <= job.s.steps;
      ResumedIsUninterrupted(job, resume, job.s.steps);
    }
  }

  ghost function Run(job: Job, events: seq<Event>): (w: World)
    requires Runnable(job)
    ensures OnTrajectory(job, w)
  {
    if events == [] then START
    else
      var w := Run(job, events[..|events| - 1]);
      StepKeeps(job, w, events[|events| - 1]);
      Step(job, w, events[|events| - 1])
  }

  /** For any number of attempts killed at any steps, with relays that ship any of their
      files late, twice, in part or never, and any quarantines: every attempt that
      finishes reports exactly the weights, bias and loss an uninterrupted run reports. */
  lemma {:induction false} CrashScheduleDoesNotMatter(job: Job, events: seq<Event>)
    requires Runnable(job)
    ensures var uninterrupted := Attempted(job.p, job.s.(killAt := None), None).0;
            uninterrupted.Finished? && forall i :: 0 <= i < |Run(job, events).results| ==>
              Run(job, events).results[i] == uninterrupted.metrics
  {
    hide Step, OnTrajectory, Advance, MeanLoss;
    if events != [] {
      var n := |events| - 1;
      CrashScheduleDoesNotMatter(job, events[..n]);
      StepFinishes(job, Run(job, events[..n]), events[n]);
    }
  }

  /** Shipping a file uploads it under its step's key; registers it, if it gets that far,
      under the task's scope and the lease, with its hash and size; and commits, if it gets
      all the way, a manifest of that step naming it alone. */
  lemma ShippingMeans(job: Job, w: World, c: Checkpoint, lease: string, reach: Reach, id: string, now: int)
    ensures var r, bucket := Shipped(job, w, c, lease, reach, id, now), Bucket(job.scope, lease, c.step);
            && r.artifacts == w.artifacts[job.key(c.step) := c] && r.written == w.written && r.results == w.results
            && (reach == Uploaded ==> r.catalog == w.catalog)
            && (reach != Uploaded ==>
                  && job.key(c.step) in UploadsIn(r.catalog.registered, bucket)
                  && UploadsIn(r.catalog.registered, bucket)[job.key(c.step)] == (job.hash(c), job.size(c)))
            && (reach == Registered ==> r.catalog.manifests == w.catalog.manifests)
            && (reach == Committed ==> exists i :: 0 <= i < |r.catalog.manifests| && IsShipped(job, r.catalog.manifests[i], c, lease, id, now))
  {
    if reach == Committed {
      var bucket, part := Bucket(job.scope, lease, c.step), PartFor(job, c);
      var com := Commit(bucket, [part], 1, [], id, now);
      var s := Apply(w.catalog, Register(bucket, part));
      assert Commits(s, com);
      var ms := Store(s.manifests, Made(com));
      match Find(s.manifests, id) {
        case None => assert IsShipped(job, ms[|s.manifests|], c, lease, id, now);
        case Some(i) => assert IsShipped(job, ms[i], c, lease, id, now);
      }
    }
  }

  ghost predicate IsShipped(job: Job, m: Manifest, c: Checkpoint, lease: string, id: string, now: int) {
    && m.id == id && m.job == job.scope && m.attempt == lease && m.step == c.step && m.world == 1 && m.compatible == [1]
    && m.parts == [Part(job.key(c.step), job.hash(c), job.size(c))] && m.validation == HashVerified && m.created == now
  }

  /** An attempt from the task's resume point leaves the files it has written by the time it
      dies, of the outside kill or its own hook, whichever is first, or finishes and adds
      its report; other tasks' operations are seen as they are. */
  lemma EventsMean(job: Job, w: World, e: Event)
    requires Runnable(job) && OnTrajectory(job, w)
    ensures e.Attempt? ==>
              && Resumable(job.p, Resume(job, w))
              && var r, resume := Step(job, w, e), Resume(job, w);
                 var (outcome, files) := Attempted(job.p, job.s, resume);
                 && r.artifacts == w.artifacts && r.catalog == w.catalog
                 && (match e.killedAfter
                     case Some(after) =>
                       && r.results == w.results
                       && r.written == w.written + Files(job.p, job.s, resume, if outcome.Killed? && outcome.step < after then outcome.step else after)
                     case None =>
                       && r.written == w.written + files
                       && r.results == w.results + if outcome.Finished? then [outcome.metrics] else [])
    ensures e.Foreign? && IsForeign(job, e.key, e.op) ==>
              Step(job, w, e) == World(w.artifacts[e.key := e.content], Apply(w.catalog, e.op), w.written, w.results)
    ensures e.Judge? && (e.op.Quarantine? || e.op.MarkRestoreVerified?) ==>
              Step(job, w, e) == World(w.artifacts, Apply(w.catalog, e.op), w.written, w.results)
    ensures e.Ship? && e.file < |w.written| ==> Step(job, w, e) == Shipped(job, w, w.written[e.file], e.lease, e.reach, e.id, e.now)
  {
    hide Files, Advance, Trajectory, Apply, Shipped, Latest;
    ResumeIsGenuine(job, w);
    hide OnTrajectory, Resume;
  }

  /** An attempt nobody kills from outside finishes unless it is fresh and its own hook
      fires: a resumed retry never dies again. */
  lemma ResumedAttemptFinishes(job: Job, w: World)
    requires Runnable(job) && OnTrajectory(job, w)
    ensures |Step(job, w, Attempt(None)).results| == |w.results| + 1 <==> KillStep(job.s, Resume(job, w)).None?
    ensures Resume(job, w).Some? ==> |Step(job, w, Attempt(None)).results| == |w.results| + 1
  {
    hide Files, Advance, StartModel;
  }
}
