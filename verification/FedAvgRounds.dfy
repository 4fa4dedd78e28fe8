/** The multi-round driver as a state machine: it submits one job a round, aggregates
    the tasks committed when quorum is reached, saves the weights, and after a crash
    resumes from whatever weights were saved. */
module FedAvgRounds {
  import opened Prelude
  import opened Names
  import opened FedAvgSpec

  const CLIP_FACTOR := 3.0

  /** `metricsKey(job, task)` is where a task's commit anchors its metrics. */
  datatype Config = Config(rounds: nat, shards: nat, minParticipants: int, initial: Blob, sqrt: real -> real,
                           metricsKey: (string, string) -> string)

  datatype Job = Job(id: string, tasks: seq<string>)

  /** What the coordinator shows of a job: the artifact keys under it and, when it
      exposes task states, the tasks whose commit it accepted. */
  datatype View = View(listed: set<string>, completed: Option<set<string>>)

  datatype Clip = Clip(task: string, norm: real, cap: real, scale: real)

  datatype Entry = Entry(round: nat, job: Job, view: View, chosen: seq<string>, fetched: seq<Contribution>,
                         base: Blob, result: Blob, clips: seq<Clip>)

  datatype Driver = Down | Up(round: nat, weights: Blob, job: Option<Job>)

  /** Saved weights are keyed by job and round. */
  type Saved = map<(string, nat), Blob>

  datatype World = World(submitted: seq<(nat, string)>, saved: Saved, log: seq<Entry>, driver: Driver)

  datatype Event =
    | Start(history: seq<(nat, string)>)
    | Submit(job: Job)
    | Collect(view: View, chosen: seq<string>, fetched: seq<Contribution>)
    | Crash

  datatype ResumeError = EmptyArtifact | HistoryStartsLate

  const NOTHING := World([], map[], [], Down)

  // ---------------------------------------------------- who counts as present

  /** Listed keys that are exactly a dispatched task's metrics key and, when task states
      are known, belong to a completed task. */
  ghost function CommittedKeys(cfg: Config, job: Job, view: View): set<string> {
    set k | k in view.listed && (exists t :: t in job.tasks && k == cfg.metricsKey(job.id, t) && Counts(view, t))
  }

  ghost predicate Counts(view: View, task: string) {
    view.completed.None? || task in view.completed.value
  }

  /** `chosen` is one task per committed key, in the order the keys are read. */
  ghost predicate Frozen(cfg: Config, job: Job, view: View, chosen: seq<string>) {
    && (forall i :: 0 <= i < |chosen| ==>
          chosen[i] in job.tasks && Counts(view, chosen[i]) && cfg.metricsKey(job.id, chosen[i]) in CommittedKeys(cfg, job, view))
    && (forall k :: k in CommittedKeys(cfg, job, view) ==> exists i :: 0 <= i < |chosen| && k == cfg.metricsKey(job.id, chosen[i]))
    && (forall i, j :: 0 <= i < j < |chosen| ==> cfg.metricsKey(job.id, chosen[i]) != cfg.metricsKey(job.id, chosen[j]))
  }

  ghost function KeysOf(cfg: Config, job: Job, chosen: seq<string>): (r: seq<string>)
    ensures |r| == |chosen| && forall i :: 0 <= i < |chosen| ==> r[i] == cfg.metricsKey(job.id, chosen[i])
  {
    seq(|chosen|, i requires 0 <= i < |chosen| => cfg.metricsKey(job.id, chosen[i]))
  }

  /** The dispatched tasks whose commit is listed and counts. */
  ghost function Present(cfg: Config, job: Job, view: View, tasks: seq<string>): seq<string> {
    if tasks == [] then []
    else
      var t := tasks[|tasks| - 1];
      Present(cfg, job, view, tasks[..|tasks| - 1]) + if cfg.metricsKey(job.id, t) in view.listed && Counts(view, t) then [t] else []
  }

  lemma {:induction false} PresentMeans(cfg: Config, job: Job, view: View, tasks: seq<string>)
    ensures forall t :: t in Present(cfg, job, view, tasks) <==> t in tasks && cfg.metricsKey(job.id, t) in view.listed && Counts(view, t)
    ensures Distinct(tasks) ==> Distinct(Present(cfg, job, view, tasks))
  {
    hide Counts;
    if tasks != [] {
      var n := |tasks| - 1;
      PresentMeans(cfg, job, view, tasks[..n]);
      assert tasks == tasks[..n] + [tasks[n]];
    }
  }

  /** Whatever a view shows of a job with distinct tasks and a key for each, the present
      tasks are its frozen participants. */
  lemma PresentIsFrozen(cfg: Config, job: Job, view: View)
    requires Distinct(job.tasks)
    requires forall s, t :: s in job.tasks && t in job.tasks && cfg.metricsKey(job.id, s) == cfg.metricsKey(job.id, t) ==> s == t
    ensures Frozen(cfg, job, view, Present(cfg, job, view, job.tasks))
  {
    PresentMeans(cfg, job, view, job.tasks);
    hide Present, Counts;
    var chosen := Present(cfg, job, view, job.tasks);
    forall i | 0 <= i < |chosen| ensures chosen[i] in job.tasks && Counts(view, chosen[i]) && cfg.metricsKey(job.id, chosen[i]) in CommittedKeys(cfg, job, view) {
      assert chosen[i] in chosen;
    }
    forall k | k in CommittedKeys(cfg, job, view) ensures exists i :: 0 <= i < |chosen| && k == cfg.metricsKey(job.id, chosen[i]) {
      var t :| t in job.tasks && k == cfg.metricsKey(job.id, t) && Counts(view, t);
      assert t in chosen;
    }
    forall i, j | 0 <= i < j < |chosen| ensures cfg.metricsKey(job.id, chosen[i]) != cfg.metricsKey(job.id, chosen[j]) {
      assert chosen[i] in chosen && chosen[j] in chosen;
    }
  }

  /** The participant count is the number of committed keys, the participants are
      distinct dispatched tasks that completed, and no upload under any other key, nor by
      a task that did not complete, ever adds one. */
  lemma ParticipantsAreCommittedTasks(cfg: Config, job: Job, view: View, chosen: seq<string>, extra: set<string>)
    requires Frozen(cfg, job, view, chosen)
    requires forall k :: k in extra ==> forall t :: t in job.tasks && Counts(view, t) ==> k != cfg.metricsKey(job.id, t)
    ensures |chosen| == |CommittedKeys(cfg, job, view)| && |chosen| <= |AsSet(job.tasks)| && Distinct(chosen)
    ensures CommittedKeys(cfg, job, view.(listed := view.listed + extra)) == CommittedKeys(cfg, job, view)
  {
    var keys := KeysOf(cfg, job, chosen);
    DistinctSize(keys);
    assert AsSet(keys) == CommittedKeys(cfg, job, view);
    forall i, j | 0 <= i < j < |chosen| ensures chosen[i] != chosen[j] {
      assert keys[i] != keys[j];
    }
    DistinctSize(chosen);
    SubsetSize(AsSet(chosen), AsSet(job.tasks));
  }

  // ----------------------------------------------------------- one round

  /** An event's position is where its sender stands among the participants. */
  function ClipOf(e: ClipEvent, chosen: seq<string>): Clip
    requires e.index < |chosen|
  {
    Clip(chosen[e.index], e.norm, e.cap, e.scale)
  }

  function ClipsOf(events: seq<ClipEvent>, chosen: seq<string>): seq<Clip> {
    if events == [] then []
    else
      var e := events[|events| - 1];
      ClipsOf(events[..|events| - 1], chosen) + if e.index < |chosen| then [ClipOf(e, chosen)] else []
  }

  ghost predicate AllDicts(cs: seq<Contribution>) {
    forall c :: c in cs ==> IsDict(c.delta)
  }

  /** The round's new weights. With no weights yet, what the workers report is the
      weights themselves. */
  ghost function Aggregated(cfg: Config, weights: Blob, fetched: seq<Contribution>): Result<(Blob, seq<ClipEvent>), WeightError>
    requires IsDict(weights) && AllDicts(fetched)
  {
    match Reduce(cfg.sqrt, fetched, CLIP_FACTOR)
    case Failure(e) => Failure(e)
    case Success((reduced, events)) =>
      ReducedIsDict(cfg.sqrt, fetched, CLIP_FACTOR);
      if weights.names == [] then Success((reduced, events))
      else match ApplyDelta(weights, reduced)
        case Failure(e) => Failure(e)
        case Success(next) => Success((next, events))
  }

  lemma ReducedIsDict(sqrt: real -> real, cs: seq<Contribution>, factor: real)
    requires AllDicts(cs)
    ensures Reduce(sqrt, cs, factor).Success? ==> IsDict(Reduce(sqrt, cs, factor).value.0)
  {
    if Reduce(sqrt, cs, factor).Success? {
      var cap := Cap(sqrt, cs, factor);
      assert ClipOne(sqrt, cs[0], cap).delta.names == cs[0].delta.names;
      assert ClipOne(sqrt, cs[0], cap).delta.params.Keys == cs[0].delta.params.Keys;
      assert cs[0] in cs;
    }
  }

  lemma AggregatedIsDict(cfg: Config, weights: Blob, fetched: seq<Contribution>)
    requires IsDict(weights) && AllDicts(fetched)
    ensures Aggregated(cfg, weights, fetched).Success? ==> IsDict(Aggregated(cfg, weights, fetched).value.0)
  {
    hide IsDict, AllDicts, Reduce;
    ReducedIsDict(cfg.sqrt, fetched, CLIP_FACTOR);
  }

  // -------------------------------------------------------------- resuming

  /** The probe for one carried pair. */
  function HasWeights(saved: Saved): ((nat, string)) -> bool {
    (p: (nat, string)) => (p.1, p.0) in saved
  }

  /** Pairs compare by round, then by job id. */
  predicate Newer(p: (nat, string), q: (nat, string)) {
    p.0 > q.0 || (p.0 == q.0 && StringLess(q.1, p.1))
  }

  function InsertNewest(s: seq<(nat, string)>, p: (nat, string)): seq<(nat, string)> {
    if s == [] then [p]
    else if Newer(p, s[|s| - 1]) then InsertNewest(s[..|s| - 1], p) + [s[|s| - 1]]
    else s + [p]
  }

  /** The carried pairs, sorted in reverse. */
  function NewestFirst(history: seq<(nat, string)>): seq<(nat, string)> {
    if history == [] then [] else InsertNewest(NewestFirst(history[..|history| - 1]), history[|history| - 1])
  }

  /** `q` does not come before `p`. */
  predicate NotNewer(q: (nat, string), p: (nat, string)) {
    q.0 < p.0 || (q.0 == p.0 && (q.1 == p.1 || StringLess(q.1, p.1)))
  }

  lemma NewerOrNot(p: (nat, string), q: (nat, string))
    ensures Newer(p, q) ==> NotNewer(q, p)
    ensures !Newer(p, q) ==> NotNewer(p, q)
  {
    LessIsTotal(p.1, q.1);
  }

  lemma NotNewerTransitive(p: (nat, string), q: (nat, string), r: (nat, string))
    requires NotNewer(p, q) && NotNewer(q, r)
    ensures NotNewer(p, r)
  {
    if p.0 == q.0 == r.0 && p.1 != q.1 && q.1 != r.1 { LessIsTransitive(p.1, q.1, r.1); }
  }

  lemma DescendingMore(s: seq<(nat, string)>, last: (nat, string))
    requires Descending(s) && forall q :: q in s ==> NotNewer(last, q)
    ensures Descending(s + [last])
  {
    hide NotNewer;
  }

  lemma {:induction false} InsertKeepsOrder(s: seq<(nat, string)>, p: (nat, string))
    requires Descending(s)
    ensures Descending(InsertNewest(s, p)) && forall q :: q in InsertNewest(s, p) <==> q in s || q == p
  {
    if s != [] {
      var n := |s| - 1;
      assert s == s[..n] + [s[n]];
      NewerOrNot(p, s[n]);
      hide Newer, NotNewer;
      if Newer(p, s[n]) {
        InsertKeepsOrder(s[..n], p);
        DescendingMore(InsertNewest(s[..n], p), s[n]);
      } else {
        forall q | q in s ensures NotNewer(p, q) {
          if q != s[n] { NotNewerTransitive(p, s[n], q); }
        }
        DescendingMore(s, p);
      }
    }
  }

  lemma {:induction false} NewestFirstSorts(history: seq<(nat, string)>)
    ensures Descending(NewestFirst(history)) && forall q :: q in NewestFirst(history) <==> q in history
  {
    if history != [] {
      var n := |history| - 1;
      NewestFirstSorts(history[..n]);
      InsertKeepsOrder(NewestFirst(history[..n]), history[n]);
      assert history == history[..n] + [history[n]];
      hide Descending, InsertNewest;
    }
  }

  /** Rounds newest first, and of one round the greatest job id first. */
  ghost predicate Descending(history: seq<(nat, string)>) {
    forall i, j :: 0 <= i < j < |history| ==> NotNewer(history[j], history[i])
  }

  /** Where the newest saved round of a history in that order leaves off; `None` is a
      fresh start. */
  function ResumePoint(saved: Saved, history: seq<(nat, string)>): Result<Option<(nat, Blob)>, ResumeError> {
    match First(history, HasWeights(saved))
    case Some(i) =>
      var weights := saved[(history[i].1, history[i].0)];
      if weights.names == [] then Failure(EmptyArtifact) else Success(Some((history[i].0 + 1, weights)))
    case None =>
      if history != [] && forall i :: 0 <= i < |history| ==> history[i].0 > 0 then Failure(HistoryStartsLate) else Success(None)
  }

  // ---------------------------------------------------------- the machine

  /** A round that can be submitted: distinct task ids, enough for quorum. */
  ghost predicate Dispatchable(cfg: Config, job: Job) {
    Distinct(job.tasks) && |job.tasks| >= cfg.minParticipants
  }

  predicate Accepts(cfg: Config) {
    1 <= cfg.minParticipants <= cfg.shards
  }

  ghost function Step(cfg: Config, w: World, e: Event): World
    requires IsDict(cfg.initial) && (w.driver.Up? ==> IsDict(w.driver.weights))
  {
    match e
    case Crash => w.(driver := Down)
    case Start(history) =>
      if !Accepts(cfg) then w.(driver := Down)
      else
        (match ResumePoint(w.saved, NewestFirst(history))
         case Failure(_) => w.(driver := Down)
         case Success(None) => w.(driver := Up(0, cfg.initial, None))
         case Success(Some((round, weights))) => w.(driver := Up(round, weights, None)))
    case Submit(job) =>
      if w.driver.Down? || w.driver.job.Some? || w.driver.round >= cfg.rounds then w
      else if !Dispatchable(cfg, job) then w.(driver := Down)
      else w.(driver := w.driver.(job := Some(job)), submitted := w.submitted + [(w.driver.round, job.id)])
    case Collect(view, chosen, fetched) =>
      if w.driver.Down? || w.driver.job.None? then w
      else if |chosen| < cfg.minParticipants || !AllDicts(fetched) then w.(driver := Down)
      else
        var d := w.driver;
        match Aggregated(cfg, d.weights, fetched)
        case Failure(_) => w.(driver := Down)
        case Success((next, events)) =>
          World(w.submitted, w.saved[(d.job.value.id, d.round) := next],
                w.log + [Entry(d.round, d.job.value, view, chosen, fetched, d.weights, next, ClipsOf(events, chosen))],
                Up(d.round + 1, next, None))
  }

  /** What the environment promises: job ids are fresh; a restart is handed every round
      that aggregated and nothing that was not submitted, in any order; and a collection
      freezes exactly the tasks committed in its view, one contribution each. */
  ghost predicate Honest(cfg: Config, w: World, e: Event) {
    match e
    case Crash => true
    case Start(history) =>
      && (forall p :: p in history ==> p in w.submitted)
      && (forall i :: 0 <= i < |w.log| ==> (i, w.log[i].job.id) in history)
    case Submit(job) => forall p :: p in w.submitted ==> p.1 != job.id
    case Collect(view, chosen, fetched) =>
      && (w.driver.Up? && w.driver.job.Some? ==> Frozen(cfg, w.driver.job.value, view, chosen))
      && |fetched| == |chosen|
  }
}
