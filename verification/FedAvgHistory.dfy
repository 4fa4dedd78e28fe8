/** However often the driver crashes, the rounds it has aggregated are 0, 1, 2, ... with
    nothing repeated or skipped, each the previous weights plus one honest reduction. */
module FedAvgHistory {
  import opened Prelude
  import opened FedAvgSpec
  import opened FedAvgRobust
  import opened FedAvgAlgebra
  import opened FedAvgRounds

  /** The weights the next round starts from. */
  function Current(cfg: Config, log: seq<Entry>): Blob {
    if log == [] then cfg.initial else log[|log| - 1].result
  }

  /** An aggregated round: a frozen set of at least the quorum of distinct tasks that
      were dispatched and, when task states are known, completed; and the base plus
      their reduction. */
  ghost predicate Justified(cfg: Config, e: Entry) {
    && IsDict(e.base) && AllDicts(e.fetched)
    && Dispatchable(cfg, e.job) && Frozen(cfg, e.job, e.view, e.chosen)
    && |e.fetched| == |e.chosen| >= cfg.minParticipants
    && Aggregated(cfg, e.base, e.fetched).Success? && Aggregated(cfg, e.base, e.fetched).value.0 == e.result
    && e.clips == ClipsOf(Aggregated(cfg, e.base, e.fetched).value.1, e.chosen)
  }

  ghost predicate Chained(cfg: Config, log: seq<Entry>) {
    forall i :: 0 <= i < |log| ==>
      log[i].round == i && Justified(cfg, log[i]) && log[i].base == Current(cfg, log[..i]) && IsDict(log[i].result)
  }

  /** Saved weights are exactly the aggregated rounds' results. */
  ghost predicate SavedExactly(saved: Saved, log: seq<Entry>) {
    && (forall i :: 0 <= i < |log| ==> (log[i].job.id, i) in saved && saved[(log[i].job.id, i)] == log[i].result)
    && (forall k :: k in saved ==> k.1 < |log| && log[k.1].job.id == k.0)
  }

  ghost predicate Submitted(submitted: seq<(nat, string)>, log: seq<Entry>) {
    && (forall p :: p in submitted ==> p.0 <= |log|)
    && (forall i :: 0 <= i < |log| ==> (i, log[i].job.id) in submitted)
  }

  ghost predicate Ready(cfg: Config, w: World) {
    w.driver.Up? ==>
      && w.driver.round == |w.log| && w.driver.weights == Current(cfg, w.log)
      && (w.driver.job.Some? ==>
            && Dispatchable(cfg, w.driver.job.value)
            && (w.driver.round, w.driver.job.value.id) in w.submitted
            && |w.log| < cfg.rounds)
  }

  ghost predicate Inv(cfg: Config, w: World) {
    && Chained(cfg, w.log) && SavedExactly(w.saved, w.log) && Submitted(w.submitted, w.log) && Ready(cfg, w)
  }

  lemma CurrentIsDict(cfg: Config, log: seq<Entry>)
    requires IsDict(cfg.initial) && Chained(cfg, log)
    ensures IsDict(Current(cfg, log))
  {
    hide IsDict, Justified;
  }

  // ------------------------------------------------------------- resuming

  /** With every aggregated round in the history, a restart leaves off exactly after the
      last one; it refuses only when that round's saved weights are empty. */
  lemma ResumesAfterTheLastRound(cfg: Config, w: World, history: seq<(nat, string)>)
    requires Inv(cfg, w) && Honest(cfg, w, Start(history))
    ensures ResumePoint(w.saved, NewestFirst(history)) ==
      if w.log == [] then Success(None)
      else if Current(cfg, w.log).names == [] then Failure(EmptyArtifact)
      else Success(Some((|w.log|, Current(cfg, w.log))))
  {
    NewestFirstSorts(history);
    if w.log == [] {
      NothingToResume(cfg, w, history);
    } else {
      LastRoundIsFound(cfg, w, history);
    }
  }

  lemma NothingToResume(cfg: Config, w: World, history: seq<(nat, string)>)
    requires Inv(cfg, w) && w.log == [] && forall p :: p in NewestFirst(history) ==> p in w.submitted
    ensures ResumePoint(w.saved, NewestFirst(history)) == Success(None)
  {
    hide Chained, Ready, NewestFirst;
    var sorted := NewestFirst(history);
    var probe := HasWeights(w.saved);
    assert forall i :: 0 <= i < |sorted| ==> !probe(sorted[i]);
    assert forall i :: 0 <= i < |sorted| ==> sorted[i] in w.submitted;
  }

  lemma LastRoundIsFound(cfg: Config, w: World, history: seq<(nat, string)>)
    requires Inv(cfg, w) && w.log != [] && Descending(NewestFirst(history))
    requires (|w.log| - 1, w.log[|w.log| - 1].job.id) in NewestFirst(history)
    ensures ResumePoint(w.saved, NewestFirst(history)) ==
      if Current(cfg, w.log).names == [] then Failure(EmptyArtifact) else Success(Some((|w.log|, Current(cfg, w.log))))
  {
    hide Chained, Ready, NewestFirst, Submitted;
    var sorted := NewestFirst(history);
    var probe := HasWeights(w.saved);
    var n := |w.log| - 1;
    var at :| 0 <= at < |sorted| && sorted[at] == (n, w.log[n].job.id);
    assert probe(sorted[at]);
    var i := First(sorted, probe).value;
    assert i <= at && sorted[i].0 >= n;
  }

  lemma StartKeeps(cfg: Config, w: World, history: seq<(nat, string)>)
    requires IsDict(cfg.initial) && Inv(cfg, w) && Honest(cfg, w, Start(history))
    requires w.driver.Up? ==> IsDict(w.driver.weights)
    ensures Inv(cfg, Step(cfg, w, Start(history)))
  {
    ResumesAfterTheLastRound(cfg, w, history);
    hide Chained, SavedExactly, Submitted, ResumePoint, Honest, NewestFirst;
  }

  lemma SubmitKeeps(cfg: Config, w: World, job: Job)
    requires IsDict(cfg.initial) && Inv(cfg, w) && Honest(cfg, w, Submit(job))
    requires w.driver.Up? ==> IsDict(w.driver.weights)
    ensures Inv(cfg, Step(cfg, w, Submit(job)))
  {
    hide Chained, SavedExactly, Dispatchable;
  }

  lemma ChainedMore(cfg: Config, log: seq<Entry>, e: Entry)
    requires Chained(cfg, log) && Justified(cfg, e) && e.round == |log| && e.base == Current(cfg, log) && IsDict(e.result)
    ensures Chained(cfg, log + [e])
  {
    hide Justified, IsDict;
    forall i | 0 <= i < |log| ensures (log + [e])[..i] == log[..i] { }
    assert (log + [e])[..|log|] == log;
  }

  lemma SavedMore(saved: Saved, log: seq<Entry>, e: Entry)
    requires SavedExactly(saved, log)
    ensures SavedExactly(saved[(e.job.id, |log|) := e.result], log + [e])
  {
  }

  lemma CollectKeeps(cfg: Config, w: World, view: View, chosen: seq<string>, fetched: seq<Contribution>)
    requires IsDict(cfg.initial) && Inv(cfg, w) && Honest(cfg, w, Collect(view, chosen, fetched))
    requires w.driver.Up? ==> IsDict(w.driver.weights)
    ensures Inv(cfg, Step(cfg, w, Collect(view, chosen, fetched)))
  {
    hide Chained, SavedExactly, Frozen, Dispatchable, Aggregated, AllDicts, IsDict, ClipsOf;
    var r := Step(cfg, w, Collect(view, chosen, fetched));
    if r.log != w.log {
      var d := w.driver;
      AggregatedIsDict(cfg, d.weights, fetched);
      var (next, events) := Aggregated(cfg, d.weights, fetched).value;
      var e := Entry(d.round, d.job.value, view, chosen, fetched, d.weights, next, ClipsOf(events, chosen));
      ChainedMore(cfg, w.log, e);
      SavedMore(w.saved, w.log, e);
      assert r.log == w.log + [e];
    }
  }

  lemma StepKeeps(cfg: Config, w: World, e: Event)
    requires IsDict(cfg.initial) && Inv(cfg, w) && Honest(cfg, w, e)
    requires w.driver.Up? ==> IsDict(w.driver.weights)
    ensures Inv(cfg, Step(cfg, w, e))
  {
    match e
    case Crash =>
      hide Chained, SavedExactly, Submitted;
    case Start(history) =>
      StartKeeps(cfg, w, history);
    case Submit(job) =>
      SubmitKeeps(cfg, w, job);
    case Collect(view, chosen, fetched) =>
      CollectKeeps(cfg, w, view, chosen, fetched);
  }

  lemma DriverHoldsDict(cfg: Config, w: World)
    requires IsDict(cfg.initial) && Inv(cfg, w)
    ensures w.driver.Up? ==> IsDict(w.driver.weights)
  {
    hide IsDict, SavedExactly, Submitted;
    CurrentIsDict(cfg, w.log);
  }

  // -------------------------------------------------------------- any run

  /** A run of honest events from nothing, ending in `w`. That a driver's weights are a
      dictionary only makes the step defined: HonestEventsLeadOn shows it never fails. */
  ghost predicate Reaches(cfg: Config, events: seq<Event>, w: World)
    requires IsDict(cfg.initial)
  {
    if events == [] then w == NOTHING
    else
      exists before: World ::
        && Reaches(cfg, events[..|events| - 1], before)
        && Honest(cfg, before, events[|events| - 1])
        && (before.driver.Up? ==> IsDict(before.driver.weights))
        && w == Step(cfg, before, events[|events| - 1])
  }

  /** In every run, however often the driver crashes and resumes: the aggregated rounds
      are 0, 1, 2, ... each once, each round's weights are the previous round's plus the
      reduction of its own frozen participants, and exactly those weights are saved. */
  lemma {:induction false} RoundsAreNeverRepeatedOrSkipped(cfg: Config, events: seq<Event>, w: World)
    requires IsDict(cfg.initial) && Reaches(cfg, events, w)
    ensures Inv(cfg, w)
  {
    if events != [] {
      var e := events[|events| - 1];
      var before: World :| Reaches(cfg, events[..|events| - 1], before) && Honest(cfg, before, e)
        && (before.driver.Up? ==> IsDict(before.driver.weights)) && w == Step(cfg, before, e);
      RoundsAreNeverRepeatedOrSkipped(cfg, events[..|events| - 1], before);
      StepKeeps(cfg, before, e);
      hide Inv, Step;
    }
  }

  /** The dictionary condition never stops a run: every honest event of a reached state
      leads on. */
  lemma HonestEventsLeadOn(cfg: Config, events: seq<Event>, w: World, e: Event)
    requires IsDict(cfg.initial) && Reaches(cfg, events, w) && Honest(cfg, w, e)
    ensures w.driver.Up? ==> IsDict(w.driver.weights)
    ensures Reaches(cfg, events + [e], Step(cfg, w, e))
  {
    RoundsAreNeverRepeatedOrSkipped(cfg, events, w);
    DriverHoldsDict(cfg, w);
    assert (events + [e])[..|events|] == events;
    hide Inv, Honest, Step;
  }

  /** Aggregated history is final: no later event changes a round or its saved weights. */
  lemma HistoryIsFinal(cfg: Config, w: World, e: Event)
    requires IsDict(cfg.initial) && Inv(cfg, w) && Honest(cfg, w, e)
    requires w.driver.Up? ==> IsDict(w.driver.weights)
    ensures w.log <= Step(cfg, w, e).log
    ensures forall k :: k in w.saved ==> k in Step(cfg, w, e).saved && Step(cfg, w, e).saved[k] == w.saved[k]
  {
    hide Chained, Submitted, Aggregated, ResumePoint, Dispatchable, IsDict, AllDicts;
  }

  lemma {:induction false} ClipsNameSenders(events: seq<ClipEvent>, chosen: seq<string>)
    ensures forall e :: e in events && e.index < |chosen| ==> ClipOf(e, chosen) in ClipsOf(events, chosen)
    ensures forall c :: c in ClipsOf(events, chosen) ==> exists e :: e in events && e.index < |chosen| && c == ClipOf(e, chosen)
  {
    if events != [] {
      var n := |events| - 1;
      ClipsNameSenders(events[..n], chosen);
      assert events == events[..n] + [events[n]];
      assert events[n] in events;
    }
  }

  /** A round's clip report names exactly the participants whose own contribution was
      longer than three times the round's median norm, each with that norm and cap. */
  lemma ClipReportNamesTheOutliers(cfg: Config, e: Entry, i: nat)
    requires IsSqrt(cfg.sqrt) && Justified(cfg, e) && i < |e.chosen|
    ensures (exists c :: c in e.clips && c.task == e.chosen[i]) <==>
            L2Norm(cfg.sqrt, e.fetched[i].delta) > Cap(cfg.sqrt, e.fetched, 3.0)
    ensures forall c :: c in e.clips && c.task == e.chosen[i] ==>
              c.norm == L2Norm(cfg.sqrt, e.fetched[i].delta) && c.cap == Cap(cfg.sqrt, e.fetched, 3.0)
  {
    hide IsDict, AllDicts, L2Norm, Validate, ClipsOf, ClipEvents, Mean, CommittedKeys, Cap;
    var cap := Cap(cfg.sqrt, e.fetched, CLIP_FACTOR);
    CapNotNegative(cfg.sqrt, e.fetched, CLIP_FACTOR);
    var events := Aggregated(cfg, e.base, e.fetched).value.1;
    assert events == ClipEvents(cfg.sqrt, e.fetched, cap);
    EventsAreTheClipped(cfg.sqrt, e.fetched, cap);
    ClipsNameSenders(events, e.chosen);
    forall c | c in e.clips && c.task == e.chosen[i]
      ensures Clips(cfg.sqrt, e.fetched, cap, i) && c.norm == L2Norm(cfg.sqrt, e.fetched[i].delta) && c.cap == cap
    {
      var v :| v in events && v.index < |e.chosen| && c == ClipOf(v, e.chosen);
      assert v.index == i;
    }
    if Clips(cfg.sqrt, e.fetched, cap, i) {
      assert ClipOf(EventFor(cfg.sqrt, e.fetched, cap, i), e.chosen) in e.clips;
    }
  }

  // ------------------------------------------------ how far a round can move

  /** Applying a delta and subtracting the base gives back the delta's parameters. */
  lemma SubtractUndoesApply(base: Blob, delta: Blob)
    requires IsDict(base) && IsDict(delta) && ApplyDelta(base, delta).Success?
    ensures var next := ApplyDelta(base, delta).value;
            && Subtract(next, base).Success?
            && Subtract(next, base).value.params == delta.params && Subtract(next, base).value.names == base.names
            && SameParams(base, delta)
  {
    var next := ApplyDelta(base, delta).value;
    assert next.params.Keys == base.params.Keys;
    assert SameParams(next, base);
    var back := Subtract(next, base).value;
    forall n | n in delta.params ensures n in back.params && back.params[n] == delta.params[n] {
      assert back.params[n].data == delta.params[n].data;
    }
    assert back.params == delta.params;
  }

  lemma {:induction false} NormReadsParams(a: Blob, b: Blob, names: seq<string>)
    requires a.params == b.params
    ensures NormSquared(a, names) == NormSquared(b, names)
  {
    if names != [] { NormReadsParams(a, b, names[..|names| - 1]); }
  }

  lemma JustifiedMeans(cfg: Config, e: Entry)
    requires Justified(cfg, e) && e.base.names != []
    ensures IsDict(e.base) && forall c :: c in e.fetched ==> IsDict(c.delta)
    ensures Validate(e.fetched, 3.0).None? && Reduce(cfg.sqrt, e.fetched, 3.0).Success?
    ensures IsDict(Reduce(cfg.sqrt, e.fetched, 3.0).value.0)
    ensures ApplyDelta(e.base, Reduce(cfg.sqrt, e.fetched, 3.0).value.0) == Success(e.result)
  {
    ReducedIsDict(cfg.sqrt, e.fetched, 3.0);
    hide IsDict, Dispatchable, Frozen, Validate, Mean, ClipEvents, Cap, ApplyDelta;
  }

  /** The change a delta makes is as long as the delta. */
  lemma MovesByItsNorm(sqrt: real -> real, base: Blob, delta: Blob)
    requires IsDict(base) && IsDict(delta) && ApplyDelta(base, delta).Success?
    ensures Subtract(ApplyDelta(base, delta).value, base).Success?
    ensures L2Norm(sqrt, Subtract(ApplyDelta(base, delta).value, base).value) == L2Norm(sqrt, delta)
  {
    SubtractUndoesApply(base, delta);
    SameNames(base, delta);
    var moved := Subtract(ApplyDelta(base, delta).value, base).value;
    hide IsDict, SameParams, Subtract, ApplyDelta, NormSquared, Distinct;
    NormReadsParams(moved, delta, moved.names);
    NormReordered(delta, moved.names, delta.names);
  }

  /** If a strict majority of a round's contributions has norm at most `bound`, the
      round moves the weights by at most three times that, whatever the rest sent. */
  lemma RoundMovesBoundedly(cfg: Config, e: Entry, bound: real)
    requires IsSqrt(cfg.sqrt) && Justified(cfg, e) && e.base.names != []
    requires 2 * CountIn(Norms(cfg.sqrt, e.fetched), 0.0, bound) > |e.fetched|
    ensures IsDict(e.result) && Subtract(e.result, e.base).Success?
    ensures L2Norm(cfg.sqrt, Subtract(e.result, e.base).value) <= 3.0 * bound
  {
    hide *;
    JustifiedMeans(cfg, e);
    var reduced := Reduce(cfg.sqrt, e.fetched, 3.0).value.0;
    BoundedInfluence(cfg.sqrt, e.fetched, 3.0, bound);
    MovesByItsNorm(cfg.sqrt, e.base, reduced);
  }

  lemma SameNames(a: Blob, b: Blob)
    requires IsDict(a) && IsDict(b) && SameParams(a, b)
    ensures Distinct(a.names) && Distinct(b.names) && forall n :: n in a.names <==> n in b.names
  {
  }
}
