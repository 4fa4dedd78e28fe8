/** The driver's own loops, proved against the state machine of FedAvgRounds. */
module FedAvgDriver {
  import opened Prelude
  import opened FedAvgSpec
  import opened FedAvgReduce
  import opened FedAvgRounds
  import opened FedAvgHistory
  import opened FedAvgProgress

  datatype RunError = BadRequest | QuorumNotMet | BadContribution(error: WeightError) | CannotResume(why: ResumeError)

  /** How one round plays out: its job, what the coordinator shows when polling ends,
      and what is then downloaded. */
  datatype Round = Round(job: Job, view: View, chosen: seq<string>, fetched: seq<Contribution>)

  class Driver {
    const cfg: Config
    /** What survives a crash. */
    var submitted: seq<(nat, string)>
    var saved: Saved
    /** What does not. */
    var up: bool
    var round: nat
    var weights: Blob
    var job: Option<Job>
    ghost var log: seq<Entry>

    constructor (cfg: Config)
      ensures this.cfg == cfg && State() == NOTHING
    {
      this.cfg := cfg;
      submitted, saved, log := [], map[], [];
      up, round, weights, job := false, 0, cfg.initial, None;
    }

    ghost function State(): World
      reads this
    {
      World(submitted, saved, log, if up then FedAvgRounds.Up(round, weights, job) else FedAvgRounds.Down)
    }

    ghost predicate Valid()
      reads this
    {
      IsDict(cfg.initial) && (up ==> IsDict(weights))
    }

    /** Probe the carried rounds newest first; only a missing artifact means "not that
        one". */
    method ResumeState(history: seq<(nat, string)>) returns (r: Result<Option<(nat, Blob)>, ResumeError>)
      ensures r == ResumePoint(saved, NewestFirst(history))
    {
      ghost var probe := HasWeights(saved);
      var pairs := NewestFirst(history);
      NewestFirstSorts(history);
      hide NewestFirst;
      var i := 0;
      while i < |pairs|
        invariant i <= |pairs| && forall j :: 0 <= j < i ==> !probe(pairs[j])
      {
        var key := (pairs[i].1, pairs[i].0);
        if key in saved {
          FirstIs(pairs, probe, i);
          if saved[key].names == [] {
            return Failure(EmptyArtifact);
          }
          return Success(Some((pairs[i].0 + 1, saved[key])));
        }
        i := i + 1;
      }
      if pairs != [] && pairs[|pairs| - 1].0 > 0 {
        return Failure(HistoryStartsLate);
      }
      r := Success(None);
    }

    method Resume(history: seq<(nat, string)>) returns (e: Option<RunError>)
      requires Valid()
      modifies this
      ensures State() == Step(cfg, old(State()), Start(history))
      ensures e == None <==> up
      ensures up ==> job == None
      ensures log == old(log) && submitted == old(submitted) && saved == old(saved)
      ensures e == Some(BadRequest) <==> !(1 <= cfg.minParticipants <= cfg.shards)
      ensures 1 <= cfg.minParticipants <= cfg.shards ==> e == match ResumePoint(old(saved), NewestFirst(history))
        case Success(_) => None
        case Failure(why) => Some(CannotResume(why))
      ensures up ==> match ResumePoint(old(saved), NewestFirst(history))
        case Success(Some((next, held))) => round == next && weights == held
        case _ => round == 0 && weights == cfg.initial
    {
      up := false;
      if cfg.minParticipants < 1 || cfg.minParticipants > cfg.shards {
        return Some(BadRequest);
      }
      var r := ResumeState(history);
      if r.Failure? {
        return Some(CannotResume(r.error));
      }
      up, job := true, None;
      if r.value == None {
        round, weights := 0, cfg.initial;
      } else {
        round, weights := r.value.value.0, r.value.value.1;
      }
      e := None;
    }

    method Dispatch(next: Job) returns (e: Option<RunError>)
      requires Valid() && up && job == None && round < cfg.rounds
      modifies this
      ensures State() == Step(cfg, old(State()), Submit(next))
      ensures e == None <==> up
      ensures e == None <==> Dispatchable(cfg, next)
      ensures e == None <==> (forall i, j :: 0 <= i < j < |next.tasks| ==> next.tasks[i] != next.tasks[j]) && |next.tasks| >= cfg.minParticipants
      ensures e.Some? ==> e == Some(BadRequest) && submitted == old(submitted)
      ensures e == None ==> submitted == old(submitted) + [(round, next.id)] && job == Some(next)
      ensures weights == old(weights) && round == old(round) && saved == old(saved)
    {
      RepeatsShrink(next.tasks);
      if Distinct(next.tasks) { DistinctSize(next.tasks); }
      if |next.tasks| != |AsSet(next.tasks)| || |next.tasks| < cfg.minParticipants {
        up := false;
        return Some(BadRequest);
      }
      submitted := submitted + [(round, next.id)];
      job := Some(next);
      e := None;
    }

    method Average(fetched: seq<Contribution>) returns (r: Result<(Blob, seq<ClipEvent>), WeightError>)
      requires Valid() && up && AllDicts(fetched)
      ensures r == Aggregated(cfg, weights, fetched)
      ensures r.Success? ==> IsDict(r.value.0)
      ensures r.Success? <==> GoesThrough(cfg, weights, fetched)
      ensures r.Success? ==> IsNext(cfg, weights, fetched, r.value.0)
    {
      AggregatesWhen(cfg, weights, fetched);
      AggregatedIsDict(cfg, weights, fetched);
      ReducedIsDict(cfg.sqrt, fetched, CLIP_FACTOR);
      hide IsDict, Reduce, ApplyDelta, IsNextWeights, FitsOnto;
      var reduced := ReduceDeltasWithReport(cfg.sqrt, fetched, CLIP_FACTOR);
      if reduced.Failure? || weights.names == [] {
        return reduced;
      }
      var applied := ApplyDelta(weights, reduced.value.0);
      if applied.Failure? {
        return Failure(applied.error);
      }
      r := Success((applied.value, reduced.value.1));
    }

    /** Polling has ended: aggregate the frozen participants and save the weights, or
        give up. */
    method Gather(view: View, chosen: seq<string>, fetched: seq<Contribution>) returns (e: Option<RunError>)
      requires Valid() && up && job.Some? && AllDicts(fetched)
      modifies this
      ensures State() == Step(cfg, old(State()), Collect(view, chosen, fetched))
      ensures e == None <==> up
      ensures e.Some? ==> !e.value.CannotResume?
      ensures Valid()
      ensures e == Some(QuorumNotMet) <==> |chosen| < cfg.minParticipants
      ensures e == None <==> |chosen| >= cfg.minParticipants && GoesThrough(cfg, old(weights), fetched)
      ensures e == None ==> IsNext(cfg, old(weights), fetched, weights)
      ensures e == None ==> saved == old(saved)[(old(job).value.id, old(round)) := weights] && round == old(round) + 1 && job == None
      ensures e.Some? ==> saved == old(saved)
    {
      hide IsDict, Aggregated, ClipsOf, AllDicts, GoesThrough, IsNext, Step;
      if |chosen| < cfg.minParticipants {
        CollectFails(cfg, State(), view, chosen, fetched);
        up := false;
        return Some(QuorumNotMet);
      }
      var r := Average(fetched);
      if r.Failure? {
        CollectFails(cfg, State(), view, chosen, fetched);
        up := false;
        return Some(BadContribution(r.error));
      }
      CollectSaves(cfg, State(), view, chosen, fetched);
      var next := r.value.0;
      log := log + [Entry(round, job.value, view, chosen, fetched, weights, next, ClipsOf(r.value.1, chosen))];
      saved := saved[(job.value.id, round) := next];
      round, weights, job := round + 1, next, None;
      e := None;
    }

    /** One round: dispatch, then aggregate what was committed. */
    method PlayRound(play: Round) returns (e: Option<RunError>)
      requires Valid() && up && job == None && round < cfg.rounds && Inv(cfg, State())
      requires Fair(cfg, play) && forall p :: p in submitted ==> p.1 != play.job.id
      modifies this
      ensures Valid() && Inv(cfg, State())
      ensures e == None <==> up
      ensures e.Some? ==> log == old(log) && !e.value.CannotResume?
      ensures e == None ==> job == None && |log| == |old(log)| + 1 && log[..|old(log)|] == old(log) && Played(log[|old(log)|], play)
      ensures e == None ==> submitted == old(submitted) + [(old(round), play.job.id)]
      ensures e == None <==> PlaysOut(cfg, play, old(weights))
      ensures e == None ==> IsNext(cfg, old(weights), play.fetched, weights)
    {
      hide Inv, Frozen, IsDict, Aggregated, ClipsOf, Dispatchable, AllDicts, GoesThrough, IsNext;
      StepKeeps(cfg, State(), Submit(play.job));
      e := Dispatch(play.job);
      if e.Some? { return; }
      StepKeeps(cfg, State(), Collect(play.view, play.chosen, play.fetched));
      e := Gather(play.view, play.chosen, play.fetched);
    }

    /** All the remaining rounds. The invariant of the history holds throughout, so what
        it says of every round holds of these, and a run that returns has done them all. */
    method RunFedAvg(script: nat -> Round, ghost layout: Blob) returns (r: Result<Blob, RunError>)
      requires Valid() && up && job == None && Inv(cfg, State())
      requires AllFair(cfg, script) && Unused(submitted, script, round)
      modifies this
      ensures Inv(cfg, State()) && old(log) <= log
      ensures r.Success? <==> up
      ensures r.Failure? ==> !r.error.CannotResume?
      ensures r.Success? ==> |log| == Max(cfg.rounds, |old(log)|) && r.value == Current(cfg, log)
      ensures Follows(log, |old(log)|, script)
      ensures AllGood(cfg, script, layout) && Suits(layout, old(weights)) ==> r.Success?
    {
      ghost var good := AllGood(cfg, script, layout) && Suits(layout, weights);
      hide Inv, IsDict, Follows, Unused, Fair, Current, AllFair, AllGood, GoodFor, Suits, PlaysOut, IsNext;
      UpToDate(cfg, State());
      NoneYet(log, script);
      while round < cfg.rounds
        invariant Valid() && up && job == None && Inv(cfg, State()) && AllFair(cfg, script)
        invariant round == |log| <= Max(cfg.rounds, |old(log)|) && weights == Current(cfg, log)
        invariant old(log) <= log && Follows(log, |old(log)|, script)
        invariant Unused(submitted, script, round)
        invariant good ==> Suits(layout, weights)
      {
        var play := script(round);
        if good {
          NextIsGood(cfg, script, layout, round, weights);
          GoodRoundPlays(cfg, play, layout, weights);
        }
        NextRound(cfg, submitted, log, script, round);
        ghost var before, sent := log, submitted;
        ghost var held := weights;
        var e := PlayRound(play);
        if good && e == None { NextSuits(cfg, play, layout, held, weights); }
        if e.Some? {
          assert log == before;
          return Failure(e.value);
        }
        assert log == before + [log[|before|]];
        UpToDate(cfg, State());
        RoundPlayed(cfg, sent, before, log[|before|], |old(log)|, script);
      }
      r := Success(weights);
    }

    /** A driver restarted after a crash, from any honest history in any order: it refuses
        only when the last round's saved weights are empty, and otherwise goes on from
        that round to the end. */
    method Restart(history: seq<(nat, string)>, script: nat -> Round, ghost layout: Blob) returns (r: Result<Blob, RunError>)
      requires Valid() && Inv(cfg, State()) && Accepts(cfg) && Honest(cfg, State(), Start(history))
      requires AllFair(cfg, script) && Unused(submitted, script, |log|)
      modifies this
      ensures Inv(cfg, State()) && old(log) <= log && Follows(log, |old(log)|, script)
      ensures r.Success? ==> |log| == Max(cfg.rounds, |old(log)|) && r.value == Current(cfg, log)
      ensures r == Failure(CannotResume(EmptyArtifact)) <==> old(log) != [] && old(Current(cfg, log)).names == []
      ensures r.Failure? && r.error.CannotResume? ==> r.error.why == EmptyArtifact && log == old(log)
      ensures AllGood(cfg, script, layout) && old(CanGoOn(cfg, log, layout)) ==> r.Success?
    {
      ghost var before := State();
      hide AllGood, Suits;
      hide Inv, Honest, AllFair, Unused, IsDict, NewestFirst, Follows, Current, ResumePoint, Step;
      ResumesAfterTheLastRound(cfg, before, history);
      StepKeeps(cfg, before, Start(history));
      NoneYet(log, script);
      var e := Resume(history);
      if e.Some? {
        return Failure(e.value);
      }
      DriverHoldsDict(cfg, State());
      UpToDate(cfg, State());
      r := RunFedAvg(script, layout);
    }
  }

  /** A round whose contributions reduce, by clip factor three, to something that fits onto
      the weights. */
  ghost predicate GoesThrough(cfg: Config, weights: Blob, fetched: seq<Contribution>)
    requires IsDict(weights) && AllDicts(fetched)
  {
    AggregatesWhen(cfg, weights, fetched);
    var reduced := Reduce(cfg.sqrt, fetched, 3.0);
    reduced.Success? && FitsOnto(weights, reduced.value.0)
  }

  /** Weights that this round makes of these. */
  ghost predicate IsNext(cfg: Config, weights: Blob, fetched: seq<Contribution>, next: Blob)
    requires AllDicts(fetched)
  {
    Reduce(cfg.sqrt, fetched, 3.0).Success? && IsNextWeights(weights, Reduce(cfg.sqrt, fetched, 3.0).value.0, next)
  }

  /** Distinct tasks and commits enough for the quorum, and contributions that go through. */
  ghost predicate PlaysOut(cfg: Config, play: Round, weights: Blob)
    requires IsDict(weights) && AllDicts(play.fetched)
  {
    Dispatchable(cfg, play.job) && |play.chosen| >= cfg.minParticipants && GoesThrough(cfg, weights, play.fetched)
  }

  ghost predicate Fair(cfg: Config, play: Round) {
    AllDicts(play.fetched) && |play.fetched| == |play.chosen| && Frozen(cfg, play.job, play.view, play.chosen)
  }

  /** Every round freezes what was committed, and no two rounds draw the same job id. */
  ghost predicate AllFair(cfg: Config, script: nat -> Round) {
    && (forall r :: Fair(cfg, script(r)))
    && (forall r, s :: r < s ==> script(r).job.id != script(s).job.id)
  }

  ghost predicate Unused(submitted: seq<(nat, string)>, script: nat -> Round, round: nat) {
    forall n: nat, p :: n >= round && p in submitted ==> p.1 != script(n).job.id
  }

  ghost predicate Played(e: Entry, play: Round) {
    e.job == play.job && e.view == play.view && e.chosen == play.chosen && e.fetched == play.fetched
  }

  ghost predicate CanCollect(cfg: Config, w: World, fetched: seq<Contribution>) {
    IsDict(cfg.initial) && w.driver.Up? && w.driver.job.Some? && IsDict(w.driver.weights) && AllDicts(fetched)
  }

  /** A collection ends the driver without a quorum or without a new model. */
  lemma CollectFails(cfg: Config, w: World, view: View, chosen: seq<string>, fetched: seq<Contribution>)
    requires CanCollect(cfg, w, fetched) && (|chosen| < cfg.minParticipants || Aggregated(cfg, w.driver.weights, fetched).Failure?)
    ensures Step(cfg, w, Collect(view, chosen, fetched)) == w.(driver := FedAvgRounds.Down)
  {
    hide IsDict, Aggregated, ClipsOf, AllDicts;
  }

  /** Otherwise it logs and saves the round and moves on. */
  lemma CollectSaves(cfg: Config, w: World, view: View, chosen: seq<string>, fetched: seq<Contribution>)
    requires CanCollect(cfg, w, fetched) && |chosen| >= cfg.minParticipants && Aggregated(cfg, w.driver.weights, fetched).Success?
    ensures var d, a := w.driver, Aggregated(cfg, w.driver.weights, fetched).value;
            Step(cfg, w, Collect(view, chosen, fetched)) ==
              World(w.submitted, w.saved[(d.job.value.id, d.round) := a.0],
                    w.log + [Entry(d.round, d.job.value, view, chosen, fetched, d.weights, a.0, ClipsOf(a.1, chosen))],
                    FedAvgRounds.Up(d.round + 1, a.0, None))
  {
    hide IsDict, Aggregated, ClipsOf, AllDicts, ResumePoint, NewestFirst, Dispatchable, Accepts;
  }

  /** The rounds logged from `start` on are those the script played. */
  ghost predicate Follows(log: seq<Entry>, start: nat, script: nat -> Round) {
    forall i :: start <= i < |log| ==> Played(log[i], script(i))
  }

  /** Distinct tasks and commits enough for the quorum, and contributions with samples, all
      of this layout. */
  ghost predicate GoodRound(cfg: Config, play: Round, layout: Blob) {
    && IsDict(layout)
    && (forall i, j :: 0 <= i < j < |play.job.tasks| ==> play.job.tasks[i] != play.job.tasks[j])
    && |play.job.tasks| >= cfg.minParticipants && |play.chosen| >= cfg.minParticipants
    && AllDicts(play.fetched) && |play.fetched| > 0 && LaidOut(layout, play.fetched)
    && (forall k :: 0 <= k < |play.fetched| ==> play.fetched[k].samples > 0)
  }

  /** No weights yet, or weights of this layout. */
  ghost predicate Suits(layout: Blob, weights: Blob) {
    IsDict(layout) && IsDict(weights) && (|weights.names| == 0 || SameParams(layout, weights))
  }

  /** A history that leaves weights of this layout, and not empty ones if it aggregated. */
  ghost predicate CanGoOn(cfg: Config, log: seq<Entry>, layout: Blob) {
    Suits(layout, Current(cfg, log)) && (log == [] || |Current(cfg, log).names| > 0)
  }

  ghost predicate GoodFor(cfg: Config, play: Round, layout: Blob, weights: Blob) {
    GoodRound(cfg, play, layout) && Suits(layout, weights)
  }

  ghost predicate AllGood(cfg: Config, script: nat -> Round, layout: Blob) {
    forall r :: GoodRound(cfg, script(r), layout)
  }

  lemma NextIsGood(cfg: Config, script: nat -> Round, layout: Blob, round: nat, weights: Blob)
    requires AllGood(cfg, script, layout) && Suits(layout, weights)
    ensures GoodFor(cfg, script(round), layout, weights)
  {
    hide GoodRound, Suits;
  }

  lemma GoodRoundPlays(cfg: Config, play: Round, layout: Blob, weights: Blob)
    requires GoodFor(cfg, play, layout, weights)
    ensures IsDict(weights) && AllDicts(play.fetched) && PlaysOut(cfg, play, weights)
  {
    GoodRoundGoesThrough(cfg, layout, weights, play.fetched);
    AggregatesWhen(cfg, weights, play.fetched);
    hide Reduce, AllDicts, LaidOut, SameParams, IsNextWeights;
  }

  /** What a good round makes of weights of the layout has the layout too. */
  lemma NextSuits(cfg: Config, play: Round, layout: Blob, weights: Blob, next: Blob)
    requires GoodFor(cfg, play, layout, weights) && IsDict(next) && IsNext(cfg, weights, play.fetched, next)
    ensures Suits(layout, next)
  {
    GoodRoundGoesThrough(cfg, layout, weights, play.fetched);
    AggregatesWhen(cfg, weights, play.fetched);
    hide Reduce, AllDicts, LaidOut;
    if |weights.names| > 0 {
      NextKeepsLayout(layout, weights, Reduce(cfg.sqrt, play.fetched, 3.0).value.0, next);
    } else {
      assert next == Aggregated(cfg, weights, play.fetched).value.0;
    }
  }

  lemma NoneYet(log: seq<Entry>, script: nat -> Round)
    ensures Follows(log, |log|, script)
  {
  }

  lemma NextRound(cfg: Config, submitted: seq<(nat, string)>, log: seq<Entry>, script: nat -> Round, round: nat)
    requires AllFair(cfg, script) && Unused(submitted, script, round)
    ensures Fair(cfg, script(round)) && forall p :: p in submitted ==> p.1 != script(round).job.id
  {
    hide Fair;
  }

  lemma RoundPlayed(cfg: Config, submitted: seq<(nat, string)>, log: seq<Entry>, e: Entry, start: nat, script: nat -> Round)
    requires AllFair(cfg, script) && Unused(submitted, script, |log|) && Follows(log, start, script) && Played(e, script(|log|))
    ensures Follows(log + [e], start, script)
    ensures Unused(submitted + [(|log|, script(|log|).job.id)], script, |log| + 1)
  {
    hide Fair, Played;
    var more := submitted + [(|log|, script(|log|).job.id)];
    forall n: nat, p | n >= |log| + 1 && p in more ensures p.1 != script(n).job.id {
      if p in submitted { } else { assert p == (|log|, script(|log|).job.id); }
    }
  }

  lemma UpToDate(cfg: Config, w: World)
    requires Inv(cfg, w) && w.driver.Up?
    ensures w.driver.round == |w.log| && w.driver.weights == Current(cfg, w.log)
  {
  }
}
