/** Any number of executor loops against one coordinator: what they count as accepted
    is what the coordinator has completed, less what got lost on the way. */
module FleetAccounting {
  import opened LeaseSpec
  import opened LeaseRuns
  import opened LeaseAccounting
  import E = ExecutorLoop

  /** The number of the loop that sent a request of the run, any other number standing
      for some other client, and whether the reply arrived. */
  datatype Tag = Tag(loop: int, delivered: bool)

  ghost predicate Tagged(states: seq<Tasks>, steps: seq<Step>, tags: seq<Tag>) {
    Run(states, steps) && |tags| == |steps| && |states| == |steps| + 1
  }

  /** Step `i` is a commit answered True, and loop `j` got the answer. */
  predicate TrueTo(states: seq<Tasks>, steps: seq<Step>, tags: seq<Tag>, i: nat, j: int)
    requires |steps| == |tags| && |states| == |steps| + 1 && i < |steps|
  {
    tags[i].loop == j && tags[i].delivered && AnsweredTrue(states[i], steps[i])
  }

  /** The answers loop `j` got to the results it offered, True or not, in order. */
  function Answers(states: seq<Tasks>, steps: seq<Step>, tags: seq<Tag>, j: int, n: nat): seq<bool>
    requires |steps| == |tags| && |states| == |steps| + 1 && n <= |steps|
  {
    if n == 0 then []
    else
      Answers(states, steps, tags, j, n - 1) +
      if tags[n - 1].loop == j && steps[n - 1].req.Complete?
      then [TrueTo(states, steps, tags, n - 1, j)] else []
  }

  /** A loop is executing a turn in which it claims and runs a task. */
  predicate Runs(cfg: E.Config, s: E.State, t: E.Turn) {
    s.end == E.Running && !E.Enough(cfg, s) && t.Work?
  }

  /** The answers a loop acted on, by its own turns. */
  function Offers(cfg: E.Config, turns: seq<E.Turn>): seq<bool> {
    if turns == [] then []
    else
      var m := |turns| - 1;
      Offers(cfg, turns[..m]) +
      if Runs(cfg, E.After(cfg, E.FRESH, turns[..m]), turns[m]) && turns[m].completed
      then [turns[m].outcome == E.Accepted] else []
  }

  /** A task is accepted only once its result was offered. */
  predicate Sound(turns: seq<E.Turn>) {
    forall i :: 0 <= i < |turns| && turns[i].Work? && turns[i].outcome == E.Accepted ==> turns[i].completed
  }

  function Trues(bs: seq<bool>): nat {
    if bs == [] then 0 else Trues(bs[..|bs| - 1]) + if bs[|bs| - 1] then 1 else 0
  }

  lemma TruesAppend(bs: seq<bool>, b: bool)
    ensures Trues(bs + [b]) == Trues(bs) + if b then 1 else 0
  {
    assert (bs + [b])[..|bs|] == bs;
  }

  lemma NextAccepts(cfg: E.Config, s: E.State, t: E.Turn)
    ensures E.Next(cfg, s, t).accepted == s.accepted + if Runs(cfg, s, t) && t.outcome == E.Accepted then 1 else 0
  {
  }

  lemma OffersMore(cfg: E.Config, turns: seq<E.Turn>)
    requires turns != [] && Sound(turns)
    ensures Runs(cfg, E.After(cfg, E.FRESH, turns[..|turns| - 1]), turns[|turns| - 1]) ==> turns[|turns| - 1].Work?
    ensures var m := |turns| - 1;
            Trues(Offers(cfg, turns)) == Trues(Offers(cfg, turns[..m]))
              + if Runs(cfg, E.After(cfg, E.FRESH, turns[..m]), turns[m]) && turns[m].outcome == E.Accepted then 1 else 0
  {
    hide E.After, Runs, Trues;
    var m := |turns| - 1;
    var before := Offers(cfg, turns[..m]);
    assert before + [] == before;
    RunsWork(cfg, E.After(cfg, E.FRESH, turns[..m]), turns[m]);
    if turns[m].Work? {
      TruesAppend(before, turns[m].outcome == E.Accepted);
    }
  }

  lemma RunsWork(cfg: E.Config, s: E.State, t: E.Turn)
    ensures Runs(cfg, s, t) ==> t.Work?
  {
  }

  /** A loop's own counter is the number of its offers that were answered True. */
  lemma {:induction false} CounterIsTrueOffers(cfg: E.Config, turns: seq<E.Turn>)
    requires Sound(turns)
    ensures E.After(cfg, E.FRESH, turns).accepted == Trues(Offers(cfg, turns))
  {
    if turns == [] {
      NothingOffered(cfg);
    } else {
      var m := |turns| - 1;
      assert forall i :: 0 <= i < m ==> turns[..m][i] == turns[i];
      var s := E.After(cfg, E.FRESH, turns[..m]);
      assert E.After(cfg, E.FRESH, turns) == E.Next(cfg, s, turns[m]);
      OffersMore(cfg, turns);
      hide E.After, E.Next, Runs, Trues, Offers;
      CounterIsTrueOffers(cfg, turns[..m]);
      NextAccepts(cfg, s, turns[m]);
    }
  }

  lemma NothingOffered(cfg: E.Config)
    ensures E.After(cfg, E.FRESH, []).accepted == Trues(Offers(cfg, [])) == 0
  {
  }

  /** What `k` loops report together, by their own counters. */
  function FleetAccepted(cfgs: seq<E.Config>, turns: seq<seq<E.Turn>>, k: nat): nat
    requires k <= |cfgs| == |turns|
  {
    if k == 0 then 0 else FleetAccepted(cfgs, turns, k - 1) + E.After(cfgs[k - 1], E.FRESH, turns[k - 1]).accepted
  }

  /** The loops' turns are what the run answered them. */
  ghost predicate Fleet(cfgs: seq<E.Config>, turns: seq<seq<E.Turn>>, states: seq<Tasks>, steps: seq<Step>, tags: seq<Tag>) {
    && Tagged(states, steps, tags) && |cfgs| == |turns|
    && forall j :: 0 <= j < |turns| ==> Sound(turns[j]) && Offers(cfgs[j], turns[j]) == Answers(states, steps, tags, j, |steps|)
  }

  /** Commits answered True to one of the first `k` loops. */
  function TrueToFleet(states: seq<Tasks>, steps: seq<Step>, tags: seq<Tag>, k: nat, n: nat): nat
    requires |steps| == |tags| && |states| == |steps| + 1 && n <= |steps|
  {
    if n == 0 then 0
    else
      TrueToFleet(states, steps, tags, k, n - 1) +
      if 0 <= tags[n - 1].loop < k && TrueTo(states, steps, tags, n - 1, tags[n - 1].loop) then 1 else 0
  }

  lemma OneMoreAnswer(states: seq<Tasks>, steps: seq<Step>, tags: seq<Tag>, j: int, n: nat)
    requires |steps| == |tags| && |states| == |steps| + 1 && 0 < n <= |steps|
    ensures Trues(Answers(states, steps, tags, j, n))
         == Trues(Answers(states, steps, tags, j, n - 1)) + if TrueTo(states, steps, tags, n - 1, j) then 1 else 0
  {
    TrueIsComplete(states, steps, tags, n - 1, j);
    hide AnsweredTrue, Trues;
    var before := Answers(states, steps, tags, j, n - 1);
    TruesAppend(before, TrueTo(states, steps, tags, n - 1, j));
    assert before + [] == before;
  }

  lemma {:induction false} OneLoop(states: seq<Tasks>, steps: seq<Step>, tags: seq<Tag>, k: nat, n: nat)
    requires |steps| == |tags| && |states| == |steps| + 1 && n <= |steps| && k > 0
    ensures TrueToFleet(states, steps, tags, k, n)
         == TrueToFleet(states, steps, tags, k - 1, n) + Trues(Answers(states, steps, tags, k - 1, n))
  {
    hide AnsweredTrue, Trues, Answers;
    if n > 0 {
      OneLoop(states, steps, tags, k, n - 1);
      OneMoreAnswer(states, steps, tags, k - 1, n);
    } else {
      NoAnswers(states, steps, tags, k - 1);
    }
  }

  lemma NoAnswers(states: seq<Tasks>, steps: seq<Step>, tags: seq<Tag>, j: int)
    requires |steps| == |tags| && |states| == |steps| + 1
    ensures Trues(Answers(states, steps, tags, j, 0)) == 0
  {
  }

  lemma TrueIsComplete(states: seq<Tasks>, steps: seq<Step>, tags: seq<Tag>, i: nat, j: int)
    requires |steps| == |tags| && |states| == |steps| + 1 && i < |steps|
    ensures TrueTo(states, steps, tags, i, j) ==> steps[i].req.Complete?
  {
  }

  lemma {:induction false} NoLoops(states: seq<Tasks>, steps: seq<Step>, tags: seq<Tag>, n: nat)
    requires |steps| == |tags| && |states| == |steps| + 1 && n <= |steps|
    ensures TrueToFleet(states, steps, tags, 0, n) == 0
  {
    if n > 0 { NoLoops(states, steps, tags, n - 1); }
  }

  lemma {:induction false} FleetCountsItsTrues(cfgs: seq<E.Config>, turns: seq<seq<E.Turn>>, states: seq<Tasks>, steps: seq<Step>, tags: seq<Tag>, k: nat)
    requires Fleet(cfgs, turns, states, steps, tags) && k <= |turns|
    ensures FleetAccepted(cfgs, turns, k) == TrueToFleet(states, steps, tags, k, |steps|)
  {
    hide TrueTo, Run;
    if k == 0 {
      NoLoops(states, steps, tags, |steps|);
    } else {
      FleetCountsItsTrues(cfgs, turns, states, steps, tags, k - 1);
      OneLoop(states, steps, tags, k, |steps|);
      CounterIsTrueOffers(cfgs[k - 1], turns[k - 1]);
    }
  }

  /** Every True among the first `n` answers reached one of the loops. */
  ghost predicate NoTrueLost(states: seq<Tasks>, steps: seq<Step>, tags: seq<Tag>, k: nat, n: nat)
    requires |steps| == |tags| && |states| == |steps| + 1 && n <= |steps|
  {
    forall i :: 0 <= i < n && AnsweredTrue(states[i], steps[i]) ==>
      0 <= tags[i].loop < k && tags[i].delivered
  }

  lemma {:induction false} TruesAreAnswered(states: seq<Tasks>, steps: seq<Step>, tags: seq<Tag>, k: nat, n: nat)
    requires |steps| == |tags| && |states| == |steps| + 1 && n <= |steps|
    ensures TrueToFleet(states, steps, tags, k, n) <= CountTrue(states, steps, n)
    ensures TrueToFleet(states, steps, tags, k, n) == CountTrue(states, steps, n) <==> NoTrueLost(states, steps, tags, k, n)
  {
    hide AnsweredTrue;
    if n > 0 {
      TruesAreAnswered(states, steps, tags, k, n - 1);
    }
  }

  /** The fleet's counters never claim more than is completed, and claim all of it
      exactly when every True answer reached a loop and no crash swallowed one. */
  lemma FleetNeverOverclaims(cfgs: seq<E.Config>, turns: seq<seq<E.Turn>>, states: seq<Tasks>, steps: seq<Step>, tags: seq<Tag>)
    requires Fleet(cfgs, turns, states, steps, tags)
    ensures FleetAccepted(cfgs, turns, |turns|) <= CompletedCount(states[|steps|])
    ensures FleetAccepted(cfgs, turns, |turns|) == CompletedCount(states[|steps|]) <==>
            NoTrueLost(states, steps, tags, |turns|, |steps|) && CountLost(states, steps, |steps|) == 0
  {
    FleetCountsItsTrues(cfgs, turns, states, steps, tags, |turns|);
    TruesAreAnswered(states, steps, tags, |turns|, |steps|);
    CompletedTasksAreCommits(states, steps, |steps|);
    hide Run, CountTrue, CountLost, TrueToFleet, FleetAccepted, CompletedCount, NoTrueLost;
  }
}
