/** The relay that ships an attempt's checkpoint files: upload, register, commit, and
    remember only what got all the way. */
module CheckpointRelay {
  import opened Prelude
  import opened SgdSpec
  import opened CatalogSpec
  import opened CatalogRuns
  import opened SgdRecovery

  /** How far the coordinator lets each file get in one pass, `None` being a failed
      upload, and the manifest id a commit of it would draw. */
  datatype Weather = Weather(reach: nat -> Option<Reach>, id: nat -> string, now: int)

  function ShipOne(job: Job, lease: string, w: World, file: nat, weather: Weather): World {
    if file < |w.written| && weather.reach(file).Some?
    then Shipped(job, w, w.written[file], lease, weather.reach(file).value, weather.id(file), weather.now)
    else w
  }

  /** One pass over the listed files, skipping those already shipped. */
  function Swept(job: Job, lease: string, w: World, files: seq<nat>, shipped: set<nat>, weather: Weather): (r: World)
    ensures r.written == w.written
  {
    if files == [] then w
    else
      var n := |files| - 1;
      var before := Swept(job, lease, w, files[..n], shipped, weather);
      if files[n] in shipped then before else ShipOne(job, lease, before, files[n], weather)
  }

  class Relay {
    const job: Job
    const lease: string
    var shipped: set<nat>

    constructor (job: Job, lease: string)
      ensures this.job == job && this.lease == lease && shipped == {}
    {
      this.job, this.lease, shipped := job, lease, {};
    }

    /** Files are listed once each. A failure anywhere leaves the file for a later pass
        and goes on with the next. */
    method ShipNew(w: World, files: seq<nat>, weather: Weather) returns (r: World)
      requires forall i, j :: 0 <= i < j < |files| ==> files[i] != files[j]
      requires forall i :: 0 <= i < |files| ==> files[i] < |w.written|
      modifies this
      ensures r == Swept(job, lease, w, files, old(shipped), weather)
      ensures forall f :: f in shipped <==> f in old(shipped) || (f in files && weather.reach(f) == Some(Committed))
    {
      hide Shipped;
      r := w;
      var k := 0;
      while k < |files|
        invariant k <= |files| && r == Swept(job, lease, w, files[..k], old(shipped), weather)
        invariant forall f :: f in shipped <==> f in old(shipped) || (f in files[..k] && weather.reach(f) == Some(Committed))
      {
        var file := files[k];
        assert files[..k + 1][..k] == files[..k];
        assert files[..k + 1] == files[..k] + [file];
        assert file !in files[..k];
        if file !in shipped {
          var reach := weather.reach(file);
          if reach.Some? {
            r := Shipped(job, r, r.written[file], lease, reach.value, weather.id(file), weather.now);
            if reach.value == Committed {
              shipped := shipped + {file};
            }
          }
        }
        k := k + 1;
      }
      assert files[..k] == files;
    }
  }

  /** A pass is a sequence of the shipments the recovery theorem allows, so nothing it
      does, however it fails, leaves the trajectory. */
  lemma {:induction false} SweepsStayOnTrajectory(job: Job, lease: string, w: World, files: seq<nat>, shipped: set<nat>, weather: Weather)
    requires Runnable(job) && OnTrajectory(job, w)
    ensures OnTrajectory(job, Swept(job, lease, w, files, shipped, weather))
  {
    hide OnTrajectory, Shipped, Genuine;
    if files != [] {
      var n := |files| - 1;
      SweepsStayOnTrajectory(job, lease, w, files[..n], shipped, weather);
      var before := Swept(job, lease, w, files[..n], shipped, weather);
      if files[n] < |before.written| && weather.reach(files[n]).Some? {
        WrittenIsGenuine(job, before, files[n]);
        ShippedKeeps(job, before, before.written[files[n]], lease, weather.reach(files[n]).value, weather.id(files[n]), weather.now);
      }
    }
  }

  lemma WrittenIsGenuine(job: Job, w: World, i: nat)
    requires Runnable(job) && OnTrajectory(job, w) && i < |w.written|
    ensures Genuine(job, w.written[i])
  {
    hide Trajectory;
  }

  /** The files of a list that are not among those already shipped. */
  function Unshipped(files: seq<nat>, shipped: set<nat>): seq<nat> {
    if files == [] then []
    else Unshipped(files[..|files| - 1], shipped) + if files[|files| - 1] in shipped then [] else [files[|files| - 1]]
  }

  /** What has been shipped is never shipped again: a pass over a list is a pass over the
      rest of it. */
  lemma {:induction false} ShippedFilesAreLeftAlone(job: Job, lease: string, w: World, files: seq<nat>, shipped: set<nat>, weather: Weather)
    ensures Swept(job, lease, w, files, shipped, weather) == Swept(job, lease, w, Unshipped(files, shipped), {}, weather)
  {
    hide ShipOne;
    if files != [] {
      var n := |files| - 1;
      ShippedFilesAreLeftAlone(job, lease, w, files[..n], shipped, weather);
      var before := Unshipped(files[..n], shipped);
      assert (before + [files[n]])[..|before|] == before;
      assert before + [] == before;
    }
  }

  // ------------------------------------------------- a clean pass is a resume point

  /** The catalog offers a resume point at this step or later. */
  ghost predicate Resumes(job: Job, w: World, step: nat) {
    var m := Latest(w.catalog.manifests, Query(job.scope, None, false));
    m.Some? && m.value.step >= step
  }

  ghost predicate Unseen(w: World, id: string) {
    forall i :: 0 <= i < |w.catalog.manifests| ==> w.catalog.manifests[i].id != id
  }

  lemma ApplyKeepsResumes(job: Job, s: State, op: Op, step: nat)
    requires UniqueIds(s.manifests) && CatalogRuns.Fresh(s, op) && !op.Quarantine?
    requires Latest(s.manifests, Query(job.scope, None, false)).Some? && Latest(s.manifests, Query(job.scope, None, false)).value.step >= step
    ensures var m := Latest(Apply(s, op).manifests, Query(job.scope, None, false)); m.Some? && m.value.step >= step
  {
    hide Latest, Apply;
    OnlyItsQuarantineLowersIt(s, op, Query(job.scope, None, false));
  }

  /** Shipping a file with a fresh id keeps every resume point, keeps ids unique, adds no
      id but its own, and, when it is committed, makes the file one. */
  lemma ShippedResumes(job: Job, w: World, c: Checkpoint, lease: string, reach: Reach, id: string, now: int)
    requires UniqueIds(w.catalog.manifests) && Unseen(w, id)
    ensures var r := Shipped(job, w, c, lease, reach, id, now);
            && UniqueIds(r.catalog.manifests)
            && (forall other :: other != id && Unseen(w, other) ==> Unseen(r, other))
            && (forall step :: Resumes(job, w, step) ==> Resumes(job, r, step))
            && (reach == Committed ==> Resumes(job, r, c.step))
  {
    hide Latest;
    var r := Shipped(job, w, c, lease, reach, id, now);
    if reach == Committed {
      var part, bucket := PartFor(job, c), Bucket(job.scope, lease, c.step);
      var s := Apply(w.catalog, Register(bucket, part));
      var com := Commit(bucket, [part], 1, [], id, now);
      Committing(s, com, part);
      forall step | Resumes(job, w, step) ensures Resumes(job, r, step) {
        ApplyKeepsResumes(job, s, com, step);
      }
      LatestIsNewest(r.catalog.manifests, Query(job.scope, None, false));
      var n := |s.manifests|;
      assert Candidate(r.catalog.manifests[n], Query(job.scope, None, false));
    }
  }

  /** A commit with a fresh id whose one part has just been registered goes through. */
  lemma Committing(s: State, com: Op, part: Part)
    requires com.Commit? && com.parts == [part] && CatalogRuns.Fresh(s, com) && Backs(UploadsIn(s.registered, com.bucket), part)
    ensures Apply(s, com).manifests == s.manifests + [Made(com)]
  {
    assert Commits(s, com);
  }

  /** After a pass in which nothing fails, the task resumes at or after every file the
      pass shipped: a dying attempt's last sweep loses none of its checkpoints. */
  lemma {:induction false} CleanSweepResumes(job: Job, lease: string, w: World, files: seq<nat>, shipped: set<nat>, weather: Weather)
    requires UniqueIds(w.catalog.manifests)
    requires forall i :: 0 <= i < |files| ==> files[i] < |w.written| && weather.reach(files[i]) == Some(Committed) && Unseen(w, weather.id(files[i]))
    requires forall i, j :: 0 <= i < j < |files| ==> weather.id(files[i]) != weather.id(files[j])
    ensures var r := Swept(job, lease, w, files, shipped, weather);
            && UniqueIds(r.catalog.manifests)
            && (forall other :: Unseen(w, other) && (forall i :: 0 <= i < |files| ==> weather.id(files[i]) != other) ==> Unseen(r, other))
            && (forall step :: Resumes(job, w, step) ==> Resumes(job, r, step))
            && (forall i :: 0 <= i < |files| && files[i] !in shipped ==> Resumes(job, r, w.written[files[i]].step))
  {
    hide Shipped, Resumes, UniqueIds, Unseen;
    if files != [] {
      var n := |files| - 1;
      CleanSweepResumes(job, lease, w, files[..n], shipped, weather);
      var before := Swept(job, lease, w, files[..n], shipped, weather);
      assert Unseen(before, weather.id(files[n]));
      ShippedResumes(job, before, before.written[files[n]], lease, Committed, weather.id(files[n]), weather.now);
      var r := Swept(job, lease, w, files, shipped, weather);
      forall i | 0 <= i < |files| && files[i] !in shipped ensures Resumes(job, r, w.written[files[i]].step) {
        if i < n { assert files[..n][i] == files[i]; }
      }
    }
  }
}
