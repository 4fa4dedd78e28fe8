/** The catalog object: two dictionaries updated in place and the events it emits. */
module CheckpointCatalog {
  import opened Prelude
  import opened CatalogRuns
  import opened CatalogSpec

  datatype Event = Rejected(job: string, step: nat) | Committed(job: string, step: nat) | Restored(job: string, step: nat)

  datatype Refusal = Refused(problems: seq<Flaw>) | UnknownManifest

  /** What is wrong with the expected parts, in order; a manifest needs at least one. */
  function Problems(have: Uploads, parts: seq<Part>): seq<Flaw> {
    if parts == [] then []
    else
      var n := |parts| - 1;
      var p := parts[n];
      Problems(have, parts[..n]) +
      if p.key !in have then [MissingPart(p.key)]
      else if have[p.key].0 != p.sha256 then [HashMismatch(p.key)]
      else []
  }

  /** What is wrong with a part that nothing backs. */
  function FlawOf(have: Uploads, p: Part): Flaw {
    if p.key in have then HashMismatch(p.key) else MissingPart(p.key)
  }

  /** Each problem is an unbacked part's and each unbacked part has its problem. */
  lemma {:induction false} ProblemsAreUnbackedParts(have: Uploads, parts: seq<Part>)
    ensures Problems(have, parts) == [] <==> BacksAll(have, parts)
    ensures forall f :: f in Problems(have, parts) <==>
              exists i :: 0 <= i < |parts| && !Backs(have, parts[i]) && f == FlawOf(have, parts[i])
  {
    if parts != [] {
      var n := |parts| - 1;
      ProblemsAreUnbackedParts(have, parts[..n]);
      assert forall i :: 0 <= i < n ==> parts[..n][i] == parts[i];
      forall f ensures f in Problems(have, parts) <==> exists i :: 0 <= i < |parts| && !Backs(have, parts[i]) && f == FlawOf(have, parts[i]) {
        if f in Problems(have, parts[..n]) {
          var i :| 0 <= i < n && !Backs(have, parts[..n][i]) && f == FlawOf(have, parts[..n][i]);
          assert !Backs(have, parts[i]) && f == FlawOf(have, parts[i]);
        }
        if i :| 0 <= i < |parts| && !Backs(have, parts[i]) && f == FlawOf(have, parts[i]) {
          if i < n { assert !Backs(have, parts[..n][i]) && f == FlawOf(have, parts[..n][i]); }
        }
      }
    }
  }

  class Catalog {
    var manifests: seq<Manifest>
    var registered: map<Bucket, Uploads>
    var events: seq<Event>

    ghost function State(): State
      reads this
    {
      CatalogSpec.State.State(manifests, registered)
    }

    constructor ()
      ensures State() == EMPTY && events == []
    {
      manifests, registered, events := [], map[], [];
    }

    method RegisterPart(bucket: Bucket, part: Part)
      modifies this
      ensures State() == Apply(old(State()), Register(bucket, part))
      ensures events == old(events)
    {
      if bucket !in registered {
        registered := registered[bucket := map[]];
      }
      registered := registered[bucket := registered[bucket][part.key := (part.sha256, part.size)]];
    }

    /** The manifest is written exactly when there is at least one expected part and
        every one was registered for this attempt and step with the same hash; otherwise
        both dictionaries are as they were. */
    method Commit(bucket: Bucket, parts: seq<Part>, world: Size, sizes: seq<int>, id: string, now: int)
      returns (r: Result<Manifest, Refusal>)
      modifies this
      ensures r.Success? <==> parts != [] && BacksAll(old(UploadsIn(registered, bucket)), parts)
      ensures State() == Apply(old(State()), CatalogSpec.Commit(bucket, parts, world, sizes, id, now))
      ensures r.Failure? ==> State() == old(State())
      ensures r.Failure? ==> r.error == Refused(Problems(old(UploadsIn(registered, bucket)), parts) + if parts == [] then [ZeroParts] else [])
      ensures r.Success? ==> r.value == Made(CatalogSpec.Commit(bucket, parts, world, sizes, id, now))
      ensures r.Success? ==> exists i :: 0 <= i < |manifests| && manifests[i] == r.value
      ensures events == old(events) + [if r.Success? then Committed(bucket.job, bucket.step) else Rejected(bucket.job, bucket.step)]
    {
      var have: Uploads := if bucket in registered then registered[bucket] else map[];
      var problems: seq<Flaw> := [];
      var i := 0;
      while i < |parts|
        invariant i <= |parts| && problems == Problems(have, parts[..i])
      {
        var part := parts[i];
        assert parts[..i + 1][..i] == parts[..i];
        if part.key !in have {
          problems := problems + [MissingPart(part.key)];
        } else if have[part.key].0 != part.sha256 {
          problems := problems + [HashMismatch(part.key)];
        }
        i := i + 1;
      }
      assert parts[..i] == parts;
      ProblemsAreUnbackedParts(have, parts);
      hide Problems, BacksAll;
      if parts == [] {
        problems := problems + [ZeroParts];
      }
      if problems != [] {
        events := events + [Rejected(bucket.job, bucket.step)];
        return Failure(Refused(problems));
      }
      var manifest := Manifest(id, bucket.job, bucket.attempt, bucket.step, world,
                               if sizes == [] then [world] else sizes, parts, HashVerified, now);
      var at := Find(manifests, id);
      if at.Some? {
        manifests := manifests[at.value := manifest];
        assert manifests[at.value] == manifest;
      } else {
        manifests := manifests + [manifest];
        assert manifests[|manifests| - 1] == manifest;
      }
      events := events + [Committed(bucket.job, bucket.step)];
      r := Success(manifest);
    }

    method MarkVerified(id: string) returns (r: Result<(), Refusal>)
      modifies this
      ensures State() == Apply(old(State()), MarkRestoreVerified(id))
      ensures r.Failure? <==> forall i :: 0 <= i < |old(manifests)| ==> old(manifests)[i].id != id
      ensures r.Failure? ==> State() == old(State()) && events == old(events)
      ensures r.Success? ==> exists i :: (0 <= i < |manifests| && manifests[i].id == id && manifests[i].validation == RestoreVerified
        && events == old(events) + [Restored(manifests[i].job, manifests[i].step)])
    {
      var at := Find(manifests, id);
      if at == None {
        return Failure(UnknownManifest);
      }
      var m := manifests[at.value];
      manifests := manifests[at.value := m.(validation := RestoreVerified)];
      events := events + [Restored(m.job, m.step)];
      assert manifests[at.value].id == id;
      r := Success(());
    }

    method Quarantine(id: string) returns (r: Result<(), Refusal>)
      modifies this
      ensures State() == Apply(old(State()), CatalogSpec.Quarantine(id))
      ensures r.Failure? <==> forall i :: 0 <= i < |old(manifests)| ==> old(manifests)[i].id != id
      ensures r.Failure? ==> State() == old(State()) && events == old(events)
      ensures r.Success? ==> exists i :: (0 <= i < |manifests| && manifests[i].id == id && manifests[i].validation == Quarantined
        && events == old(events) + [Rejected(manifests[i].job, manifests[i].step)])
    {
      var at := Find(manifests, id);
      if at == None {
        return Failure(UnknownManifest);
      }
      var m := manifests[at.value];
      manifests := manifests[at.value := m.(validation := Quarantined)];
      events := events + [Rejected(m.job, m.step)];
      assert manifests[at.value].id == id;
      r := Success(());
    }

    method LatestValid(job: string, world: Option<int>, restoredOnly: bool) returns (best: Option<Manifest>)
      ensures best == Latest(manifests, Query(job, world, restoredOnly))
      ensures best == None <==> forall i :: 0 <= i < |manifests| ==> !Restorable(manifests[i], job, world, restoredOnly)
      ensures best.Some? ==> IsBestOf(manifests, best.value, job, world, restoredOnly)
    {
      var q := Query(job, world, restoredOnly);
      best := None;
      var i := 0;
      while i < |manifests|
        invariant i <= |manifests| && best == Latest(manifests[..i], q)
      {
        var m := manifests[i];
        assert manifests[..i + 1][..i] == manifests[..i];
        if Candidate(m, q) && (best == None || Outranks(m, best.value)) {
          best := Some(m);
        }
        i := i + 1;
      }
      assert manifests[..i] == manifests;
      hide Restorable, IsBestOf, Latest, Candidate;
      SelectionIsBest(manifests, job, world, restoredOnly);
    }

    method LostSteps(job: string, failedAt: int, world: Option<int>) returns (lost: Option<nat>)
      ensures lost == LostWork(manifests, job, failedAt, world)
    {
      var m := LatestValid(job, world, false);
      if m == None {
        return None;
      }
      lost := Some(Max(0, failedAt - m.value.step));
    }
  }
}
