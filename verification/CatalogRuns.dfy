/** What every run of the catalog keeps: backed manifests, exact selection, and what
    quarantine does and does not guarantee. */
module CatalogRuns {
  import opened Prelude
  import opened CatalogSpec

  // --------------------------------------------------------------- selection

  ghost predicate IsNewest(ms: seq<Manifest>, q: Query, i: nat) {
    && i < |ms| && Candidate(ms[i], q)
    && (forall j :: 0 <= j < |ms| && Candidate(ms[j], q) ==> !Outranks(ms[j], ms[i]))
    && (forall j :: 0 <= j < i && Candidate(ms[j], q) ==> Outranks(ms[i], ms[j]))
  }

  lemma OutranksAll(m: Manifest, best: Manifest, other: Manifest)
    requires Outranks(m, best) && !Outranks(other, best)
    ensures Outranks(m, other) && !Outranks(other, m)
  {
  }

  /** The selected manifest is the first among the highest ranked of exactly the
      verified, compatible, unquarantined manifests of the job. */
  lemma {:induction false} LatestIsNewest(ms: seq<Manifest>, q: Query)
    ensures Latest(ms, q) == None <==> forall i :: 0 <= i < |ms| ==> !Candidate(ms[i], q)
    ensures Latest(ms, q).Some? ==> exists i: nat :: IsNewest(ms, q, i) && ms[i] == Latest(ms, q).value
  {
    hide Candidate, Outranks;
    if ms != [] {
      var n := |ms| - 1;
      LatestIsNewest(ms[..n], q);
      NewestStep(ms, q);
    }
  }

  lemma NewestStep(ms: seq<Manifest>, q: Query)
    requires ms != []
    requires var before := Latest(ms[..|ms| - 1], q);
      && (before == None <==> forall i :: 0 <= i < |ms| - 1 ==> !Candidate(ms[i], q))
      && (before.Some? ==> exists i: nat :: IsNewest(ms[..|ms| - 1], q, i) && ms[i] == before.value)
    ensures Latest(ms, q).Some? ==> exists i: nat :: IsNewest(ms, q, i) && ms[i] == Latest(ms, q).value
  {
    hide Candidate, Outranks;
    var n := |ms| - 1;
    var before := Latest(ms[..n], q);
    if before == None {
      NeverOutranksItself(ms[n]);
      if Candidate(ms[n], q) { assert IsNewest(ms, q, n); }
    } else {
      var i: nat :| IsNewest(ms[..n], q, i) && ms[i] == before.value;
      if Candidate(ms[n], q) && Outranks(ms[n], ms[i]) {
        LastIsNewest(ms, q, i);
      } else {
        EarlierIsNewest(ms, q, i);
      }
      hide IsNewest;
    }
  }

  lemma LastIsNewest(ms: seq<Manifest>, q: Query, i: nat)
    requires ms != [] && IsNewest(ms[..|ms| - 1], q, i) && Candidate(ms[|ms| - 1], q) && Outranks(ms[|ms| - 1], ms[i])
    ensures IsNewest(ms, q, |ms| - 1)
  {
    hide Candidate, Outranks;
    var n := |ms| - 1;
    NeverOutranksItself(ms[n]);
    forall j | 0 <= j < n && Candidate(ms[j], q) ensures Outranks(ms[n], ms[j]) && !Outranks(ms[j], ms[n]) {
      assert !Outranks(ms[..n][j], ms[..n][i]);
      OutranksAll(ms[n], ms[i], ms[j]);
    }
  }

  lemma EarlierIsNewest(ms: seq<Manifest>, q: Query, i: nat)
    requires ms != [] && IsNewest(ms[..|ms| - 1], q, i)
    requires !(Candidate(ms[|ms| - 1], q) && Outranks(ms[|ms| - 1], ms[i]))
    ensures IsNewest(ms, q, i)
  {
    hide Candidate, Outranks;
    assert forall j :: 0 <= j < |ms| - 1 ==> ms[..|ms| - 1][j] == ms[j];
  }

  lemma NeverOutranksItself(m: Manifest)
    ensures !Outranks(m, m)
  {
  }

  /** A job may restore from `m`: it is the job's own, not quarantined, has been restored
      once if that is asked for, and lists the world size if one is given. */
  predicate Restorable(m: Manifest, job: string, world: Option<int>, restoredOnly: bool) {
    && m.job == job
    && m.validation != Quarantined
    && (restoredOnly ==> m.validation == RestoreVerified)
    && (world.Some? ==> world.value in m.compatible)
  }

  /** `a` is as good a choice as `b`: a later step; at the same step one that has been
      restored; between equals in that too one created no earlier. */
  predicate AsGoodAs(a: Manifest, b: Manifest) {
    && b.step <= a.step
    && (b.step == a.step && b.validation == RestoreVerified ==> a.validation == RestoreVerified)
    && (b.step == a.step && (b.validation == RestoreVerified <==> a.validation == RestoreVerified) ==> b.created <= a.created)
  }

  /** `best` is stored, restorable, and as good as any restorable manifest stored; it is
      the first that is. */
  ghost predicate IsBestOf(ms: seq<Manifest>, best: Manifest, job: string, world: Option<int>, restoredOnly: bool) {
    exists i :: (0 <= i < |ms| && ms[i] == best && Restorable(best, job, world, restoredOnly)
      && (forall j :: 0 <= j < |ms| && Restorable(ms[j], job, world, restoredOnly) ==> AsGoodAs(best, ms[j]))
      && (forall j :: 0 <= j < i && Restorable(ms[j], job, world, restoredOnly) ==> !AsGoodAs(ms[j], best)))
  }

  lemma CandidatesAreRestorable(m: Manifest, job: string, world: Option<int>, restoredOnly: bool)
    ensures Candidate(m, Query(job, world, restoredOnly)) <==> Restorable(m, job, world, restoredOnly)
  {
  }

  lemma NotOutranked(a: Manifest, b: Manifest)
    ensures !Outranks(b, a) ==> AsGoodAs(a, b)
    ensures Outranks(a, b) ==> !AsGoodAs(b, a)
  {
  }

  /** Selection, on the manifests' own fields: there is one exactly when some stored
      manifest is restorable, and it is the best of those. */
  lemma SelectionIsBest(ms: seq<Manifest>, job: string, world: Option<int>, restoredOnly: bool)
    ensures Latest(ms, Query(job, world, restoredOnly)) == None <==>
              forall i :: 0 <= i < |ms| ==> !Restorable(ms[i], job, world, restoredOnly)
    ensures Latest(ms, Query(job, world, restoredOnly)).Some? ==>
              IsBestOf(ms, Latest(ms, Query(job, world, restoredOnly)).value, job, world, restoredOnly)
  {
    var q := Query(job, world, restoredOnly);
    LatestIsNewest(ms, q);
    forall i | 0 <= i < |ms| ensures Candidate(ms[i], q) <==> Restorable(ms[i], job, world, restoredOnly) {
      CandidatesAreRestorable(ms[i], job, world, restoredOnly);
    }
    if Latest(ms, q).Some? {
      var i: nat :| IsNewest(ms, q, i) && ms[i] == Latest(ms, q).value;
      hide Latest, Candidate, Restorable, Outranks, AsGoodAs;
      forall j | 0 <= j < |ms|
        ensures !Outranks(ms[j], ms[i]) ==> AsGoodAs(ms[i], ms[j])
        ensures Outranks(ms[i], ms[j]) ==> !AsGoodAs(ms[j], ms[i])
      {
        NotOutranked(ms[i], ms[j]);
      }
    }
  }

  /** The reported lost work is the least any selectable manifest would cost. */
  lemma LostWorkIsLeast(ms: seq<Manifest>, job: string, failedAt: int, world: Option<int>)
    ensures LostWork(ms, job, failedAt, world) == None <==>
              forall i :: 0 <= i < |ms| ==> !Candidate(ms[i], Query(job, world, false))
    ensures LostWork(ms, job, failedAt, world).Some? ==>
              && (forall i :: 0 <= i < |ms| && Candidate(ms[i], Query(job, world, false)) ==>
                    LostWork(ms, job, failedAt, world).value <= Max(0, failedAt - ms[i].step))
              && (exists i :: 0 <= i < |ms| && Candidate(ms[i], Query(job, world, false)) &&
                    LostWork(ms, job, failedAt, world).value == Max(0, failedAt - ms[i].step))
  {
    var q := Query(job, world, false);
    LatestIsNewest(ms, q);
    if Latest(ms, q).Some? {
      var i: nat :| IsNewest(ms, q, i) && ms[i] == Latest(ms, q).value;
      assert Candidate(ms[i], q);
    }
  }

  // --------------------------------------------------------- every run

  ghost predicate UniqueIds(ms: seq<Manifest>) {
    forall i, j :: 0 <= i < j < |ms| ==> ms[i].id != ms[j].id
  }

  /** Manifest ids are fresh: no two commits of the run draw the same one. */
  ghost predicate FreshIds(ops: seq<Op>) {
    forall i, j :: 0 <= i < j < |ops| && ops[i].Commit? && ops[j].Commit? ==> ops[i].id != ops[j].id
  }

  /** `m` is what operation `n` of the run committed, but for its validation, and every
      one of its parts was then registered with an equal hash. */
  ghost predicate CommittedBy(ops: seq<Op>, n: nat, m: Manifest) {
    && n < |ops| && ops[n].Commit? && Commits(Final(ops[..n]), ops[n])
    && Made(ops[n]).(validation := m.validation) == m
  }

  ghost predicate WasCommitted(ops: seq<Op>, m: Manifest) {
    exists n: nat :: CommittedBy(ops, n, m)
  }

  ghost predicate Backed(ops: seq<Op>, ms: seq<Manifest>) {
    forall i :: 0 <= i < |ms| ==> WasCommitted(ops, ms[i])
  }

  lemma CommittedEarlier(ops: seq<Op>, op: Op, n: nat, m: Manifest, v: Validation)
    requires CommittedBy(ops, n, m)
    ensures CommittedBy(ops + [op], n, m.(validation := v))
  {
    hide Final;
    assert (ops + [op])[..n] == ops[..n];
  }

  lemma ApplyUnique(s: State, op: Op)
    requires UniqueIds(s.manifests)
    ensures UniqueIds(Apply(s, op).manifests)
  {
  }

  /** Each manifest after an operation is the commit's own or one from before, at most
      revalidated. */
  lemma ApplyFrom(s: State, op: Op, i: nat)
    requires i < |Apply(s, op).manifests|
    ensures var m := Apply(s, op).manifests[i];
            || (op.Commit? && Commits(s, op) && m == Made(op))
            || (i < |s.manifests| && m == s.manifests[i].(validation := m.validation))
  {
  }

  lemma BackedStep(before: seq<Op>, op: Op)
    requires Backed(before, Final(before).manifests)
    ensures Backed(before + [op], Apply(Final(before), op).manifests)
  {
    hide Apply, Final, Commits;
    var ops, s := before + [op], Final(before);
    var ms := Apply(s, op).manifests;
    assert ops[..|before|] == before;
    forall i | 0 <= i < |ms| ensures WasCommitted(ops, ms[i]) {
      ApplyFrom(s, op, i);
      if i < |s.manifests| && ms[i] == s.manifests[i].(validation := ms[i].validation) {
        assert WasCommitted(before, s.manifests[i]);
        var n: nat :| CommittedBy(before, n, s.manifests[i]);
        CommittedEarlier(before, op, n, s.manifests[i], ms[i].validation);
      } else {
        assert CommittedBy(ops, |before|, ms[i]);
      }
    }
  }

  /** In every run each stored manifest was backed, when it was committed, by registered
      parts with equal hashes, and no two share an id. */
  lemma {:induction false} EveryManifestWasBacked(ops: seq<Op>)
    ensures Backed(ops, Final(ops).manifests) && UniqueIds(Final(ops).manifests)
  {
    hide Backed, Apply, UniqueIds;
    if ops == [] {
      NothingStored();
    } else {
      var n := |ops| - 1;
      assert ops[..n] + [ops[n]] == ops;
      EveryManifestWasBacked(ops[..n]);
      ApplyUnique(Final(ops[..n]), ops[n]);
      BackedStep(ops[..n], ops[n]);
    }
  }

  lemma NothingStored()
    ensures Backed([], Final([]).manifests) && UniqueIds(Final([]).manifests)
  {
  }

  // ------------------------------------------- what one operation stores

  /** The dictionary with this manifest under its id: in its predecessor's place if the id
      is known, else last. */
  ghost predicate StoredAs(ms: seq<Manifest>, m: Manifest, after: seq<Manifest>) {
    if exists i :: 0 <= i < |ms| && ms[i].id == m.id then
      |after| == |ms| && forall i :: 0 <= i < |ms| ==> after[i] == if ms[i].id == m.id then m else ms[i]
    else after == ms + [m]
  }

  /** Registering records the part's hash and size under its key in its own attempt and
      step, over any earlier one, and nothing anywhere else. */
  lemma RegisterRecords(s: State, bucket: Bucket, part: Part, other: Bucket)
    ensures var after := Apply(s, Register(bucket, part));
            && after.manifests == s.manifests
            && part.key in UploadsIn(after.registered, bucket) && UploadsIn(after.registered, bucket)[part.key] == (part.sha256, part.size)
            && (forall k :: k != part.key ==>
                  (k in UploadsIn(after.registered, bucket) <==> k in UploadsIn(s.registered, bucket))
                  && (k in UploadsIn(s.registered, bucket) ==> UploadsIn(after.registered, bucket)[k] == UploadsIn(s.registered, bucket)[k]))
            && (other != bucket ==> UploadsIn(after.registered, other) == UploadsIn(s.registered, other))
  {
  }

  /** A commit with parts, each registered for its attempt and step with an equal hash,
      stores a hash-verified manifest with the fields it was given, its own world size
      standing in for an empty list of sizes; any other stores nothing. */
  lemma CommitStores(s: State, bucket: Bucket, parts: seq<Part>, world: Size, sizes: seq<int>, id: string, now: int)
    requires UniqueIds(s.manifests)
    ensures var after := Apply(s, Commit(bucket, parts, world, sizes, id, now));
            var m := Manifest(id, bucket.job, bucket.attempt, bucket.step, world, if |sizes| == 0 then [world] else sizes, parts, HashVerified, now);
            var backed := bucket in s.registered && forall i :: 0 <= i < |parts| ==>
                            parts[i].key in s.registered[bucket] && s.registered[bucket][parts[i].key].0 == parts[i].sha256;
            && after.registered == s.registered
            && (|parts| > 0 && backed ==> StoredAs(s.manifests, m, after.manifests))
            && (|parts| == 0 || !backed ==> after.manifests == s.manifests)
  {
    var op := Commit(bucket, parts, world, sizes, id, now);
    if Commits(s, op) { StoreStores(s.manifests, Made(op)); }
    if parts != [] && bucket !in s.registered { assert !Backs(UploadsIn(s.registered, bucket), parts[0]); }
  }

  lemma StoreStores(ms: seq<Manifest>, m: Manifest)
    requires UniqueIds(ms)
    ensures StoredAs(ms, m, Store(ms, m))
  {
  }

  /** Marking restore-verified or quarantining changes that manifest's mark and nothing
      else; an unknown id changes nothing. */
  lemma MarksChangeOneMark(s: State, id: string)
    requires UniqueIds(s.manifests)
    ensures var after := Apply(s, MarkRestoreVerified(id));
            && after.registered == s.registered && |after.manifests| == |s.manifests|
            && forall i :: 0 <= i < |s.manifests| ==>
                 after.manifests[i] == if s.manifests[i].id == id then s.manifests[i].(validation := RestoreVerified) else s.manifests[i]
    ensures var after := Apply(s, Quarantine(id));
            && after.registered == s.registered && |after.manifests| == |s.manifests|
            && forall i :: 0 <= i < |s.manifests| ==>
                 after.manifests[i] == if s.manifests[i].id == id then s.manifests[i].(validation := Quarantined) else s.manifests[i]
  {
  }

  // -------------------------------------------------- the step never falls

  predicate Fresh(s: State, op: Op) {
    op.Commit? ==> forall i :: 0 <= i < |s.manifests| ==> s.manifests[i].id != op.id
  }

  /** With a fresh id, an operation never moves or drops a stored manifest. */
  lemma ApplyKeeps(s: State, op: Op, i: nat)
    requires UniqueIds(s.manifests) && Fresh(s, op) && i < |s.manifests|
    ensures i < |Apply(s, op).manifests|
    ensures Apply(s, op).manifests[i] == match op
      case Register(_, _) => s.manifests[i]
      case Commit(_, _, _, _, _, _) => s.manifests[i]
      case MarkRestoreVerified(id) => if s.manifests[i].id == id then s.manifests[i].(validation := RestoreVerified) else s.manifests[i]
      case Quarantine(id) => if s.manifests[i].id == id then s.manifests[i].(validation := Quarantined) else s.manifests[i]
  {
  }

  /** Only quarantining the very manifest that is selected can lower the selected step. */
  lemma OnlyItsQuarantineLowersIt(s: State, op: Op, q: Query)
    requires UniqueIds(s.manifests) && Fresh(s, op) && Latest(s.manifests, q).Some?
    requires op != Quarantine(Latest(s.manifests, q).value.id)
    ensures Latest(Apply(s, op).manifests, q).Some?
    ensures Latest(Apply(s, op).manifests, q).value.step >= Latest(s.manifests, q).value.step
  {
    hide Latest, Apply;
    LatestIsNewest(s.manifests, q);
    LatestIsNewest(Apply(s, op).manifests, q);
    var i: nat :| IsNewest(s.manifests, q, i) && s.manifests[i] == Latest(s.manifests, q).value;
    ApplyKeeps(s, op, i);
    assert Candidate(Apply(s, op).manifests[i], q);
  }

  lemma FreshAt(ops: seq<Op>, n: nat)
    requires FreshIds(ops) && n < |ops|
    ensures Fresh(Final(ops[..n]), ops[n])
  {
    hide Final;
    EveryManifestWasBacked(ops[..n]);
    if ops[n].Commit? {
      forall i | 0 <= i < |Final(ops[..n]).manifests| ensures Final(ops[..n]).manifests[i].id != ops[n].id {
        assert WasCommitted(ops[..n], Final(ops[..n]).manifests[i]);
        var k: nat :| CommittedBy(ops[..n], k, Final(ops[..n]).manifests[i]);
        assert ops[..n][k] == ops[k];
      }
    }
  }

  /** Between quarantines, the step recovery would resume from never falls. */
  lemma {:induction false} SelectionNeverFalls(ops: seq<Op>, n: nat, q: Query)
    requires FreshIds(ops) && n <= |ops|
    requires forall i :: n <= i < |ops| ==> !ops[i].Quarantine?
    requires Latest(Final(ops[..n]).manifests, q).Some?
    ensures Latest(Final(ops).manifests, q).Some?
    ensures Latest(Final(ops).manifests, q).value.step >= Latest(Final(ops[..n]).manifests, q).value.step
    decreases |ops|
  {
    hide Latest;
    if n == |ops| {
      assert ops[..n] == ops;
    } else {
      var m := |ops| - 1;
      assert ops[..m][..n] == ops[..n];
      assert Final(ops) == Apply(Final(ops[..m]), ops[m]);
      hide Final, Apply, FreshIds;
      assert FreshIds(ops[..m]);
      SelectionNeverFalls(ops[..m], n, q);
      EveryManifestWasBacked(ops[..m]);
      FreshAt(ops, m);
      OnlyItsQuarantineLowersIt(Final(ops[..m]), ops[m], q);
    }
  }

  // ------------------------------------------------------------- quarantine

  /** What a run leaves manifest `id` marked as, if it is stored at all. */
  function Mark(ops: seq<Op>, id: string): Option<Validation> {
    if ops == [] then None
    else
      var n := |ops| - 1;
      var earlier := Mark(ops[..n], id);
      match ops[n]
      case Register(_, _) => earlier
      case Commit(_, _, _, _, name, _) => if name == id && Commits(Final(ops[..n]), ops[n]) then Some(HashVerified) else earlier
      case MarkRestoreVerified(name) => if name == id && earlier.Some? then Some(RestoreVerified) else earlier
      case Quarantine(name) => if name == id && earlier.Some? then Some(Quarantined) else earlier
  }

  ghost predicate Marked(ms: seq<Manifest>, id: string, mark: Option<Validation>) {
    && (mark == None <==> forall i :: 0 <= i < |ms| ==> ms[i].id != id)
    && (forall i :: 0 <= i < |ms| && ms[i].id == id ==> mark == Some(ms[i].validation))
  }

  lemma ApplyMarks(s: State, op: Op, id: string, mark: Option<Validation>)
    requires UniqueIds(s.manifests) && Marked(s.manifests, id, mark)
    ensures op.Register? ==> Marked(Apply(s, op).manifests, id, mark)
    ensures op.Commit? && op.id == id && Commits(s, op) ==> Marked(Apply(s, op).manifests, id, Some(HashVerified))
    ensures op.Commit? && !(op.id == id && Commits(s, op)) ==> Marked(Apply(s, op).manifests, id, mark)
    ensures op.MarkRestoreVerified? ==> Marked(Apply(s, op).manifests, id, if op.id == id && mark.Some? then Some(RestoreVerified) else mark)
    ensures op.Quarantine? ==> Marked(Apply(s, op).manifests, id, if op.id == id && mark.Some? then Some(Quarantined) else mark)
  {
    hide Commits, Made;
    var ms := s.manifests;
    match op
    case Register(_, _) =>
    case Commit(_, _, _, _, name, _) =>
      if Commits(s, op) { StoreMarks(ms, Made(op), id, mark, op); }
    case MarkRestoreVerified(name) => RevalidateMarks(ms, name, RestoreVerified, id, mark);
    case Quarantine(name) => RevalidateMarks(ms, name, Quarantined, id, mark);
  }

  lemma StoreMarks(ms: seq<Manifest>, m: Manifest, id: string, mark: Option<Validation>, op: Op)
    requires UniqueIds(ms) && Marked(ms, id, mark) && op.Commit? && m == Made(op)
    ensures Marked(Store(ms, m), id, if op.id == id then Some(HashVerified) else mark)
  {
    var r := Store(ms, m);
    match Find(ms, m.id)
    case None =>
      assert forall i :: 0 <= i < |ms| ==> r[i] == ms[i];
      assert r[|ms|] == m;
    case Some(k) =>
      assert r[k] == m && forall i :: 0 <= i < |ms| && i != k ==> r[i] == ms[i];
  }

  lemma RevalidateMarks(ms: seq<Manifest>, name: string, v: Validation, id: string, mark: Option<Validation>)
    requires UniqueIds(ms) && Marked(ms, id, mark)
    ensures Marked(Revalidate(ms, name, v), id, if name == id && mark.Some? then Some(v) else mark)
  {
    var r := Revalidate(ms, name, v);
    match Find(ms, name)
    case None =>
    case Some(k) =>
      assert r[k] == ms[k].(validation := v) && forall i :: 0 <= i < |ms| && i != k ==> r[i] == ms[i];
  }

  lemma {:induction false} RunMarks(ops: seq<Op>, id: string)
    ensures Marked(Final(ops).manifests, id, Mark(ops, id))
  {
    if ops != [] {
      var n := |ops| - 1;
      RunMarks(ops[..n], id);
      EveryManifestWasBacked(ops[..n]);
      ApplyMarks(Final(ops[..n]), ops[n], id, Mark(ops[..n], id));
      hide Marked, UniqueIds, Apply, Commits;
    }
  }

  /** The run quarantines a stored `id` at operation `n` and never marks it restored
      after that. */
  ghost predicate LastQuarantinedAt(ops: seq<Op>, id: string, n: nat) {
    && n < |ops| && ops[n] == Quarantine(id) && Mark(ops[..n], id).Some?
    && forall k :: n < k < |ops| ==> ops[k] != MarkRestoreVerified(id)
  }

  lemma {:induction false} StaysKnown(ops: seq<Op>, id: string, n: nat)
    requires n <= |ops| && Mark(ops[..n], id).Some?
    ensures Mark(ops, id).Some?
    decreases |ops|
  {
    if n == |ops| {
      assert ops[..n] == ops;
    } else {
      assert ops[..|ops| - 1][..n] == ops[..n];
      StaysKnown(ops[..|ops| - 1], id, n);
    }
  }

  lemma KnownIsNotFresh(ops: seq<Op>, id: string, n: nat)
    requires FreshIds(ops) && n < |ops| && Mark(ops[..n], id).Some? && ops[n].Commit?
    ensures ops[n].id != id
  {
    hide Final, Mark;
    RunMarks(ops[..n], id);
    FreshAt(ops, n);
  }

  /** A manifest ends a run quarantined exactly when it was quarantined while stored and
      not marked restore-verified after that: nothing else lifts a quarantine, and that
      does. */
  lemma {:induction false} QuarantineHoldsUntilRestored(ops: seq<Op>, id: string)
    requires FreshIds(ops)
    ensures Mark(ops, id) == Some(Quarantined) <==> exists n: nat :: LastQuarantinedAt(ops, id, n)
  {
    if ops != [] {
      var m := |ops| - 1;
      var before := ops[..m];
      QuarantineHoldsUntilRestored(before, id);
      if Mark(ops, id) == Some(Quarantined) {
        if ops[m] == Quarantine(id) {
          assert LastQuarantinedAt(ops, id, m);
        } else {
          var n: nat :| LastQuarantinedAt(before, id, n);
          assert before[..n] == ops[..n];
          assert LastQuarantinedAt(ops, id, n);
        }
      }
      forall n: nat | LastQuarantinedAt(ops, id, n) ensures Mark(ops, id) == Some(Quarantined) {
        if n < m {
          assert before[..n] == ops[..n];
          assert LastQuarantinedAt(before, id, n);
          StaysKnown(before, id, n);
          if ops[m].Commit? { KnownIsNotFresh(ops, id, m); }
        }
      }
    }
  }

  /** While it is quarantined, no query selects a manifest. */
  lemma QuarantinedIsNeverSelected(ops: seq<Op>, id: string, q: Query)
    requires Mark(ops, id) == Some(Quarantined)
    ensures Latest(Final(ops).manifests, q).Some? ==> Latest(Final(ops).manifests, q).value.id != id
  {
    hide Final, Mark, Latest;
    RunMarks(ops, id);
    LatestIsNewest(Final(ops).manifests, q);
  }

  /** Marking a stored manifest restore-verified makes it a candidate for every query of
      its job it is compatible with, however it was marked before, quarantine included:
      the selection is then at its step or later. */
  lemma MarkingRestoresTheCandidate(ops: seq<Op>, m: Manifest, q: Query)
    requires m in Final(ops).manifests && m.job == q.job && (q.world == None || q.world.value in m.compatible)
    ensures var after := Final(ops + [MarkRestoreVerified(m.id)]).manifests;
            && m.(validation := RestoreVerified) in after && Candidate(m.(validation := RestoreVerified), q)
            && Latest(after, q).Some? && Latest(after, q).value.step >= m.step
  {
    var s, op := Final(ops), MarkRestoreVerified(m.id);
    assert (ops + [op])[..|ops|] == ops;
    var after := Final(ops + [op]).manifests;
    assert after == Apply(s, op).manifests;
    EveryManifestWasBacked(ops);
    var i :| 0 <= i < |s.manifests| && s.manifests[i] == m;
    ApplyKeeps(s, op, i);
    hide Latest, Apply, Final;
    LatestIsNewest(after, q);
    assert after[i] == m.(validation := RestoreVerified);
  }

  /** A quarantined manifest can be selected again: marking it restore-verified has no
      guard against its quarantine. */
  lemma QuarantineCanBeLifted()
    ensures exists ops, q, id ::
      && FreshIds(ops + [MarkRestoreVerified(id)]) && Mark(ops, id) == Some(Quarantined)
      && Selects(ops + [MarkRestoreVerified(id)], q, id)
  {
    var b, p, q := Bucket("job", "a1", 10), Part("w", "h", 1), Query("job", None, false);
    var c := Commit(b, [p], 1, [], "ck-1", 0);
    var ops := [Register(b, p), c, Quarantine("ck-1")];
    OneCommitted(b, p, c);
    assert ops == [Register(b, p), c] + [Quarantine("ck-1")];
    Judged([Register(b, p), c], Made(c), Quarantine("ck-1"));
    var bad := Made(c).(validation := Quarantined);
    Judged(ops, bad, MarkRestoreVerified("ck-1"));
    OneManifest(Final(ops + [MarkRestoreVerified("ck-1")]).manifests, bad.(validation := RestoreVerified), q);
    hide Final, Mark, Latest;
    assert Selects(ops + [MarkRestoreVerified("ck-1")], q, "ck-1");
  }

  ghost predicate Selects(ops: seq<Op>, q: Query, id: string) {
    Latest(Final(ops).manifests, q).Some? && Latest(Final(ops).manifests, q).value.id == id
  }

  /** Judging the one stored manifest changes its validation and nothing else. */
  lemma Judged(ops: seq<Op>, m: Manifest, op: Op)
    requires Final(ops).manifests == [m] && Mark(ops, m.id).Some?
    requires op == Quarantine(m.id) || op == MarkRestoreVerified(m.id)
    ensures var v := if op.Quarantine? then Quarantined else RestoreVerified;
            Final(ops + [op]).manifests == [m.(validation := v)] && Mark(ops + [op], m.id) == Some(v)
  {
    assert (ops + [op])[..|ops|] == ops;
    FirstIs([m], Named(m.id), 0);
  }

  lemma OneManifest(ms: seq<Manifest>, m: Manifest, q: Query)
    requires ms == [m] && Candidate(m, q)
    ensures Latest(ms, q) == Some(m)
  {
    assert ms[..0] == [];
  }

  lemma OneCommitted(b: Bucket, p: Part, c: Op)
    requires c == Commit(b, [p], 1, [], "ck-1", 0)
    ensures Final([Register(b, p), c]).manifests == [Made(c)]
    ensures Mark([Register(b, p), c], "ck-1") == Some(HashVerified)
  {
    var ops := [Register(b, p), c];
    assert ops[..1] == [Register(b, p)] && ops[..1][..0] == [];
    var s := Final(ops[..1]);
    assert Final([]) == EMPTY;
    assert s == Apply(EMPTY, Register(b, p)) by { assert ops[..1][|ops[..1]| - 1] == Register(b, p); }
    assert UploadsIn(s.registered, b) == map[p.key := (p.sha256, p.size)];
    assert Commits(s, c);
  }

  // ------------------------------------------- expected against registered

  /** Each expected part as key, hash and size. */
  function Expected(parts: seq<Part>): (r: set<(string, string, nat)>)
    ensures forall t :: t in r <==> exists i :: 0 <= i < |parts| && t == (parts[i].key, parts[i].sha256, parts[i].size)
  {
    set i | 0 <= i < |parts| :: (parts[i].key, parts[i].sha256, parts[i].size)
  }

  function Uploaded(have: Uploads): (r: set<(string, string, nat)>)
    ensures forall t :: t in r <==> t.0 in have && t == (t.0, have[t.0].0, have[t.0].1)
  {
    set k | k in have :: (k, have[k].0, have[k].1)
  }

  /** Every uploaded key is expected, and every expected part that has been uploaded was
      uploaded with its size. */
  predicate SameNamesAndSizes(have: Uploads, parts: seq<Part>) {
    && (forall k :: k in have ==> exists i :: 0 <= i < |parts| && parts[i].key == k)
    && (forall i :: 0 <= i < |parts| && parts[i].key in have ==> have[parts[i].key].1 == parts[i].size)
  }

  /** The expected parts of a commit that goes through are exactly the registered ones
      when, and only when, no further key was registered and no size differs: the hashes
      are all that the commit itself compares. */
  lemma CommitIsExactWhen(s: State, op: Op)
    requires op.Commit? && Commits(s, op)
    ensures Expected(op.parts) == Uploaded(UploadsIn(s.registered, op.bucket))
            <==> SameNamesAndSizes(UploadsIn(s.registered, op.bucket), op.parts)
  {
    var have := UploadsIn(s.registered, op.bucket);
    var want, got := Expected(op.parts), Uploaded(have);
    if want == got {
      forall k | k in have ensures exists i :: 0 <= i < |op.parts| && op.parts[i].key == k {
        assert (k, have[k].0, have[k].1) in want;
      }
      forall i | 0 <= i < |op.parts| ensures have[op.parts[i].key].1 == op.parts[i].size {
        assert (op.parts[i].key, op.parts[i].sha256, op.parts[i].size) in got;
      }
    }
    if SameNamesAndSizes(have, op.parts) {
      forall t ensures t in want <==> t in got {
        if t in want {
          var i :| 0 <= i < |op.parts| && t == (op.parts[i].key, op.parts[i].sha256, op.parts[i].size);
          assert Backs(have, op.parts[i]);
        }
        if t in got {
          var i :| 0 <= i < |op.parts| && op.parts[i].key == t.0;
          assert Backs(have, op.parts[i]);
        }
      }
    }
  }

  /** A commit goes through beside a registered part it does not expect, and with a size
      other than the one registered. */
  lemma CommitsNeedNotBeExact()
    ensures var b := Bucket("job", "a1", 10);
            var s := State([], map[b := map["w" := ("h", 1), "x" := ("g", 1)]]);
            var extra := Commit(b, [Part("w", "h", 1)], 1, [], "ck-1", 0);
            && Commits(s, extra) && Expected(extra.parts) != Uploaded(UploadsIn(s.registered, b))
    ensures var b := Bucket("job", "a1", 10);
            var s := State([], map[b := map["w" := ("h", 1)]]);
            var resized := Commit(b, [Part("w", "h", 2)], 1, [], "ck-1", 0);
            && Commits(s, resized) && Expected(resized.parts) != Uploaded(UploadsIn(s.registered, b))
  {
    var b := Bucket("job", "a1", 10);
    var one, two := map["w" := ("h", 1)], map["w" := ("h", 1), "x" := ("g", 1)];
    assert ("x", "g", 1) in Uploaded(two) && ("w", "h", 1) in Uploaded(one);
    assert ("x", "g", 1) !in Expected([Part("w", "h", 1)]) && ("w", "h", 1) !in Expected([Part("w", "h", 2)]);
  }
}
