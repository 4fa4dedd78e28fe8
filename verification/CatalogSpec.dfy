/** The checkpoint catalog as a function on its two dictionaries: what is registered,
    what commits, what is selected. */
module CatalogSpec {
  import opened Prelude

  datatype Validation = HashVerified | RestoreVerified | Quarantined

  datatype Part = Part(key: string, sha256: string, size: nat)

  type Size = w: int | w >= 1 witness 1

  datatype Manifest = Manifest(id: string, job: string, attempt: string, step: nat, world: Size,
                               compatible: seq<int>, parts: seq<Part>, validation: Validation, created: int)

  /** Parts are registered under the attempt and step that uploaded them. */
  datatype Bucket = Bucket(job: string, attempt: string, step: nat)

  /** Hash and size, by part key. */
  type Uploads = map<string, (string, nat)>

  datatype State = State(manifests: seq<Manifest>, registered: map<Bucket, Uploads>)

  datatype Op =
    | Register(bucket: Bucket, part: Part)
    | Commit(bucket: Bucket, parts: seq<Part>, world: Size, sizes: seq<int>, id: string, now: int)
    | MarkRestoreVerified(id: string)
    | Quarantine(id: string)

  datatype Flaw = MissingPart(key: string) | HashMismatch(key: string) | ZeroParts

  const EMPTY := State([], map[])

  function UploadsIn(registered: map<Bucket, Uploads>, b: Bucket): Uploads {
    if b in registered then registered[b] else map[]
  }

  /** A part is backed by an upload with its key and its hash; sizes are not compared. */
  predicate Backs(have: Uploads, p: Part) {
    p.key in have && have[p.key].0 == p.sha256
  }

  predicate BacksAll(have: Uploads, parts: seq<Part>) {
    forall i :: 0 <= i < |parts| ==> Backs(have, parts[i])
  }

  predicate Commits(s: State, op: Op)
    requires op.Commit?
  {
    op.parts != [] && BacksAll(UploadsIn(s.registered, op.bucket), op.parts)
  }

  function Made(op: Op): Manifest
    requires op.Commit?
  {
    Manifest(op.id, op.bucket.job, op.bucket.attempt, op.bucket.step, op.world,
             if op.sizes == [] then [op.world] else op.sizes, op.parts, HashVerified, op.now)
  }

  function Named(id: string): Manifest -> bool {
    (m: Manifest) => m.id == id
  }

  function Find(ms: seq<Manifest>, id: string): Option<nat> {
    First(ms, Named(id))
  }

  /** Dictionary assignment: a known id keeps its place, a new one goes last. */
  function Store(ms: seq<Manifest>, m: Manifest): seq<Manifest> {
    match Find(ms, m.id)
    case None => ms + [m]
    case Some(i) => ms[i := m]
  }

  function Revalidate(ms: seq<Manifest>, id: string, v: Validation): (r: seq<Manifest>)
    ensures |r| == |ms|
  {
    match Find(ms, id)
    case None => ms
    case Some(i) => ms[i := ms[i].(validation := v)]
  }

  function Apply(s: State, op: Op): State {
    match op
    case Register(b, p) =>
      s.(registered := s.registered[b := UploadsIn(s.registered, b)[p.key := (p.sha256, p.size)]])
    case Commit(_, _, _, _, _, _) =>
      if Commits(s, op) then s.(manifests := Store(s.manifests, Made(op))) else s
    case MarkRestoreVerified(id) => s.(manifests := Revalidate(s.manifests, id, RestoreVerified))
    case Quarantine(id) => s.(manifests := Revalidate(s.manifests, id, Quarantined))
  }

  /** The catalog after a run from empty. */
  function Final(ops: seq<Op>): State {
    if ops == [] then EMPTY else Apply(Final(ops[..|ops| - 1]), ops[|ops| - 1])
  }

  // --------------------------------------------------------------- selection

  datatype Query = Query(job: string, world: Option<int>, restoredOnly: bool)

  predicate Candidate(m: Manifest, q: Query) {
    && m.job == q.job
    && (m.validation == RestoreVerified || (m.validation == HashVerified && !q.restoredOnly))
    && (q.world == None || q.world.value in m.compatible)
  }

  /** Newest step first, then restore-verified, then newest creation. */
  predicate Outranks(a: Manifest, b: Manifest) {
    a.step > b.step ||
    (a.step == b.step &&
     ((a.validation == RestoreVerified && b.validation != RestoreVerified) ||
      ((a.validation == RestoreVerified) == (b.validation == RestoreVerified) && a.created > b.created)))
  }

  function Latest(ms: seq<Manifest>, q: Query): Option<Manifest> {
    if ms == [] then None
    else
      var best, m := Latest(ms[..|ms| - 1], q), ms[|ms| - 1];
      if Candidate(m, q) && (best == None || Outranks(m, best.value)) then Some(m) else best
  }

  function LostWork(ms: seq<Manifest>, job: string, failedAt: int, world: Option<int>): Option<nat> {
    match Latest(ms, Query(job, world, false))
    case None => None
    case Some(m) => Some(Max(0, failedAt - m.step))
  }
}
