/** Checkpoints on a local disk: part files first, manifest last, verified on read.
    The directories are those the step pattern matches; a missing root is no directories. */
module LocalCheckpoints {
  import opened Names
  import opened Prelude

  datatype Entry = File(bytes: Bytes) | Folder

  datatype Part = Part(key: string, sha256: Digest, size: nat)

  datatype Manifest = Manifest(step: nat, parts: seq<Part>)

  /** `manifest.json`: a text that parses, or one cut short or otherwise unreadable. */
  datatype ManifestFile = Whole(manifest: Manifest) | Torn

  const MANIFEST_NAME := "manifest.json"

  /** A step directory. The file called manifest.json is kept apart from the others. */
  datatype Dir = Dir(entries: map<string, Entry>, manifest: Option<ManifestFile>)

  type Dirs = map<string, Dir>

  datatype Error = NoPartFiles

  // -------------------------------------------------------- write_manifest

  predicate IsFile(entries: map<string, Entry>, name: string) {
    name in entries && entries[name].File?
  }

  /** The manifest itself is never one of the parts. */
  predicate IsPart(entries: map<string, Entry>, name: string) {
    IsFile(entries, name) && name != MANIFEST_NAME
  }

  predicate HasParts(entries: map<string, Entry>) {
    exists name :: name in entries && IsPart(entries, name)
  }

  function PartOf(entries: map<string, Entry>, name: string): Part
    requires IsFile(entries, name)
  {
    Part(name, Digest(entries[name].bytes), |entries[name].bytes|)
  }

  /** The parts among the listed entries, in the order listed. */
  function Scan(entries: map<string, Entry>, names: seq<string>): seq<Part> {
    if names == [] then []
    else
      var n := |names| - 1;
      Scan(entries, names[..n]) + if IsPart(entries, names[n]) then [PartOf(entries, names[n])] else []
  }

  /** A listing of a directory: every entry once, in whatever order. */
  ghost predicate Lists(names: seq<string>, entries: map<string, Entry>) {
    Distinct(names) && forall name :: name in names <==> name in entries
  }

  lemma {:induction false} ScanMeans(entries: map<string, Entry>, names: seq<string>)
    ensures forall i :: 0 <= i < |Scan(entries, names)| ==>
      Scan(entries, names)[i].key in names && IsPart(entries, Scan(entries, names)[i].key) && Scan(entries, names)[i] == PartOf(entries, Scan(entries, names)[i].key)
    ensures forall name :: name in names && IsPart(entries, name) ==> PartOf(entries, name) in Scan(entries, names)
  {
    hide IsPart, PartOf;
    if names != [] {
      var n := |names| - 1;
      ScanMeans(entries, names[..n]);
      assert names == names[..n] + [names[n]];
      assert IsPart(entries, names[n]) ==> PartOf(entries, names[n]).key == names[n] by { PartKey(entries, names[n]); }
    }
  }

  lemma PartKey(entries: map<string, Entry>, name: string)
    ensures IsPart(entries, name) ==> IsFile(entries, name) && PartOf(entries, name).key == name
  {
  }

  ghost predicate KeysAscend(parts: seq<Part>) {
    forall i, j :: 0 <= i < j < |parts| ==> StringLess(parts[i].key, parts[j].key)
  }

  lemma {:induction false} ScanKeepsOrder(entries: map<string, Entry>, names: seq<string>)
    requires Ascending(names)
    ensures KeysAscend(Scan(entries, names))
  {
    hide StringLess, IsPart, PartOf;
    if names != [] {
      var n := |names| - 1;
      ScanKeepsOrder(entries, names[..n]);
      ScanMeans(entries, names[..n]);
      PartKey(entries, names[n]);
      var parts := Scan(entries, names[..n]);
      forall i | 0 <= i < |parts| ensures StringLess(parts[i].key, names[n]) {
        assert parts[i].key in names[..n];
      }
    }
  }

  /** The parts a manifest names: the directory's files but the manifest, in the order of
      their names. */
  function Parts(entries: map<string, Entry>, names: seq<string>): seq<Part> {
    Scan(entries, SortNames(names))
  }

  /** A manifest names each file but the manifest itself once, with its hash and size,
      in ascending order, and does not depend on how the directory was listed. */
  lemma PartsAreTheFiles(entries: map<string, Entry>, names: seq<string>, others: seq<string>)
    requires Lists(names, entries) && Lists(others, entries)
    ensures Parts(entries, others) == Parts(entries, names) && KeysAscend(Parts(entries, names))
    ensures forall part :: part in Parts(entries, names) <==> IsPart(entries, part.key) && part == PartOf(entries, part.key)
  {
    SortNamesSorts(names);
    SortNamesSorts(others);
    AscendingIsUnique(SortNames(names), SortNames(others));
    ScanKeepsOrder(entries, SortNames(names));
    ScanMeans(entries, SortNames(names));
    hide Scan, SortNames, KeysAscend, Ascending;
    forall part ensures part in Parts(entries, names) <==> IsPart(entries, part.key) && part == PartOf(entries, part.key) {
      if part in Parts(entries, names) {
        var i :| 0 <= i < |Parts(entries, names)| && Parts(entries, names)[i] == part;
      }
    }
  }

  lemma SomePart(entries: map<string, Entry>, names: seq<string>)
    requires Lists(names, entries)
    ensures Parts(entries, names) != [] <==> HasParts(entries)
  {
    PartsAreTheFiles(entries, names, names);
    var parts := Parts(entries, names);
    hide Parts, Lists, KeysAscend;
    if parts != [] {
      assert parts[0] in parts;
    }
    if name :| name in entries && IsPart(entries, name) {
      assert PartOf(entries, name) in parts;
    }
  }

  // --------------------------------------------------------------- reading

  /** Every part is there and hashes to what was recorded. */
  predicate Verifies(m: Manifest, entries: map<string, Entry>) {
    forall i :: 0 <= i < |m.parts| ==>
      IsFile(entries, m.parts[i].key) && Digest(entries[m.parts[i].key].bytes) == m.parts[i].sha256
  }

  predicate Valid(dirs: Dirs, name: string) {
    && name in dirs && dirs[name].manifest.Some? && dirs[name].manifest.value.Whole?
    && Verifies(dirs[name].manifest.value.manifest, dirs[name].entries)
  }

  function ManifestIn(dirs: Dirs, name: string): Manifest
    requires Valid(dirs, name)
  {
    dirs[name].manifest.value.manifest
  }

  function Newest(dirs: Dirs, listing: seq<string>): Option<Manifest> {
    if listing == [] then None
    else
      var n := |listing| - 1;
      var best, name := Newest(dirs, listing[..n]), listing[n];
      if Valid(dirs, name) && (best == None || ManifestIn(dirs, name).step > best.value.step)
      then Some(ManifestIn(dirs, name)) else best
  }

  /** Nothing valid listed before this one has a step as high. */
  ghost predicate FirstOfItsStep(dirs: Dirs, listing: seq<string>, i: nat) {
    && i < |listing| && Valid(dirs, listing[i])
    && forall j :: 0 <= j < i && Valid(dirs, listing[j]) ==> ManifestIn(dirs, listing[j]).step < ManifestIn(dirs, listing[i]).step
  }

  /** The result is a valid listed manifest no valid listed one is newer than, and there
      is none only when no listed one is valid. */
  lemma {:induction false} NewestIsHighest(dirs: Dirs, listing: seq<string>)
    ensures Newest(dirs, listing) == None <==> forall i :: 0 <= i < |listing| ==> !Valid(dirs, listing[i])
    ensures Newest(dirs, listing).Some? ==> exists i :: 0 <= i < |listing| && Valid(dirs, listing[i]) && ManifestIn(dirs, listing[i]) == Newest(dirs, listing).value
    ensures forall i :: 0 <= i < |listing| && Valid(dirs, listing[i]) ==> ManifestIn(dirs, listing[i]).step <= Newest(dirs, listing).value.step
    ensures Newest(dirs, listing).Some? ==> exists i: nat :: FirstOfItsStep(dirs, listing, i) && ManifestIn(dirs, listing[i]) == Newest(dirs, listing).value
  {
    hide Valid;
    if listing != [] {
      var n := |listing| - 1;
      NewestIsHighest(dirs, listing[..n]);
      assert forall i :: 0 <= i < n ==> listing[..n][i] == listing[i];
      var before := Newest(dirs, listing[..n]);
      if Valid(dirs, listing[n]) && (before == None || ManifestIn(dirs, listing[n]).step > before.value.step) {
        assert FirstOfItsStep(dirs, listing, n);
      } else if before.Some? {
        var i: nat :| FirstOfItsStep(dirs, listing[..n], i) && ManifestIn(dirs, listing[..n][i]) == before.value;
        assert FirstOfItsStep(dirs, listing, i);
      }
    }
  }

  /** A listing of the root finds every directory that has a manifest file. */
  ghost predicate Finds(listing: seq<string>, dirs: Dirs) {
    forall name :: name in listing <==> name in dirs && dirs[name].manifest.Some?
  }

  /** The step found does not depend on the order of the listing. */
  lemma ListingOrderDoesNotMatter(dirs: Dirs, one: seq<string>, other: seq<string>)
    requires Finds(one, dirs) && Finds(other, dirs)
    ensures Newest(dirs, one) == None <==> Newest(dirs, other) == None
    ensures Newest(dirs, one).Some? ==> Newest(dirs, one).value.step == Newest(dirs, other).value.step
  {
    NewestIsHighest(dirs, one);
    NewestIsHighest(dirs, other);
    forall i | 0 <= i < |one| && Valid(dirs, one[i]) ensures exists j :: 0 <= j < |other| && other[j] == one[i] {
      assert one[i] in one && one[i] in other;
    }
    forall i | 0 <= i < |other| && Valid(dirs, other[i]) ensures exists j :: 0 <= j < |one| && one[j] == other[i] {
      assert other[i] in other && other[i] in one;
    }
    hide Valid, Finds;
  }

  // ----------------------------------------------------------------- saves

  /** One save: chunks written to files in order, each file opened anew by its first
      chunk, then the manifest in two writes, the first of which leaves it torn. Only
      the first `cut` writes happen, making the directory being one. `names` is how the
      directory lists when it is hashed. What a chunk puts under the manifest's own name
      is taken not to parse. */
  datatype Save = Save(dir: string, step: nat, chunks: seq<(string, Bytes)>, names: seq<string>, cut: nat)

  const EMPTY_DIR := Dir(map[], None)

  /** What a save has written to each of its files. */
  function Contents(chunks: seq<(string, Bytes)>): map<string, Bytes> {
    if chunks == [] then map[]
    else
      var before, name := Contents(chunks[..|chunks| - 1]), chunks[|chunks| - 1].0;
      before[name := (if name in before then before[name] else []) + chunks[|chunks| - 1].1]
  }

  function Files(contents: map<string, Bytes>): map<string, Entry> {
    map name | name in contents && name != MANIFEST_NAME :: File(contents[name])
  }

  /** The directory `base` once these chunks are written: other files stay. */
  function Written(base: Dir, chunks: seq<(string, Bytes)>): Dir {
    Dir(base.entries + Files(Contents(chunks)), if MANIFEST_NAME in Contents(chunks) then Some(Torn) else base.manifest)
  }

  /** The directory a save finds. */
  function Base(dirs: Dirs, name: string): Dir {
    if name in dirs then dirs[name] else EMPTY_DIR
  }

  predicate Completes(base: Dir, s: Save) {
    s.cut >= |s.chunks| + 3 && HasParts(Written(base, s.chunks).entries)
  }

  function SavedManifest(base: Dir, s: Save): Manifest {
    Manifest(s.step, Parts(Written(base, s.chunks).entries, s.names))
  }

  /** The directory a save cut short leaves. */
  function Left(base: Dir, s: Save): Dir
    requires s.cut > 0
  {
    var d := Written(base, s.chunks[..Min(s.cut - 1, |s.chunks|)]);
    if s.cut < |s.chunks| + 2 || !HasParts(d.entries) then d
    else if s.cut == |s.chunks| + 2 then d.(manifest := Some(Torn))
    else d.(manifest := Some(Whole(SavedManifest(base, s))))
  }

  function AfterOne(dirs: Dirs, s: Save): Dirs {
    if s.cut == 0 then dirs else dirs[s.dir := Left(Base(dirs, s.dir), s)]
  }

  function After(saves: seq<Save>): Dirs {
    if saves == [] then map[] else AfterOne(After(saves[..|saves| - 1]), saves[|saves| - 1])
  }

  /** The directory save `k` of a run finds. */
  function Found(saves: seq<Save>, k: nat): Dir
    requires k < |saves|
  {
    Base(After(saves[..k]), saves[k].dir)
  }

  predicate Completed(saves: seq<Save>, k: nat)
    requires k < |saves|
  {
    Completes(Found(saves, k), saves[k])
  }

  /** What save `k` hashes, and the manifest it writes if it completes. */
  function Hashed(saves: seq<Save>, k: nat): map<string, Entry>
    requires k < |saves|
  {
    Written(Found(saves, k), saves[k].chunks).entries
  }

  function ManifestOf(saves: seq<Save>, k: nat): Manifest
    requires k < |saves|
  {
    SavedManifest(Found(saves, k), saves[k])
  }

  /** Each save lists its directory rightly when it hashes it. */
  ghost predicate ListedRightly(saves: seq<Save>) {
    forall k :: 0 <= k < |saves| ==> Lists(saves[k].names, Hashed(saves, k))
  }

  /** The save cut short leaves no readable manifest: it has written one of its own in
      part, or put something else under that name. */
  predicate Tears(base: Dir, s: Save)
    requires s.cut > 0
  {
    || (s.cut == |s.chunks| + 2 && HasParts(Written(base, s.chunks).entries))
    || MANIFEST_NAME in Contents(s.chunks[..Min(s.cut - 1, |s.chunks|)])
  }

  /** The save whose manifest a directory holds. */
  function Standing(saves: seq<Save>, dir: string): Option<nat> {
    if saves == [] then None
    else
      var n := |saves| - 1;
      if saves[n].dir != dir || saves[n].cut == 0 then Standing(saves[..n], dir)
      else if Completed(saves, n) then Some(n)
      else if Tears(Found(saves, n), saves[n]) then None
      else Standing(saves[..n], dir)
  }

  /** Save `k`'s manifest is the one its directory holds. */
  predicate Stands(saves: seq<Save>, k: nat) {
    k < |saves| && Standing(saves, saves[k].dir) == Some(k)
  }

  predicate Holds(dirs: Dirs, dir: string, m: Manifest) {
    dir in dirs && dirs[dir].manifest == Some(Whole(m))
  }

  lemma LeftHolds(base: Dir, s: Save)
    requires s.cut > 0
    ensures Completes(base, s) ==> Left(base, s).manifest == Some(Whole(SavedManifest(base, s)))
    ensures !Completes(base, s) && Tears(base, s) ==> Left(base, s).manifest == Some(Torn)
    ensures !Completes(base, s) && !Tears(base, s) ==> Left(base, s).manifest == base.manifest
  {
    assert s.chunks[..|s.chunks|] == s.chunks;
    hide HasParts, Parts, Contents;
  }

  lemma PrefixSaves(saves: seq<Save>, n: nat, k: nat)
    requires k < n <= |saves|
    ensures Found(saves[..n], k) == Found(saves, k) && ManifestOf(saves[..n], k) == ManifestOf(saves, k)
    ensures Completed(saves[..n], k) == Completed(saves, k) && Hashed(saves[..n], k) == Hashed(saves, k)
  {
    assert saves[..n][..k] == saves[..k];
  }

  lemma {:induction false} StandingIsCompleted(saves: seq<Save>, dir: string)
    ensures var k := Standing(saves, dir); k.Some? ==> k.value < |saves| && saves[k.value].dir == dir && Completed(saves, k.value)
  {
    hide Found, Completes, Tears;
    if saves != [] {
      var n := |saves| - 1;
      StandingIsCompleted(saves[..n], dir);
      var k := Standing(saves[..n], dir);
      if k.Some? { PrefixSaves(saves, n, k.value); }
    }
  }

  lemma OneSaveHolds(dirs: Dirs, s: Save, dir: string, m: Manifest)
    ensures Holds(AfterOne(dirs, s), dir, m) <==>
            if s.dir != dir || s.cut == 0 then Holds(dirs, dir, m)
            else if Completes(Base(dirs, dir), s) then m == SavedManifest(Base(dirs, dir), s)
            else !Tears(Base(dirs, dir), s) && Holds(dirs, dir, m)
  {
    if s.cut > 0 { LeftHolds(Base(dirs, s.dir), s); }
    hide Completes, Tears, Left, SavedManifest;
  }

  /** A directory holds a readable manifest exactly when some save's stands there, and it
      is that save's. */
  lemma {:induction false} HeldManifestStands(saves: seq<Save>, dir: string, m: Manifest)
    ensures Holds(After(saves), dir, m) <==> Standing(saves, dir).Some? && Standing(saves, dir).value < |saves|
                                             && ManifestOf(saves, Standing(saves, dir).value) == m
  {
    if saves == [] {
      assert After(saves) == map[];
    } else {
      var n := |saves| - 1;
      HeldManifestStands(saves[..n], dir, m);
      StandingIsCompleted(saves[..n], dir);
      var k := Standing(saves[..n], dir);
      if k.Some? { PrefixSaves(saves, n, k.value); }
      OneSaveHolds(After(saves[..n]), saves[n], dir, m);
      assert After(saves) == AfterOne(After(saves[..n]), saves[n]);
      hide Completes, Tears, Left, SavedManifest, AfterOne, Holds, After, Base;
    }
  }

  // ------------------------------------------------- crash and corruption

  /** What any later damage leaves of a disk: files and directories may change in any
      way, a manifest may vanish or become unreadable, but none is forged. */
  ghost predicate Damaged(dirs: Dirs, now: Dirs) {
    forall name :: name in now && now[name].manifest.Some? && now[name].manifest.value.Whole? ==>
      name in dirs && dirs[name].manifest == now[name].manifest
  }

  /** Save `k`'s manifest is still there and every part still holds the bytes it hashed. */
  ghost predicate Intact(saves: seq<Save>, k: nat, now: Dirs)
    requires k < |saves|
  {
    && Holds(now, saves[k].dir, ManifestOf(saves, k))
    && forall name :: IsPart(Hashed(saves, k), name) ==>
         IsFile(now[saves[k].dir].entries, name) && now[saves[k].dir].entries[name].bytes == Hashed(saves, k)[name].bytes
  }

  /** Parts verify exactly when each still holds the bytes it had when it was hashed. */
  lemma PartsVerify(step: nat, saved: map<string, Entry>, names: seq<string>, entries: map<string, Entry>)
    requires Lists(names, saved)
    ensures Verifies(Manifest(step, Parts(saved, names)), entries) <==>
            forall name :: IsPart(saved, name) ==> IsFile(entries, name) && entries[name].bytes == saved[name].bytes
  {
    PartsAreTheFiles(saved, names, names);
    var m := Manifest(step, Parts(saved, names));
    hide Parts, Lists, KeysAscend;
    if Verifies(m, entries) {
      forall name | IsPart(saved, name) ensures IsFile(entries, name) && entries[name].bytes == saved[name].bytes {
        assert PartOf(saved, name) in m.parts;
        var i :| 0 <= i < |m.parts| && m.parts[i] == PartOf(saved, name);
      }
    }
    if forall name :: IsPart(saved, name) ==> IsFile(entries, name) && entries[name].bytes == saved[name].bytes {
      forall i | 0 <= i < |m.parts| ensures IsFile(entries, m.parts[i].key) && Digest(entries[m.parts[i].key].bytes) == m.parts[i].sha256 {
        assert m.parts[i] in m.parts;
      }
    }
  }

  /** A directory that holds a save's manifest is restorable exactly when that save is
      intact. */
  lemma ValidMeansIntact(saves: seq<Save>, k: nat, now: Dirs)
    requires k < |saves| && Lists(saves[k].names, Hashed(saves, k)) && Holds(now, saves[k].dir, ManifestOf(saves, k))
    ensures Valid(now, saves[k].dir) <==> Intact(saves, k, now)
  {
    PartsVerify(saves[k].step, Hashed(saves, k), saves[k].names, now[saves[k].dir].entries);
    hide Hashed, Found, Parts, Verifies, IsPart;
  }

  // ------------------------------------------------------------- re-saving

  lemma WrittenReads(base: Dir, chunks: seq<(string, Bytes)>, name: string)
    requires name != MANIFEST_NAME
    ensures var d := Written(base, chunks);
            && (name in Contents(chunks) ==> IsFile(d.entries, name) && d.entries[name].bytes == Contents(chunks)[name])
            && (name !in Contents(chunks) ==> (name in d.entries <==> name in base.entries) && (name in base.entries ==> d.entries[name] == base.entries[name]))
  {
  }

  /** A completed save into a directory that already holds one leaves it restorable with
      the new manifest, which names the files of this save with the bytes they now hold
      and, again, every file left over from before. */
  lemma ResaveRelistsTheStale(base: Dir, s: Save, now: Dirs)
    requires Completes(base, s) && Lists(s.names, Written(base, s.chunks).entries)
    requires s.dir in now && now[s.dir] == Left(base, s)
    ensures Valid(now, s.dir) && ManifestIn(now, s.dir) == SavedManifest(base, s)
    ensures forall name :: name in Contents(s.chunks) && name != MANIFEST_NAME ==>
              Part(name, Digest(Contents(s.chunks)[name]), |Contents(s.chunks)[name]|) in SavedManifest(base, s).parts
    ensures forall name :: IsPart(base.entries, name) && name !in Contents(s.chunks) ==>
              PartOf(base.entries, name) in SavedManifest(base, s).parts
  {
    assert s.chunks[..|s.chunks|] == s.chunks;
    var d := Written(base, s.chunks);
    PartsAreTheFiles(d.entries, s.names, s.names);
    PartsVerify(s.step, d.entries, s.names, d.entries);
    hide Parts, Lists, KeysAscend, HasParts, Contents, Verifies;
    assert now[s.dir] == d.(manifest := Some(Whole(SavedManifest(base, s))));
    forall name | name in Contents(s.chunks) && name != MANIFEST_NAME
      ensures Part(name, Digest(Contents(s.chunks)[name]), |Contents(s.chunks)[name]|) in SavedManifest(base, s).parts
    {
      WrittenReads(base, s.chunks, name);
      assert PartOf(d.entries, name) in SavedManifest(base, s).parts;
    }
    forall name | IsPart(base.entries, name) && name !in Contents(s.chunks) ensures PartOf(base.entries, name) in SavedManifest(base, s).parts {
      WrittenReads(base, s.chunks, name);
      assert PartOf(d.entries, name) in SavedManifest(base, s).parts;
    }
  }

  /** A save into a directory that holds a restorable one, cut before it reaches the
      manifest, leaves the earlier manifest restorable exactly when every part it has
      written over still holds the earlier bytes. */
  lemma CutResaveKeepsTheOld(base: Dir, m: Manifest, s: Save, now: Dirs)
    requires base.manifest == Some(Whole(m)) && Verifies(m, base.entries)
    requires forall i :: 0 <= i < |m.parts| ==> m.parts[i].key != MANIFEST_NAME
    requires 0 < s.cut < |s.chunks| + 2 && MANIFEST_NAME !in Contents(s.chunks[..s.cut - 1])
    requires s.dir in now && now[s.dir] == Left(base, s)
    ensures Valid(now, s.dir) <==>
            forall i :: 0 <= i < |m.parts| && m.parts[i].key in Contents(s.chunks[..s.cut - 1]) ==>
              Digest(Contents(s.chunks[..s.cut - 1])[m.parts[i].key]) == m.parts[i].sha256
    ensures Valid(now, s.dir) ==> ManifestIn(now, s.dir) == m
  {
    var done := s.chunks[..s.cut - 1];
    var d := Written(base, done);
    assert now[s.dir] == d && d.manifest == Some(Whole(m));
    hide Contents, HasParts;
    forall i | 0 <= i < |m.parts|
      ensures (IsFile(d.entries, m.parts[i].key) && Digest(d.entries[m.parts[i].key].bytes) == m.parts[i].sha256) <==>
              (m.parts[i].key in Contents(done) ==> Digest(Contents(done)[m.parts[i].key]) == m.parts[i].sha256)
    {
      WrittenReads(base, done, m.parts[i].key);
    }
    hide Written, Left;
  }

  lemma RestorableIsStanding(saves: seq<Save>, now: Dirs, name: string)
    requires ListedRightly(saves) && Damaged(After(saves), now)
    ensures Valid(now, name) <==> exists k :: 0 <= k < |saves| && saves[k].dir == name && Stands(saves, k) && Intact(saves, k, now)
    ensures Valid(now, name) ==> exists k ::
              (0 <= k < |saves| && saves[k].dir == name && Stands(saves, k) && Intact(saves, k, now) && ManifestIn(now, name) == ManifestOf(saves, k))
  {
    hide Hashed, ManifestOf, After, Verifies, Lists, Standing, Completed, IsPart;
    if Valid(now, name) {
      var m := ManifestIn(now, name);
      assert Holds(After(saves), name, m);
      HeldManifestStands(saves, name, m);
      StandingIsCompleted(saves, name);
      ValidMeansIntact(saves, Standing(saves, name).value, now);
    }
    if k :| 0 <= k < |saves| && saves[k].dir == name && Stands(saves, k) && Intact(saves, k, now) {
      ValidMeansIntact(saves, k, now);
    }
  }

  /** Over any run of saves, into new step directories or existing ones, whatever writes
      are cut and whatever is damaged afterwards: the manifest found is that of a
      completed save, the one standing in its directory, whose parts still hold exactly
      the bytes it hashed, and no other such save is newer; none is found only when there
      is none. */
  lemma RecoveryIsNewestIntact(saves: seq<Save>, now: Dirs, listing: seq<string>)
    requires ListedRightly(saves) && Damaged(After(saves), now) && Finds(listing, now)
    ensures Newest(now, listing) == None <==> forall k :: 0 <= k < |saves| ==> !(Stands(saves, k) && Intact(saves, k, now))
    ensures Newest(now, listing).Some? ==> exists k ::
              (0 <= k < |saves| && Completed(saves, k) && Stands(saves, k) && Intact(saves, k, now) && Newest(now, listing).value == ManifestOf(saves, k))
    ensures forall k :: 0 <= k < |saves| && Stands(saves, k) && Intact(saves, k, now) ==> saves[k].step <= Newest(now, listing).value.step
  {
    hide ManifestOf, After, Newest, Verifies, Damaged, ListedRightly, Standing, Completed, Intact;
    NewestIsHighest(now, listing);
    forall k | 0 <= k < |saves| && Stands(saves, k) && Intact(saves, k, now)
      ensures Newest(now, listing).Some? && saves[k].step <= Newest(now, listing).value.step
    {
      RestorableIsStanding(saves, now, saves[k].dir);
      IntactManifest(saves, k, now);
      assert saves[k].dir in listing;
    }
    if Newest(now, listing).Some? {
      var i :| 0 <= i < |listing| && Valid(now, listing[i]) && ManifestIn(now, listing[i]) == Newest(now, listing).value;
      RestorableIsStanding(saves, now, listing[i]);
      StandingIsCompleted(saves, listing[i]);
    }
  }

  lemma IntactManifest(saves: seq<Save>, k: nat, now: Dirs)
    requires k < |saves| && Intact(saves, k, now)
    ensures Holds(now, saves[k].dir, ManifestOf(saves, k)) && ManifestOf(saves, k).step == saves[k].step
  {
  }

  // ------------------------------------------------ nothing damaged later

  /** No later save begins writing save `k`'s directory. */
  ghost predicate Untouched(saves: seq<Save>, k: nat) {
    forall j :: k < j < |saves| ==> saves[j].dir != saves[k].dir || saves[j].cut == 0
  }

  lemma {:induction false} UntouchedStays(saves: seq<Save>, k: nat)
    requires k < |saves| && saves[k].cut > 0 && Untouched(saves, k)
    ensures saves[k].dir in After(saves) && After(saves)[saves[k].dir] == Left(Found(saves, k), saves[k])
    ensures Completed(saves, k) ==> Stands(saves, k)
  {
    hide Left, Completes, Tears;
    var n := |saves| - 1;
    if k < n {
      UntouchedStays(saves[..n], k);
      PrefixSaves(saves, n, k);
    }
  }

  lemma UntouchedIsIntact(saves: seq<Save>, k: nat)
    requires k < |saves| && Untouched(saves, k) && Completed(saves, k)
    ensures Stands(saves, k) && Intact(saves, k, After(saves))
  {
    UntouchedStays(saves, k);
    assert saves[k].chunks[..|saves[k].chunks|] == saves[k].chunks;
    hide After, Standing, Untouched, Parts, HasParts, IsPart, Contents;
  }

  /** With nothing damaged, no completed save is lost whose directory no later save began
      to write: the step recovered is at least its own, however other saves were cut. */
  lemma CrashesLoseOnlyTheUnfinished(saves: seq<Save>, listing: seq<string>, k: nat)
    requires ListedRightly(saves) && Finds(listing, After(saves)) && k < |saves|
    requires Completed(saves, k) && Untouched(saves, k)
    ensures Newest(After(saves), listing).Some? && saves[k].step <= Newest(After(saves), listing).value.step
  {
    hide *;
    UntouchedIsIntact(saves, k);
    NothingDamaged(After(saves));
    RecoveryIsNewestIntact(saves, After(saves), listing);
  }

  lemma NothingDamaged(dirs: Dirs)
    ensures Damaged(dirs, dirs)
  {
  }

  /** If every save has a directory of its own, the highest completed step is the one
      recovered, and none exactly when no save completed. */
  lemma OwnDirectoriesLoseNothing(saves: seq<Save>, listing: seq<string>)
    requires ListedRightly(saves) && Finds(listing, After(saves))
    requires forall i, j :: 0 <= i < j < |saves| ==> saves[i].dir != saves[j].dir
    ensures Newest(After(saves), listing) == None <==> forall k :: 0 <= k < |saves| ==> !Completed(saves, k)
    ensures forall k :: 0 <= k < |saves| && Completed(saves, k) ==> saves[k].step <= Newest(After(saves), listing).value.step
    ensures Newest(After(saves), listing).Some? ==> exists k ::
              (0 <= k < |saves| && Completed(saves, k) && Newest(After(saves), listing).value == ManifestOf(saves, k))
  {
    hide After, Newest, Completed, Stands, Intact, ManifestOf, ListedRightly;
    forall k | 0 <= k < |saves| && Completed(saves, k)
      ensures Newest(After(saves), listing).Some? && saves[k].step <= Newest(After(saves), listing).value.step
    {
      CrashesLoseOnlyTheUnfinished(saves, listing, k);
    }
    NothingDamaged(After(saves));
    RecoveryIsNewestIntact(saves, After(saves), listing);
  }

  // --------------------------------------------------------- the operations

  /** What one more chunk does to the directory. */
  lemma WrittenMore(base: Dir, before: seq<(string, Bytes)>, name: string, chunk: Bytes)
    ensures var d, after := Written(base, before), Written(base, before + [(name, chunk)]);
            && (name in Contents(before) && name != MANIFEST_NAME ==> IsFile(d.entries, name))
            && after == if name == MANIFEST_NAME then d.(manifest := Some(Torn))
                        else d.(entries := d.entries[name := File((if name in Contents(before) then d.entries[name].bytes else []) + chunk)])
  {
    ContentsMore(before, name, chunk);
    var c := Contents(before);
    var bytes := (if name in c then c[name] else []) + chunk;
    FilesMore(c, name, bytes);
    MergeUpdate(base.entries, Files(c), name, File(bytes));
    assert name in c && name != MANIFEST_NAME ==> name in Files(c) && (base.entries + Files(c))[name] == File(c[name]);
    hide Contents, Files;
  }

  lemma ContentsMore(before: seq<(string, Bytes)>, name: string, chunk: Bytes)
    ensures var c := Contents(before);
            Contents(before + [(name, chunk)]) == c[name := (if name in c then c[name] else []) + chunk]
  {
    assert (before + [(name, chunk)])[..|before|] == before;
  }

  lemma FilesMore(c: map<string, Bytes>, name: string, bytes: Bytes)
    ensures Files(c[name := bytes]) == if name == MANIFEST_NAME then Files(c) else Files(c)[name := File(bytes)]
  {
  }

  lemma MergeUpdate(a: map<string, Entry>, b: map<string, Entry>, name: string, e: Entry)
    ensures a + b[name := e] == (a + b)[name := e]
  {
  }

  lemma NothingWritten(base: Dir, chunks: seq<(string, Bytes)>)
    ensures Written(base, chunks[..0]) == base && Contents(chunks[..0]).Keys == {}
  {
  }

  lemma ContentsKeys(before: seq<(string, Bytes)>, name: string, chunk: Bytes)
    ensures Contents(before + [(name, chunk)]).Keys == Contents(before).Keys + {name}
  {
    ContentsMore(before, name, chunk);
    hide Contents;
  }

  lemma Overwrite(dirs: Dirs, name: string, a: Dir, b: Dir)
    ensures dirs[name := a][name := b] == dirs[name := b]
  {
  }

  lemma MinIs(a: int, b: int)
    ensures Min(a, b) == if a < b then a else b
  {
  }

  class Disk {
    var dirs: Dirs

    constructor ()
      ensures dirs == map[]
    {
      dirs := map[];
    }

    /** The parts of a directory, listed in any order. */
    static method HashFiles(entries: map<string, Entry>, names: seq<string>) returns (parts: seq<Part>)
      requires Lists(names, entries)
      ensures parts == Parts(entries, names)
      ensures parts != [] <==> HasParts(entries)
    {
      SomePart(entries, names);
      hide HasParts, SortNames;
      var ordered := SortNames(names);
      parts := [];
      var i := 0;
      while i < |ordered|
        invariant i <= |ordered| && parts == Scan(entries, ordered[..i])
      {
        assert ordered[..i + 1][..i] == ordered[..i];
        if IsPart(entries, ordered[i]) {
          parts := parts + [PartOf(entries, ordered[i])];
        }
        i := i + 1;
      }
      assert ordered[..i] == ordered;
    }

    /** Hash every file but the manifest, then write the manifest, `writes` of its two
        writes happening. */
    method WriteManifest(name: string, step: nat, names: seq<string>, writes: nat) returns (r: Result<Manifest, Error>)
      requires name in dirs && Lists(names, dirs[name].entries)
      modifies this
      ensures r.Success? <==> HasParts(old(dirs)[name].entries)
      ensures r.Success? ==> r.value == Manifest(step, Parts(old(dirs)[name].entries, names))
      ensures dirs == if r.Failure? || writes == 0 then old(dirs)
                      else old(dirs)[name := old(dirs)[name].(manifest := Some(if writes == 1 then Torn else Whole(r.value)))]
    {
      var parts := HashFiles(dirs[name].entries, names);
      hide Parts, HasParts;
      if parts == [] {
        return Failure(NoPartFiles);
      }
      var manifest := Manifest(step, parts);
      if writes >= 1 {
        dirs := dirs[name := dirs[name].(manifest := Some(Torn))];
      }
      if writes >= 2 {
        dirs := dirs[name := dirs[name].(manifest := Some(Whole(manifest)))];
      }
      r := Success(manifest);
    }

    /** Writes one chunk to a file, which its first chunk empties. */
    method WriteChunk(dir: string, name: string, chunk: Bytes, ghost base: Dir, ghost before: seq<(string, Bytes)>, first: bool)
      requires dir in dirs && dirs[dir] == Written(base, before) && first == (name !in Contents(before))
      modifies this
      ensures dirs == old(dirs)[dir := Written(base, before + [(name, chunk)])]
    {
      WrittenMore(base, before, name, chunk);
      hide Written, Contents;
      var d := dirs[dir];
      if name == MANIFEST_NAME {
        dirs := dirs[dir := d.(manifest := Some(Torn))];
      } else {
        var kept := if first then [] else d.entries[name].bytes;
        dirs := dirs[dir := d.(entries := d.entries[name := File(kept + chunk)])];
      }
    }

    method MakeDirectory(dir: string)
      modifies this
      ensures dirs == old(dirs)[dir := Base(old(dirs), dir)]
    {
      if dir !in dirs {
        dirs := dirs[dir := EMPTY_DIR];
      }
      assert dirs == old(dirs)[dir := Base(old(dirs), dir)];
    }

    method WriteParts(s: Save) returns (done: nat)
      requires s.cut > 0
      modifies this
      ensures done == Min(s.cut - 1, |s.chunks|)
      ensures dirs == old(dirs)[s.dir := Written(Base(old(dirs), s.dir), s.chunks[..done])]
    {
      hide *;
      ghost var start := dirs;
      ghost var base := Base(dirs, s.dir);
      MakeDirectory(s.dir);
      NothingWritten(base, s.chunks);
      done := 0;
      var touched: set<string> := {};
      while done < |s.chunks| && done + 1 < s.cut
        invariant done <= |s.chunks| && done < s.cut
        invariant dirs == start[s.dir := Written(base, s.chunks[..done])]
        invariant touched == Contents(s.chunks[..done]).Keys
      {
        var (name, chunk) := s.chunks[done];
        assert s.chunks[..done + 1] == s.chunks[..done] + [(name, chunk)];
        ContentsKeys(s.chunks[..done], name, chunk);
        Overwrite(start, s.dir, Written(base, s.chunks[..done]), Written(base, s.chunks[..done + 1]));
        WriteChunk(s.dir, name, chunk, base, s.chunks[..done], name !in touched);
        touched := touched + {name};
        done := done + 1;
      }
      MinIs(s.cut - 1, |s.chunks|);
    }

    /** A whole save, its process dying after `s.cut` writes, into a directory that may
        already be there. */
    method Checkpoint(s: Save)
      requires Lists(s.names, Written(Base(dirs, s.dir), s.chunks).entries)
      modifies this
      ensures dirs == AfterOne(old(dirs), s)
    {
      hide Written, Parts, Lists, HasParts, Base, Contents;
      if s.cut == 0 { return; }
      var done := WriteParts(s);
      if done == |s.chunks| {
        assert s.chunks[..done] == s.chunks;
        var _ := WriteManifest(s.dir, s.step, s.names, s.cut - 1 - done);
      }
    }

    method VerifyManifest(m: Manifest, name: string) returns (ok: bool)
      requires name in dirs
      ensures ok <==> Verifies(m, dirs[name].entries)
    {
      var i := 0;
      while i < |m.parts|
        invariant i <= |m.parts| && Verifies(m.(parts := m.parts[..i]), dirs[name].entries)
      {
        var part := m.parts[i];
        if !IsFile(dirs[name].entries, part.key) || Digest(dirs[name].entries[part.key].bytes) != part.sha256 {
          return false;
        }
        i := i + 1;
      }
      ok := true;
    }

    method LatestValidManifest(listing: seq<string>) returns (best: Option<Manifest>)
      requires Finds(listing, dirs)
      ensures best == Newest(dirs, listing)
    {
      best := None;
      var i := 0;
      while i < |listing|
        invariant i <= |listing| && best == Newest(dirs, listing[..i])
      {
        var name := listing[i];
        assert listing[..i + 1][..i] == listing[..i];
        assert name in listing;
        if dirs[name].manifest.value.Whole? {
          var m := dirs[name].manifest.value.manifest;
          var ok := VerifyManifest(m, name);
          if ok && (best == None || m.step > best.value.step) {
            best := Some(m);
          }
        }
        i := i + 1;
      }
      assert listing[..i] == listing;
    }
  }
}
