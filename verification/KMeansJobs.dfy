/** One K-means iteration as a job of the coordinator: the tasks it becomes, and what
    the driver finds once the job has succeeded. */
module KMeansJobs {
  import opened ArtifactService
  import opened KMeansSpec
  import opened LeaseRuns
  import opened LeaseSpec
  import opened Prelude

  // ------------------------------------------------------------- task names

  function Digit(n: nat): char {
    ('0' as int + n % 10) as char
  }

  /** A number in decimal. */
  function Digits(n: nat): (s: string)
    ensures |s| >= 1
  {
    (if n < 10 then [] else Digits(n / 10)) + [Digit(n)]
  }

  /** A number in decimal with leading zeros up to a width. */
  function Padded(n: nat, width: nat): string {
    var digits := Digits(n);
    seq(Max(0, width - |digits|), _ => '0') + digits
  }

  function DigitValue(c: char): int { c as int - '0' as int }

  function Value(s: string): int {
    if s == [] then 0 else Value(s[..|s| - 1]) * 10 + DigitValue(s[|s| - 1])
  }

  lemma DigitIsLast(n: nat)
    ensures DigitValue(Digit(n)) == n % 10 && n == n / 10 * 10 + n % 10 && (n < 10 ==> n % 10 == n)
    ensures Digit(n) != '/'
  {
  }

  lemma ValueStep(s: string, c: char)
    ensures Value(s + [c]) == Value(s) * 10 + DigitValue(c)
    ensures '/' !in s && c != '/' ==> '/' !in s + [c]
  {
    assert (s + [c])[..|s|] == s;
  }

  lemma DigitsStep(n: nat)
    ensures n < 10 ==> Digits(n) == [] + [Digit(n)]
    ensures n >= 10 ==> n / 10 < n && Digits(n) == Digits(n / 10) + [Digit(n)]
  {
  }

  ghost predicate Reads(s: string, n: nat) {
    Value(s) == n && '/' !in s
  }

  lemma OneDigit(n: nat)
    requires n < 10
    ensures Reads(Digits(n), n)
  {
    DigitIsLast(n);
    DigitsStep(n);
    ValueStep([], Digit(n));
    hide Digits, Digit, DigitValue;
  }

  lemma MoreDigits(n: nat, q: nat)
    requires n >= 10 && q == n / 10 && Reads(Digits(q), q)
    ensures Reads(Digits(n), n)
  {
    DigitIsLast(n);
    DigitsStep(n);
    hide Digits, Digit, DigitValue, Value;
    ValueStep(Digits(q), Digit(n));
  }

  lemma {:induction false} ValueOfDigits(n: nat)
    ensures Reads(Digits(n), n)
  {
    hide Digits, Reads;
    if n < 10 {
      OneDigit(n);
    } else {
      var q := n / 10;
      ValueOfDigits(q);
      MoreDigits(n, q);
    }
  }

  lemma {:induction false} LeadingZeros(k: nat, s: string)
    ensures Value(seq(k, _ => '0') + s) == Value(s)
  {
    var zeros := seq(k, _ => '0');
    if s == [] {
      assert zeros + s == zeros;
      if k > 0 {
        LeadingZeros(k - 1, []);
        assert zeros[..k - 1] == seq(k - 1, _ => '0') + [];
      }
    } else {
      assert (zeros + s)[..|zeros + s| - 1] == zeros + s[..|s| - 1];
      LeadingZeros(k, s[..|s| - 1]);
    }
  }

  lemma PaddedIsInjective(a: nat, b: nat, width: nat)
    requires Padded(a, width) == Padded(b, width)
    ensures a == b
  {
    ValueOfDigits(a);
    ValueOfDigits(b);
    LeadingZeros(Max(0, width - |Digits(a)|), Digits(a));
    LeadingZeros(Max(0, width - |Digits(b)|), Digits(b));
  }

  function TaskId(iteration: nat, shard: nat): string {
    "it" + Padded(iteration, 2) + "-shard-" + Padded(shard, 3)
  }

  /** Shard `shard`'s task in the job of one iteration. */
  function ShardTask(job: string, iteration: nat, shard: nat): TaskKey {
    TaskKey(job, TaskId(iteration, shard))
  }

  /** The file that task's result is committed as. */
  function ShardFile(job: string, iteration: nat, shard: nat): string {
    CommitKey(ShardTask(job, iteration, shard))
  }

  lemma PaddedIsPlain(n: nat, width: nat)
    ensures '/' !in Padded(n, width)
  {
    ValueOfDigits(n);
    hide Digits;
  }

  /** Task ids have this form. */
  lemma TaskIdsLookLikeThis()
    ensures TaskId(7, 12) == "it07-shard-012"
  {
    assert Digits(7) == "7";
    assert Digits(1) == "1" && Digits(12) == Digits(1) + "2" == "12";
    assert Padded(7, 2) == "07" && Padded(12, 3) == "012";
  }

  lemma TaskIdIsPlain(iteration: nat, shard: nat)
    ensures '/' !in TaskId(iteration, shard)
  {
    PaddedIsPlain(iteration, 2);
    PaddedIsPlain(shard, 3);
    hide Padded;
  }

  /** Every shard has a task, and a file, of its own. */
  lemma ShardFilesDiffer(job: string, iteration: nat, a: nat, b: nat)
    requires '/' !in job && ShardFile(job, iteration, a) == ShardFile(job, iteration, b)
    ensures a == b
  {
    TaskIdIsPlain(iteration, a);
    TaskIdIsPlain(iteration, b);
    hide TaskId;
    PrefixesApart(ShardTask(job, iteration, a), ShardTask(job, iteration, b));
    SameTaskSameShard(iteration, a, b);
  }

  lemma SameTaskSameShard(iteration: nat, a: nat, b: nat)
    requires TaskId(iteration, a) == TaskId(iteration, b)
    ensures a == b
  {
    hide Padded;
    var c := "it" + Padded(iteration, 2) + "-shard-";
    assert Padded(a, 3) == TaskId(iteration, a)[|c|..] && Padded(b, 3) == TaskId(iteration, b)[|c|..];
    PaddedIsInjective(a, b, 3);
  }

  // ------------------------------------------------- one iteration's history

  /** What a file holds if it parses: a partial's fields, or anything else. */
  datatype Json = PartialJson(partial: Partial) | OtherJson

  /** What one iteration is about: the uploaded shards and the broadcast centroids. */
  datatype Iteration = Iteration(number: nat, shards: seq<seq<Point>>, centroids: seq<Point>, dims: nat)

  /** The service's life around a job: the driver sees it SUCCEEDED in state `polled` and
      lists its artifacts in state `read`. */
  datatype History = History(enforcing: bool, states: seq<Service>, actions: seq<Action>, job: string, polled: nat, read: nat)

  /** An artifact the driver lists, with what fetching it returned. */
  datatype Listed = Listed(key: string, bytes: Bytes)

  /** These bytes are what the worker makes of shard `s`, which it can read. */
  ghost predicate IsOutput(it: Iteration, parse: Bytes -> Option<Json>, bytes: Bytes, s: nat)
    requires |it.centroids| >= 1 && s < |it.shards|
  {
    Readable(it.shards[s], it.dims) && parse(bytes) == Some(PartialJson(PartialOf(NonBlank(it.shards[s]), it.centroids, it.dims)))
  }

  ghost predicate HasTask(tasks: Tasks, p: nat, key: TaskKey) {
    p < |tasks| && tasks[p].spec.key == key
  }

  ghost predicate Added(tasks: Tasks, key: TaskKey) {
    exists p: nat :: HasTask(tasks, p, key)
  }

  /** Every shard's task has been added; a job without shards is refused. */
  ghost predicate Submitted(tasks: Tasks, job: string, it: Iteration) {
    it.shards != [] && forall s :: 0 <= s < |it.shards| ==> Added(tasks, ShardTask(job, it.number, s))
  }

  /** Every artifact of the job, once, in any order. */
  ghost predicate ListsJob(listed: seq<Listed>, files: map<string, Bytes>, job: string) {
    && (forall i, j :: 0 <= i < j < |listed| ==> listed[i].key != listed[j].key)
    && (forall i :: 0 <= i < |listed| ==> listed[i].key in files)
    && (forall key :: key in files && "jobs/" + job + "/" <= key ==> IsListed(listed, key))
  }

  ghost predicate IsListed(listed: seq<Listed>, key: string) {
    exists m :: 0 <= m < |listed| && listed[m].key == key
  }

  /** The bytes were the file's in some state no earlier than `from`. */
  ghost predicate FetchedIn(states: seq<Service>, from: nat, l: Listed) {
    exists k :: from <= k < |states| && l.key in states[k].files && states[k].files[l.key] == l.bytes
  }

  ghost predicate CommitsShard(h: History, it: Iteration, i: nat, s: nat)
    requires |h.states| == |h.actions| + 1
  {
    exists p: nat :: CheckedAt(h.states, h.actions, i, p) && HasTask(h.states[i].tasks, p, ShardTask(h.job, it.number, s))
  }

  /** Credentials are enforced, no operator writes a shard's result, and whoever gets a
      shard's result accepted had run the worker on that shard. */
  ghost predicate HonestCommits(h: History, it: Iteration, parse: Bytes -> Option<Json>)
    requires |h.states| == |h.actions| + 1 && |it.centroids| >= 1
  {
    && h.enforcing && AllPlain(h.states[|h.actions|].tasks)
    && (forall s :: 0 <= s < |it.shards| ==> LeftAlone(h.actions, 0, ShardFile(h.job, it.number, s)))
    && (forall i, s :: 0 <= i < |h.actions| && 0 <= s < |it.shards| && h.actions[i].Offer? && CommitsShard(h, it, i, s) ==>
          IsOutput(it, parse, h.actions[i].claimed.of, s))
  }

  /** Whoever writes a shard's result writes what the worker made of that shard. */
  ghost predicate HonestWrites(h: History, it: Iteration, parse: Bytes -> Option<Json>)
    requires |h.states| == |h.actions| + 1 && |it.centroids| >= 1
  {
    forall s :: 0 <= s < |it.shards| ==>
      && (ShardFile(h.job, it.number, s) in h.states[0].files ==> IsOutput(it, parse, h.states[0].files[ShardFile(h.job, it.number, s)], s))
      && (forall i :: 0 <= i < |h.actions| && h.actions[i].Write? && h.actions[i].key == ShardFile(h.job, it.number, s) ==>
            IsOutput(it, parse, h.actions[i].bytes, s))
  }

  /** A job the driver saw succeed, and what it listed and fetched after that, with
      workers that are honest in either sense. */
  ghost predicate Observed(h: History, it: Iteration, parse: Bytes -> Option<Json>, listed: seq<Listed>)
    requires |it.centroids| >= 1
  {
    && Served(h.enforcing, h.states, h.actions)
    && h.polled <= h.read < |h.states|
    && '/' !in h.job && Submitted(h.states[h.polled].tasks, h.job, it)
    && JobStateOf(h.states[h.polled].tasks, h.job) == JobSucceeded
    && ListsJob(listed, h.states[h.read].files, h.job)
    && (forall m :: 0 <= m < |listed| ==> FetchedIn(h.states, h.read, listed[m]))
    && (HonestCommits(h, it, parse) || HonestWrites(h, it, parse))
  }

  // ------------------------------------------- every shard is there, and right

  lemma ServedShape(h: History)
    requires Served(h.enforcing, h.states, h.actions)
    ensures |h.states| == |h.actions| + 1
  {
  }

  lemma ShardIsDone(h: History, it: Iteration, s: nat, k: nat) returns (p: nat)
    requires Served(h.enforcing, h.states, h.actions) && h.polled <= k < |h.states|
    requires Submitted(h.states[h.polled].tasks, h.job, it) && s < |it.shards|
    requires JobStateOf(h.states[h.polled].tasks, h.job) == JobSucceeded
    ensures HasTask(h.states[h.polled].tasks, p, ShardTask(h.job, it.number, s)) && IsCompleted(h.states[h.polled].tasks, p)
    ensures HasTask(h.states[k].tasks, p, ShardTask(h.job, it.number, s)) && IsCompleted(h.states[k].tasks, p)
    ensures ShardFile(h.job, it.number, s) in h.states[k].files
  {
    hide Served, JobStateOf, ShardTask, CommitKey;
    var tasks := h.states[h.polled].tasks;
    assert Added(tasks, ShardTask(h.job, it.number, s));
    p :| HasTask(tasks, p, ShardTask(h.job, it.number, s));
    SucceededMeans(tasks, h.job);
    JobOfShard(h.job, it.number, s);
    SameTask(h.enforcing, h.states, h.actions, h.polled, k, p);
    EveryCommitWasChecked(h.enforcing, h.states, h.actions, k, p);
  }

  lemma JobOfShard(job: string, iteration: nat, s: nat)
    ensures ShardTask(job, iteration, s).job == job
  {
  }

  /** With honest commits, what is there is what was accepted. */
  lemma CommitsAreOutputs(h: History, it: Iteration, parse: Bytes -> Option<Json>, s: nat, k: nat)
    requires Served(h.enforcing, h.states, h.actions) && h.polled <= k < |h.states| == |h.actions| + 1 && |it.centroids| >= 1
    requires Submitted(h.states[h.polled].tasks, h.job, it) && s < |it.shards|
    requires JobStateOf(h.states[h.polled].tasks, h.job) == JobSucceeded && HonestCommits(h, it, parse)
    ensures ShardFile(h.job, it.number, s) in h.states[k].files
    ensures IsOutput(it, parse, h.states[k].files[ShardFile(h.job, it.number, s)], s)
  {
    hide Served, JobStateOf, ShardTask, IsOutput, CheckedAt, CommitKey, AllPlain;
    var key := ShardTask(h.job, it.number, s);
    ServedShape(h);
    var p := ShardIsDone(h, it, s, k);
    EveryCommitWasChecked(h.enforcing, h.states, h.actions, h.polled, p);
    var i :| 0 <= i < h.polled && CheckedAt(h.states, h.actions, i, p);
    CheckedIsOffer(h.states, h.actions, i, p);
    SameTask(h.enforcing, h.states, h.actions, i, h.polled, p);
    assert HasTask(h.states[i].tasks, p, key);
    assert LeftAlone(h.actions, 0, CommitKey(key));
    CommittedResultIsFrozen(h.states, h.actions, i, p, k);
    assert CommitsShard(h, it, i, s);
  }

  lemma CheckedIsOffer(states: seq<Service>, actions: seq<Action>, i: nat, p: nat)
    requires CheckedAt(states, actions, i, p)
    ensures i < |actions| < |states| && actions[i].Offer? && p < |states[i].tasks|
  {
  }

  /** With honest writes, whatever is there is the worker's. */
  lemma {:induction false} WritesAreOutputs(h: History, it: Iteration, parse: Bytes -> Option<Json>, s: nat, k: nat)
    requires Served(h.enforcing, h.states, h.actions) && k < |h.states| == |h.actions| + 1 && |it.centroids| >= 1 && s < |it.shards|
    requires HonestWrites(h, it, parse)
    ensures ShardFile(h.job, it.number, s) in h.states[k].files ==>
              IsOutput(it, parse, h.states[k].files[ShardFile(h.job, it.number, s)], s)
  {
    hide Served, IsOutput, ShardFile, LeaseRuns.Next, MayWrite;
    if k > 0 {
      WritesAreOutputs(h, it, parse, s, k - 1);
      OneAction(h.enforcing, h.states, h.actions, k - 1);
    }
  }

  lemma ShardIsListed(h: History, it: Iteration, parse: Bytes -> Option<Json>, listed: seq<Listed>, s: nat)
    requires |it.centroids| >= 1 && Observed(h, it, parse, listed) && s < |it.shards|
    ensures IsListed(listed, ShardFile(h.job, it.number, s))
  {
    hide Served, JobStateOf, IsListed, Submitted, HonestCommits, HonestWrites, FetchedIn;
    var p := ShardIsDone(h, it, s, h.read);
    assert "jobs/" + h.job + "/" <= ShardFile(h.job, it.number, s);
  }

  lemma ShardIsRight(h: History, it: Iteration, parse: Bytes -> Option<Json>, listed: seq<Listed>, s: nat, m: nat)
    requires |it.centroids| >= 1 && Observed(h, it, parse, listed) && s < |it.shards|
    requires m < |listed| && listed[m].key == ShardFile(h.job, it.number, s)
    ensures IsOutput(it, parse, listed[m].bytes, s)
  {
    hide Served, JobStateOf, ShardFile, Submitted, HonestCommits, HonestWrites, IsOutput, ListsJob;
    ServedShape(h);
    assert FetchedIn(h.states, h.read, listed[m]);
    var k :| h.read <= k < |h.states| && listed[m].key in h.states[k].files && h.states[k].files[listed[m].key] == listed[m].bytes;
    if HonestCommits(h, it, parse) {
      CommitsAreOutputs(h, it, parse, s, k);
    } else {
      WritesAreOutputs(h, it, parse, s, k);
    }
  }

  /** When a job has succeeded, every shard's result is among its artifacts, and it is
      what the worker made of that shard; all shards were readable. */
  lemma SucceededJobsHoldEveryShard(h: History, it: Iteration, parse: Bytes -> Option<Json>, listed: seq<Listed>)
    requires |it.centroids| >= 1 && Observed(h, it, parse, listed)
    ensures forall s :: 0 <= s < |it.shards| ==> IsListed(listed, ShardFile(h.job, it.number, s)) && Readable(it.shards[s], it.dims)
    ensures forall s, m :: 0 <= s < |it.shards| && 0 <= m < |listed| && listed[m].key == ShardFile(h.job, it.number, s) ==>
              IsOutput(it, parse, listed[m].bytes, s)
  {
    hide Observed, ShardFile, Readable, NonBlank;
    forall s, m | 0 <= s < |it.shards| && 0 <= m < |listed| && listed[m].key == ShardFile(h.job, it.number, s)
      ensures IsOutput(it, parse, listed[m].bytes, s)
    {
      ShardIsRight(h, it, parse, listed, s, m);
    }
    forall s | 0 <= s < |it.shards| ensures IsListed(listed, ShardFile(h.job, it.number, s)) && Readable(it.shards[s], it.dims) {
      ShardIsListed(h, it, parse, listed, s);
    }
  }

  // --------------------------------------------------- what the driver counts

  const METRICS_NAME := "metrics.json"

  predicate EndsWith(s: string, suffix: string) {
    |s| >= |suffix| && s[|s| - |suffix|..] == suffix
  }

  /** The listed artifacts the driver takes for partials. */
  function Picked(listed: seq<Listed>): seq<Listed> {
    if listed == [] then []
    else
      var last := listed[|listed| - 1];
      Picked(listed[..|listed| - 1]) + if EndsWith(last.key, METRICS_NAME) then [last] else []
  }

  lemma {:induction false} PickedMeans(listed: seq<Listed>)
    ensures forall l :: l in Picked(listed) <==> l in listed && EndsWith(l.key, METRICS_NAME)
  {
    hide EndsWith;
    if listed != [] {
      PickedMeans(listed[..|listed| - 1]);
      assert listed == listed[..|listed| - 1] + [listed[|listed| - 1]];
    }
  }

  ghost predicate KeysDiffer(listed: seq<Listed>) {
    forall i, j :: 0 <= i < j < |listed| ==> listed[i].key != listed[j].key
  }

  lemma {:induction false} PickedKeysDiffer(listed: seq<Listed>)
    requires KeysDiffer(listed)
    ensures KeysDiffer(Picked(listed))
  {
    hide EndsWith;
    if listed != [] {
      var n := |listed| - 1;
      PickedKeysDiffer(listed[..n]);
      PickedMeans(listed[..n]);
      var before := Picked(listed[..n]);
      forall i | 0 <= i < |before| ensures before[i].key != listed[n].key {
        assert before[i] in listed[..n];
      }
    }
  }

  ghost function KeysOf(listed: seq<Listed>): (r: seq<string>)
    ensures |r| == |listed| && forall i :: 0 <= i < |listed| ==> r[i] == listed[i].key
  {
    seq(|listed|, i requires 0 <= i < |listed| => listed[i].key)
  }

  ghost function ShardFiles(job: string, iteration: nat, n: nat): (r: seq<string>)
    ensures |r| == n && forall s :: 0 <= s < n ==> r[s] == ShardFile(job, iteration, s)
  {
    seq(n, s requires 0 <= s < n => ShardFile(job, iteration, s))
  }

  lemma ShardFilesAreDistinct(job: string, iteration: nat, n: nat)
    requires '/' !in job
    ensures Distinct(ShardFiles(job, iteration, n)) && |AsSet(ShardFiles(job, iteration, n))| == n
  {
    hide ShardFile;
    var all := ShardFiles(job, iteration, n);
    forall a, b | 0 <= a < b < n ensures all[a] != all[b] {
      if all[a] == all[b] { ShardFilesDiffer(job, iteration, a, b); }
    }
    DistinctSize(all);
  }

  /** Every picked artifact is some shard's result. */
  ghost predicate OnlyShards(picked: seq<Listed>, job: string, iteration: nat, n: nat) {
    forall m :: 0 <= m < |picked| ==> picked[m].key in ShardFiles(job, iteration, n)
  }

  lemma CommitKeyEnds(key: TaskKey)
    ensures EndsWith(CommitKey(key), METRICS_NAME)
  {
  }

  lemma ListedIsPicked(listed: seq<Listed>, key: string)
    requires IsListed(listed, key) && EndsWith(key, METRICS_NAME)
    ensures key in KeysOf(Picked(listed))
  {
    PickedMeans(listed);
    hide EndsWith, Picked;
    var m :| 0 <= m < |listed| && listed[m].key == key;
    assert listed[m] in Picked(listed);
    var i :| 0 <= i < |Picked(listed)| && Picked(listed)[i] == listed[m];
    assert KeysOf(Picked(listed))[i] == key;
  }

  /** Of keys that are each listed once, and all of `all` among them, there are as many
      as in `all` exactly when there are no others. */
  lemma CountsAgree(picked: seq<Listed>, all: seq<string>)
    requires KeysDiffer(picked) && Distinct(all)
    requires forall x :: x in all ==> x in KeysOf(picked)
    ensures |picked| == |all| <==> forall m :: 0 <= m < |picked| ==> picked[m].key in all
  {
    var keys := KeysOf(picked);
    assert Distinct(keys);
    DistinctSize(keys);
    DistinctSize(all);
    SubsetSize(AsSet(all), AsSet(keys));
    if |picked| == |all| {
      forall m | 0 <= m < |picked| ensures picked[m].key in all {
        assert keys[m] in AsSet(keys);
      }
    }
    if forall m :: 0 <= m < |picked| ==> picked[m].key in all {
      assert AsSet(keys) <= AsSet(all);
      SubsetSize(AsSet(keys), AsSet(all));
    }
  }

  lemma EveryShardIsPicked(h: History, it: Iteration, parse: Bytes -> Option<Json>, listed: seq<Listed>)
    requires |it.centroids| >= 1 && Observed(h, it, parse, listed)
    ensures forall x :: x in ShardFiles(h.job, it.number, |it.shards|) ==> x in KeysOf(Picked(listed))
  {
    hide *;
    var all := ShardFiles(h.job, it.number, |it.shards|);
    forall x | x in all ensures x in KeysOf(Picked(listed)) {
      var s: nat :| s < |all| && all[s] == x;
      ShardIsListed(h, it, parse, listed, s);
      ShardFileEnds(h.job, it.number, s);
      ListedIsPicked(listed, x);
    }
  }

  /** After a job has succeeded the driver's count is right exactly when no artifact but
      the shards' own results has a name ending in metrics.json. */
  lemma CountIsRightWhen(h: History, it: Iteration, parse: Bytes -> Option<Json>, listed: seq<Listed>)
    requires |it.centroids| >= 1 && Observed(h, it, parse, listed)
    ensures |Picked(listed)| == |it.shards| <==> OnlyShards(Picked(listed), h.job, it.number, |it.shards|)
    ensures KeysDiffer(Picked(listed))
  {
    hide *;
    ListingMeans(h, it, parse, listed);
    PickedKeysDiffer(listed);
    ShardFilesAreDistinct(h.job, it.number, |it.shards|);
    EveryShardIsPicked(h, it, parse, listed);
    CountsAgree(Picked(listed), ShardFiles(h.job, it.number, |it.shards|));
    OnlyShardsMeans(Picked(listed), h.job, it.number, |it.shards|);
  }

  lemma OnlyShardsMeans(picked: seq<Listed>, job: string, iteration: nat, n: nat)
    ensures OnlyShards(picked, job, iteration, n) <==> forall m :: 0 <= m < |picked| ==> picked[m].key in ShardFiles(job, iteration, n)
  {
  }

  lemma ListingMeans(h: History, it: Iteration, parse: Bytes -> Option<Json>, listed: seq<Listed>)
    requires |it.centroids| >= 1 && Observed(h, it, parse, listed)
    ensures KeysDiffer(listed) && '/' !in h.job
  {
  }

  lemma ShardFileEnds(job: string, iteration: nat, s: nat)
    ensures EndsWith(ShardFile(job, iteration, s), METRICS_NAME)
  {
    CommitKeyEnds(ShardTask(job, iteration, s));
  }

  // ------------------------------------------------- such histories exist

  lemma AddOne(spec: TaskSpec, now: int)
    ensures LeaseRuns.Next([], Call(Add(spec), now), [NewRecord(spec)])
  {
    var r := NewRecord(spec);
    AfterPair([], r, Event(TASK_CREATED, spec.key, None, now));
    assert IndexOf([], spec.key).None?;
    assert [] + [r] == [r];
  }

  lemma ClaimOne(r: Record, node: NodeId, id: LeaseId, now: int)
    requires r.state == PENDING && id !in r.history
    ensures LeaseRuns.Next([r], Call(Claim(node, Fifo(None), id), now), [Claimed(r, NewLease(r, node, id, now))])
  {
    var l := NewLease(r, node, id, now);
    assert [r][..0] == [];
    assert Leased([r]) == [];
    SweepNothing([r], now);
    FirstIs([r], (x: Record) => x.state == PENDING && InJob(x, None), 0);
    AfterPair([r], Claimed(r, l), LeaseEvent(LEASE_CLAIMED, l, now));
    FirstIs([r], (x: Record) => x.spec.key == r.spec.key, 0);
    assert [r][0 := Claimed(r, l)] == [Claimed(r, l)];
    var grant := GrantOutcome([r], node, Fifo(None), id, now);
    assert [] + grant.effects == grant.effects;
  }

  lemma CompleteOne(r: Record, id: LeaseId, now: int)
    requires id in r.history && r.history[id].id == id && IsLive(r, id, now)
    ensures FindLease([r], id) == Some(0)
    ensures LeaseRuns.Next([r], Call(Complete(id), now), [Accepted(r, id)])
  {
    FirstIs([r], (x: Record) => id in x.history, 0);
    FirstIs([r], (x: Record) => x.spec.key == r.spec.key, 0);
    AfterPair([r], Accepted(r, id), LeaseEvent(TASK_COMMIT_ACCEPTED, r.history[id], now));
    assert [r][0 := Accepted(r, id)] == [Accepted(r, id)];
  }

  // One shard's task, run by one node from start to commit.

  function AddedRecord(spec: TaskSpec): Record { NewRecord(spec) }
  function ClaimedRecord(spec: TaskSpec): Record { Claimed(AddedRecord(spec), NewLease(AddedRecord(spec), "node", "lease", 0)) }
  function DoneRecord(spec: TaskSpec): Record { Accepted(ClaimedRecord(spec), "lease") }

  function OneShardStates(spec: TaskSpec, bytes: Bytes): seq<Service> {
    var files := map[CommitKey(spec.key) := bytes];
    [Service([], map[]), Service([AddedRecord(spec)], map[]), Service([ClaimedRecord(spec)], map[]),
     Service([ClaimedRecord(spec)], files), Service([DoneRecord(spec)], files)]
  }

  function OneShardActions(spec: TaskSpec, bytes: Bytes): seq<Action> {
    [Leasing(Call(Add(spec), 0)), Leasing(Call(Claim("node", Fifo(None), "lease"), 0)),
     Write(Some("node"), CommitKey(spec.key), bytes, 0), Offer("lease", Digest(bytes), 0, 0, None)]
  }

  function OneShardLife(spec: TaskSpec, bytes: Bytes): History {
    History(false, OneShardStates(spec, bytes), OneShardActions(spec, bytes), spec.key.job, 4, 4)
  }

  lemma WriteIsNothing(tasks: Tasks)
    ensures LeaseRuns.Next(tasks, Crash(Request.Sweep, 0, 0), tasks)
  {
    AfterNothing(tasks);
    assert SweepOutcome(tasks, 0).effects[..0] == [];
  }

  lemma OfferOne(spec: TaskSpec, bytes: Bytes)
    requires spec.window > 0
    ensures var s := OneShardStates(spec, bytes); NextService(false, s[3], OneShardActions(spec, bytes)[3], s[4])
  {
    CompleteOne(ClaimedRecord(spec), "lease", 0);
    hide LeaseRuns.Next, CommitKey;
    assert OutputValid(OneShardStates(spec, bytes)[3].files, CommitKey(spec.key), Digest(bytes));
  }

  lemma AddAndClaimOne(spec: TaskSpec, bytes: Bytes)
    ensures var s := OneShardStates(spec, bytes); NextService(false, s[0], OneShardActions(spec, bytes)[0], s[1])
    ensures var s := OneShardStates(spec, bytes); NextService(false, s[1], OneShardActions(spec, bytes)[1], s[2])
  {
    AddOne(spec, 0);
    ClaimOne(AddedRecord(spec), "node", "lease", 0);
    hide LeaseRuns.Next, CommitKey, DoneRecord;
  }

  lemma WriteOne(spec: TaskSpec, bytes: Bytes)
    ensures var s := OneShardStates(spec, bytes); NextService(false, s[2], OneShardActions(spec, bytes)[2], s[3])
  {
    WriteIsNothing([ClaimedRecord(spec)]);
    hide LeaseRuns.Next, CommitKey, ClaimedRecord, DoneRecord, AddedRecord;
  }

  lemma OneShardIsAdmissible(spec: TaskSpec, bytes: Bytes, i: nat)
    requires i < 4
    ensures Admissible(OneShardActions(spec, bytes)[i])
  {
    hide CommitKey;
  }

  lemma OneShardShape(spec: TaskSpec, bytes: Bytes)
    ensures |OneShardStates(spec, bytes)| == 5 && |OneShardActions(spec, bytes)| == 4 && OneShardStates(spec, bytes)[0].tasks == []
  {
  }

  lemma ServedInFour(states: seq<Service>, actions: seq<Action>)
    requires |states| == 5 && |actions| == 4 && states[0].tasks == []
    requires forall i :: 0 <= i < 4 ==> Admissible(actions[i])
    requires NextService(false, states[0], actions[0], states[1]) && NextService(false, states[1], actions[1], states[2])
    requires NextService(false, states[2], actions[2], states[3]) && NextService(false, states[3], actions[3], states[4])
    ensures Served(false, states, actions)
  {
    hide NextService, Admissible;
    forall i | 0 <= i < 4 ensures NextService(false, states[i], actions[i], states[i + 1]) {
      assert i == 0 || i == 1 || i == 2 || i == 3;
    }
  }

  lemma OneShardIsServed(spec: TaskSpec, bytes: Bytes)
    requires spec.window > 0
    ensures var h := OneShardLife(spec, bytes); Served(h.enforcing, h.states, h.actions)
  {
    hide OneShardStates, OneShardActions, NextService, Admissible, Served;
    OneShardShape(spec, bytes);
    AddAndClaimOne(spec, bytes);
    WriteOne(spec, bytes);
    OfferOne(spec, bytes);
    forall i | 0 <= i < 4 ensures Admissible(OneShardActions(spec, bytes)[i]) {
      OneShardIsAdmissible(spec, bytes, i);
    }
    ServedInFour(OneShardStates(spec, bytes), OneShardActions(spec, bytes));
  }

  lemma OneShardSucceeds(spec: TaskSpec)
    ensures JobStateOf([DoneRecord(spec)], spec.key.job) == JobSucceeded && HasTask([DoneRecord(spec)], 0, spec.key)
  {
    SucceededMeans([DoneRecord(spec)], spec.key.job);
    hide JobStateOf;
    assert [DoneRecord(spec)][0].spec.key.job == spec.key.job;
  }

  lemma OneIsListed(key: TaskKey, bytes: Bytes)
    ensures var listed := [Listed(CommitKey(key), bytes)];
            ListsJob(listed, map[CommitKey(key) := bytes], key.job) && Picked(listed) == listed
  {
    CommitKeyEnds(key);
    hide EndsWith, CommitKey;
    var listed := [Listed(CommitKey(key), bytes)];
    assert listed[..0] == [] && listed[0].key == CommitKey(key);
  }

  lemma OneIsHonest(h: History, it: Iteration, parse: Bytes -> Option<Json>, spec: TaskSpec, bytes: Bytes)
    requires |it.centroids| >= 1 && |it.shards| == 1 && IsOutput(it, parse, bytes, 0)
    requires h == OneShardLife(spec, bytes) && spec.key == ShardTask("j", it.number, 0)
    ensures HonestWrites(h, it, parse)
  {
    hide IsOutput, CommitKey, TaskId, AddedRecord, ClaimedRecord, DoneRecord;
  }

  lemma OneIsObserved(it: Iteration, parse: Bytes -> Option<Json>, spec: TaskSpec, bytes: Bytes)
    requires |it.centroids| >= 1 && |it.shards| == 1 && IsOutput(it, parse, bytes, 0)
    requires spec.key == ShardTask("j", it.number, 0) && spec.window > 0
    ensures Observed(OneShardLife(spec, bytes), it, parse, [Listed(CommitKey(spec.key), bytes)])
  {
    var h := OneShardLife(spec, bytes);
    var listed := [Listed(CommitKey(spec.key), bytes)];
    OneShardIsServed(spec, bytes);
    OneShardSucceeds(spec);
    OneIsListed(spec.key, bytes);
    OneIsHonest(h, it, parse, spec, bytes);
    OneIsSubmitted(it, h.states[4].tasks);
    OneIsFetched(spec, bytes);
    hide CommitKey, TaskId, Served, Picked, IsOutput, ListsJob, JobStateOf, HasTask, HonestWrites, HonestCommits;
    hide DoneRecord, ClaimedRecord, AddedRecord, Submitted, FetchedIn, OneShardActions;
  }

  lemma OneIsSubmitted(it: Iteration, tasks: Tasks)
    requires |it.shards| == 1 && HasTask(tasks, 0, ShardTask("j", it.number, 0))
    ensures Submitted(tasks, "j", it)
  {
    hide HasTask, TaskId;
    assert Added(tasks, ShardTask("j", it.number, 0));
  }

  lemma OneIsFetched(spec: TaskSpec, bytes: Bytes)
    ensures FetchedIn(OneShardStates(spec, bytes), 4, Listed(CommitKey(spec.key), bytes))
  {
    hide CommitKey, DoneRecord, ClaimedRecord, AddedRecord;
    assert OneShardStates(spec, bytes)[4].files[CommitKey(spec.key)] == bytes;
  }

  /** Such histories exist: a job of one shard, whatever its rows, that its worker can
      read, is added, claimed, run, committed and seen by the driver. */
  lemma AnIterationCanBeServed(it: Iteration, parse: Bytes -> Option<Json>, bytes: Bytes)
    requires |it.centroids| >= 1 && |it.shards| == 1 && IsOutput(it, parse, bytes, 0)
    ensures exists h, listed :: Observed(h, it, parse, listed) && |Picked(listed)| == 1
  {
    var spec := TaskSpec(ShardTask("j", it.number, 0), "", 1, 60);
    OneIsObserved(it, parse, spec, bytes);
    OneIsListed(spec.key, bytes);
    hide *;
  }
}
