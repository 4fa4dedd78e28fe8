/** The SQLite table behind the durable store, and what it means for the table to
    hold exactly the coordinator's cache. */
module LeaseTable {
  import opened Prelude
  import opened LeaseSpec

  datatype Row = Row(record: Record, seqNo: nat)

  /** Primary key (job, task). */
  type Table = map<TaskKey, Row>

  /** The upsert: a new row takes `seqNo`; a conflicting one keeps its own sequence
      number and its own spec, and takes every other column from `r`. */
  function Upsert(rows: Table, r: Record, seqNo: nat): Table {
    var k := r.spec.key;
    if k in rows then rows[k := Row(r.(spec := rows[k].record.spec), rows[k].seqNo)]
    else rows[k := Row(r, seqNo)]
  }

  ghost predicate UniqueKeys(tasks: Tasks) {
    forall i, j :: 0 <= i < j < |tasks| ==> tasks[i].spec.key != tasks[j].spec.key
  }

  ghost function Keys(tasks: Tasks): set<TaskKey> {
    set i | 0 <= i < |tasks| :: tasks[i].spec.key
  }

  /** Ordered by sequence number, the rows are exactly `tasks`. */
  ghost predicate Synced(rows: Table, tasks: Tasks) {
    && UniqueKeys(tasks)
    && rows.Keys == Keys(tasks)
    && (forall i :: 0 <= i < |tasks| ==> rows[tasks[i].spec.key].record == tasks[i])
    && (forall i, j :: 0 <= i < j < |tasks| ==> rows[tasks[i].spec.key].seqNo < rows[tasks[j].spec.key].seqNo)
  }

  /** No row has been given a number beyond the counter. */
  ghost predicate Numbered(rows: Table, counter: nat) {
    forall k :: k in rows ==> rows[k].seqNo <= counter
  }

  lemma ReplaceSynced(rows: Table, tasks: Tasks, r: Record, i: nat)
    requires Synced(rows, tasks) && i < |tasks| && tasks[i].spec == r.spec
    ensures Synced(Upsert(rows, r, 0), tasks[i := r])
  {
    var p := tasks[i := r];
    ReplacedKeys(tasks, r, i);
    assert r.spec.key in Keys(tasks);
    hide Keys;
    assert rows[r.spec.key].record.spec == r.spec;
    assert forall j :: 0 <= j < |tasks| ==> p[j].spec.key == tasks[j].spec.key;
  }

  lemma ReplacedKeys(tasks: Tasks, r: Record, i: nat)
    requires i < |tasks| && tasks[i].spec.key == r.spec.key
    ensures Keys(tasks[i := r]) == Keys(tasks)
  {
    var p := tasks[i := r];
    forall k | k in Keys(tasks) ensures k in Keys(p) {
      var j :| 0 <= j < |tasks| && tasks[j].spec.key == k;
      assert p[j].spec.key == k;
    }
  }

  lemma AppendSynced(rows: Table, tasks: Tasks, r: Record, counter: nat)
    requires Synced(rows, tasks) && Numbered(rows, counter) && r.spec.key !in rows
    ensures Synced(Upsert(rows, r, counter + 1), tasks + [r])
  {
    var p := tasks + [r];
    forall j | 0 <= j < |tasks| ensures p[j] == tasks[j] && tasks[j].spec.key in Keys(tasks) { }
    assert Keys(p) == Keys(tasks) + {r.spec.key} by {
      assert p[|tasks|] == r;
      forall k | k in Keys(tasks) ensures k in Keys(p) {
        var j :| 0 <= j < |tasks| && tasks[j].spec.key == k;
        assert p[j].spec.key == k;
      }
    }
  }

  lemma PutReplaces(tasks: Tasks, r: Record, i: nat)
    requires UniqueKeys(tasks) && i < |tasks| && tasks[i].spec.key == r.spec.key
    ensures Put(tasks, r) == tasks[i := r] && IndexOf(tasks, r.spec.key) == Some(i)
    ensures UniqueKeys(tasks[i := r])
  {
    FirstIs(tasks, (s: Record) => s.spec.key == r.spec.key, i);
  }

  lemma PutAppends(tasks: Tasks, r: Record)
    requires UniqueKeys(tasks) && IndexOf(tasks, r.spec.key).None?
    ensures Put(tasks, r) == tasks + [r] && UniqueKeys(tasks + [r])
    ensures r.spec.key !in Keys(tasks)
  {
  }

  /** One save keeps table and cache in step: an existing record in place, keeping
      its number; a new one last, taking the next number. */
  lemma UpsertSynced(rows: Table, tasks: Tasks, r: Record, counter: nat)
    requires Synced(rows, tasks) && Numbered(rows, counter)
    requires forall i :: 0 <= i < |tasks| && tasks[i].spec.key == r.spec.key ==> tasks[i].spec == r.spec
    ensures Synced(Upsert(rows, r, counter + 1), Put(tasks, r))
    ensures IndexOf(tasks, r.spec.key).None? ==> Numbered(Upsert(rows, r, counter + 1), counter + 1)
    ensures IndexOf(tasks, r.spec.key).Some? ==> Numbered(Upsert(rows, r, 0), counter)
    ensures IndexOf(tasks, r.spec.key).Some? ==> Upsert(rows, r, 0) == Upsert(rows, r, counter + 1)
  {
    match IndexOf(tasks, r.spec.key)
    case Some(i) =>
      assert tasks[i].spec.key in Keys(tasks);
      ReplaceSynced(rows, tasks, r, i);
    case None =>
      assert r.spec.key !in Keys(tasks);
      AppendSynced(rows, tasks, r, counter);
  }

  lemma LastHasGreatestNumber(rows: Table, tasks: Tasks, k: TaskKey)
    requires Synced(rows, tasks) && k in rows
    ensures tasks != [] && tasks[|tasks| - 1].spec.key in rows
    ensures rows[k].seqNo <= rows[tasks[|tasks| - 1].spec.key].seqNo
    ensures rows[k].seqNo == rows[tasks[|tasks| - 1].spec.key].seqNo ==> k == tasks[|tasks| - 1].spec.key
  {
    assert k in Keys(tasks);
    var i :| 0 <= i < |tasks| && tasks[i].spec.key == k;
    assert tasks[|tasks| - 1].spec.key in Keys(tasks);
  }

  lemma DropLast(rows: Table, a: Tasks)
    requires Synced(rows, a) && a != []
    ensures Synced(rows - {a[|a| - 1].spec.key}, a[..|a| - 1])
  {
    var m := |a| - 1;
    var last := a[m].spec.key;
    forall k ensures k in Keys(a[..m]) <==> k in Keys(a) && k != last {
      if k in Keys(a) && k != last {
        var i :| 0 <= i < |a| && a[i].spec.key == k;
        assert a[..m][i].spec.key == k;
      }
    }
    assert (rows - {last}).Keys == Keys(a[..m]);
  }

  lemma LastAgree(rows: Table, a: Tasks, b: Tasks)
    requires Synced(rows, a) && Synced(rows, b) && a != []
    ensures b != [] && a[|a| - 1] == b[|b| - 1]
  {
    var ka := a[|a| - 1].spec.key;
    assert ka in Keys(a);
    LastHasGreatestNumber(rows, b, ka);
    LastHasGreatestNumber(rows, a, b[|b| - 1].spec.key);
  }

  /** Reading the rows back in sequence order can give only one table. */
  lemma {:induction false} SyncedIsUnique(rows: Table, a: Tasks, b: Tasks)
    requires Synced(rows, a) && Synced(rows, b)
    ensures a == b
    decreases |a|
  {
    hide Synced, Keys, UniqueKeys;
    if a == [] {
      if b != [] { LastAgree(rows, b, a); }
    } else {
      LastAgree(rows, a, b);
      var a', b' := a[..|a| - 1], b[..|b| - 1];
      var rows' := rows - {a[|a| - 1].spec.key};
      assert Synced(rows', a') && Synced(rows', b') by {
        DropLast(rows, a);
        DropLast(rows, b);
      }
      SyncedIsUnique(rows', a', b');
      assert a == a' + [a[|a| - 1]] && b == b' + [b[|b| - 1]];
    }
  }

  lemma FirstRow(rows: Table, tasks: Tasks, k: TaskKey)
    requires Synced(rows, tasks) && k in rows
    ensures tasks != [] && tasks[0].spec.key in rows
    ensures rows[tasks[0].spec.key].seqNo <= rows[k].seqNo
    ensures rows[tasks[0].spec.key].seqNo == rows[k].seqNo ==> k == tasks[0].spec.key
  {
    assert k in Keys(tasks);
    var i :| 0 <= i < |tasks| && tasks[i].spec.key == k;
    assert tasks[0].spec.key in Keys(tasks);
  }

  lemma KeysComplete(tasks: Tasks)
    ensures forall i :: 0 <= i < |tasks| ==> tasks[i].spec.key in Keys(tasks)
    ensures |tasks| > 0 ==> tasks[0].spec.key in Keys(tasks)
  {
  }

  lemma SyncedKeysAreUnique(rows: Table, tasks: Tasks)
    requires Synced(rows, tasks)
    ensures UniqueKeys(tasks)
  {
  }

  lemma EmptySynced(tasks: Tasks)
    requires Synced(map[], tasks)
    ensures tasks == []
  {
    KeysComplete(tasks);
  }

  /** The row with the least number is the first task; the others are the rest. */
  lemma TakeLeast(rows: Table, tasks: Tasks, n: nat, k: TaskKey)
    requires n <= |tasks| && Synced(rows, tasks[n..]) && k in rows
    requires forall k' :: k' in rows ==> rows[k].seqNo <= rows[k'].seqNo
    ensures n < |tasks| && k == tasks[n].spec.key && rows[k].record == tasks[n]
    ensures Synced(rows - {k}, tasks[n + 1..])
  {
    var left := tasks[n..];
    FirstRow(rows, left, k);
    DropFirst(rows, left);
    assert left[1..] == tasks[n + 1..];
  }

  lemma LeastRow(rows: Table, tasks: Tasks)
    requires Synced(rows, tasks) && rows != map[]
    ensures tasks != [] && tasks[0].spec.key in rows
    ensures forall k :: k in rows ==> rows[tasks[0].spec.key].seqNo <= rows[k].seqNo
  {
    var some :| some in rows;
    FirstRow(rows, tasks, some);
    forall k | k in rows ensures rows[tasks[0].spec.key].seqNo <= rows[k].seqNo {
      FirstRow(rows, tasks, k);
    }
  }

  lemma KeysWithoutFirst(a: Tasks)
    requires UniqueKeys(a) && a != []
    ensures forall k :: k in Keys(a[1..]) <==> k in Keys(a) && k != a[0].spec.key
  {
    var first := a[0].spec.key;
    forall k ensures k in Keys(a[1..]) <==> k in Keys(a) && k != first {
      if k in Keys(a) && k != first {
        var i :| 0 <= i < |a| && a[i].spec.key == k;
        assert a[1..][i - 1].spec.key == k;
      }
      if k in Keys(a[1..]) {
        var i :| 0 <= i < |a[1..]| && a[1..][i].spec.key == k;
        assert a[i + 1].spec.key == k;
      }
    }
  }

  lemma DropFirst(rows: Table, a: Tasks)
    requires Synced(rows, a) && a != []
    ensures Synced(rows - {a[0].spec.key}, a[1..])
  {
    KeysWithoutFirst(a);
    hide Keys;
    assert (rows - {a[0].spec.key}).Keys == Keys(a[1..]);
  }

  /** Stands for the query that reads the table back in sequence order. */
  method OrderBySeq(rows: Table, ghost tasks: Tasks) returns (out: seq<Row>)
    requires Synced(rows, tasks)
    ensures |out| == |tasks|
    ensures forall i :: 0 <= i < |out| ==> tasks[i].spec.key in rows && out[i] == rows[tasks[i].spec.key]
    ensures forall i :: 0 <= i < |out| ==> out[i].record == tasks[i]
  {
    hide Synced;
    out := [];
    var remaining := rows;
    while remaining != map[]
      invariant |out| <= |tasks| && Synced(remaining, tasks[|out|..])
      invariant forall k :: k in remaining ==> k in rows && remaining[k] == rows[k]
      invariant forall i :: 0 <= i < |out| ==> tasks[i].spec.key in rows && out[i] == rows[tasks[i].spec.key]
      invariant forall i :: 0 <= i < |out| ==> out[i].record == tasks[i]
      decreases |tasks| - |out|
    {
      LeastRow(remaining, tasks[|out|..]);
      var k :| k in remaining && forall k' :: k' in remaining ==> remaining[k].seqNo <= remaining[k'].seqNo;
      TakeLeast(remaining, tasks, |out|, k);
      out := out + [remaining[k]];
      remaining := remaining - {k};
    }
    EmptySynced(tasks[|out|..]);
  }

  lemma CounterCovers(rows: Table, tasks: Tasks, out: seq<Row>, counter: nat)
    requires Synced(rows, tasks) && |out| == |tasks|
    requires forall i :: 0 <= i < |out| ==> tasks[i].spec.key in rows && out[i] == rows[tasks[i].spec.key]
    requires forall i :: 0 <= i < |out| ==> out[i].seqNo <= counter
    ensures Numbered(rows, counter)
  {
    forall k | k in rows ensures rows[k].seqNo <= counter {
      assert k in Keys(tasks);
      var j :| 0 <= j < |tasks| && tasks[j].spec.key == k;
      assert out[j].seqNo <= counter;
    }
  }
}
