// Task ids and the five states of a task (src/async_task.rs:25-44).
module TaskStatuses {
  datatype TaskStatus = Pending | Running | Completed | Failed | Cancelled {
    predicate IsActive() {
      this == Pending || this == Running
    }

    predicate IsTerminal() {
      this == Completed || this == Failed || this == Cancelled
    }
  }

  type TaskId = nat
}

// InMemoryTaskStore (src/async_task.rs:125-213): a map stamped with sequence
// numbers that behaves as the list of its records in first-save order.
module TaskStore {
  import opened Json
  import opened TaskStatuses
  import opened Wrappers

  datatype TaskInfo = TaskInfo(
    taskId: TaskId,
    moduleId: string,
    status: TaskStatus,
    submittedAt: real,
    startedAt: Option<real>,
    completedAt: Option<real>,
    result: Option<Value>,
    error: Option<string>,
    retryCount: nat,
    maxRetries: nat)

  // ---------------------------------------------------------------------
  // The list the store stands for
  // ---------------------------------------------------------------------

  ghost predicate UniqueIds(list: seq<TaskInfo>) {
    forall i, j :: 0 <= i < j < |list| ==> list[i].taskId != list[j].taskId
  }

  // Overwriting keeps the position of a record; a new one goes to the end.
  ghost function Saved(list: seq<TaskInfo>, info: TaskInfo): seq<TaskInfo> {
    if list == [] then [info]
    else if list[0].taskId == info.taskId then [info] + list[1..]
    else [list[0]] + Saved(list[1..], info)
  }

  function Filter(list: seq<TaskInfo>, keep: TaskInfo -> bool): (r: seq<TaskInfo>)
    ensures forall x :: x in r <==> x in list && keep(x)
  {
    if list == [] then []
    else if keep(list[0]) then [list[0]] + Filter(list[1..], keep)
    else Filter(list[1..], keep)
  }

  ghost function Deleted(list: seq<TaskInfo>, id: TaskId): seq<TaskInfo> {
    Filter(list, (x: TaskInfo) => x.taskId != id)
  }

  ghost function Lookup(list: seq<TaskInfo>, id: TaskId): Option<TaskInfo> {
    if list == [] then None
    else if list[0].taskId == id then Some(list[0])
    else Lookup(list[1..], id)
  }

  // A record that cleanup may sweep: terminal, and completed strictly before.
  predicate Expired(info: TaskInfo, before: real) {
    info.status.IsTerminal() && info.completedAt.Some? && info.completedAt.value < before
  }

  predicate HasStatus(info: TaskInfo, status: Option<TaskStatus>) {
    status.Some? ==> info.status == status.value
  }

  // ---------------------------------------------------------------------
  // The store
  // ---------------------------------------------------------------------

  type Entry = (nat, TaskInfo)

  function Infos(entries: seq<Entry>): (r: seq<TaskInfo>)
    ensures |r| == |entries| && forall i :: 0 <= i < |r| ==> r[i] == entries[i].1
  {
    seq(|entries|, i requires 0 <= i < |entries| => entries[i].1)
  }

  ghost predicate Ascending(entries: seq<Entry>) {
    forall i, j :: 0 <= i < j < |entries| ==> entries[i].0 < entries[j].0
  }

  // sort_by_key, one entry at a time.
  function InsertBySeq(entries: seq<Entry>, e: Entry): (r: seq<Entry>)
    ensures forall x :: x in r <==> x == e || x in entries
  {
    if entries == [] then [e]
    else if e.0 < entries[0].0 then [e] + entries
    else [entries[0]] + InsertBySeq(entries[1..], e)
  }

  lemma {:induction false} InsertKeepsAscending(entries: seq<Entry>, e: Entry)
    requires Ascending(entries) && forall x :: x in entries ==> x.0 != e.0
    ensures Ascending(InsertBySeq(entries, e))
  {
    if entries != [] && e.0 > entries[0].0 {
      InsertKeepsAscending(entries[1..], e);
      var r := InsertBySeq(entries[1..], e);
      forall j | 0 <= j < |r| ensures entries[0].0 < r[j].0 {
        assert r[j] in r;
      }
    }
  }

  // The record looked up is the one with the id, of which there is one at most.
  lemma {:induction false} LookupIs(list: seq<TaskInfo>, id: TaskId)
    requires UniqueIds(list)
    ensures forall x :: Lookup(list, id) == Some(x) <==> x in list && x.taskId == id
  {
    if list != [] {
      LookupIs(list[1..], id);
      assert list == [list[0]] + list[1..];
      forall x | x in list[1..] ensures x.taskId != list[0].taskId {
        var k :| 0 <= k < |list[1..]| && list[1..][k] == x;
        assert list[k + 1] == x;
      }
    }
  }

  // A save puts the record in for any other of its id; a delete takes the
  // records of the id out.
  lemma SavedHolds(list: seq<TaskInfo>, info: TaskInfo, x: TaskInfo)
    requires UniqueIds(list)
    ensures x in Saved(list, info) <==> x == info || (x in list && x.taskId != info.taskId)
  {
    if i :| 0 <= i < |list| && list[i].taskId == info.taskId {
      SavedAt(list, i, info);
      if x in list && x.taskId != info.taskId {
        var k :| 0 <= k < |list| && list[k] == x;
        assert Saved(list, info)[k] == x;
      }
      assert Saved(list, info)[i] == info;
    } else {
      SavedNew(list, info);
    }
  }

  lemma DeletedHolds(list: seq<TaskInfo>, id: TaskId, x: TaskInfo)
    ensures x in Deleted(list, id) <==> x in list && x.taskId != id
  {
  }

  // Ascending sequences with the same elements are the same.
  lemma {:induction false} AscendingIsUnique(a: seq<Entry>, b: seq<Entry>)
    requires Ascending(a) && Ascending(b) && forall x :: x in a <==> x in b
    ensures a == b
  {
    assert a != [] ==> a[0] in b;
    assert b != [] ==> b[0] in a;
    if a != [] {
      assert a[0] == b[0];
      forall x ensures x in a[1..] <==> x in b[1..] {
        assert x in a <==> x in b;
        assert x in a[1..] ==> x.0 > a[0].0;
        assert x in b[1..] ==> x.0 > b[0].0;
      }
      AscendingIsUnique(a[1..], b[1..]);
    }
  }

  // The entries whose records pass, in order.
  function FilterEntries(entries: seq<Entry>, keep: TaskInfo -> bool): (r: seq<Entry>)
    ensures forall x :: x in r <==> x in entries && keep(x.1)
  {
    if entries == [] then []
    else if keep(entries[0].1) then [entries[0]] + FilterEntries(entries[1..], keep)
    else FilterEntries(entries[1..], keep)
  }

  lemma {:induction false} FilterKeepsAscending(entries: seq<Entry>, keep: TaskInfo -> bool)
    requires Ascending(entries)
    ensures Ascending(FilterEntries(entries, keep))
  {
    if entries != [] {
      var r := FilterEntries(entries[1..], keep);
      FilterKeepsAscending(entries[1..], keep);
      forall j | 0 <= j < |r| ensures entries[0].0 < r[j].0 {
        assert r[j] in entries[1..];
      }
    }
  }

  lemma {:induction false} FilterInfos(entries: seq<Entry>, keep: TaskInfo -> bool)
    ensures Infos(FilterEntries(entries, keep)) == Filter(Infos(entries), keep)
  {
    if entries != [] {
      FilterInfos(entries[1..], keep);
      assert Infos(entries) == [entries[0].1] + Infos(entries[1..]);
    }
  }

  // `entries` lists the map by sequence number, and the counter is past them all.
  ghost predicate Lists(entries: seq<Entry>, tasks: map<TaskId, Entry>, nextSeq: nat) {
    && Ascending(entries)
    && (forall id :: id in tasks ==> tasks[id].1.taskId == id && tasks[id] in entries)
    && (forall e :: e in entries ==> e.1.taskId in tasks && tasks[e.1.taskId] == e)
    && (forall e :: e in entries ==> e.0 < nextSeq)
  }

  ghost predicate Mirrors(entries: seq<Entry>, records: seq<TaskInfo>) {
    |records| == |entries| && forall i {:trigger entries[i]} :: 0 <= i < |entries| ==> records[i] == entries[i].1
  }

  lemma MirrorsInfos(entries: seq<Entry>, records: seq<TaskInfo>)
    ensures Mirrors(entries, records) <==> records == Infos(entries)
  {
  }

  lemma IdsAreUnique(entries: seq<Entry>, tasks: map<TaskId, Entry>, nextSeq: nat)
    requires Lists(entries, tasks, nextSeq)
    ensures UniqueIds(Infos(entries))
  {
    forall i, j | 0 <= i < j < |entries| ensures entries[i].1.taskId != entries[j].1.taskId {
      assert entries[i] in entries && entries[j] in entries;
    }
  }

  // Replacing the record of the i-th entry.
  ghost function Replaced(entries: seq<Entry>, i: nat, info: TaskInfo): seq<Entry>
    requires i < |entries|
  {
    entries[i := (entries[i].0, info)]
  }

  lemma ReplacedEntry(entries: seq<Entry>, tasks: map<TaskId, Entry>, nextSeq: nat, i: nat, info: TaskInfo, e: Entry)
    requires Lists(entries, tasks, nextSeq) && i < |entries| && entries[i].1.taskId == info.taskId
    requires e in Replaced(entries, i, info)
    ensures e.0 < nextSeq && (e == (entries[i].0, info) || (e in entries && e.1.taskId != info.taskId))
  {
    var es := Replaced(entries, i, info);
    var j :| 0 <= j < |es| && es[j] == e;
    assert entries[i] in entries && entries[j] in entries;
    if i != j {
      IdsAreUnique(entries, tasks, nextSeq);
      assert Infos(entries)[i].taskId != Infos(entries)[j].taskId;
    }
  }

  lemma ReplacedTask(entries: seq<Entry>, tasks: map<TaskId, Entry>, nextSeq: nat, i: nat, info: TaskInfo, id: TaskId)
    requires Lists(entries, tasks, nextSeq) && i < |entries| && entries[i].1.taskId == info.taskId && id in tasks
    ensures (if id == info.taskId then (entries[i].0, info) else tasks[id]) in Replaced(entries, i, info)
  {
    var es := Replaced(entries, i, info);
    assert es[i] == (entries[i].0, info);
    if id != info.taskId {
      var j :| 0 <= j < |entries| && entries[j] == tasks[id];
      assert es[j] == tasks[id];
    }
  }

  lemma ReplacedLists(entries: seq<Entry>, tasks: map<TaskId, Entry>, nextSeq: nat, i: nat, info: TaskInfo)
    requires Lists(entries, tasks, nextSeq) && i < |entries| && entries[i].1.taskId == info.taskId
    ensures Lists(Replaced(entries, i, info), tasks[info.taskId := (entries[i].0, info)], nextSeq)
  {
    var es, ts := Replaced(entries, i, info), tasks[info.taskId := (entries[i].0, info)];
    assert entries[i] in entries;
    forall e | e in es ensures e.1.taskId in ts && ts[e.1.taskId] == e && e.0 < nextSeq {
      ReplacedEntry(entries, tasks, nextSeq, i, info, e);
    }
    forall id | id in ts ensures ts[id].1.taskId == id && ts[id] in es {
      ReplacedTask(entries, tasks, nextSeq, i, info, id);
    }
  }

  lemma ReplacedIsSaved(entries: seq<Entry>, tasks: map<TaskId, Entry>, nextSeq: nat, i: nat, info: TaskInfo)
    requires Lists(entries, tasks, nextSeq) && i < |entries| && entries[i].1.taskId == info.taskId
    ensures Infos(Replaced(entries, i, info)) == Saved(Infos(entries), info)
  {
    IdsAreUnique(entries, tasks, nextSeq);
    SavedAt(Infos(entries), i, info);
    assert Infos(Replaced(entries, i, info)) == Infos(entries)[i := info];
  }

  lemma Appended(entries: seq<Entry>, tasks: map<TaskId, Entry>, nextSeq: nat, info: TaskInfo)
    requires Lists(entries, tasks, nextSeq) && info.taskId !in tasks
    ensures Lists(entries + [(nextSeq, info)], tasks[info.taskId := (nextSeq, info)], nextSeq + 1)
    ensures Infos(entries + [(nextSeq, info)]) == Saved(Infos(entries), info)
  {
    forall x | x in Infos(entries) ensures x.taskId != info.taskId {
      var i :| 0 <= i < |entries| && entries[i].1 == x;
      assert entries[i] in entries;
    }
    SavedNew(Infos(entries), info);
  }

  lemma {:induction false} LookupFirst(list: seq<TaskInfo>, i: nat, id: TaskId)
    requires i < |list| && list[i].taskId == id && UniqueIds(list)
    ensures Lookup(list, id) == Some(list[i])
  {
    if i > 0 {
      LookupFirst(list[1..], i - 1, id);
    }
  }

  lemma {:induction false} LookupAbsent(list: seq<TaskInfo>, id: TaskId)
    requires forall x :: x in list ==> x.taskId != id
    ensures Lookup(list, id) == None
  {
    if list != [] {
      assert list[0] in list;
      LookupAbsent(list[1..], id);
    }
  }

  lemma LookupInEntries(entries: seq<Entry>, tasks: map<TaskId, Entry>, nextSeq: nat, id: TaskId)
    requires Lists(entries, tasks, nextSeq)
    ensures Lookup(Infos(entries), id) == if id in tasks then Some(tasks[id].1) else None
  {
    IdsAreUnique(entries, tasks, nextSeq);
    if id in tasks {
      var i :| 0 <= i < |entries| && entries[i] == tasks[id];
      LookupFirst(Infos(entries), i, id);
    } else {
      forall x | x in Infos(entries) ensures x.taskId != id {
        var i :| 0 <= i < |entries| && entries[i].1 == x;
        assert entries[i] in entries;
      }
      LookupAbsent(Infos(entries), id);
    }
  }

  ghost function Without(entries: seq<Entry>, id: TaskId): seq<Entry> {
    FilterEntries(entries, (x: TaskInfo) => x.taskId != id)
  }

  lemma RemovedLists(entries: seq<Entry>, tasks: map<TaskId, Entry>, nextSeq: nat, id: TaskId)
    requires Lists(entries, tasks, nextSeq)
    ensures Lists(Without(entries, id), tasks - {id}, nextSeq)
  {
    FilterKeepsAscending(entries, (x: TaskInfo) => x.taskId != id);
  }

  lemma RemovedMirrors(entries: seq<Entry>, records: seq<TaskInfo>, id: TaskId)
    requires Mirrors(entries, records)
    ensures Mirrors(Without(entries, id), Deleted(records, id))
  {
    MirrorsInfos(entries, records);
    FilterInfos(entries, (x: TaskInfo) => x.taskId != id);
    MirrorsInfos(Without(entries, id), Deleted(records, id));
  }

  class InMemoryTaskStore {
    var tasks: map<TaskId, Entry>
    var nextSeq: nat
    // The entries in first-save order, and their records.
    ghost var entries: seq<Entry>
    ghost var records: seq<TaskInfo>

    ghost predicate Valid()
      reads this
    {
      Lists(entries, tasks, nextSeq) && Mirrors(entries, records)
    }

    ghost function Records(): seq<TaskInfo>
      reads this
    {
      records
    }

    constructor ()
      ensures Valid() && Records() == []
    {
      tasks, nextSeq, entries, records := map[], 0, [], [];
    }

    method Save(info: TaskInfo)
      requires Valid()
      modifies this
      ensures Valid() && Records() == Saved(old(Records()), info)
    {
      if info.taskId in tasks {
        MirrorsInfos(entries, records);
        ghost var i :| 0 <= i < |entries| && entries[i] == tasks[info.taskId];
        ReplacedLists(entries, tasks, nextSeq, i, info);
        ReplacedIsSaved(entries, tasks, nextSeq, i, info);
        MirrorsInfos(Replaced(entries, i, info), Saved(records, info));
        entries, records := Replaced(entries, i, info), Saved(records, info);
        tasks := tasks[info.taskId := (tasks[info.taskId].0, info)];
      } else {
        MirrorsInfos(entries, records);
        Appended(entries, tasks, nextSeq, info);
        MirrorsInfos(entries + [(nextSeq, info)], Saved(records, info));
        tasks := tasks[info.taskId := (nextSeq, info)];
        entries, records := entries + [(nextSeq, info)], Saved(records, info);
        nextSeq := nextSeq + 1;
      }
    }

    method Get(id: TaskId) returns (r: Option<TaskInfo>)
      requires Valid()
      ensures r == Lookup(Records(), id)
    {
      r := if id in tasks then Some(tasks[id].1) else None;
      MirrorsInfos(entries, records);
      LookupInEntries(entries, tasks, nextSeq, id);
    }

    lemma IdsUnique()
      requires Valid()
      ensures UniqueIds(Records())
    {
      MirrorsInfos(entries, records);
      IdsAreUnique(entries, tasks, nextSeq);
    }

    // Walks the map in any order, keeps what passes, sorts by sequence number.
    method Collect(keep: TaskInfo -> bool) returns (r: seq<TaskInfo>)
      requires Valid()
      ensures r == Filter(Records(), keep)
    {
      var out: seq<Entry> := [];
      var ids := tasks.Keys;
      while ids != {}
        invariant ids <= tasks.Keys && Ascending(out)
        invariant forall e :: e in out <==> e in entries && keep(e.1) && e.1.taskId !in ids
        decreases |ids|
      {
        var id :| id in ids;
        if keep(tasks[id].1) {
          forall x | x in out ensures x.0 != tasks[id].0 {
            OneSeqEach(entries, x, tasks[id]);
          }
          InsertKeepsAscending(out, tasks[id]);
          out := InsertBySeq(out, tasks[id]);
        }
        ids := ids - {id};
      }
      MirrorsInfos(entries, records);
      FilterKeepsAscending(entries, keep);
      FilterInfos(entries, keep);
      AscendingIsUnique(out, FilterEntries(entries, keep));
      r := Infos(out);
    }

    method List(status: Option<TaskStatus>) returns (r: seq<TaskInfo>)
      requires Valid()
      ensures r == Filter(Records(), (x: TaskInfo) => HasStatus(x, status))
      ensures forall x :: x in r <==> x in Records() && (status.Some? ==> x.status == status.value)
    {
      r := Collect((x: TaskInfo) => HasStatus(x, status));
    }

    method ListExpired(before: real) returns (r: seq<TaskInfo>)
      requires Valid()
      ensures r == Filter(Records(), (x: TaskInfo) => Expired(x, before))
      ensures forall x :: x in r <==>
        && x in Records() && (x.status == Completed || x.status == Failed || x.status == Cancelled)
        && x.completedAt.Some? && x.completedAt.value < before
    {
      r := Collect((x: TaskInfo) => Expired(x, before));
    }

    method Delete(id: TaskId)
      requires Valid()
      modifies this
      ensures Valid() && Records() == Deleted(old(Records()), id)
    {
      RemovedLists(entries, tasks, nextSeq, id);
      RemovedMirrors(entries, records, id);
      tasks, entries, records := tasks - {id}, Without(entries, id), Deleted(records, id);
    }
  }

  lemma OneSeqEach(entries: seq<Entry>, x: Entry, y: Entry)
    requires Ascending(entries) && x in entries && y in entries && x != y
    ensures x.0 != y.0
  {
    var i :| 0 <= i < |entries| && entries[i] == x;
    var j :| 0 <= j < |entries| && entries[j] == y;
  }

  // ---------------------------------------------------------------------
  // What the list does over saves and deletes
  // ---------------------------------------------------------------------

  lemma {:induction false} SavedAt(list: seq<TaskInfo>, i: nat, info: TaskInfo)
    requires UniqueIds(list) && i < |list| && list[i].taskId == info.taskId
    ensures Saved(list, info) == list[i := info]
  {
    if i > 0 {
      SavedAt(list[1..], i - 1, info);
    }
  }

  lemma {:induction false} SavedNew(list: seq<TaskInfo>, info: TaskInfo)
    requires forall x :: x in list ==> x.taskId != info.taskId
    ensures Saved(list, info) == list + [info]
  {
    if list != [] {
      assert list[0] in list;
      SavedNew(list[1..], info);
    }
  }

  lemma {:induction false} FilterAll(list: seq<TaskInfo>, keep: TaskInfo -> bool)
    requires forall x :: x in list ==> keep(x)
    ensures Filter(list, keep) == list
  {
    if list != [] {
      assert list[0] in list;
      FilterAll(list[1..], keep);
    }
  }

  lemma {:induction false} FilterSplits(a: seq<TaskInfo>, b: seq<TaskInfo>, keep: TaskInfo -> bool)
    ensures Filter(a + b, keep) == Filter(a, keep) + Filter(b, keep)
  {
    if a == [] {
      assert a + b == b;
    } else {
      assert (a + b)[1..] == a[1..] + b;
      FilterSplits(a[1..], b, keep);
    }
  }

  // A record keeps its place under overwriting, whatever it turns into.
  lemma OverwriteKeepsPosition(list: seq<TaskInfo>, info: TaskInfo)
    requires UniqueIds(list) && exists x :: x in list && x.taskId == info.taskId
    ensures |Saved(list, info)| == |list|
    ensures forall k :: 0 <= k < |list| ==>
      Saved(list, info)[k] == if list[k].taskId == info.taskId then info else list[k]
  {
    var x :| x in list && x.taskId == info.taskId;
    var i :| 0 <= i < |list| && list[i] == x;
    SavedAt(list, i, info);
  }

  // Deleting takes exactly the one record and keeps the order of the rest;
  // saving it again puts it at the end.
  lemma DeleteThenSave(list: seq<TaskInfo>, i: nat, info: TaskInfo)
    requires UniqueIds(list) && i < |list| && list[i].taskId == info.taskId
    ensures Deleted(list, info.taskId) == list[..i] + list[i + 1..]
    ensures Saved(Deleted(list, info.taskId), info) == list[..i] + list[i + 1..] + [info]
  {
    var keep := (x: TaskInfo) => x.taskId != info.taskId;
    assert list == list[..i] + ([list[i]] + list[i + 1..]);
    FilterSplits(list[..i], [list[i]] + list[i + 1..], keep);
    FilterAll(list[..i], keep);
    FilterAll(list[i + 1..], keep);
    assert ([list[i]] + list[i + 1..])[1..] == list[i + 1..];
    SavedNew(Deleted(list, info.taskId), info);
  }

  // `part` is `list` with some elements left out: its k-th element sits at
  // position p[k], and the positions ascend.
  ghost predicate PartAt(p: seq<nat>, part: seq<TaskInfo>, list: seq<TaskInfo>) {
    && |p| == |part|
    && (forall k {:trigger p[k]} :: 0 <= k < |p| ==> p[k] < |list| && list[p[k]] == part[k])
    && (forall k, l :: 0 <= k < l < |p| ==> p[k] < p[l])
  }

  function Shifted(p: seq<nat>): (r: seq<nat>)
    ensures |r| == |p| && forall k :: 0 <= k < |p| ==> r[k] == p[k] + 1
  {
    seq(|p|, k requires 0 <= k < |p| => p[k] + 1)
  }

  lemma PartBehind(p: seq<nat>, part: seq<TaskInfo>, list: seq<TaskInfo>)
    requires list != [] && PartAt(p, part, list[1..])
    ensures PartAt(Shifted(p), part, list)
  {
    forall k | 0 <= k < |p| ensures Shifted(p)[k] < |list| && list[Shifted(p)[k]] == part[k] {
      assert list[1..][p[k]] == part[k];
    }
  }

  lemma PartWithFirst(p: seq<nat>, part: seq<TaskInfo>, list: seq<TaskInfo>)
    requires list != [] && PartAt(p, part, list[1..])
    ensures PartAt([0] + Shifted(p), [list[0]] + part, list)
  {
    PartBehind(p, part, list);
    var q, r := Shifted(p), [0] + Shifted(p);
    forall k | 0 <= k < |r| ensures r[k] < |list| && list[r[k]] == ([list[0]] + part)[k] {
      assert k > 0 ==> r[k] == q[k - 1];
    }
  }

  // A listing is the part of the list that passes, in the list's own order.
  lemma {:induction false} FilterIsInOrder(list: seq<TaskInfo>, keep: TaskInfo -> bool) returns (p: seq<nat>)
    ensures PartAt(p, Filter(list, keep), list)
  {
    if list == [] {
      p := [];
    } else {
      var q := FilterIsInOrder(list[1..], keep);
      if keep(list[0]) {
        PartWithFirst(q, Filter(list[1..], keep), list);
        p := [0] + Shifted(q);
      } else {
        PartBehind(q, Filter(list[1..], keep), list);
        p := Shifted(q);
      }
    }
  }

  // Listed as expired is exactly what was over, in one way or another, strictly
  // before the time; so never a record that is pending or running.
  lemma ExpiredAreTerminal(list: seq<TaskInfo>, before: real, x: TaskInfo)
    ensures x in Filter(list, (x: TaskInfo) => Expired(x, before)) <==>
            && x in list && (x.status == Completed || x.status == Failed || x.status == Cancelled)
            && x.completedAt.Some? && x.completedAt.value < before
    ensures x in Filter(list, (x: TaskInfo) => Expired(x, before)) ==> x.status != Pending && x.status != Running
  {
  }

  // What is listed for one time is listed for any later one, and what was
  // completed at the time or after it is not listed for it.
  lemma ExpiredStaysExpired(list: seq<TaskInfo>, before: real, later: real, x: TaskInfo)
    requires before <= later
    ensures x in Filter(list, (x: TaskInfo) => Expired(x, before)) ==>
      x in Filter(list, (x: TaskInfo) => Expired(x, later))
    ensures x.completedAt.Some? && x.completedAt.value >= before ==>
      x !in Filter(list, (x: TaskInfo) => Expired(x, before))
  {
  }

  // ---------------------------------------------------------------------
  // Over any run of saves and deletes
  // ---------------------------------------------------------------------

  datatype Op = SaveOp(info: TaskInfo) | DeleteOp(id: TaskId)

  ghost function After(ops: seq<Op>): seq<TaskInfo> {
    if ops == [] then []
    else
      var list := After(ops[..|ops| - 1]);
      match ops[|ops| - 1]
      case SaveOp(info) => Saved(list, info)
      case DeleteOp(id) => Deleted(list, id)
  }

  // The record that a run leaves for `id`: the last one saved, unless it was
  // deleted since.
  ghost function Latest(ops: seq<Op>, id: TaskId): Option<TaskInfo> {
    if ops == [] then None
    else
      match ops[|ops| - 1]
      case SaveOp(info) => if info.taskId == id then Some(info) else Latest(ops[..|ops| - 1], id)
      case DeleteOp(d) => if d == id then None else Latest(ops[..|ops| - 1], id)
  }

  // It is the record of a save of this id behind which nothing is done to it.
  lemma {:induction false} LatestIs(ops: seq<Op>, id: TaskId, info: TaskInfo)
    ensures Latest(ops, id) == Some(info) <==>
            exists n :: 0 <= n < |ops| && ops[n] == SaveOp(info) && info.taskId == id
              && forall k :: n < k < |ops| ==>
                   match ops[k]
                   case SaveOp(other) => other.taskId != id
                   case DeleteOp(d) => d != id
    decreases |ops|
  {
    if ops != [] {
      var last := |ops| - 1;
      LatestIs(ops[..last], id, info);
      if Latest(ops, id) == Some(info) && ops[last] != SaveOp(info) {
        var n :| 0 <= n < last && ops[..last][n] == SaveOp(info) && info.taskId == id
                 && forall k :: n < k < last ==>
                      match ops[..last][k]
                      case SaveOp(other) => other.taskId != id
                      case DeleteOp(d) => d != id;
        assert ops[n] == SaveOp(info);
      }
      if n :| 0 <= n < last && ops[n] == SaveOp(info) && info.taskId == id
              && forall k :: n < k < |ops| ==>
                   match ops[k]
                   case SaveOp(other) => other.taskId != id
                   case DeleteOp(d) => d != id
      {
        assert ops[..last][n] == SaveOp(info);
      }
    }
  }

  lemma {:induction false} LookupSaved(list: seq<TaskInfo>, info: TaskInfo, id: TaskId)
    ensures Lookup(Saved(list, info), id) == if id == info.taskId then Some(info) else Lookup(list, id)
  {
    if list != [] && list[0].taskId != info.taskId {
      LookupSaved(list[1..], info, id);
    }
  }

  lemma {:induction false} LookupDeleted(list: seq<TaskInfo>, d: TaskId, id: TaskId)
    ensures Lookup(Deleted(list, d), id) == if id == d then None else Lookup(list, id)
  {
    if list != [] {
      LookupDeleted(list[1..], d, id);
    }
  }

  lemma SavedIsUnique(list: seq<TaskInfo>, info: TaskInfo)
    requires UniqueIds(list)
    ensures UniqueIds(Saved(list, info))
  {
    if i :| 0 <= i < |list| && list[i].taskId == info.taskId {
      SavedAt(list, i, info);
    } else {
      SavedNew(list, info);
    }
  }

  lemma DeletedIsUnique(list: seq<TaskInfo>, id: TaskId)
    requires UniqueIds(list)
    ensures UniqueIds(Deleted(list, id))
  {
    var part := Deleted(list, id);
    var p := FilterIsInOrder(list, (x: TaskInfo) => x.taskId != id);
    forall i, j | 0 <= i < j < |part| ensures part[i].taskId != part[j].taskId {
      assert p[i] < p[j] && list[p[i]] == part[i] && list[p[j]] == part[j];
    }
  }

  // After any run the list holds each id at most once, and for each id exactly
  // the record last saved and not deleted since.
  lemma {:induction false} RunIsLatest(ops: seq<Op>, id: TaskId)
    ensures UniqueIds(After(ops))
    ensures Lookup(After(ops), id) == Latest(ops, id)
  {
    if ops != [] {
      var rest := ops[..|ops| - 1];
      RunIsLatest(rest, id);
      match ops[|ops| - 1] {
        case SaveOp(info) =>
          SavedIsUnique(After(rest), info);
          LookupSaved(After(rest), info, id);
        case DeleteOp(d) =>
          DeletedIsUnique(After(rest), d);
          LookupDeleted(After(rest), d, id);
      }
    }
  }
}
