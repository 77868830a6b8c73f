// The store class seen from the task manager's protocol: its operations are
// the map operations of the state machine, and its capacity check counts what
// the machine counts.
module TaskStoreView {
  import opened TaskStatuses
  import opened TaskStore
  import opened Wrappers
  import M = TaskManager

  // The fields of a record that the protocol reads.
  function Protocol(info: TaskInfo): M.Record {
    M.Record(info.status, info.retryCount, info.maxRetries)
  }

  ghost predicate Shows(list: seq<TaskInfo>, view: map<TaskId, M.Record>) {
    forall id :: if id in view then Lookup(list, id).Some? && Protocol(Lookup(list, id).value) == view[id]
                 else Lookup(list, id).None?
  }

  // A save is the protocol's map update, a delete its removal.
  lemma SaveShows(list: seq<TaskInfo>, view: map<TaskId, M.Record>, info: TaskInfo)
    requires Shows(list, view)
    ensures Shows(Saved(list, info), view[info.taskId := Protocol(info)])
  {
    forall id ensures Lookup(Saved(list, info), id) == if id == info.taskId then Some(info) else Lookup(list, id) {
      LookupSaved(list, info, id);
    }
  }

  lemma DeleteShows(list: seq<TaskInfo>, view: map<TaskId, M.Record>, id: TaskId)
    requires Shows(list, view)
    ensures Shows(Deleted(list, id), view - {id})
  {
    forall other ensures Lookup(Deleted(list, id), other) == if other == id then None else Lookup(list, other) {
      LookupDeleted(list, id, other);
    }
  }

  function ActiveCount(list: seq<TaskInfo>): nat {
    if list == [] then 0 else (if list[0].status.IsActive() then 1 else 0) + ActiveCount(list[1..])
  }

  ghost predicate AbsentFrom(list: seq<TaskInfo>, id: TaskId) {
    forall x :: x in list ==> x.taskId != id
  }

  // The number of active records is the size of the protocol's active set.
  lemma {:induction false} CountsActiveIds(list: seq<TaskInfo>, view: map<TaskId, M.Record>)
    requires UniqueIds(list) && Shows(list, view)
    ensures ActiveCount(list) == |M.ActiveIds(view)|
  {
    if list == [] {
      assert M.ActiveIds(view) == {};
    } else {
      var first, rest := list[0], view - {list[0].taskId};
      assert AbsentFrom(list[1..], first.taskId);
      LookupAbsent(list[1..], first.taskId);
      forall id ensures Lookup(list, id) == if id == first.taskId then Some(first) else Lookup(list[1..], id) {}
      CountsActiveIds(list[1..], rest);
      if first.status.IsActive() {
        assert M.ActiveIds(view) == M.ActiveIds(rest) + {first.taskId};
      } else {
        assert M.ActiveIds(view) == M.ActiveIds(rest);
      }
    }
  }

  // check_capacity_and_save (src/async_task.rs:1015-1030), with the admission
  // lock held: it refuses exactly when the protocol's count refuses.
  method CheckCapacityAndSave(store: InMemoryTaskStore, maxTasks: nat, info: TaskInfo,
                              ghost view: map<TaskId, M.Record>)
    returns (accepted: bool)
    requires store.Valid() && Shows(store.Records(), view)
    modifies store
    ensures store.Valid()
    ensures accepted <==> |M.ActiveIds(view)| < maxTasks
    ensures accepted <==>
            |set id | id in view && (view[id].status == Pending || view[id].status == Running)| < maxTasks
    ensures accepted ==> Shows(store.Records(), view[info.taskId := Protocol(info)])
    ensures !accepted ==> store.Records() == old(store.Records())
  {
    var current := store.List(None);
    ghost var records := store.Records();
    FilterAll(records, (x: TaskInfo) => HasStatus(x, None));
    store.IdsUnique();
    CountsActiveIds(records, view);
    var active := 0;
    for i := 0 to |current|
      invariant active + ActiveCount(current[i..]) == ActiveCount(current)
    {
      if current[i].status.IsActive() {
        active := active + 1;
      }
      assert current[i..][1..] == current[i + 1..];
    }
    assert M.ActiveIds(view) == set id | id in view && (view[id].status == Pending || view[id].status == Running);
    if active >= maxTasks {
      return false;
    }
    SaveShows(records, view, info);
    store.Save(info);
    accepted := true;
  }
}
