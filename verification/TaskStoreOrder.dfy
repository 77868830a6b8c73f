// The order of the store's listing, over any run of saves and deletes: records
// stand in the order in which their ids were first saved since their last
// deletion.
module TaskStoreOrder {
  import opened TaskStatuses
  import opened TaskStore

  predicate Saves(op: Op, id: TaskId) {
    op.SaveOp? && op.info.taskId == id
  }

  predicate Deletes(op: Op, id: TaskId) {
    op.DeleteOp? && op.id == id
  }

  ghost predicate DeletedBetween(ops: seq<Op>, id: TaskId, m: nat, n: nat) {
    exists d :: m <= d < n <= |ops| && Deletes(ops[d], id)
  }

  // The n-th operation is the first save of `id` since its last deletion.
  ghost predicate EntersAt(ops: seq<Op>, id: TaskId, n: nat) {
    && n < |ops| && Saves(ops[n], id) && !DeletedBetween(ops, id, n, |ops|)
    && forall k: nat :: k < n && Saves(ops[k], id) ==> DeletedBetween(ops, id, k, n)
  }

  ghost predicate Listed(ops: seq<Op>, id: TaskId) {
    Latest(ops, id).Some?
  }

  lemma PrefixDeletes(ops: seq<Op>, rest: seq<Op>, id: TaskId, m: nat, n: nat)
    requires rest <= ops && n <= |rest|
    ensures DeletedBetween(ops, id, m, n) <==> DeletedBetween(rest, id, m, n)
  {
    if DeletedBetween(ops, id, m, n) {
      var d :| m <= d < n <= |ops| && Deletes(ops[d], id);
      assert Deletes(rest[d], id);
    }
    if DeletedBetween(rest, id, m, n) {
      var d :| m <= d < n <= |rest| && Deletes(rest[d], id);
      assert Deletes(ops[d], id);
    }
  }

  // What entered and was not deleted by the last operation had entered before.
  lemma EntersEarlier(ops: seq<Op>, id: TaskId, n: nat)
    requires n < |ops| - 1
    ensures EntersAt(ops, id, n) <==> EntersAt(ops[..|ops| - 1], id, n) && !Deletes(ops[|ops| - 1], id)
  {
    var rest := ops[..|ops| - 1];
    forall k: nat | k < n ensures DeletedBetween(ops, id, k, n) <==> DeletedBetween(rest, id, k, n) {
      PrefixDeletes(ops, rest, id, k, n);
    }
    PrefixDeletes(ops, rest, id, n, |rest|);
    if DeletedBetween(ops, id, n, |ops|) {
      var d :| n <= d < |ops| && Deletes(ops[d], id);
      assert d < |rest| ==> DeletedBetween(ops, id, n, |rest|);
    }
    if DeletedBetween(ops, id, n, |rest|) {
      var d :| n <= d < |rest| && Deletes(ops[d], id);
      assert DeletedBetween(ops, id, n, |ops|);
    }
    assert Deletes(ops[|ops| - 1], id) ==> DeletedBetween(ops, id, n, |ops|);
  }

  // There is one such operation at most.
  lemma EntersOnce(ops: seq<Op>, id: TaskId, m: nat, n: nat)
    requires EntersAt(ops, id, m) && EntersAt(ops, id, n)
    ensures m == n
  {
  }

  // Nothing of `id` is in the list: all that was saved was deleted.
  lemma {:induction false} UnlistedIsDeleted(ops: seq<Op>, id: TaskId, k: nat)
    requires !Listed(ops, id) && k < |ops| && Saves(ops[k], id)
    ensures DeletedBetween(ops, id, k, |ops|)
  {
    var last := |ops| - 1;
    if !Deletes(ops[last], id) {
      UnlistedIsDeleted(ops[..last], id, k);
      PrefixDeletes(ops, ops[..last], id, k, last);
      var d :| k <= d < last && Deletes(ops[d], id);
    }
  }

  // An id is listed exactly when it has entered.
  lemma {:induction false} ListedHasEntered(ops: seq<Op>, id: TaskId)
    ensures Listed(ops, id) <==> exists n: nat :: EntersAt(ops, id, n)
  {
    if ops != [] {
      var last := |ops| - 1;
      var rest := ops[..last];
      ListedHasEntered(rest, id);
      forall n: nat | n < last ensures EntersAt(ops, id, n) <==> EntersAt(rest, id, n) && !Deletes(ops[last], id) {
        EntersEarlier(ops, id, n);
      }
      if Listed(rest, id) && !Deletes(ops[last], id) {
        var n: nat :| EntersAt(rest, id, n);
        assert EntersAt(ops, id, n);
      }
      if !Listed(rest, id) && Saves(ops[last], id) {
        forall k: nat | k < last && Saves(ops[k], id) ensures DeletedBetween(ops, id, k, last) {
          assert Saves(rest[k], id);
          UnlistedIsDeleted(rest, id, k);
          PrefixDeletes(ops, rest, id, k, last);
        }
        assert EntersAt(ops, id, last);
      }
    }
  }

  // Positions ascend as the first saves do.
  ghost predicate InOrder(ops: seq<Op>) {
    forall i, j, m: nat, n: nat ::
      0 <= i < j < |After(ops)| && EntersAt(ops, After(ops)[i].taskId, m) && EntersAt(ops, After(ops)[j].taskId, n) ==>
        m < n
  }

  lemma {:induction false} LookupPresent(list: seq<TaskInfo>, i: nat)
    requires i < |list|
    ensures Lookup(list, list[i].taskId).Some?
  {
    if i > 0 {
      LookupPresent(list[1..], i - 1);
    }
  }

  lemma {:induction false} LookupFound(list: seq<TaskInfo>, id: TaskId)
    requires Lookup(list, id).Some?
    ensures exists x :: x in list && x.taskId == id
  {
    if list[0].taskId != id {
      LookupFound(list[1..], id);
      var x :| x in list[1..] && x.taskId == id;
    }
  }

  // The last operation of a run, on an id that was listed before it.
  lemma StillEntered(ops: seq<Op>, id: TaskId, n: nat)
    requires ops != [] && EntersAt(ops, id, n) && Listed(ops[..|ops| - 1], id)
    ensures n < |ops| - 1 && EntersAt(ops[..|ops| - 1], id, n)
  {
    var last := |ops| - 1;
    ListedHasEntered(ops[..last], id);
    var m: nat :| EntersAt(ops[..last], id, m);
    PrefixDeletes(ops, ops[..last], id, m, last);
    assert Saves(ops[m], id);
    if n < last {
      EntersEarlier(ops, id, n);
    }
  }

  lemma PositionIsListed(ops: seq<Op>, i: nat)
    requires i < |After(ops)|
    ensures Listed(ops, After(ops)[i].taskId)
  {
    LookupPresent(After(ops), i);
    RunIsLatest(ops, After(ops)[i].taskId);
  }

  // A save moves no id; a new one goes to the end.
  lemma SaveMovesNoId(rest: seq<Op>, info: TaskInfo)
    ensures var was, list := After(rest), Saved(After(rest), info);
      && |list| == |was| + (if Listed(rest, info.taskId) then 0 else 1)
      && (forall i :: 0 <= i < |was| ==> list[i].taskId == was[i].taskId)
      && (!Listed(rest, info.taskId) ==> list[|was|] == info)
  {
    var was := After(rest);
    RunIsLatest(rest, info.taskId);
    if Listed(rest, info.taskId) {
      LookupFound(was, info.taskId);
      OverwriteKeepsPosition(was, info);
    } else {
      forall x | x in was ensures x.taskId != info.taskId {
        var k :| 0 <= k < |was| && was[k] == x;
        LookupPresent(was, k);
      }
      SavedNew(was, info);
    }
  }

  lemma InOrderAfterSave(ops: seq<Op>)
    requires ops != [] && ops[|ops| - 1].SaveOp? && InOrder(ops[..|ops| - 1])
    ensures InOrder(ops)
  {
    var rest, info := ops[..|ops| - 1], ops[|ops| - 1].info;
    var was, list := After(rest), After(ops);
    SaveMovesNoId(rest, info);
    forall i, j, m: nat, n: nat |
      0 <= i < j < |list| && EntersAt(ops, list[i].taskId, m) && EntersAt(ops, list[j].taskId, n)
      ensures m < n
    {
      PositionIsListed(rest, i);
      StillEntered(ops, list[i].taskId, m);
      if j < |was| {
        PositionIsListed(rest, j);
        StillEntered(ops, list[j].taskId, n);
      } else {
        ListedHasEntered(rest, info.taskId);
        if n < |rest| {
          EntersEarlier(ops, info.taskId, n);
        }
      }
    }
  }

  lemma InOrderAfterDelete(ops: seq<Op>)
    requires ops != [] && ops[|ops| - 1].DeleteOp? && InOrder(ops[..|ops| - 1])
    ensures InOrder(ops)
  {
    var rest, id := ops[..|ops| - 1], ops[|ops| - 1].id;
    var was, list := After(rest), After(ops);
    var p := FilterIsInOrder(was, (x: TaskInfo) => x.taskId != id);
    forall i, j, m: nat, n: nat |
      0 <= i < j < |list| && EntersAt(ops, list[i].taskId, m) && EntersAt(ops, list[j].taskId, n)
      ensures m < n
    {
      assert p[i] < p[j] && was[p[i]] == list[i] && was[p[j]] == list[j];
      PositionIsListed(rest, p[i]);
      PositionIsListed(rest, p[j]);
      StillEntered(ops, list[i].taskId, m);
      StillEntered(ops, list[j].taskId, n);
    }
  }

  lemma {:induction false} RunIsInOrder(ops: seq<Op>)
    ensures InOrder(ops)
  {
    if ops != [] {
      RunIsInOrder(ops[..|ops| - 1]);
      if ops[|ops| - 1].SaveOp? {
        InOrderAfterSave(ops);
      } else {
        InOrderAfterDelete(ops);
      }
    }
  }

  // Of two records in the list, one stands before the other exactly when its
  // first save since its last deletion came earlier; both have had such a save.
  lemma OrderIsFirstSave(ops: seq<Op>, i: nat, j: nat) returns (m: nat, n: nat)
    requires i < |After(ops)| && j < |After(ops)|
    ensures EntersAt(ops, After(ops)[i].taskId, m) && EntersAt(ops, After(ops)[j].taskId, n)
    ensures i < j <==> m < n
  {
    var a, b := After(ops)[i].taskId, After(ops)[j].taskId;
    LookupPresent(After(ops), i);
    LookupPresent(After(ops), j);
    RunIsLatest(ops, a);
    RunIsLatest(ops, b);
    ListedHasEntered(ops, a);
    ListedHasEntered(ops, b);
    m :| EntersAt(ops, a, m);
    n :| EntersAt(ops, b, n);
    RunIsInOrder(ops);
    if i == j {
      EntersOnce(ops, a, m, n);
    }
  }
}
