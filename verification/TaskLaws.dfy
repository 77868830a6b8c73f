// What the background task manager promises, over every interleaving of
// submissions, workers, cancellations, cleanups and token steps.
module TaskLaws {
  import opened TaskStatuses
  import opened TaskManager
  import opened TaskProofs
  import opened TaskTokens
  import opened TaskExtras
  import T = CancelTokens

  ghost predicate StepsAt(run: seq<State>, i: nat)
    requires i < |run| - 1
  {
    Next(run[i], run[i + 1])
  }

  ghost predicate IsRun(run: seq<State>) {
    && run != [] && IsInitial(run[0])
    && forall i: nat :: i < |run| - 1 ==> StepsAt(run, i)
  }

  ghost predicate Reachable(s: State) {
    exists run :: IsRun(run) && run[|run| - 1] == s
  }

  lemma InitialInv(s: State)
    requires IsInitial(s)
    ensures FullInv(s)
  {
    InitialLife(s);
  }

  lemma StepKeepsFullInv(s: State, step: Step)
    requires FullInv(s) && Enabled(s, step)
    ensures FullInv(Apply(s, step))
  {
    StepKeepsInv(s, step);
    AdmissionStays(s, step);
    OneTrueStays(s, step);
    TokensStayGivenBack(s, step);
    TokensStayKept(s, step);
  }

  lemma NextKeepsFullInv(s: State, t: State)
    requires FullInv(s) && Next(s, t)
    ensures FullInv(t)
  {
    var step :| Enabled(s, step) && t == Apply(s, step);
    StepKeepsFullInv(s, step);
  }

  lemma {:induction false} RunKeepsInv(run: seq<State>, n: nat)
    requires IsRun(run) && n < |run|
    ensures FullInv(run[n])
  {
    if n == 0 {
      InitialInv(run[0]);
    } else {
      RunKeepsInv(run, n - 1);
      assert StepsAt(run, n - 1);
      NextKeepsFullInv(run[n - 1], run[n]);
    }
  }

  lemma ReachableInv(s: State)
    requires Reachable(s)
    ensures FullInv(s)
  {
    var run :| IsRun(run) && run[|run| - 1] == s;
    RunKeepsInv(run, |run| - 1);
  }

  // ---------------------------------------------------------------------
  // The life of a record
  // ---------------------------------------------------------------------

  lemma NextMoves(s: State, t: State, id: TaskId)
    requires FullInv(s) && Next(s, t) && id in s.tasks
    ensures Moves(s, t, id)
  {
    var step :| Enabled(s, step) && t == Apply(s, step);
    TaskStep(s, step, id);
  }

  lemma RunMoves(run: seq<State>, n: nat, id: TaskId)
    requires IsRun(run) && n < |run| - 1 && id in run[n].tasks
    ensures Moves(run[n], run[n + 1], id)
  {
    RunKeepsInv(run, n);
    assert StepsAt(run, n);
    NextMoves(run[n], run[n + 1], id);
  }

  // From the moment a saved record is terminal or deleted, it is never written
  // again: at any later moment it is gone, or is field for field what it was.
  lemma {:induction false} ClosedForEver(run: seq<State>, i: nat, j: nat, id: TaskId)
    requires IsRun(run) && i <= j < |run|
    requires id in run[i].tasks && run[i].tasks[id].Saved() && Closed(run[i].store, id)
    ensures id in run[j].tasks && run[j].tasks[id].Saved() && ClosedStays(run[i].store, run[j].store, id)
  {
    if i < j {
      ClosedForEver(run, i, j - 1, id);
      RunMoves(run, j - 1, id);
    }
  }

  // A terminal status is left only by deletion.
  lemma TerminalIsFinal(run: seq<State>, i: nat, j: nat, id: TaskId)
    requires IsRun(run) && i <= j < |run|
    requires id in run[i].store && run[i].store[id].status.IsTerminal()
    ensures id in run[j].store ==> run[j].store[id] == run[i].store[id]
  {
    RunKeepsInv(run, i);
    assert TaskOk(run[i].store, run[i].handles, id, run[i].tasks[id]);
    ClosedForEver(run, i, j, id);
  }

  // A deleted record never returns.
  lemma DeletedStaysDeleted(run: seq<State>, i: nat, j: nat, k: nat, id: TaskId)
    requires IsRun(run) && i <= j <= k < |run|
    requires id in run[i].store && id !in run[j].store
    ensures id !in run[k].store
  {
    RunKeepsInv(run, i);
    assert TaskOk(run[i].store, run[i].handles, id, run[i].tasks[id]);
    SavedStays(run, i, j, id);
    ClosedForEver(run, j, k, id);
  }

  lemma {:induction false} SavedStays(run: seq<State>, i: nat, j: nat, id: TaskId)
    requires IsRun(run) && i <= j < |run| && id in run[i].tasks && run[i].tasks[id].Saved()
    ensures id in run[j].tasks && run[j].tasks[id].Saved()
  {
    if i < j {
      SavedStays(run, i, j - 1, id);
      RunMoves(run, j - 1, id);
    }
  }

  // Whatever a worker writes, it writes over its own active record: the
  // window between its last look and its save never meets a cancellation.
  lemma WorkerWritesActive(s: State, id: TaskId, step: WorkStep)
    requires Reachable(s) && WorkEnabled(s, id, step) && (step.SaveRunning? || step.SaveRetry? || step.SaveTerminal?)
    ensures StillActive(s.store, id)
  {
    ReachableInv(s);
    assert TaskOk(s.store, s.handles, id, s.tasks[id]);
  }

  // `cancel` overwrites an active record with the very copy it last read, and
  // only when the worker is gone; so Completed and Failed are never replaced.
  lemma CancelOverwritesActive(s: State, c: CancelId)
    requires Reachable(s) && CancelEnabled(s, c, Overwrite)
    ensures
      var id := s.cancels[c].task;
      StillActive(s.store, id) && s.store[id] == s.cancels[c].info && s.tasks[id].worker.Ended?
  {
    ReachableInv(s);
    assert CancelOk(s, c, s.cancels[c]);
  }

  // The i-th move of a run is this step.
  ghost predicate StepIs(run: seq<State>, i: nat, step: Step)
    requires i < |run| - 1
  {
    T.TreeOk(run[i].tok.tree) && Enabled(run[i], step) && run[i + 1] == Apply(run[i], step)
  }

  // `cancel` answers false only for a record that is gone or terminal, and
  // that it stays.
  lemma FalseIsFinal(run: seq<State>, i: nat, j: nat, c: CancelId, move: CancelStep)
    requires IsRun(run) && i < j < |run| && StepIs(run, i, Cancel(c, move))
    requires NextCanceller(run[i], c, move) == Done(run[i].cancels[c].task, false)
    ensures Closed(run[i].store, run[i].cancels[c].task) && Closed(run[j].store, run[i].cancels[c].task)
  {
    var id := run[i].cancels[c].task;
    assert run[i].tasks[id].Saved() by {
      RunKeepsInv(run, i);
      assert CancelOk(run[i], c, run[i].cancels[c]);
    }
    ClosedForEver(run, i, j, id);
  }

  // At most one cancellation of a task ever answers true.
  lemma AtMostOneTrue(s: State, c: CancelId, d: CancelId)
    requires Reachable(s) && c in s.cancels && d in s.cancels && s.cancels[c].task == s.cancels[d].task
    requires SaysTrue(s.cancels[c]) && SaysTrue(s.cancels[d])
    ensures c == d
  {
    ReachableInv(s);
  }

  // Once `cancel` has answered true, a task never shows another outcome.
  lemma TrueMeansCancelled(s: State, c: CancelId)
    requires Reachable(s) && c in s.cancels && SaysTrue(s.cancels[c])
    ensures s.cancels[c].task in s.store ==> s.store[s.cancels[c].task].status == Cancelled
  {
    ReachableInv(s);
    assert CancelOk(s, c, s.cancels[c]);
  }

  // No reachable state holds more than max_tasks active records.
  lemma CapacityHolds(s: State)
    requires Reachable(s)
    ensures |ActiveIds(s.store)| <= s.maxTasks
  {
    ReachableInv(s);
  }

  // The join handle of a submitted task is in the map, or a canceller has it,
  // for as long as the task may write; a worker that ended unaborted leaves
  // no handle behind.
  lemma HandlesFollowWorkers(s: State, id: TaskId)
    requires Reachable(s) && id in s.tasks
    ensures s.tasks[id].submission.Submitted? && s.tasks[id].worker.Writing() ==>
      id in s.handles || Held(s.cancels, s.cancelLock, id)
    ensures s.tasks[id].worker.Ended? && !s.tasks[id].abortAsked ==> id !in s.handles
  {
    ReachableInv(s);
    assert TaskOk(s.store, s.handles, id, s.tasks[id]) && HandleOk(s, id);
  }

  // Nothing is left behind in the token map by a worker that ended unaborted,
  // nor by a cancellation that answered true.
  lemma TokensFollowWorkers(s: State, id: TaskId)
    requires Reachable(s) && id in s.tasks
    requires
      || (s.tasks[id].worker.Ended? && !s.tasks[id].abortAsked)
      || (exists c :: c in s.cancels && SaysTrue(s.cancels[c]) && s.cancels[c].task == id)
    ensures id !in s.tokens
  {
    ReachableInv(s);
  }
}
