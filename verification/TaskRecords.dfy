// What is written into the task records, over every run: each change of a
// record is one of six, and an outcome is the one the module answered.
module TaskRecords {
  import opened TaskStatuses
  import opened Wrappers
  import opened TaskManager
  import opened TaskProofs
  import opened TaskLaws

  // ---------------------------------------------------------------------
  // What a worker is about to write
  // ---------------------------------------------------------------------

  // It is the record as it is now but for what the write is for.
  predicate WriteIsTied(store: map<TaskId, Record>, id: TaskId, t: Task) {
    match t.worker
    case SavingRunning(info) => id in store && info == store[id].(status := Running)
    case SavingRetry(info) =>
      && id in store && info == store[id].(status := Pending, retryCount := store[id].retryCount + 1)
      && info.retryCount <= t.maxRetries
    case Confirming(info) => id in store && IsOutcome(store[id], info, t)
    case SavingTerminal(info) => id in store && IsOutcome(store[id], info, t)
    case _ => true
  }

  // The task has failed for good only when its retries are used up.
  predicate IsOutcome(was: Record, info: Record, t: Task) {
    && info == was.(status := info.status) && (info.status == Completed || info.status == Failed)
    && (info.status == Failed ==> info.retryCount >= t.maxRetries)
  }

  // A record of this manager counts at most its task's retries.
  predicate CountOk(store: map<TaskId, Record>, id: TaskId, t: Task) {
    t.Saved() && !t.Inherited() && id in store ==>
      store[id].maxRetries == t.maxRetries && store[id].retryCount <= t.maxRetries
  }

  ghost predicate RecordsOk(s: State) {
    forall id :: id in s.tasks ==> WriteIsTied(s.store, id, s.tasks[id]) && CountOk(s.store, id, s.tasks[id])
  }

  lemma SubmitKeepsRecord(s: State, own: TaskId, step: SubmitStep, id: TaskId)
    requires SubmitEnabled(s, own, step) && id in s.tasks && TaskOk(s.store, s.handles, id, s.tasks[id])
    requires WriteIsTied(s.store, id, s.tasks[id]) && CountOk(s.store, id, s.tasks[id])
    ensures var b := ApplySubmit(s, own, step);
      WriteIsTied(b.store, id, b.tasks[id]) && CountOk(b.store, id, b.tasks[id])
  {
  }

  lemma WorkKeepsRecord(s: State, own: TaskId, step: WorkStep, id: TaskId)
    requires WorkEnabled(s, own, step) && id in s.tasks && TaskOk(s.store, s.handles, id, s.tasks[id])
    requires WriteIsTied(s.store, id, s.tasks[id]) && CountOk(s.store, id, s.tasks[id])
    ensures var b := ApplyWork(s, own, step);
      WriteIsTied(b.store, id, b.tasks[id]) && CountOk(b.store, id, b.tasks[id])
  {
  }

  lemma CancelKeepsRecord(s: State, c: CancelId, step: CancelStep, id: TaskId)
    requires CancelEnabled(s, c, step) && id in s.tasks && CancelOk(s, c, s.cancels[c])
    requires WriteIsTied(s.store, id, s.tasks[id]) && CountOk(s.store, id, s.tasks[id])
    ensures var b := ApplyCancel(s, c, step);
      WriteIsTied(b.store, id, b.tasks[id]) && CountOk(b.store, id, b.tasks[id])
  {
  }

  lemma CleanKeepsRecord(s: State, w: SweepId, step: SweepStep, id: TaskId)
    requires CleanEnabled(s, w, step) && id in s.tasks && SweepOk(s, s.sweeps[w])
    requires TaskOk(s.store, s.handles, id, s.tasks[id])
    requires WriteIsTied(s.store, id, s.tasks[id]) && CountOk(s.store, id, s.tasks[id])
    ensures var b := ApplyClean(s, w, step);
      WriteIsTied(b.store, id, b.tasks[id]) && CountOk(b.store, id, b.tasks[id])
  {
  }

  lemma RecordsStayOk(s: State, step: Step)
    requires LifeInv(s) && RecordsOk(s) && ManagerEnabled(s, step)
    ensures RecordsOk(ApplyManager(s, step))
  {
    var b := ApplyManager(s, step);
    forall id | id in b.tasks ensures WriteIsTied(b.store, id, b.tasks[id]) && CountOk(b.store, id, b.tasks[id]) {
      if id in s.tasks {
        assert TaskOk(s.store, s.handles, id, s.tasks[id]);
        match step {
          case Submit(own, st) => SubmitKeepsRecord(s, own, st, id);
          case Work(own, st) => WorkKeepsRecord(s, own, st, id);
          case Cancel(c, st) =>
            assert CancelOk(s, c, s.cancels[c]);
            CancelKeepsRecord(s, c, st, id);
          case Clean(w, st) =>
            assert SweepOk(s, s.sweeps[w]);
            CleanKeepsRecord(s, w, st, id);
          case _ =>
        }
      }
    }
  }

  lemma {:induction false} RunKeepsRecords(run: seq<State>, n: nat)
    requires IsRun(run) && n < |run|
    ensures RecordsOk(run[n])
  {
    if n > 0 {
      RunKeepsRecords(run, n - 1);
      RunHasLife(run, n - 1);
      assert StepsAt(run, n - 1);
      NextKeepsRecords(run[n - 1], run[n]);
    }
  }

  lemma RunHasLife(run: seq<State>, n: nat)
    requires IsRun(run) && n < |run|
    ensures LifeInv(run[n])
  {
    RunKeepsInv(run, n);
  }

  lemma NextKeepsRecords(s: State, b: State)
    requires LifeInv(s) && RecordsOk(s) && Next(s, b)
    ensures RecordsOk(b)
  {
    var step :| Enabled(s, step) && b == Apply(s, step);
    RecordsStayOk(s, step);
    assert b == ApplyManager(s, step).(tok := b.tok);
  }

  lemma ReachableRecords(s: State)
    requires Reachable(s)
    ensures LifeInv(s) && RecordsOk(s)
  {
    var run :| IsRun(run) && run[|run| - 1] == s;
    RunKeepsRecords(run, |run| - 1);
    RunHasLife(run, |run| - 1);
  }

  // ---------------------------------------------------------------------
  // The six changes of a record
  // ---------------------------------------------------------------------

  // A record appears by its own submission's save, pending and without
  // retries; it disappears by a cleanup, when it is over; and it changes only
  // while it is active: to running, or back to pending with one more retry, or
  // to an outcome, each by its own worker's save, or to cancelled, when the
  // worker has ended.
  predicate IsChange(s: State, step: Step, id: TaskId, after: map<TaskId, Record>) {
    && (id !in s.store && id in after ==>
          step == Submit(id, SaveNew) && id in s.tasks && after[id] == Record(Pending, 0, s.tasks[id].maxRetries))
    && (id in s.store && id !in after ==>
          step.Clean? && step.clean == DeleteRecord
          && (s.store[id].status == Completed || s.store[id].status == Failed || s.store[id].status == Cancelled))
    && (id in s.store && id in after && after[id] != s.store[id] ==>
          id in s.tasks && IsOverwrite(s.tasks[id], step, id, s.store[id], after[id]))
  }

  predicate IsOverwrite(t: Task, step: Step, id: TaskId, was: Record, now: Record) {
    && (was.status == Pending || was.status == Running) && now.maxRetries == was.maxRetries
    && match now.status
       case Running => step == Work(id, SaveRunning) && now.retryCount == was.retryCount
       case Pending => step == Work(id, SaveRetry) && now.retryCount == was.retryCount + 1 <= t.maxRetries
       case Completed => step == Work(id, SaveTerminal) && now.retryCount == was.retryCount
       case Failed =>
         step == Work(id, SaveTerminal) && now.retryCount == was.retryCount && was.retryCount >= t.maxRetries
       case Cancelled =>
         step.Cancel? && step.move == Overwrite && now.retryCount == was.retryCount && t.worker.Ended?
  }

  lemma SubmitChanges(s: State, own: TaskId, step: SubmitStep, id: TaskId)
    requires SubmitEnabled(s, own, step) && TaskOk(s.store, s.handles, own, s.tasks[own])
    ensures IsChange(s, Submit(own, step), id, ApplySubmit(s, own, step).store)
  {
  }

  lemma WorkChanges(s: State, own: TaskId, step: WorkStep, id: TaskId)
    requires WorkEnabled(s, own, step) && TaskOk(s.store, s.handles, own, s.tasks[own])
    requires WriteIsTied(s.store, own, s.tasks[own])
    ensures IsChange(s, Work(own, step), id, ApplyWork(s, own, step).store)
  {
  }

  lemma CancelChanges(s: State, c: CancelId, step: CancelStep, id: TaskId)
    requires CancelEnabled(s, c, step) && CancelOk(s, c, s.cancels[c])
    ensures IsChange(s, Cancel(c, step), id, ApplyCancel(s, c, step).store)
  {
  }

  lemma CleanChanges(s: State, w: SweepId, step: SweepStep, id: TaskId)
    requires CleanEnabled(s, w, step) && SweepOk(s, s.sweeps[w])
    ensures IsChange(s, Clean(w, step), id, ApplyClean(s, w, step).store)
  {
  }

  lemma RecordChanges(s: State, step: Step, id: TaskId)
    requires Reachable(s) && ManagerEnabled(s, step)
    ensures IsChange(s, step, id, ApplyManager(s, step).store)
  {
    ReachableRecords(s);
    match step
    case Submit(own, st) =>
      assert TaskOk(s.store, s.handles, own, s.tasks[own]);
      SubmitChanges(s, own, st, id);
    case Work(own, st) =>
      assert TaskOk(s.store, s.handles, own, s.tasks[own]) && WriteIsTied(s.store, own, s.tasks[own]);
      WorkChanges(s, own, st, id);
    case Cancel(c, st) =>
      assert CancelOk(s, c, s.cancels[c]);
      CancelChanges(s, c, st, id);
    case Clean(w, st) =>
      assert SweepOk(s, s.sweeps[w]);
      CleanChanges(s, w, st, id);
    case _ =>
  }

  // The retries of a task never exceed its limit.
  lemma RetriesAreBounded(s: State, id: TaskId)
    requires Reachable(s) && id in s.store && id in s.tasks && !s.tasks[id].submission.Inherited?
    ensures s.store[id].retryCount <= s.tasks[id].maxRetries == s.store[id].maxRetries
  {
    ReachableRecords(s);
    assert CountOk(s.store, id, s.tasks[id]) && TaskOk(s.store, s.handles, id, s.tasks[id]);
  }

  // ---------------------------------------------------------------------
  // The outcome is the module's
  // ---------------------------------------------------------------------

  // What a worker's phase remembers of its module's last answer.
  function LastAnswer(w: Worker): Option<bool> {
    match w
    case Refetching(ok) => Some(ok)
    case SavingRetry(_) => Some(false)
    case Confirming(info) => Some(info.status == Completed)
    case SavingTerminal(info) => Some(info.status == Completed)
    case _ => None
  }

  // The module of `id` answered `ok` at `j`, and has not been called since.
  ghost predicate AnsweredAt(run: seq<State>, j: nat, n: nat, id: TaskId, ok: bool)
    requires n < |run|
  {
    && j < n && StepIs(run, j, Work(id, ModuleReturns(ok)))
    && forall k {:trigger run[k]} :: j < k <= n ==> id in run[k].tasks && !run[k].tasks[id].worker.Calling?
  }

  lemma WorkAnswers(s: State, own: TaskId, step: WorkStep, id: TaskId, ok: bool)
    requires WorkEnabled(s, own, step) && id in s.tasks
    requires LastAnswer(ApplyWork(s, own, step).tasks[id].worker) == Some(ok)
    ensures (own == id && step == ModuleReturns(ok)) || LastAnswer(s.tasks[id].worker) == Some(ok)
  {
  }

  lemma SubmitAnswersNothing(s: State, own: TaskId, step: SubmitStep, id: TaskId, ok: bool)
    requires SubmitEnabled(s, own, step) && id in s.tasks
    requires LastAnswer(ApplySubmit(s, own, step).tasks[id].worker) == Some(ok)
    ensures LastAnswer(s.tasks[id].worker) == Some(ok)
  {
  }

  lemma CancelAnswersNothing(s: State, c: CancelId, step: CancelStep, id: TaskId)
    requires CancelEnabled(s, c, step) && id in s.tasks
    ensures ApplyCancel(s, c, step).tasks[id].worker == s.tasks[id].worker
  {
  }

  lemma NoNewTasks(s: State, step: Step)
    requires ManagerEnabled(s, step) && !step.NewSubmission?
    ensures ApplyManager(s, step).tasks.Keys == s.tasks.Keys
  {
  }

  lemma AnswerStep(s: State, step: Step, id: TaskId, ok: bool)
    requires ManagerEnabled(s, step) && id in ApplyManager(s, step).tasks
    requires LastAnswer(ApplyManager(s, step).tasks[id].worker) == Some(ok)
    ensures id in s.tasks
    ensures step == Work(id, ModuleReturns(ok)) || LastAnswer(s.tasks[id].worker) == Some(ok)
    ensures !ApplyManager(s, step).tasks[id].worker.Calling?
  {
    if !step.NewSubmission? {
      NoNewTasks(s, step);
    }
    match step
    case Work(own, st) => WorkAnswers(s, own, st, id, ok);
    case Submit(own, st) => SubmitAnswersNothing(s, own, st, id, ok);
    case Cancel(c, st) => CancelAnswersNothing(s, c, st, id);
    case _ =>
  }

  lemma {:induction false} Answered(run: seq<State>, n: nat, id: TaskId, ok: bool) returns (j: nat)
    requires IsRun(run) && n < |run| && id in run[n].tasks && LastAnswer(run[n].tasks[id].worker) == Some(ok)
    ensures AnsweredAt(run, j, n, id, ok)
  {
    assert n > 0;
    assert StepsAt(run, n - 1);
    var step :| Enabled(run[n - 1], step) && run[n] == Apply(run[n - 1], step);
    AnswerStep(run[n - 1], step, id, ok);
    if LastAnswer(run[n - 1].tasks[id].worker) == Some(ok) {
      j := Answered(run, n - 1, id, ok);
    } else {
      j := n - 1;
    }
  }

  // A record becomes Completed only where the module's last answer before it
  // was a success, and Failed only where it was an error and no retry is left.
  lemma OutcomeIsTheModules(run: seq<State>, n: nat, id: TaskId) returns (j: nat)
    requires IsRun(run) && n < |run| - 1 && id in run[n].store && id in run[n + 1].store
    requires run[n].store[id].status != run[n + 1].store[id].status
    requires run[n + 1].store[id].status == Completed || run[n + 1].store[id].status == Failed
    ensures AnsweredAt(run, j, n, id, run[n + 1].store[id].status == Completed)
    ensures run[n + 1].store[id].status == Failed ==>
      id in run[n].tasks && run[n + 1].store[id].retryCount >= run[n].tasks[id].maxRetries
  {
    assert StepsAt(run, n);
    var step :| Enabled(run[n], step) && run[n + 1] == Apply(run[n], step);
    IsReachable(run, n);
    RecordChanges(run[n], step, id);
    j := Answered(run, n, id, run[n + 1].store[id].status == Completed);
  }

  lemma IsReachable(run: seq<State>, n: nat)
    requires IsRun(run) && n < |run|
    ensures Reachable(run[n])
  {
    var prefix := run[..n + 1];
    forall i: nat | i < |prefix| - 1 ensures StepsAt(prefix, i) {
      assert StepsAt(run, i);
    }
    assert IsRun(prefix) && prefix[|prefix| - 1] == run[n];
  }
}
