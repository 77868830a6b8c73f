// The life of a task record: an invariant of submissions, workers,
// cancellations and sweeps that every step keeps.
module TaskProofs {
  import opened TaskStatuses
  import opened Wrappers
  import opened TaskManager

  // ---------------------------------------------------------------------
  // The invariant
  // ---------------------------------------------------------------------

  // A record that is gone for good or will never change again.
  predicate Closed(store: map<TaskId, Record>, id: TaskId) {
    id in store ==> store[id].status.IsTerminal()
  }

  // What a worker holds ready to write.
  predicate InfoOk(w: Worker) {
    match w
    case SavingRunning(info) => info.status == Running
    case SavingRetry(info) => info.status == Pending
    case Confirming(info) => info.status == Completed || info.status == Failed
    case SavingTerminal(info) => info.status == Completed || info.status == Failed
    case _ => true
  }

  // Submission, worker and finished flag go together.
  predicate PhasesOk(t: Task) {
    && (t.worker.NotStarted? <==> !(t.submission.Publishing? || t.submission.Submitted? || t.Inherited()))
    && (t.Inherited() ==> t.worker.Ended?)
    && (t.finished ==> t.worker.RemovingHandle? || t.worker.RemovingToken? || t.worker.Ended?)
    && (t.worker.RemovingHandle? || t.worker.RemovingToken? ==> t.finished)
    && (t.worker.Ended? && !t.abortAsked && !t.Inherited() ==> t.finished)
    && InfoOk(t.worker)
  }

  // A record is active while its worker may write it, and closed once the
  // worker leaves by itself.
  predicate TaskOk(store: map<TaskId, Record>, handles: set<TaskId>, id: TaskId, t: Task) {
    && PhasesOk(t)
    && (!t.Saved() ==> id !in store)
    && (t.Saved() && (t.worker.NotStarted? || t.worker.Writing()) ==> StillActive(store, id))
    && (t.worker.Leaving() ==> Closed(store, id))
    && (!t.submission.Submitted? ==> id !in handles)
    && ((t.worker.RemovingToken? || t.worker.Ended?) && !t.abortAsked ==> id !in handles)
  }

  // The canceller that holds the lock also holds the join handle of `id`.
  predicate Held(cancels: map<CancelId, Canceller>, lock: Option<CancelId>, id: TaskId) {
    lock.Some? && lock.value in cancels && cancels[lock.value].HoldsHandle() && cancels[lock.value].task == id
  }

  // The handle of a submitted task that may still write is in the map or in
  // the hands of a canceller.
  predicate HandleOk(s: State, id: TaskId)
    requires id in s.tasks
  {
    s.tasks[id].submission.Submitted? && id !in s.handles && !Held(s.cancels, s.cancelLock, id) ==>
      !s.tasks[id].worker.Writing()
  }

  ghost predicate TasksOk(s: State) {
    && s.store.Keys <= s.tasks.Keys && s.handles <= s.tasks.Keys
    && forall id :: id in s.tasks ==> TaskOk(s.store, s.handles, id, s.tasks[id]) && HandleOk(s, id)
  }

  predicate WorkerOver(t: Task) {
    !t.worker.NotStarted? && !t.worker.Writing()
  }

  predicate CancelOk(s: State, c: CancelId, k: Canceller) {
    && k.task in s.tasks
    && (s.tasks[k.task].submission.Submitted? || s.tasks[k.task].Inherited())
    && (k.HoldsLock() <==> s.cancelLock == Some(c))
    && (k.HoldsHandle() ==> k.task !in s.handles)
    && (k.PastJoin() ==> WorkerOver(s.tasks[k.task]))
    && (k.Overwriting? ==>
          s.tasks[k.task].worker.Ended? && StillActive(s.store, k.task) && s.store[k.task] == k.info)
    && (k.Done? && k.answer ==>
          s.tasks[k.task].worker.Ended? && (k.task in s.store ==> s.store[k.task].status.Cancelled?))
  }

  ghost predicate CancelsOk(s: State) {
    && (s.cancelLock.Some? ==> s.cancelLock.value in s.cancels)
    && forall c :: c in s.cancels ==> CancelOk(s, c, s.cancels[c])
  }

  // A sweep deletes closed records only.
  ghost predicate SweepOk(s: State, sweep: Sweep) {
    && (sweep.ids == [] ==> sweep.Deleting?)
    && forall i :: 0 <= i < |sweep.ids| ==>
      sweep.ids[i] in s.tasks && s.tasks[sweep.ids[i]].Saved() && Closed(s.store, sweep.ids[i])
  }

  ghost predicate SweepsOk(s: State) {
    forall w :: w in s.sweeps ==> SweepOk(s, s.sweeps[w])
  }

  ghost predicate LifeInv(s: State) {
    TasksOk(s) && CancelsOk(s) && SweepsOk(s)
  }

  lemma InitialLife(s: State)
    requires IsInitial(s)
    ensures LifeInv(s)
  {
  }

  // ---------------------------------------------------------------------
  // What any step does to one task that is already there
  // ---------------------------------------------------------------------

  // A closed record is never written again.
  predicate ClosedStays(a: map<TaskId, Record>, b: map<TaskId, Record>, id: TaskId) {
    Closed(a, id) ==> (id in b ==> id in a && b[id] == a[id])
  }

  predicate TaskMoves(a: Task, b: Task) {
    && b.maxRetries == a.maxRetries && b.parent == a.parent
    && (a.Saved() ==> b.Saved())
    && (a.TokenMade() ==> b.TokenMade() && b.token == a.token)
    && (a.submission.Submitted? ==> b.submission.Submitted?)
    && (a.Inherited() <==> b.Inherited())
    && (WorkerOver(a) ==> WorkerOver(b))
    && (a.worker.Ended? ==> b.worker.Ended?)
    && (a.abortAsked ==> b.abortAsked)
  }

  // How one task and its record move.
  predicate Moves(a: State, b: State, id: TaskId)
    requires id in a.tasks
  {
    && id in b.tasks && TaskMoves(a.tasks[id], b.tasks[id])
    && (a.tasks[id].Saved() ==> ClosedStays(a.store, b.store, id))
  }

  lemma SubmitMoves(s: State, own: TaskId, step: SubmitStep, id: TaskId)
    requires SubmitEnabled(s, own, step) && id in s.tasks && PhasesOk(s.tasks[own])
    ensures Moves(s, ApplySubmit(s, own, step), id)
  {
  }

  lemma WorkMoves(s: State, own: TaskId, step: WorkStep, id: TaskId)
    requires WorkEnabled(s, own, step) && id in s.tasks && TaskOk(s.store, s.handles, own, s.tasks[own])
    ensures Moves(s, ApplyWork(s, own, step), id)
  {
  }

  lemma CancelMoves(s: State, c: CancelId, step: CancelStep, id: TaskId)
    requires CancelEnabled(s, c, step) && id in s.tasks && CancelOk(s, c, s.cancels[c])
    ensures Moves(s, ApplyCancel(s, c, step), id)
  {
  }

  lemma CleanMoves(s: State, w: SweepId, step: SweepStep, id: TaskId)
    requires CleanEnabled(s, w, step) && id in s.tasks
    ensures Moves(s, ApplyClean(s, w, step), id)
  {
  }

  lemma TaskStep(s: State, step: Step, id: TaskId)
    requires LifeInv(s) && ManagerEnabled(s, step) && id in s.tasks
    ensures Moves(s, ApplyManager(s, step), id)
  {
    match step {
      case Submit(own, st) =>
        assert TaskOk(s.store, s.handles, own, s.tasks[own]);
        SubmitMoves(s, own, st, id);
      case Work(own, st) =>
        assert TaskOk(s.store, s.handles, own, s.tasks[own]);
        WorkMoves(s, own, st, id);
      case Cancel(c, st) =>
        assert CancelOk(s, c, s.cancels[c]);
        CancelMoves(s, c, st, id);
      case Clean(w, st) => CleanMoves(s, w, st, id);
      case _ =>
    }
  }

  // ---------------------------------------------------------------------
  // Frames
  // ---------------------------------------------------------------------

  ghost predicate AllMove(a: State, b: State) {
    forall id {:trigger id in a.tasks} :: id in a.tasks ==> Moves(a, b, id)
  }

  lemma AllTasksMove(s: State, step: Step)
    requires LifeInv(s) && ManagerEnabled(s, step)
    ensures AllMove(s, ApplyManager(s, step))
  {
    forall id | id in s.tasks ensures Moves(s, ApplyManager(s, step), id) {
      TaskStep(s, step, id);
    }
  }

  lemma SweepFrame(a: State, b: State, sweep: Sweep)
    requires SweepOk(a, sweep) && AllMove(a, b)
    ensures SweepOk(b, sweep)
  {
    forall i | 0 <= i < |sweep.ids|
      ensures sweep.ids[i] in b.tasks && b.tasks[sweep.ids[i]].Saved() && Closed(b.store, sweep.ids[i])
    {
      assert Moves(a, b, sweep.ids[i]);
    }
  }

  // A canceller that is not the one moving.
  lemma CancelFrame(a: State, b: State, c: CancelId, k: Canceller)
    requires CancelOk(a, c, k) && Moves(a, b, k.task)
    requires a.cancelLock == Some(c) <==> b.cancelLock == Some(c)
    requires k.HoldsHandle() && k.task in b.handles ==> k.task in a.handles
    requires k.Overwriting? ==> k.task in b.store && b.store[k.task] == k.info
    ensures CancelOk(b, c, k)
  {
  }

  // A task that is not the one moving.
  lemma OtherTask(a: State, b: State, id: TaskId)
    requires id in a.tasks && id in b.tasks && b.tasks[id] == a.tasks[id]
    requires TaskOk(a.store, a.handles, id, a.tasks[id]) && HandleOk(a, id)
    requires id in b.store <==> id in a.store
    requires id in a.store && id in b.store ==> b.store[id] == a.store[id]
    requires id in b.handles <==> id in a.handles
    requires Held(a.cancels, a.cancelLock, id) ==> Held(b.cancels, b.cancelLock, id)
    ensures TaskOk(b.store, b.handles, id, b.tasks[id]) && HandleOk(b, id)
  {
  }

  // A step of submission or worker `own` touches nothing of other tasks.
  ghost predicate OnlyTask(a: State, b: State, own: TaskId) {
    && own in b.tasks && b.tasks == a.tasks[own := b.tasks[own]]
    && b.cancels == a.cancels && b.cancelLock == a.cancelLock && b.sweeps == a.sweeps
    && (forall id :: id != own ==> (id in b.store <==> id in a.store))
    && (forall id :: id != own && id in a.store && id in b.store ==> b.store[id] == a.store[id])
    && (forall id :: id != own ==> (id in b.handles <==> id in a.handles))
  }

  lemma OnlyTaskKeepsTasks(a: State, b: State, own: TaskId)
    requires TasksOk(a) && OnlyTask(a, b, own)
    requires TaskOk(b.store, b.handles, own, b.tasks[own]) && HandleOk(b, own)
    ensures TasksOk(b)
  {
    forall id | id in b.tasks
      ensures TaskOk(b.store, b.handles, id, b.tasks[id]) && HandleOk(b, id)
    {
      if id != own {
        OtherTask(a, b, id);
      }
    }
  }

  // A canceller of `own` whose worker moves is not yet past the join, and
  // holds the handle only of a submitted task.
  lemma OnlyTaskKeeps(a: State, b: State, own: TaskId)
    requires LifeInv(a) && AllMove(a, b) && own in a.tasks && OnlyTask(a, b, own)
    requires TaskOk(b.store, b.handles, own, b.tasks[own]) && HandleOk(b, own)
    requires own in b.handles && own !in a.handles ==> !a.tasks[own].submission.Submitted? && !a.tasks[own].Inherited()
    requires !a.tasks[own].worker.Ended? || b.store == a.store
    ensures LifeInv(b)
  {
    OnlyTaskKeepsTasks(a, b, own);
    forall c | c in b.cancels ensures CancelOk(b, c, b.cancels[c]) {
      assert CancelOk(a, c, a.cancels[c]);
      CancelFrame(a, b, c, a.cancels[c]);
    }
    forall w | w in b.sweeps ensures SweepOk(b, b.sweeps[w]) {
      SweepFrame(a, b, a.sweeps[w]);
    }
  }

  // ---------------------------------------------------------------------
  // Every step keeps the invariant
  // ---------------------------------------------------------------------

  lemma SubmitFrame(s: State, id: TaskId, step: SubmitStep)
    requires SubmitEnabled(s, id, step)
    ensures OnlyTask(s, ApplySubmit(s, id, step), id)
  {
  }

  lemma SubmitOwn(s: State, id: TaskId, step: SubmitStep)
    requires SubmitEnabled(s, id, step) && TaskOk(s.store, s.handles, id, s.tasks[id])
    ensures var b := ApplySubmit(s, id, step); TaskOk(b.store, b.handles, id, b.tasks[id]) && HandleOk(b, id)
  {
  }

  lemma SubmitKeeps(s: State, id: TaskId, step: SubmitStep)
    requires LifeInv(s) && SubmitEnabled(s, id, step)
    ensures LifeInv(ApplySubmit(s, id, step))
  {
    SubmitFrame(s, id, step);
    SubmitOwn(s, id, step);
    AllTasksMove(s, Submit(id, step));
    OnlyTaskKeeps(s, ApplySubmit(s, id, step), id);
  }

  lemma WorkFrame(s: State, id: TaskId, step: WorkStep)
    requires WorkEnabled(s, id, step) && (step.AbortWorker? ==> !s.tasks[id].worker.Ended?)
    ensures OnlyTask(s, ApplyWork(s, id, step), id)
    ensures id in ApplyWork(s, id, step).handles ==> id in s.handles
    ensures !s.tasks[id].worker.Ended?
  {
  }

  lemma WorkOwn(s: State, id: TaskId, step: WorkStep)
    requires WorkEnabled(s, id, step) && TaskOk(s.store, s.handles, id, s.tasks[id])
    ensures var b := ApplyWork(s, id, step); TaskOk(b.store, b.handles, id, b.tasks[id])
  {
  }

  lemma WorkHandle(s: State, id: TaskId, step: WorkStep)
    requires WorkEnabled(s, id, step) && PhasesOk(s.tasks[id]) && HandleOk(s, id)
    ensures HandleOk(ApplyWork(s, id, step), id)
  {
  }

  lemma WorkKeeps(s: State, id: TaskId, step: WorkStep)
    requires LifeInv(s) && WorkEnabled(s, id, step)
    ensures LifeInv(ApplyWork(s, id, step))
  {
    assert TaskOk(s.store, s.handles, id, s.tasks[id]) && HandleOk(s, id);
    WorkFrame(s, id, step);
    WorkOwn(s, id, step);
    WorkHandle(s, id, step);
    AllTasksMove(s, Work(id, step));
    OnlyTaskKeeps(s, ApplyWork(s, id, step), id);
  }

  lemma CancelOwn(s: State, c: CancelId, step: CancelStep)
    requires CancelEnabled(s, c, step) && CancelOk(s, c, s.cancels[c])
    requires var id := s.cancels[c].task; TaskOk(s.store, s.handles, id, s.tasks[id]) && HandleOk(s, id)
    ensures var b := ApplyCancel(s, c, step); CancelOk(b, c, b.cancels[c])
  {
  }

  lemma CancelTask(s: State, c: CancelId, step: CancelStep)
    requires CancelEnabled(s, c, step) && CancelOk(s, c, s.cancels[c])
    requires var id := s.cancels[c].task; TaskOk(s.store, s.handles, id, s.tasks[id]) && HandleOk(s, id)
    ensures
      var b, id := ApplyCancel(s, c, step), s.cancels[c].task;
      TaskOk(b.store, b.handles, id, b.tasks[id]) && HandleOk(b, id)
  {
  }

  // The lock keeps cancellers out of each other's way.
  lemma CancelOthers(s: State, c: CancelId, step: CancelStep, d: CancelId)
    requires CancelEnabled(s, c, step) && d in s.cancels && d != c
    requires CancelOk(s, c, s.cancels[c]) && CancelOk(s, d, s.cancels[d])
    requires Moves(s, ApplyCancel(s, c, step), s.cancels[d].task)
    ensures CancelOk(ApplyCancel(s, c, step), d, s.cancels[d])
  {
    CancelFrame(s, ApplyCancel(s, c, step), d, s.cancels[d]);
  }

  lemma CancelOtherTasks(s: State, c: CancelId, step: CancelStep, id: TaskId)
    requires CancelEnabled(s, c, step) && id in s.tasks && id != s.cancels[c].task
    requires CancelOk(s, c, s.cancels[c])
    requires TaskOk(s.store, s.handles, id, s.tasks[id]) && HandleOk(s, id)
    ensures var b := ApplyCancel(s, c, step); TaskOk(b.store, b.handles, id, b.tasks[id]) && HandleOk(b, id)
  {
    OtherTask(s, ApplyCancel(s, c, step), id);
  }

  lemma CancelKeepsTasks(s: State, c: CancelId, step: CancelStep)
    requires TasksOk(s) && CancelEnabled(s, c, step) && CancelOk(s, c, s.cancels[c])
    ensures TasksOk(ApplyCancel(s, c, step))
  {
    var b := ApplyCancel(s, c, step);
    forall id | id in b.tasks
      ensures TaskOk(b.store, b.handles, id, b.tasks[id]) && HandleOk(b, id)
    {
      if id == s.cancels[c].task { CancelTask(s, c, step); } else { CancelOtherTasks(s, c, step, id); }
    }
  }

  lemma CancelKeepsCancels(s: State, c: CancelId, step: CancelStep)
    requires TasksOk(s) && CancelsOk(s) && CancelEnabled(s, c, step) && AllMove(s, ApplyCancel(s, c, step))
    ensures CancelsOk(ApplyCancel(s, c, step))
  {
    var b := ApplyCancel(s, c, step);
    forall d | d in b.cancels ensures CancelOk(b, d, b.cancels[d]) {
      if d == c { CancelOwn(s, c, step); } else { CancelOthers(s, c, step, d); }
    }
  }

  lemma CancelKeeps(s: State, c: CancelId, step: CancelStep)
    requires LifeInv(s) && CancelEnabled(s, c, step)
    ensures LifeInv(ApplyCancel(s, c, step))
  {
    var b := ApplyCancel(s, c, step);
    AllTasksMove(s, Cancel(c, step));
    assert CancelOk(s, c, s.cancels[c]);
    CancelKeepsTasks(s, c, step);
    CancelKeepsCancels(s, c, step);
    forall w | w in b.sweeps ensures SweepOk(b, b.sweeps[w]) {
      SweepFrame(s, b, s.sweeps[w]);
    }
  }

  lemma CleanTask(s: State, w: SweepId, step: SweepStep, id: TaskId)
    requires CleanEnabled(s, w, step) && SweepOk(s, s.sweeps[w])
    requires id in s.tasks && TaskOk(s.store, s.handles, id, s.tasks[id]) && HandleOk(s, id)
    ensures var b := ApplyClean(s, w, step); TaskOk(b.store, b.handles, id, b.tasks[id]) && HandleOk(b, id)
  {
  }

  lemma CleanOthers(s: State, w: SweepId, step: SweepStep, d: CancelId)
    requires CleanEnabled(s, w, step) && SweepOk(s, s.sweeps[w]) && d in s.cancels
    requires CancelOk(s, d, s.cancels[d]) && Moves(s, ApplyClean(s, w, step), s.cancels[d].task)
    ensures CancelOk(ApplyClean(s, w, step), d, s.cancels[d])
  {
    CancelFrame(s, ApplyClean(s, w, step), d, s.cancels[d]);
  }

  lemma CleanKeeps(s: State, w: SweepId, step: SweepStep)
    requires LifeInv(s) && CleanEnabled(s, w, step)
    ensures LifeInv(ApplyClean(s, w, step))
  {
    var b := ApplyClean(s, w, step);
    assert SweepOk(s, s.sweeps[w]);
    AllTasksMove(s, Clean(w, step));
    forall id | id in b.tasks
      ensures TaskOk(b.store, b.handles, id, b.tasks[id]) && HandleOk(b, id)
    {
      CleanTask(s, w, step, id);
    }
    forall d | d in b.cancels ensures CancelOk(b, d, b.cancels[d]) {
      CleanOthers(s, w, step, d);
    }
    forall v | v in b.sweeps ensures SweepOk(b, b.sweeps[v]) {
      SweepFrame(s, b, s.sweeps[v]);
    }
  }

  lemma NewSubmissionKeeps(s: State, step: Step)
    requires LifeInv(s) && step.NewSubmission? && ManagerEnabled(s, step)
    ensures LifeInv(ApplyManager(s, step))
  {
    var b := ApplyManager(s, step);
    forall id | id in s.tasks
      ensures TaskOk(b.store, b.handles, id, b.tasks[id]) && HandleOk(b, id)
    {
      OtherTask(s, b, id);
    }
    forall d | d in b.cancels ensures CancelOk(b, d, b.cancels[d]) {
      assert CancelOk(s, d, s.cancels[d]);
    }
    forall v | v in b.sweeps ensures SweepOk(b, b.sweeps[v]) {
      assert SweepOk(s, s.sweeps[v]);
    }
  }

  lemma NewCancelKeeps(s: State, step: Step)
    requires LifeInv(s) && step.NewCancel? && ManagerEnabled(s, step)
    ensures LifeInv(ApplyManager(s, step))
  {
    var b := ApplyManager(s, step);
    forall id | id in s.tasks
      ensures TaskOk(b.store, b.handles, id, b.tasks[id]) && HandleOk(b, id)
    {
      OtherTask(s, b, id);
    }
    forall d | d in b.cancels ensures CancelOk(b, d, b.cancels[d]) {
      assert d in s.cancels ==> CancelOk(s, d, s.cancels[d]);
    }
  }

  lemma NewSweepKeeps(s: State, step: Step)
    requires LifeInv(s) && step.NewSweep? && ManagerEnabled(s, step)
    ensures LifeInv(ApplyManager(s, step))
  {
    var b := ApplyManager(s, step);
    forall i | 0 <= i < |step.ids|
      ensures step.ids[i] in b.tasks && b.tasks[step.ids[i]].Saved() && Closed(b.store, step.ids[i])
    {
      assert TaskOk(s.store, s.handles, step.ids[i], s.tasks[step.ids[i]]);
    }
    forall v | v in b.sweeps ensures SweepOk(b, b.sweeps[v]) {
      assert v in s.sweeps ==> SweepOk(s, s.sweeps[v]);
    }
  }

  lemma ManagerKeepsLife(s: State, step: Step)
    requires LifeInv(s) && ManagerEnabled(s, step)
    ensures LifeInv(ApplyManager(s, step))
  {
    match step
    case Submit(id, st) => SubmitKeeps(s, id, st);
    case Work(id, st) => WorkKeeps(s, id, st);
    case Cancel(c, st) => CancelKeeps(s, c, st);
    case Clean(w, st) => CleanKeeps(s, w, st);
    case NewSubmission(_, _, _) => NewSubmissionKeeps(s, step);
    case NewCancel(_, _) => NewCancelKeeps(s, step);
    case NewSweep(_, _, _) => NewSweepKeeps(s, step);
    case TokenStep(_) =>
  }
}
