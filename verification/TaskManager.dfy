// The background task manager (src/async_task.rs) over an in-memory store, as
// a state machine composed with the cancel-token protocol: submissions,
// workers, cancellations and cleanups interleave one store access, one lock
// section or one token step at a time.
module TaskManager {
  import opened TaskStatuses
  import opened Wrappers
  import T = CancelTokens

  type CancelId = nat
  type SweepId = nat

  // The fields of a task record that steer the protocol.
  datatype Record = Record(status: TaskStatus, retryCount: nat, maxRetries: nat)

  // submit_with_retry (src/async_task.rs:522-629). `Inherited` is a record
  // that was in the store before this manager started.
  datatype Submission =
    | Admitting | Counting | Saving | Registering | Spawning | Publishing | Submitted | Rejected
    | Inherited

  // The spawned worker: run_task (1035-1125), then the drain and the
  // deregistration of lines 606-609.
  datatype Worker =
    | NotStarted
    | Acquiring
    | Fetching
    | SavingRunning(info: Record)
    | Calling
    | Refetching(ok: bool)
    | SavingRetry(info: Record)
    | Sleeping
    | Confirming(info: Record)
    | SavingTerminal(info: Record)
    | StartingDrain
    | DrainWait(proc: T.ProcId)
    | SettingFinished
    | RemovingHandle
    | RemovingToken
    | Ended
  {
    // The worker may still write the record.
    predicate Writing() {
      Acquiring? || Fetching? || SavingRunning? || Calling? || Refetching? || SavingRetry? || Sleeping?
      || Confirming? || SavingTerminal?
    }

    // run_task has returned and the worker is deregistering.
    predicate Leaving() {
      StartingDrain? || DrainWait? || SettingFinished? || RemovingHandle? || RemovingToken?
    }
  }

  datatype Task = Task(
    maxRetries: nat,
    parent: Option<T.TokenId>,
    submission: Submission,
    worker: Worker,
    token: T.TokenId,
    abortAsked: bool,
    finished: bool)
  {
    predicate Saved() {
      Inherited() || submission.Registering? || TokenMade()
    }

    predicate TokenMade() {
      submission.Spawning? || submission.Publishing? || submission.Submitted?
    }

    predicate Inherited() {
      submission.Inherited?
    }
  }

  // cancel and stop_local_task (src/async_task.rs:701-760).
  datatype Canceller =
    | Waiting(task: TaskId)
    | Looking(task: TaskId)
    | Taking(task: TaskId)
    | Aborting(task: TaskId)
    | Joining(task: TaskId)
    | FindingToken(task: TaskId)
    | Signalling(task: TaskId)
    | Stopping(task: TaskId)
    | Draining(task: TaskId, proc: T.ProcId)
    | Forgetting(task: TaskId)
    | Rechecking(task: TaskId)
    | Overwriting(task: TaskId, info: Record)
    | Done(task: TaskId, answer: bool)
    | Dropped(task: TaskId)
  {
    predicate HoldsLock() {
      !Waiting? && !Done? && !Dropped?
    }

    // The join handle is in the caller's hands, not in the map.
    predicate HoldsHandle() {
      Aborting? || Joining?
    }

    // Past the join.
    predicate PastJoin() {
      FindingToken? || Signalling? || Stopping? || Draining? || Forgetting? || Rechecking? || Overwriting?
    }
  }

  // cleanup_async (src/async_task.rs:878-904), and the reaper's sweep, which
  // only deletes (970-981).
  datatype Sweep =
    | Deleting(ids: seq<TaskId>, reaper: bool)
    | DroppingHandle(ids: seq<TaskId>)
    | DroppingToken(ids: seq<TaskId>)

  datatype State = State(
    maxTasks: nat,
    tok: T.State,
    store: map<TaskId, Record>,
    tasks: map<TaskId, Task>,
    handles: set<TaskId>,
    tokens: set<TaskId>,
    admission: Option<TaskId>,
    cancels: map<CancelId, Canceller>,
    cancelLock: Option<CancelId>,
    sweeps: map<SweepId, Sweep>)

  ghost function ActiveIds(store: map<TaskId, Record>): set<TaskId> {
    set id | id in store && store[id].status.IsActive()
  }

  ghost predicate IsInitial(s: State) {
    && s.tok == T.Initial
    && s.tasks.Keys == s.store.Keys
    && (forall id :: id in s.tasks ==> s.tasks[id].Inherited() && s.tasks[id].worker.Ended?)
    && |ActiveIds(s.store)| <= s.maxTasks
    && s.handles == {} && s.tokens == {} && s.admission.None?
    && s.cancels == map[] && s.cancelLock.None? && s.sweeps == map[]
  }

  // submit_with_retry, after the id is drawn.
  datatype SubmitStep =
    | LockAdmission
    | Count
    | SaveNew
    | RegisterToken
    | SpawnWorker
    | PublishHandle

  datatype WorkStep =
    | Acquire
    | Fetch
    | SaveRunning
    | ModuleReturns(ok: bool)
    | Refetch
    | SaveRetry
    | DelayOver
    | Confirm
    | SaveTerminal
    | StartDrain(proc: T.ProcId)
    | DrainOver
    | SetFinished
    | RemoveHandle
    | RemoveToken
    | AbortWorker

  datatype CancelStep =
    | Lock
    | Look
    | Take
    | AskAbort
    | Joined
    | FindToken
    | Signal
    | Stop(proc: T.ProcId)
    | Stopped
    | Forget
    | Recheck
    | Overwrite
    | Drop

  datatype SweepStep = DeleteRecord | DropHandle | DropToken

  datatype Step =
    | TokenStep(step: T.Step)
    | NewSubmission(task: TaskId, parent: Option<T.TokenId>, maxRetries: nat)
    | Submit(task: TaskId, submit: SubmitStep)
    | Work(task: TaskId, work: WorkStep)
    | NewCancel(cancel: CancelId, task: TaskId)
    | Cancel(cancel: CancelId, move: CancelStep)
    | NewSweep(sweep: SweepId, ids: seq<TaskId>, reaper: bool)
    | Clean(sweep: SweepId, clean: SweepStep)

  // The worker is between its cancellation check and the end of
  // spawn_tracked, where it does not await.
  ghost predicate InsideCall(tok: T.State, id: TaskId) {
    exists e :: e in tok.execs && tok.execs[e].caller == T.Worker(id) && tok.execs[e].spawning.InProgress()
  }

  // Token steps the manager leaves to the rest of the program: everything but
  // aborts, and calls by a worker that is not calling its module.
  ghost predicate FreeTokenStep(s: State, step: T.Step) {
    && (step.Start? ==> !step.abort)
    && (step.Call? && step.caller.Worker? ==>
          step.caller.task in s.tasks && s.tasks[step.caller.task].worker.Calling?)
  }

  // What a manager step does to the tokens.
  ghost function TokenPart(s: State, step: Step): Option<T.Step> {
    match step
    case TokenStep(st) => Some(st)
    case Submit(id, RegisterToken) =>
      if id in s.tasks then Some(T.NewToken(s.tasks[id].parent)) else None
    case Work(id, StartDrain(p)) =>
      if id in s.tasks then Some(T.Start(p, s.tasks[id].token, false)) else None
    case Cancel(c, Signal) =>
      if c in s.cancels && s.cancels[c].task in s.tasks then
        Some(T.SetCancelled(s.tasks[s.cancels[c].task].token, true))
      else None
    case Cancel(c, Stop(p)) =>
      if c in s.cancels && s.cancels[c].task in s.tasks then
        Some(T.Start(p, s.tasks[s.cancels[c].task].token, true))
      else None
    case _ => None
  }

  ghost predicate SubmitEnabled(s: State, id: TaskId, step: SubmitStep) {
    id in s.tasks &&
    var sub := s.tasks[id].submission;
    match step
    case LockAdmission => sub.Admitting? && s.admission.None?
    case Count => sub.Counting?
    case SaveNew => sub.Saving?
    case RegisterToken => sub.Registering?
    case SpawnWorker => sub.Spawning?
    case PublishHandle => sub.Publishing?
  }

  ghost predicate WorkEnabled(s: State, id: TaskId, step: WorkStep) {
    id in s.tasks &&
    var w := s.tasks[id].worker;
    match step
    case Acquire => w.Acquiring?
    case Fetch => w.Fetching?
    case SaveRunning => w.SavingRunning?
    case ModuleReturns(_) => w.Calling? && !InsideCall(s.tok, id)
    case Refetch => w.Refetching?
    case SaveRetry => w.SavingRetry?
    case DelayOver => w.Sleeping?
    case Confirm => w.Confirming?
    case SaveTerminal => w.SavingTerminal?
    case StartDrain(_) => w.StartingDrain?
    case DrainOver => w.DrainWait? && w.proc in s.tok.procs && s.tok.procs[w.proc].Drained?
    case SetFinished => w.SettingFinished?
    case RemoveHandle => w.RemovingHandle?
    case RemoveToken => w.RemovingToken?
    case AbortWorker => s.tasks[id].abortAsked && (w.Writing() || w.Leaving()) && !InsideCall(s.tok, id)
  }

  ghost predicate CancelEnabled(s: State, c: CancelId, step: CancelStep) {
    c in s.cancels && s.cancels[c].task in s.tasks &&
    var k := s.cancels[c];
    match step
    case Lock => k.Waiting? && s.cancelLock.None?
    case Look => k.Looking?
    case Take => k.Taking?
    case AskAbort => k.Aborting?
    case Joined => k.Joining? && s.tasks[k.task].worker.Ended?
    case FindToken => k.FindingToken?
    case Signal => k.Signalling?
    case Stop(_) => k.Stopping?
    case Stopped => k.Draining? && k.proc in s.tok.procs && s.tok.procs[k.proc].Drained?
    case Forget => k.Forgetting?
    case Recheck => k.Rechecking?
    case Overwrite => k.Overwriting?
    case Drop => k.Waiting? || k.Joining? || k.Draining?
  }

  ghost predicate CleanEnabled(s: State, w: SweepId, step: SweepStep) {
    w in s.sweeps && s.sweeps[w].ids != [] && s.sweeps[w].ids[0] in s.tasks &&
    match step
    case DeleteRecord => s.sweeps[w].Deleting?
    case DropHandle => s.sweeps[w].DroppingHandle?
    case DropToken => s.sweeps[w].DroppingToken?
  }

  ghost predicate ManagerEnabled(s: State, step: Step) {
    match step
    case TokenStep(st) => FreeTokenStep(s, st)
    case NewSubmission(id, parent, _) =>
      id !in s.tasks && id !in s.store && (parent.Some? ==> parent.value < |s.tok.tree|)
    case Submit(id, st) => SubmitEnabled(s, id, st)
    case Work(id, st) => WorkEnabled(s, id, st)
    case NewCancel(c, id) =>
      c !in s.cancels && id in s.tasks && (s.tasks[id].submission.Submitted? || s.tasks[id].Inherited())
    case Cancel(c, st) => CancelEnabled(s, c, st)
    case NewSweep(w, ids, _) =>
      w !in s.sweeps && forall i :: 0 <= i < |ids| ==> ids[i] in s.store && s.store[ids[i]].status.IsTerminal()
    case Clean(w, st) => CleanEnabled(s, w, st)
  }

  ghost predicate Enabled(s: State, step: Step)
    requires T.TreeOk(s.tok.tree)
  {
    ManagerEnabled(s, step) && (TokenPart(s, step).Some? ==> T.Enabled(s.tok, TokenPart(s, step).value))
  }

  // `store.get`, and what a worker makes of it: a missing or a cancelled
  // record ends run_task.
  predicate Gone(store: map<TaskId, Record>, id: TaskId) {
    id !in store || store[id].status.Cancelled?
  }

  predicate StillActive(store: map<TaskId, Record>, id: TaskId) {
    id in store && store[id].status.IsActive()
  }

  // A task submitted without a retry policy has maxRetries == 0.
  function AfterCall(ok: bool, info: Record, maxRetries: nat): Worker {
    if ok then Confirming(info.(status := Completed))
    else if info.retryCount < maxRetries then SavingRetry(info.(status := Pending, retryCount := info.retryCount + 1))
    else Confirming(info.(status := Failed))
  }

  ghost function WithTask(s: State, id: TaskId, t: Task): State {
    s.(tasks := s.tasks[id := t])
  }

  ghost function ApplySubmit(s: State, id: TaskId, step: SubmitStep): State
    requires SubmitEnabled(s, id, step)
  {
    var t := s.tasks[id];
    match step
    case LockAdmission =>
      WithTask(s, id, t.(submission := Counting)).(admission := Some(id))
    case Count =>
      if |ActiveIds(s.store)| >= s.maxTasks then WithTask(s, id, t.(submission := Rejected)).(admission := None)
      else WithTask(s, id, t.(submission := Saving))
    case SaveNew =>
      WithTask(s, id, t.(submission := Registering))
      .(admission := None, store := s.store[id := Record(Pending, 0, t.maxRetries)])
    case RegisterToken =>
      WithTask(s, id, t.(submission := Spawning, token := |s.tok.tree|)).(tokens := s.tokens + {id})
    case SpawnWorker =>
      WithTask(s, id, t.(submission := Publishing, worker := Acquiring))
    case PublishHandle =>
      WithTask(s, id, t.(submission := Submitted)).(handles := if t.finished then s.handles else s.handles + {id})
  }

  ghost function NextWorker(s: State, id: TaskId, step: WorkStep): Worker
    requires WorkEnabled(s, id, step)
  {
    var w := s.tasks[id].worker;
    match step
    case Acquire => Fetching
    case Fetch => if Gone(s.store, id) then StartingDrain else SavingRunning(s.store[id].(status := Running))
    case SaveRunning => Calling
    case ModuleReturns(ok) => Refetching(ok)
    case Refetch => if Gone(s.store, id) then StartingDrain else AfterCall(w.ok, s.store[id], s.tasks[id].maxRetries)
    case SaveRetry => Sleeping
    case DelayOver => Acquiring
    case Confirm => if id in s.store && s.store[id].status.Cancelled? then StartingDrain else SavingTerminal(w.info)
    case SaveTerminal => StartingDrain
    case StartDrain(p) => DrainWait(p)
    case DrainOver => SettingFinished
    case SetFinished => RemovingHandle
    case RemoveHandle => RemovingToken
    case RemoveToken => Ended
    case AbortWorker => Ended
  }

  ghost function ApplyWork(s: State, id: TaskId, step: WorkStep): State
    requires WorkEnabled(s, id, step)
  {
    var t := s.tasks[id];
    s.(tasks := s.tasks[id := t.(worker := NextWorker(s, id, step), finished := t.finished || step.SetFinished?)],
       store := if step.SaveRunning? || step.SaveRetry? || step.SaveTerminal? then s.store[id := t.worker.info]
                else s.store,
       handles := if step.RemoveHandle? then s.handles - {id} else s.handles,
       tokens := if step.RemoveToken? then s.tokens - {id} else s.tokens)
  }

  ghost function NextCanceller(s: State, c: CancelId, step: CancelStep): Canceller
    requires CancelEnabled(s, c, step)
  {
    var k := s.cancels[c];
    var id := k.task;
    match step
    case Lock => Looking(id)
    case Look => if StillActive(s.store, id) then Taking(id) else Done(id, false)
    case Take => if id in s.handles then Aborting(id) else FindingToken(id)
    case AskAbort => Joining(id)
    case Joined => FindingToken(id)
    case FindToken => if id in s.tokens then Signalling(id) else Rechecking(id)
    case Signal => Stopping(id)
    case Stop(p) => Draining(id, p)
    case Stopped => Forgetting(id)
    case Forget => Rechecking(id)
    case Recheck => if StillActive(s.store, id) then Overwriting(id, s.store[id]) else Done(id, false)
    case Overwrite => Done(id, true)
    case Drop => Dropped(id)
  }

  ghost function ApplyCancel(s: State, c: CancelId, step: CancelStep): State
    requires CancelEnabled(s, c, step)
  {
    var k := s.cancels[c];
    var id := k.task;
    var t := s.tasks[id];
    var next := NextCanceller(s, c, step);
    s.(cancels := s.cancels[c := next],
       cancelLock := if next.HoldsLock() then Some(c) else if k.HoldsLock() then None else s.cancelLock,
       tasks := if step.AskAbort? then s.tasks[id := t.(abortAsked := true)] else s.tasks,
       handles := if step.Take? then s.handles - {id}
                  else if step.Drop? && k.Joining? && !t.finished && !t.worker.Ended? then s.handles + {id}
                  else s.handles,
       tokens := if step.Forget? then s.tokens - {id} else s.tokens,
       store := if step.Overwrite? then s.store[id := k.info.(status := Cancelled)] else s.store)
  }

  ghost function ApplyClean(s: State, w: SweepId, step: SweepStep): State
    requires CleanEnabled(s, w, step)
  {
    var sweep := s.sweeps[w];
    var ids := sweep.ids;
    match step
    case DeleteRecord =>
      s.(store := s.store - {ids[0]},
         sweeps := s.sweeps[w := if sweep.reaper then Deleting(ids[1..], true) else DroppingHandle(ids)])
    case DropHandle =>
      s.(handles := s.handles - {ids[0]}, sweeps := s.sweeps[w := DroppingToken(ids)])
    case DropToken =>
      s.(tokens := if T.ScopeEmpty(s.tok, s.tasks[ids[0]].token) then s.tokens - {ids[0]} else s.tokens,
         sweeps := s.sweeps[w := Deleting(ids[1..], false)])
  }

  // The step on everything but the tokens.
  ghost function ApplyManager(s: State, step: Step): State
    requires ManagerEnabled(s, step)
  {
    match step
    case TokenStep(_) => s
    case NewSubmission(id, parent, maxRetries) =>
      WithTask(s, id, Task(maxRetries, parent, Admitting, NotStarted, 0, false, false))
    case Submit(id, st) => ApplySubmit(s, id, st)
    case Work(id, st) => ApplyWork(s, id, st)
    case NewCancel(c, id) => s.(cancels := s.cancels[c := Waiting(id)])
    case Cancel(c, st) => ApplyCancel(s, c, st)
    case NewSweep(w, ids, reaper) => s.(sweeps := s.sweeps[w := Deleting(ids, reaper)])
    case Clean(w, st) => ApplyClean(s, w, st)
  }

  ghost function Apply(s: State, step: Step): State
    requires T.TreeOk(s.tok.tree) && Enabled(s, step)
  {
    ApplyManager(s, step).(tok := match TokenPart(s, step) case Some(st) => T.Apply(s.tok, st) case None => s.tok)
  }

  ghost predicate Next(s: State, t: State) {
    T.TreeOk(s.tok.tree) && exists step :: Enabled(s, step) && t == Apply(s, step)
  }
}
