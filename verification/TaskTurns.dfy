// The worker's loop over the store (`Retry`) is the manager's worker: whatever
// is done to its record before each look, a run of `RunTask` is a sequence of
// `Work` steps from the permit to the end, over a store that shows the same
// records and with the same calls of the module.
module TaskTurns {
  import opened Json
  import opened TaskStatuses
  import opened Wrappers
  import opened TaskStore
  import opened TaskStoreView
  import opened Backoff
  import opened Retry
  import M = TaskManager
  import T = CancelTokens
  import L = TaskLaws
  import F = TaskFutures

  // ---------------------------------------------------------------------
  // Deeds
  // ---------------------------------------------------------------------

  // A step of the worker itself, or what others do to its record.
  datatype Deed = Own(step: M.WorkStep) | Others(event: Event)

  type View = map<TaskId, M.Record>

  // `Touched`, on the machine's store.
  function Meddled(view: View, id: TaskId, event: Event): View {
    if id in view && event.CancelIt? && view[id].status.IsActive() then view[id := view[id].(status := Cancelled)]
    else if id in view && event.DeleteIt? && view[id].status.IsTerminal() then view - {id}
    else view
  }

  ghost function After(s: M.State, id: TaskId, deed: Deed): Option<M.State> {
    match deed
    case Others(event) => Some(s.(store := Meddled(s.store, id, event)))
    case Own(step) =>
      if T.TreeOk(s.tok.tree) && M.Enabled(s, M.Work(id, step)) then Some(M.Apply(s, M.Work(id, step))) else None
  }

  ghost function Perform(s: M.State, id: TaskId, deeds: seq<Deed>): Option<M.State>
    decreases |deeds|
  {
    if deeds == [] then Some(s)
    else match After(s, id, deeds[0])
      case None => None
      case Some(b) => Perform(b, id, deeds[1..])
  }

  lemma {:induction false} PerformBoth(s: M.State, id: TaskId, first: seq<Deed>, rest: seq<Deed>)
    requires Perform(s, id, first).Some?
    ensures Perform(s, id, first + rest) == Perform(Perform(s, id, first).value, id, rest)
    decreases |first|
  {
    if first == [] {
      assert first + rest == rest;
    } else {
      assert (first + rest)[1..] == first[1..] + rest;
      PerformBoth(After(s, id, first[0]).value, id, first[1..], rest);
    }
  }

  // The calls of the module, in order: did they succeed?
  function CallsIn(deeds: seq<Deed>): seq<bool> {
    if deeds == [] then []
    else (if deeds[0].Own? && deeds[0].step.ModuleReturns? then [deeds[0].step.ok] else []) + CallsIn(deeds[1..])
  }

  lemma {:induction false} CallsInBoth(first: seq<Deed>, rest: seq<Deed>)
    ensures CallsIn(first + rest) == CallsIn(first) + CallsIn(rest)
  {
    if first == [] {
      assert first + rest == rest;
    } else {
      assert (first + rest)[1..] == first[1..] + rest;
      CallsInBoth(first[1..], rest);
    }
  }

  // Nobody else does anything.
  predicate AllOwn(deeds: seq<Deed>) {
    forall i :: 0 <= i < |deeds| ==> deeds[i].Own?
  }

  // ---------------------------------------------------------------------
  // One deed
  // ---------------------------------------------------------------------

  // The same state but for the worker and the store.
  function At(s: M.State, id: TaskId, worker: M.Worker, view: View): M.State
    requires id in s.tasks
  {
    s.(tasks := s.tasks[id := s.tasks[id].(worker := worker)], store := view)
  }

  // The view holds what the store's record shows.
  predicate Holds(view: View, id: TaskId, found: Option<TaskInfo>) {
    if found.None? then id !in view else id in view && view[id] == Protocol(found.value)
  }

  lemma MeddledHolds(view: View, id: TaskId, found: Option<TaskInfo>, event: Event, now: real)
    requires Holds(view, id, found)
    ensures Holds(Meddled(view, id, event), id, Touched(found, event, now))
    ensures Meddled(view, id, event) - {id} == view - {id}
  {
  }

  predicate OfTheLoop(step: M.WorkStep) {
    step.Acquire? || step.Fetch? || step.SaveRunning? || step.ModuleReturns? || step.Refetch? || step.SaveRetry?
    || step.DelayOver? || step.Confirm? || step.SaveTerminal?
  }

  lemma OwnStep(s: M.State, id: TaskId, worker: M.Worker, view: View, step: M.WorkStep)
    requires id in s.tasks && T.TreeOk(s.tok.tree) && OfTheLoop(step)
    requires M.WorkEnabled(At(s, id, worker, view), id, step)
    ensures After(At(s, id, worker, view), id, Own(step)) ==
            Some(At(s, id, M.NextWorker(At(s, id, worker, view), id, step),
                    if step.SaveRunning? || step.SaveRetry? || step.SaveTerminal? then view[id := worker.info]
                    else view))
  {
    var here := At(s, id, worker, view);
    assert M.Apply(here, M.Work(id, step)).tasks ==
           s.tasks[id := s.tasks[id].(worker := M.NextWorker(here, id, step))];
  }

  lemma One(s: M.State, id: TaskId, deed: Deed)
    requires After(s, id, deed).Some?
    ensures Perform(s, id, [deed]) == After(s, id, deed)
  {
    assert [deed][1..] == [];
  }

  lemma Two(s: M.State, id: TaskId, first: Deed, second: Deed)
    requires After(s, id, first).Some? && After(After(s, id, first).value, id, second).Some?
    ensures Perform(s, id, [first, second]) == After(After(s, id, first).value, id, second)
  {
    One(s, id, first);
    One(After(s, id, first).value, id, second);
    PerformBoth(s, id, [first], [second]);
    assert [first] + [second] == [first, second];
  }

  // A look, behind what others did before it.
  function Look(event: Event, step: M.WorkStep): seq<Deed> {
    if event.Nothing? then [Own(step)] else [Others(event), Own(step)]
  }

  lemma LookCallsNothing(event: Event, step: M.WorkStep)
    requires !step.ModuleReturns?
    ensures CallsIn(Look(event, step)) == []
  {
    assert CallsIn([Own(step)]) == [];
    assert [Others(event)] + [Own(step)] == [Others(event), Own(step)];
    CallsInBoth([Others(event)], [Own(step)]);
  }

  lemma LookAt(s: M.State, id: TaskId, worker: M.Worker, view: View, event: Event, step: M.WorkStep)
    requires id in s.tasks && T.TreeOk(s.tok.tree) && (step.Fetch? || step.Refetch? || step.Confirm?)
    requires M.WorkEnabled(At(s, id, worker, view), id, step)
    ensures var touched := Meddled(view, id, event);
      && M.WorkEnabled(At(s, id, worker, touched), id, step)
      && Perform(At(s, id, worker, view), id, Look(event, step)) ==
           Some(At(s, id, M.NextWorker(At(s, id, worker, touched), id, step), touched))
    ensures CallsIn(Look(event, step)) == []
  {
    var touched := Meddled(view, id, event);
    OwnStep(s, id, worker, touched, step);
    LookCallsNothing(event, step);
    if event.Nothing? {
      One(At(s, id, worker, view), id, Own(step));
    } else {
      Two(At(s, id, worker, view), id, Others(event), Own(step));
    }
  }

  // ---------------------------------------------------------------------
  // The parts of a turn
  // ---------------------------------------------------------------------

  lemma FirstLook(s: M.State, id: TaskId, view: View, was: Option<TaskInfo>, event: Event, now: real)
    returns (deeds: seq<Deed>)
    requires id in s.tasks && T.TreeOk(s.tok.tree) && Holds(view, id, was)
    ensures var found, touched := Touched(was, event, now), Meddled(view, id, event);
      && Holds(touched, id, found) && touched - {id} == view - {id}
      && Perform(At(s, id, M.Acquiring, view), id, deeds) ==
           Some(At(s, id, if IsGone(found) then M.StartingDrain
                          else M.SavingRunning(Protocol(Started(found.value, now))), touched))
    ensures CallsIn(deeds) == [] && (event.Nothing? ==> AllOwn(deeds))
  {
    OwnStep(s, id, M.Acquiring, view, M.Acquire);
    One(At(s, id, M.Acquiring, view), id, Own(M.Acquire));
    LookAt(s, id, M.Fetching, view, event, M.Fetch);
    MeddledHolds(view, id, was, event, now);
    PerformBoth(At(s, id, M.Acquiring, view), id, [Own(M.Acquire)], Look(event, M.Fetch));
    CallsInBoth([Own(M.Acquire)], Look(event, M.Fetch));
    deeds := [Own(M.Acquire)] + Look(event, M.Fetch);
  }

  // The save of the started record, and the module's answer.
  lemma CallIt(s: M.State, id: TaskId, view: View, info: M.Record, ok: bool)
    requires id in s.tasks && T.TreeOk(s.tok.tree) && !M.InsideCall(s.tok, id)
    ensures Perform(At(s, id, M.SavingRunning(info), view), id, [Own(M.SaveRunning), Own(M.ModuleReturns(ok))]) ==
            Some(At(s, id, M.Refetching(ok), view[id := info]))
    ensures CallsIn([Own(M.SaveRunning), Own(M.ModuleReturns(ok))]) == [ok]
  {
    OwnStep(s, id, M.SavingRunning(info), view, M.SaveRunning);
    OwnStep(s, id, M.Calling, view[id := info], M.ModuleReturns(ok));
    Two(At(s, id, M.SavingRunning(info), view), id, Own(M.SaveRunning), Own(M.ModuleReturns(ok)));
    CallsInBoth([Own(M.SaveRunning)], [Own(M.ModuleReturns(ok))]);
    assert [Own(M.SaveRunning)] + [Own(M.ModuleReturns(ok))] == [Own(M.SaveRunning), Own(M.ModuleReturns(ok))];
  }

  lemma CallOut(s: M.State, id: TaskId, view: View, info: TaskInfo, ok: bool, event: Event, now: real)
    returns (deeds: seq<Deed>)
    requires id in s.tasks && T.TreeOk(s.tok.tree) && !M.InsideCall(s.tok, id)
    ensures var found, touched := Touched(Some(info), event, now), Meddled(view[id := Protocol(info)], id, event);
      && Holds(touched, id, found) && touched - {id} == view - {id}
      && Perform(At(s, id, M.SavingRunning(Protocol(info)), view), id, deeds) ==
           Some(At(s, id, if IsGone(found) then M.StartingDrain
                          else M.AfterCall(ok, Protocol(found.value), s.tasks[id].maxRetries), touched))
    ensures CallsIn(deeds) == [ok] && (event.Nothing? ==> AllOwn(deeds))
  {
    var start, saved := At(s, id, M.SavingRunning(Protocol(info)), view), view[id := Protocol(info)];
    var call := [Own(M.SaveRunning), Own(M.ModuleReturns(ok))];
    CallIt(s, id, view, Protocol(info), ok);
    LookAt(s, id, M.Refetching(ok), saved, event, M.Refetch);
    MeddledHolds(saved, id, Some(info), event, now);
    PerformBoth(start, id, call, Look(event, M.Refetch));
    CallsInBoth(call, Look(event, M.Refetch));
    deeds := call + Look(event, M.Refetch);
  }

  lemma RetryIt(s: M.State, id: TaskId, view: View, info: M.Record)
    requires id in s.tasks && T.TreeOk(s.tok.tree)
    ensures Perform(At(s, id, M.SavingRetry(info), view), id, [Own(M.SaveRetry), Own(M.DelayOver)]) ==
            Some(At(s, id, M.Acquiring, view[id := info]))
    ensures CallsIn([Own(M.SaveRetry), Own(M.DelayOver)]) == []
  {
    OwnStep(s, id, M.SavingRetry(info), view, M.SaveRetry);
    OwnStep(s, id, M.Sleeping, view[id := info], M.DelayOver);
    Two(At(s, id, M.SavingRetry(info), view), id, Own(M.SaveRetry), Own(M.DelayOver));
  }

  lemma FinishIt(s: M.State, id: TaskId, view: View, was: TaskInfo, done: TaskInfo, event: Event, now: real)
    returns (deeds: seq<Deed>, left: View)
    requires id in s.tasks && T.TreeOk(s.tok.tree) && Holds(view, id, Some(was))
    ensures var current := Touched(Some(was), event, now);
      Holds(left, id, if current.Some? && current.value.status.Cancelled? then current else Some(done))
    ensures left - {id} == view - {id}
    ensures Perform(At(s, id, M.Confirming(Protocol(done)), view), id, deeds) == Some(At(s, id, M.StartingDrain, left))
    ensures CallsIn(deeds) == [] && (event.Nothing? ==> AllOwn(deeds))
  {
    var start := At(s, id, M.Confirming(Protocol(done)), view);
    var current := Touched(Some(was), event, now);
    left := Meddled(view, id, event);
    deeds := Look(event, M.Confirm);
    LookAt(s, id, M.Confirming(Protocol(done)), view, event, M.Confirm);
    MeddledHolds(view, id, Some(was), event, now);
    if !(current.Some? && current.value.status.Cancelled?) {
      OwnStep(s, id, M.SavingTerminal(Protocol(done)), left, M.SaveTerminal);
      One(At(s, id, M.SavingTerminal(Protocol(done)), left), id, Own(M.SaveTerminal));
      PerformBoth(start, id, deeds, [Own(M.SaveTerminal)]);
      CallsInBoth(deeds, [Own(M.SaveTerminal)]);
      deeds, left := deeds + [Own(M.SaveTerminal)], left[id := Protocol(done)];
    }
  }

  // Both models make the same of the answered call.
  lemma AnsweredAlike(was: TaskInfo, retry: Option<RetryConfig>, outcome: Result<Value, string>, now: real)
    ensures var (turn, info) := Concluded(was, retry, outcome, now);
      && !turn.NotCalled?
      && M.AfterCall(outcome.Ok?, Protocol(was), MaxRetries(retry)) ==
           if turn.Again? then M.SavingRetry(Protocol(info)) else M.Confirming(Protocol(info))
  {
  }

  // From the answered call on.
  lemma ConcludeIt(s: M.State, id: TaskId, view: View, was: TaskInfo, retry: Option<RetryConfig>,
                   outcome: Result<Value, string>, event: Event, now: real)
    returns (deeds: seq<Deed>, left: View)
    requires id in s.tasks && T.TreeOk(s.tok.tree) && s.tasks[id].maxRetries == MaxRetries(retry)
    requires Holds(view, id, Some(was)) && !was.status.Cancelled?
    ensures var (turn, after) := SettledAs(Some(was), retry, outcome, Nothing, event, now);
      && Holds(left, id, after) && left - {id} == view - {id}
      && Perform(At(s, id, M.AfterCall(outcome.Ok?, Protocol(was), MaxRetries(retry)), view), id, deeds) ==
           Some(At(s, id, if turn.Again? then M.Acquiring else M.StartingDrain, left))
    ensures CallsIn(deeds) == [] && (event.Nothing? ==> AllOwn(deeds))
  {
    var (turn, info) := Concluded(was, retry, outcome, now);
    AnsweredAlike(was, retry, outcome, now);
    if turn.Again? {
      RetryIt(s, id, view, Protocol(info));
      deeds, left := [Own(M.SaveRetry), Own(M.DelayOver)], view[id := Protocol(info)];
    } else {
      deeds, left := FinishIt(s, id, view, was, info, event, now);
    }
  }

  // ---------------------------------------------------------------------
  // Turns and runs
  // ---------------------------------------------------------------------

  lemma Join(s: M.State, id: TaskId, first: seq<Deed>, mid: M.State, rest: seq<Deed>, b: M.State)
    requires Perform(s, id, first) == Some(mid) && Perform(mid, id, rest) == Some(b)
    ensures Perform(s, id, first + rest) == Some(b)
    ensures CallsIn(first + rest) == CallsIn(first) + CallsIn(rest)
  {
    PerformBoth(s, id, first, rest);
    CallsInBoth(first, rest);
  }

  // The worker of task `id` waits for a permit or has one, outside any call,
  // under the same retry policy as the loop.
  ghost predicate Ready(s: M.State, id: TaskId, retry: Option<RetryConfig>) {
    && id in s.tasks && T.TreeOk(s.tok.tree) && !M.InsideCall(s.tok, id)
    && s.tasks[id].maxRetries == MaxRetries(retry)
  }

  // From the second look on.
  lemma SettleIsWork(s: M.State, id: TaskId, view: View, info: TaskInfo, retry: Option<RetryConfig>,
                     outcome: Result<Value, string>, reread: Event, resave: Event, now: real)
    returns (deeds: seq<Deed>, left: View)
    requires Ready(s, id, retry)
    ensures var (turn, after) := SettledAs(Some(info), retry, outcome, reread, resave, now);
      && Holds(left, id, after) && left - {id} == view - {id}
      && Perform(At(s, id, M.SavingRunning(Protocol(info)), view), id, deeds) ==
           Some(At(s, id, if turn.Again? then M.Acquiring else M.StartingDrain, left))
    ensures CallsIn(deeds) == [outcome.Ok?] && (reread.Nothing? && resave.Nothing? ==> AllOwn(deeds))
  {
    var found := Touched(Some(info), reread, now);
    deeds := CallOut(s, id, view, info, outcome.Ok?, reread, now);
    left := Meddled(view[id := Protocol(info)], id, reread);
    if !IsGone(found) {
      var rest, last := ConcludeIt(s, id, left, found.value, retry, outcome, resave, now);
      var mid := At(s, id, M.AfterCall(outcome.Ok?, Protocol(found.value), MaxRetries(retry)), left);
      Join(At(s, id, M.SavingRunning(Protocol(info)), view), id, deeds, mid, rest, Perform(mid, id, rest).value);
      deeds, left := deeds + rest, last;
    }
  }

  predicate Reached(b: Option<M.State>) {
    b.None? || b.Some?
  }

  // `deeds` lead from `s` to `b`, said so that they unfold only where they are
  // asked about.
  ghost predicate Leads(s: M.State, id: TaskId, deeds: seq<Deed>, b: M.State) {
    forall o {:trigger Reached(o)} :: Reached(o) && o == Perform(s, id, deeds) ==> o == Some(b)
  }

  lemma LeadsThere(s: M.State, id: TaskId, deeds: seq<Deed>, b: M.State)
    ensures Leads(s, id, deeds, b) <==> Perform(s, id, deeds) == Some(b)
  {
    assert Reached(Perform(s, id, deeds));
  }

  // From the permit on, `deeds` lead the worker to `worker` and its record to
  // `found`, call the module with the answers `calls`, and leave the rest of
  // the store alone.
  ghost predicate Worked(s: M.State, id: TaskId, view: View, deeds: seq<Deed>, worker: M.Worker, left: View,
                         found: Option<TaskInfo>, calls: seq<bool>) {
    && id in s.tasks && Holds(left, id, found) && left - {id} == view - {id}
    && Leads(At(s, id, M.Acquiring, view), id, deeds, At(s, id, worker, left))
    && CallsIn(deeds) == calls
  }

  lemma WorkedOn(s: M.State, id: TaskId,
                 view: View, deeds: seq<Deed>, mid: View, was: Option<TaskInfo>, calls: seq<bool>,
                 rest: seq<Deed>, worker: M.Worker, left: View, found: Option<TaskInfo>, more: seq<bool>)
    requires Worked(s, id, view, deeds, M.Acquiring, mid, was, calls)
    requires Worked(s, id, mid, rest, worker, left, found, more)
    ensures Worked(s, id, view, deeds + rest, worker, left, found, calls + more)
  {
    LeadsThere(At(s, id, M.Acquiring, view), id, deeds, At(s, id, M.Acquiring, mid));
    LeadsThere(At(s, id, M.Acquiring, mid), id, rest, At(s, id, worker, left));
    Join(At(s, id, M.Acquiring, view), id, deeds, At(s, id, M.Acquiring, mid), rest, At(s, id, worker, left));
    LeadsThere(At(s, id, M.Acquiring, view), id, deeds + rest, At(s, id, worker, left));
  }

  function WorkerAfter(turn: Turn): M.Worker {
    if turn.Again? then M.Acquiring else M.StartingDrain
  }

  // A turn of the loop is a sequence of deeds of the machine's worker.
  lemma TurnIsWork(s: M.State, id: TaskId, view: View, was: Option<TaskInfo>, retry: Option<RetryConfig>,
                   outcome: Result<Value, string>, events: nat -> Event, looks: nat, now: real)
    returns (deeds: seq<Deed>, left: View)
    requires Ready(s, id, retry) && Holds(view, id, was)
    ensures var (turn, after) := TurnOf(was, retry, outcome, events, looks, now);
      Worked(s, id, view, deeds, WorkerAfter(turn), left, after, if turn.NotCalled? then [] else [outcome.Ok?])
    ensures (forall k: nat :: events(k).Nothing?) ==> AllOwn(deeds)
  {
    var found := Touched(was, events(looks), now);
    deeds := FirstLook(s, id, view, was, events(looks), now);
    left := Meddled(view, id, events(looks));
    if !IsGone(found) {
      var info := Started(found.value, now);
      var rest, last := SettleIsWork(s, id, left, info, retry, outcome, events(looks + 1), events(looks + 2), now);
      var b := Perform(At(s, id, M.SavingRunning(Protocol(info)), left), id, rest).value;
      Join(At(s, id, M.Acquiring, view), id, deeds, At(s, id, M.SavingRunning(Protocol(info)), left), rest, b);
      deeds, left := deeds + rest, last;
    }
    LeadsThere(At(s, id, M.Acquiring, view), id, deeds,
               At(s, id, WorkerAfter(TurnOf(was, retry, outcome, events, looks, now).0), left));
  }

  // Did the n-th call and those behind it, up to `calls` of them all, succeed?
  function Answers(outcomes: nat -> Result<Value, string>, n: nat, calls: nat): seq<bool>
    decreases calls - n
  {
    if n >= calls then [] else [outcomes(n).Ok?] + Answers(outcomes, n + 1, calls)
  }

  lemma AnswersFrom(outcomes: nat -> Result<Value, string>, n: nat, calls: nat)
    ensures calls == n ==> Answers(outcomes, n, calls) == []
    ensures calls == n + 1 ==> Answers(outcomes, n, calls) == [outcomes(n).Ok?]
    ensures calls > n ==> Answers(outcomes, n, calls) == [outcomes(n).Ok?] + Answers(outcomes, n + 1, calls)
  {
  }

  // The n-th turn, and what is left of the run behind it.
  lemma TurnOfRun(s: M.State, id: TaskId, view: View, was: Option<TaskInfo>, retry: Option<RetryConfig>,
                  outcomes: nat -> Result<Value, string>, events: nat -> Event, n: nat, slept: nat, now: real, ran: Ran)
    returns (turn: Turn, after: Option<TaskInfo>, deeds: seq<Deed>, left: View)
    requires Ready(s, id, retry) && Holds(view, id, was)
    requires RunsAs(was, retry, outcomes, events, n, slept, now, ran)
    ensures !turn.Again? ==>
      n <= ran.calls && Worked(s, id, view, deeds, M.StartingDrain, left, ran.after, Answers(outcomes, n, ran.calls))
    ensures turn.Again? ==>
      Holds(left, id, after) && Worked(s, id, view, deeds, M.Acquiring, left, after, [outcomes(n).Ok?])
    ensures (forall k: nat :: events(k).Nothing?) ==> AllOwn(deeds)
    ensures turn.Again? ==> RunsAs(after, retry, outcomes, events, n + 1, slept + turn.delay, now, ran)
  {
    RunIsNamed(was, retry, outcomes, events, n, slept, now, ran);
    var ended := TurnOf(was, retry, outcomes(n), events, 3 * n, now);
    turn, after := ended.0, ended.1;
    NextTurn(was, retry, outcomes, events, n, slept, now, turn, after);
    deeds, left := TurnIsWork(s, id, view, was, retry, outcomes(n), events, 3 * n, now);
    AnswersFrom(outcomes, n, ran.calls);
  }

  // A turn that asks for another, and the turns behind it.
  lemma TurnsJoin(s: M.State, id: TaskId, view: View, deeds: seq<Deed>, left: View, after: Option<TaskInfo>,
                  rest: seq<Deed>, last: View, ran: Ran, outcomes: nat -> Result<Value, string>, n: nat)
    requires n < ran.calls && Worked(s, id, view, deeds, M.Acquiring, left, after, [outcomes(n).Ok?])
    requires Worked(s, id, left, rest, M.StartingDrain, last, ran.after, Answers(outcomes, n + 1, ran.calls))
    ensures Worked(s, id, view, deeds + rest, M.StartingDrain, last, ran.after, Answers(outcomes, n, ran.calls))
  {
    AnswersFrom(outcomes, n, ran.calls);
    WorkedOn(s, id, view, deeds, left, after, [outcomes(n).Ok?],
             rest, M.StartingDrain, last, ran.after, Answers(outcomes, n + 1, ran.calls));
  }

  lemma {:induction false} TurnsAreWork(
      s: M.State, id: TaskId, view: View, was: Option<TaskInfo>, retry: Option<RetryConfig>,
      outcomes: nat -> Result<Value, string>, events: nat -> Event, n: nat, slept: nat, now: real, ran: Ran)
    returns (deeds: seq<Deed>, left: View)
    requires Ready(s, id, retry) && Holds(view, id, was)
    requires RunsAs(was, retry, outcomes, events, n, slept, now, ran)
    ensures n <= ran.calls
    ensures Worked(s, id, view, deeds, M.StartingDrain, left, ran.after, Answers(outcomes, n, ran.calls))
    ensures (forall k: nat :: events(k).Nothing?) ==> AllOwn(deeds)
    decreases MaxRetries(retry) - n
  {
    var turn, after;
    turn, after, deeds, left := TurnOfRun(s, id, view, was, retry, outcomes, events, n, slept, now, ran);
    if turn.Again? {
      var rest, last := TurnsAreWork(s, id, left, after, retry, outcomes, events, n + 1, slept + turn.delay, now, ran);
      TurnsJoin(s, id, view, deeds, left, after, rest, last, ran, outcomes, n);
      deeds, left := deeds + rest, last;
    }
  }

  // ---------------------------------------------------------------------
  // RunTask and the manager
  // ---------------------------------------------------------------------

  lemma ShownAfter(before: seq<TaskInfo>, after: seq<TaskInfo>, view: View, left: View, id: TaskId)
    requires Shows(before, view) && ChangesOnly(before, after, id)
    requires left - {id} == view - {id} && Holds(left, id, Lookup(after, id))
    ensures Shows(after, left)
  {
    forall other | other != id ensures other in left <==> other in view
    {
      assert other in left - {id} <==> other in view - {id};
    }
    forall other | other != id && other in view ensures left[other] == view[other]
    {
      assert (left - {id})[other] == (view - {id})[other];
    }
  }

  // The run that leads from `s` to a drained task, for what RunTask ensures.
  ghost predicate IsWorkOf(s: M.State, id: TaskId, deeds: seq<Deed>, b: M.State, after: seq<TaskInfo>,
                           outcomes: nat -> Result<Value, string>, calls: nat) {
    && id in s.tasks && Perform(s, id, deeds) == Some(b)
    && b == At(s, id, M.StartingDrain, b.store) && Shows(after, b.store)
    && CallsIn(deeds) == Answers(outcomes, 0, calls)
  }

  // RunTask, whatever is done to the record before each look: what its
  // contract says of the list, the calls and the record is what the machine's
  // worker does, step by step, from the permit to the drain.
  lemma RunTaskIsWork(s: M.State, id: TaskId, before: seq<TaskInfo>, after: seq<TaskInfo>, retry: Option<RetryConfig>,
                      outcomes: nat -> Result<Value, string>, events: nat -> Event, now: real, calls: nat, slept: nat)
    returns (deeds: seq<Deed>, b: M.State)
    requires Ready(s, id, retry) && s.tasks[id].worker.Acquiring? && Shows(before, s.store)
    requires ChangesOnly(before, after, id)
    requires Ran(calls, slept, Lookup(after, id)) == RunOf(Lookup(before, id), retry, outcomes, events, 0, 0, now)
    ensures IsWorkOf(s, id, deeds, b, after, outcomes, calls)
    ensures (forall k: nat :: events(k).Nothing?) ==> AllOwn(deeds)
  {
    var left;
    deeds, left := TurnsAreWork(s, id, s.store, Lookup(before, id), retry, outcomes, events, 0, 0, now,
                                Ran(calls, slept, Lookup(after, id)));
    assert s.tasks[id := s.tasks[id].(worker := M.Acquiring)] == s.tasks;
    assert At(s, id, M.Acquiring, s.store) == s;
    b := At(s, id, M.StartingDrain, left);
    LeadsThere(s, id, deeds, b);
    ShownAfter(before, after, s.store, left, id);
  }

  lemma {:induction false} OwnDeedsAreARun(s: M.State, id: TaskId, deeds: seq<Deed>)
    requires L.Reachable(s) && AllOwn(deeds) && Perform(s, id, deeds).Some?
    ensures L.Reachable(Perform(s, id, deeds).value)
    decreases |deeds|
  {
    if deeds != [] {
      var b := F.Go(s, M.Work(id, deeds[0].step));
      OwnDeedsAreARun(b, id, deeds[1..]);
    }
  }

  // A worker with a permit to wait for is outside any call.
  lemma AcquiringIsReady(s: M.State, id: TaskId, retry: Option<RetryConfig>)
    requires L.Reachable(s) && id in s.tasks && s.tasks[id].worker.Acquiring?
    requires s.tasks[id].maxRetries == MaxRetries(retry)
    ensures Ready(s, id, retry)
  {
    L.ReachableInv(s);
  }

  // A RunTask that is left alone is a run of the manager.
  lemma RunTaskIsARun(s: M.State, id: TaskId, before: seq<TaskInfo>, after: seq<TaskInfo>, retry: Option<RetryConfig>,
                      outcomes: nat -> Result<Value, string>, events: nat -> Event, now: real, calls: nat, slept: nat)
    returns (deeds: seq<Deed>, b: M.State)
    requires L.Reachable(s) && id in s.tasks && s.tasks[id].worker.Acquiring?
    requires s.tasks[id].maxRetries == MaxRetries(retry)
    requires Shows(before, s.store) && ChangesOnly(before, after, id) && forall k: nat :: events(k).Nothing?
    requires Ran(calls, slept, Lookup(after, id)) == RunOf(Lookup(before, id), retry, outcomes, events, 0, 0, now)
    ensures L.Reachable(b) && AllOwn(deeds) && IsWorkOf(s, id, deeds, b, after, outcomes, calls)
  {
    AcquiringIsReady(s, id, retry);
    deeds, b := RunTaskIsWork(s, id, before, after, retry, outcomes, events, now, calls, slept);
    OwnDeedsAreARun(s, id, deeds);
  }
}
