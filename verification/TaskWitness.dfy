// Two runs in which `cancel` answers true while module code is live beneath the
// cancelled task's token: its call had passed the cancellation check before the
// signal and was spawned after the drain. In one the call is made by another
// task, which the cancelled one had submitted; in the other by code that has
// detached itself, with no other task around. Each call has a child token of
// its context's (src/builtin_steps.rs:238-242). The module of the cancelled
// task has a timeout of zero, so it runs in its worker, untracked.
module TaskWitness {
  import opened TaskStatuses
  import opened Wrappers
  import opened TaskManager
  import opened TaskLaws
  import opened TaskFutures
  import T = CancelTokens
  import L = CancelLaws
  import Tk = TaskTokens

  // A step that leaves the tokens alone.
  lemma Do(s: State, step: Step) returns (b: State)
    requires Reachable(s) && T.TreeOk(s.tok.tree) && ManagerEnabled(s, step) && TokenPart(s, step).None?
    ensures Reachable(b) && b == ApplyManager(s, step)
  {
    b := Go(s, step);
    assert b == ApplyManager(s, step);
  }

  // Nothing tracked, no drain going on, nobody cancelling or admitting.
  ghost predicate Idle(s: State) {
    && T.TreeOk(s.tok.tree)
    && s.tok.execs == map[] && s.tok.active == map[] && s.tok.procs == map[]
    && s.admission.None? && s.cancels == map[] && s.cancelLock.None?
  }

  lemma AskIt(s: State, id: TaskId, parent: Option<T.TokenId>) returns (b: State)
    requires Reachable(s) && Idle(s) && id !in s.tasks && id !in s.store
    requires (parent.Some? ==> parent.value < |s.tok.tree|)
    ensures Reachable(b)
    ensures b == s.(tasks := s.tasks[id := Task(0, parent, Counting, NotStarted, 0, false, false)],
                    admission := Some(id))
  {
    b := Do(s, NewSubmission(id, parent, 0));
    b := Do(b, Submit(id, LockAdmission));
  }

  lemma AdmitIt(s: State, id: TaskId) returns (b: State)
    requires Reachable(s) && T.TreeOk(s.tok.tree) && id in s.tasks && s.tasks[id].submission.Counting?
    requires |ActiveIds(s.store)| < s.maxTasks
    ensures Reachable(b)
    ensures b == s.(tasks := s.tasks[id := s.tasks[id].(submission := Registering)],
                    store := s.store[id := Record(Pending, 0, s.tasks[id].maxRetries)], admission := None)
  {
    b := Do(s, Submit(id, Count));
    b := Do(b, Submit(id, SaveNew));
  }

  lemma SpawnIt(s: State, id: TaskId) returns (b: State)
    requires Reachable(s) && Idle(s) && id in s.tasks && s.tasks[id].submission.Spawning? && !s.tasks[id].finished
    ensures Reachable(b)
    ensures b == s.(tasks := s.tasks[id := s.tasks[id].(submission := Submitted, worker := Acquiring)],
                    handles := s.handles + {id})
  {
    b := Do(s, Submit(id, SpawnWorker));
    b := Do(b, Submit(id, PublishHandle));
  }

  lemma RegisterIt(s: State, id: TaskId) returns (b: State)
    requires Reachable(s) && Idle(s) && id in s.tasks && s.tasks[id].submission.Registering?
    requires s.tasks[id].parent.Some? ==> s.tasks[id].parent.value < |s.tok.tree|
    ensures Reachable(b)
    ensures b == s.(tasks := s.tasks[id := s.tasks[id].(submission := Spawning, token := |s.tok.tree|)],
                    tokens := s.tokens + {id},
                    tok := s.tok.(tree := s.tok.tree + [T.Node(s.tasks[id].parent)]))
  {
    b := Go(s, Submit(id, RegisterToken));
  }

  lemma StartIt(s: State, id: TaskId) returns (b: State)
    requires Reachable(s) && Idle(s)
    requires id in s.tasks && s.tasks[id].worker.Acquiring? && id in s.store && s.store[id].status.Pending?
    ensures Reachable(b)
    ensures b == s.(tasks := s.tasks[id := s.tasks[id].(worker := Calling)],
                    store := s.store[id := s.store[id].(status := Running)])
  {
    b := Do(s, Work(id, Acquire));
    b := Do(b, Work(id, Fetch));
    b := Do(b, Work(id, SaveRunning));
  }

  // From the call of `submit` to the registered token, and on to the module's
  // code.
  lemma PlaceIt(s: State, id: TaskId, parent: Option<T.TokenId>) returns (b: State)
    requires Reachable(s) && Idle(s) && id !in s.tasks && id !in s.store
    requires (parent.Some? ==> parent.value < |s.tok.tree|) && |ActiveIds(s.store)| < s.maxTasks
    ensures Reachable(b)
    ensures b == s.(tasks := s.tasks[id := Task(0, parent, Spawning, NotStarted, |s.tok.tree|, false, false)],
                    store := s.store[id := Record(Pending, 0, 0)], tokens := s.tokens + {id},
                    tok := s.tok.(tree := s.tok.tree + [T.Node(parent)]))
  {
    var b1 := AskIt(s, id, parent);
    var b2 := AdmitIt(b1, id);
    b := RegisterIt(b2, id);
  }

  lemma RunIt(s: State, id: TaskId) returns (b: State)
    requires Reachable(s) && Idle(s) && id in s.tasks && s.tasks[id].submission.Spawning? && !s.tasks[id].finished
    requires id in s.store && s.store[id].status.Pending?
    ensures Reachable(b)
    ensures b == s.(tasks := s.tasks[id := s.tasks[id].(submission := Submitted, worker := Calling)],
                    store := s.store[id := s.store[id].(status := Running)], handles := s.handles + {id})
  {
    b := SpawnIt(s, id);
    b := StartIt(b, id);
  }

  // A cancellation, up to the join.
  lemma LockIt(s: State, c: CancelId, id: TaskId) returns (b: State)
    requires Reachable(s) && T.TreeOk(s.tok.tree) && s.cancels == map[] && s.cancelLock.None?
    requires id in s.tasks && s.tasks[id].submission.Submitted?
    ensures Reachable(b) && b == s.(cancels := map[c := Looking(id)], cancelLock := Some(c))
  {
    b := Do(s, NewCancel(c, id));
    b := Do(b, Cancel(c, Lock));
    assert b.cancels == map[c := Looking(id)];
  }

  lemma TakeIt(s: State, c: CancelId, id: TaskId) returns (b: State)
    requires Reachable(s) && T.TreeOk(s.tok.tree) && id in s.tasks && StillActive(s.store, id) && id in s.handles
    requires s.cancels == map[c := Looking(id)] && s.cancelLock == Some(c)
    ensures Reachable(b) && b == s.(cancels := map[c := Aborting(id)], handles := s.handles - {id})
  {
    b := Do(s, Cancel(c, Look));
    b := Do(b, Cancel(c, Take));
    assert b.cancels == map[c := Aborting(id)];
  }

  lemma SignalWorker(s: State, c: CancelId, id: TaskId) returns (b: State)
    requires Reachable(s) && T.TreeOk(s.tok.tree)
    requires id in s.tasks && s.cancels == map[c := Aborting(id)] && s.cancelLock == Some(c)
    ensures Reachable(b)
    ensures b == s.(tasks := s.tasks[id := s.tasks[id].(abortAsked := true)], cancels := map[c := Joining(id)])
  {
    b := Do(s, Cancel(c, AskAbort));
    assert b.cancels == map[c := Joining(id)];
  }

  lemma AbortIt(s: State, c: CancelId, id: TaskId) returns (b: State)
    requires Reachable(s) && T.TreeOk(s.tok.tree) && !InsideCall(s.tok, id)
    requires id in s.tasks && s.tasks[id].worker.Calling? && s.cancels == map[c := Aborting(id)]
    requires s.cancelLock == Some(c)
    ensures Reachable(b)
    ensures b == s.(tasks := s.tasks[id := s.tasks[id].(worker := Ended, abortAsked := true)],
                    cancels := map[c := Joining(id)])
  {
    b := SignalWorker(s, c, id);
    b := Do(b, Work(id, AbortWorker));
  }

  lemma FindIt(s: State, c: CancelId, id: TaskId) returns (b: State)
    requires Reachable(s) && T.TreeOk(s.tok.tree) && id in s.tasks && s.tasks[id].worker.Ended? && id in s.tokens
    requires s.cancels == map[c := Joining(id)] && s.cancelLock == Some(c)
    ensures Reachable(b) && b == s.(cancels := map[c := Signalling(id)])
  {
    b := Do(s, Cancel(c, Joined));
    b := Do(b, Cancel(c, FindToken));
    assert b.cancels == map[c := Signalling(id)];
  }

  lemma SignalIt(s: State, c: CancelId, id: TaskId) returns (b: State)
    requires Reachable(s) && T.TreeOk(s.tok.tree) && id in s.tasks && s.tasks[id].token < |s.tok.tree|
    requires s.cancels == map[c := Signalling(id)] && s.cancelLock == Some(c)
    ensures Reachable(b)
    ensures b == s.(cancels := map[c := Stopping(id)],
                    tok := s.tok.(cancelled := s.tok.cancelled + {s.tasks[id].token}))
  {
    b := Go(s, Cancel(c, Signal));
    assert b.cancels == map[c := Stopping(id)];
  }

  lemma StopIt(s: State, c: CancelId, id: TaskId, p: T.ProcId) returns (b: State)
    requires Reachable(s) && T.TreeOk(s.tok.tree) && id in s.tasks && s.tasks[id].token < |s.tok.tree|
    requires s.tok.procs == map[]
    requires s.cancels == map[c := Stopping(id)] && s.cancelLock == Some(c)
    ensures Reachable(b)
    ensures b == s.(cancels := map[c := Draining(id, p)],
                    tok := s.tok.(procs := map[p := T.Flagging(s.tasks[id].token)]))
  {
    b := Go(s, Cancel(c, Stop(p)));
    assert b.cancels == map[c := Draining(id, p)];
    assert b.tok.procs == map[p := T.Flagging(s.tasks[id].token)];
  }

  lemma DoToken(s: State, st: T.Step) returns (b: State)
    requires Reachable(s) && T.TreeOk(s.tok.tree) && FreeTokenStep(s, st) && T.Enabled(s.tok, st)
    ensures Reachable(b) && b == s.(tok := T.Apply(s.tok, st))
  {
    b := Go(s, TokenStep(st));
  }

  // The sweep and the drain of an empty scope.
  lemma SweepIt(s: State, p: T.ProcId, t: T.TokenId) returns (b: State)
    requires Reachable(s) && T.TreeOk(s.tok.tree) && s.tok.active == map[] && s.tok.procs == map[p := T.Flagging(t)]
    ensures Reachable(b)
    ensures b == s.(tok := s.tok.(abortRequested := s.tok.abortRequested + {t}, procs := map[p := T.Firing(t, {})]))
  {
    b := DoToken(s, T.StoreFlag(p));
    b := DoToken(b, T.Sweep(p));
    assert b.tok.active == map[] && b.tok.procs[p].pending == {};
    assert b.tok.procs == map[p := T.Firing(t, {})];
  }

  lemma FireIt(s: State, p: T.ProcId, t: T.TokenId) returns (b: State)
    requires Reachable(s) && T.TreeOk(s.tok.tree) && s.tok.procs == map[p := T.Firing(t, {})]
    ensures Reachable(b) && b == s.(tok := s.tok.(procs := map[p := T.Enabling(t, true)]))
  {
    b := DoToken(s, T.FinishFiring(p));
    assert b.tok.procs == map[p := T.Enabling(t, true)];
  }

  lemma DrainIt(s: State, p: T.ProcId, t: T.TokenId) returns (b: State)
    requires Reachable(s) && T.TreeOk(s.tok.tree) && s.tok.active == map[]
    requires s.tok.procs == map[p := T.Enabling(t, true)]
    ensures Reachable(b) && b == s.(tok := s.tok.(procs := map[p := T.Drained(t, true)]))
  {
    b := DoToken(s, T.Enable(p));
    b := DoToken(b, T.Check(p));
    assert b.tok.procs == map[p := T.Drained(t, true)];
  }

  lemma ForgetIt(s: State, c: CancelId, id: TaskId, p: T.ProcId) returns (b: State)
    requires Reachable(s) && T.TreeOk(s.tok.tree) && id in s.tasks && p in s.tok.procs && s.tok.procs[p].Drained?
    requires s.cancels == map[c := Draining(id, p)] && s.cancelLock == Some(c)
    ensures Reachable(b) && b == s.(cancels := map[c := Rechecking(id)], tokens := s.tokens - {id})
  {
    b := Do(s, Cancel(c, TaskManager.Stopped));
    b := Do(b, Cancel(c, Forget));
    assert b.cancels == map[c := Rechecking(id)];
  }

  lemma AnswerIt(s: State, c: CancelId, id: TaskId) returns (b: State)
    requires Reachable(s) && T.TreeOk(s.tok.tree) && id in s.tasks && StillActive(s.store, id)
    requires s.cancels == map[c := Rechecking(id)] && s.cancelLock == Some(c)
    ensures Reachable(b)
    ensures b == s.(cancels := map[c := Done(id, true)], cancelLock := None,
                    store := s.store[id := s.store[id].(status := Cancelled)])
  {
    b := Do(s, Cancel(c, Recheck));
    b := Do(b, Cancel(c, Overwrite));
    assert b.cancels == map[c := Done(id, true)];
  }

  // A cancellation of a task that is calling its module, up to the end of its
  // drain, over a scope with no record in it.
  lemma StopWhole(s: State, c: CancelId, id: TaskId, p: T.ProcId) returns (b: State)
    requires Reachable(s) && T.TreeOk(s.tok.tree) && s.cancels == map[] && s.cancelLock.None?
    requires s.tok.active == map[] && s.tok.procs == map[] && !InsideCall(s.tok, id)
    requires id in s.tasks && s.tasks[id].submission.Submitted? && s.tasks[id].worker.Calling?
    requires StillActive(s.store, id) && id in s.handles && id in s.tokens && s.tasks[id].token < |s.tok.tree|
    ensures Reachable(b) && T.TreeOk(b.tok.tree)
    ensures b.cancels == map[c := Draining(id, p)] && b.cancelLock == Some(c) && b.store == s.store
    ensures b.tasks == s.tasks[id := s.tasks[id].(worker := Ended, abortAsked := true)]
    ensures b.tok.execs == s.tok.execs && b.tok.procs == map[p := T.Drained(s.tasks[id].token, true)]
    ensures s.tasks[id].token in b.tok.cancelled
  {
    var b1 := LockIt(s, c, id);
    var b2 := TakeIt(b1, c, id);
    var b3 := AbortIt(b2, c, id);
    var b4 := FindIt(b3, c, id);
    var b5 := SignalIt(b4, c, id);
    var b6 := StopIt(b5, c, id, p);
    var b7 := SweepIt(b6, p, s.tasks[id].token);
    var b8 := FireIt(b7, p, s.tasks[id].token);
    b := DrainIt(b8, p, s.tasks[id].token);
  }

  // What the promise would exclude: cancellation 0 has answered true, the flag
  // is set, and a call that `caller` made on the chain `scopes` is live beneath
  // the token.
  ghost predicate AnsweredOver(s: State, caller: T.Caller, scopes: seq<T.TokenId>) {
    && Reachable(s) && s.cancels == map[0 := Done(0, true)]
    && 0 in s.tasks && s.tasks[0].TokenMade() && s.tasks[0].token in s.tok.cancelled
    && exists e ::
         L.LiveBeneath(s.tok, e, s.tasks[0].token) && s.tok.execs[e].caller == caller && s.tok.execs[e].scopes == scopes
  }

  lemma PathTo(s: State, e: T.ExecId, t: T.TokenId) returns (path: seq<State>)
    requires Reachable(s) && t in s.tok.cancelled && e in s.tok.execs && L.Pending(s.tok.execs[e], t)
    ensures Continues(s, path, t) && OnlyCallMoves(s, path[|path| - 1]) && L.LiveBeneath(path[|path| - 1].tok, e, t)
  {
    ReachableInv(s);
    path := PendingCanSpawn(s, e, t);
  }

  // A call beneath `t` past its check is spawned, by steps of its own.
  lemma SpawnIn(s: State, e: T.ExecId, t: T.TokenId) returns (b: State)
    requires Reachable(s) && T.TreeOk(s.tok.tree) && t in s.tok.cancelled
    requires e in s.tok.execs && L.Pending(s.tok.execs[e], t)
    ensures Reachable(b) && b == s.(tok := b.tok) && t in b.tok.cancelled && T.TreeOk(b.tok.tree)
    ensures b.tok.procs == s.tok.procs
    ensures L.LiveBeneath(b.tok, e, t)
    ensures b.tok.execs[e].caller == s.tok.execs[e].caller && b.tok.execs[e].scopes == s.tok.execs[e].scopes
  {
    var path := PathTo(s, e, t);
    b := path[|path| - 1];
    ContinuesReachably(s, path, t, |path| - 1);
    SameCaller(s, path, t, e, |path| - 1);
  }

  // With a call beneath task 0's token past its check, the drain passes it by.
  lemma CancelPassesBy(s: State, e: T.ExecId)
    requires Reachable(s) && T.TreeOk(s.tok.tree) && s.cancels == map[] && s.cancelLock.None?
    requires s.tok.active == map[] && s.tok.procs == map[] && !InsideCall(s.tok, 0)
    requires 0 in s.tasks && s.tasks[0].submission.Submitted? && s.tasks[0].worker.Calling?
    requires StillActive(s.store, 0) && 0 in s.handles && 0 in s.tokens && s.tasks[0].token < |s.tok.tree|
    requires e in s.tok.execs && L.Pending(s.tok.execs[e], s.tasks[0].token)
    ensures exists b :: AnsweredOver(b, s.tok.execs[e].caller, s.tok.execs[e].scopes)
  {
    var t := s.tasks[0].token;
    var drained := StopWhole(s, 0, 0, 0);
    var live := SpawnIn(drained, e, t);
    var forgotten := ForgetIt(live, 0, 0, 0);
    var b := AnswerIt(forgotten, 0, 0);
    assert L.LiveBeneath(b.tok, e, t) && b.tok.execs[e] == live.tok.execs[e];
    assert AnsweredOver(b, s.tok.execs[e].caller, s.tok.execs[e].scopes);
  }

  lemma CallerNext(s: State, b: State, e: T.ExecId)
    requires Next(s, b) && T.Inv(s.tok) && e in s.tok.execs
    ensures e in b.tok.execs
    ensures b.tok.execs[e].caller == s.tok.execs[e].caller && b.tok.execs[e].scopes == s.tok.execs[e].scopes
  {
    var step :| Enabled(s, step) && b == Apply(s, step);
    assert e < s.tok.nextExec;
    if TokenPart(s, step).Some? {
      Tk.CallsGrow(s.tok, TokenPart(s, step).value, e);
      L.SpawnedStaysSpawned(s.tok, TokenPart(s, step).value, e);
    }
  }

  lemma {:induction false} SameCaller(s: State, path: seq<State>, t: T.TokenId, e: T.ExecId, n: nat)
    requires Reachable(s) && Continues(s, path, t) && n < |path| && e in s.tok.execs
    ensures e in path[n].tok.execs
    ensures path[n].tok.execs[e].caller == s.tok.execs[e].caller
    ensures path[n].tok.execs[e].scopes == s.tok.execs[e].scopes
  {
    if n > 0 {
      SameCaller(s, path, t, e, n - 1);
      ContinuesReachably(s, path, t, n - 1);
      assert T.Inv(path[n - 1].tok) by { ReachableInv(path[n - 1]); }
      assert StepsAt(path, n - 1);
      CallerNext(path[n - 1], path[n], e);
    }
  }

  const Start := State(2, T.Initial, map[], map[], {}, {}, None, map[], None, map[])

  lemma OneTask() returns (s: State)
    ensures Reachable(s)
    ensures s == Start.(tasks := map[0 := Task(0, None, Submitted, Calling, 0, false, false)],
                        store := map[0 := Record(Running, 0, 0)], handles := {0}, tokens := {0},
                        tok := T.Initial.(tree := [T.Node(None)]))
  {
    assert ActiveIds(Start.store) == {};
    assert IsRun([Start]) && [Start][|[Start]| - 1] == Start;
    var placed := PlaceIt(Start, 0, None);
    s := RunIt(placed, 0);
    assert s.tasks == map[0 := Task(0, None, Submitted, Calling, 0, false, false)];
  }

  // context_creation: a child of the token `t`.
  lemma ChildOf(s: State, t: T.TokenId) returns (b: State)
    requires Reachable(s) && T.TreeOk(s.tok.tree) && t < |s.tok.tree|
    ensures Reachable(b) && T.TreeOk(b.tok.tree)
    ensures b == s.(tok := s.tok.(tree := s.tok.tree + [T.Node(Some(t))]))
  {
    b := DoToken(s, T.NewToken(Some(t)));
  }

  // With no flag set a call passes its check, flag by flag.
  lemma {:induction false} PassesCheck(s: State, e: T.ExecId, k: nat) returns (b: State)
    requires Reachable(s) && T.TreeOk(s.tok.tree) && s.tok.cancelled == {}
    requires e in s.tok.execs && s.tok.execs[e].spawning == T.Loading(k) && k < |s.tok.execs[e].scopes|
    ensures Reachable(b)
    ensures b == s.(tok := s.tok.(execs := s.tok.execs[e := s.tok.execs[e].(spawning := T.Inserting(0))]))
    decreases |s.tok.execs[e].scopes| - k
  {
    b := DoToken(s, T.Load(e));
    if k + 1 < |s.tok.execs[e].scopes| {
      b := PassesCheck(b, e, k + 1);
    }
  }

  // A first call on the last token, up to the end of its check.
  lemma CallsOn(s: State, t: T.TokenId, caller: T.Caller) returns (b: State)
    requires Reachable(s) && T.TreeOk(s.tok.tree)
    requires s.tok.cancelled == {} && s.tok.execs == map[] && s.tok.nextExec == 0
    requires t < |s.tok.tree| && FreeTokenStep(s, T.Call(t, caller)) && !caller.Nested? && T.Chain(s.tok.tree, t) != []
    ensures Reachable(b) && b == s.(tok := b.tok) && b.tok == s.tok.(execs := b.tok.execs, nextExec := 1)
    ensures b.tok.execs == map[0 := T.Execution(t, T.Chain(s.tok.tree, t), caller, T.Inserting(0), T.NotSpawned, false)]
  {
    var called := DoToken(s, T.Call(t, caller));
    b := PassesCheck(called, 0, 0);
  }

  lemma Chains(tree: seq<T.Node>)
    requires tree == [T.Node(None), T.Node(Some(0)), T.Node(Some(1)), T.Node(Some(2))]
    ensures T.TreeOk(tree) && T.Chain(tree, 3) == [3, 2, 1, 0]
  {
    assert T.Chain(tree, 0) == [0];
    assert T.Chain(tree, 1) == [1, 0];
    assert T.Chain(tree, 2) == [2, 1, 0];
  }

  lemma ShortChains(tree: seq<T.Node>)
    requires tree == [T.Node(None), T.Node(Some(0)), T.Node(Some(1))]
    ensures T.TreeOk(tree) && T.Chain(tree, 2) == [2, 1, 0]
  {
    assert T.Chain(tree, 0) == [0];
    assert T.Chain(tree, 1) == [1, 0];
  }

  // Task 0 calls its module on a child of its token.
  lemma OneCall() returns (s: State)
    ensures Reachable(s) && Idle(s)
    ensures s == Start.(tasks := map[0 := Task(0, None, Submitted, Calling, 0, false, false)],
                        store := map[0 := Record(Running, 0, 0)], handles := {0}, tokens := {0},
                        tok := T.Initial.(tree := [T.Node(None), T.Node(Some(0))]))
  {
    var one := OneTask();
    s := ChildOf(one, 0);
  }

  // Two tasks calling their modules, the second submitted by the first's with
  // its own context; the last token is the second's call's.
  lemma TwoTasks() returns (s: State)
    ensures Reachable(s) && Idle(s)
    ensures s.tok == T.Initial.(tree := [T.Node(None), T.Node(Some(0)), T.Node(Some(1)), T.Node(Some(2))])
    ensures 0 in s.tasks && s.tasks[0] == Task(0, None, Submitted, Calling, 0, false, false)
    ensures 1 in s.tasks && s.tasks[1] == Task(0, Some(1), Submitted, Calling, 2, false, false)
    ensures StillActive(s.store, 0) && 0 in s.handles && 0 in s.tokens
  {
    var one := OneCall();
    assert ActiveIds(one.store) == {0};
    var placed := PlaceIt(one, 1, Some(1));
    var two := RunIt(placed, 1);
    s := ChildOf(two, 2);
  }

  // Detached code calls a module with the context of task 0's call.
  lemma DetachedIsPending() returns (s: State)
    ensures Reachable(s) && T.TreeOk(s.tok.tree) && |s.tok.tree| == 3
    ensures var one := Start.(tasks := map[0 := Task(0, None, Submitted, Calling, 0, false, false)],
                              store := map[0 := Record(Running, 0, 0)], handles := {0}, tokens := {0});
      && s == one.(tok := s.tok) && s.tok.active == map[] && s.tok.procs == map[]
      && s.tok.execs == map[0 := T.Execution(2, [2, 1, 0], T.Elsewhere, T.Inserting(0), T.NotSpawned, false)]
  {
    var one := OneCall();
    var child := ChildOf(one, 1);
    ShortChains(child.tok.tree);
    s := CallsOn(child, 2, T.Elsewhere);
  }

  // The second task's call passes its check.
  lemma NestedIsPending() returns (s: State)
    ensures Reachable(s) && T.TreeOk(s.tok.tree) && s.cancels == map[] && s.cancelLock.None?
    ensures |s.tok.tree| == 4 && s.tok.active == map[] && s.tok.procs == map[]
    ensures s.tok.execs == map[0 := T.Execution(3, [3, 2, 1, 0], T.Worker(1), T.Inserting(0), T.NotSpawned, false)]
    ensures 0 in s.tasks && s.tasks[0] == Task(0, None, Submitted, Calling, 0, false, false)
    ensures StillActive(s.store, 0) && 0 in s.handles && 0 in s.tokens
  {
    var two := TwoTasks();
    Chains(two.tok.tree);
    s := CallsOn(two, 3, T.Worker(1));
  }

  // `cancel` answers true over a live call of a nested task.
  lemma NestedCallOutlivesCancel()
    ensures exists b :: AnsweredOver(b, T.Worker(1), [3, 2, 1, 0])
  {
    var s := NestedIsPending();
    CancelPassesBy(s, 0);
  }

  // And over a live call of detached code, with no other task in the tree.
  lemma DetachedCallOutlivesCancel()
    ensures exists b :: AnsweredOver(b, T.Elsewhere, [2, 1, 0])
  {
    var s := DetachedIsPending();
    CancelPassesBy(s, 0);
  }
}
