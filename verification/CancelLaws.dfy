// What the token protocol promises, over every interleaving.
module CancelLaws {
  import opened Wrappers
  import opened CancelTokens
  import opened CancelProofs

  ghost predicate StepsAt(run: seq<State>, i: nat)
    requires i < |run| - 1
  {
    Next(run[i], run[i + 1])
  }

  ghost predicate IsRun(run: seq<State>) {
    && run != [] && run[0] == Initial
    && forall i: nat :: i < |run| - 1 ==> StepsAt(run, i)
  }

  // The states that some interleaving of steps leads to.
  ghost predicate Reachable(s: State) {
    exists run :: IsRun(run) && run[|run| - 1] == s
  }

  lemma NextKeepsInv(s: State, t: State)
    requires Inv(s) && Next(s, t)
    ensures Inv(t)
  {
    var step :| Enabled(s, step) && t == Apply(s, step);
    StepKeepsInv(s, step);
  }

  lemma {:induction false} RunKeepsInv(run: seq<State>, n: nat)
    requires IsRun(run) && n < |run|
    ensures Inv(run[n])
  {
    if n > 0 {
      RunKeepsInv(run, n - 1);
      assert StepsAt(run, n - 1);
      NextKeepsInv(run[n - 1], run[n]);
    }
  }

  lemma ReachableInv(s: State)
    requires Reachable(s)
    ensures Inv(s)
  {
    var run :| IsRun(run) && run[|run| - 1] == s;
    RunKeepsInv(run, |run| - 1);
  }

  // Position of a token in an execution's chain.
  lemma InScopeAt(x: Execution, t: TokenId) returns (i: nat)
    requires t in x.scopes
    ensures i < |x.scopes| && x.scopes[i] == t
  {
    i :| 0 <= i < |x.scopes| && x.scopes[i] == t;
  }

  // Live module code is registered in every scope of its chain.
  lemma LiveIsActive(s: State, e: ExecId, t: TokenId)
    requires Inv(s) && e in s.execs && s.execs[e].body.Live? && t in s.execs[e].scopes
    ensures (t, e) in s.active
  {
    var i := InScopeAt(s.execs[e], t);
    assert ExecOk(s.tree, s.active, e, s.execs[e]);
  }

  lemma LiveAreActive(s: State, t: TokenId)
    requires Inv(s)
    ensures forall e :: e in s.execs && s.execs[e].body.Live? && t in s.execs[e].scopes ==> (t, e) in s.active
  {
    forall e | e in s.execs && s.execs[e].body.Live? && t in s.execs[e].scopes ensures (t, e) in s.active {
      LiveIsActive(s, e, t);
    }
  }

  lemma SweptIsAborted(s: State, p: ProcId, e: ExecId)
    requires Inv(s) && p in s.procs && e in s.execs
    requires PastSweep(s.procs[p]) && !s.procs[p].Firing?
    requires s.execs[e].spawning.Returned? && s.procs[p].token in s.execs[e].scopes
    ensures s.execs[e].aborted || s.execs[e].body.Dropping? || s.execs[e].body.Gone?
  {
    var x, t := s.execs[e], s.procs[p].token;
    assert ExecOk(s.tree, s.active, e, x);
    if x.body.Live? {
      LiveIsActive(s, e, t);
      var i := InScopeAt(x, t);
      assert SweepOk(s, s.procs[p]);
      assert SweptRecord(s, s.procs[p], e);
    }
  }

  // No lost abort: behind a completed sweep and firing of a scope, everything
  // spawn_tracked has returned for beneath it has finished or has had its
  // abort fired, whether it was inserted before the sweep or after it.
  lemma NoLostAbort(s: State, p: ProcId, e: ExecId)
    requires Reachable(s) && p in s.procs && e in s.execs
    requires PastSweep(s.procs[p]) && !s.procs[p].Firing?
    requires s.execs[e].spawning.Returned? && s.procs[p].token in s.execs[e].scopes
    ensures s.execs[e].aborted || s.execs[e].body.Dropping? || s.execs[e].body.Gone?
  {
    ReachableInv(s);
    SweptIsAborted(s, p, e);
  }

  // Where a drain that finds its scope empty leaves every execution beneath
  // it: not spawned and not yet registered in that scope, or already removed
  // from it on its way out, or gone. So none of them is live.
  lemma DrainIsSafe(s: State, p: ProcId, e: ExecId, i: nat)
    requires Reachable(s) && TreeOk(s.tree) && Enabled(s, Check(p)) && Apply(s, Check(p)).procs[p].Drained?
    requires e in s.execs && i < |s.execs[e].scopes| && s.execs[e].scopes[i] == s.procs[p].token
    ensures match s.execs[e].body
      case NotSpawned => s.execs[e].spawning.Inserting? ==> s.execs[e].spawning.done <= i
      case Live => false
      case Dropping(at, removed) => i < at || (i == at && removed)
      case Gone => true
  {
    ReachableInv(s);
    var x := s.execs[e];
    assert ExecOk(s.tree, s.active, e, x) && (x.scopes[i], e) !in s.active;
  }

  // No missed wakeup: a waiter parked on a scope that is empty has been
  // notified, or a finisher's very next step notifies it.
  lemma NoMissedWakeup(s: State, p: ProcId)
    requires Reachable(s) && TreeOk(s.tree)
    requires p in s.procs && s.procs[p].Parked? && ScopeEmpty(s, s.procs[p].token)
    ensures Enabled(s, Wake(p)) || exists e :: Enabled(s, Notify(e)) && WakesUp(s, p, e)
  {
    ReachableInv(s);
    if !s.procs[p].notified {
      OwedIsEnough(s, p);
    }
  }

  // Execution e's notification reaches the parked waiter p.
  ghost predicate WakesUp(s: State, p: ProcId, e: ExecId)
    requires TreeOk(s.tree) && Enabled(s, Notify(e)) && p in s.procs && s.procs[p].Parked?
  {
    Apply(s, Notify(e)).procs[p] == Parked(s.procs[p].token, s.procs[p].swept, true)
  }

  lemma OwedIsEnough(s: State, p: ProcId)
    requires TreeOk(s.tree) && WaitersOk(s)
    requires p in s.procs && s.procs[p].Parked? && !s.procs[p].notified && ScopeEmpty(s, s.procs[p].token)
    ensures exists e :: Enabled(s, Notify(e)) && WakesUp(s, p, e)
  {
    var e :| e in s.execs && OwesNotify(s.execs[e], s.procs[p].token);
    assert Enabled(s, Notify(e)) && WakesUp(s, p, e);
  }

  // ---------------------------------------------------------------------
  // What is removed from a scope stays out of it
  // ---------------------------------------------------------------------

  // The drop of x's registration is past its i-th scope.
  predicate PastScope(x: Execution, i: nat) {
    x.body.Gone? || (x.body.Dropping? && (i < x.body.at || (i == x.body.at && x.body.removed)))
  }

  // spawn_tracked has inserted x's record in its i-th scope.
  predicate HasEntered(x: Execution, i: nat) {
    x.body.NotSpawned? ==> x.spawning.Inserting? && i < x.spawning.done
  }

  lemma ScopeStep(s: State, step: Step, e: ExecId, i: nat)
    requires TreeOk(s.tree) && ExecsOk(s) && Enabled(s, step) && e in s.execs && i < |s.execs[e].scopes|
    ensures e in Apply(s, step).execs && Apply(s, step).execs[e].scopes == s.execs[e].scopes
    ensures HasEntered(s.execs[e], i) ==> HasEntered(Apply(s, step).execs[e], i)
    ensures PastScope(s.execs[e], i) ==> PastScope(Apply(s, step).execs[e], i)
  {
    assert ExecOk(s.tree, s.active, e, s.execs[e]);
  }

  lemma {:induction false} ScopeRun(run: seq<State>, i: nat, j: nat, e: ExecId, k: nat)
    requires IsRun(run) && i <= j < |run| && e in run[i].execs && k < |run[i].execs[e].scopes|
    ensures e in run[j].execs && run[j].execs[e].scopes == run[i].execs[e].scopes
    ensures HasEntered(run[i].execs[e], k) ==> HasEntered(run[j].execs[e], k)
    ensures PastScope(run[i].execs[e], k) ==> PastScope(run[j].execs[e], k)
  {
    if i < j {
      ScopeRun(run, i, j - 1, e, k);
      RunKeepsInv(run, j - 1);
      assert StepsAt(run, j - 1);
      var step :| Enabled(run[j - 1], step) && run[j] == Apply(run[j - 1], step);
      ScopeStep(run[j - 1], step, e, k);
    }
  }

  // The record of an execution in its i-th scope, by the execution's own state.
  lemma InScopeMeans(s: State, e: ExecId, i: nat)
    requires Inv(s) && e in s.execs && i < |s.execs[e].scopes|
    ensures (s.execs[e].scopes[i], e) in s.active <==> HasEntered(s.execs[e], i) && !PastScope(s.execs[e], i)
  {
    assert ExecOk(s.tree, s.active, e, s.execs[e]);
  }

  lemma ActiveIsKnown(s: State, t: TokenId, e: ExecId) returns (i: nat)
    requires Inv(s) && (t, e) in s.active
    ensures e in s.execs && i < |s.execs[e].scopes| && s.execs[e].scopes[i] == t
  {
    var k := (t, e);
    assert k.1 in s.execs;
    i := InScopeAt(s.execs[e], t);
  }

  // An id removed from a scope never reappears in that scope, whether or not
  // it is still in others.
  lemma RemovedStaysRemoved(run: seq<State>, i: nat, j: nat, k: nat, t: TokenId, e: ExecId)
    requires IsRun(run) && i <= j <= k < |run|
    requires (t, e) in run[i].active && (t, e) !in run[j].active
    ensures (t, e) !in run[k].active
  {
    RunKeepsInv(run, i);
    var at := ActiveIsKnown(run[i], t, e);
    InScopeMeans(run[i], e, at);
    ScopeRun(run, i, j, e, at);
    assert PastScope(run[j].execs[e], at) by {
      RunKeepsInv(run, j);
      InScopeMeans(run[j], e, at);
    }
    ScopeRun(run, j, k, e, at);
    RunKeepsInv(run, k);
    InScopeMeans(run[k], e, at);
  }

  // An abort that has fired is never taken back.
  lemma AbortedStaysAborted(s: State, step: Step, e: ExecId)
    requires TreeOk(s.tree) && Enabled(s, step)
    requires e in s.execs && s.execs[e].aborted && (forall f :: f in s.execs ==> f < s.nextExec)
    ensures e in Apply(s, step).execs && Apply(s, step).execs[e].aborted
  {
  }

  // ---------------------------------------------------------------------
  // Aborts are asked for
  // ---------------------------------------------------------------------

  // A drain that was not begun to abort.
  predicate IsPlain(proc: Proc) {
    match proc
    case Enabling(_, swept) => !swept
    case Checking(_, swept, _) => !swept
    case Parked(_, swept, _) => !swept
    case Drained(_, swept) => !swept
    case _ => false
  }

  // `drain` waits and aborts nothing, from its start to its end; only
  // `abort_owned_executions` begins by raising the flag.
  lemma PlainDrainsStayPlain(s: State, step: Step, p: ProcId)
    requires TreeOk(s.tree) && Enabled(s, step)
    ensures step.Start? && step.proc == p ==>
      Apply(s, step).procs[p] == if step.abort then Flagging(step.token) else Enabling(step.token, false)
    ensures p in s.procs && IsPlain(s.procs[p]) ==> p in Apply(s, step).procs && IsPlain(Apply(s, step).procs[p])
  {
  }

  // A scope is flagged for abort by a flagging proc alone, and an abort is
  // fired by a sweeper that has collected the handle or, at publication, by the
  // mark its record bears.
  lemma AbortsAreAskedFor(s: State, step: Step, t: TokenId, e: ExecId)
    requires TreeOk(s.tree) && Enabled(s, step)
    ensures t in Apply(s, step).abortRequested && t !in s.abortRequested ==>
      step.StoreFlag? && s.procs[step.proc] == Flagging(t)
    ensures e in Apply(s, step).execs && Apply(s, step).execs[e].aborted && !(e in s.execs && s.execs[e].aborted) ==>
      || (step.Fire? && step.exec == e && s.procs[step.proc].Firing? && e in s.procs[step.proc].pending)
      || (step == Publish(e) && s.execs[e].spawning.Publishing?
          && var key := (s.execs[e].scopes[s.execs[e].spawning.done], e);
             key in s.active && s.active[key].abortRequested)
  {
  }

  // ---------------------------------------------------------------------
  // Behind a cancelled flag
  // ---------------------------------------------------------------------

  // The call has loaded t's flag, found it clear, and has not been refused
  // since; or it is past its check altogether.
  predicate PastCheckOf(x: Execution, t: TokenId) {
    match x.spawning
    case Loading(done) => done <= |x.scopes| && t in x.scopes[..done]
    case Refused => false
    case _ => t in x.scopes
  }

  // The call is beneath t and past t's part of its check, and its module code
  // is still to be spawned.
  predicate Pending(x: Execution, t: TokenId) {
    t in x.scopes && x.body.NotSpawned? && PastCheckOf(x, t)
  }

  predicate LiveBeneath(s: State, e: ExecId, t: TokenId) {
    e in s.execs && t in s.execs[e].scopes && s.execs[e].body.Live?
  }

  ghost predicate NothingLive(s: State, t: TokenId) {
    forall e :: !LiveBeneath(s, e, t)
  }

  // No call beneath t is between its check of t and its spawn.
  ghost predicate NothingPending(s: State, t: TokenId) {
    forall e :: e in s.execs ==> !Pending(s.execs[e], t)
  }

  // Nothing beneath t is live, or can be without checking t's flag again.
  ghost predicate Quiet(s: State, t: TokenId) {
    NothingLive(s, t) && NothingPending(s, t)
  }

  // A drain that ends leaves nothing live beneath its scope.
  lemma EmptyIsNotLive(s: State, t: TokenId)
    requires Inv(s) && ScopeEmpty(s, t)
    ensures NothingLive(s, t)
  {
    LiveAreActive(s, t);
  }

  // The execution whose spawning or body a step moves.
  function Mover(step: Step): Option<ExecId> {
    match step
    case Load(e) => Some(e)
    case Insert(e) => Some(e)
    case Spawn(e) => Some(e)
    case Publish(e) => Some(e)
    case Return(e) => Some(e)
    case DropFuture(e) => Some(e)
    case Remove(e) => Some(e)
    case Notify(e) => Some(e)
    case _ => None
  }

  // Everything else stays where it is, or begins as a call yet to be checked.
  lemma OnlyMoverMoves(s: State, step: Step, e: ExecId)
    requires TreeOk(s.tree) && ExecsOk(s) && Enabled(s, step) && Mover(step) != Some(e) && e in Apply(s, step).execs
    ensures var x := Apply(s, step).execs[e];
      if e in s.execs then
        x.scopes == s.execs[e].scopes && x.spawning == s.execs[e].spawning && x.body == s.execs[e].body
      else
        x.spawning == Loading(0) && x.body == NotSpawned
  {
  }

  // The check is walked flag by flag, and the body is spawned behind it, once.
  lemma MoverMoves(s: State, step: Step, e: ExecId)
    requires TreeOk(s.tree) && ExecsOk(s) && Enabled(s, step) && Mover(step) == Some(e)
    ensures e in s.execs && e in Apply(s, step).execs && Apply(s, step).execs[e].scopes == s.execs[e].scopes
    ensures var x, y := s.execs[e], Apply(s, step).execs[e];
      && (y.body.NotSpawned? <==> x.body.NotSpawned? && !step.Spawn?)
      && (y.body.Live? ==> if step.Spawn? then x.spawning.Inserting? && x.body.NotSpawned? else x.body.Live?)
      && (step.Spawn? ==> y.body.Live? && x.spawning.Inserting?)
      && (if step.Load? then x.spawning.Loading? && x.spawning.done < |x.scopes|
            && y.spawning == AfterLoad(x, x.scopes[x.spawning.done] in s.cancelled)
          else !x.spawning.Loading? && !x.spawning.Refused? && !y.spawning.Loading? && !y.spawning.Refused?)
  {
    assert ExecOk(s.tree, s.active, e, s.execs[e]);
  }

  // While t is cancelled no call gets past t's part of its check.
  lemma NoNewPast(s: State, step: Step, t: TokenId, e: ExecId)
    requires TreeOk(s.tree) && ExecsOk(s) && Enabled(s, step) && t in s.cancelled
    requires e in Apply(s, step).execs && PastCheckOf(Apply(s, step).execs[e], t)
    ensures e in s.execs && PastCheckOf(s.execs[e], t)
    ensures s.execs[e].scopes == Apply(s, step).execs[e].scopes
  {
    if Mover(step) == Some(e) {
      MoverMoves(s, step, e);
      if step.Load? {
        LoadingOneMore(s.execs[e], t);
      }
    } else {
      OnlyMoverMoves(s, step, e);
    }
  }

  lemma LoadingOneMore(x: Execution, t: TokenId)
    requires x.spawning.Loading? && x.spawning.done < |x.scopes|
    ensures t in x.scopes[..x.spawning.done + 1] <==> t in x.scopes[..x.spawning.done] || t == x.scopes[x.spawning.done]
    ensures x.spawning.done + 1 == |x.scopes| ==> x.scopes[..x.spawning.done + 1] == x.scopes
  {
    assert x.scopes[..x.spawning.done + 1] == x.scopes[..x.spawning.done] + [x.scopes[x.spawning.done]];
  }

  // Module code comes to life by its own Spawn step, behind its whole check,
  // and by nothing else.
  lemma OnlySpawnRevives(s: State, step: Step, t: TokenId, e: ExecId)
    requires TreeOk(s.tree) && ExecsOk(s) && Enabled(s, step) && !LiveBeneath(s, e, t)
    ensures LiveBeneath(Apply(s, step), e, t) <==> step == Spawn(e) && t in s.execs[e].scopes
    ensures LiveBeneath(Apply(s, step), e, t) ==> Pending(s.execs[e], t)
  {
    if Mover(step) == Some(e) {
      MoverMoves(s, step, e);
    } else if e in Apply(s, step).execs {
      OnlyMoverMoves(s, step, e);
    }
  }

  // A spawn never happens twice, and a call never changes its chain.
  lemma SpawnedStaysSpawned(s: State, step: Step, e: ExecId)
    requires TreeOk(s.tree) && ExecsOk(s) && Enabled(s, step) && e in s.execs
    ensures e in Apply(s, step).execs && Apply(s, step).execs[e].scopes == s.execs[e].scopes
    ensures !s.execs[e].body.NotSpawned? ==> !Apply(s, step).execs[e].body.NotSpawned?
    ensures Apply(s, step).execs[e].body.Live? ==> s.execs[e].body.Live? || s.execs[e].body.NotSpawned?
  {
    StaysKnown(s, step, e);
    if Mover(step) == Some(e) {
      MoverMoves(s, step, e);
    } else {
      OnlyMoverMoves(s, step, e);
    }
  }

  lemma StaysKnown(s: State, step: Step, e: ExecId)
    requires TreeOk(s.tree) && Enabled(s, step) && e in s.execs
    ensures e in Apply(s, step).execs
  {
  }

  // A quiet scope stays quiet over every step for as long as its flag is set,
  // whoever holds the token.
  lemma QuietStaysQuiet(s: State, step: Step, t: TokenId)
    requires TreeOk(s.tree) && ExecsOk(s) && Enabled(s, step) && Quiet(s, t) && t in s.cancelled
    ensures Quiet(Apply(s, step), t)
  {
    var b := Apply(s, step);
    forall e ensures !LiveBeneath(b, e, t) {
      OnlySpawnRevives(s, step, t, e);
    }
    forall e | e in b.execs ensures !Pending(b.execs[e], t) {
      if Pending(b.execs[e], t) {
        NoNewPast(s, step, t, e);
        SpawnedStaysSpawned(s, step, e);
      }
    }
  }

  // With nothing live beneath, a step brings something to life exactly when it
  // is the spawn of a call that was pending.
  lemma RevivedExactlyBy(s: State, step: Step, t: TokenId)
    requires TreeOk(s.tree) && ExecsOk(s) && Enabled(s, step) && NothingLive(s, t)
    ensures !NothingLive(Apply(s, step), t) <==> step.Spawn? && Pending(s.execs[step.exec], t)
  {
    var b := Apply(s, step);
    if e :| LiveBeneath(b, e, t) {
      OnlySpawnRevives(s, step, t, e);
    }
    if step.Spawn? && Pending(s.execs[step.exec], t) {
      OnlySpawnRevives(s, step, t, step.exec);
    }
  }
}
