// Every step of the token protocol keeps its invariant, and what follows.
module CancelProofs {
  import opened CancelTokens

  lemma {:induction false} ChainStable(a: seq<Node>, b: seq<Node>, t: TokenId)
    requires TreeOk(a) && TreeOk(b) && a <= b && t < |a|
    ensures Chain(b, t) == Chain(a, t)
  {
    if a[t].parent.Some? {
      ChainStable(a, b, a[t].parent.value);
    }
  }

  // A chain starts at its token and walks strictly towards older tokens.
  lemma {:induction false} ChainDescends(tree: seq<Node>, t: TokenId)
    requires TreeOk(tree) && t < |tree|
    ensures Chain(tree, t)[0] == t
    ensures forall i :: 0 <= i < |Chain(tree, t)| ==> Chain(tree, t)[i] <= t
    ensures forall i, j :: 0 <= i < j < |Chain(tree, t)| ==> Chain(tree, t)[j] < Chain(tree, t)[i]
  {
    if tree[t].parent.Some? {
      ChainDescends(tree, tree[t].parent.value);
    }
  }

  // ---------------------------------------------------------------------
  // Steps of one execution: what each part of the invariant needs of them
  // ---------------------------------------------------------------------

  // `b` differs from `a` in execution `e` and in e's own records.
  ghost predicate OnlyExec(a: State, b: State, e: ExecId) {
    && b.tree == a.tree && b.abortRequested == a.abortRequested && b.nextExec == a.nextExec
    && e in a.execs && e in b.execs && b.execs == a.execs[e := b.execs[e]]
    && b.execs[e].token == a.execs[e].token
    && b.execs[e].scopes == a.execs[e].scopes
    && b.execs[e].caller == a.execs[e].caller
    && (forall k: (TokenId, ExecId) {:trigger k in a.active} {:trigger k in b.active} :: k.1 != e ==>
          ((k in b.active <==> k in a.active) && (k in a.active && k in b.active ==> b.active[k] == a.active[k])))
  }

  lemma ExecsFrame(a: State, b: State, e: ExecId)
    requires TreeOk(a.tree) && ExecsOk(a) && OnlyExec(a, b, e)
    requires ExecOk(b.tree, b.active, e, b.execs[e])
    ensures ExecsOk(b)
  {
    forall f | f in b.execs && f != e
      ensures ExecOk(b.tree, b.active, f, b.execs[f])
    {
      var x := a.execs[f];
      assert ExecOk(a.tree, a.active, f, x);
      assert b.execs[f] == x;
      forall i | 0 <= i < |x.scopes|
        ensures (x.scopes[i], f) in b.active <==> (x.scopes[i], f) in a.active
        ensures (x.scopes[i], f) in b.active ==> b.active[(x.scopes[i], f)] == a.active[(x.scopes[i], f)]
      {
        var k := (x.scopes[i], f);
        assert k in a.active <==> k in b.active;
      }
    }
  }

  lemma RecordsFrame(a: State, b: State, e: ExecId)
    requires RecordsOwned(a) && OnlyExec(a, b, e)
    requires forall k: (TokenId, ExecId) :: k in b.active && k.1 == e ==> k.0 in b.execs[e].scopes
    ensures RecordsOwned(b)
  {
  }

  lemma CallersFrame(a: State, b: State, e: ExecId)
    requires CallersOk(a) && OnlyExec(a, b, e)
    requires b.execs[e].spawning.InProgress() ==> a.execs[e].spawning.InProgress()
    requires a.execs[e].body.Live? && !b.execs[e].body.Live? ==> !InsideCall(a, e)
    ensures CallersOk(b)
  {
    forall f | f in b.execs && b.execs[f].spawning.InProgress()
      ensures CallerRunning(b.execs, b.execs[f].caller)
    {
      assert f in a.execs && a.execs[f].spawning.InProgress() && a.execs[f].caller == b.execs[f].caller;
    }
  }

  // A record that was there keeps its mark, and is published only when that
  // fires a requested abort; a new one carries the scope's own mark.
  ghost predicate RecordStep(a: State, b: State, e: ExecId, t: TokenId)
    requires OnlyExec(a, b, e) && (t, e) in b.active
  {
    var r := b.active[(t, e)];
    if (t, e) in a.active then
      && r.abortRequested == a.active[(t, e)].abortRequested
      && (r.published && r.abortRequested ==> a.active[(t, e)].published || b.execs[e].aborted)
    else
      !r.published && (t in a.abortRequested ==> r.abortRequested)
  }

  lemma SweepsFrame(a: State, b: State, e: ExecId)
    requires SweepsOk(a) && OnlyExec(a, b, e) && b.procs == a.procs
    requires a.execs[e].aborted ==> b.execs[e].aborted
    requires forall t :: (t, e) in b.active ==> RecordStep(a, b, e, t)
    ensures SweepsOk(b)
  {
    forall p | p in b.procs
      ensures SweepOk(b, b.procs[p])
    {
      var proc := b.procs[p];
      assert SweepOk(a, proc);
      if PastSweep(proc) {
        forall f | (proc.token, f) in b.active
          ensures SweptRecord(b, proc, f)
        {
          if f != e {
            var k := (proc.token, f);
            assert k in a.active;
          } else {
            assert RecordStep(a, b, e, proc.token);
          }
          assert (proc.token, f) in a.active ==> SweptRecord(a, proc, f);
        }
      }
    }
  }

  // A scope that becomes empty owes its waiters a notification.
  lemma WaitersFrame(a: State, b: State, e: ExecId)
    requires WaitersOk(a) && OnlyExec(a, b, e) && b.procs == a.procs
    requires forall t :: (t, e) in a.active && (t, e) !in b.active ==> OwesNotify(b.execs[e], t)
    requires forall t :: OwesNotify(a.execs[e], t) ==> OwesNotify(b.execs[e], t)
    ensures WaitersOk(b)
  {
    forall p | p in b.procs && b.procs[p].Parked? && !b.procs[p].notified
      ensures !ScopeEmpty(b, b.procs[p].token) || NotifyOwed(b, b.procs[p].token)
    {
      var t := b.procs[p].token;
      if NotifyOwed(a, t) {
        var f :| f in a.execs && OwesNotify(a.execs[f], t);
        assert OwesNotify(b.execs[f], t);
      } else {
        var f :| (t, f) in a.active;
        if f != e {
          var k := (t, f);
          assert k in b.active;
        }
      }
    }
  }

  // What a step of execution `e` has to be for the rest to follow.
  ghost predicate GoodStep(a: State, b: State, e: ExecId)
    requires TreeOk(a.tree)
  {
    && OnlyExec(a, b, e)
    && ExecOk(b.tree, b.active, e, b.execs[e])
    && (forall t :: (t, e) in b.active ==> t in b.execs[e].scopes && RecordStep(a, b, e, t))
    && (b.execs[e].spawning.InProgress() ==> a.execs[e].spawning.InProgress())
    && (a.execs[e].body.Live? && !b.execs[e].body.Live? ==> !InsideCall(a, e))
    && (a.execs[e].aborted ==> b.execs[e].aborted)
    && (forall t :: (t, e) in a.active && (t, e) !in b.active ==> OwesNotify(b.execs[e], t))
  }

  lemma GoodStepKeepsExecs(a: State, b: State, e: ExecId)
    requires Inv(a) && GoodStep(a, b, e)
    ensures TreeOk(b.tree) && ExecsOk(b) && RecordsOwned(b) && CallersOk(b)
  {
    ExecsFrame(a, b, e);
    RecordsFrame(a, b, e);
    CallersFrame(a, b, e);
  }

  lemma GoodStepKeeps(a: State, b: State, e: ExecId)
    requires Inv(a) && GoodStep(a, b, e) && b.procs == a.procs
    requires forall t :: OwesNotify(a.execs[e], t) ==> OwesNotify(b.execs[e], t)
    ensures Inv(b)
  {
    GoodStepKeepsExecs(a, b, e);
    SweepsFrame(a, b, e);
    WaitersFrame(a, b, e);
  }

  // The facts about `e` that the steps below start from.
  ghost predicate OwnFacts(s: State, e: ExecId) {
    && TreeOk(s.tree) && e in s.execs
    && ExecOk(s.tree, s.active, e, s.execs[e])
    && (forall t :: (t, e) in s.active ==> t in s.execs[e].scopes)
    && (forall i, j :: 0 <= i < j < |s.execs[e].scopes| ==> s.execs[e].scopes[i] != s.execs[e].scopes[j])
  }

  lemma OwnFactsHold(s: State, e: ExecId)
    requires Inv(s) && e in s.execs
    ensures OwnFacts(s, e)
  {
    assert ExecOk(s.tree, s.active, e, s.execs[e]);
    ChainDescends(s.tree, s.execs[e].token);
    forall t | (t, e) in s.active ensures t in s.execs[e].scopes {
      var k := (t, e);
      assert k in s.active;
    }
  }

  // Spawning steps and the end of a future.
  predicate MovesOneExec(step: Step) {
    step.Load? || step.Insert? || step.Spawn? || step.Publish? || step.Return? || step.DropFuture? || step.Remove?
  }

  lemma LoadIsGood(s: State, step: Step)
    requires step.Load? && OwnFacts(s, step.exec) && Enabled(s, step)
    ensures GoodStep(s, Apply(s, step), step.exec)
  {
  }

  lemma InsertIsGood(s: State, step: Step)
    requires step.Insert? && OwnFacts(s, step.exec) && Enabled(s, step)
    ensures GoodStep(s, Apply(s, step), step.exec)
  {
  }

  lemma PublishExecOk(s: State, step: Step)
    requires step.Publish? && OwnFacts(s, step.exec) && Enabled(s, step)
    ensures ExecOk(s.tree, Apply(s, step).active, step.exec, Apply(s, step).execs[step.exec])
  {
    var x, b, e := s.execs[step.exec], Apply(s, step), step.exec;
    forall i | 0 <= i < |x.scopes|
      ensures (x.scopes[i], e) in b.active <==> (x.scopes[i], e) in s.active
      ensures (x.scopes[i], e) in b.active ==> PublishedAt(b.execs[e], i, b.active[(x.scopes[i], e)])
    {
      assert i != x.spawning.done ==> x.scopes[i] != x.scopes[x.spawning.done];
    }
  }

  lemma PublishIsGood(s: State, step: Step)
    requires step.Publish? && OwnFacts(s, step.exec) && Enabled(s, step)
    ensures GoodStep(s, Apply(s, step), step.exec)
  {
    PublishExecOk(s, step);
  }

  lemma RemoveIsGood(s: State, step: Step)
    requires step.Remove? && OwnFacts(s, step.exec) && Enabled(s, step)
    ensures GoodStep(s, Apply(s, step), step.exec)
  {
  }

  lemma SpawnIsGood(s: State, step: Step)
    requires step.Spawn? && OwnFacts(s, step.exec) && Enabled(s, step)
    ensures GoodStep(s, Apply(s, step), step.exec)
  {
  }

  lemma ReturnIsGood(s: State, step: Step)
    requires step.Return? && OwnFacts(s, step.exec) && Enabled(s, step)
    ensures GoodStep(s, Apply(s, step), step.exec)
  {
  }

  lemma DropFutureIsGood(s: State, step: Step)
    requires step.DropFuture? && OwnFacts(s, step.exec) && Enabled(s, step)
    ensures GoodStep(s, Apply(s, step), step.exec)
  {
  }

  lemma ExecStepIsGood(s: State, step: Step)
    requires MovesOneExec(step) && OwnFacts(s, step.exec) && Enabled(s, step)
    ensures GoodStep(s, Apply(s, step), step.exec)
  {
    match step
    case Load(_) => LoadIsGood(s, step);
    case Insert(_) => InsertIsGood(s, step);
    case Spawn(_) => SpawnIsGood(s, step);
    case Publish(_) => PublishIsGood(s, step);
    case Return(_) => ReturnIsGood(s, step);
    case DropFuture(_) => DropFutureIsGood(s, step);
    case Remove(_) => RemoveIsGood(s, step);
  }

  lemma NoProcsMoved(s: State, step: Step)
    requires MovesOneExec(step) && OwnFacts(s, step.exec) && Enabled(s, step)
    ensures Apply(s, step).procs == s.procs
    ensures forall t :: OwesNotify(s.execs[step.exec], t) ==> OwesNotify(Apply(s, step).execs[step.exec], t)
  {
  }

  lemma ExecStepKeeps(s: State, step: Step)
    requires Inv(s) && MovesOneExec(step) && Enabled(s, step)
    ensures Inv(Apply(s, step))
  {
    OwnFactsHold(s, step.exec);
    ExecStepIsGood(s, step);
    NoProcsMoved(s, step);
    GoodStepKeeps(s, Apply(s, step), step.exec);
  }

  lemma NotifyIsGood(s: State, step: Step)
    requires step.Notify? && OwnFacts(s, step.exec) && Enabled(s, step)
    ensures GoodStep(s, Apply(s, step), step.exec)
  {
  }

  lemma NotifyKeeps(s: State, step: Step)
    requires Inv(s) && step.Notify? && Enabled(s, step)
    ensures Inv(Apply(s, step))
  {
    OwnFactsHold(s, step.exec);
    NotifyIsGood(s, step);
    GoodStepKeepsExecs(s, Apply(s, step), step.exec);
    NotifyKeepsProcs(s, step);
  }

  lemma NotifyKeepsProcs(s: State, step: Step)
    requires Inv(s) && step.Notify? && Enabled(s, step)
    ensures SweepsOk(Apply(s, step)) && WaitersOk(Apply(s, step))
  {
    var b, e := Apply(s, step), step.exec;
    forall p | p in b.procs
      ensures SweepOk(b, b.procs[p])
    {
      assert SweepOk(s, s.procs[p]);
      forall f | (b.procs[p].token, f) in b.active && PastSweep(b.procs[p])
        ensures SweptRecord(b, b.procs[p], f)
      {
        assert SweptRecord(s, s.procs[p], f);
      }
    }
    forall p | p in b.procs && b.procs[p].Parked? && !b.procs[p].notified
      ensures !ScopeEmpty(b, b.procs[p].token) || NotifyOwed(b, b.procs[p].token)
    {
      var t := b.procs[p].token;
      assert s.procs[p] == b.procs[p] && t != s.execs[e].scopes[s.execs[e].body.at];
      if NotifyOwed(s, t) {
        var f :| f in s.execs && OwesNotify(s.execs[f], t);
        assert OwesNotify(b.execs[f], t);
      }
    }
  }

  // ---------------------------------------------------------------------
  // The other steps
  // ---------------------------------------------------------------------

  lemma NewTokenKeeps(s: State, step: Step)
    requires Inv(s) && step.NewToken? && Enabled(s, step)
    ensures Inv(Apply(s, step))
  {
    var b := Apply(s, step);
    forall e | e in s.execs
      ensures ExecOk(b.tree, b.active, e, b.execs[e])
    {
      assert ExecOk(s.tree, s.active, e, s.execs[e]);
      ChainStable(s.tree, b.tree, s.execs[e].token);
    }
  }

  lemma CallKeepsExecs(s: State, step: Step)
    requires Inv(s) && step.Call? && Enabled(s, step)
    ensures ExecsOk(Apply(s, step))
  {
    var b, e := Apply(s, step), s.nextExec;
    forall f | f in s.execs
      ensures ExecOk(b.tree, b.active, f, b.execs[f])
    {
      assert ExecOk(s.tree, s.active, f, s.execs[f]);
    }
    assert ExecOk(b.tree, b.active, e, b.execs[e]) by {
      forall k | k in s.active ensures k.1 != e {}
    }
  }

  lemma CallKeepsCallers(s: State, step: Step)
    requires TreeOk(s.tree) && CallersOk(s) && s.nextExec !in s.execs && step.Call? && Enabled(s, step)
    ensures CallersOk(Apply(s, step))
  {
  }

  lemma CallKeeps(s: State, step: Step)
    requires Inv(s) && step.Call? && Enabled(s, step)
    ensures Inv(Apply(s, step))
  {
    CallKeepsExecs(s, step);
    CallKeepsCallers(s, step);
    CallKeepsProcs(s, step);
  }

  lemma CallKeepsProcs(s: State, step: Step)
    requires Inv(s) && step.Call? && Enabled(s, step)
    ensures SweepsOk(Apply(s, step)) && WaitersOk(Apply(s, step))
  {
    var b := Apply(s, step);
    forall p | p in b.procs
      ensures SweepOk(b, b.procs[p])
    {
      assert SweepOk(s, s.procs[p]);
      forall f | (b.procs[p].token, f) in b.active && PastSweep(b.procs[p])
        ensures SweptRecord(b, b.procs[p], f)
      {
        assert SweptRecord(s, s.procs[p], f);
        assert (b.procs[p].token, f) in s.active && (b.procs[p].token, f).1 in s.execs;
      }
    }
    forall t: TokenId | NotifyOwed(s, t) ensures NotifyOwed(b, t) {
      var f :| f in s.execs && OwesNotify(s.execs[f], t);
      assert OwesNotify(b.execs[f], t);
    }
  }

  lemma SetCancelledKeeps(s: State, step: Step)
    requires Inv(s) && step.SetCancelled? && Enabled(s, step)
    ensures Inv(Apply(s, step))
  {
  }

  lemma StoreFlagKeeps(s: State, step: Step)
    requires Inv(s) && step.StoreFlag? && Enabled(s, step)
    ensures Inv(Apply(s, step))
  {
  }

  lemma SweepKeeps(s: State, step: Step)
    requires Inv(s) && step.Sweep? && Enabled(s, step)
    ensures Inv(Apply(s, step))
  {
    var b := Apply(s, step);
    forall e | e in s.execs
      ensures ExecOk(b.tree, b.active, e, b.execs[e])
    {
      assert ExecOk(s.tree, s.active, e, s.execs[e]);
    }
    forall p | p in b.procs
      ensures SweepOk(b, b.procs[p])
    {
      assert p in s.procs && SweepOk(s, s.procs[p]);
      forall f | (b.procs[p].token, f) in b.active && PastSweep(b.procs[p])
        ensures SweptRecord(b, b.procs[p], f)
      {
        assert PastSweep(s.procs[p]) ==> SweptRecord(s, s.procs[p], f);
      }
    }
    SweepKeepsWaiters(s, step);
  }

  lemma SweepKeepsWaiters(s: State, step: Step)
    requires Inv(s) && step.Sweep? && Enabled(s, step)
    ensures WaitersOk(Apply(s, step))
  {
    var b := Apply(s, step);
    forall t: TokenId ensures ScopeEmpty(b, t) <==> ScopeEmpty(s, t) {
      assert forall e :: (t, e) in b.active <==> (t, e) in s.active;
    }
    forall t: TokenId ensures NotifyOwed(b, t) <==> NotifyOwed(s, t) {}
  }

  lemma FireIsGood(s: State, step: Step)
    requires step.Fire? && OwnFacts(s, step.exec) && Enabled(s, step)
    ensures GoodStep(s, Apply(s, step), step.exec)
  {
  }

  lemma FireKeeps(s: State, step: Step)
    requires Inv(s) && step.Fire? && Enabled(s, step)
    ensures Inv(Apply(s, step))
  {
    OwnFactsHold(s, step.exec);
    FireIsGood(s, step);
    GoodStepKeepsExecs(s, Apply(s, step), step.exec);
    FireKeepsProcs(s, step);
  }

  lemma FireKeepsProcs(s: State, step: Step)
    requires Inv(s) && step.Fire? && Enabled(s, step)
    ensures SweepsOk(Apply(s, step)) && WaitersOk(Apply(s, step))
  {
    var b := Apply(s, step);
    forall p | p in b.procs
      ensures SweepOk(b, b.procs[p])
    {
      assert SweepOk(s, s.procs[p]);
      forall f | (b.procs[p].token, f) in b.active && PastSweep(b.procs[p])
        ensures SweptRecord(b, b.procs[p], f)
      {
        assert SweptRecord(s, s.procs[p], f);
      }
    }
    forall t: TokenId | NotifyOwed(s, t) ensures NotifyOwed(b, t) {
      var f :| f in s.execs && OwesNotify(s.execs[f], t);
      assert OwesNotify(b.execs[f], t);
    }
  }

  // Steps of a drain or an abort that change nothing but itself.
  predicate MovesOneProc(step: Step) {
    step.Start? || step.FinishFiring? || step.Enable? || step.Check? || step.Wake?
  }

  lemma ProcKeeps(s: State, step: Step)
    requires Inv(s) && Enabled(s, step) && MovesOneProc(step)
    ensures Inv(Apply(s, step))
  {
    ProcKeepsSweeps(s, step);
    ProcKeepsWaiters(s, step);
  }

  lemma ProcKeepsSweeps(s: State, step: Step)
    requires TreeOk(s.tree) && SweepsOk(s) && Enabled(s, step) && MovesOneProc(step)
    ensures SweepsOk(Apply(s, step))
  {
    var b := Apply(s, step);
    forall p | p in b.procs
      ensures SweepOk(b, b.procs[p])
    {
      if p in s.procs {
        assert SweepOk(s, s.procs[p]);
        forall f | (b.procs[p].token, f) in b.active && PastSweep(b.procs[p])
          ensures SweptRecord(b, b.procs[p], f)
        {
          assert SweptRecord(s, s.procs[p], f);
        }
      }
    }
  }

  lemma ProcKeepsWaiters(s: State, step: Step)
    requires TreeOk(s.tree) && WaitersOk(s) && Enabled(s, step) && MovesOneProc(step)
    ensures WaitersOk(Apply(s, step))
  {
    var b := Apply(s, step);
    forall t: TokenId ensures NotifyOwed(b, t) <==> NotifyOwed(s, t) {}
    forall t: TokenId ensures ScopeEmpty(b, t) <==> ScopeEmpty(s, t) {}
  }

  lemma StepKeepsInv(s: State, step: Step)
    requires Inv(s) && Enabled(s, step)
    ensures Inv(Apply(s, step))
  {
    match step
    case NewToken(_) => NewTokenKeeps(s, step);
    case SetCancelled(_, _) => SetCancelledKeeps(s, step);
    case Call(_, _) => CallKeeps(s, step);
    case Notify(_) => NotifyKeeps(s, step);
    case StoreFlag(_) => StoreFlagKeeps(s, step);
    case Sweep(_) => SweepKeeps(s, step);
    case Fire(_, _) => FireKeeps(s, step);
    case _ =>
      if MovesOneExec(step) {
        ExecStepKeeps(s, step);
      } else {
        ProcKeeps(s, step);
      }
  }
}
