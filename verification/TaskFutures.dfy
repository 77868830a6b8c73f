// What can still happen to a task's scope: from any reachable state with its
// flag set and nothing live in it, it stays that way over every continuation
// exactly if no call is pending there.
module TaskFutures {
  import opened TaskManager
  import opened TaskLaws
  import T = CancelTokens
  import P = CancelProofs
  import L = CancelLaws

  // One more step is reachable as well.
  lemma NextIsReachable(s: State, b: State)
    requires Reachable(s) && Next(s, b)
    ensures Reachable(b)
  {
    var run :| IsRun(run) && run[|run| - 1] == s;
    var longer := run + [b];
    forall i: nat | i < |longer| - 1 ensures StepsAt(longer, i) {
      if i < |run| - 1 {
        assert StepsAt(run, i);
      }
    }
    assert IsRun(longer) && longer[|longer| - 1] == b;
  }

  lemma Go(s: State, step: Step) returns (b: State)
    requires Reachable(s) && T.TreeOk(s.tok.tree) && Enabled(s, step)
    ensures Reachable(b) && b == Apply(s, step)
  {
    b := Apply(s, step);
    assert Next(s, b);
    NextIsReachable(s, b);
  }

  // A continuation of `s` over which the flag of `t` stays set.
  ghost predicate Continues(s: State, path: seq<State>, t: T.TokenId) {
    && path != [] && path[0] == s
    && (forall i: nat :: i < |path| - 1 ==> StepsAt(path, i))
    && (forall i: nat {:trigger path[i]} :: i < |path| ==> t in path[i].tok.cancelled)
  }

  lemma FreeStepIsNext(s: State, st: T.Step)
    requires T.TreeOk(s.tok.tree) && T.Enabled(s.tok, st) && FreeTokenStep(s, st)
    ensures Next(s, s.(tok := T.Apply(s.tok, st)))
  {
    assert Enabled(s, TokenStep(st)) && Apply(s, TokenStep(st)) == s.(tok := T.Apply(s.tok, st));
  }

  lemma Prepend(s: State, st: T.Step, path: seq<State>, t: T.TokenId)
    requires T.TreeOk(s.tok.tree) && T.Enabled(s.tok, st) && FreeTokenStep(s, st) && t in s.tok.cancelled
    requires Continues(s.(tok := T.Apply(s.tok, st)), path, t)
    ensures Continues(s, [s] + path, t) && ([s] + path)[|path|] == path[|path| - 1]
  {
    var longer := [s] + path;
    FreeStepIsNext(s, st);
    forall i: nat | i < |longer| - 1 ensures StepsAt(longer, i) {
      if i > 0 {
        assert StepsAt(path, i - 1);
        assert longer[i] == path[i - 1] && longer[i + 1] == path[i];
      }
    }
    forall i: nat | i < |longer| ensures t in longer[i].tok.cancelled {
      assert i > 0 ==> longer[i] == path[i - 1];
    }
  }

  // ---------------------------------------------------------------------
  // A pending call can be spawned
  // ---------------------------------------------------------------------

  // The next step of a pending call, once the flag in its way is clear.
  function NextStep(s: T.State, e: T.ExecId): T.Step
    requires e in s.execs && (s.execs[e].spawning.Loading? ==> s.execs[e].spawning.done < |s.execs[e].scopes|)
  {
    var x := s.execs[e];
    match x.spawning
    case Loading(done) => if x.scopes[done] in s.cancelled then T.SetCancelled(x.scopes[done], false) else T.Load(e)
    case Inserting(done) => if done < |x.scopes| then T.Insert(e) else T.Spawn(e)
    case _ => T.Spawn(e)
  }

  // How far a call is from its spawn; a set flag in its way costs a step more.
  function Distance(x: T.Execution, blocked: bool): nat {
    match x.spawning
    case Loading(done) =>
      if done < |x.scopes| then 3 * (|x.scopes| - done) + |x.scopes| + (if blocked then 1 else 0) else 0
    case Inserting(done) => if done <= |x.scopes| then |x.scopes| - done + 1 else 0
    case _ => 0
  }

  predicate Blocked(s: T.State, e: T.ExecId)
    requires e in s.execs
  {
    var x := s.execs[e];
    x.spawning.Loading? && x.spawning.done < |x.scopes| && x.scopes[x.spawning.done] in s.cancelled
  }

  function Steps(s: T.State, e: T.ExecId): nat
    requires e in s.execs
  {
    Distance(s.execs[e], Blocked(s, e))
  }

  lemma PendingFacts(s: T.State, e: T.ExecId, t: T.TokenId)
    requires T.Inv(s) && e in s.execs && L.Pending(s.execs[e], t)
    ensures var x := s.execs[e];
      && (x.spawning.Loading? || x.spawning.Inserting?) && T.TreeOk(s.tree)
      && (x.spawning.Loading? ==> x.spawning.done < |x.scopes|)
      && (x.spawning.Loading? ==> x.scopes[x.spawning.done] < |s.tree| && x.scopes[x.spawning.done] != t)
      && (x.spawning.Inserting? ==> x.spawning.done <= |x.scopes|)
  {
    assert T.ExecOk(s.tree, s.active, e, s.execs[e]);
    P.ChainDescends(s.tree, s.execs[e].token);
  }

  lemma NextStepAdvances(s: T.State, e: T.ExecId, t: T.TokenId)
    requires T.Inv(s) && e in s.execs && L.Pending(s.execs[e], t) && t in s.cancelled
    ensures T.TreeOk(s.tree) && (s.execs[e].spawning.Loading? ==> s.execs[e].spawning.done < |s.execs[e].scopes|)
    ensures T.Enabled(s, NextStep(s, e))
    ensures var b := T.Apply(s, NextStep(s, e));
      && t in b.cancelled && e in b.execs && b.tree == s.tree && b.procs == s.procs
      && (L.LiveBeneath(b, e, t) || L.Pending(b.execs[e], t))
  {
    PendingFacts(s, e, t);
    if s.execs[e].spawning.Loading? {
      L.LoadingOneMore(s.execs[e], t);
    }
  }

  lemma NextStepCloser(s: T.State, e: T.ExecId, t: T.TokenId)
    requires T.Inv(s) && e in s.execs && L.Pending(s.execs[e], t)
    requires T.TreeOk(s.tree) && (s.execs[e].spawning.Loading? ==> s.execs[e].spawning.done < |s.execs[e].scopes|)
    requires T.Enabled(s, NextStep(s, e)) && e in T.Apply(s, NextStep(s, e)).execs
    ensures T.Apply(s, NextStep(s, e)).execs[e].body.NotSpawned? ==> Steps(T.Apply(s, NextStep(s, e)), e) < Steps(s, e)
  {
    PendingFacts(s, e, t);
    var x, y := s.execs[e], T.Apply(s, NextStep(s, e)).execs[e];
    if Blocked(s, e) {
      assert y == x && !Blocked(T.Apply(s, NextStep(s, e)), e);
    } else if x.spawning.Loading? {
      assert y == x.(spawning := T.AfterLoad(x, false));
    }
  }

  // Nothing but executions, records and other flags moves.
  predicate OnlyCallMoves(s: State, b: State) {
    b == s.(tok := b.tok) && b.tok.procs == s.tok.procs && b.tok.tree == s.tok.tree
  }

  lemma Advance(s: State, e: T.ExecId, t: T.TokenId) returns (st: T.Step)
    requires T.Inv(s.tok) && e in s.tok.execs && L.Pending(s.tok.execs[e], t) && t in s.tok.cancelled
    ensures T.TreeOk(s.tok.tree) && T.Enabled(s.tok, st) && FreeTokenStep(s, st)
    ensures var b := s.(tok := T.Apply(s.tok, st));
      && OnlyCallMoves(s, b) && T.Inv(b.tok) && t in b.tok.cancelled && e in b.tok.execs
      && (L.LiveBeneath(b.tok, e, t) || (L.Pending(b.tok.execs[e], t) && Steps(b.tok, e) < Steps(s.tok, e)))
  {
    NextStepAdvances(s.tok, e, t);
    st := NextStep(s.tok, e);
    P.StepKeepsInv(s.tok, st);
    NextStepCloser(s.tok, e, t);
  }

  // Some continuation spawns the call, with nothing but tokens moving.
  lemma {:induction false} PendingCanSpawn(s: State, e: T.ExecId, t: T.TokenId) returns (path: seq<State>)
    requires T.Inv(s.tok) && e in s.tok.execs && L.Pending(s.tok.execs[e], t) && t in s.tok.cancelled
    ensures Continues(s, path, t) && OnlyCallMoves(s, path[|path| - 1])
    ensures L.LiveBeneath(path[|path| - 1].tok, e, t)
    decreases Steps(s.tok, e)
  {
    var st := Advance(s, e, t);
    var b := s.(tok := T.Apply(s.tok, st));
    var rest := [b];
    if !L.LiveBeneath(b.tok, e, t) {
      rest := PendingCanSpawn(b, e, t);
    }
    Prepend(s, st, rest, t);
    path := [s] + rest;
  }

  lemma {:induction false} ContinuesReachably(s: State, path: seq<State>, t: T.TokenId, n: nat)
    requires Reachable(s) && Continues(s, path, t) && n < |path|
    ensures Reachable(path[n])
  {
    if n > 0 {
      ContinuesReachably(s, path, t, n - 1);
      assert StepsAt(path, n - 1);
      NextIsReachable(path[n - 1], path[n]);
    }
  }

  // ---------------------------------------------------------------------
  // Exactly when nothing can come to life any more
  // ---------------------------------------------------------------------

  lemma QuietNext(s: State, b: State, t: T.TokenId)
    requires Next(s, b) && T.Inv(s.tok) && L.Quiet(s.tok, t) && t in s.tok.cancelled
    ensures T.Inv(b.tok) && L.Quiet(b.tok, t)
  {
    var step :| Enabled(s, step) && b == Apply(s, step);
    if TokenPart(s, step).Some? {
      P.StepKeepsInv(s.tok, TokenPart(s, step).value);
      L.QuietStaysQuiet(s.tok, TokenPart(s, step).value, t);
    }
  }

  lemma QuietContinuesOnce(s: State, path: seq<State>, t: T.TokenId, n: nat)
    requires Continues(s, path, t) && n < |path| - 1 && T.Inv(path[n].tok) && L.Quiet(path[n].tok, t)
    ensures T.Inv(path[n + 1].tok) && L.Quiet(path[n + 1].tok, t)
  {
    assert StepsAt(path, n) && t in path[n].tok.cancelled;
    QuietNext(path[n], path[n + 1], t);
  }

  lemma {:induction false} QuietContinues(s: State, path: seq<State>, t: T.TokenId, n: nat)
    requires T.Inv(s.tok) && L.Quiet(s.tok, t) && Continues(s, path, t) && n < |path|
    ensures T.Inv(path[n].tok) && L.Quiet(path[n].tok, t)
  {
    if n > 0 {
      QuietContinues(s, path, t, n - 1);
      QuietContinuesOnce(s, path, t, n - 1);
    }
  }

  // With the flag of `t` set and nothing live beneath it: nothing ever comes to
  // life there, over any continuation that leaves the flag set, exactly if no
  // call is between its check of t and its spawn. What a caller of `cancel`
  // can rely on is this and no more.
  lemma QuietForGoodExactly(s: State, t: T.TokenId)
    requires Reachable(s) && t in s.tok.cancelled && L.NothingLive(s.tok, t)
    ensures L.NothingPending(s.tok, t) <==>
            forall path: seq<State> :: Continues(s, path, t) ==> L.NothingLive(path[|path| - 1].tok, t)
  {
    assert T.Inv(s.tok) by { ReachableInv(s); }
    if L.NothingPending(s.tok, t) {
      forall path: seq<State> | Continues(s, path, t) ensures L.NothingLive(path[|path| - 1].tok, t) {
        QuietContinues(s, path, t, |path| - 1);
      }
    } else {
      var e :| e in s.tok.execs && L.Pending(s.tok.execs[e], t);
      var path := PendingCanSpawn(s, e, t);
      assert L.LiveBeneath(path[|path| - 1].tok, e, t);
    }
  }
}
