// What a cancelled task leaves running beneath its token, over every run:
// exactly the calls that had passed their cancellation check before `cancel`
// signalled, and what becomes of them.
module TaskScopes {
  import opened TaskManager
  import opened TaskProofs
  import opened TaskTokens
  import opened TaskExtras
  import opened TaskLaws
  import T = CancelTokens
  import L = CancelLaws
  import R = CancelRuns

  // ---------------------------------------------------------------------
  // A cancellation's signal and the end of its drain
  // ---------------------------------------------------------------------

  // At `g` cancellation c sets the flag of its task's token.
  ghost predicate SignalsAt(run: seq<State>, g: nat, c: CancelId) {
    g < |run| - 1 && StepIs(run, g, Cancel(c, Signal))
  }

  // At `d` the drain of cancellation c finds the scope empty.
  ghost predicate DrainEndsAt(run: seq<State>, d: nat, c: CancelId) {
    && d < |run| - 1 && c in run[d].cancels && run[d].cancels[c].Draining?
    && StepIs(run, d, TokenStep(T.Check(run[d].cancels[c].proc)))
    && T.ScopeEmpty(run[d].tok, run[d].tok.procs[run[d].cancels[c].proc].token)
  }

  ghost predicate SignalledBefore(run: seq<State>, n: nat, c: CancelId) {
    exists g: nat :: g < n && SignalsAt(run, g, c)
  }

  ghost predicate StoppedBetween(run: seq<State>, g: nat, d: nat, n: nat, c: CancelId) {
    g < d < n && SignalsAt(run, g, c) && DrainEndsAt(run, d, c)
  }

  // c has signalled and then drained before `n`.
  ghost predicate StoppedBefore(run: seq<State>, n: nat, c: CancelId) {
    exists g: nat, d: nat :: StoppedBetween(run, g, d, n, c)
  }

  predicate Drained(s: State, k: Canceller) {
    k.Draining? && k.proc in s.tok.procs && s.tok.procs[k.proc].Drained?
  }

  // What a canceller's phase says about the run so far.
  predicate PhaseOk(s: State, k: Canceller, signalled: bool, stopped: bool) {
    && k.task in s.tasks
    && (k.Stopping? || k.Draining? ==> signalled)
    && (Drained(s, k) || k.Forgetting? ==> stopped)
    && (s.tasks[k.task].TokenMade() && !stopped ==>
          !(k.Rechecking? && StillActive(s.store, k.task)) && !k.Overwriting? && !SaysTrue(k))
  }

  ghost predicate HistoryOk(run: seq<State>, n: nat, c: CancelId)
    requires n < |run| && c in run[n].cancels
  {
    PhaseOk(run[n], run[n].cancels[c], SignalledBefore(run, n, c), StoppedBefore(run, n, c))
  }

  lemma LaterToo(run: seq<State>, m: nat, n: nat, c: CancelId)
    requires m <= n
    ensures SignalledBefore(run, m, c) ==> SignalledBefore(run, n, c)
    ensures StoppedBefore(run, m, c) ==> StoppedBefore(run, n, c)
  {
    if SignalledBefore(run, m, c) {
      var g: nat :| g < m && SignalsAt(run, g, c);
    }
    if StoppedBefore(run, m, c) {
      var g: nat, d: nat :| StoppedBetween(run, g, d, m, c);
      assert StoppedBetween(run, g, d, n, c);
    }
  }

  // A canceller moves by its own steps only.
  lemma CancellerStep(s: State, step: Step, c: CancelId)
    requires ManagerEnabled(s, step) && c in ApplyManager(s, step).cancels
    ensures
      || (c in s.cancels && ApplyManager(s, step).cancels[c] == s.cancels[c])
      || (c !in s.cancels && ApplyManager(s, step).cancels[c].Waiting?)
      || (step.Cancel? && step.cancel == c && c in s.cancels && s.cancels[c].task in s.tasks
          && ApplyManager(s, step).cancels[c] == NextCanceller(s, c, step.move))
  {
  }

  // A drain ends by its own look at an empty scope.
  lemma DrainsByChecking(tok: T.State, st: T.Step, p: T.ProcId)
    requires T.TreeOk(tok.tree) && T.Enabled(tok, st) && p in tok.procs && !tok.procs[p].Drained?
    requires p in T.Apply(tok, st).procs && T.Apply(tok, st).procs[p].Drained?
    ensures st == T.Check(p) && T.ScopeEmpty(tok, tok.procs[p].token)
  {
  }

  // A move of c itself; without a token in the map there is nothing to stop.
  lemma OwnPhase(s: State, c: CancelId, move: CancelStep, signalled: bool, stopped: bool)
    requires CancelEnabled(s, c, move) && CancelOk(s, c, s.cancels[c]) && TokenKept(s, s.cancels[c].task)
    requires PhaseOk(s, s.cancels[c], signalled, stopped) && !move.Stop?
    ensures PhaseOk(ApplyCancel(s, c, move), NextCanceller(s, c, move), signalled || move.Signal?, stopped)
  {
  }

  // A move of anything else.
  lemma OtherPhase(s: State, b: State, k: Canceller, signalled: bool, stopped: bool)
    requires PhaseOk(s, k, signalled, stopped) && Moves(s, b, k.task) && (Drained(b, k) ==> stopped)
    requires s.tasks[k.task].submission.Submitted? || s.tasks[k.task].Inherited()
    ensures PhaseOk(b, k, signalled, stopped)
  {
  }

  // What the invariant says of one canceller.
  predicate KnownCanceller(s: State, c: CancelId) {
    && c in s.cancels && CancelOk(s, c, s.cancels[c]) && TokenKept(s, s.cancels[c].task)
    && CancelTok(s.tok, s.tasks[s.cancels[c].task], s.cancels[c])
  }

  lemma Known(run: seq<State>, n: nat, c: CancelId)
    requires IsRun(run) && n < |run| && c in run[n].cancels
    ensures KnownCanceller(run[n], c)
  {
    RunKeepsInv(run, n);
    assert CancelOk(run[n], c, run[n].cancels[c]);
  }

  // Of the tokens a phase reads only whether its drain has ended.
  lemma OwnStep(s: State, b: State, c: CancelId, move: CancelStep)
    requires T.TreeOk(s.tok.tree) && Enabled(s, Cancel(c, move)) && b == Apply(s, Cancel(c, move))
    ensures CancelEnabled(s, c, move) && c in b.cancels && b.cancels[c] == NextCanceller(s, c, move)
    ensures b.tasks == ApplyCancel(s, c, move).tasks && b.store == ApplyCancel(s, c, move).store
    ensures if move.Stop? then move.proc in b.tok.procs && b.tok.procs[move.proc].Flagging?
            else b.tok.procs == s.tok.procs
  {
  }

  lemma OwnPhaseStep(s: State, b: State, c: CancelId, move: CancelStep, signalled: bool, stopped: bool)
    requires KnownCanceller(s, c) && PhaseOk(s, s.cancels[c], signalled, stopped)
    requires T.TreeOk(s.tok.tree) && Enabled(s, Cancel(c, move)) && b == Apply(s, Cancel(c, move))
    ensures c in b.cancels && PhaseOk(b, b.cancels[c], signalled || move.Signal?, stopped)
  {
    OwnStep(s, b, c, move);
    if !move.Stop? {
      OwnPhase(s, c, move, signalled, stopped);
    }
  }

  lemma SignalledHere(run: seq<State>, n: nat, c: CancelId)
    requires 0 < n < |run| && StepIs(run, n - 1, Cancel(c, Signal))
    ensures SignalledBefore(run, n, c)
  {
    assert SignalsAt(run, n - 1, c);
  }

  lemma PhaseGrows(s: State, k: Canceller, a: bool, b: bool, c: bool, d: bool)
    requires PhaseOk(s, k, a, b) && (a ==> c) && (b ==> d)
    ensures PhaseOk(s, k, c, d)
  {
  }

  // The end of c's drain is the one thing that another move can bring about.
  lemma DrainEndsHere(run: seq<State>, n: nat, c: CancelId, step: Step)
    requires 0 < n < |run| && StepIs(run, n - 1, step) && KnownCanceller(run[n - 1], c) && HistoryOk(run, n - 1, c)
    requires Drained(run[n], run[n - 1].cancels[c]) && !Drained(run[n - 1], run[n - 1].cancels[c])
    ensures StoppedBefore(run, n, c)
  {
    var s, k := run[n - 1], run[n - 1].cancels[c];
    DrainsByChecking(s.tok, TokenPart(s, step).value, k.proc);
    assert DrainEndsAt(run, n - 1, c);
    var g: nat :| g < n - 1 && SignalsAt(run, g, c);
    assert StoppedBetween(run, g, n - 1, n, c);
  }

  // A canceller's task is submitted, or older than this manager.
  lemma TaskIsKnown(s: State, c: CancelId)
    requires KnownCanceller(s, c)
    ensures s.cancels[c].task in s.tasks
    ensures s.tasks[s.cancels[c].task].submission.Submitted? || s.tasks[s.cancels[c].task].Inherited()
  {
  }

  lemma OtherMove(s: State, b: State, k: Canceller, before: bool, signalled: bool, ended: bool, stopped: bool)
    requires PhaseOk(s, k, before, ended) && (before ==> signalled) && (ended ==> stopped)
    requires s.tasks[k.task].submission.Submitted? || s.tasks[k.task].Inherited()
    requires Moves(s, b, k.task) && (Drained(b, k) && !Drained(s, k) ==> stopped)
    ensures PhaseOk(b, k, signalled, stopped)
  {
    PhaseGrows(s, k, before, ended, signalled, stopped);
    OtherPhase(s, b, k, signalled, stopped);
  }

  lemma HistoryStep(run: seq<State>, n: nat, c: CancelId)
    requires IsRun(run) && 0 < n < |run| && c in run[n].cancels
    requires c in run[n - 1].cancels ==> HistoryOk(run, n - 1, c)
    ensures HistoryOk(run, n, c)
  {
    var step := StepOf(run, n - 1);
    CancellerStep(run[n - 1], step, c);
    Known(run, n, c);
    if c in run[n - 1].cancels {
      Known(run, n - 1, c);
      if run[n].cancels[c] == run[n - 1].cancels[c] {
        RunMoves(run, n - 1, run[n].cancels[c].task);
        if Drained(run[n], run[n].cancels[c]) && !Drained(run[n - 1], run[n].cancels[c]) {
          DrainEndsHere(run, n, c, step);
        }
        TaskIsKnown(run[n - 1], c);
        LaterToo(run, n - 1, n, c);
        OtherMove(run[n - 1], run[n], run[n].cancels[c], SignalledBefore(run, n - 1, c), SignalledBefore(run, n, c),
                  StoppedBefore(run, n - 1, c), StoppedBefore(run, n, c));
      } else {
        OwnPhaseStep(run[n - 1], run[n], c, step.move, SignalledBefore(run, n - 1, c), StoppedBefore(run, n - 1, c));
        if step.move.Signal? {
          SignalledHere(run, n, c);
        }
        LaterToo(run, n - 1, n, c);
        PhaseGrows(run[n], run[n].cancels[c], SignalledBefore(run, n - 1, c) || step.move.Signal?,
                   StoppedBefore(run, n - 1, c), SignalledBefore(run, n, c), StoppedBefore(run, n, c));
      }
    }
  }

  lemma {:induction false} History(run: seq<State>, n: nat, c: CancelId)
    requires IsRun(run) && n < |run| && c in run[n].cancels
    ensures HistoryOk(run, n, c)
  {
    if n > 0 {
      if c in run[n - 1].cancels {
        History(run, n - 1, c);
      }
      HistoryStep(run, n, c);
    }
  }

  lemma StepOf(run: seq<State>, i: nat) returns (step: Step)
    requires IsRun(run) && i < |run| - 1
    ensures StepIs(run, i, step)
  {
    assert StepsAt(run, i);
    step :| Enabled(run[i], step) && run[i + 1] == Apply(run[i], step);
  }

  // `cancel` answers true only after it has signalled the task's token and
  // seen its scope empty; a task from before this manager has no token.
  lemma TrueWasStopped(run: seq<State>, n: nat, c: CancelId)
    requires IsRun(run) && n < |run| && c in run[n].cancels && SaysTrue(run[n].cancels[c])
    ensures run[n].cancels[c].task in run[n].tasks && run[n].tasks[run[n].cancels[c].task].worker.Ended?
    ensures run[n].tasks[run[n].cancels[c].task].Inherited() || StoppedBefore(run, n, c)
  {
    History(run, n, c);
    RunKeepsInv(run, n);
    assert CancelOk(run[n], c, run[n].cancels[c]);
  }

  // ---------------------------------------------------------------------
  // The tokens along a run
  // ---------------------------------------------------------------------

  ghost function Toks(run: seq<State>): (toks: seq<T.State>)
    ensures |toks| == |run| && forall i {:trigger toks[i]} :: 0 <= i < |run| ==> toks[i] == run[i].tok
  {
    seq(|run|, i requires 0 <= i < |run| => run[i].tok)
  }

  lemma TokFollows(run: seq<State>, i: nat)
    requires IsRun(run) && i < |run| - 1
    ensures run[i + 1].tok == run[i].tok || T.Next(run[i].tok, run[i + 1].tok)
  {
    var step := StepOf(run, i);
    if TokenPart(run[i], step).Some? {
      assert T.Enabled(run[i].tok, TokenPart(run[i], step).value);
    }
  }

  lemma TokInv(run: seq<State>, i: nat)
    requires IsRun(run) && i < |run|
    ensures T.Inv(run[i].tok)
  {
    RunKeepsInv(run, i);
  }

  lemma ToksAreARow(run: seq<State>)
    requires IsRun(run)
    ensures R.Row(Toks(run))
  {
    forall i | 0 <= i < |run| ensures T.Inv(Toks(run)[i]) {
      TokInv(run, i);
    }
    forall i: nat | i < |run| - 1 ensures R.Follows(Toks(run), i) {
      TokFollows(run, i);
    }
  }

  // ---------------------------------------------------------------------
  // What a cancellation promises about its task's scope
  // ---------------------------------------------------------------------

  // The token of c's task.
  function TokenAt(s: State, c: CancelId): T.TokenId {
    if c in s.cancels && s.cancels[c].task in s.tasks then s.tasks[s.cancels[c].task].token else 0
  }

  lemma CancellerStays(s: State, step: Step, c: CancelId)
    requires ManagerEnabled(s, step) && c in s.cancels
    ensures c in ApplyManager(s, step).cancels && ApplyManager(s, step).cancels[c].task == s.cancels[c].task
  {
  }

  // A cancellation is about one task throughout, and its token stays the same.
  lemma {:induction false} SameToken(run: seq<State>, i: nat, j: nat, c: CancelId)
    requires IsRun(run) && i <= j < |run| && c in run[i].cancels
    ensures c in run[j].cancels && run[j].cancels[c].task == run[i].cancels[c].task
    ensures run[i].cancels[c].task in run[i].tasks && run[j].cancels[c].task in run[j].tasks
    ensures run[i].tasks[run[i].cancels[c].task].TokenMade() ==>
      run[j].tasks[run[i].cancels[c].task].TokenMade() && TokenAt(run[j], c) == TokenAt(run[i], c)
  {
    Known(run, i, c);
    if i < j {
      SameToken(run, i, j - 1, c);
      var step := StepOf(run, j - 1);
      CancellerStays(run[j - 1], step, c);
      RunMoves(run, j - 1, run[i].cancels[c].task);
    }
  }

  // The signal changes nothing but the flag.
  lemma SignalSets(run: seq<State>, g: nat, c: CancelId)
    requires SignalsAt(run, g, c)
    ensures c in run[g].cancels && run[g].cancels[c].task in run[g].tasks
    ensures run[g + 1].tok == run[g].tok.(cancelled := run[g].tok.cancelled + {TokenAt(run[g], c)})
  {
  }

  // Where its drain ends nothing is live beneath the token, and the look that
  // ends it changes no execution.
  lemma DrainEndsEmpty(run: seq<State>, d: nat, c: CancelId)
    requires IsRun(run) && DrainEndsAt(run, d, c)
    ensures run[d].cancels[c].task in run[d].tasks && run[d + 1].tok.execs == run[d].tok.execs
    ensures L.NothingLive(run[d + 1].tok, TokenAt(run[d], c))
  {
    Known(run, d, c);
    TokInv(run, d);
    L.EmptyIsNotLive(run[d].tok, TokenAt(run[d], c));
    CheckMovesNoExec(run[d].tok, run[d].cancels[c].proc);
    SameExecs(run[d].tok, run[d + 1].tok, TokenAt(run[d], c));
  }

  lemma SameExecs(a: T.State, b: T.State, t: T.TokenId)
    requires a.execs == b.execs && L.NothingLive(a, t)
    ensures L.NothingLive(b, t)
  {
    forall e ensures !L.LiveBeneath(b, e, t) {
      assert !L.LiveBeneath(a, e, t);
    }
  }

  lemma CheckMovesNoExec(tok: T.State, p: T.ProcId)
    requires T.TreeOk(tok.tree) && T.Enabled(tok, T.Check(p))
    ensures T.Apply(tok, T.Check(p)).execs == tok.execs
  {
  }

  // The stretch between a signal and some later moment, over which nobody
  // resets the flag.
  ghost predicate SignalHolds(run: seq<State>, g: nat, n: nat, t: T.TokenId)
    requires n < |run|
  {
    forall k: nat {:trigger run[k]} :: g < k <= n ==> t in run[k].tok.cancelled
  }

  lemma SignalHoldsInRow(run: seq<State>, g: nat, n: nat, t: T.TokenId)
    requires n < |run| && SignalHolds(run, g, n, t)
    ensures R.FlagKept(Toks(run), t, g + 1, n)
  {
    forall k: nat | g + 1 <= k <= n ensures t in Toks(run)[k].cancelled {
      assert t in run[k].tok.cancelled;
    }
  }

  // After the end of the drain, for as long as nobody resets the flag,
  // something is live beneath the token exactly if a call that had passed its
  // check of the token before the signal is spawned after the drain.
  lemma DisturbedExactlyBy(run: seq<State>, g: nat, d: nat, n: nat, c: CancelId)
    requires IsRun(run) && g < d < n < |run| && SignalsAt(run, g, c) && DrainEndsAt(run, d, c)
    requires SignalHolds(run, g, n, TokenAt(run[d], c))
    ensures TokenAt(run[d], c) == TokenAt(run[g], c)
    ensures R.Disturbed(Toks(run), TokenAt(run[d], c), d + 1, n) <==>
            R.SpawnedLate(Toks(run), TokenAt(run[d], c), g + 1, d + 1, n)
    ensures run[g + 1].tok.execs == run[g].tok.execs
  {
    ToksAreARow(run);
    DrainEndsEmpty(run, d, c);
    SignalSets(run, g, c);
    Known(run, g, c);
    SameToken(run, g, d, c);
    SignalHoldsInRow(run, g, n, TokenAt(run[d], c));
    R.DisturbedExactlyBy(Toks(run), TokenAt(run[d], c), g + 1, d + 1, n);
  }

  // Once the calls that were pending at the end of the drain are over, nested
  // tasks and detached code or not, the scope is quiet for good.
  lemma QuietOnceOver(run: seq<State>, d: nat, k: nat, n: nat, c: CancelId)
    requires IsRun(run) && d < k <= n < |run| && DrainEndsAt(run, d, c)
    requires SignalHolds(run, d, n, TokenAt(run[d], c))
    requires R.PendingAreOver(Toks(run), TokenAt(run[d], c), d + 1, k)
    ensures L.Quiet(run[n].tok, TokenAt(run[d], c))
  {
    ToksAreARow(run);
    DrainEndsEmpty(run, d, c);
    SignalHoldsInRow(run, d, n, TokenAt(run[d], c));
    R.QuietOnceOver(Toks(run), TokenAt(run[d], c), d + 1, k, n);
  }

  // `cancel` answering true: the worker has ended and, if no call beneath the
  // token was between its check and its spawn when the drain ended, nothing
  // tracked there is live or will be while the flag is set.
  lemma CancelledIsQuiet(run: seq<State>, g: nat, d: nat, n: nat, c: CancelId)
    requires IsRun(run) && n < |run| && c in run[n].cancels && SaysTrue(run[n].cancels[c])
    requires StoppedBetween(run, g, d, n, c)
    requires SignalHolds(run, g, n, TokenAt(run[d], c))
    requires L.NothingPending(run[d + 1].tok, TokenAt(run[d], c))
    ensures run[n].cancels[c].task in run[n].tasks && run[n].tasks[run[n].cancels[c].task].worker.Ended?
    ensures L.Quiet(run[n].tok, TokenAt(run[d], c))
  {
    TrueWasStopped(run, n, c);
    QuietOnceOver(run, d, d + 1, n, c);
  }

  // Who can be pending at the end of the drain: not the cancelled task's own
  // worker, and no module code that is itself tracked beneath the token; so it
  // is another task's worker, or code that has detached itself.
  lemma WhoIsPending(run: seq<State>, d: nat, c: CancelId, e: T.ExecId)
    requires IsRun(run) && DrainEndsAt(run, d, c)
    requires e in run[d + 1].tok.execs && L.Pending(run[d + 1].tok.execs[e], TokenAt(run[d], c))
    ensures var x := run[d + 1].tok.execs[e];
      && x.caller != T.Worker(run[d].cancels[c].task)
      && (x.caller.Nested? ==>
           x.caller.exec in run[d].tok.execs && TokenAt(run[d], c) !in run[d].tok.execs[x.caller.exec].scopes)
  {
    DrainEndsEmpty(run, d, c);
    Known(run, d, c);
    RunKeepsInv(run, d);
    var s, x := run[d], run[d].tok.execs[e];
    assert x.spawning.InProgress();
    assert T.CallerRunning(s.tok.execs, x.caller);
    if x.caller.Nested? {
      assert !L.LiveBeneath(run[d + 1].tok, x.caller.exec, TokenAt(run[d], c));
    }
  }

  // What does get spawned is aborted all the same: from the end of the drain
  // on, everything beneath the token whose spawn has returned is over or has
  // had its abort fired.
  ghost predicate AllAborted(tok: T.State, t: T.TokenId) {
    forall e :: e in tok.execs && t in tok.execs[e].scopes && tok.execs[e].spawning.Returned? ==>
      tok.execs[e].aborted || tok.execs[e].body.Dropping? || tok.execs[e].body.Gone?
  }

  ghost predicate SweptBy(tok: T.State, p: T.ProcId, t: T.TokenId) {
    p in tok.procs && T.PastSweep(tok.procs[p]) && !tok.procs[p].Firing? && tok.procs[p].token == t
  }

  lemma {:induction false} SweptForEver(run: seq<State>, i: nat, j: nat, p: T.ProcId, t: T.TokenId)
    requires IsRun(run) && i <= j < |run| && SweptBy(run[i].tok, p, t)
    ensures SweptBy(run[j].tok, p, t)
  {
    if i < j {
      SweptForEver(run, i, j - 1, p, t);
      var step := StepOf(run, j - 1);
      if TokenPart(run[j - 1], step).Some? {
        SweepsFirstStays(run[j - 1].tok, TokenPart(run[j - 1], step).value, p);
        TokensGrow(run[j - 1].tok, TokenPart(run[j - 1], step).value);
      }
    }
  }

  lemma SweptAreAborted(tok: T.State, p: T.ProcId, t: T.TokenId)
    requires T.Inv(tok) && SweptBy(tok, p, t)
    ensures AllAborted(tok, t)
  {
    forall e | e in tok.execs && t in tok.execs[e].scopes && tok.execs[e].spawning.Returned?
      ensures tok.execs[e].aborted || tok.execs[e].body.Dropping? || tok.execs[e].body.Gone?
    {
      L.SweptIsAborted(tok, p, e);
    }
  }

  lemma CancelReachesAll(run: seq<State>, d: nat, n: nat, c: CancelId)
    requires IsRun(run) && d < n < |run| && DrainEndsAt(run, d, c)
    ensures run[d].cancels[c].task in run[d].tasks && AllAborted(run[n].tok, TokenAt(run[d], c))
  {
    Known(run, d, c);
    DrainedIsSwept(run[d].tok, run[d].cancels[c].proc);
    SweptForEver(run, d + 1, n, run[d].cancels[c].proc, TokenAt(run[d], c));
    TokInv(run, n);
    SweptAreAborted(run[n].tok, run[d].cancels[c].proc, TokenAt(run[d], c));
  }

  lemma DrainedIsSwept(tok: T.State, p: T.ProcId)
    requires T.TreeOk(tok.tree) && T.Enabled(tok, T.Check(p)) && SweepsFirst(tok.procs[p])
    requires T.ScopeEmpty(tok, tok.procs[p].token)
    ensures SweptBy(T.Apply(tok, T.Check(p)), p, tok.procs[p].token)
  {
  }

  // Cleanup takes a token out of the map only when nothing beneath it is live.
  lemma CleanupWaits(s: State, w: SweepId)
    requires Reachable(s) && CleanEnabled(s, w, DropToken) && s.sweeps[w].ids[0] in s.tokens
    requires s.sweeps[w].ids[0] !in ApplyClean(s, w, DropToken).tokens
    ensures L.NothingLive(s.tok, s.tasks[s.sweeps[w].ids[0]].token)
  {
    ReachableInv(s);
    L.EmptyIsNotLive(s.tok, s.tasks[s.sweeps[w].ids[0]].token);
  }
}
