// The execution tokens of background tasks: what the manager keeps of them
// while submissions, workers, cancellations, cleanups and token steps
// interleave.
module TaskTokens {
  import opened TaskStatuses
  import opened TaskManager
  import opened TaskProofs
  import T = CancelTokens
  import P = CancelProofs

  predicate TokenOf(tok: T.State, t: Task) {
    t.TokenMade() ==> t.token < |tok.tree|
  }

  // `p` is a drain of the task's token.
  predicate DrainsToken(tok: T.State, t: Task, p: T.ProcId) {
    t.TokenMade() && p in tok.procs && tok.procs[p].token == t.token
  }

  // A cancellation's drain comes behind its own sweep.
  predicate SweepsFirst(p: T.Proc) {
    p.Enabling? || p.Checking? || p.Parked? || p.Drained? ==> p.swept
  }

  predicate FreshDrain(tok: T.State, t: Task, p: T.ProcId) {
    DrainsToken(tok, t, p) && SweepsFirst(tok.procs[p])
  }

  predicate TaskTok(tok: T.State, tokens: set<TaskId>, id: TaskId, t: Task) {
    && TokenOf(tok, t)
    && (t.worker.DrainWait? ==> DrainsToken(tok, t, t.worker.proc))
    && (id in tokens ==> t.TokenMade())
  }

  predicate CancelTok(tok: T.State, t: Task, k: Canceller) {
    && (k.Signalling? || k.Stopping? || k.Forgetting? ==> t.TokenMade())
    && (k.Draining? ==> FreshDrain(tok, t, k.proc))
  }

  // Only a worker that is calling its module is inside a call.
  ghost predicate CallersOk(s: State) {
    forall e, id: TaskId ::
      e in s.tok.execs && s.tok.execs[e].caller == T.Worker(id) && s.tok.execs[e].spawning.InProgress() ==>
        id in s.tasks && s.tasks[id].worker.Calling?
  }

  ghost predicate ManagerTok(s: State) {
    && s.tokens <= s.tasks.Keys
    && CallersOk(s)
    && (forall id :: id in s.tasks ==> TaskTok(s.tok, s.tokens, id, s.tasks[id]))
    && (forall c :: c in s.cancels && s.cancels[c].task in s.tasks ==>
          CancelTok(s.tok, s.tasks[s.cancels[c].task], s.cancels[c]))
  }

  ghost predicate Inv(s: State) {
    LifeInv(s) && T.Inv(s.tok) && ManagerTok(s)
  }

  // ---------------------------------------------------------------------
  // The tokens move, the manager stands still
  // ---------------------------------------------------------------------

  lemma CallsGrow(tok: T.State, st: T.Step, e: T.ExecId)
    requires T.TreeOk(tok.tree) && T.Enabled(tok, st)
    ensures var b := T.Apply(tok, st);
      if e in tok.execs && e != tok.nextExec then
        e in b.execs && b.execs[e].caller == tok.execs[e].caller
        && (b.execs[e].spawning.InProgress() ==> tok.execs[e].spawning.InProgress())
      else
        e in b.execs && e !in tok.execs ==> st.Call? && b.execs[e].caller == st.caller
  {
  }

  // What is there of tokens and drains stays there.
  lemma TokensGrow(tok: T.State, st: T.Step)
    requires T.TreeOk(tok.tree) && T.Enabled(tok, st)
    ensures |tok.tree| <= |T.Apply(tok, st).tree|
    ensures forall p :: p in tok.procs ==>
      p in T.Apply(tok, st).procs && T.Apply(tok, st).procs[p].token == tok.procs[p].token
  {
  }

  lemma SweepsFirstStays(tok: T.State, st: T.Step, p: T.ProcId)
    requires T.TreeOk(tok.tree) && T.Enabled(tok, st) && p in tok.procs
    ensures p in T.Apply(tok, st).procs
    ensures SweepsFirst(tok.procs[p]) ==> SweepsFirst(T.Apply(tok, st).procs[p])
    ensures T.PastSweep(tok.procs[p]) && !tok.procs[p].Firing? ==>
      T.PastSweep(T.Apply(tok, st).procs[p]) && !T.Apply(tok, st).procs[p].Firing?
  {
  }

  lemma CallersStay(s: State, st: T.Step)
    requires T.Inv(s.tok) && CallersOk(s) && T.Enabled(s.tok, st)
    requires st.Call? && st.caller.Worker? ==> st.caller.task in s.tasks && s.tasks[st.caller.task].worker.Calling?
    ensures CallersOk(s.(tok := T.Apply(s.tok, st)))
  {
    var b := T.Apply(s.tok, st);
    forall e, id: TaskId |
      e in b.execs && b.execs[e].caller == T.Worker(id) && b.execs[e].spawning.InProgress()
      ensures id in s.tasks && s.tasks[id].worker.Calling?
    {
      CallsGrow(s.tok, st, e);
      assert e in s.tok.execs ==> e != s.tok.nextExec;
    }
  }

  lemma CancelTokStays(tok: T.State, st: T.Step, t: Task, k: Canceller)
    requires T.TreeOk(tok.tree) && T.Enabled(tok, st) && CancelTok(tok, t, k)
    ensures CancelTok(T.Apply(tok, st), t, k)
  {
    if k.Draining? {
      TokensGrow(tok, st);
      SweepsFirstStays(tok, st, k.proc);
    }
  }

  // A token step of any origin, with the manager's part left out.
  lemma TokensMove(s: State, st: T.Step)
    requires Inv(s) && T.Enabled(s.tok, st)
    requires st.Call? && st.caller.Worker? ==> st.caller.task in s.tasks && s.tasks[st.caller.task].worker.Calling?
    ensures Inv(s.(tok := T.Apply(s.tok, st)))
  {
    P.StepKeepsInv(s.tok, st);
    CallersStay(s, st);
    TasksTokStay(s, st);
    LifeIgnoresTokens(s, T.Apply(s.tok, st));
  }

  lemma TasksTokStay(s: State, st: T.Step)
    requires T.TreeOk(s.tok.tree) && T.Enabled(s.tok, st) && ManagerTok(s)
    ensures var b := T.Apply(s.tok, st);
      && (forall id :: id in s.tasks ==> TaskTok(b, s.tokens, id, s.tasks[id]))
      && (forall c :: c in s.cancels && s.cancels[c].task in s.tasks ==>
            CancelTok(b, s.tasks[s.cancels[c].task], s.cancels[c]))
  {
    TokensGrow(s.tok, st);
    forall id | id in s.tasks ensures TaskTok(T.Apply(s.tok, st), s.tokens, id, s.tasks[id]) {
      assert TaskTok(s.tok, s.tokens, id, s.tasks[id]);
    }
    forall c | c in s.cancels && s.cancels[c].task in s.tasks
      ensures CancelTok(T.Apply(s.tok, st), s.tasks[s.cancels[c].task], s.cancels[c])
    {
      CancelTokStays(s.tok, st, s.tasks[s.cancels[c].task], s.cancels[c]);
    }
  }

  lemma LifeIgnoresTokens(s: State, tok: T.State)
    requires LifeInv(s)
    ensures LifeInv(s.(tok := tok))
  {
    var b := s.(tok := tok);
    forall id | id in b.tasks ensures TaskOk(b.store, b.handles, id, b.tasks[id]) && HandleOk(b, id) {
      assert HandleOk(s, id);
    }
    forall c | c in b.cancels ensures CancelOk(b, c, b.cancels[c]) {
      assert CancelOk(s, c, s.cancels[c]);
    }
    forall w | w in b.sweeps ensures SweepOk(b, b.sweeps[w]) {
      assert SweepOk(s, s.sweeps[w]);
    }
  }

  // ---------------------------------------------------------------------
  // The manager moves
  // ---------------------------------------------------------------------

  lemma CancelTokMoves(tok: T.State, a: Task, b: Task, k: Canceller)
    requires CancelTok(tok, a, k) && TaskMoves(a, b)
    requires a.submission.Submitted? || a.Inherited()
    ensures CancelTok(tok, b, k)
  {
  }

  // What the lemmas below need of the task records' invariant.
  ghost predicate CancellersKnow(s: State) {
    forall c :: c in s.cancels ==>
      && s.cancels[c].task in s.tasks
      && (s.tasks[s.cancels[c].task].submission.Submitted? || s.tasks[s.cancels[c].task].Inherited())
  }

  lemma LifeFacts(s: State, step: Step)
    requires LifeInv(s) && ManagerEnabled(s, step)
    ensures CancellersKnow(s) && AllMove(s, ApplyManager(s, step))
  {
    AllTasksMove(s, step);
    forall c | c in s.cancels
      ensures s.cancels[c].task in s.tasks
      ensures s.tasks[s.cancels[c].task].submission.Submitted? || s.tasks[s.cancels[c].task].Inherited()
    {
      assert CancelOk(s, c, s.cancels[c]);
    }
  }

  lemma CancelsStay(s: State, b: State)
    requires ManagerTok(s) && CancellersKnow(s) && AllMove(s, b)
    requires b.tok == s.tok && b.cancels == s.cancels
    ensures forall c :: c in b.cancels && b.cancels[c].task in b.tasks ==>
      CancelTok(b.tok, b.tasks[b.cancels[c].task], b.cancels[c])
  {
    forall c | c in b.cancels && b.cancels[c].task in b.tasks
      ensures CancelTok(b.tok, b.tasks[b.cancels[c].task], b.cancels[c])
    {
      var k := s.cancels[c];
      assert Moves(s, b, k.task);
      CancelTokMoves(s.tok, s.tasks[k.task], b.tasks[k.task], k);
    }
  }

  // A task that moves on its own, over unmoved tokens.
  lemma OneTaskMoves(s: State, b: State, id: TaskId)
    requires ManagerTok(s) && CancellersKnow(s) && AllMove(s, b)
    requires b.tok == s.tok && OnlyTask(s, b, id)
    requires forall u :: u in b.tokens && u != id ==> u in s.tokens
    requires forall u :: u in s.tokens && u != id ==> u in b.tokens
    requires TaskTok(b.tok, b.tokens, id, b.tasks[id])
    requires id in s.tasks && s.tasks[id].worker.Calling? && !b.tasks[id].worker.Calling? ==> !InsideCall(s.tok, id)
    ensures ManagerTok(b)
  {
    forall u | u in b.tasks ensures TaskTok(b.tok, b.tokens, u, b.tasks[u]) {
      assert u != id ==> TaskTok(s.tok, s.tokens, u, s.tasks[u]);
    }
    CancelsStay(s, b);
  }

  lemma SubmitTokOwn(s: State, id: TaskId, step: SubmitStep)
    requires SubmitEnabled(s, id, step) && !step.RegisterToken?
    requires TaskTok(s.tok, s.tokens, id, s.tasks[id]) && PhasesOk(s.tasks[id])
    ensures var b := ApplySubmit(s, id, step);
      && b.tok == s.tok && b.tokens == s.tokens
      && TaskTok(b.tok, b.tokens, id, b.tasks[id])
      && (s.tasks[id].worker.Calling? ==> b.tasks[id].worker.Calling?)
  {
  }

  lemma WorkTokOwn(s: State, id: TaskId, step: WorkStep)
    requires WorkEnabled(s, id, step) && TaskTok(s.tok, s.tokens, id, s.tasks[id])
    requires step.StartDrain? ==> DrainsToken(s.tok, s.tasks[id], step.proc)
    ensures var b := ApplyWork(s, id, step);
      && TaskTok(b.tok, b.tokens, id, b.tasks[id])
      && (s.tasks[id].worker.Calling? && !b.tasks[id].worker.Calling? ==> !InsideCall(s.tok, id))
  {
  }

  lemma CancelTokOwn(s: State, c: CancelId, step: CancelStep)
    requires CancelEnabled(s, c, step) && CancelOk(s, c, s.cancels[c])
    requires step.Stop? ==> FreshDrain(s.tok, s.tasks[s.cancels[c].task], step.proc)
    requires var id := s.cancels[c].task;
      TaskTok(s.tok, s.tokens, id, s.tasks[id]) && CancelTok(s.tok, s.tasks[id], s.cancels[c])
    ensures var b, id := ApplyCancel(s, c, step), s.cancels[c].task;
      CancelTok(b.tok, b.tasks[id], b.cancels[c]) && TaskTok(b.tok, b.tokens, id, b.tasks[id])
  {
  }

  lemma OtherCancelsTok(s: State, c: CancelId, step: CancelStep, d: CancelId)
    requires ManagerTok(s) && CancellersKnow(s) && CancelEnabled(s, c, step)
    requires AllMove(s, ApplyCancel(s, c, step)) && d in s.cancels && d != c
    ensures var b := ApplyCancel(s, c, step);
      d in b.cancels && b.cancels[d].task in b.tasks && CancelTok(b.tok, b.tasks[b.cancels[d].task], b.cancels[d])
  {
    var k, b := s.cancels[d], ApplyCancel(s, c, step);
    assert Moves(s, b, k.task);
    CancelTokMoves(s.tok, s.tasks[k.task], b.tasks[k.task], k);
  }

  lemma OtherTasksTok(s: State, c: CancelId, step: CancelStep, u: TaskId)
    requires CancelEnabled(s, c, step)
    requires u in s.tasks && u != s.cancels[c].task && TaskTok(s.tok, s.tokens, u, s.tasks[u])
    ensures var b := ApplyCancel(s, c, step); u in b.tasks && TaskTok(b.tok, b.tokens, u, b.tasks[u])
  {
  }

  lemma CancelKeepsCallers(s: State, c: CancelId, step: CancelStep)
    requires CallersOk(s) && s.tokens <= s.tasks.Keys && CancelEnabled(s, c, step)
    ensures var b := ApplyCancel(s, c, step); CallersOk(b) && b.tokens <= b.tasks.Keys
  {
  }

  lemma CancelTokKeeps(s: State, c: CancelId, step: CancelStep)
    requires ManagerTok(s) && CancellersKnow(s) && CancelEnabled(s, c, step)
    requires CancelOk(s, c, s.cancels[c]) && AllMove(s, ApplyCancel(s, c, step))
    requires step.Stop? ==> FreshDrain(s.tok, s.tasks[s.cancels[c].task], step.proc)
    ensures ManagerTok(ApplyCancel(s, c, step))
  {
    var b, id := ApplyCancel(s, c, step), s.cancels[c].task;
    assert TaskTok(s.tok, s.tokens, id, s.tasks[id]) && CancelTok(s.tok, s.tasks[id], s.cancels[c]);
    CancelTokOwn(s, c, step);
    CancelKeepsCallers(s, c, step);
    forall u | u in b.tasks ensures TaskTok(b.tok, b.tokens, u, b.tasks[u]) {
      if u != id { OtherTasksTok(s, c, step, u); }
    }
    forall d | d in b.cancels && b.cancels[d].task in b.tasks
      ensures CancelTok(b.tok, b.tasks[b.cancels[d].task], b.cancels[d])
    {
      if d != c { OtherCancelsTok(s, c, step, d); }
    }
  }

  lemma CleanTok(s: State, w: SweepId, step: SweepStep)
    requires ManagerTok(s) && CancellersKnow(s) && CleanEnabled(s, w, step)
    requires AllMove(s, ApplyClean(s, w, step))
    ensures ManagerTok(ApplyClean(s, w, step))
  {
    var b, own := ApplyClean(s, w, step), s.sweeps[w].ids[0];
    forall u | u in b.tasks ensures TaskTok(b.tok, b.tokens, u, b.tasks[u]) {
      assert TaskTok(s.tok, s.tokens, u, s.tasks[u]);
    }
    CancelsStay(s, b);
  }

  lemma NewcomerTok(s: State, step: Step)
    requires ManagerTok(s) && CancellersKnow(s) && ManagerEnabled(s, step)
    requires step.NewSubmission? || step.NewCancel? || step.NewSweep?
    ensures ManagerTok(ApplyManager(s, step))
  {
    var b := ApplyManager(s, step);
    forall u | u in b.tasks ensures TaskTok(b.tok, b.tokens, u, b.tasks[u]) {
      assert u in s.tasks ==> TaskTok(s.tok, s.tokens, u, s.tasks[u]);
    }
    forall d | d in b.cancels && b.cancels[d].task in b.tasks
      ensures CancelTok(b.tok, b.tasks[b.cancels[d].task], b.cancels[d])
    {
      assert d in s.cancels ==> CancelTok(s.tok, s.tasks[s.cancels[d].task], s.cancels[d]);
    }
  }

  // ---------------------------------------------------------------------
  // Every step keeps the whole invariant
  // ---------------------------------------------------------------------

  lemma SubmitKeepsInv(s: State, id: TaskId, step: SubmitStep)
    requires Inv(s) && SubmitEnabled(s, id, step) && !step.RegisterToken?
    ensures Inv(ApplySubmit(s, id, step))
  {
    assert TaskOk(s.store, s.handles, id, s.tasks[id]) && TaskTok(s.tok, s.tokens, id, s.tasks[id]);
    ManagerKeepsLife(s, Submit(id, step));
    LifeFacts(s, Submit(id, step));
    SubmitTokOwn(s, id, step);
    SubmitFrame(s, id, step);
    OneTaskMoves(s, ApplySubmit(s, id, step), id);
  }

  // The tokens as a step leaves them, the manager as it was.
  ghost function TokensFirst(s: State, step: Step): State
    requires T.TreeOk(s.tok.tree) && Enabled(s, step) && TokenPart(s, step).Some?
  {
    s.(tok := T.Apply(s.tok, TokenPart(s, step).value))
  }

  // A registered token is its task's own.
  lemma RegisterTok(s: State, mid: State, b: State, id: TaskId)
    requires T.TreeOk(s.tok.tree) && Enabled(s, Submit(id, RegisterToken)) && PhasesOk(s.tasks[id])
    requires mid == TokensFirst(s, Submit(id, RegisterToken)) && b == Apply(s, Submit(id, RegisterToken))
    requires T.TreeOk(mid.tok.tree)
    ensures b.tok == mid.tok && TaskTok(b.tok, b.tokens, id, b.tasks[id])
    ensures OnlyTask(mid, b, id) && b.tokens == mid.tokens + {id} && !mid.tasks[id].worker.Calling?
  {
  }

  lemma RegisterKeepsInv(s: State, id: TaskId)
    requires Inv(s) && Enabled(s, Submit(id, RegisterToken))
    ensures Inv(Apply(s, Submit(id, RegisterToken)))
  {
    var step := Submit(id, RegisterToken);
    var mid, b := TokensFirst(s, step), Apply(s, step);
    TokensMove(s, TokenPart(s, step).value);
    ManagerKeepsLife(s, step);
    LifeIgnoresTokens(ApplyManager(s, step), b.tok);
    LifeFacts(s, step);
    assert PhasesOk(s.tasks[id]) by { assert TaskOk(s.store, s.handles, id, s.tasks[id]); }
    RegisterTok(s, mid, b, id);
    OneTaskMoves(mid, b, id);
  }

  lemma WorkKeepsInv(s: State, id: TaskId, step: WorkStep)
    requires Inv(s) && WorkEnabled(s, id, step)
    requires step.StartDrain? ==> DrainsToken(s.tok, s.tasks[id], step.proc)
    ensures Inv(ApplyWork(s, id, step))
  {
    ManagerKeepsLife(s, Work(id, step));
    LifeFacts(s, Work(id, step));
    WorkTokOwn(s, id, step);
    WorkFrame(s, id, step);
    OneTaskMoves(s, ApplyWork(s, id, step), id);
  }

  lemma CancelKeepsInv(s: State, c: CancelId, step: CancelStep)
    requires Inv(s) && CancelEnabled(s, c, step)
    requires step.Stop? ==> FreshDrain(s.tok, s.tasks[s.cancels[c].task], step.proc)
    ensures Inv(ApplyCancel(s, c, step))
  {
    assert CancelOk(s, c, s.cancels[c]);
    ManagerKeepsLife(s, Cancel(c, step));
    LifeFacts(s, Cancel(c, step));
    CancelTokKeeps(s, c, step);
  }

  lemma CleanKeepsInv(s: State, w: SweepId, step: SweepStep)
    requires Inv(s) && CleanEnabled(s, w, step)
    ensures Inv(ApplyClean(s, w, step))
  {
    ManagerKeepsLife(s, Clean(w, step));
    LifeFacts(s, Clean(w, step));
    CleanTok(s, w, step);
  }

  // A freshly started drain of the task's token.
  lemma StartIsDrain(s: State, id: TaskId, p: T.ProcId, abort: bool)
    requires Inv(s) && id in s.tasks && s.tasks[id].TokenMade()
    requires T.Enabled(s.tok, T.Start(p, s.tasks[id].token, abort))
    ensures Inv(s.(tok := T.Apply(s.tok, T.Start(p, s.tasks[id].token, abort))))
    ensures var b := T.Apply(s.tok, T.Start(p, s.tasks[id].token, abort));
      DrainsToken(b, s.tasks[id], p) && (abort ==> FreshDrain(b, s.tasks[id], p))
  {
    TokensMove(s, T.Start(p, s.tasks[id].token, abort));
  }

  lemma NewcomerKeepsInv(s: State, step: Step)
    requires Inv(s) && ManagerEnabled(s, step) && (step.NewSubmission? || step.NewCancel? || step.NewSweep?)
    ensures Inv(ApplyManager(s, step))
  {
    LifeFacts(s, step);
    ManagerKeepsLife(s, step);
    NewcomerTok(s, step);
  }

  // A step that leaves the tokens alone.
  lemma ManagerStepKeepsInv(s: State, step: Step)
    requires Inv(s) && ManagerEnabled(s, step) && TokenPart(s, step).None?
    ensures Inv(ApplyManager(s, step))
  {
    match step
    case Submit(id, st) => SubmitKeepsInv(s, id, st);
    case Work(id, st) => WorkKeepsInv(s, id, st);
    case Cancel(c, st) => CancelKeepsInv(s, c, st);
    case Clean(w, st) => CleanKeepsInv(s, w, st);
    case _ => NewcomerKeepsInv(s, step);
  }

  lemma CancelOverTokens(s: State, c: CancelId, step: CancelStep)
    requires T.TreeOk(s.tok.tree) && Enabled(s, Cancel(c, step)) && TokenPart(s, Cancel(c, step)).Some?
    ensures CancelEnabled(TokensFirst(s, Cancel(c, step)), c, step)
    ensures Apply(s, Cancel(c, step)) == ApplyCancel(TokensFirst(s, Cancel(c, step)), c, step)
  {
  }

  lemma WorkOverTokens(s: State, id: TaskId, p: T.ProcId)
    requires T.TreeOk(s.tok.tree) && Enabled(s, Work(id, StartDrain(p)))
    ensures WorkEnabled(TokensFirst(s, Work(id, StartDrain(p))), id, StartDrain(p))
    ensures Apply(s, Work(id, StartDrain(p))) == ApplyWork(TokensFirst(s, Work(id, StartDrain(p))), id, StartDrain(p))
  {
  }

  lemma StartDrainKeepsInv(s: State, id: TaskId, p: T.ProcId)
    requires Inv(s) && Enabled(s, Work(id, StartDrain(p)))
    ensures Inv(Apply(s, Work(id, StartDrain(p))))
  {
    assert s.tasks[id].TokenMade() by { assert TaskOk(s.store, s.handles, id, s.tasks[id]); }
    WorkOverTokens(s, id, p);
    StartIsDrain(s, id, p, false);
    WorkKeepsInv(TokensFirst(s, Work(id, StartDrain(p))), id, StartDrain(p));
  }

  lemma SignalKeepsInv(s: State, c: CancelId)
    requires Inv(s) && Enabled(s, Cancel(c, Signal))
    ensures Inv(Apply(s, Cancel(c, Signal)))
  {
    CancelOverTokens(s, c, Signal);
    TokensMove(s, TokenPart(s, Cancel(c, Signal)).value);
    CancelKeepsInv(TokensFirst(s, Cancel(c, Signal)), c, Signal);
  }

  lemma StopKeepsInv(s: State, c: CancelId, p: T.ProcId)
    requires Inv(s) && Enabled(s, Cancel(c, Stop(p)))
    ensures Inv(Apply(s, Cancel(c, Stop(p))))
  {
    var id := s.cancels[c].task;
    assert s.tasks[id].TokenMade() by { assert CancelTok(s.tok, s.tasks[id], s.cancels[c]); }
    CancelOverTokens(s, c, Stop(p));
    StartIsDrain(s, id, p, true);
    CancelKeepsInv(TokensFirst(s, Cancel(c, Stop(p))), c, Stop(p));
  }

  lemma StepKeepsInv(s: State, step: Step)
    requires Inv(s) && Enabled(s, step)
    ensures Inv(Apply(s, step))
  {
    if TokenPart(s, step).None? {
      ManagerStepKeepsInv(s, step);
      assert Apply(s, step) == ApplyManager(s, step);
    } else {
      TokenStepKeepsInv(s, step);
    }
  }

  lemma TokenStepKeepsInv(s: State, step: Step)
    requires Inv(s) && Enabled(s, step) && TokenPart(s, step).Some?
    ensures Inv(Apply(s, step))
  {
    match step
    case TokenStep(st) => TokensMove(s, st);
    case Submit(id, st) => RegisterKeepsInv(s, id);
    case Work(id, st) => StartDrainKeepsInv(s, id, st.proc);
    case Cancel(c, st) =>
      if st.Stop? { StopKeepsInv(s, c, st.proc); } else { SignalKeepsInv(s, c); }
  }
}
