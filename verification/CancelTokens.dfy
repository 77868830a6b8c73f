// Tracked executions in a tree of cancel tokens (src/cancel.rs) as a state
// machine, with the cancellation check that stands before every spawn
// (src/builtin_steps.rs:1240-1260). One step is one lock section, one atomic
// load or store, or one moment of a task's life; steps of different calls,
// finishers, aborters and drains interleave freely.
module CancelTokens {
  import opened Wrappers

  type TokenId = nat
  type ExecId = nat
  type ProcId = nat

  // The part of a token that never changes.
  datatype Node = Node(parent: Option<TokenId>)

  // ExecutionRecord: whether the abort handle is published, and the request mark.
  datatype Record = Record(published: bool, abortRequested: bool)

  // Who makes a call: the worker of a background task, module code that is
  // itself a tracked execution, or any other code that holds the token.
  datatype Caller = Worker(task: nat) | Nested(exec: ExecId) | Elsewhere

  // Where a call is: walking its chain in check_for, of which `done` flags
  // have been loaded and none was set; refused there; inserting records scope
  // by scope; publishing the abort handle scope by scope; or returned.
  datatype Spawning = Loading(done: nat) | Refused | Inserting(done: nat) | Publishing(done: nat) | Returned {
    predicate NotYet() {
      Loading? || Refused? || Inserting?
    }

    // Between the check and the end of spawn_tracked nothing awaits.
    predicate InProgress() {
      Loading? || Inserting? || Publishing?
    }
  }

  // The spawned future: while Dropping(i, r) the registration's drop is at
  // scope i, whose record is gone when r, and whose waiters are yet to be told.
  datatype Body = NotSpawned | Live | Dropping(at: nat, removed: bool) | Gone

  datatype Execution = Execution(
    token: TokenId,
    scopes: seq<TokenId>,
    caller: Caller,
    spawning: Spawning,
    body: Body,
    aborted: bool)

  // A running abort_owned_executions or drain. `swept` tells the two apart
  // once they share the drain loop.
  datatype Proc =
    | Flagging(token: TokenId)
    | Sweeping(token: TokenId)
    | Firing(token: TokenId, pending: set<ExecId>)
    | Enabling(token: TokenId, swept: bool)
    | Checking(token: TokenId, swept: bool, notified: bool)
    | Parked(token: TokenId, swept: bool, notified: bool)
    | Drained(token: TokenId, swept: bool)

  // `cancelled` and `abortRequested` are the tokens whose flag is set; the key
  // (t, e) of `active` is e's record in t's scope.
  datatype State = State(
    tree: seq<Node>,
    cancelled: set<TokenId>,
    abortRequested: set<TokenId>,
    active: map<(TokenId, ExecId), Record>,
    execs: map<ExecId, Execution>,
    nextExec: ExecId,
    procs: map<ProcId, Proc>)

  const Initial := State([], {}, {}, map[], map[], 0, map[])

  // has_active_executions, negated.
  ghost predicate ScopeEmpty(s: State, t: TokenId) {
    forall e :: (t, e) !in s.active
  }

  // ---------------------------------------------------------------------
  // The token tree
  // ---------------------------------------------------------------------

  predicate TreeOk(tree: seq<Node>) {
    forall t :: 0 <= t < |tree| && tree[t].parent.Some? ==> tree[t].parent.value < t
  }

  // The token and its ancestors, in the order spawn_tracked visits them.
  function Chain(tree: seq<Node>, t: TokenId): seq<TokenId>
    requires TreeOk(tree) && t < |tree|
  {
    [t] + if tree[t].parent.None? then [] else Chain(tree, tree[t].parent.value)
  }

  // CancelToken::is_cancelled (src/cancel.rs:271-282): the walk to the root.
  method IsCancelled(s: State, t: TokenId) returns (r: bool)
    requires TreeOk(s.tree) && t < |s.tree|
    ensures r <==> exists u: nat :: u in Chain(s.tree, t) && u in s.cancelled
  {
    var token: TokenId := t;
    while true
      invariant token < |s.tree|
      invariant (exists u: nat :: u in Chain(s.tree, t) && u in s.cancelled) <==>
                (exists u: nat :: u in Chain(s.tree, token) && u in s.cancelled)
      decreases token
    {
      if token in s.cancelled {
        assert token in Chain(s.tree, token);
        return true;
      }
      match s.tree[token].parent
      case None =>
        assert Chain(s.tree, token) == [token];
        return false;
      case Some(parent) =>
        assert Chain(s.tree, token) == [token] + Chain(s.tree, parent);
        token := parent;
    }
  }

  // ---------------------------------------------------------------------
  // Steps
  // ---------------------------------------------------------------------

  datatype Step =
    | NewToken(parent: Option<TokenId>)
    | SetCancelled(token: TokenId, value: bool)
    | Call(token: TokenId, caller: Caller)
    | Load(exec: ExecId)
    | Insert(exec: ExecId)
    | Spawn(exec: ExecId)
    | Publish(exec: ExecId)
    | Return(exec: ExecId)
    | DropFuture(exec: ExecId)
    | Remove(exec: ExecId)
    | Notify(exec: ExecId)
    | Start(proc: ProcId, token: TokenId, abort: bool)
    | StoreFlag(proc: ProcId)
    | Sweep(proc: ProcId)
    | Fire(proc: ProcId, exec: ExecId)
    | FinishFiring(proc: ProcId)
    | Enable(proc: ProcId)
    | Check(proc: ProcId)
    | Wake(proc: ProcId)

  predicate CallerRunning(execs: map<ExecId, Execution>, caller: Caller) {
    caller.Nested? ==> caller.exec in execs && execs[caller.exec].body.Live?
  }

  // Module code in the middle of a call of its own cannot be dropped: it does
  // not await there.
  ghost predicate InsideCall(s: State, e: ExecId) {
    exists f :: f in s.execs && s.execs[f].caller == Nested(e) && s.execs[f].spawning.InProgress()
  }

  ghost predicate Enabled(s: State, step: Step)
    requires TreeOk(s.tree)
  {
    match step
    case NewToken(parent) => parent.Some? ==> parent.value < |s.tree|
    case SetCancelled(t, _) => t < |s.tree|
    case Call(t, caller) => t < |s.tree| && CallerRunning(s.execs, caller)
    case Load(e) =>
      e in s.execs && s.execs[e].spawning.Loading? && s.execs[e].spawning.done < |s.execs[e].scopes|
    case Insert(e) =>
      e in s.execs && s.execs[e].spawning.Inserting? && s.execs[e].spawning.done < |s.execs[e].scopes|
    case Spawn(e) =>
      e in s.execs && s.execs[e].spawning == Inserting(|s.execs[e].scopes|)
    case Publish(e) =>
      e in s.execs && s.execs[e].spawning.Publishing? && s.execs[e].spawning.done < |s.execs[e].scopes|
    case Return(e) =>
      e in s.execs && s.execs[e].spawning == Publishing(|s.execs[e].scopes|)
    case DropFuture(e) =>
      e in s.execs && s.execs[e].body.Live? && !InsideCall(s, e)
    case Remove(e) =>
      e in s.execs && s.execs[e].body.Dropping? && !s.execs[e].body.removed && s.execs[e].body.at < |s.execs[e].scopes|
    case Notify(e) =>
      e in s.execs && s.execs[e].body.Dropping? && s.execs[e].body.removed && s.execs[e].body.at < |s.execs[e].scopes|
    case Start(p, t, _) => p !in s.procs && t < |s.tree|
    case StoreFlag(p) => p in s.procs && s.procs[p].Flagging?
    case Sweep(p) => p in s.procs && s.procs[p].Sweeping?
    case Fire(p, e) => p in s.procs && s.procs[p].Firing? && e in s.procs[p].pending && e in s.execs
    case FinishFiring(p) => p in s.procs && s.procs[p].Firing? && s.procs[p].pending == {}
    case Enable(p) => p in s.procs && s.procs[p].Enabling?
    case Check(p) => p in s.procs && s.procs[p].Checking?
    case Wake(p) => p in s.procs && s.procs[p].Parked? && s.procs[p].notified
  }

  // A flag that is set refuses the call; behind the last one it passes.
  function AfterLoad(x: Execution, isSet: bool): Spawning
    requires x.spawning.Loading?
  {
    if isSet then Refused
    else if x.spawning.done + 1 < |x.scopes| then Loading(x.spawning.done + 1)
    else Inserting(0)
  }

  // notify_waiters reaches every waiter enabled on the scope.
  function Notified(proc: Proc, t: TokenId): Proc {
    match proc
    case Checking(u, swept, n) => Checking(u, swept, n || u == t)
    case Parked(u, swept, n) => Parked(u, swept, n || u == t)
    case _ => proc
  }

  ghost function Apply(s: State, step: Step): State
    requires TreeOk(s.tree) && Enabled(s, step)
  {
    match step
    case NewToken(parent) =>
      s.(tree := s.tree + [Node(parent)])
    case SetCancelled(t, value) =>
      s.(cancelled := if value then s.cancelled + {t} else s.cancelled - {t})
    case Call(t, caller) =>
      s.(execs := s.execs[s.nextExec := Execution(t, Chain(s.tree, t), caller, Loading(0), NotSpawned, false)],
         nextExec := s.nextExec + 1)
    case Load(e) =>
      var x := s.execs[e];
      s.(execs := s.execs[e := x.(spawning := AfterLoad(x, x.scopes[x.spawning.done] in s.cancelled))])
    case Insert(e) =>
      var x := s.execs[e];
      var t := x.scopes[x.spawning.done];
      s.(active := s.active[(t, e) := Record(false, t in s.abortRequested)],
         execs := s.execs[e := x.(spawning := Inserting(x.spawning.done + 1))])
    case Spawn(e) =>
      s.(execs := s.execs[e := s.execs[e].(spawning := Publishing(0), body := Live)])
    case Publish(e) =>
      var x := s.execs[e];
      var key := (x.scopes[x.spawning.done], e);
      var next := Publishing(x.spawning.done + 1);
      if key in s.active then
        s.(active := s.active[key := s.active[key].(published := true)],
           execs := s.execs[e := x.(spawning := next, aborted := x.aborted || s.active[key].abortRequested)])
      else
        s.(execs := s.execs[e := x.(spawning := next)])
    case Return(e) =>
      s.(execs := s.execs[e := s.execs[e].(spawning := Returned)])
    case DropFuture(e) =>
      s.(execs := s.execs[e := s.execs[e].(body := Dropping(0, false))])
    case Remove(e) =>
      var x := s.execs[e];
      s.(active := s.active - {(x.scopes[x.body.at], e)},
         execs := s.execs[e := x.(body := Dropping(x.body.at, true))])
    case Notify(e) =>
      var x := s.execs[e];
      var t := x.scopes[x.body.at];
      s.(procs := map p | p in s.procs :: Notified(s.procs[p], t),
         execs := s.execs[e := x.(body := if x.body.at + 1 < |x.scopes| then Dropping(x.body.at + 1, false) else Gone)])
    case Start(p, t, abort) =>
      s.(procs := s.procs[p := if abort then Flagging(t) else Enabling(t, false)])
    case StoreFlag(p) =>
      var t := s.procs[p].token;
      s.(abortRequested := s.abortRequested + {t}, procs := s.procs[p := Sweeping(t)])
    case Sweep(p) =>
      var t := s.procs[p].token;
      s.(active := map k | k in s.active :: if k.0 == t then s.active[k].(abortRequested := true) else s.active[k],
         procs := s.procs[p := Firing(t, set e | e in s.execs && (t, e) in s.active && s.active[(t, e)].published)])
    case Fire(p, e) =>
      s.(execs := s.execs[e := s.execs[e].(aborted := true)],
         procs := s.procs[p := s.procs[p].(pending := s.procs[p].pending - {e})])
    case FinishFiring(p) =>
      s.(procs := s.procs[p := Enabling(s.procs[p].token, true)])
    case Enable(p) =>
      s.(procs := s.procs[p := Checking(s.procs[p].token, s.procs[p].swept, false)])
    case Check(p) =>
      var c := s.procs[p];
      s.(procs := s.procs[p := if ScopeEmpty(s, c.token) then Drained(c.token, c.swept)
                               else Parked(c.token, c.swept, c.notified)])
    case Wake(p) =>
      s.(procs := s.procs[p := Enabling(s.procs[p].token, s.procs[p].swept)])
  }

  ghost predicate Next(s: State, t: State) {
    TreeOk(s.tree) && exists step :: Enabled(s, step) && t == Apply(s, step)
  }

  // ---------------------------------------------------------------------
  // The invariant
  // ---------------------------------------------------------------------

  // Whether an execution's record is in its i-th scope.
  predicate Registered(x: Execution, i: nat) {
    match x.body
    case NotSpawned => x.spawning.Inserting? && i < x.spawning.done
    case Live => true
    case Dropping(at, removed) => at < i || (at == i && !removed)
    case Gone => false
  }

  // How far spawn_tracked has published: everywhere once it has returned.
  predicate PublishedAt(x: Execution, i: nat, r: Record) {
    match x.spawning
    case Publishing(done) => i < done ==> r.published
    case Returned => r.published
    case _ => !r.published
  }

  ghost predicate ExecOk(tree: seq<Node>, active: map<(TokenId, ExecId), Record>, e: ExecId, x: Execution)
    requires TreeOk(tree)
  {
    && x.token < |tree| && x.scopes == Chain(tree, x.token)
    && (x.spawning.NotYet() <==> x.body.NotSpawned?)
    && (x.spawning.Loading? ==> x.spawning.done < |x.scopes|)
    && (x.spawning.Inserting? || x.spawning.Publishing? ==> x.spawning.done <= |x.scopes|)
    && (x.body.Dropping? ==> x.body.at < |x.scopes|)
    && (forall i :: 0 <= i < |x.scopes| ==> ((x.scopes[i], e) in active <==> Registered(x, i)))
    && (forall i :: 0 <= i < |x.scopes| && (x.scopes[i], e) in active ==> PublishedAt(x, i, active[(x.scopes[i], e)]))
  }

  ghost predicate ExecsOk(s: State)
    requires TreeOk(s.tree)
  {
    forall e :: e in s.execs ==> e < s.nextExec && ExecOk(s.tree, s.active, e, s.execs[e])
  }

  // No record belongs to anything but a known execution's own chain.
  ghost predicate RecordsOwned(s: State) {
    forall k :: k in s.active ==> k.1 in s.execs && k.0 in s.execs[k.1].scopes
  }

  ghost predicate CallersOk(s: State) {
    forall e :: e in s.execs && s.execs[e].spawning.InProgress() ==> CallerRunning(s.execs, s.execs[e].caller)
  }

  predicate PastSweep(p: Proc) {
    p.Firing? || ((p.Enabling? || p.Checking? || p.Parked? || p.Drained?) && p.swept)
  }

  // Behind a sweep every record is marked, and a published one has been fired
  // or waits for the sweeper that collected it.
  ghost predicate SweptRecord(s: State, proc: Proc, e: ExecId)
    requires (proc.token, e) in s.active
  {
    var r := s.active[(proc.token, e)];
    && r.abortRequested
    && (r.published && e in s.execs ==> s.execs[e].aborted || (proc.Firing? && e in proc.pending))
  }

  ghost predicate SweepOk(s: State, proc: Proc) {
    && proc.token < |s.tree|
    && (proc.Sweeping? || PastSweep(proc) ==> proc.token in s.abortRequested)
    && (PastSweep(proc) ==> forall e :: (proc.token, e) in s.active ==> SweptRecord(s, proc, e))
  }

  ghost predicate SweepsOk(s: State) {
    forall p :: p in s.procs ==> SweepOk(s, s.procs[p])
  }

  // A finisher between removing its record from `t` and telling t's waiters.
  predicate OwesNotify(x: Execution, t: TokenId) {
    x.body.Dropping? && x.body.removed && x.body.at < |x.scopes| && x.scopes[x.body.at] == t
  }

  ghost predicate NotifyOwed(s: State, t: TokenId) {
    exists e :: e in s.execs && OwesNotify(s.execs[e], t)
  }

  ghost predicate WaitersOk(s: State) {
    forall p :: p in s.procs && s.procs[p].Parked? && !s.procs[p].notified ==>
      !ScopeEmpty(s, s.procs[p].token) || NotifyOwed(s, s.procs[p].token)
  }

  ghost predicate Inv(s: State) {
    && TreeOk(s.tree)
    && ExecsOk(s)
    && RecordsOwned(s)
    && CallersOk(s)
    && SweepsOk(s)
    && WaitersOk(s)
  }
}
