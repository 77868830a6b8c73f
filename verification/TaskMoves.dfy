// What the manager's own moves come to, and that none of its parts gets stuck.
module TaskMoves {
  import opened TaskStatuses
  import opened Wrappers
  import opened TaskManager
  import T = CancelTokens

  // ---------------------------------------------------------------------
  // Admission and cleanup
  // ---------------------------------------------------------------------

  // A submission is let in exactly while fewer records are pending or running
  // than the limit; a refused one changes no record.
  lemma AdmissionIs(s: State, id: TaskId)
    requires ManagerEnabled(s, Submit(id, Count))
    ensures var b := ApplyManager(s, Submit(id, Count));
      && b.store == s.store && id in b.tasks
      && var active := set x | x in s.store && (s.store[x].status == Pending || s.store[x].status == Running);
         && (|active| < s.maxTasks ==> b.tasks[id].submission == Saving && b.admission == s.admission)
         && (|active| >= s.maxTasks ==> b.tasks[id].submission == Rejected && b.admission == None)
  {
    assert ActiveIds(s.store) == set x | x in s.store && (s.store[x].status == Pending || s.store[x].status == Running);
  }

  // A cleanup takes each of its tasks out of the store, of the handles, and,
  // unless something is still tracked beneath its token, of the tokens.
  lemma CleanupIs(s: State, w: SweepId, id: TaskId, rest: seq<TaskId>)
    requires w in s.sweeps && s.sweeps[w] == Deleting([id] + rest, false) && id in s.tasks
    ensures ManagerEnabled(s, Clean(w, DeleteRecord))
    ensures var a := ApplyManager(s, Clean(w, DeleteRecord));
      && ManagerEnabled(a, Clean(w, DropHandle))
      && var b := ApplyManager(a, Clean(w, DropHandle));
         && ManagerEnabled(b, Clean(w, DropToken))
         && var c := ApplyManager(b, Clean(w, DropToken));
            && c.store == s.store - {id} && c.handles == s.handles - {id}
            && c.tokens == (if exists e :: (s.tasks[id].token, e) in s.tok.active then s.tokens else s.tokens - {id})
            && c.sweeps == s.sweeps[w := Deleting(rest, false)] && c.tasks == s.tasks && c.cancels == s.cancels
  {
    assert ([id] + rest)[1..] == rest;
    var a := ApplyManager(s, Clean(w, DeleteRecord));
    var c := ApplyManager(ApplyManager(a, Clean(w, DropHandle)), Clean(w, DropToken));
    assert c.sweeps == s.sweeps[w := Deleting(rest, false)];
  }

  // The reaper takes the record alone.
  lemma ReaperIs(s: State, w: SweepId, id: TaskId, rest: seq<TaskId>)
    requires w in s.sweeps && s.sweeps[w] == Deleting([id] + rest, true) && id in s.tasks
    ensures ManagerEnabled(s, Clean(w, DeleteRecord))
    ensures ApplyManager(s, Clean(w, DeleteRecord)) ==
            s.(store := s.store - {id}, sweeps := s.sweeps[w := Deleting(rest, true)])
  {
    assert ([id] + rest)[1..] == rest;
  }

  // A sweep may begin over any records that are over, and over no other.
  lemma SweepsBegin(s: State, w: SweepId, ids: seq<TaskId>, reaper: bool)
    ensures ManagerEnabled(s, NewSweep(w, ids, reaper)) <==>
            && w !in s.sweeps
            && forall i :: 0 <= i < |ids| ==>
                 && ids[i] in s.store
                 && (s.store[ids[i]].status == Completed || s.store[ids[i]].status == Failed
                     || s.store[ids[i]].status == Cancelled)
  {
  }

  // ---------------------------------------------------------------------
  // Nobody gets stuck
  // ---------------------------------------------------------------------

  // A submission that has neither been refused nor come to its end can go on,
  // but for waiting for the admission lock.
  lemma SubmissionsGoOn(s: State, id: TaskId)
    requires id in s.tasks
    requires match s.tasks[id].submission
      case Admitting => s.admission.None?
      case Submitted => false
      case Rejected => false
      case Inherited => false
      case _ => true
    ensures exists step :: ManagerEnabled(s, Submit(id, step))
  {
    var step :=
      match s.tasks[id].submission
      case Admitting => LockAdmission
      case Counting => Count
      case Saving => SaveNew
      case Registering => RegisterToken
      case Spawning => SpawnWorker
      case _ => PublishHandle;
    assert ManagerEnabled(s, Submit(id, step));
  }

  // A worker that has started and not ended can go on, but for a call it is in
  // the middle of and for its drain; and one that is to be aborted can end.
  lemma WorkersGoOn(s: State, id: TaskId)
    requires id in s.tasks && !s.tasks[id].worker.NotStarted? && !s.tasks[id].worker.Ended?
    requires s.tasks[id].worker.Calling? ==> !InsideCall(s.tok, id)
    requires s.tasks[id].worker.DrainWait? ==>
      s.tasks[id].worker.proc in s.tok.procs && s.tok.procs[s.tasks[id].worker.proc].Drained?
    ensures exists step :: step != AbortWorker && ManagerEnabled(s, Work(id, step))
    ensures s.tasks[id].abortAsked && !InsideCall(s.tok, id) ==> ManagerEnabled(s, Work(id, AbortWorker))
  {
    var step :=
      match s.tasks[id].worker
      case Acquiring => Acquire
      case Fetching => Fetch
      case SavingRunning(_) => SaveRunning
      case Calling => ModuleReturns(true)
      case Refetching(_) => Refetch
      case SavingRetry(_) => SaveRetry
      case Sleeping => DelayOver
      case Confirming(_) => Confirm
      case SavingTerminal(_) => SaveTerminal
      case StartingDrain => StartDrain(0)
      case DrainWait(_) => DrainOver
      case SettingFinished => SetFinished
      case RemovingHandle => RemoveHandle
      case _ => RemoveToken;
    assert ManagerEnabled(s, Work(id, step));
  }

  // A cancellation without an answer can go on, but for waiting for the lock,
  // for the worker's end and for its drain; and it can be given up where it
  // waits.
  lemma CancellationsGoOn(s: State, c: CancelId)
    requires c in s.cancels && s.cancels[c].task in s.tasks
    ensures s.cancels[c].Waiting? || s.cancels[c].Joining? || s.cancels[c].Draining? ==>
      ManagerEnabled(s, Cancel(c, Drop))
    ensures
      var k := s.cancels[c];
      && !k.Done? && !k.Dropped? && (k.Waiting? ==> s.cancelLock.None?)
      && (k.Joining? ==> s.tasks[k.task].worker.Ended?)
      && (k.Draining? ==> k.proc in s.tok.procs && s.tok.procs[k.proc].Drained?) ==>
        exists step :: step != Drop && ManagerEnabled(s, Cancel(c, step))
  {
    var step :=
      match s.cancels[c]
      case Waiting(_) => Lock
      case Looking(_) => Look
      case Taking(_) => Take
      case Aborting(_) => AskAbort
      case Joining(_) => Joined
      case FindingToken(_) => FindToken
      case Signalling(_) => Signal
      case Stopping(_) => Stop(0)
      case Draining(_, _) => Stopped
      case Forgetting(_) => Forget
      case Rechecking(_) => Recheck
      case _ => Overwrite;
    var k := s.cancels[c];
    if && !k.Done? && !k.Dropped? && (k.Waiting? ==> s.cancelLock.None?)
       && (k.Joining? ==> s.tasks[k.task].worker.Ended?)
       && (k.Draining? ==> k.proc in s.tok.procs && s.tok.procs[k.proc].Drained?) {
      assert ManagerEnabled(s, Cancel(c, step));
    }
  }

  // A worker that is over drains its token and aborts nothing; a cancellation
  // begins by flagging what is beneath the token for abort.
  lemma WhoAborts(s: State, id: TaskId, c: CancelId, p: T.ProcId)
    requires T.TreeOk(s.tok.tree)
    ensures Enabled(s, Work(id, StartDrain(p))) ==>
      Apply(s, Work(id, StartDrain(p))).tok.procs == s.tok.procs[p := T.Enabling(s.tasks[id].token, false)]
    ensures Enabled(s, Cancel(c, Stop(p))) ==>
      Apply(s, Cancel(c, Stop(p))).tok.procs == s.tok.procs[p := T.Flagging(s.tasks[s.cancels[c].task].token)]
  {
  }

  // Raising and resetting a token's flag touch that flag alone.
  lemma FlagIs(s: T.State, t: T.TokenId, value: bool, u: T.TokenId)
    requires T.TreeOk(s.tree) && T.Enabled(s, T.SetCancelled(t, value))
    ensures u in T.Apply(s, T.SetCancelled(t, value)).cancelled <==> if u == t then value else u in s.cancelled
  {
  }
}
