// Admission, single answers and the way task tokens are given back: further
// invariants, each kept by every step on top of the one in TaskTokens.
module TaskExtras {
  import opened TaskStatuses
  import opened Wrappers
  import opened TaskManager
  import opened TaskProofs
  import opened TaskTokens

  // ---------------------------------------------------------------------
  // Capacity
  // ---------------------------------------------------------------------

  // One submission at a time is between the capacity check and the save, and
  // it found room.
  ghost predicate AdmissionOk(s: State) {
    && |ActiveIds(s.store)| <= s.maxTasks
    && forall id :: id in s.tasks ==>
         && (s.tasks[id].submission.Counting? || s.tasks[id].submission.Saving? ==> s.admission == Some(id))
         && (s.tasks[id].submission.Saving? ==> |ActiveIds(s.store)| < s.maxTasks)
  }

  lemma {:induction false} SubsetIsNoLarger<X>(a: set<X>, b: set<X>)
    requires a <= b
    ensures |a| <= |b|
  {
    if a != {} {
      var x :| x in a;
      SubsetIsNoLarger(a - {x}, b - {x});
    }
  }

  // Only the steps of a submission move submissions.
  lemma OthersLeaveSubmissions(s: State, step: Step)
    requires ManagerEnabled(s, step) && !step.Submit?
    ensures var b := ApplyManager(s, step);
      && b.admission == s.admission && b.maxTasks == s.maxTasks
      && forall id :: id in b.tasks ==>
           b.tasks[id].submission == if id in s.tasks then s.tasks[id].submission else Admitting
  {
  }

  lemma SubmissionMoves(s: State, own: TaskId, step: SubmitStep, id: TaskId)
    requires AdmissionOk(s) && SubmitEnabled(s, own, step) && id in s.tasks
    ensures
      var b := ApplySubmit(s, own, step);
      && b.maxTasks == s.maxTasks && id in b.tasks
      && (b.tasks[id].Saved() && !s.tasks[id].Saved() ==> own == id && step.SaveNew?)
      && (b.tasks[id].submission.Counting? || b.tasks[id].submission.Saving? ==> b.admission == Some(id))
      && (b.tasks[id].submission.Saving? ==> !step.SaveNew? && |ActiveIds(s.store)| < s.maxTasks)
  {
  }

  lemma SavedOnlyBySaving(s: State, step: Step, id: TaskId)
    requires AdmissionOk(s) && ManagerEnabled(s, step) && id in ApplyManager(s, step).tasks
    requires id !in s.tasks || !s.tasks[id].Saved()
    ensures ApplyManager(s, step).tasks[id].Saved() ==> step == Submit(id, SaveNew)
  {
    if step.Submit? {
      SubmissionMoves(s, step.task, step.submit, id);
    } else {
      OthersLeaveSubmissions(s, step);
    }
  }

  // Nothing but a new submission makes a record active.
  lemma ActiveOnlyBySaving(s: State, step: Step)
    requires LifeInv(s) && AdmissionOk(s) && ManagerEnabled(s, step) && !(step.Submit? && step.submit.SaveNew?)
    ensures ActiveIds(ApplyManager(s, step).store) <= ActiveIds(s.store)
  {
    var b := ApplyManager(s, step);
    ManagerKeepsLife(s, step);
    forall id | id in ActiveIds(b.store) ensures id in ActiveIds(s.store) {
      assert TaskOk(b.store, b.handles, id, b.tasks[id]);
      if id !in s.tasks || !s.tasks[id].Saved() {
        SavedOnlyBySaving(s, step, id);
      } else {
        TaskStep(s, step, id);
      }
    }
  }

  lemma SaveNewFills(s: State, id: TaskId)
    requires AdmissionOk(s) && SubmitEnabled(s, id, SaveNew)
    ensures |ActiveIds(ApplySubmit(s, id, SaveNew).store)| <= s.maxTasks
  {
    var b := ApplySubmit(s, id, SaveNew);
    assert ActiveIds(b.store) <= ActiveIds(s.store) + {id};
    SubsetIsNoLarger(ActiveIds(b.store), ActiveIds(s.store) + {id});
  }

  lemma AdmissionStays(s: State, step: Step)
    requires LifeInv(s) && AdmissionOk(s) && ManagerEnabled(s, step)
    ensures AdmissionOk(ApplyManager(s, step))
  {
    var b := ApplyManager(s, step);
    if step.Submit? && step.submit.SaveNew? {
      SaveNewFills(s, step.task);
    } else {
      ActiveOnlyBySaving(s, step);
      SubsetIsNoLarger(ActiveIds(b.store), ActiveIds(s.store));
    }
    forall id | id in b.tasks
      ensures b.tasks[id].submission.Counting? || b.tasks[id].submission.Saving? ==> b.admission == Some(id)
      ensures b.tasks[id].submission.Saving? ==> |ActiveIds(b.store)| < b.maxTasks
    {
      if step.Submit? {
        SubmissionMoves(s, step.task, step.submit, id);
      } else {
        OthersLeaveSubmissions(s, step);
      }
    }
  }

  // ---------------------------------------------------------------------
  // One cancellation per task answers true
  // ---------------------------------------------------------------------

  ghost predicate OneTrue(s: State) {
    forall c, d :: c in s.cancels && d in s.cancels && c != d && SaysTrue(s.cancels[c]) && SaysTrue(s.cancels[d]) ==>
      s.cancels[c].task != s.cancels[d].task
  }

  predicate SaysTrue(k: Canceller) {
    k.Done? && k.answer
  }

  lemma TrueOnlyByOverwriting(s: State, step: Step, c: CancelId)
    requires ManagerEnabled(s, step) && c in ApplyManager(s, step).cancels && SaysTrue(ApplyManager(s, step).cancels[c])
    ensures c in s.cancels && ApplyManager(s, step).cancels[c].task == s.cancels[c].task
    ensures SaysTrue(s.cancels[c]) || (step == Cancel(c, Overwrite) && s.cancels[c].Overwriting?)
  {
  }

  lemma OneTrueStays(s: State, step: Step)
    requires LifeInv(s) && OneTrue(s) && ManagerEnabled(s, step)
    ensures OneTrue(ApplyManager(s, step))
  {
    var b := ApplyManager(s, step);
    forall c, d | c in b.cancels && d in b.cancels && c != d && SaysTrue(b.cancels[c]) && SaysTrue(b.cancels[d])
      ensures b.cancels[c].task != b.cancels[d].task
    {
      TrueOnlyByOverwriting(s, step, c);
      TrueOnlyByOverwriting(s, step, d);
      assert CancelOk(s, c, s.cancels[c]) && CancelOk(s, d, s.cancels[d]);
    }
  }

  // ---------------------------------------------------------------------
  // Tokens are given back
  // ---------------------------------------------------------------------

  // A worker that ends by itself takes its token out of the map, and so does
  // a cancellation before it answers true.
  ghost predicate TokensGivenBack(s: State) {
    && (forall id :: id in s.tasks && s.tasks[id].worker.Ended? && !s.tasks[id].abortAsked ==> id !in s.tokens)
    && (forall c :: c in s.cancels && PastForgetting(s.cancels[c]) ==> s.cancels[c].task !in s.tokens)
  }

  predicate PastForgetting(k: Canceller) {
    k.Rechecking? || k.Overwriting? || SaysTrue(k)
  }

  lemma SubmitGivesBack(s: State, id: TaskId, step: SubmitStep)
    requires CancellersKnow(s) && TokensGivenBack(s) && SubmitEnabled(s, id, step) && PhasesOk(s.tasks[id])
    ensures TokensGivenBack(ApplySubmit(s, id, step))
  {
  }

  lemma WorkGivesBack(s: State, id: TaskId, step: WorkStep)
    requires TokensGivenBack(s) && WorkEnabled(s, id, step)
    ensures TokensGivenBack(ApplyWork(s, id, step))
  {
  }

  lemma CancelGivesBack(s: State, c: CancelId, step: CancelStep)
    requires TokensGivenBack(s) && CancelEnabled(s, c, step)
    ensures TokensGivenBack(ApplyCancel(s, c, step))
  {
  }

  lemma OthersGiveBack(s: State, step: Step)
    requires TokensGivenBack(s) && s.tokens <= s.tasks.Keys && ManagerEnabled(s, step)
    requires !step.Submit? && !step.Work? && !step.Cancel?
    ensures TokensGivenBack(ApplyManager(s, step))
  {
  }

  lemma TokensStayGivenBack(s: State, step: Step)
    requires LifeInv(s) && TokensGivenBack(s) && s.tokens <= s.tasks.Keys && ManagerEnabled(s, step)
    ensures TokensGivenBack(ApplyManager(s, step))
  {
    match step
    case Submit(id, st) =>
      LifeFacts(s, step);
      assert TaskOk(s.store, s.handles, id, s.tasks[id]);
      SubmitGivesBack(s, id, st);
    case Work(id, st) => WorkGivesBack(s, id, st);
    case Cancel(c, st) => CancelGivesBack(s, c, st);
    case _ => OthersGiveBack(s, step);
  }

  // ---------------------------------------------------------------------
  // Tokens are given back late enough
  // ---------------------------------------------------------------------

  // The lock holder has dealt with the task's token and is about to answer.
  predicate Finishing(s: State, id: TaskId) {
    && s.cancelLock.Some? && s.cancelLock.value in s.cancels && s.cancels[s.cancelLock.value].task == id
    && (s.cancels[s.cancelLock.value].Rechecking? || s.cancels[s.cancelLock.value].Overwriting?)
  }

  // While a task's record is active its token is in the map, until a
  // cancellation that is about to answer takes it out.
  predicate TokenKept(s: State, id: TaskId)
    requires id in s.tasks
  {
    s.tasks[id].TokenMade() && id !in s.tokens && StillActive(s.store, id) ==> Finishing(s, id)
  }

  ghost predicate TokensKept(s: State) {
    forall id :: id in s.tasks ==> TokenKept(s, id)
  }

  lemma SubmitKeepsToken(s: State, own: TaskId, step: SubmitStep, id: TaskId)
    requires SubmitEnabled(s, own, step) && id in s.tasks && TokenKept(s, id)
    ensures TokenKept(ApplySubmit(s, own, step), id)
  {
  }

  lemma WorkKeepsToken(s: State, own: TaskId, step: WorkStep, id: TaskId)
    requires WorkEnabled(s, own, step) && id in s.tasks && TokenKept(s, id)
    requires TaskOk(s.store, s.handles, id, s.tasks[id])
    ensures TokenKept(ApplyWork(s, own, step), id)
  {
  }

  lemma CancelKeepsToken(s: State, c: CancelId, step: CancelStep, id: TaskId)
    requires CancelEnabled(s, c, step) && id in s.tasks && TokenKept(s, id) && CancelOk(s, c, s.cancels[c])
    ensures TokenKept(ApplyCancel(s, c, step), id)
  {
  }

  lemma CleanKeepsToken(s: State, w: SweepId, step: SweepStep, id: TaskId)
    requires CleanEnabled(s, w, step) && id in s.tasks && TokenKept(s, id) && SweepOk(s, s.sweeps[w])
    ensures TokenKept(ApplyClean(s, w, step), id)
  {
  }

  lemma TokenKeptStays(s: State, step: Step, id: TaskId)
    requires LifeInv(s) && ManagerEnabled(s, step) && id in s.tasks && TokenKept(s, id)
    ensures id in ApplyManager(s, step).tasks && TokenKept(ApplyManager(s, step), id)
  {
    match step
    case Submit(own, st) => SubmitKeepsToken(s, own, st, id);
    case Work(own, st) =>
      assert TaskOk(s.store, s.handles, id, s.tasks[id]);
      WorkKeepsToken(s, own, st, id);
    case Cancel(c, st) =>
      assert CancelOk(s, c, s.cancels[c]);
      CancelKeepsToken(s, c, st, id);
    case Clean(w, st) =>
      assert SweepOk(s, s.sweeps[w]);
      CleanKeepsToken(s, w, st, id);
    case NewCancel(c, _) => assert s.cancelLock.Some? ==> s.cancelLock.value != c;
    case _ =>
  }

  lemma TokensStayKept(s: State, step: Step)
    requires LifeInv(s) && TokensKept(s) && ManagerEnabled(s, step)
    ensures TokensKept(ApplyManager(s, step))
  {
    forall id | id in ApplyManager(s, step).tasks ensures TokenKept(ApplyManager(s, step), id) {
      if id in s.tasks {
        TokenKeptStays(s, step, id);
      } else {
        NewTaskHasNoToken(s, step, id);
      }
    }
  }

  lemma NewTaskHasNoToken(s: State, step: Step, id: TaskId)
    requires ManagerEnabled(s, step) && id in ApplyManager(s, step).tasks && id !in s.tasks
    ensures !ApplyManager(s, step).tasks[id].TokenMade()
  {
  }

  ghost predicate FullInv(s: State) {
    Inv(s) && AdmissionOk(s) && OneTrue(s) && TokensGivenBack(s) && TokensKept(s)
  }
}
