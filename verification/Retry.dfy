// Retrying a background task (src/async_task.rs:1035-1125): the loop of
// run_task over the task store.
module Retry {
  import opened Backoff
  import opened Json
  import opened TaskStatuses
  import opened TaskStore
  import opened Wrappers

  // The first n delays of a task that starts without retries.
  ghost function TotalDelay(cfg: RetryConfig, n: nat): nat {
    if n == 0 then 0 else TotalDelay(cfg, n - 1) + ComputeDelayMs(cfg, n - 1)
  }

  // What others did to the record before the worker's next look at it: cancel
  // overwrites an active record, cleanup deletes a terminal one.
  datatype Event = Nothing | CancelIt | DeleteIt

  lemma {:induction false} ItsOwnId(list: seq<TaskInfo>, id: TaskId)
    ensures Lookup(list, id).Some? ==> Lookup(list, id).value.taskId == id
  {
    if list != [] {
      ItsOwnId(list[1..], id);
    }
  }

  // The store seen as one record per id: what changes and what does not.
  ghost predicate ChangesOnly(before: seq<TaskInfo>, after: seq<TaskInfo>, id: TaskId) {
    forall other {:trigger Lookup(after, other)} :: other != id ==> Lookup(after, other) == Lookup(before, other)
  }

  lemma SaveChanges(list: seq<TaskInfo>, info: TaskInfo)
    ensures ChangesOnly(list, Saved(list, info), info.taskId) && Lookup(Saved(list, info), info.taskId) == Some(info)
  {
    forall other
      ensures Lookup(Saved(list, info), other) == if other == info.taskId then Some(info) else Lookup(list, other)
    {
      LookupSaved(list, info, other);
    }
  }

  lemma DeleteChanges(list: seq<TaskInfo>, id: TaskId)
    ensures ChangesOnly(list, Deleted(list, id), id) && Lookup(Deleted(list, id), id) == None
  {
    forall other ensures Lookup(Deleted(list, id), other) == if other == id then None else Lookup(list, other) {
      LookupDeleted(list, id, other);
    }
  }

  method Put(store: InMemoryTaskStore, info: TaskInfo)
    requires store.Valid()
    modifies store
    ensures store.Valid() && ChangesOnly(old(store.Records()), store.Records(), info.taskId)
    ensures Lookup(store.Records(), info.taskId) == Some(info)
  {
    SaveChanges(store.Records(), info);
    store.Save(info);
  }

  // The record after others have had their turn.
  function Touched(found: Option<TaskInfo>, event: Event, now: real): Option<TaskInfo> {
    match found
    case None => None
    case Some(info) =>
      if event.CancelIt? && info.status.IsActive() then Some(info.(status := Cancelled, completedAt := Some(now)))
      else if event.DeleteIt? && info.status.IsTerminal() then None
      else found
  }

  // A cancellation meets a pending or running record and leaves it cancelled
  // now; a deletion meets one that is over.
  lemma TouchedIs(info: TaskInfo, event: Event, now: real)
    ensures Touched(None, event, now) == None && Touched(Some(info), Nothing, now) == Some(info)
    ensures Touched(Some(info), CancelIt, now) ==
            if info.status == Pending || info.status == Running then
              Some(info.(status := Cancelled, completedAt := Some(now)))
            else Some(info)
    ensures Touched(Some(info), DeleteIt, now) ==
            if info.status == Pending || info.status == Running then Some(info) else None
  {
  }

  // `store.get`, after others have had their turn.
  method GetAfter(store: InMemoryTaskStore, id: TaskId, event: Event, now: real) returns (found: Option<TaskInfo>)
    requires store.Valid()
    modifies store
    ensures store.Valid() && ChangesOnly(old(store.Records()), store.Records(), id)
    ensures found == Lookup(store.Records(), id) == Touched(old(Lookup(store.Records(), id)), event, now)
    ensures found.Some? ==> found.value.taskId == id
  {
    ItsOwnId(store.Records(), id);
    found := store.Get(id);
    match found {
      case None =>
      case Some(info) =>
        if event.CancelIt? && info.status.IsActive() {
          Put(store, info.(status := Cancelled, completedAt := Some(now)));
        } else if event.DeleteIt? && info.status.IsTerminal() {
          DeleteChanges(store.Records(), id);
          store.Delete(id);
        }
    }
    found := store.Get(id);
  }

  // save_terminal_if_not_cancelled: a missing record is written anew.
  method SaveTerminalIfNotCancelled(store: InMemoryTaskStore, info: TaskInfo, event: Event, now: real)
    requires store.Valid()
    modifies store
    ensures store.Valid() && ChangesOnly(old(store.Records()), store.Records(), info.taskId)
    ensures
      var current := Touched(old(Lookup(store.Records(), info.taskId)), event, now);
      Lookup(store.Records(), info.taskId) ==
      if current.Some? && current.value.status.Cancelled? then current else Some(info)
  {
    var current := GetAfter(store, info.taskId, event, now);
    if current.Some? && current.value.status.Cancelled? {
      return;
    }
    Put(store, info);
  }

  function MaxRetries(retry: Option<RetryConfig>): nat {
    if retry.None? then 0 else retry.value.maxRetries
  }

  function MaxDelay(retry: Option<RetryConfig>): nat {
    if retry.None? then 0 else retry.value.maxRetryDelayMs
  }

  predicate IsGone(found: Option<TaskInfo>) {
    found.None? || found.value.status.Cancelled?
  }

  // The record of a run left alone, once n attempts have failed.
  function Retrying(rec: TaskInfo, n: nat, now: real): TaskInfo {
    if n == 0 then rec
    else rec.(status := Pending, retryCount := n, startedAt := if rec.startedAt.Some? then rec.startedAt else Some(now))
  }

  // ... and after its last attempt, the n-th from zero.
  function Finished(rec: TaskInfo, n: nat, outcome: Result<Value, string>, now: real): TaskInfo {
    var done := rec.(retryCount := n, completedAt := Some(now),
                     startedAt := if rec.startedAt.Some? then rec.startedAt else Some(now));
    match outcome
    case Ok(output) => done.(status := Completed, result := Some(output))
    case Err(error) => done.(status := Failed, error := Some(error))
  }

  ghost predicate LeftAlone(events: nat -> Event, before: Option<TaskInfo>) {
    && (forall k: nat :: events(k).Nothing?)
    && before.Some? && before.value.status.Pending? && before.value.retryCount == 0
  }

  // The first success, or the last attempt the policy allows.
  predicate IsLastAttempt(retry: Option<RetryConfig>, outcomes: nat -> Result<Value, string>, n: nat) {
    && (forall k :: 0 <= k < n ==> outcomes(k).Err?)
    && (outcomes(n).Ok? || n == MaxRetries(retry))
  }

  // How one turn of the loop ends: before the call, after it, or for another
  // attempt behind a delay.
  datatype Turn = NotCalled | LastCall | Again(delay: nat)

  // What a turn does to a record that others leave alone.
  ghost predicate IsTurn(was: TaskInfo, retry: Option<RetryConfig>, outcome: Result<Value, string>, now: real,
                         turn: Turn, after: Option<TaskInfo>) {
    if outcome.Err? && was.retryCount < MaxRetries(retry) then
      turn.Again? && after == Some(Retrying(was, was.retryCount + 1, now))
    else
      turn.LastCall? && after == Some(Finished(was, was.retryCount, outcome, now))
  }

  // Another attempt is counted in the record, and its delay follows the policy.
  ghost predicate CountsRetry(was: Option<TaskInfo>, retry: Option<RetryConfig>, turn: Turn, after: Option<TaskInfo>) {
    turn.Again? ==>
      && was.Some? && after.Some? && retry.Some?
      && after.value.retryCount == was.value.retryCount + 1 <= MaxRetries(retry)
      && turn.delay == ComputeDelayMs(retry.value, was.value.retryCount)
  }

  // The record the worker saves before it calls the module.
  function Started(info: TaskInfo, now: real): TaskInfo {
    info.(status := Running, startedAt := if info.startedAt.Some? then info.startedAt else Some(now))
  }

  // What the answered call makes of the record read again after it.
  function Concluded(info: TaskInfo, retry: Option<RetryConfig>, outcome: Result<Value, string>, now: real)
    : (Turn, TaskInfo)
  {
    match outcome
    case Ok(output) => (LastCall, info.(status := Completed, completedAt := Some(now), result := Some(output)))
    case Err(error) =>
      if retry.Some? && info.retryCount < retry.value.maxRetries then
        (Again(ComputeDelayMs(retry.value, info.retryCount)),
         info.(retryCount := info.retryCount + 1, status := Pending))
      else
        (LastCall, info.(status := Failed, completedAt := Some(now), error := Some(error)))
  }

  // A turn from its second look on: how it ends, and the record it leaves.
  function SettledAs(was: Option<TaskInfo>, retry: Option<RetryConfig>, outcome: Result<Value, string>,
                     reread: Event, resave: Event, now: real): (Turn, Option<TaskInfo>) {
    var found := Touched(was, reread, now);
    if IsGone(found) then (LastCall, found)
    else
      var (turn, info) := Concluded(found.value, retry, outcome, now);
      var current := if turn.Again? then found else Touched(found, resave, now);
      (turn, if !turn.Again? && current.Some? && current.value.status.Cancelled? then current else Some(info))
  }

  // A whole turn, whatever is done to the record before each look.
  function TurnOf(was: Option<TaskInfo>, retry: Option<RetryConfig>, outcome: Result<Value, string>,
                  events: nat -> Event, looks: nat, now: real): (Turn, Option<TaskInfo>) {
    var found := Touched(was, events(looks), now);
    if IsGone(found) then (NotCalled, found)
    else SettledAs(Some(Started(found.value, now)), retry, outcome, events(looks + 1), events(looks + 2), now)
  }

  datatype Ran = Ran(calls: nat, slept: nat, after: Option<TaskInfo>)

  // The turns from the n-th on, `slept` milliseconds into the run.
  ghost function RunOf(was: Option<TaskInfo>, retry: Option<RetryConfig>, outcomes: nat -> Result<Value, string>,
                       events: nat -> Event, n: nat, slept: nat, now: real): Ran
    requires n <= MaxRetries(retry) && (was.Some? ==> was.value.retryCount >= n)
    decreases MaxRetries(retry) - n
  {
    var (turn, after) := TurnOf(was, retry, outcomes(n), events, 3 * n, now);
    match turn
    case NotCalled => Ran(n, slept, after)
    case LastCall => Ran(n + 1, slept, after)
    case Again(delay) => RunOf(after, retry, outcomes, events, n + 1, slept + delay, now)
  }

  lemma DelayIsBounded(was: Option<TaskInfo>, retry: Option<RetryConfig>, outcome: Result<Value, string>,
                       events: nat -> Event, looks: nat, now: real)
    ensures var turn := TurnOf(was, retry, outcome, events, looks, now).0; turn.Again? ==> turn.delay <= MaxDelay(retry)
  {
  }

  lemma NextTurn(was: Option<TaskInfo>, retry: Option<RetryConfig>, outcomes: nat -> Result<Value, string>,
                 events: nat -> Event, n: nat, slept: nat, now: real, turn: Turn, after: Option<TaskInfo>)
    requires n <= MaxRetries(retry) && (was.Some? ==> was.value.retryCount >= n)
    requires (turn, after) == TurnOf(was, retry, outcomes(n), events, 3 * n, now)
    ensures turn.Again? ==>
      n < MaxRetries(retry) && turn.delay <= MaxDelay(retry) && (after.Some? ==> after.value.retryCount > n)
    ensures RunOf(was, retry, outcomes, events, n, slept, now) ==
            match turn
            case NotCalled => Ran(n, slept, after)
            case LastCall => Ran(n + 1, slept, after)
            case Again(delay) => RunOf(after, retry, outcomes, events, n + 1, slept + delay, now)
  {
    DelayIsBounded(was, retry, outcomes(n), events, 3 * n, now);
  }

  predicate Named(ran: Ran) {
    ran.calls + ran.slept >= 0
  }

  // `ran` is the run from the n-th turn on, said so that it unfolds only where
  // it is named.
  ghost predicate RunsAs(was: Option<TaskInfo>, retry: Option<RetryConfig>, outcomes: nat -> Result<Value, string>,
                         events: nat -> Event, n: nat, slept: nat, now: real, ran: Ran) {
    && n <= MaxRetries(retry) && (was.Some? ==> was.value.retryCount >= n)
    && forall r {:trigger Named(r)} :: Named(r) && r == RunOf(was, retry, outcomes, events, n, slept, now) ==> r == ran
  }

  lemma RunIsNamed(was: Option<TaskInfo>, retry: Option<RetryConfig>, outcomes: nat -> Result<Value, string>,
                   events: nat -> Event, n: nat, slept: nat, now: real, ran: Ran)
    requires RunsAs(was, retry, outcomes, events, n, slept, now, ran)
    ensures ran == RunOf(was, retry, outcomes, events, n, slept, now)
  {
    assert Named(RunOf(was, retry, outcomes, events, n, slept, now));
  }

  // One turn on, said the same way.
  lemma NextNamed(was: Option<TaskInfo>, retry: Option<RetryConfig>, outcomes: nat -> Result<Value, string>,
                  events: nat -> Event, n: nat, slept: nat, now: real, turn: Turn, after: Option<TaskInfo>, ran: Ran)
    requires RunsAs(was, retry, outcomes, events, n, slept, now, ran)
    requires (turn, after) == TurnOf(was, retry, outcomes(n), events, 3 * n, now)
    ensures turn.NotCalled? ==> ran == Ran(n, slept, after)
    ensures turn.LastCall? ==> ran == Ran(n + 1, slept, after)
    ensures turn.Again? ==>
      n < MaxRetries(retry) && RunsAs(after, retry, outcomes, events, n + 1, slept + turn.delay, now, ran)
  {
    RunIsNamed(was, retry, outcomes, events, n, slept, now, ran);
    NextTurn(was, retry, outcomes, events, n, slept, now, turn, after);
  }

  // Within n delays of at most `cap`.
  predicate SleptWithin(slept: nat, n: nat, cap: nat) {
    slept <= n * cap
  }

  lemma SleepsOn(slept: nat, n: nat, cap: nat, delay: nat)
    requires SleptWithin(slept, n, cap) && delay <= cap
    ensures SleptWithin(slept + delay, n + 1, cap)
  {
  }

  lemma {:induction false} SleptWithinMore(slept: nat, n: nat, m: nat, cap: nat)
    requires SleptWithin(slept, n, cap) && n <= m
    ensures SleptWithin(slept, m, cap)
    decreases m - n
  {
    if n < m {
      SleepsOn(slept, n, cap, 0);
      SleptWithinMore(slept, n + 1, m, cap);
    }
  }

  lemma {:induction false} RunIsBounded(
      was: Option<TaskInfo>, retry: Option<RetryConfig>,
      outcomes: nat -> Result<Value, string>, events: nat -> Event, n: nat, slept: nat, now: real, ran: Ran)
    requires n <= MaxRetries(retry) && (was.Some? ==> was.value.retryCount >= n)
    requires SleptWithin(slept, n, MaxDelay(retry))
    requires ran == RunOf(was, retry, outcomes, events, n, slept, now)
    ensures ran.calls <= MaxRetries(retry) + 1 && SleptWithin(ran.slept, MaxRetries(retry), MaxDelay(retry))
    decreases MaxRetries(retry) - n
  {
    var (turn, after) := TurnOf(was, retry, outcomes(n), events, 3 * n, now);
    NextTurn(was, retry, outcomes, events, n, slept, now, turn, after);
    if turn.Again? {
      SleepsOn(slept, n, MaxDelay(retry), turn.delay);
      RunIsBounded(after, retry, outcomes, events, n + 1, slept + turn.delay, now, ran);
    } else {
      SleptWithinMore(slept, n, MaxRetries(retry), MaxDelay(retry));
    }
  }

  // A run left alone makes exactly the attempts the policy allows, sleeps
  // exactly their delays, and writes the last outcome.
  ghost predicate RunsToTheEnd(rec: TaskInfo, retry: Option<RetryConfig>, outcomes: nat -> Result<Value, string>,
                               now: real, ran: Ran) {
    && ran.calls > 0 && IsLastAttempt(retry, outcomes, ran.calls - 1)
    && ran.slept == (if retry.None? then 0 else TotalDelay(retry.value, ran.calls - 1))
    && ran.after == Some(Finished(rec, ran.calls - 1, outcomes(ran.calls - 1), now))
  }

  // In full: every attempt but the last has failed; the last succeeded and its
  // output is the result, or it was the last one allowed and its error is the
  // record's; the record counts the retries before it and is complete now.
  lemma EndIs(rec: TaskInfo, retry: Option<RetryConfig>, outcomes: nat -> Result<Value, string>, now: real, ran: Ran)
    requires RunsToTheEnd(rec, retry, outcomes, now, ran)
    ensures ran.calls > 0 && forall k :: 0 <= k < ran.calls - 1 ==> outcomes(k).Err?
    ensures outcomes(ran.calls - 1).Err? ==> ran.calls - 1 == if retry.Some? then retry.value.maxRetries else 0
    ensures ran.after.Some?
    ensures var after := ran.after.value;
      && after.retryCount == ran.calls - 1 && after.completedAt == Some(now)
      && after.taskId == rec.taskId && after.moduleId == rec.moduleId && after.submittedAt == rec.submittedAt
      && after.maxRetries == rec.maxRetries
      && after.startedAt == (if rec.startedAt.Some? then rec.startedAt else Some(now))
      && match outcomes(ran.calls - 1)
         case Ok(output) => after.status == Completed && after.result == Some(output) && after.error == rec.error
         case Err(error) => after.status == Failed && after.error == Some(error) && after.result == rec.result
    ensures ran.slept == if retry.Some? then TotalDelay(retry.value, ran.calls - 1) else 0
  {
  }

  // The delays add up one by one, the first one behind attempt zero.
  lemma TotalDelayIs(cfg: RetryConfig, n: nat)
    ensures TotalDelay(cfg, 0) == 0 && TotalDelay(cfg, n + 1) == TotalDelay(cfg, n) + ComputeDelayMs(cfg, n)
  {
  }

  // A record found cancelled or gone before the call is left so, uncalled; one
  // cancelled during the call stays cancelled, whatever the call answers; one
  // cancelled just before the last save stays cancelled too.
  lemma CancelledStays(was: TaskInfo, retry: Option<RetryConfig>, outcome: Result<Value, string>,
                       events: nat -> Event, looks: nat, now: real)
    requires was.status == Pending || was.status == Running
    ensures events(looks) == CancelIt ==>
      TurnOf(Some(was), retry, outcome, events, looks, now) ==
      (NotCalled, Some(was.(status := Cancelled, completedAt := Some(now))))
    ensures events(looks) == Nothing && events(looks + 1) == CancelIt ==>
      TurnOf(Some(was), retry, outcome, events, looks, now).0 == LastCall
      && TurnOf(Some(was), retry, outcome, events, looks, now).1.Some?
      && TurnOf(Some(was), retry, outcome, events, looks, now).1.value.status == Cancelled
    ensures TurnOf(None, retry, outcome, events, looks, now) == (NotCalled, None)
  {
  }

  // A turn left alone, and the turns behind it.
  lemma TurnLeftAlone(was: TaskInfo, retry: Option<RetryConfig>, outcome: Result<Value, string>,
                      events: nat -> Event, looks: nat, now: real)
    requires !was.status.Cancelled? && forall k: nat :: events(k).Nothing?
    ensures var (turn, after) := TurnOf(Some(was), retry, outcome, events, looks, now);
      && IsTurn(was, retry, outcome, now, turn, after)
      && (turn.Again? ==> retry.Some? && turn.delay == ComputeDelayMs(retry.value, was.retryCount))
  {
  }

  // The last turn of a run left alone ...
  lemma EndsHere(rec: TaskInfo, retry: Option<RetryConfig>, outcomes: nat -> Result<Value, string>,
                 n: nat, slept: nat, now: real, turn: Turn, after: Option<TaskInfo>)
    requires rec.retryCount == 0 && n <= MaxRetries(retry) && (forall k :: 0 <= k < n ==> outcomes(k).Err?)
    requires slept == (if retry.None? then 0 else TotalDelay(retry.value, n))
    requires IsTurn(Retrying(rec, n, now), retry, outcomes(n), now, turn, after) && !turn.Again?
    ensures turn.LastCall? && RunsToTheEnd(rec, retry, outcomes, now, Ran(n + 1, slept, after))
  {
  }

  // ... and any other.
  lemma GoesOn(rec: TaskInfo, retry: Option<RetryConfig>, outcome: Result<Value, string>,
               n: nat, now: real, turn: Turn, after: Option<TaskInfo>)
    requires rec.retryCount == 0
    requires IsTurn(Retrying(rec, n, now), retry, outcome, now, turn, after) && turn.Again?
    ensures outcome.Err? && n < MaxRetries(retry) && after == Some(Retrying(rec, n + 1, now))
  {
  }

  lemma {:induction false} RunLeftAlone(
      rec: TaskInfo, retry: Option<RetryConfig>,
      outcomes: nat -> Result<Value, string>, events: nat -> Event, n: nat, slept: nat, now: real)
    requires LeftAlone(events, Some(rec)) && n <= MaxRetries(retry)
    requires (forall k :: 0 <= k < n ==> outcomes(k).Err?)
    requires slept == (if retry.None? then 0 else TotalDelay(retry.value, n))
    ensures RunsToTheEnd(rec, retry, outcomes, now,
                         RunOf(Some(Retrying(rec, n, now)), retry, outcomes, events, n, slept, now))
    decreases MaxRetries(retry) - n
  {
    var was := Retrying(rec, n, now);
    TurnLeftAlone(was, retry, outcomes(n), events, 3 * n, now);
    var (turn, after) := TurnOf(Some(was), retry, outcomes(n), events, 3 * n, now);
    NextTurn(Some(was), retry, outcomes, events, n, slept, now, turn, after);
    if turn.Again? {
      GoesOn(rec, retry, outcomes(n), n, now, turn, after);
      RunLeftAlone(rec, retry, outcomes, events, n + 1, slept + turn.delay, now);
    } else {
      EndsHere(rec, retry, outcomes, n, slept, now, turn, after);
    }
  }

  lemma RunIsAsPromised(was: Option<TaskInfo>, retry: Option<RetryConfig>, outcomes: nat -> Result<Value, string>,
                        events: nat -> Event, now: real, ran: Ran)
    requires ran == RunOf(was, retry, outcomes, events, 0, 0, now)
    ensures ran.calls <= MaxRetries(retry) + 1 && ran.slept <= MaxRetries(retry) * MaxDelay(retry)
    ensures IsGone(was) ==> ran.calls == 0
    ensures was.None? ==> ran.calls == 0 && ran.slept == 0 && ran.after.None?
    ensures was.Some? && was.value.status == Cancelled ==> ran.calls == 0 && ran.slept == 0
    ensures LeftAlone(events, was) ==> RunsToTheEnd(was.value, retry, outcomes, now, ran)
  {
    RunIsBounded(was, retry, outcomes, events, 0, 0, now, ran);
    if LeftAlone(events, was) {
      RunLeftAlone(was.value, retry, outcomes, events, 0, 0, now);
    }
  }

  // From the answered call on.
  method Settle(store: InMemoryTaskStore, id: TaskId, retry: Option<RetryConfig>,
                outcome: Result<Value, string>, reread: Event, resave: Event, now: real)
    returns (turn: Turn)
    requires store.Valid()
    modifies store
    ensures store.Valid() && ChangesOnly(old(store.Records()), store.Records(), id) && !turn.NotCalled?
    ensures (turn, Lookup(store.Records(), id)) ==
            SettledAs(old(Lookup(store.Records(), id)), retry, outcome, reread, resave, now)
    ensures turn.Again? ==> outcome.Err?
    ensures CountsRetry(old(Lookup(store.Records(), id)), retry, turn, Lookup(store.Records(), id))
    ensures
      var was := old(Lookup(store.Records(), id));
      reread.Nothing? && resave.Nothing? && !IsGone(was) && was.value.startedAt.Some? ==>
        IsTurn(was.value, retry, outcome, now, turn, Lookup(store.Records(), id))
  {
    var found := GetAfter(store, id, reread, now);
    if found.None? || found.value.status.Cancelled? {
      return LastCall;
    }
    var info := found.value;
    match outcome
    case Ok(output) =>
      var done := info.(status := Completed, completedAt := Some(now), result := Some(output));
      SaveTerminalIfNotCancelled(store, done, resave, now);
      turn := LastCall;
    case Err(error) =>
      if retry.Some? && info.retryCount < retry.value.maxRetries {
        Put(store, info.(retryCount := info.retryCount + 1, status := Pending));
        turn := Again(ComputeDelayMs(retry.value, info.retryCount));
      } else {
        var done := info.(status := Failed, completedAt := Some(now), error := Some(error));
        SaveTerminalIfNotCancelled(store, done, resave, now);
        turn := LastCall;
      }
  }

  // One turn; what others do before each of its looks is in `events`.
  method TakeTurn(store: InMemoryTaskStore, id: TaskId, retry: Option<RetryConfig>,
                  outcome: Result<Value, string>, events: nat -> Event, looks: nat, now: real)
    returns (turn: Turn)
    requires store.Valid()
    modifies store
    ensures store.Valid() && ChangesOnly(old(store.Records()), store.Records(), id)
    ensures (turn, Lookup(store.Records(), id)) ==
            TurnOf(old(Lookup(store.Records(), id)), retry, outcome, events, looks, now)
    ensures IsGone(old(Lookup(store.Records(), id))) ==> turn.NotCalled?
    ensures turn.Again? ==> outcome.Err?
    ensures CountsRetry(old(Lookup(store.Records(), id)), retry, turn, Lookup(store.Records(), id))
    ensures (forall k: nat :: events(k).Nothing?) && !IsGone(old(Lookup(store.Records(), id))) ==>
      IsTurn(old(Lookup(store.Records(), id)).value, retry, outcome, now, turn, Lookup(store.Records(), id))
  {
    var found := GetAfter(store, id, events(looks), now);
    if found.None? || found.value.status.Cancelled? {
      return NotCalled;
    }
    var info := found.value;
    Put(store, Started(info, now));
    turn := Settle(store, id, retry, outcome, events(looks + 1), events(looks + 2), now);
  }

  // The n-th turn of a run that is to be `whole`.
  method TurnAt(store: InMemoryTaskStore, id: TaskId, retry: Option<RetryConfig>,
                outcomes: nat -> Result<Value, string>, events: nat -> Event, n: nat, ghost slept: nat, now: real,
                ghost whole: Ran)
    returns (turn: Turn)
    requires store.Valid() && RunsAs(Lookup(store.Records(), id), retry, outcomes, events, n, slept, now, whole)
    modifies store
    ensures store.Valid() && ChangesOnly(old(store.Records()), store.Records(), id)
    ensures turn.NotCalled? ==> whole == Ran(n, slept, Lookup(store.Records(), id))
    ensures turn.LastCall? ==> whole == Ran(n + 1, slept, Lookup(store.Records(), id))
    ensures turn.Again? ==>
      && n < MaxRetries(retry)
      && RunsAs(Lookup(store.Records(), id), retry, outcomes, events, n + 1, slept + turn.delay, now, whole)
  {
    ghost var was := Lookup(store.Records(), id);
    turn := TakeTurn(store, id, retry, outcomes(n), events, 3 * n, now);
    NextNamed(was, retry, outcomes, events, n, slept, now, turn, Lookup(store.Records(), id), whole);
  }

  // The loop. `outcomes(n)` is what the n-th call answers, `events(k)` what
  // others do to the record before the k-th look at it.
  method TakeTurns(store: InMemoryTaskStore, id: TaskId, retry: Option<RetryConfig>,
                   outcomes: nat -> Result<Value, string>, events: nat -> Event, now: real, ghost whole: Ran)
    returns (calls: nat, slept: nat)
    requires store.Valid() && RunsAs(Lookup(store.Records(), id), retry, outcomes, events, 0, 0, now, whole)
    modifies store
    ensures store.Valid() && ChangesOnly(old(store.Records()), store.Records(), id)
    ensures Ran(calls, slept, Lookup(store.Records(), id)) == whole
  {
    calls, slept := 0, 0;
    while true
      invariant store.Valid() && ChangesOnly(old(store.Records()), store.Records(), id)
      invariant calls <= MaxRetries(retry)
      invariant RunsAs(Lookup(store.Records(), id), retry, outcomes, events, calls, slept, now, whole)
      decreases MaxRetries(retry) - calls
    {
      var turn := TurnAt(store, id, retry, outcomes, events, calls, slept, now, whole);
      if turn.NotCalled? {
        return;
      }
      calls := calls + 1;
      if turn.LastCall? {
        return;
      }
      slept := slept + turn.delay;
    }
  }

  method RunTask(store: InMemoryTaskStore, id: TaskId, retry: Option<RetryConfig>,
                 outcomes: nat -> Result<Value, string>, events: nat -> Event, now: real)
    returns (calls: nat, slept: nat)
    requires store.Valid()
    modifies store
    ensures store.Valid() && ChangesOnly(old(store.Records()), store.Records(), id)
    ensures Ran(calls, slept, Lookup(store.Records(), id)) ==
            RunOf(old(Lookup(store.Records(), id)), retry, outcomes, events, 0, 0, now)
    ensures calls <= MaxRetries(retry) + 1
    ensures slept <= MaxRetries(retry) * MaxDelay(retry)
    ensures IsGone(old(Lookup(store.Records(), id))) ==> calls == 0
    ensures old(Lookup(store.Records(), id)).None? ==> calls == 0 && slept == 0 && Lookup(store.Records(), id).None?
    ensures old(Lookup(store.Records(), id)).Some? && old(Lookup(store.Records(), id)).value.status == Cancelled ==>
      calls == 0 && slept == 0
    ensures LeftAlone(events, old(Lookup(store.Records(), id))) ==>
      RunsToTheEnd(old(Lookup(store.Records(), id)).value, retry, outcomes, now,
                   Ran(calls, slept, Lookup(store.Records(), id)))
  {
    ghost var whole := RunOf(Lookup(store.Records(), id), retry, outcomes, events, 0, 0, now);
    calls, slept := TakeTurns(store, id, retry, outcomes, events, now, whole);
    RunIsAsPromised(old(Lookup(store.Records(), id)), retry, outcomes, events, now,
                    Ran(calls, slept, Lookup(store.Records(), id)));
  }
}
