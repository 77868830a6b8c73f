// One call of a module (src/executor.rs:1125-1225): the standard strategy, run
// again for as long as a middleware answers an error with a retry, each time in
// a context derived from the last one.
module Calls {
  import opened AclAnswers
  import opened AclDecision
  import opened AclLaws
  import opened AclRules
  import opened Conditions
  import opened Json
  import opened Pipeline
  import opened Wrappers

  // ---------------------------------------------------------------------
  // The call chain
  // ---------------------------------------------------------------------

  datatype Limits = Limits(maxDepth: nat, maxRepeat: nat)

  function Occurrences(chain: seq<string>, name: string): nat {
    if chain == [] then 0 else (if chain[0] == name then 1 else 0) + Occurrences(chain[1..], name)
  }

  // The module was called before, and something else since.
  predicate IsCircular(chain: seq<string>, name: string)
    requires chain != []
  {
    var prior := chain[..|chain| - 1];
    name in prior && prior[|prior| - 1] != name
  }

  // guard_call_chain (src/utils/helpers.rs:200-326), on a chain that ends with
  // the module called.
  predicate GuardPasses(chain: seq<string>, name: string, limits: Limits)
    requires chain != []
  {
    && limits.maxDepth >= 1 && limits.maxRepeat >= 1 && |chain| <= limits.maxDepth
    && !IsCircular(chain, name) && Occurrences(chain, name) <= limits.maxRepeat
  }

  // The guard lets a call through exactly within all its limits, unless the
  // module occurs before its present call with something else right before it.
  lemma GuardPassesWhen(chain: seq<string>, name: string, limits: Limits)
    requires chain != []
    ensures GuardPasses(chain, name, limits) <==>
            && 1 <= limits.maxRepeat && 1 <= |chain| <= limits.maxDepth
            && |set i | 0 <= i < |chain| && chain[i] == name| <= limits.maxRepeat
            && !exists i :: 0 <= i < |chain| - 2 && chain[i] == name && chain[|chain| - 2] != name
  {
    OccurrencesAreCounted(chain, name);
    var prior := chain[..|chain| - 1];
    if i :| 0 <= i < |chain| - 2 && chain[i] == name {
      assert prior[i] == name;
    }
    if name in prior && prior[|prior| - 1] != name {
      var i :| 0 <= i < |prior| && prior[i] == name;
      assert chain[i] == name && chain[|chain| - 2] != name;
    }
  }

  lemma {:induction false} OccurrencesAreCounted(chain: seq<string>, name: string)
    ensures Occurrences(chain, name) == |set i | 0 <= i < |chain| && chain[i] == name|
    decreases |chain|
  {
    var here := set i | 0 <= i < |chain| && chain[i] == name;
    if chain == [] {
      assert here == {};
    } else {
      var last := |chain| - 1;
      assert chain == chain[..last] + [chain[last]];
      OccurrencesBoth(chain[..last], [chain[last]], name);
      OccurrencesAreCounted(chain[..last], name);
      var before := set i | 0 <= i < last && chain[..last][i] == name;
      assert here == before + if chain[last] == name then {last} else {};
    }
  }

  lemma {:induction false} OccurrencesBoth(a: seq<string>, b: seq<string>, name: string)
    ensures Occurrences(a + b, name) == Occurrences(a, name) + Occurrences(b, name)
  {
    if a == [] {
      assert a + b == b;
    } else {
      assert (a + b)[1..] == a[1..] + b;
      OccurrencesBoth(a[1..], b, name);
    }
  }

  function Again(name: string, n: nat): (r: seq<string>)
    ensures |r| == n && forall i :: 0 <= i < n ==> r[i] == name
  {
    seq(n, _ => name)
  }

  lemma {:induction false} OccurrencesAgain(name: string, n: nat)
    ensures Occurrences(Again(name, n), name) == n
  {
    if n > 0 {
      assert Again(name, n)[1..] == Again(name, n - 1);
      OccurrencesAgain(name, n - 1);
    }
  }

  // `Context::child`: the caller of a derived context is the end of the chain
  // it is derived from.
  function CallerOf(chain: seq<string>): Option<string> {
    if chain == [] then None else Some(chain[|chain| - 1])
  }

  // The world of a run whose context is derived from `chain`.
  function WorldOn(w: World, name: string, chain: seq<string>, limits: Limits): World {
    w.(chainRefused := !GuardPasses(chain + [name], name, limits),
       call := w.call.(caller := CallerOf(chain), target := name))
  }

  // ---------------------------------------------------------------------
  // The call
  // ---------------------------------------------------------------------

  // What the middlewares that have run make of an error.
  datatype Reaction = Reraise | Recovery(value: Value) | Retry(inputs: Value)

  datatype Attempt = Attempt(world: World, inputs: Value, log: seq<Event>, executed: bool)

  // What a call meets: the rules it is ruled on by, its limits and chain, and
  // the world and the middlewares' reaction of each run.
  datatype Setting = Setting(
    rules: Option<seq<ACLRule>>,
    defaultEffect: string,
    name: string,
    limits: Limits,
    chain: seq<string>,
    worlds: nat -> World,
    reactions: nat -> Reaction)
  {
    function WorldAt(n: nat): World {
      WorldOn(worlds(n), name, chain + Again(name, n), limits)
    }
  }

  // The n-th run is ruled on by its own verdict on its own inputs.
  ghost predicate IsAttempt(c: Setting, n: nat, a: Attempt) {
    a.world == c.WorldAt(n) && IsRuled(c.rules, c.defaultEffect, a.world, a.inputs, a.log, a.executed)
  }

  // One run follows another only by a retry, behind a gate that had opened.
  ghost predicate IsRetried(c: Setting, n: nat, a: Attempt, inputs: Value) {
    a.executed && c.reactions(n) == Retry(inputs)
  }

  ghost predicate IsCall(c: Setting, runs: seq<Attempt>) {
    && (forall n {:trigger IsAttempt(c, n, runs[n])} :: 0 <= n < |runs| ==> IsAttempt(c, n, runs[n]))
    && (forall n {:trigger runs[n]} :: 0 < n < |runs| ==> IsRetried(c, n - 1, runs[n - 1], runs[n].inputs))
  }

  lemma OneMoreAttempt(c: Setting, runs: seq<Attempt>, next: Attempt)
    requires IsCall(c, runs) && IsAttempt(c, |runs|, next)
    requires runs != [] ==> IsRetried(c, |runs| - 1, runs[|runs| - 1], next.inputs)
    ensures IsCall(c, runs + [next])
  {
    var more := runs + [next];
    forall n: nat | n < |more| ensures IsAttempt(c, n, more[n]) {
      assert n < |runs| ==> IsAttempt(c, n, runs[n]);
    }
  }

  // A run behind the gate is one the frequency guard has let through.
  lemma ExecutedWasFew(c: Setting, n: nat, a: Attempt)
    requires IsAttempt(c, n, a) && a.executed
    ensures Occurrences(c.chain, c.name) + n + 1 <= c.limits.maxRepeat
  {
    OccurrencesAgain(c.name, n);
    OccurrencesBoth(c.chain, Again(c.name, n), c.name);
    OccurrencesBoth(c.chain + Again(c.name, n), [c.name], c.name);
  }

  // The state in which a run may begin, and the verdict's grounds.
  ghost predicate IsFresh(ctx: PipelineContext, c: Setting)
    reads ctx, if ctx.acl.Some? then {ctx.acl.value} else {}
  {
    && (ctx.acl.Some? ==> ctx.acl.value.Valid())
    && ctx.Rules() == c.rules && ctx.Default() == c.defaultEffect
    && ctx.log == [] && ctx.live.None? && !ctx.executed && (ctx.acl.None? ==> !ctx.aclApprovalRequired)
  }

  // One iteration's run, after the runs so far.
  method RunOnce(ctx: PipelineContext, c: Setting, world: World, ghost runs: seq<Attempt>)
    returns (r: Result<Value, StepError>, ghost attempt: Attempt)
    requires IsFresh(ctx, c) && world == c.WorldAt(|runs|)
    modifies ctx, if ctx.acl.Some? then {ctx.acl.value} else {}
    ensures (ctx.acl.Some? ==> ctx.acl.value.Valid()) && (ctx.acl.None? ==> !ctx.aclApprovalRequired)
    ensures ctx.Rules() == c.rules && ctx.Default() == c.defaultEffect
    ensures IsAttempt(c, |runs|, attempt) && attempt.inputs == old(ctx.inputs) && attempt.executed == ctx.executed
    ensures r.Ok? ==> RanOn(attempt.log).Some?
  {
    ctx.world := world;
    r := ctx.Run();
    attempt := Attempt(world, old(ctx.inputs), ctx.log, ctx.executed);
  }

  // What a retry signal leaves of a run: the context with its chain, and the
  // ACL's requirement until the next check.
  method Reset(ctx: PipelineContext, c: Setting, inputs: Value)
    requires (ctx.acl.Some? ==> ctx.acl.value.Valid()) && (ctx.acl.None? ==> !ctx.aclApprovalRequired)
    requires ctx.Rules() == c.rules && ctx.Default() == c.defaultEffect
    modifies ctx
    ensures IsFresh(ctx, c) && ctx.inputs == inputs
  {
    ctx.inputs, ctx.live, ctx.output, ctx.executed, ctx.log := inputs, None, None, false, [];
  }

  // Executor::call. The world may change from run to run; the context is the
  // last run's, not the caller's.
  method Call(ctx: PipelineContext, c: Setting) returns (r: Result<Value, StepError>, ghost runs: seq<Attempt>)
    requires IsFresh(ctx, c)
    modifies ctx, if ctx.acl.Some? then {ctx.acl.value} else {}
    ensures ctx.acl.Some? ==> ctx.acl.value.Valid()
    ensures IsCall(c, runs) && runs != [] && runs[0].inputs == old(ctx.inputs)
    ensures r.Ok? ==> RanOn(runs[|runs| - 1].log).Some? || c.reactions(|runs| - 1) == Recovery(r.value)
  {
    runs := [];
    var n, chain := 0, c.chain;
    while true
      invariant IsFresh(ctx, c) && IsCall(c, runs)
      invariant |runs| == n && chain == c.chain + Again(c.name, n) && (n > 0 ==> n <= c.limits.maxRepeat)
      invariant if n == 0 then ctx.inputs == old(ctx.inputs)
                else runs[0].inputs == old(ctx.inputs) && IsRetried(c, n - 1, runs[n - 1], ctx.inputs)
      decreases c.limits.maxRepeat - n
    {
      ghost var attempt;
      r, attempt := RunOnce(ctx, c, WorldOn(c.worlds(n), c.name, chain, c.limits), runs);
      OneMoreAttempt(c, runs, attempt);
      runs := runs + [attempt];
      if r.Ok? || r.error == ExecutionCancelled || !ctx.executed {
        return;
      }
      match c.reactions(n)
      case Reraise => return;
      case Recovery(value) =>
        r := Ok(value);
        return;
      case Retry(inputs) =>
        ExecutedWasFew(c, n, attempt);
        Reset(ctx, c, inputs);
        chain := chain + [c.name];
        n := n + 1;
    }
  }

  // ---------------------------------------------------------------------
  // What holds of every call
  // ---------------------------------------------------------------------

  // The loop ends whatever the middlewares do: the frequency guard counts each
  // derived context, so the last run apart there are at most as many runs as
  // the module may still occur in the chain.
  lemma RunsAreFew(c: Setting, runs: seq<Attempt>)
    requires IsCall(c, runs) && |runs| > 1
    ensures Occurrences(c.chain, c.name) + |runs| - 1 <= c.limits.maxRepeat
  {
    var n := |runs| - 2;
    assert IsAttempt(c, n, runs[n]) && IsRetried(c, n, runs[n], runs[n + 1].inputs);
    ExecutedWasFew(c, n, runs[n]);
  }

  // A run that the ACL denied, or that the gate stopped, is not retried.
  lemma RefusedIsNotRetried(c: Setting, runs: seq<Attempt>, n: nat, d: AccessDecision)
    requires IsCall(c, runs) && n < |runs| - 1
    requires Verdict(c.rules, c.defaultEffect, runs[n].world.call, runs[n].inputs, d)
    ensures Passes(runs[n].world, d, runs[n].inputs)
  {
    assert IsAttempt(c, n, runs[n]) && IsRetried(c, n, runs[n], runs[n + 1].inputs);
    VerdictIsUnique(c.rules, c.defaultEffect, runs[n].world.call, runs[n].inputs);
  }

  // A run that is gated, with a handler to ask.
  ghost predicate IsGated(c: Setting, a: Attempt) {
    forall d :: Verdict(c.rules, c.defaultEffect, a.world.call, a.inputs, d) ==>
      a.world.handler.Some? && Gated(a.world, d, a.inputs)
  }

  ghost function LogOf(runs: seq<Attempt>): seq<Event> {
    if runs == [] then [] else LogOf(runs[..|runs| - 1]) + runs[|runs| - 1].log
  }

  // An approval is for one run: in the whole log of a call each run of the
  // module's code stands right behind an approval.
  lemma {:induction false} EachRunIsApproved(c: Setting, runs: seq<Attempt>, k: nat)
    requires IsCall(c, runs) && (forall a :: a in runs ==> IsGated(c, a)) && k < |LogOf(runs)| && LogOf(runs)[k].Ran?
    ensures k > 0 && IsApproval(LogOf(runs)[k - 1])
  {
    var rest, last := runs[..|runs| - 1], runs[|runs| - 1];
    if k < |LogOf(rest)| {
      Shorter(c, runs);
      EachRunIsApproved(c, rest, k);
    } else {
      assert IsAttempt(c, |runs| - 1, last);
      var d :| Verdict(c.rules, c.defaultEffect, last.world.call, last.inputs, d)
               && IsHistory(last.world, d, last.inputs, last.log);
      assert IsGated(c, last);
      RunIsApproved(last.world, d, last.inputs, last.log, k - |LogOf(rest)|);
    }
  }

  lemma RunIsApproved(w: World, d: AccessDecision, inputs: Value, log: seq<Event>, k: nat)
    requires IsHistory(w, d, inputs, log) && w.handler.Some? && Gated(w, d, inputs) && k < |log| && log[k].Ran?
    ensures k == 1 && IsApproval(log[0])
  {
  }

  lemma Shorter(c: Setting, runs: seq<Attempt>)
    requires IsCall(c, runs) && runs != []
    ensures IsCall(c, runs[..|runs| - 1])
  {
    var rest := runs[..|runs| - 1];
    forall n: nat | n < |rest| ensures IsAttempt(c, n, rest[n]) {
      assert IsAttempt(c, n, runs[n]);
    }
  }

  // A run whose chain comes back to the module through another one is refused:
  // nothing of it is put to the handler, and no code is run.
  lemma CircularCallIsRefused(c: Setting, runs: seq<Attempt>, i: nat)
    requires IsCall(c, runs) && runs != []
    requires i < |c.chain| && c.chain[i] == c.name && c.chain[|c.chain| - 1] != c.name
    ensures runs[0].log == [] && |runs| == 1
  {
    assert IsAttempt(c, 0, runs[0]);
    assert c.chain + Again(c.name, 0) + [c.name] == c.chain + [c.name];
    GuardPassesWhen(c.chain + [c.name], c.name, c.limits);
    assert (c.chain + [c.name])[i] == c.name;
    assert runs[0].world.chainRefused && !runs[0].executed;
    assert |runs| > 1 ==> IsRetried(c, 0, runs[0], runs[1].inputs);
  }

  // ---------------------------------------------------------------------
  // Who asks when a call is retried
  // ---------------------------------------------------------------------

  // A retried run asks the ACL about the module as its own caller, so it asks
  // what the first run did exactly if the module was its own caller before.
  lemma RetryAsksAboutItself(c: Setting, runs: seq<Attempt>, n: nat)
    requires IsCall(c, runs) && 0 < n < |runs|
    ensures runs[0].world.call.caller == CallerOf(c.chain) && runs[n].world.call.caller == Some(c.name)
    ensures runs[n].world.call.caller == runs[0].world.call.caller <==>
            c.chain != [] && c.chain[|c.chain| - 1] == c.name
  {
    assert IsAttempt(c, 0, runs[0]) && IsAttempt(c, n, runs[n]);
    assert c.chain + Again(c.name, 0) == c.chain;
    assert (c.chain + Again(c.name, n))[|c.chain| + n - 1] == c.name;
  }

  // So a call that the rules allow may be denied when it is retried: under a
  // rule that lets external callers in, every external call is allowed and
  // every retry of one denied.
  lemma RetryOfAllowedIsDenied(c: Setting, runs: seq<Attempt>, n: nat, d: AccessDecision)
    requires c.rules == Some([ExternalOnly]) && c.defaultEffect == "deny" && c.chain == [] && c.name != EXTERNAL_CALLER
    requires IsCall(c, runs) && n < |runs|
    requires Verdict(c.rules, c.defaultEffect, runs[n].world.call, runs[n].inputs, d)
    ensures d.IsAllowed() <==> n == 0
  {
    if n > 0 {
      RetryAsksAboutItself(c, runs, n);
    } else {
      assert IsAttempt(c, 0, runs[0]);
    }
    ExternalOnlyDecides(CallWith(runs[n].world.call, runs[n].inputs), Async, d);
  }
}
