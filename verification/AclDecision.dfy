// What an access check decides, stated without a scan: the outcome of one
// rule for one call, and the decision a list of outcomes determines
// (PROTOCOL_SPEC sections 6.1.1, 6.3 and 6.9 as src/acl.rs implements them).
module AclDecision {
  import opened Wrappers
  import opened Json
  import opened Kleene
  import opened Conditions
  import opened AclRules

  // A context carries what the rule patterns read of it; what the leaf
  // handlers read of it is in the answers of `registries`.
  datatype CallContext = CallContext(identityType: Option<string>)

  datatype Call = Call(caller: Option<string>, target: string, ctx: Option<CallContext>, registries: Registries) {
    // An absent caller is the external one.
    function CallerId(): string {
      if caller.Some? then caller.value else EXTERNAL_CALLER
    }

    predicate IsSystem() {
      ctx.Some? && ctx.value.identityType == Some("system")
    }
  }

  datatype RuleMatch = NoMatch | Matched | Unanswerable

  datatype Reason = ByRule | ByDefaultEffect | ByNoRules

  datatype AccessDecision = AccessDecision(
    access: string,
    approvalRequired: bool,
    matchedRuleIndex: Option<nat>,
    reason: Reason)
  {
    predicate IsAllowed() {
      access == "allow"
    }

    // ACL::check folds the two axes and fails closed (src/acl.rs:1859-1867).
    predicate Check() {
      IsAllowed() && !approvalRequired
    }
  }

  // ---------------------------------------------------------------------
  // One rule, one call
  // ---------------------------------------------------------------------

  predicate PatternFault(rule: ACLRule) {
    PatternShapeFault(rule.callers).Some? || PatternShapeFault(rule.targets).Some?
  }

  ghost predicate InScope(rule: ACLRule, call: Call) {
    && ArrayMatches(rule.callers, call.CallerId(), call.IsSystem())
    && ArrayMatches(rule.targets, call.target, call.IsSystem())
  }

  // The precheck runs first; then a missing context is an ordinary non-match.
  ghost function ConditionResult(conditions: Value, call: Call, mode: Mode): ConditionOutcome {
    if Faults(call.registries, mode, conditions, "") != {} then Unevaluable
    else if call.ctx.None? then Unsatisfied
    else if !conditions.Object? then Unevaluable
    else Eval(call.registries, mode, conditions)
  }

  function RuleMatchOf(outcome: ConditionOutcome): RuleMatch {
    match outcome
    case Satisfied => Matched
    case Unsatisfied => NoMatch
    case Unevaluable => Unanswerable
  }

  ghost function RuleOutcome(rule: ACLRule, call: Call, mode: Mode): RuleMatch {
    if PatternFault(rule) then Unanswerable
    else if !InScope(rule, call) then NoMatch
    else if rule.conditions.None? then Matched
    else RuleMatchOf(ConditionResult(rule.conditions.value, call, mode))
  }

  // A conditional rule in scope whose conditions pass the precheck is skipped
  // when the call has no context: the case that is warned about.
  ghost predicate SkippedForContext(rule: ACLRule, call: Call, mode: Mode) {
    && !PatternFault(rule)
    && InScope(rule, call)
    && rule.conditions.Some?
    && Faults(call.registries, mode, rule.conditions.value, "") == {}
    && call.ctx.None?
  }

  // The paths one rule's matching reports as unevaluable.
  ghost function RuleReports(rule: ACLRule, call: Call, mode: Mode): set<string> {
    if PatternFault(rule) then
      (if PatternShapeFault(rule.callers).Some? then {"callers"} else {})
      + (if PatternShapeFault(rule.targets).Some? then {"targets"} else {})
    else if !InScope(rule, call) || rule.conditions.None? then {}
    else
      var faults := Faults(call.registries, mode, rule.conditions.value, "");
      if faults != {} then Paths(faults)
      else if call.ctx.None? || !rule.conditions.value.Object? then {}
      else Reports(call.registries, mode, rule.conditions.value, "")
  }

  ghost function Outcomes(rules: seq<ACLRule>, call: Call, mode: Mode): (outs: seq<RuleMatch>)
    ensures |outs| == |rules| && forall i :: 0 <= i < |rules| ==> outs[i] == RuleOutcome(rules[i], call, mode)
  {
    seq(|rules|, i requires 0 <= i < |rules| => RuleOutcome(rules[i], call, mode))
  }

  // What a scan meets, rule by rule: the outcome, the reported paths, and
  // whether the rule is skipped for want of a context.
  datatype Trace = Trace(outs: seq<RuleMatch>, reports: seq<set<string>>, skips: seq<bool>)

  ghost function TraceOf(rules: seq<ACLRule>, call: Call, mode: Mode): Trace {
    Trace(
      Outcomes(rules, call, mode),
      seq(|rules|, i requires 0 <= i < |rules| => RuleReports(rules[i], call, mode)),
      seq(|rules|, i requires 0 <= i < |rules| => SkippedForContext(rules[i], call, mode)))
  }

  // The triggers keep the meaning of a rule out of proofs about the scan.
  ghost predicate Describes(t: Trace, rules: seq<ACLRule>, call: Call, mode: Mode) {
    && |t.outs| == |t.reports| == |t.skips| == |rules|
    && (forall i {:trigger RuleOutcome(rules[i], call, mode)} :: 0 <= i < |rules| ==>
         t.outs[i] == RuleOutcome(rules[i], call, mode))
    && (forall i {:trigger RuleReports(rules[i], call, mode)} :: 0 <= i < |rules| ==>
         t.reports[i] == RuleReports(rules[i], call, mode))
    && (forall i {:trigger SkippedForContext(rules[i], call, mode)} :: 0 <= i < |rules| ==>
         t.skips[i] == SkippedForContext(rules[i], call, mode))
  }

  ghost function Gathered(reports: seq<set<string>>, n: nat): set<string>
    requires n <= |reports|
  {
    set i, p | 0 <= i < n && p in reports[i] :: p
  }

  ghost function Picked(instances: seq<nat>, skips: seq<bool>, n: nat): set<nat>
    requires n <= |skips| == |instances|
  {
    set i | 0 <= i < n && skips[i] :: instances[i]
  }

  // ---------------------------------------------------------------------
  // The decision a list of outcomes determines
  // ---------------------------------------------------------------------

  // A rule decides when it matched, or when it is a deny rule nobody could answer.
  predicate Decides(rule: ACLRule, outcome: RuleMatch) {
    outcome == Matched || (outcome == Unanswerable && rule.effect == "deny")
  }

  ghost predicate IsDecider(rules: seq<ACLRule>, outs: seq<RuleMatch>, n: nat)
    requires |outs| == |rules|
  {
    && n <= |rules|
    && (forall j :: 0 <= j < n ==> !Decides(rules[j], outs[j]))
    && (n < |rules| ==> Decides(rules[n], outs[n]))
  }

  // An approval some earlier rule asked for but could not attach to its own grant.
  ghost predicate PendingBefore(rules: seq<ACLRule>, outs: seq<RuleMatch>, n: nat)
    requires |outs| == |rules| && n <= |rules|
  {
    exists j :: 0 <= j < n && outs[j] == Unanswerable && ApprovalRequired(rules[j])
  }

  ghost function DecisionAt(rules: seq<ACLRule>, outs: seq<RuleMatch>, defaultEffect: string, n: nat): AccessDecision
    requires |outs| == |rules| && n <= |rules|
  {
    if rules == [] then AccessDecision(defaultEffect, false, None, ByNoRules)
    else if n < |rules| then
      AccessDecision(
        rules[n].effect,
        rules[n].effect == "allow" && (ApprovalRequired(rules[n]) || PendingBefore(rules, outs, n)),
        Some(n),
        ByRule)
    else
      AccessDecision(defaultEffect, defaultEffect == "allow" && PendingBefore(rules, outs, n), None, ByDefaultEffect)
  }

  ghost predicate IsDecision(d: AccessDecision, rules: seq<ACLRule>, outs: seq<RuleMatch>, defaultEffect: string)
    requires |outs| == |rules|
  {
    exists n: nat :: IsDecider(rules, outs, n) && d == DecisionAt(rules, outs, defaultEffect, n)
  }

  // Every list of outcomes determines exactly one decision.
  lemma {:induction false} DeciderExists(rules: seq<ACLRule>, outs: seq<RuleMatch>, from: nat) returns (n: nat)
    requires |outs| == |rules| && from <= |rules|
    requires forall j :: 0 <= j < from ==> !Decides(rules[j], outs[j])
    ensures IsDecider(rules, outs, n)
    decreases |rules| - from
  {
    if from == |rules| || Decides(rules[from], outs[from]) {
      n := from;
    } else {
      n := DeciderExists(rules, outs, from + 1);
    }
  }

  lemma DecisionIsUnique(rules: seq<ACLRule>, outs: seq<RuleMatch>, defaultEffect: string)
    requires |outs| == |rules|
    ensures exists d :: IsDecision(d, rules, outs, defaultEffect)
    ensures forall d, e :: IsDecision(d, rules, outs, defaultEffect) && IsDecision(e, rules, outs, defaultEffect) ==>
      d == e
  {
    var n := DeciderExists(rules, outs, 0);
    assert IsDecision(DecisionAt(rules, outs, defaultEffect, n), rules, outs, defaultEffect);
    forall m: nat | IsDecider(rules, outs, m) ensures m == n {
      assert !(m < n) && !(n < m);
    }
  }
}
