// What the access decision answers, in terms of the rules, the call and what
// the condition handlers answered.
module AclAnswers {
  import opened Wrappers
  import opened Json
  import opened Kleene
  import opened Conditions
  import opened ConditionAnswers
  import opened AclRules
  import opened AclDecision

  // The first rule that matched, or that denies and could not be answered,
  // decides with its own effect; without one the default effect does. Approval
  // is on an allow only, where the deciding rule or an earlier unanswerable
  // one asks for it.
  lemma WhoDecides(d: AccessDecision, rules: seq<ACLRule>, outs: seq<RuleMatch>, defaultEffect: string)
    requires |outs| == |rules| && IsDecision(d, rules, outs, defaultEffect)
    ensures d.matchedRuleIndex.None? <==>
            forall j :: 0 <= j < |rules| ==>
              outs[j] != Matched && (outs[j] == Unanswerable ==> rules[j].effect != "deny")
    ensures d.matchedRuleIndex.None? ==>
      d.access == defaultEffect && d.reason == if rules == [] then ByNoRules else ByDefaultEffect
    ensures forall i :: d.matchedRuleIndex == Some(i) ==>
      && i < |rules| && d.access == rules[i].effect && d.reason == ByRule
      && (outs[i] == Matched || (outs[i] == Unanswerable && rules[i].effect == "deny"))
      && forall j :: 0 <= j < i ==> outs[j] != Matched && (outs[j] == Unanswerable ==> rules[j].effect != "deny")
    ensures d.approvalRequired <==>
            && d.access == "allow"
            && exists j :: 0 <= j < |rules| && rules[j].effect == "allow" && rules[j].approval == Some(Required)
                 && (d.matchedRuleIndex == Some(j)
                     || (outs[j] == Unanswerable && (d.matchedRuleIndex.Some? ==> j < d.matchedRuleIndex.value)))
    ensures d.IsAllowed() <==> d.access == "allow"
    ensures d.Check() <==> d.access == "allow" && !d.approvalRequired
  {
    var n: nat :| IsDecider(rules, outs, n) && d == DecisionAt(rules, outs, defaultEffect, n);
    assert forall j :: 0 <= j < n ==> !Decides(rules[j], outs[j]);
    if j :| 0 <= j < n && outs[j] == Unanswerable && ApprovalRequired(rules[j]) {
      assert PendingBefore(rules, outs, n);
    }
  }

  // One rule against one call, case by case.
  lemma RuleIsTheTable(rule: ACLRule, call: Call, mode: Mode)
    ensures
      var caller := if call.caller.Some? then call.caller.value else "@external";
      var system := call.ctx.Some? && call.ctx.value.identityType == Some("system");
      RuleOutcome(rule, call, mode) ==
      if PatternShapeFault(rule.callers).Some? || PatternShapeFault(rule.targets).Some? then Unanswerable
      else if !ArrayMatches(rule.callers, caller, system) then NoMatch
      else if !ArrayMatches(rule.targets, call.target, system) then NoMatch
      else if rule.conditions.None? then Matched
      else if Faults(call.registries, mode, rule.conditions.value, "") != {} then Unanswerable
      else if call.ctx.None? then NoMatch
      else if !rule.conditions.value.Object? then Unanswerable
      else
        match Eval(call.registries, mode, rule.conditions.value)
        case Satisfied => Matched
        case Unsatisfied => NoMatch
        case Unevaluable => Unanswerable
    // What it is warned about for: a conditional rule in scope, of a sound
    // shape, and a call without a context.
    ensures
      var caller := if call.caller.Some? then call.caller.value else "@external";
      SkippedForContext(rule, call, mode) <==>
      && PatternShapeFault(rule.callers).None? && PatternShapeFault(rule.targets).None? && call.ctx.None?
      && ArrayMatches(rule.callers, caller, false) && ArrayMatches(rule.targets, call.target, false)
      && rule.conditions.Some? && Faults(call.registries, mode, rule.conditions.value, "") == {}
  {
  }

  // What it reports: the fields of a wrong shape, else the faults of its
  // conditions, else what their evaluation reports.
  lemma RuleReportsAreTheTable(rule: ACLRule, call: Call, mode: Mode, path: string)
    ensures
      var caller := if call.caller.Some? then call.caller.value else "@external";
      var system := call.ctx.Some? && call.ctx.value.identityType == Some("system");
      path in RuleReports(rule, call, mode) <==>
      if PatternShapeFault(rule.callers).Some? || PatternShapeFault(rule.targets).Some? then
        || (path == "callers" && PatternShapeFault(rule.callers).Some?)
        || (path == "targets" && PatternShapeFault(rule.targets).Some?)
      else
        && ArrayMatches(rule.callers, caller, system) && ArrayMatches(rule.targets, call.target, system)
        && rule.conditions.Some?
        && if Faults(call.registries, mode, rule.conditions.value, "") != {} then
             exists f :: f in Faults(call.registries, mode, rule.conditions.value, "") && f.path == path
           else
             && call.ctx.Some? && rule.conditions.value.Object?
             && path in Reports(call.registries, mode, rule.conditions.value, "")
  {
  }

  // A call no rule has in its scope gets the default effect.
  lemma OutOfScopeGetsDefault(rules: seq<ACLRule>, call: Call, mode: Mode, defaultEffect: string, d: AccessDecision)
    requires forall i :: 0 <= i < |rules| ==>
      && PatternShapeFault(rules[i].callers).None? && PatternShapeFault(rules[i].targets).None?
      && (var system := call.ctx.Some? && call.ctx.value.identityType == Some("system");
          var caller := if call.caller.Some? then call.caller.value else "@external";
          !ArrayMatches(rules[i].callers, caller, system) || !ArrayMatches(rules[i].targets, call.target, system))
    requires IsDecision(d, rules, Outcomes(rules, call, mode), defaultEffect)
    ensures d.access == defaultEffect && d.matchedRuleIndex.None? && !d.approvalRequired
  {
    var outs := Outcomes(rules, call, mode);
    forall i | 0 <= i < |rules| ensures outs[i] == NoMatch {
      RuleIsTheTable(rules[i], call, mode);
    }
    WhoDecides(d, rules, outs, defaultEffect);
  }

  // ---------------------------------------------------------------------
  // Single rules
  // ---------------------------------------------------------------------

  lemma OneRuleDecides(rule: ACLRule, call: Call, mode: Mode, d: AccessDecision)
    requires rule.effect == "allow" && IsDecision(d, [rule], Outcomes([rule], call, mode), "deny")
    ensures d.IsAllowed() <==> RuleOutcome(rule, call, mode) == Matched
  {
    WhoDecides(d, [rule], Outcomes([rule], call, mode), "deny");
    assert Outcomes([rule], call, mode)[0] == RuleOutcome([rule][0], call, mode);
  }

  lemma StarIsEverything(value: string, system: bool)
    ensures ArrayMatches(["*"], value, system) && PatternShapeFault(["*"]).None?
  {
    OnePatternMeans("*", value, system);
    StarsMatchEverything("*", value);
    ShapeFaultsAreTheTable(["*"]);
  }

  const ExternalOnly := ACLRule(["@external"], ["*"], "allow", None, None)
  const SystemOnly := ACLRule(["@system"], ["*"], "allow", None, None)

  // Under a rule for external callers alone exactly they are allowed: callers
  // that are absent or that bear the sentinel's name.
  lemma ExternalOnlyDecides(call: Call, mode: Mode, d: AccessDecision)
    requires IsDecision(d, [ExternalOnly], Outcomes([ExternalOnly], call, mode), "deny")
    ensures d.IsAllowed() <==> call.caller.None? || call.caller.value == "@external"
  {
    var system := call.ctx.Some? && call.ctx.value.identityType == Some("system");
    StarIsEverything(call.target, system);
    ShapeFaultsAreTheTable(ExternalOnly.callers);
    OnePatternMeans("@external", if call.caller.Some? then call.caller.value else "@external", system);
    RuleIsTheTable(ExternalOnly, call, mode);
    OneRuleDecides(ExternalOnly, call, mode, d);
  }

  // Under a rule for system callers alone exactly they are allowed: calls with
  // a context whose identity is of that type, whatever the caller's name.
  lemma SystemOnlyDecides(call: Call, mode: Mode, d: AccessDecision)
    requires IsDecision(d, [SystemOnly], Outcomes([SystemOnly], call, mode), "deny")
    ensures d.IsAllowed() <==> call.ctx.Some? && call.ctx.value.identityType == Some("system")
  {
    var system := call.ctx.Some? && call.ctx.value.identityType == Some("system");
    StarIsEverything(call.target, system);
    ShapeFaultsAreTheTable(SystemOnly.callers);
    OnePatternMeans("@system", if call.caller.Some? then call.caller.value else "@external", system);
    RuleIsTheTable(SystemOnly, call, mode);
    OneRuleDecides(SystemOnly, call, mode, d);
  }

  // Under a rule for everybody on one leaf condition, exactly the calls with a
  // context are allowed whose handler answers that it is satisfied.
  lemma LeafConditionDecides(leaf: string, value: Value, call: Call, mode: Mode, inner: Mode, d: AccessDecision)
    requires leaf !in {"$or", "$not", "arguments"} && FoundAs(call.registries, mode, leaf, Leaf, inner)
    requires var rule := ACLRule(["*"], ["*"], "allow", None, Some(OneKey(leaf, value)));
      IsDecision(d, [rule], Outcomes([rule], call, mode), "deny")
    ensures d.IsAllowed() <==>
            && call.ctx.Some?
            && var answer := if mode == Async then Done(call.registries.awaited(leaf, value))
                             else call.registries.polled(leaf, value);
               answer.Done? && answer.answer.Ready? && answer.answer.outcome == Satisfied
  {
    var rule := ACLRule(["*"], ["*"], "allow", None, Some(OneKey(leaf, value)));
    var caller := if call.caller.Some? then call.caller.value else "@external";
    var system := call.ctx.Some? && call.ctx.value.identityType == Some("system");
    StarIsEverything(caller, system);
    StarIsEverything(call.target, system);
    assert Faults(call.registries, mode, OneKey(leaf, value), "") == {};
    if mode == Async {
      LeafAnswersAsync(call.registries, leaf, value);
    } else {
      LeafAnswersSync(call.registries, leaf, value);
    }
    RuleIsTheTable(rule, call, mode);
    OneRuleDecides(rule, call, mode, d);
  }
}
