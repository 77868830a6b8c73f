// The access control list: the doors that accept rules, the two rule loops,
// and the per-rule warning markers (src/acl.rs).
module Acl {
  import opened Wrappers
  import opened Json
  import opened Conditions
  import opened ConditionWalks
  import opened AclRules
  import opened AclDecision

  datatype AclError =
    | InvalidDefaultEffect
    | InvalidRule(index: nat, defect: RuleDefect)
    | NotLoadedFromFile
    | FileUnreadable

  // The refusal a rule list earns: the first fault of its lowest-indexed bad rule.
  ghost predicate IsRefusal(error: AclError, rules: seq<ACLRule>, defaultEffect: string) {
    if defaultEffect !in EFFECTS then error == InvalidDefaultEffect
    else
      && error.InvalidRule?
      && error.index < |rules|
      && ValidateRule(rules[error.index]) == Some(error.defect)
      && forall i :: 0 <= i < error.index ==> ValidateRule(rules[i]).None?
  }

  predicate Acceptable(rules: seq<ACLRule>, defaultEffect: string) {
    defaultEffect in EFFECTS && forall i {:trigger ValidateRule(rules[i])} :: 0 <= i < |rules| ==>
      ValidateRule(rules[i]).None?
  }

  method ValidateAll(rules: seq<ACLRule>, defaultEffect: string) returns (error: Option<AclError>)
    ensures error.None? <==> Acceptable(rules, defaultEffect)
    ensures error.None? <==>
            && (defaultEffect == "allow" || defaultEffect == "deny")
            && forall i :: 0 <= i < |rules| ==> ValidateRule(rules[i]).None?
    ensures error.Some? ==> IsRefusal(error.value, rules, defaultEffect)
    ensures error == Some(InvalidDefaultEffect) <==> defaultEffect != "allow" && defaultEffect != "deny"
    ensures forall i: nat, defect :: error == Some(InvalidRule(i, defect)) ==>
      && i < |rules| && ValidateRule(rules[i]) == Some(defect)
      && forall j :: 0 <= j < i ==> ValidateRule(rules[j]).None?
  {
    if defaultEffect !in EFFECTS {
      return Some(InvalidDefaultEffect);
    }
    for i := 0 to |rules|
      invariant forall j :: 0 <= j < i ==> ValidateRule(rules[j]).None?
    {
      var defect := ValidateRule(rules[i]);
      if defect.Some? {
        return Some(InvalidRule(i, defect.value));
      }
    }
    error := None;
  }

  // How a rule list loaded from a file arrives: parsed, or not at all.
  datatype Document = Parsed(rules: seq<ACLRule>, defaultEffect: string) | Unreadable

  // One finding of `validate_rules`: the rule and the fault in it.
  datatype Finding = Finding(ruleIndex: nat, fault: RuleFault)

  // What is wrong with one pattern field: its shape, or else that a legal
  // shape matches nothing.
  predicate PatternFinding(isTargets: bool, patterns: seq<string>) {
    PatternShapeFault(patterns).Some? || PatternNeverMatches(isTargets, patterns)
  }

  ghost function RuleFindings(rule: ACLRule, r: Registries): set<RuleFault> {
    (if PatternFinding(false, rule.callers) then {StructuralFault("callers", None)} else {})
    + (if PatternFinding(true, rule.targets) then {StructuralFault("targets", None)} else {})
    + (if rule.conditions.Some? then Faults(r, Sync, rule.conditions.value, "") else {})
  }

  ghost function FindingsUpTo(rules: seq<ACLRule>, r: Registries, n: nat): set<Finding>
    requires n <= |rules|
  {
    set i, f | 0 <= i < n && f in RuleFindings(rules[i], r) :: Finding(i, f)
  }

  // Exactly what is found of a rule: each pattern array that is of no legal
  // shape or matches nothing, and each fault of its conditions.
  lemma FindingsAre(rules: seq<ACLRule>, r: Registries, found: Finding)
    ensures found in FindingsUpTo(rules, r, |rules|) <==>
            && found.ruleIndex < |rules|
            && var rule := rules[found.ruleIndex];
               || (found.fault == RuleFault("callers", None, false, false)
                   && (PatternShapeFault(rule.callers).Some? || PatternNeverMatches(false, rule.callers)))
               || (found.fault == RuleFault("targets", None, false, false)
                   && (PatternShapeFault(rule.targets).Some? || PatternNeverMatches(true, rule.targets)))
               || (rule.conditions.Some? && found.fault in Faults(r, Sync, rule.conditions.value, ""))
  {
    if found.ruleIndex < |rules| && found.fault in RuleFindings(rules[found.ruleIndex], r) {
      assert found == Finding(found.ruleIndex, found.fault);
    }
  }

  // validate_rules (src/acl.rs:1753-1790): diagnostics over the whole list.
  method ValidateRules(rules: seq<ACLRule>, r: Registries) returns (findings: seq<Finding>)
    ensures (set f | f in findings) == FindingsUpTo(rules, r, |rules|)
  {
    findings := [];
    for i := 0 to |rules|
      invariant (set f | f in findings) == FindingsUpTo(rules, r, i)
    {
      var list := new FaultList();
      if PatternFinding(false, rules[i].callers) {
        list.Push(StructuralFault("callers", None));
      }
      if PatternFinding(true, rules[i].targets) {
        list.Push(StructuralFault("targets", None));
      }
      if rules[i].conditions.Some? {
        CollectConditionFaults(r, Sync, rules[i].conditions.value, "", list);
      }
      assert list.Found() == RuleFindings(rules[i], r);
      var faults := list.faults;
      var added := seq(|faults|, j requires 0 <= j < |faults| => Finding(i, faults[j]));
      assert (set f | f in added) == set f | f in faults :: Finding(i, f) by {
        assert forall j :: 0 <= j < |faults| ==> added[j] == Finding(i, faults[j]);
      }
      OneMoreRuleFound(rules, r, i, faults);
      findings := findings + added;
    }
  }

  lemma OneMoreRuleFound(rules: seq<ACLRule>, r: Registries, i: nat, faults: seq<RuleFault>)
    requires i < |rules| && (set f | f in faults) == RuleFindings(rules[i], r)
    ensures FindingsUpTo(rules, r, i + 1) == FindingsUpTo(rules, r, i) + set f | f in faults :: Finding(i, f)
  {
    forall f ensures f in faults <==> f in RuleFindings(rules[i], r) {
      assert f in faults <==> f in set g | g in faults;
    }
  }

  class ACL {
    var rules: seq<ACLRule>
    var defaultEffect: string
    var loadedFromFile: bool
    // One marker per (rule index, effect) already warned about.
    var warnedMissingContext: set<(nat, string)>
    // Every insertion of a rule is an instance of its own; `warned` are the
    // instances whose warning has been emitted.
    ghost var instances: seq<nat>
    ghost var nextInstance: nat
    ghost var warned: set<nat>

    // The markers are true to their rule: each was recorded for the instance
    // that sits at its index now.
    ghost predicate MarkersTrue()
      reads this
      requires |instances| == |rules|
    {
      forall m :: m in warnedMissingContext ==>
        m.0 < |rules| && m.1 == rules[m.0].effect && instances[m.0] in warned
    }

    ghost predicate Valid()
      reads this
    {
      && Acceptable(rules, defaultEffect)
      && |instances| == |rules|
      && (forall i :: 0 <= i < |instances| ==> instances[i] < nextInstance)
      && (forall i, j :: 0 <= i < j < |instances| ==> instances[i] != instances[j])
      && (forall n :: n in warned ==> n < nextInstance)
      && MarkersTrue()
    }

    // new_unchecked, behind try_new's validation.
    constructor (rules: seq<ACLRule>, defaultEffect: string, loadedFromFile: bool)
      requires Acceptable(rules, defaultEffect)
      ensures Valid() && this.rules == rules && this.defaultEffect == defaultEffect
      ensures this.loadedFromFile == loadedFromFile && warnedMissingContext == {} && warned == {}
    {
      this.rules, this.defaultEffect, this.loadedFromFile := rules, defaultEffect, loadedFromFile;
      warnedMissingContext := {};
      instances, nextInstance, warned := seq(|rules|, i => i), |rules|, {};
    }

    // try_new (src/acl.rs:1200-1216).
    static method TryNew(rules: seq<ACLRule>, defaultEffect: string) returns (r: Result<ACL, AclError>)
      ensures r.Ok? <==> Acceptable(rules, defaultEffect)
      ensures r.Ok? ==>
        fresh(r.value) && r.value.Valid() && r.value.rules == rules && r.value.defaultEffect == defaultEffect
      ensures r.Err? ==> IsRefusal(r.error, rules, defaultEffect)
    {
      var error := ValidateAll(rules, defaultEffect);
      if error.Some? {
        return Err(error.value);
      }
      var acl := new ACL(rules, defaultEffect, false);
      r := Ok(acl);
    }

    // try_add_rule (src/acl.rs:1683-1695): at the head, so every index moves.
    method TryAddRule(rule: ACLRule) returns (error: Option<AclError>)
      requires Valid()
      modifies this
      ensures Valid() && defaultEffect == old(defaultEffect) && warned == old(warned)
      ensures error.None? <==> AcceptableRule(rule)
      ensures error.None? ==>
        rules == [rule] + old(rules) && instances[1..] == old(instances) && warnedMissingContext == {}
      ensures error.None? ==> instances[0] !in warned
      ensures error.Some? ==> error.value == InvalidRule(0, ValidateRule(rule).value)
      ensures error.Some? ==>
        rules == old(rules) && instances == old(instances) && warnedMissingContext == old(warnedMissingContext)
    {
      ValidateRuleIsTheDoor(rule);
      var defect := ValidateRule(rule);
      if defect.Some? {
        return Some(InvalidRule(0, defect.value));
      }
      rules := [rule] + rules;
      instances, nextInstance := [nextInstance] + instances, nextInstance + 1;
      warnedMissingContext := {};
      error := None;
    }

    predicate Selects(rule: ACLRule, callers: seq<string>, targets: seq<string>, conditions: Option<Value>) {
      && rule.callers == callers
      && rule.targets == targets
      && (conditions.Some? ==> rule.conditions == conditions)
    }

    // remove_rule_with_conditions (src/acl.rs:1805-1827).
    method RemoveRule(callers: seq<string>, targets: seq<string>, conditions: Option<Value>) returns (removed: bool)
      requires Valid()
      modifies this
      ensures Valid() && defaultEffect == old(defaultEffect) && warned == old(warned)
      ensures removed <==> exists i :: 0 <= i < |old(rules)| && Selects(old(rules)[i], callers, targets, conditions)
      ensures removed ==> exists i ::
                && 0 <= i < |old(rules)|
                && Selects(old(rules)[i], callers, targets, conditions)
                && (forall j :: 0 <= j < i ==> !Selects(old(rules)[j], callers, targets, conditions))
                && rules == old(rules)[..i] + old(rules)[i + 1..]
                && instances == old(instances)[..i] + old(instances)[i + 1..]
      ensures removed ==> warnedMissingContext == {}
      ensures removed ==> exists i ::
                && 0 <= i < |old(rules)| && rules == old(rules)[..i] + old(rules)[i + 1..]
                && old(rules)[i].callers == callers && old(rules)[i].targets == targets
                && (conditions.Some? ==> old(rules)[i].conditions == conditions)
                && forall j :: 0 <= j < i && old(rules)[j].callers == callers && old(rules)[j].targets == targets ==>
                     conditions.Some? && old(rules)[j].conditions != conditions
      ensures !removed ==>
        forall j :: 0 <= j < |old(rules)| && old(rules)[j].callers == callers && old(rules)[j].targets == targets ==>
          conditions.Some? && old(rules)[j].conditions != conditions
      ensures !removed ==>
        rules == old(rules) && instances == old(instances) && warnedMissingContext == old(warnedMissingContext)
    {
      for i := 0 to |rules|
        invariant forall j :: 0 <= j < i ==> !Selects(rules[j], callers, targets, conditions)
        invariant Valid() && rules == old(rules) && instances == old(instances)
        invariant warnedMissingContext == old(warnedMissingContext)
        invariant defaultEffect == old(defaultEffect) && warned == old(warned)
      {
        if Selects(rules[i], callers, targets, conditions) {
          rules := rules[..i] + rules[i + 1..];
          instances := instances[..i] + instances[i + 1..];
          warnedMissingContext := {};
          return true;
        }
      }
      removed := false;
    }

    // reload (src/acl.rs:2266-2303) over the document the stored path holds now.
    method Reload(document: Document) returns (error: Option<AclError>)
      requires Valid()
      modifies this
      ensures Valid() && warned == old(warned) && loadedFromFile == old(loadedFromFile)
      ensures error.None? <==>
              old(loadedFromFile) && document.Parsed? && Acceptable(document.rules, document.defaultEffect)
      ensures error.None? ==>
        rules == document.rules && defaultEffect == document.defaultEffect && warnedMissingContext == {}
      ensures error.None? ==> forall i :: 0 <= i < |instances| ==>
        instances[i] !in old(instances) && instances[i] !in warned
      ensures error.Some? ==> rules == old(rules) && defaultEffect == old(defaultEffect)
      ensures error.Some? ==> instances == old(instances) && warnedMissingContext == old(warnedMissingContext)
      ensures error.Some? && old(loadedFromFile) && document.Parsed? ==>
        IsRefusal(error.value, document.rules, document.defaultEffect)
    {
      if !loadedFromFile {
        return Some(NotLoadedFromFile);
      }
      if document.Unreadable? {
        return Some(FileUnreadable);
      }
      error := ValidateAll(document.rules, document.defaultEffect);
      if error.Some? {
        return;
      }
      rules, defaultEffect := document.rules, document.defaultEffect;
      ghost var n := nextInstance;
      instances, nextInstance := seq(|rules|, i => n + i), n + |rules|;
      warnedMissingContext := {};
    }

    // -----------------------------------------------------------------
    // Matching one rule
    // -----------------------------------------------------------------

    // warn_conditional_rule_without_context (src/acl.rs:2462-2477).
    method WarnConditionalRuleWithoutContext(index: nat)
      requires Valid() && index < |rules|
      modifies this`warnedMissingContext, this`warned
      ensures Valid()
      ensures warnedMissingContext == old(warnedMissingContext) + {(index, rules[index].effect)}
      ensures warned == old(warned) + {instances[index]}
    {
      if (index, rules[index].effect) in warnedMissingContext {
        return;
      }
      warnedMissingContext := warnedMissingContext + {(index, rules[index].effect)};
      // Here the warning is emitted.
      warned := warned + {instances[index]};
    }

    // matches_rule with check_conditions (src/acl.rs:2420-2453, 2629-2658).
    method MatchesRule(scope: CaptureScope, index: nat, call: Call, ghost t: Trace) returns (outcome: RuleMatch)
      requires Valid() && index < |rules| && scope.prefix == "" && Describes(t, rules, call, Sync)
      modifies scope, this`warnedMissingContext, this`warned
      ensures Valid() && scope.prefix == ""
      ensures outcome == t.outs[index]
      ensures scope.errors == old(scope.errors) + t.reports[index]
      ensures warned == old(warned) + if t.skips[index] then {instances[index]} else {}
    {
      var rule := rules[index];
      ghost var meaning := RuleOutcome(rule, call, Sync);
      ghost var reports, skipped := RuleReports(rule, call, Sync), SkippedForContext(rule, call, Sync);
      var inScope := ScopeOf(scope, rule, call);
      if inScope.Some? {
        return inScope.value;
      }
      if rule.conditions.None? {
        return Matched;
      }
      var conditions := rule.conditions.value;
      var failed := PrecheckFailed(scope, call.registries, Sync, conditions);
      if failed {
        return Unanswerable;
      }
      if call.ctx.None? {
        WarnConditionalRuleWithoutContext(index);
        return NoMatch;
      }
      if !conditions.Object? {
        return Unanswerable;
      }
      var answer := EvaluateConditions(scope, call.registries, conditions);
      outcome := RuleMatchOf(answer);
    }

    // matches_rule_async with check_conditions_async (src/acl.rs:2663-2690, 2967-3003).
    method MatchesRuleAsync(scope: CaptureScope, index: nat, call: Call, ghost t: Trace) returns (outcome: RuleMatch)
      requires Valid() && index < |rules| && scope.prefix == "" && Describes(t, rules, call, Async)
      modifies scope, this`warnedMissingContext, this`warned
      ensures Valid() && scope.prefix == ""
      ensures outcome == t.outs[index]
      ensures scope.errors == old(scope.errors) + t.reports[index]
      ensures warned == old(warned) + if t.skips[index] then {instances[index]} else {}
    {
      var rule := rules[index];
      ghost var meaning := RuleOutcome(rule, call, Async);
      ghost var reports, skipped := RuleReports(rule, call, Async), SkippedForContext(rule, call, Async);
      var inScope := ScopeOf(scope, rule, call);
      if inScope.Some? {
        return inScope.value;
      }
      if rule.conditions.None? {
        return Matched;
      }
      var conditions := rule.conditions.value;
      var failed := PrecheckFailed(scope, call.registries, Async, conditions);
      if failed {
        return Unanswerable;
      }
      if call.ctx.None? {
        WarnConditionalRuleWithoutContext(index);
        return NoMatch;
      }
      if !conditions.Object? {
        return Unanswerable;
      }
      var answer := EvaluateConditionsAsync(scope, call.registries, conditions);
      outcome := RuleMatchOf(answer);
    }

    // -----------------------------------------------------------------
    // The two rule loops
    // -----------------------------------------------------------------

    ghost function Visited(n: nat): nat
      reads this
    {
      if n < |rules| then n + 1 else |rules|
    }

    // A scan that ended at rule `n`: its decision, and everything the rules it
    // visited reported and warned about.
    twostate predicate Scanned(d: AccessDecision, scope: CaptureScope, call: Call, mode: Mode, n: nat)
      reads this, scope
      requires |instances| == |rules|
    {
      var t := TraceOf(rules, call, mode);
      && IsDecider(rules, t.outs, n)
      && d == DecisionAt(rules, t.outs, defaultEffect, n)
      && scope.errors == old(scope.errors) + Gathered(t.reports, Visited(n))
      && warned == old(warned) + Picked(instances, t.skips, Visited(n))
    }

    // The loop of check_inner (src/acl.rs:1932-1973). `n` is where the scan ended.
    method ScanRules(scope: CaptureScope, call: Call, ghost t: Trace) returns (d: AccessDecision, ghost n: nat)
      requires Valid() && scope.prefix == "" && Describes(t, rules, call, Sync)
      modifies scope, this`warnedMissingContext, this`warned
      ensures Valid() && scope.prefix == ""
      ensures IsDecider(rules, t.outs, n) && d == DecisionAt(rules, t.outs, defaultEffect, n)
      ensures scope.errors == old(scope.errors) + Gathered(t.reports, Visited(n))
      ensures warned == old(warned) + Picked(instances, t.skips, Visited(n))
    {
      if rules == [] {
        return AccessDecision(defaultEffect, false, None, ByNoRules), 0;
      }
      var pendingApproval := false;
      for index := 0 to |rules|
        invariant Valid() && scope.prefix == ""
        invariant forall j :: 0 <= j < index ==> !Decides(rules[j], t.outs[j])
        invariant pendingApproval <==> PendingBefore(rules, t.outs, index)
        invariant scope.errors == old(scope.errors) + Gathered(t.reports, index)
        invariant warned == old(warned) + Picked(instances, t.skips, index)
      {
        var outcome := MatchesRule(scope, index, call, t);
        var rule := rules[index];
        match outcome
        case Matched =>
          return FinalizeRuleMatch(rule, index, pendingApproval), index;
        case Unanswerable =>
          if rule.effect == "deny" {
            return FinalizeRuleMatch(rule, index, pendingApproval), index;
          }
          pendingApproval := pendingApproval || ApprovalRequired(rule);
        case NoMatch =>
      }
      return FinalizeDefaultEffect(defaultEffect, pendingApproval), |rules|;
    }

    // check_inner (src/acl.rs:1906-1974).
    method CheckInner(scope: CaptureScope, call: Call) returns (d: AccessDecision)
      requires Valid() && scope.prefix == ""
      modifies scope, this`warnedMissingContext, this`warned
      ensures Valid() && scope.prefix == ""
      ensures IsDecision(d, rules, Outcomes(rules, call, Sync), defaultEffect)
      ensures exists n: nat :: Scanned(d, scope, call, Sync, n)
    {
      ghost var n;
      d, n := ScanRules(scope, call, TraceOf(rules, call, Sync));
      assert Scanned(d, scope, call, Sync, n);
    }

    // The loop of async_check_inner (src/acl.rs:2919-2960). `n` is where the scan ended.
    method ScanRulesAsync(scope: CaptureScope, call: Call, ghost t: Trace) returns (d: AccessDecision, ghost n: nat)
      requires Valid() && scope.prefix == "" && Describes(t, rules, call, Async)
      modifies scope, this`warnedMissingContext, this`warned
      ensures Valid() && scope.prefix == ""
      ensures IsDecider(rules, t.outs, n) && d == DecisionAt(rules, t.outs, defaultEffect, n)
      ensures scope.errors == old(scope.errors) + Gathered(t.reports, Visited(n))
      ensures warned == old(warned) + Picked(instances, t.skips, Visited(n))
    {
      if rules == [] {
        return AccessDecision(defaultEffect, false, None, ByNoRules), 0;
      }
      var pendingApproval := false;
      for index := 0 to |rules|
        invariant Valid() && scope.prefix == ""
        invariant forall j :: 0 <= j < index ==> !Decides(rules[j], t.outs[j])
        invariant pendingApproval <==> PendingBefore(rules, t.outs, index)
        invariant scope.errors == old(scope.errors) + Gathered(t.reports, index)
        invariant warned == old(warned) + Picked(instances, t.skips, index)
      {
        var outcome := MatchesRuleAsync(scope, index, call, t);
        var rule := rules[index];
        match outcome
        case Matched =>
          return FinalizeRuleMatch(rule, index, pendingApproval), index;
        case Unanswerable =>
          if rule.effect == "deny" {
            return FinalizeRuleMatch(rule, index, pendingApproval), index;
          }
          pendingApproval := pendingApproval || ApprovalRequired(rule);
        case NoMatch =>
      }
      return FinalizeDefaultEffect(defaultEffect, pendingApproval), |rules|;
    }

    // async_check_inner (src/acl.rs:2895-2961).
    method AsyncCheckInner(scope: CaptureScope, call: Call) returns (d: AccessDecision)
      requires Valid() && scope.prefix == ""
      modifies scope, this`warnedMissingContext, this`warned
      ensures Valid() && scope.prefix == ""
      ensures IsDecision(d, rules, Outcomes(rules, call, Async), defaultEffect)
      ensures exists n: nat :: Scanned(d, scope, call, Async, n)
    {
      ghost var n;
      d, n := ScanRulesAsync(scope, call, TraceOf(rules, call, Async));
      assert Scanned(d, scope, call, Async, n);
    }

    // check_access and async_check_access open a fresh capture scope.
    method CheckAccess(call: Call) returns (d: AccessDecision)
      requires Valid()
      modifies this`warnedMissingContext, this`warned
      ensures Valid()
      ensures IsDecision(d, rules, Outcomes(rules, call, Sync), defaultEffect)
    {
      var scope := new CaptureScope();
      d := CheckInner(scope, call);
    }

    method AsyncCheckAccess(call: Call) returns (d: AccessDecision)
      requires Valid()
      modifies this`warnedMissingContext, this`warned
      ensures Valid()
      ensures IsDecision(d, rules, Outcomes(rules, call, Async), defaultEffect)
    {
      var scope := new CaptureScope();
      d := AsyncCheckInner(scope, call);
    }
  }

  // The approval formulas of the finalize helpers (src/acl.rs:2733-2807).
  function FinalizeRuleMatch(rule: ACLRule, index: nat, pendingApproval: bool): AccessDecision {
    AccessDecision(rule.effect, rule.effect == "allow" && (ApprovalRequired(rule) || pendingApproval), Some(index),
                   ByRule)
  }

  function FinalizeDefaultEffect(defaultEffect: string, pendingApproval: bool): AccessDecision {
    AccessDecision(defaultEffect, defaultEffect == "allow" && pendingApproval, None, ByDefaultEffect)
  }

  // The part of `matches_rule` both paths share: the pattern precheck, then
  // the two pattern arrays. `None` means the conditions are next.
  method ScopeOf(scope: CaptureScope, rule: ACLRule, call: Call) returns (settled: Option<RuleMatch>)
    modifies scope`errors
    ensures settled.None? <==> !PatternFault(rule) && InScope(rule, call)
    ensures settled.Some? ==> settled.value == if PatternFault(rule) then Unanswerable else NoMatch
    ensures scope.errors == old(scope.errors) +
                            (if PatternShapeFault(rule.callers).Some? then {"callers"} else {}) +
                            (if PatternShapeFault(rule.targets).Some? then {"targets"} else {})
  {
    var callersFault := PatternShapeFault(rule.callers).Some?;
    var targetsFault := PatternShapeFault(rule.targets).Some?;
    if callersFault {
      scope.ReportAt("callers");
    }
    if targetsFault {
      scope.ReportAt("targets");
    }
    if callersFault || targetsFault {
      return Some(Unanswerable);
    }
    var callers := MatchPatterns(rule.callers, call.CallerId(), call.IsSystem());
    if !callers {
      return Some(NoMatch);
    }
    var targets := MatchPatterns(rule.targets, call.target, call.IsSystem());
    settled := if targets then None else Some(NoMatch);
  }

  // precheck_failed (src/acl.rs:2498-2507).
  method PrecheckFailed(scope: CaptureScope, r: Registries, mode: Mode, conditions: Value) returns (failed: bool)
    modifies scope`errors
    ensures failed <==> Faults(r, mode, conditions, "") != {}
    ensures scope.errors == old(scope.errors) + Paths(Faults(r, mode, conditions, ""))
  {
    var list := new FaultList();
    CollectConditionFaults(r, mode, conditions, "", list);
    var faults := list.faults;
    ghost var found := list.Found();
    failed := |faults| > 0;
    assert failed ==> faults[0] in found;
    for i := 0 to |faults|
      invariant scope.errors == old(scope.errors) + set j | 0 <= j < i :: faults[j].path
    {
      scope.ReportAt(faults[i].path);
    }
    assert forall j :: 0 <= j < |faults| ==> faults[j] in found;
    assert (set j | 0 <= j < |faults| :: faults[j].path) == Paths(found);
  }
}
