// Laws of the access decision, over every rule list and every call.
module AclLaws {
  import opened Wrappers
  import opened Json
  import opened Kleene
  import opened Conditions
  import opened ConditionLaws
  import opened AclRules
  import opened AclDecision
  import opened Acl
  import opened Projection

  // ---------------------------------------------------------------------
  // The decision
  // ---------------------------------------------------------------------

  // Approval is required exactly when access is granted and the deciding rule,
  // or an allow rule before it that nobody could answer, asks for it. So a
  // denial never carries one, and neither does an empty rule list.
  lemma ApprovalExactly(d: AccessDecision, rules: seq<ACLRule>, outs: seq<RuleMatch>, defaultEffect: string)
    requires |outs| == |rules| && IsDecision(d, rules, outs, defaultEffect)
    ensures d.approvalRequired <==>
            && d.IsAllowed()
            && (exists j :: 0 <= j < |rules| && ApprovalRequired(rules[j]) &&
                  (d.matchedRuleIndex == Some(j)
                   || (outs[j] == Unanswerable && (d.matchedRuleIndex.Some? ==> j < d.matchedRuleIndex.value))))
  {
    var n: nat :| IsDecider(rules, outs, n) && d == DecisionAt(rules, outs, defaultEffect, n);
    if j :| 0 <= j < n && outs[j] == Unanswerable && ApprovalRequired(rules[j]) {
      assert PendingBefore(rules, outs, n);
    }
  }

  // Each outcome is what it was, or an answer where there was none.
  ghost predicate Resolves(before: seq<RuleMatch>, after: seq<RuleMatch>) {
    |before| == |after| && forall i :: 0 <= i < |before| ==> before[i] == Unanswerable || after[i] == before[i]
  }

  predicate Enforceable(rules: seq<ACLRule>) {
    forall i {:trigger rules[i].effect} :: 0 <= i < |rules| ==> rules[i].effect in EFFECTS
  }

  // Information monotonicity: whatever answers the unanswered rules are given,
  // an allow stays an allow, and no approval appears that was not there.
  lemma AllowSurvivesResolution(
      rules: seq<ACLRule>, before: seq<RuleMatch>, after: seq<RuleMatch>, defaultEffect: string,
      d: AccessDecision, e: AccessDecision)
    requires |before| == |rules| && Resolves(before, after) && Enforceable(rules)
    requires IsDecision(d, rules, before, defaultEffect) && IsDecision(e, rules, after, defaultEffect)
    ensures d.IsAllowed() ==> e.IsAllowed() && (e.approvalRequired ==> d.approvalRequired)
    ensures d.Check() ==> e.Check()
  {
    if d.IsAllowed() {
      var n: nat :| IsDecider(rules, before, n) && d == DecisionAt(rules, before, defaultEffect, n);
      var m: nat :| IsDecider(rules, after, m) && e == DecisionAt(rules, after, defaultEffect, m);
      EarlierOrSameDecider(rules, before, after, n, m);
      if e.approvalRequired {
        if m < n && ApprovalRequired(rules[m]) {
          assert PendingBefore(rules, before, n);
        } else if PendingBefore(rules, after, m) {
          var j :| 0 <= j < m && after[j] == Unanswerable && ApprovalRequired(rules[j]);
          assert before[j] == Unanswerable;
          assert PendingBefore(rules, before, n);
        }
      }
    }
  }

  // What decides after resolution comes no later, and if it comes earlier it
  // is an allow rule nobody could answer before.
  lemma EarlierOrSameDecider(rules: seq<ACLRule>, before: seq<RuleMatch>, after: seq<RuleMatch>, n: nat, m: nat)
    requires |before| == |rules| && Resolves(before, after) && Enforceable(rules)
    requires IsDecider(rules, before, n) && IsDecider(rules, after, m)
    requires n < |rules| ==> rules[n].effect == "allow"
    ensures m <= n
    ensures m < n ==> before[m] == Unanswerable && rules[m].effect == "allow"
  {
    assert n < |rules| ==> Decides(rules[n], after[n]);
    if m < n {
      assert !Decides(rules[m], before[m]) && Decides(rules[m], after[m]);
      assert rules[m].effect in EFFECTS;
    }
  }

  // ---------------------------------------------------------------------
  // The whole check
  // ---------------------------------------------------------------------

  // The same question asked again, by someone who can answer more of it.
  ghost predicate SameQuestion(a: Call, ma: Mode, b: Call, mb: Mode) {
    && a.caller == b.caller && a.target == b.target && a.ctx == b.ctx
    && BuiltinsInPlace(a.registries) && BuiltinsInPlace(b.registries)
    && Extends(a.registries, ma, b.registries, mb)
  }

  lemma ConditionResultMonotone(conditions: Value, a: Call, ma: Mode, b: Call, mb: Mode)
    requires SameQuestion(a, ma, b, mb)
    ensures Refines(ConditionResult(conditions, a, ma), ConditionResult(conditions, b, mb))
  {
    if Faults(a.registries, ma, conditions, "") == {} {
      CleanPrecheckMonotone(a.registries, ma, b.registries, mb, conditions, "");
      if conditions.Object? {
        EvalMonotone(a.registries, ma, b.registries, mb, conditions);
      }
    }
  }

  lemma OutcomesResolve(rules: seq<ACLRule>, a: Call, ma: Mode, b: Call, mb: Mode)
    requires SameQuestion(a, ma, b, mb)
    ensures Resolves(Outcomes(rules, a, ma), Outcomes(rules, b, mb))
  {
    forall i | 0 <= i < |rules|
      ensures
        || RuleOutcome(rules[i], a, ma) == Unanswerable
        || RuleOutcome(rules[i], b, mb) == RuleOutcome(rules[i], a, ma)
    {
      if rules[i].conditions.Some? {
        ConditionResultMonotone(rules[i].conditions.value, a, ma, b, mb);
      }
    }
  }

  lemma AcceptableIsEnforceable(rules: seq<ACLRule>, defaultEffect: string)
    requires Acceptable(rules, defaultEffect)
    ensures Enforceable(rules)
  {
    forall i | 0 <= i < |rules| ensures rules[i].effect in EFFECTS {
      assert ValidateRule(rules[i]).None?;
    }
  }

  // Registering a missing handler, a panicking or pending handler that comes
  // to answer, or a projection that was absent: none of them takes a granted
  // access back or puts an approval on it.
  lemma CheckSurvivesMoreAnswers(
      rules: seq<ACLRule>, defaultEffect: string, a: Call, ma: Mode, b: Call, mb: Mode,
      d: AccessDecision, e: AccessDecision)
    requires Acceptable(rules, defaultEffect) && SameQuestion(a, ma, b, mb)
    requires IsDecision(d, rules, Outcomes(rules, a, ma), defaultEffect)
    requires IsDecision(e, rules, Outcomes(rules, b, mb), defaultEffect)
    ensures d.IsAllowed() ==> e.IsAllowed() && (e.approvalRequired ==> d.approvalRequired)
    ensures d.Check() ==> e.Check()
  {
    AcceptableIsEnforceable(rules, defaultEffect);
    OutcomesResolve(rules, a, ma, b, mb);
    AllowSurvivesResolution(rules, Outcomes(rules, a, ma), Outcomes(rules, b, mb), defaultEffect, d, e);
  }

  // The synchronous path is never more permissive than the asynchronous one.
  lemma SyncNeverMorePermissive(
      rules: seq<ACLRule>, defaultEffect: string, call: Call, d: AccessDecision, e: AccessDecision)
    requires Acceptable(rules, defaultEffect)
    requires BuiltinsInPlace(call.registries) && PathsConsistent(call.registries)
    requires IsDecision(d, rules, Outcomes(rules, call, Sync), defaultEffect)
    requires IsDecision(e, rules, Outcomes(rules, call, Async), defaultEffect)
    ensures d.IsAllowed() ==> e.IsAllowed() && (e.approvalRequired ==> d.approvalRequired)
    ensures d.Check() ==> e.Check()
  {
    AsyncExtendsSync(call.registries);
    CheckSurvivesMoreAnswers(rules, defaultEffect, call, Sync, call, Async, d, e);
  }

  // ---------------------------------------------------------------------
  // Validation
  // ---------------------------------------------------------------------

  // Every rule passes both prechecks of the synchronous path.
  ghost predicate ValidatesClean(rules: seq<ACLRule>, r: Registries) {
    forall i {:trigger rules[i].conditions} :: 0 <= i < |rules| ==>
      !PatternFault(rules[i]) && (rules[i].conditions.Some? ==> Faults(r, Sync, rules[i].conditions.value, "") == {})
  }

  lemma NoFindingsIsClean(rules: seq<ACLRule>, r: Registries)
    requires FindingsUpTo(rules, r, |rules|) == {}
    ensures ValidatesClean(rules, r)
  {
    forall i | 0 <= i < |rules|
      ensures RuleFindings(rules[i], r) == {}
    {
      forall f ensures f !in RuleFindings(rules[i], r) {
        assert Finding(i, f) !in FindingsUpTo(rules, r, |rules|);
      }
    }
    forall i | 0 <= i < |rules|
      ensures !PatternFault(rules[i])
    {
      assert StructuralFault("callers", None) !in RuleFindings(rules[i], r);
      assert StructuralFault("targets", None) !in RuleFindings(rules[i], r);
    }
  }

  lemma SyncCleanIsAsyncClean(r: Registries, conditions: Value)
    requires BuiltinsInPlace(r) && PathsConsistent(r) && Faults(r, Sync, conditions, "") == {}
    ensures Faults(r, Async, conditions, "") == {}
  {
    AsyncExtendsSync(r);
    CleanPrecheckMonotone(r, Sync, r, Async, conditions, "");
  }

  // A rule list in which `validate_rules` finds nothing, with handlers that
  // answer and a call site to project, leaves no rule unanswerable on either
  // path: the decision is the first match's, and any approval is that rule's own.
  lemma ValidatedRulesAreAnswered(
      rules: seq<ACLRule>, defaultEffect: string, call: Call, mode: Mode, d: AccessDecision)
    requires Enforceable(rules) && FindingsUpTo(rules, call.registries, |rules|) == {}
    requires BuiltinsInPlace(call.registries) && PathsConsistent(call.registries)
    requires LeavesAnswer(call.registries, mode) && call.registries.projection.Some?
    requires IsDecision(d, rules, Outcomes(rules, call, mode), defaultEffect)
    ensures forall i :: 0 <= i < |rules| ==> Outcomes(rules, call, mode)[i] != Unanswerable
    ensures d.approvalRequired <==>
            && d.matchedRuleIndex.Some? && d.matchedRuleIndex.value < |rules|
            && ApprovalRequired(rules[d.matchedRuleIndex.value])
  {
    var outs := Outcomes(rules, call, mode);
    NoFindingsIsClean(rules, call.registries);
    forall i | 0 <= i < |rules|
      ensures outs[i] != Unanswerable
    {
      if rules[i].conditions.Some? {
        var conditions := rules[i].conditions.value;
        if mode.Async? {
          SyncCleanIsAsyncClean(call.registries, conditions);
        }
        CleanPrecheckIsAnswered(call.registries, mode, conditions, "");
      }
    }
    ApprovalExactly(d, rules, outs, defaultEffect);
    if d.matchedRuleIndex.Some? {
      var n: nat :| IsDecider(rules, outs, n) && d == DecisionAt(rules, outs, defaultEffect, n);
      assert d.access == rules[n].effect;
    }
  }

  // The call with its arguments projected.
  function CallWith(call: Call, inputs: Value): Call {
    call.(registries := call.registries.(projection := Some(FromArguments(inputs))))
  }

  // The projection leaves the resume token out, so the verdict is the same
  // with the token and without it.
  lemma TokenNeverChangesTheVerdict(
      rules: seq<ACLRule>, defaultEffect: string, call: Call, mode: Mode, inputs: Value,
      d: AccessDecision, e: AccessDecision)
    requires IsDecision(d, rules, Outcomes(rules, CallWith(call, inputs), mode), defaultEffect)
    requires IsDecision(e, rules, Outcomes(rules, CallWith(call, StripToken(inputs)), mode), defaultEffect)
    ensures d == e
  {
    ProjectionIgnoresToken(inputs);
    DecisionIsUnique(rules, Outcomes(rules, CallWith(call, inputs), mode), defaultEffect);
  }
}
