// ACL rules: which may enter a live ACL, and when their caller and target
// patterns match (src/acl.rs:114-301, 1356-1388, 2528-2619).
module AclRules {
  import opened Wrappers
  import opened Json
  import opened Patterns

  const EFFECTS: set<string> := {"allow", "deny"}
  const EXTERNAL_CALLER := "@external"
  const PATTERN_OPERATORS: set<string> := {"$or", "$not"}

  datatype ApprovalRequirement = NotRequired | Required

  datatype ACLRule = ACLRule(
    callers: seq<string>,
    targets: seq<string>,
    effect: string,
    approval: Option<ApprovalRequirement>,
    conditions: Option<Value>)

  predicate ApprovalRequired(rule: ACLRule) {
    rule.effect == "allow" && rule.approval == Some(Required)
  }

  // ---------------------------------------------------------------------
  // Tier 1: the shape of a pattern array
  // ---------------------------------------------------------------------

  datatype ShapeFault =
    | EmptyArray
    | EmptyElement(index: nat)
    | MisplacedOperator(index: nat)
    | OrWithoutOperand
    | NotWithoutSingleOperand

  // The index of the first element at or after `from` that is `wanted`.
  function Position(patterns: seq<string>, wanted: set<string>, from: nat): (found: Option<nat>)
    requires from <= |patterns|
    ensures found.Some? ==> from <= found.value < |patterns| && patterns[found.value] in wanted
    ensures found.Some? ==> forall i :: from <= i < found.value ==> patterns[i] !in wanted
    ensures found.None? ==> forall i :: from <= i < |patterns| ==> patterns[i] !in wanted
    decreases |patterns| - from
  {
    if from == |patterns| then None
    else if patterns[from] in wanted then Some(from)
    else Position(patterns, wanted, from + 1)
  }

  function PatternShapeFault(patterns: seq<string>): Option<ShapeFault> {
    if patterns == [] then Some(EmptyArray)
    else
      var empty := Position(patterns, {""}, 0);
      if empty.Some? then Some(EmptyElement(empty.value))
      else
        var operator := Position(patterns, PATTERN_OPERATORS, 1);
        if operator.Some? then Some(MisplacedOperator(operator.value))
        else if patterns[0] == "$or" && |patterns| < 2 then Some(OrWithoutOperand)
        else if patterns[0] == "$not" && |patterns| != 2 then Some(NotWithoutSingleOperand)
        else None
  }

  // The table of legal shapes: plain patterns, `$or` before at least one of
  // them, or `$not` before exactly one.
  predicate PlainPatterns(patterns: seq<string>) {
    patterns != [] && forall p :: p in patterns ==> p != "" && p !in PATTERN_OPERATORS
  }

  predicate LegalShape(patterns: seq<string>) {
    || PlainPatterns(patterns)
    || (patterns != [] && patterns[0] == "$or" && PlainPatterns(patterns[1..]))
    || (|patterns| == 2 && patterns[0] == "$not" && PlainPatterns(patterns[1..]))
  }

  lemma ShapeFaultsAreTheTable(patterns: seq<string>)
    ensures PatternShapeFault(patterns).None? <==> LegalShape(patterns)
  {
    if patterns != [] {
      var first, tail := patterns[0], patterns[1..];
      assert patterns == [first] + tail;
      var noEmpty := "" !in patterns;
      var noOperator := forall p :: p in tail ==> p !in PATTERN_OPERATORS;
      assert Position(patterns, {""}, 0).None? <==> noEmpty;
      assert Position(patterns, PATTERN_OPERATORS, 1).None? <==> noOperator by {
        forall i | 1 <= i < |patterns| ensures patterns[i] == tail[i - 1] {}
      }
      assert PlainPatterns(patterns) <==> noEmpty && noOperator && first !in PATTERN_OPERATORS;
      assert PlainPatterns(tail) <==> tail != [] && "" !in tail && noOperator;
    }
  }

  // Which fault an illegal array has: the first that applies of these.
  lemma ShapeFaultIsTheFirst(patterns: seq<string>)
    ensures PatternShapeFault(patterns) == Some(EmptyArray) <==> patterns == []
    ensures forall i: nat :: PatternShapeFault(patterns) == Some(EmptyElement(i)) <==>
              i < |patterns| && patterns[i] == "" && forall j :: 0 <= j < i ==> patterns[j] != ""
    ensures forall i: nat :: PatternShapeFault(patterns) == Some(MisplacedOperator(i)) <==>
              && "" !in patterns && 1 <= i < |patterns| && (patterns[i] == "$or" || patterns[i] == "$not")
              && forall j :: 1 <= j < i ==> patterns[j] != "$or" && patterns[j] != "$not"
    ensures PatternShapeFault(patterns) == Some(OrWithoutOperand) <==> patterns == ["$or"]
    ensures PatternShapeFault(patterns) == Some(NotWithoutSingleOperand) <==>
            && patterns != [] && patterns[0] == "$not" && |patterns| != 2 && "" !in patterns
            && forall j :: 1 <= j < |patterns| ==> patterns[j] != "$or" && patterns[j] != "$not"
  {
    if patterns != [] {
      var empty, operator := Position(patterns, {""}, 0), Position(patterns, PATTERN_OPERATORS, 1);
      assert empty.None? <==> "" !in patterns;
    }
  }

  // ---------------------------------------------------------------------
  // Matching
  // ---------------------------------------------------------------------

  // `@system` asks about the caller's identity, `@external` is a literal,
  // everything else is a wildcard pattern.
  ghost predicate PatternMatches(pattern: string, value: string, system: bool) {
    if pattern == "@system" then system
    else if pattern == EXTERNAL_CALLER then value == EXTERNAL_CALLER
    else Glob(pattern, value)
  }

  ghost predicate ArrayMatches(patterns: seq<string>, value: string, system: bool) {
    if patterns == [] then false
    else if patterns[0] == "$or" then exists p :: p in patterns[1..] && PatternMatches(p, value, system)
    else if patterns[0] == "$not" then |patterns| >= 2 && !PatternMatches(patterns[1], value, system)
    else exists p :: p in patterns && PatternMatches(p, value, system)
  }

  method MatchAclPattern(pattern: string, value: string, system: bool) returns (matched: bool)
    ensures matched <==> PatternMatches(pattern, value, system)
    ensures pattern == "@system" ==> (matched <==> system)
    ensures pattern == "@external" ==> (matched <==> value == "@external")
    ensures pattern != "@system" && pattern != "@external" ==> (matched <==> Glob(pattern, value))
  {
    if pattern == "@system" {
      return system;
    }
    if pattern == EXTERNAL_CALLER {
      return value == EXTERNAL_CALLER;
    }
    matched := MatchPattern(pattern, value);
  }

  method AnyMatches(patterns: seq<string>, value: string, system: bool) returns (matched: bool)
    ensures matched <==> exists p :: p in patterns && PatternMatches(p, value, system)
  {
    for i := 0 to |patterns|
      invariant forall p :: p in patterns[..i] ==> !PatternMatches(p, value, system)
    {
      var one := MatchAclPattern(patterns[i], value, system);
      if one {
        return true;
      }
      assert patterns[..i + 1] == patterns[..i] + [patterns[i]];
    }
    assert patterns[..|patterns|] == patterns;
    matched := false;
  }

  method MatchPatterns(patterns: seq<string>, value: string, system: bool) returns (matched: bool)
    ensures matched <==> ArrayMatches(patterns, value, system)
  {
    if patterns == [] {
      return false;
    }
    if patterns[0] == "$or" {
      matched := AnyMatches(patterns[1..], value, system);
    } else if patterns[0] == "$not" {
      if |patterns| < 2 {
        return false;
      }
      var one := MatchAclPattern(patterns[1], value, system);
      matched := !one;
    } else {
      matched := AnyMatches(patterns, value, system);
    }
  }

  // A pattern that is no operator, alone in its array: `@system` is matched by
  // a system caller and by nobody else, `@external` by that very text, and any
  // other by the texts it globs.
  lemma OnePatternMeans(p: string, value: string, system: bool)
    requires p != "$or" && p != "$not"
    ensures ArrayMatches([p], value, system) <==>
            if p == "@system" then system else if p == "@external" then value == "@external" else Glob(p, value)
  {
    assert p in [p];
  }

  // `$not` before a pattern matches exactly what the pattern alone does not,
  // whatever follows; `$or` before some, and no operator at all, match exactly
  // what one of them alone matches.
  lemma ArraysMean(p: string, ps: seq<string>, value: string, system: bool)
    requires p != "$or" && p != "$not" && forall q :: q in ps ==> q != "$or" && q != "$not"
    ensures ArrayMatches(["$not", p] + ps, value, system) <==> !ArrayMatches([p], value, system)
    ensures ArrayMatches(["$or"] + ps, value, system) <==> exists q :: q in ps && ArrayMatches([q], value, system)
    ensures ArrayMatches(ps, value, system) <==> exists q :: q in ps && ArrayMatches([q], value, system)
    ensures !ArrayMatches(["$not"], value, system)
  {
    assert (["$not", p] + ps)[1] == p && (["$or"] + ps)[1..] == ps;
    assert ps != [] ==> ps[0] in ps;
    forall q | q == p || q in ps ensures ArrayMatches([q], value, system) <==> PatternMatches(q, value, system) {
      assert q in [q];
    }
  }

  // ---------------------------------------------------------------------
  // Tier 2: well-formed arrays that still match no legal module ID
  // ---------------------------------------------------------------------

  predicate IsUniversalPattern(pattern: string) {
    pattern != "" && forall c :: c in pattern ==> c == '*'
  }

  function Operands(patterns: seq<string>): seq<string>
    requires patterns != []
  {
    if patterns[0] == "$or" then patterns[1..] else patterns
  }

  // pattern_never_matches (src/acl.rs:227-273).
  predicate PatternNeverMatches(isTargets: bool, patterns: seq<string>) {
    if patterns == [] then false
    else if patterns[0] == "$not" then |patterns| >= 2 && IsUniversalPattern(patterns[1])
    else
      || (Operands(patterns) != [] && forall p :: p in Operands(patterns) ==> '?' in p)
      || (isTargets && forall p :: p in Operands(patterns) ==> p == EXTERNAL_CALLER)
  }

  // What the diagnostics report, and nothing else: `$not` before stars alone,
  // operands that all carry a question mark, or targets that all name the
  // external caller.
  lemma NeverMatchesExactly(isTargets: bool, patterns: seq<string>)
    ensures PatternNeverMatches(isTargets, patterns) <==>
            && patterns != []
            && if patterns[0] == "$not" then
                 |patterns| >= 2 && patterns[1] != "" && forall i :: 0 <= i < |patterns[1]| ==> patterns[1][i] == '*'
               else
                 var first := if patterns[0] == "$or" then 1 else 0;
                 || (first < |patterns| && forall i :: first <= i < |patterns| ==> '?' in patterns[i])
                 || (isTargets && forall i :: first <= i < |patterns| ==> patterns[i] == "@external")
  {
    if |patterns| >= 2 && patterns[0] == "$not" {
      assert forall i :: 0 <= i < |patterns[1]| ==> patterns[1][i] in patterns[1];
    } else if patterns != [] && patterns[0] != "$not" {
      var first := if patterns[0] == "$or" then 1 else 0;
      assert Operands(patterns) == patterns[first..];
      forall i | first <= i < |patterns| ensures patterns[i] in Operands(patterns) {
        assert patterns[first..][i - first] == patterns[i];
      }
      forall p | p in Operands(patterns) ensures exists i :: first <= i < |patterns| && patterns[i] == p {
        var i :| 0 <= i < |Operands(patterns)| && Operands(patterns)[i] == p;
        assert patterns[first + i] == p;
      }
    }
  }

  lemma {:induction false} StarsMatchEverything(pattern: string, value: string)
    requires IsUniversalPattern(pattern)
    ensures Glob(pattern, value)
  {
    assert value[|value|..] == "" && pattern[0] in pattern;
    if |pattern| > 1 {
      forall c | c in pattern[1..] ensures c in pattern {
        assert pattern == [pattern[0]] + pattern[1..];
      }
      StarsMatchEverything(pattern[1..], value[|value|..]);
    }
  }

  lemma {:induction false} LiteralsOccur(pattern: string, value: string, c: char)
    requires Glob(pattern, value) && c in pattern && c != '*'
    ensures c in value
  {
    assert pattern == [pattern[0]] + pattern[1..];
    if pattern[0] == '*' {
      var i :| 0 <= i <= |value| && Glob(pattern[1..], value[i..]);
      LiteralsOccur(pattern[1..], value[i..], c);
    } else if pattern[0] != c {
      LiteralsOccur(pattern[1..], value[1..], c);
    }
  }

  // A tier-2 finding is sound: no module ID matches such an array, whoever
  // calls. A module ID carries no '?' and is never the caller sentinel.
  lemma NeverMatchesIsSound(isTargets: bool, patterns: seq<string>, id: string, system: bool)
    requires PatternNeverMatches(isTargets, patterns)
    requires '?' !in id && (isTargets ==> id != EXTERNAL_CALLER)
    ensures !ArrayMatches(patterns, id, system)
  {
    assert "@system"[0] == '@' && EXTERNAL_CALLER[0] == '@';
    assert '?' !in "@system" && '?' !in EXTERNAL_CALLER;
    if patterns[0] == "$not" {
      StarsMatchEverything(patterns[1], id);
      assert patterns[1][0] in patterns[1];
    } else {
      forall p | p in Operands(patterns)
        ensures !PatternMatches(p, id, system)
      {
        if '?' in p && Glob(p, id) {
          LiteralsOccur(p, id, '?');
        }
      }
    }
  }

  // A pattern other than the two sentinels reaches an external caller exactly
  // when it globs the sentinel's text: `*` does.
  lemma WildcardsReachExternalCallers(system: bool)
    ensures forall pattern :: pattern != "@system" && pattern != EXTERNAL_CALLER ==>
              (PatternMatches(pattern, EXTERNAL_CALLER, system) <==> Glob(pattern, EXTERNAL_CALLER))
    ensures PatternMatches("*", EXTERNAL_CALLER, system)
  {
    StarsMatchEverything("*", EXTERNAL_CALLER);
  }

  // ---------------------------------------------------------------------
  // The door every rule passes
  // ---------------------------------------------------------------------

  datatype RuleDefect =
    | InvalidEffect
    | ApprovalOnDeny
    | CallersShape(fault: ShapeFault)
    | TargetsShape(fault: ShapeFault)

  // validate_rule: effect, then approval, then callers, then targets.
  function ValidateRule(rule: ACLRule): Option<RuleDefect> {
    if rule.effect !in EFFECTS then Some(InvalidEffect)
    else if rule.effect == "deny" && rule.approval == Some(Required) then Some(ApprovalOnDeny)
    else
      var callers, targets := PatternShapeFault(rule.callers), PatternShapeFault(rule.targets);
      if callers.Some? then Some(CallersShape(callers.value))
      else if targets.Some? then Some(TargetsShape(targets.value))
      else None
  }

  // Which defect a refused rule is refused for: effect, then approval, then
  // callers, then targets.
  lemma RuleDefectIsTheFirst(rule: ACLRule)
    ensures ValidateRule(rule) == Some(InvalidEffect) <==> rule.effect != "allow" && rule.effect != "deny"
    ensures ValidateRule(rule) == Some(ApprovalOnDeny) <==> rule.effect == "deny" && rule.approval == Some(Required)
    ensures forall f :: ValidateRule(rule) == Some(CallersShape(f)) <==>
              && (rule.effect == "allow" || (rule.effect == "deny" && rule.approval != Some(Required)))
              && PatternShapeFault(rule.callers) == Some(f)
    ensures forall f :: ValidateRule(rule) == Some(TargetsShape(f)) <==>
              && (rule.effect == "allow" || (rule.effect == "deny" && rule.approval != Some(Required)))
              && PatternShapeFault(rule.callers).None? && PatternShapeFault(rule.targets) == Some(f)
  {
  }

  predicate AcceptableRule(rule: ACLRule) {
    && (rule.effect == "allow" || (rule.effect == "deny" && rule.approval != Some(Required)))
    && LegalShape(rule.callers)
    && LegalShape(rule.targets)
  }

  lemma ValidateRuleIsTheDoor(rule: ACLRule)
    ensures ValidateRule(rule).None? <==> AcceptableRule(rule)
  {
    ShapeFaultsAreTheTable(rule.callers);
    ShapeFaultsAreTheTable(rule.targets);
  }
}
