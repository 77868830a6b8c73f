// The walks themselves: the evaluators that fold a condition tree into one
// outcome while they report into the capture scope of the running check, and
// the precheck that pushes faults into a list.
module ConditionWalks {
  import opened Wrappers
  import opened Json
  import opened Kleene
  import opened Projection
  import opened Conditions
  import Decimal

  // The per-check capture scope (src/acl_handlers.rs:135-152): reported paths
  // and the path prefix of the sub-tree being evaluated. Message texts are not
  // kept.
  class CaptureScope {
    var errors: set<string>
    var prefix: string

    constructor ()
      ensures errors == {} && prefix == ""
    {
      errors, prefix := {}, "";
    }

    function ConditionPath(local: string): string
      reads this
    {
      JoinPath(prefix, local)
    }

    method ReportAt(path: string)
      modifies this`errors
      ensures errors == old(errors) + {path}
    {
      errors := errors + {path};
    }

    method Report(local: string)
      modifies this`errors
      ensures errors == old(errors) + {JoinPath(prefix, local)}
    {
      ReportAt(ConditionPath(local));
    }

    method ReportLeaf(answer: Answer)
      requires answer.Ready?
      modifies this`errors
      ensures errors == old(errors) + LeafReports(answer, prefix)
    {
      errors := errors + LeafReports(answer, prefix);
    }

    // Entering a segment hands back the prefix that leaving it restores.
    method Enter(segment: string) returns (previous: string)
      modifies this`prefix
      ensures previous == old(prefix) && prefix == JoinPath(old(prefix), segment)
    {
      previous := prefix;
      prefix := ConditionPath(segment);
    }

    method Leave(previous: string)
      modifies this`prefix
      ensures prefix == previous
    {
      prefix := previous;
    }
  }

  // ---------------------------------------------------------------------
  // Folding one more child
  // ---------------------------------------------------------------------

  lemma AndOneMore(s: set<ConditionOutcome>, c: ConditionOutcome)
    ensures AllOf(s).And(c) == AllOf(s + {c})
  {
  }

  lemma OrOneMore(s: set<ConditionOutcome>, c: ConditionOutcome)
    ensures AnyOf(s).Or(c) == AnyOf(s + {c})
  {
  }

  ghost function KeyOutcomes(r: Registries, mode: Mode, fields: map<string, Value>,
                             keys: set<string>): set<ConditionOutcome>
    requires keys <= fields.Keys
  {
    set k | k in keys :: EvalKey(r, mode, k, fields[k])
  }

  ghost function KeysReports(r: Registries, mode: Mode, fields: map<string, Value>, keys: set<string>,
                             prefix: string): set<string>
    requires keys <= fields.Keys
  {
    set k, p | k in keys && p in KeyReports(r, mode, k, fields[k], prefix) :: p
  }

  lemma OneMoreKey(r: Registries, mode: Mode, fields: map<string, Value>, keys: set<string>, k: string, prefix: string)
    requires keys <= fields.Keys && k in fields
    ensures KeyOutcomes(r, mode, fields, keys + {k}) ==
            KeyOutcomes(r, mode, fields, keys) + {EvalKey(r, mode, k, fields[k])}
    ensures KeysReports(r, mode, fields, keys + {k}, prefix)
         == KeysReports(r, mode, fields, keys, prefix) + KeyReports(r, mode, k, fields[k], prefix)
  {
    var a, b := KeyOutcomes(r, mode, fields, keys + {k}), KeyOutcomes(r, mode, fields, keys);
    forall o | o in b ensures o in a {
      var j :| j in keys && o == EvalKey(r, mode, j, fields[j]);
      assert j in keys + {k};
    }
    assert k in keys + {k};
    assert EvalKey(r, mode, k, fields[k]) in a;
  }

  // All of an object's keys visited: the fold is the object's own meaning.
  lemma AllKeys(r: Registries, mode: Mode, v: Value, prefix: string)
    requires v.Object?
    ensures AllOf(KeyOutcomes(r, mode, v.fields, v.fields.Keys)) == Eval(r, mode, v)
    ensures KeysReports(r, mode, v.fields, v.fields.Keys, prefix) == Reports(r, mode, v, prefix)
  {
    assert KeyOutcomes(r, mode, v.fields, v.fields.Keys) == set k | k in v.fields :: EvalKey(r, mode, k, v.fields[k]);
    var a, b := KeysReports(r, mode, v.fields, v.fields.Keys, prefix), Reports(r, mode, v, prefix);
    forall p | p in b ensures p in a {
      var k :| k in v.fields && p in KeyReports(r, mode, k, v.fields[k], prefix);
      assert k in v.fields.Keys;
    }
  }

  // ---------------------------------------------------------------------
  // Evaluators
  // ---------------------------------------------------------------------

  // ACL::evaluate_conditions (src/acl.rs:1518-1593): the synchronous registry
  // only, each handler polled once.
  method EvaluateConditions(scope: CaptureScope, r: Registries, conditions: Value) returns (outcome: ConditionOutcome)
    requires conditions.Object?
    modifies scope
    ensures outcome == Eval(r, Sync, conditions)
    ensures scope.errors == old(scope.errors) + Reports(r, Sync, conditions, old(scope.prefix))
    ensures scope.prefix == old(scope.prefix)
    decreases conditions, 1
  {
    ghost var before, prefix := scope.errors, scope.prefix;
    ghost var done: set<string> := {};
    var todo := conditions.fields.Keys;
    outcome := Satisfied;
    while todo != {}
      invariant done !! todo && done + todo == conditions.fields.Keys
      invariant outcome == AllOf(KeyOutcomes(r, Sync, conditions.fields, done))
      invariant scope.errors == before + KeysReports(r, Sync, conditions.fields, done, prefix)
      invariant scope.prefix == prefix
      decreases todo
    {
      var key :| key in todo;
      var value := conditions.fields[key];
      var child;
      if key !in r.sync {
        scope.Report(key);
        child := Unevaluable;
      } else {
        match r.sync[key]
        case CompoundOr => child := OrOutcome(scope, r, Sync, value);
        case CompoundNot => child := NotOutcome(scope, r, Sync, value);
        case BuiltinArguments => child := DecideArguments(scope, r.projection, value);
        case Leaf =>
          match r.polled(key, value)
          case Done(Ready(o, local, notes)) =>
            scope.ReportLeaf(Ready(o, local, notes));
            child := o;
          case Pending =>
            scope.Report(key);
            child := Unevaluable;
          case Done(Panicked) =>
            scope.Report(key);
            child := Unevaluable;
      }
      OneMoreKey(r, Sync, conditions.fields, done, key, prefix);
      AndOneMore(KeyOutcomes(r, Sync, conditions.fields, done), child);
      outcome := outcome.And(child);
      todo := todo - {key};
      done := done + {key};
    }
    assert done == conditions.fields.Keys;
    AllKeys(r, Sync, conditions, prefix);
  }

  // evaluate_conditions_async_outcome (src/acl_handlers.rs:628-684): the async
  // registry first, then the synchronous one; handlers are awaited.
  method EvaluateConditionsAsync(scope: CaptureScope, r: Registries, conditions: Value)
    returns (outcome: ConditionOutcome)
    requires conditions.Object?
    modifies scope
    ensures outcome == Eval(r, Async, conditions)
    ensures scope.errors == old(scope.errors) + Reports(r, Async, conditions, old(scope.prefix))
    ensures scope.prefix == old(scope.prefix)
    decreases conditions, 1
  {
    ghost var before, prefix := scope.errors, scope.prefix;
    ghost var done: set<string> := {};
    var todo := conditions.fields.Keys;
    outcome := Satisfied;
    while todo != {}
      invariant done !! todo && done + todo == conditions.fields.Keys
      invariant outcome == AllOf(KeyOutcomes(r, Async, conditions.fields, done))
      invariant scope.errors == before + KeysReports(r, Async, conditions.fields, done, prefix)
      invariant scope.prefix == prefix
      decreases todo
    {
      var key :| key in todo;
      var value := conditions.fields[key];
      var child;
      var found, instance;
      if key in r.async {
        found, instance := Some(r.async[key]), Async;
      } else if key in r.sync {
        found, instance := Some(r.sync[key]), Sync;
      } else {
        found, instance := None, Sync;
      }
      match found {
        case None =>
          scope.Report(key);
          child := Unevaluable;
        case Some(CompoundOr) => child := OrOutcome(scope, r, instance, value);
        case Some(CompoundNot) => child := NotOutcome(scope, r, instance, value);
        case Some(BuiltinArguments) => child := DecideArguments(scope, r.projection, value);
        case Some(Leaf) =>
          match r.awaited(key, value)
          case Ready(o, local, notes) =>
            scope.ReportLeaf(Ready(o, local, notes));
            child := o;
          case Panicked =>
            scope.Report(key);
            child := Unevaluable;
      }
      OneMoreKey(r, Async, conditions.fields, done, key, prefix);
      AndOneMore(KeyOutcomes(r, Async, conditions.fields, done), child);
      outcome := outcome.And(child);
      todo := todo - {key};
      done := done + {key};
    }
    assert done == conditions.fields.Keys;
    AllKeys(r, Async, conditions, prefix);
  }

  // evaluate_sub_conditions (src/acl_handlers.rs:966-975).
  method EvaluateSubConditions(scope: CaptureScope, r: Registries, mode: Mode, conditions: Value)
    returns (outcome: ConditionOutcome)
    requires conditions.Object?
    modifies scope
    ensures outcome == Eval(r, mode, conditions)
    ensures scope.errors == old(scope.errors) + Reports(r, mode, conditions, old(scope.prefix))
    ensures scope.prefix == old(scope.prefix)
    decreases conditions, 2
  {
    match mode
    case Sync => outcome := EvaluateConditions(scope, r, conditions);
    case Async => outcome := EvaluateConditionsAsync(scope, r, conditions);
  }

  ghost function BranchOutcomes(r: Registries, mode: Mode, items: seq<Value>, n: nat): set<ConditionOutcome>
    requires n <= |items|
  {
    set i | 0 <= i < n :: EvalBranch(r, mode, items[i])
  }

  ghost function BranchesReports(r: Registries, mode: Mode, items: seq<Value>, n: nat, prefix: string): set<string>
    requires n <= |items|
  {
    set i, p | 0 <= i < n && p in BranchReports(r, mode, items[i], JoinPath(prefix, OrSegment(i))) :: p
  }

  lemma OneMoreBranch(r: Registries, mode: Mode, items: seq<Value>, n: nat, prefix: string)
    requires n < |items|
    ensures BranchOutcomes(r, mode, items, n + 1) == BranchOutcomes(r, mode, items, n) + {EvalBranch(r, mode, items[n])}
    ensures BranchesReports(r, mode, items, n + 1, prefix)
         == BranchesReports(r, mode, items, n, prefix)
            + BranchReports(r, mode, items[n], JoinPath(prefix, OrSegment(n)))
  {
  }

  lemma AllBranches(r: Registries, mode: Mode, value: Value, prefix: string)
    requires value.Array?
    ensures EvalOr(r, mode, value) == AnyOf(BranchOutcomes(r, mode, value.items, |value.items|))
    ensures OrReports(r, mode, value, prefix) == BranchesReports(r, mode, value.items, |value.items|, prefix)
  {
  }

  // One branch of an `$or`, under its own path segment.
  method BranchOutcome(scope: CaptureScope, r: Registries, mode: Mode, branch: Value, index: nat)
    returns (outcome: ConditionOutcome)
    modifies scope
    ensures outcome == EvalBranch(r, mode, branch)
    ensures scope.errors ==
            old(scope.errors) + BranchReports(r, mode, branch, JoinPath(old(scope.prefix), OrSegment(index)))
    ensures scope.prefix == old(scope.prefix)
    decreases branch, 3
  {
    var previous := scope.Enter(OrSegment(index));
    if branch.Object? {
      outcome := EvaluateSubConditions(scope, r, mode, branch);
    } else {
      scope.ReportAt(scope.prefix);
      outcome := Unevaluable;
    }
    scope.Leave(previous);
  }

  // OrHandler::evaluate_outcome (src/acl_handlers.rs:1012-1038).
  method OrOutcome(scope: CaptureScope, r: Registries, mode: Mode, value: Value) returns (outcome: ConditionOutcome)
    modifies scope
    ensures outcome == EvalOr(r, mode, value)
    ensures scope.errors == old(scope.errors) + OrReports(r, mode, value, old(scope.prefix))
    ensures scope.prefix == old(scope.prefix)
    decreases value, 3
  {
    if !value.Array? {
      scope.Report("$or");
      return Unevaluable;
    }
    ghost var before, prefix := scope.errors, scope.prefix;
    outcome := Unsatisfied;
    for index := 0 to |value.items|
      invariant outcome == AnyOf(BranchOutcomes(r, mode, value.items, index))
      invariant scope.errors == before + BranchesReports(r, mode, value.items, index, prefix)
      invariant scope.prefix == prefix
    {
      var child := BranchOutcome(scope, r, mode, value.items[index], index);
      OneMoreBranch(r, mode, value.items, index, prefix);
      OrOneMore(BranchOutcomes(r, mode, value.items, index), child);
      outcome := outcome.Or(child);
    }
    AllBranches(r, mode, value, prefix);
  }

  // NotHandler::evaluate_outcome (src/acl_handlers.rs:1065-1075).
  method NotOutcome(scope: CaptureScope, r: Registries, mode: Mode, value: Value) returns (outcome: ConditionOutcome)
    modifies scope
    ensures outcome == if value.Object? then Eval(r, mode, value).Negate() else Unevaluable
    ensures scope.errors == old(scope.errors) +
                            if value.Object? then Reports(r, mode, value, JoinPath(old(scope.prefix), "$not"))
                            else {JoinPath(old(scope.prefix), "$not")}
    ensures scope.prefix == old(scope.prefix)
    decreases value, 3
  {
    if value.Object? {
      var previous := scope.Enter("$not");
      outcome := EvaluateSubConditions(scope, r, mode, value);
      scope.Leave(previous);
      outcome := outcome.Negate();
    } else {
      scope.Report("$not");
      outcome := Unevaluable;
    }
  }

  // ArgumentsHandler::decide and decide_one (src/acl_handlers.rs:847-923).
  method DecideArguments(scope: CaptureScope, projection: Option<GovernanceProjection>, value: Value)
    returns (outcome: ConditionOutcome)
    modifies scope
    ensures outcome == ArgumentsOutcome(value, projection)
    ensures scope.errors == old(scope.errors) + ArgumentsReports(value, projection, old(scope.prefix))
    ensures scope.prefix == old(scope.prefix)
  {
    if !value.Object? || value.fields.Keys == {} {
      assert value.Object? ==> (value.fields == map[] <==> value.fields.Keys == {});
      scope.Report("arguments");
      return Unevaluable;
    }
    var fields := value.fields;
    ghost var before, prefix := scope.errors, scope.prefix;
    ghost var done: set<string> := {};
    var todo := fields.Keys;
    outcome := Satisfied;
    while todo != {}
      invariant done !! todo && done + todo == fields.Keys
      invariant outcome == AllOf(set k | k in done :: PredicateOutcome(k, fields[k], projection))
      invariant scope.errors ==
                before + set k | k in done && (!WellFormedPredicate(k, fields[k]) || projection.None?) ::
                           JoinPath(prefix, "arguments." + k)
      invariant scope.prefix == prefix
      decreases todo
    {
      var predicateName :| predicateName in todo;
      var child := DecideOne(scope, projection, predicateName, fields[predicateName]);
      ghost var outs := set k | k in done :: PredicateOutcome(k, fields[k], projection);
      AndOneMore(outs, child);
      outcome := outcome.And(child);
      todo := todo - {predicateName};
      done := done + {predicateName};
      assert (set k | k in done :: PredicateOutcome(k, fields[k], projection)) == outs + {child};
    }
    assert done == fields.Keys;
    assert (set k | k in done :: PredicateOutcome(k, fields[k], projection)) ==
           set k | k in fields :: PredicateOutcome(k, fields[k], projection);
  }

  method DecideOne(scope: CaptureScope, projection: Option<GovernanceProjection>, name: string, operand: Value)
    returns (outcome: ConditionOutcome)
    modifies scope`errors
    ensures outcome == PredicateOutcome(name, operand, projection)
    ensures scope.errors == old(scope.errors) +
                            if WellFormedPredicate(name, operand) && projection.Some? then {}
                            else {JoinPath(scope.prefix, "arguments." + name)}
  {
    if name !in ARGUMENT_PREDICATES {
      scope.Report("arguments." + name);
      return Unevaluable;
    }
    var names := KeyNames(operand);
    if names.None? {
      scope.Report("arguments." + name);
      return Unevaluable;
    }
    if projection.None? {
      scope.Report("arguments." + name);
      return Unevaluable;
    }
    var anyPresent, allPresent := false, true;
    for i := 0 to |names.value|
      invariant anyPresent <==> exists k :: k in names.value[..i] && k in projection.value
      invariant allPresent <==> forall k :: k in names.value[..i] ==> k in projection.value
    {
      assert names.value[..i + 1] == names.value[..i] + [names.value[i]];
      anyPresent := anyPresent || names.value[i] in projection.value;
      allPresent := allPresent && names.value[i] in projection.value;
    }
    assert names.value[..|names.value|] == names.value;
    outcome := FromBool(
      if name == "has_key" then anyPresent
      else if name == "has_all_keys" then allPresent
      else !anyPresent);
  }

  // ---------------------------------------------------------------------
  // Precheck
  // ---------------------------------------------------------------------

  class FaultList {
    var faults: seq<RuleFault>

    constructor ()
      ensures faults == []
    {
      faults := [];
    }

    ghost function Found(): set<RuleFault>
      reads this
    {
      set f | f in faults
    }

    method Push(fault: RuleFault)
      modifies this
      ensures faults == old(faults) + [fault]
      ensures Found() == old(Found()) + {fault}
    {
      faults := faults + [fault];
    }
  }

  ghost function KeysFaults(r: Registries, mode: Mode, fields: map<string, Value>, keys: set<string>,
                            prefix: string): set<RuleFault>
    requires keys <= fields.Keys
  {
    set k, f | k in keys && f in KeyFaults(r, mode, k, fields[k], prefix) :: f
  }

  ghost function BranchesFaults(r: Registries, mode: Mode, items: seq<Value>, n: nat, path: string): set<RuleFault>
    requires n <= |items|
  {
    set i, f | 0 <= i < n && f in Faults(r, mode, items[i], path + "[" + Decimal.Print(i) + "]") :: f
  }

  lemma OneMoreFaultyBranch(r: Registries, mode: Mode, items: seq<Value>, n: nat, path: string)
    requires n < |items|
    ensures BranchesFaults(r, mode, items, n + 1, path)
         == BranchesFaults(r, mode, items, n, path) + Faults(r, mode, items[n], path + "[" + Decimal.Print(n) + "]")
  {
  }

  // collect_condition_faults (src/acl_handlers.rs:1153-1237): no handler runs,
  // and no fault ends the walk.
  method CollectConditionFaults(r: Registries, mode: Mode, conditions: Value, prefix: string, out: FaultList)
    modifies out
    ensures out.Found() == old(out.Found()) + Faults(r, mode, conditions, prefix)
    decreases conditions, 1
  {
    if !conditions.Object? {
      out.Push(StructuralFault(if prefix == "" then "$" else prefix, None));
      return;
    }
    ghost var before := out.Found();
    ghost var done: set<string> := {};
    var todo := conditions.fields.Keys;
    while todo != {}
      invariant done !! todo && done + todo == conditions.fields.Keys
      invariant out.Found() == before + KeysFaults(r, mode, conditions.fields, done, prefix)
      decreases todo
    {
      var key :| key in todo;
      CollectKeyFaults(r, mode, key, conditions.fields[key], prefix, out);
      todo := todo - {key};
      assert KeysFaults(r, mode, conditions.fields, done + {key}, prefix)
          == KeysFaults(r, mode, conditions.fields, done, prefix)
             + KeyFaults(r, mode, key, conditions.fields[key], prefix);
      done := done + {key};
    }
    assert done == conditions.fields.Keys;
    assert KeysFaults(r, mode, conditions.fields, done, prefix) == Faults(r, mode, conditions, prefix);
  }

  lemma AllFaultyBranches(r: Registries, mode: Mode, value: Value, prefix: string)
    requires value.Array? && Resolvable(r, mode, "$or")
    ensures BranchesFaults(r, mode, value.items, |value.items|, JoinPath(prefix, "$or")) ==
            KeyFaults(r, mode, "$or", value, prefix)
  {
  }

  // The branches of an `$or`, each under its own index.
  method CollectBranchFaults(r: Registries, mode: Mode, value: Value, prefix: string, out: FaultList)
    requires value.Array? && Resolvable(r, mode, "$or")
    modifies out
    ensures out.Found() == old(out.Found()) + KeyFaults(r, mode, "$or", value, prefix)
    decreases value, 2
  {
    ghost var before := out.Found();
    var path := JoinPath(prefix, "$or");
    for index := 0 to |value.items|
      invariant out.Found() == before + BranchesFaults(r, mode, value.items, index, path)
    {
      CollectConditionFaults(r, mode, value.items[index], path + "[" + Decimal.Print(index) + "]", out);
      OneMoreFaultyBranch(r, mode, value.items, index, path);
    }
    AllFaultyBranches(r, mode, value, prefix);
  }

  // The body of the loop above, for one key.
  method CollectKeyFaults(r: Registries, mode: Mode, key: string, value: Value, prefix: string, out: FaultList)
    modifies out
    ensures out.Found() == old(out.Found()) + KeyFaults(r, mode, key, value, prefix)
    decreases value, 3
  {
    var path := JoinPath(prefix, key);
    var syncResolvable := key in r.sync;
    var asyncResolvable := key in r.async || syncResolvable;
    if !(if mode.Sync? then syncResolvable else asyncResolvable) {
      out.Push(RuleFault(path, Some(key), syncResolvable, asyncResolvable));
    } else if key == "$or" {
      if value.Array? {
        CollectBranchFaults(r, mode, value, prefix, out);
      } else {
        out.Push(StructuralFault(path, Some(key)));
      }
    } else if key == "$not" {
      if value.Object? {
        CollectConditionFaults(r, mode, value, path, out);
      } else {
        out.Push(StructuralFault(path, Some(key)));
      }
    } else if key == "arguments" {
      CollectArgumentFaults(value, path, out);
    }
  }

  // collect_argument_faults (src/acl_handlers.rs:1250-1290).
  method CollectArgumentFaults(value: Value, path: string, out: FaultList)
    modifies out
    ensures out.Found() == old(out.Found()) + ArgumentFaults(value, path)
  {
    if !value.Object? || value.fields.Keys == {} {
      assert value.Object? ==> (value.fields == map[] <==> value.fields.Keys == {});
      out.Push(StructuralFault(path, Some("arguments")));
      return;
    }
    ghost var before := out.Found();
    ghost var done: set<string> := {};
    var todo := value.fields.Keys;
    while todo != {}
      invariant done !! todo && done + todo == value.fields.Keys
      invariant out.Found() == before +
                set k | k in done && !WellFormedPredicate(k, value.fields[k]) ::
                  StructuralFault(path + "." + k, Some("arguments"))
      decreases todo
    {
      var name :| name in todo;
      if name !in ARGUMENT_PREDICATES || KeyNames(value.fields[name]).None? {
        out.Push(StructuralFault(path + "." + name, Some("arguments")));
      }
      todo := todo - {name};
      done := done + {name};
    }
    assert done == value.fields.Keys;
  }
}
