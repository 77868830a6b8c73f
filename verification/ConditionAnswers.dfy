// What a condition tree answers, in terms of what its handlers answered and of
// the values in it, on both paths.
module ConditionAnswers {
  import opened Wrappers
  import opened Json
  import opened Kleene
  import opened Projection
  import opened Conditions
  import Decimal

  // The key whose condition is looked at alone.
  function OneKey(key: string, value: Value): Value {
    Object(map[key := value])
  }

  lemma OneKeyMeans(r: Registries, mode: Mode, key: string, value: Value)
    ensures Eval(r, mode, OneKey(key, value)) == EvalKey(r, mode, key, value)
  {
    var v := OneKey(key, value);
    var children := set k | k in v.fields :: EvalKey(r, mode, k, v.fields[k]);
    assert key in v.fields && v.fields[key] == value;
    assert EvalKey(r, mode, key, v.fields[key]) in children;
    assert forall o :: o in children ==> o == EvalKey(r, mode, key, value);
    ChildrenDecide(children);
  }

  // An object is satisfied exactly when each of its keys alone is, and
  // unsatisfied exactly when one of them is; an empty one is satisfied.
  lemma ObjectIsItsKeys(r: Registries, mode: Mode, v: Value)
    requires v.Object?
    ensures Eval(r, mode, v) == Satisfied <==>
            forall k :: k in v.fields ==> Eval(r, mode, OneKey(k, v.fields[k])) == Satisfied
    ensures Eval(r, mode, v) == Unsatisfied <==>
            exists k :: k in v.fields && Eval(r, mode, OneKey(k, v.fields[k])) == Unsatisfied
  {
    var children := set k | k in v.fields :: EvalKey(r, mode, k, v.fields[k]);
    forall k | k in v.fields
      ensures Eval(r, mode, OneKey(k, v.fields[k])) == EvalKey(r, mode, k, v.fields[k])
      ensures EvalKey(r, mode, k, v.fields[k]) in children
    {
      OneKeyMeans(r, mode, k, v.fields[k]);
    }
    ChildrenDecide(children);
  }

  // ---------------------------------------------------------------------
  // Leaves
  // ---------------------------------------------------------------------

  // On the synchronous path a leaf's outcome is the answer of its one poll.
  lemma LeafAnswersSync(r: Registries, key: string, value: Value)
    requires key in r.sync && r.sync[key] == Leaf
    ensures Eval(r, Sync, OneKey(key, value)) ==
            match r.polled(key, value)
            case Done(Ready(outcome, _, _)) => outcome
            case Done(Panicked) => Unevaluable
            case Pending => Unevaluable
  {
    OneKeyMeans(r, Sync, key, value);
  }

  // On the asynchronous path it is what the awaited handler answers, whichever
  // registry has it; the asynchronous one is asked first.
  lemma LeafAnswersAsync(r: Registries, key: string, value: Value)
    requires if key in r.async then r.async[key] == Leaf else key in r.sync && r.sync[key] == Leaf
    ensures Eval(r, Async, OneKey(key, value)) ==
            match r.awaited(key, value)
            case Ready(outcome, _, _) => outcome
            case Panicked => Unevaluable
  {
    OneKeyMeans(r, Async, key, value);
  }

  lemma UnknownKey(r: Registries, key: string, value: Value)
    ensures key !in r.sync ==> Eval(r, Sync, OneKey(key, value)) == Unevaluable
    ensures key !in r.sync && key !in r.async ==> Eval(r, Async, OneKey(key, value)) == Unevaluable
  {
    OneKeyMeans(r, Sync, key, value);
    OneKeyMeans(r, Async, key, value);
  }

  // An object of leaves is satisfied exactly when every leaf answered so, and
  // unsatisfied exactly when one of them answered that.
  lemma LeavesDecideSync(r: Registries, v: Value)
    requires v.Object? && forall k :: k in v.fields ==> k in r.sync && r.sync[k] == Leaf
    requires forall k :: k in v.fields ==> r.polled(k, v.fields[k]).Done? && r.polled(k, v.fields[k]).answer.Ready?
    ensures Eval(r, Sync, v) == Satisfied <==>
            forall k :: k in v.fields ==> r.polled(k, v.fields[k]).answer.outcome == Satisfied
    ensures Eval(r, Sync, v) == Unsatisfied <==>
            exists k :: k in v.fields && r.polled(k, v.fields[k]).answer.outcome == Unsatisfied
  {
    ObjectIsItsKeys(r, Sync, v);
    forall k | k in v.fields
      ensures Eval(r, Sync, OneKey(k, v.fields[k])) == r.polled(k, v.fields[k]).answer.outcome
    {
      LeafAnswersSync(r, k, v.fields[k]);
    }
  }

  lemma LeavesDecideAsync(r: Registries, v: Value)
    requires v.Object? && forall k :: k in v.fields ==>
      if k in r.async then r.async[k] == Leaf else k in r.sync && r.sync[k] == Leaf
    requires forall k :: k in v.fields ==> r.awaited(k, v.fields[k]).Ready?
    ensures Eval(r, Async, v) == Satisfied <==>
            forall k :: k in v.fields ==> r.awaited(k, v.fields[k]).outcome == Satisfied
    ensures Eval(r, Async, v) == Unsatisfied <==>
            exists k :: k in v.fields && r.awaited(k, v.fields[k]).outcome == Unsatisfied
  {
    ObjectIsItsKeys(r, Async, v);
    forall k | k in v.fields
      ensures Eval(r, Async, OneKey(k, v.fields[k])) == r.awaited(k, v.fields[k]).outcome
    {
      LeafAnswersAsync(r, k, v.fields[k]);
    }
  }

  // ---------------------------------------------------------------------
  // Compounds
  // ---------------------------------------------------------------------

  // The handler found for a key, and the path its operand is evaluated on.
  ghost predicate FoundAs(r: Registries, mode: Mode, key: string, handler: Handler, inner: Mode) {
    if mode == Async && key in r.async then r.async[key] == handler && inner == Async
    else key in r.sync && r.sync[key] == handler && inner == Sync
  }

  predicate Opposite(a: ConditionOutcome, b: ConditionOutcome) {
    || (a == Satisfied && b == Unsatisfied)
    || (a == Unsatisfied && b == Satisfied)
    || (a == Unevaluable && b == Unevaluable)
  }

  // `$not` is the opposite of its object, and unevaluable on anything else.
  lemma NotIsOpposite(r: Registries, mode: Mode, key: string, value: Value, inner: Mode)
    requires FoundAs(r, mode, key, CompoundNot, inner)
    ensures value.Object? ==> Opposite(Eval(r, mode, OneKey(key, value)), Eval(r, inner, value))
    ensures !value.Object? ==> Eval(r, mode, OneKey(key, value)) == Unevaluable
  {
    OneKeyMeans(r, mode, key, value);
  }

  // `$or` is satisfied exactly when one of its objects is, and unsatisfied
  // exactly when it is a list of objects that all are.
  lemma OrIsSome(r: Registries, mode: Mode, key: string, value: Value, inner: Mode)
    requires FoundAs(r, mode, key, CompoundOr, inner)
    ensures Eval(r, mode, OneKey(key, value)) == Satisfied <==>
            value.Array? && (exists i :: 0 <= i < |value.items| && value.items[i].Object?
                                        && Eval(r, inner, value.items[i]) == Satisfied)
    ensures Eval(r, mode, OneKey(key, value)) == Unsatisfied <==>
            value.Array? && (forall i :: 0 <= i < |value.items| ==>
                               value.items[i].Object? && Eval(r, inner, value.items[i]) == Unsatisfied)
  {
    OneKeyMeans(r, mode, key, value);
    if value.Array? {
      var children := set i | 0 <= i < |value.items| :: EvalBranch(r, inner, value.items[i]);
      forall i | 0 <= i < |value.items| ensures EvalBranch(r, inner, value.items[i]) in children {}
      ChildrenDecide(children);
    }
  }

  // Under `$not`, a leaf answers the opposite of its own answer.
  lemma NotLeafSync(r: Registries, key: string, leaf: string, value: Value)
    requires key in r.sync && r.sync[key] == CompoundNot && leaf in r.sync && r.sync[leaf] == Leaf
    requires r.polled(leaf, value).Done? && r.polled(leaf, value).answer.Ready?
    ensures Eval(r, Sync, OneKey(key, OneKey(leaf, value))) == Satisfied <==>
            r.polled(leaf, value).answer.outcome == Unsatisfied
    ensures Eval(r, Sync, OneKey(key, OneKey(leaf, value))) == Unsatisfied <==>
            r.polled(leaf, value).answer.outcome == Satisfied
  {
    NotIsOpposite(r, Sync, key, OneKey(leaf, value), Sync);
    LeafAnswersSync(r, leaf, value);
  }

  // ---------------------------------------------------------------------
  // `arguments`
  // ---------------------------------------------------------------------

  // One predicate over the argument keys: some key named is there, all of them
  // are, none of them is. What is not a list of names, or is no such
  // predicate, cannot be answered, and without the keys nothing can.
  ghost predicate ArgumentHolds(name: string, operand: Value, keys: set<string>)
    requires IsNames(operand)
  {
    match name
    case "has_key" => exists i :: 0 <= i < |operand.items| && operand.items[i].s in keys
    case "has_all_keys" => forall i :: 0 <= i < |operand.items| ==> operand.items[i].s in keys
    case _ => forall i :: 0 <= i < |operand.items| ==> operand.items[i].s !in keys
  }

  ghost predicate Askable(name: string, operand: Value, p: Option<GovernanceProjection>) {
    (name == "has_key" || name == "has_all_keys" || name == "has_none_of") && IsNames(operand) && p.Some?
  }

  // The predicate can be asked and holds, or can be asked and does not.
  ghost predicate Holds(name: string, operand: Value, p: Option<GovernanceProjection>) {
    Askable(name, operand, p) && ArgumentHolds(name, operand, p.value.Keys)
  }

  ghost predicate Fails(name: string, operand: Value, p: Option<GovernanceProjection>) {
    Askable(name, operand, p) && !ArgumentHolds(name, operand, p.value.Keys)
  }

  lemma PredicateAnswers(name: string, operand: Value, p: Option<GovernanceProjection>)
    ensures PredicateOutcome(name, operand, p) == Satisfied <==> Holds(name, operand, p)
    ensures PredicateOutcome(name, operand, p) == Unsatisfied <==> Fails(name, operand, p)
  {
    NamesOf(operand);
    if Askable(name, operand, p) {
      var names := KeyNames(operand).value;
      assert forall i :: 0 <= i < |names| ==> operand.items[i].s in names;
      assert forall k :: k in names ==> exists i :: 0 <= i < |names| && names[i] == k;
    }
  }

  // `arguments` is satisfied exactly when it is an object of at least one
  // predicate and every one of them holds, and unsatisfied exactly when one of
  // them fails.
  lemma ArgumentsAnswer(value: Value, p: Option<GovernanceProjection>)
    ensures ArgumentsOutcome(value, p) == Satisfied <==>
            value.Object? && value.fields.Keys != {}
            && (forall name :: name in value.fields ==> Holds(name, value.fields[name], p))
    ensures ArgumentsOutcome(value, p) == Unsatisfied <==>
            value.Object? && (exists name :: name in value.fields && Fails(name, value.fields[name], p))
  {
    if value.Object? {
      assert value.fields == map[] <==> value.fields.Keys == {};
      var children := set k | k in value.fields :: PredicateOutcome(k, value.fields[k], p);
      forall k | k in value.fields
        ensures PredicateOutcome(k, value.fields[k], p) in children
        ensures PredicateOutcome(k, value.fields[k], p) == Satisfied <==> Holds(k, value.fields[k], p)
        ensures PredicateOutcome(k, value.fields[k], p) == Unsatisfied <==> Fails(k, value.fields[k], p)
      {
        PredicateAnswers(k, value.fields[k], p);
      }
      ChildrenDecide(children);
    }
  }

  lemma ArgumentsKeyAnswers(r: Registries, mode: Mode, key: string, value: Value, inner: Mode)
    requires FoundAs(r, mode, key, BuiltinArguments, inner)
    ensures Eval(r, mode, OneKey(key, value)) == ArgumentsOutcome(value, r.projection)
  {
    OneKeyMeans(r, mode, key, value);
  }

  // ---------------------------------------------------------------------
  // Where it is reported
  // ---------------------------------------------------------------------

  lemma OneKeyReports(r: Registries, mode: Mode, key: string, value: Value, prefix: string)
    ensures Reports(r, mode, OneKey(key, value), prefix) == KeyReports(r, mode, key, value, prefix)
  {
    var v := OneKey(key, value);
    assert key in v.fields && v.fields[key] == value;
    forall p | p in KeyReports(r, mode, key, value, prefix) ensures p in Reports(r, mode, v, prefix) {
      assert p in KeyReports(r, mode, key, v.fields[key], prefix);
    }
  }

  // A key nobody resolves is reported under its own path: the key, behind the
  // prefix and a dot if there is one.
  lemma UnknownKeyPath(r: Registries, mode: Mode, key: string, value: Value, prefix: string)
    requires key !in r.sync && (mode == Async ==> key !in r.async)
    ensures Reports(r, mode, OneKey(key, value), prefix) == {if prefix == "" then key else prefix + "." + key}
  {
    OneKeyReports(r, mode, key, value, prefix);
  }

  // A leaf that answered reports what it noted; one that did not is reported.
  lemma LeafPaths(r: Registries, mode: Mode, key: string, value: Value, inner: Mode, prefix: string)
    requires FoundAs(r, mode, key, Leaf, inner)
    ensures
      var answer := if mode == Async then Done(r.awaited(key, value)) else r.polled(key, value);
      Reports(r, mode, OneKey(key, value), prefix) ==
      if answer.Done? && answer.answer.Ready? then
        (set l | l in answer.answer.local :: if prefix == "" then l else prefix + "." + l) + answer.answer.notes
      else {if prefix == "" then key else prefix + "." + key}
  {
    OneKeyReports(r, mode, key, value, prefix);
  }

  // Inside `$not` paths go on under its own segment, inside `$or` under the
  // index of the branch.
  lemma NotPaths(r: Registries, mode: Mode, key: string, value: Value, inner: Mode, prefix: string)
    requires FoundAs(r, mode, key, CompoundNot, inner)
    ensures
      var path := if prefix == "" then "$not" else prefix + "." + "$not";
      Reports(r, mode, OneKey(key, value), prefix) == if value.Object? then Reports(r, inner, value, path) else {path}
  {
    OneKeyReports(r, mode, key, value, prefix);
  }

  function BranchPath(prefix: string, i: nat): string {
    (if prefix == "" then "" else prefix + ".") + "$or[" + Decimal.Print(i) + "]"
  }

  lemma BranchPathIs(prefix: string, i: nat)
    ensures JoinPath(prefix, OrSegment(i)) == BranchPath(prefix, i)
  {
    assert prefix + "." + ("$or[" + Decimal.Print(i) + "]") == (prefix + ".") + "$or[" + Decimal.Print(i) + "]";
    assert "" + "$or[" == "$or[";
  }

  lemma OrPaths(r: Registries, mode: Mode, key: string, value: Value, inner: Mode, prefix: string, path: string)
    requires FoundAs(r, mode, key, CompoundOr, inner)
    ensures !value.Array? ==>
      Reports(r, mode, OneKey(key, value), prefix) == {if prefix == "" then "$or" else prefix + "." + "$or"}
    ensures value.Array? ==>
      (path in Reports(r, mode, OneKey(key, value), prefix) <==>
       exists i: nat :: i < |value.items|
         && if value.items[i].Object? then path in Reports(r, inner, value.items[i], BranchPath(prefix, i))
            else path == BranchPath(prefix, i))
  {
    OneKeyReports(r, mode, key, value, prefix);
    if value.Array? {
      forall i: nat | i < |value.items|
        ensures path in BranchReports(r, inner, value.items[i], JoinPath(prefix, OrSegment(i))) <==>
                if value.items[i].Object? then path in Reports(r, inner, value.items[i], BranchPath(prefix, i))
                else path == BranchPath(prefix, i)
      {
        BranchPathIs(prefix, i);
      }
    }
  }

  // `arguments` reports itself when it is no object of predicates, and else
  // each predicate that cannot be asked, under its own name.
  lemma ArgumentPaths(value: Value, p: Option<GovernanceProjection>, prefix: string, path: string)
    ensures
      var base := if prefix == "" then "arguments" else prefix + "." + "arguments";
      path in ArgumentsReports(value, p, prefix) <==>
      if value.Object? && value.fields.Keys != {} then
        exists name :: name in value.fields && !Askable(name, value.fields[name], p) && path == base + "." + name
      else path == base
  {
    var base := if prefix == "" then "arguments" else prefix + "." + "arguments";
    if value.Object? {
      assert value.fields == map[] <==> value.fields.Keys == {};
      forall name | name in value.fields
        ensures JoinPath(prefix, "arguments." + name) == base + "." + name
        ensures WellFormedPredicate(name, value.fields[name]) && p.Some? <==> Askable(name, value.fields[name], p)
      {
        NamesOf(value.fields[name]);
        assert "arguments." == "arguments" + ".";
        assert prefix + "." + ("arguments" + "." + name) == (prefix + "." + "arguments") + "." + name;
      }
    }
  }

  // What a fault says of its key: where it is, and which path would find it.
  lemma UnknownKeyFault(r: Registries, mode: Mode, key: string, value: Value, prefix: string)
    requires key !in r.sync && (mode == Async ==> key !in r.async)
    ensures Faults(r, mode, OneKey(key, value), prefix) ==
            {RuleFault(if prefix == "" then key else prefix + "." + key, Some(key), key in r.sync,
                       key in r.sync || key in r.async)}
  {
    var v := OneKey(key, value);
    assert key in v.fields && v.fields[key] == value;
    assert RuleFault(JoinPath(prefix, key), Some(key), Resolvable(r, Sync, key), Resolvable(r, Async, key))
           in KeyFaults(r, mode, key, v.fields[key], prefix);
  }

  lemma NoObjectFault(r: Registries, mode: Mode, value: Value, prefix: string)
    requires !value.Object?
    ensures Faults(r, mode, value, prefix) == {RuleFault(if prefix == "" then "$" else prefix, None, false, false)}
  {
  }
}
