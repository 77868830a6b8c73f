// Laws of condition trees: the precheck and the evaluator agree, and giving
// answers to unanswerable questions only refines an outcome.
module ConditionLaws {
  import opened Wrappers
  import opened Json
  import opened Kleene
  import opened Projection
  import opened Conditions
  import Decimal

  // The built-in handlers sit under their own keys and nowhere else. The
  // compound operators are seeded in both registries, `arguments` in the
  // synchronous one (src/acl_handlers.rs:1293-1306).
  ghost predicate BuiltinsInPlace(r: Registries) {
    && {"$or", "$not", "arguments"} <= r.sync.Keys
    && {"$or", "$not"} <= r.async.Keys
    && OwnKeysOnly(r.sync)
    && OwnKeysOnly(r.async)
  }

  ghost predicate OwnKeysOnly(registry: map<string, Handler>) {
    forall k :: k in registry ==>
      && (registry[k] == CompoundOr <==> k == "$or")
      && (registry[k] == CompoundNot <==> k == "$not")
      && (registry[k] == BuiltinArguments <==> k == "arguments")
  }

  // Every registered leaf answers true or false, and reports nothing itself.
  ghost predicate LeavesAnswer(r: Registries, mode: Mode) {
    forall k, v {:trigger LeafPoll(r, mode, k, v)} :: Resolvable(r, mode, k) && Resolve(r, mode, k) == Leaf ==>
      var p := LeafPoll(r, mode, k, v);
      p.Done? && p.answer.Ready? && p.answer.outcome != Unevaluable
      && p.answer.local == {} && p.answer.notes == {}
  }

  lemma BuiltinInstances(r: Registries, mode: Mode)
    requires BuiltinsInPlace(r)
    ensures forall k :: k in {"$or", "$not", "arguments"} ==> Resolvable(r, mode, k)
    ensures Resolve(r, mode, "$or") == CompoundOr && Resolve(r, mode, "$not") == CompoundNot
    ensures Resolve(r, mode, "arguments") == BuiltinArguments
    ensures InstanceMode(r, mode, "$or") == mode && InstanceMode(r, mode, "$not") == mode
    ensures forall k :: Resolvable(r, mode, k) && k !in {"$or", "$not", "arguments"} ==> Resolve(r, mode, k) == Leaf
  {
    assert "$or" in {"$or", "$not"} && "$not" in {"$or", "$not"};
  }

  lemma BranchPath(prefix: string, index: nat)
    ensures JoinPath(prefix, OrSegment(index)) == JoinPath(prefix, "$or") + "[" + Decimal.Print(index) + "]"
    ensures JoinPath(prefix, OrSegment(index)) != ""
  {
    if prefix != "" {
      calc {
        JoinPath(prefix, OrSegment(index));
        prefix + "." + ("$or[" + Decimal.Print(index) + "]");
        { assert "$or[" == "$or" + "["; }
        prefix + "." + (("$or" + "[") + Decimal.Print(index) + "]");
        (prefix + "." + "$or") + "[" + Decimal.Print(index) + "]";
      }
    } else {
      assert "$or[" == "$or" + "[";
    }
  }

  lemma PredicatePath(prefix: string, name: string)
    ensures JoinPath(prefix, "arguments." + name) == JoinPath(prefix, "arguments") + "." + name
  {
    assert "arguments." == "arguments" + ".";
    if prefix != "" {
      assert prefix + "." + ("arguments" + "." + name) == (prefix + "." + "arguments") + "." + name;
    }
  }

  // ---------------------------------------------------------------------
  // Precheck and evaluator report the same paths
  // ---------------------------------------------------------------------

  // The two paths of one branch or operand: where evaluation reports, and
  // where the precheck does, for a sub-tree that is not at the root.
  lemma BranchesAgree(r: Registries, mode: Mode, branch: Value, path: string)
    requires BuiltinsInPlace(r) && LeavesAnswer(r, mode) && r.projection.Some? && path != ""
    ensures BranchReports(r, mode, branch, path) == Paths(Faults(r, mode, branch, path))
    decreases branch, 2
  {
    if branch.Object? {
      PrecheckAgreesWithEvaluator(r, mode, branch, path);
    }
  }

  lemma ArgumentsAgree(value: Value, p: Option<GovernanceProjection>, prefix: string)
    requires p.Some?
    ensures ArgumentsReports(value, p, prefix) == Paths(ArgumentFaults(value, JoinPath(prefix, "arguments")))
  {
    forall k ensures JoinPath(prefix, "arguments." + k) == JoinPath(prefix, "arguments") + "." + k {
      PredicatePath(prefix, k);
    }
    if value.Object? && value.fields != map[] {
      var a, b := ArgumentsReports(value, p, prefix), ArgumentFaults(value, JoinPath(prefix, "arguments"));
      forall path | path in a ensures path in Paths(b) {
        var k :| k in value.fields && !WellFormedPredicate(k, value.fields[k])
                 && path == JoinPath(prefix, "arguments." + k);
        assert StructuralFault(path, Some("arguments")) in b;
      }
    }
  }

  lemma KeysAgree(r: Registries, mode: Mode, key: string, value: Value, prefix: string)
    requires BuiltinsInPlace(r) && LeavesAnswer(r, mode) && r.projection.Some?
    ensures KeyReports(r, mode, key, value, prefix) == Paths(KeyFaults(r, mode, key, value, prefix))
    decreases value, 3
  {
    BuiltinInstances(r, mode);
    if !Resolvable(r, mode, key) {
    } else if key == "$or" {
      if value.Array? {
        OrBranchesAgree(r, mode, value, prefix);
      }
    } else if key == "$not" {
      if value.Object? {
        PrecheckAgreesWithEvaluator(r, mode, value, JoinPath(prefix, "$not"));
      }
    } else if key == "arguments" {
      ArgumentsAgree(value, r.projection, prefix);
    } else {
      assert LeafPoll(r, mode, key, value).Done?;
    }
  }

  lemma OrBranchesAgree(r: Registries, mode: Mode, value: Value, prefix: string)
    requires BuiltinsInPlace(r) && LeavesAnswer(r, mode) && r.projection.Some? && value.Array?
    ensures OrReports(r, mode, value, prefix) == Paths(KeyFaults(r, mode, "$or", value, prefix))
    decreases value, 2
  {
    BuiltinInstances(r, mode);
    var faults := KeyFaults(r, mode, "$or", value, prefix);
    var path := (i: nat) => JoinPath(prefix, "$or") + "[" + Decimal.Print(i) + "]";
    forall i: nat | i < |value.items|
      ensures JoinPath(prefix, OrSegment(i)) == path(i)
      ensures BranchReports(r, mode, value.items[i], path(i)) == Paths(Faults(r, mode, value.items[i], path(i)))
    {
      BranchPath(prefix, i);
      BranchesAgree(r, mode, value.items[i], path(i));
    }
    forall p | p in OrReports(r, mode, value, prefix) ensures p in Paths(faults) {
      var i: nat :| i < |value.items| && p in BranchReports(r, mode, value.items[i], JoinPath(prefix, OrSegment(i)));
      assert p in Paths(Faults(r, mode, value.items[i], path(i)));
      var f :| f in Faults(r, mode, value.items[i], path(i)) && f.path == p;
      assert f in faults;
    }
    forall p | p in Paths(faults) ensures p in OrReports(r, mode, value, prefix) {
      var f :| f in faults && f.path == p;
      var i: nat :| i < |value.items| && f in Faults(r, mode, value.items[i], path(i));
      assert p in BranchReports(r, mode, value.items[i], JoinPath(prefix, OrSegment(i)));
    }
  }

  // The paths an evaluation reports are exactly the precheck's fault paths.
  lemma {:induction false} PrecheckAgreesWithEvaluator(r: Registries, mode: Mode, v: Value, prefix: string)
    requires BuiltinsInPlace(r) && LeavesAnswer(r, mode) && r.projection.Some? && v.Object?
    ensures Reports(r, mode, v, prefix) == Paths(Faults(r, mode, v, prefix))
    decreases v, 1
  {
    forall k | k in v.fields
      ensures KeyReports(r, mode, k, v.fields[k], prefix) == Paths(KeyFaults(r, mode, k, v.fields[k], prefix))
    {
      KeysAgree(r, mode, k, v.fields[k], prefix);
    }
    forall p | p in Reports(r, mode, v, prefix) ensures p in Paths(Faults(r, mode, v, prefix)) {
      var k :| k in v.fields && p in KeyReports(r, mode, k, v.fields[k], prefix);
      var f :| f in KeyFaults(r, mode, k, v.fields[k], prefix) && f.path == p;
      assert f in Faults(r, mode, v, prefix);
    }
    forall p | p in Paths(Faults(r, mode, v, prefix)) ensures p in Reports(r, mode, v, prefix) {
      var f :| f in Faults(r, mode, v, prefix) && f.path == p;
      var k :| k in v.fields && f in KeyFaults(r, mode, k, v.fields[k], prefix);
      assert p in KeyReports(r, mode, k, v.fields[k], prefix);
    }
  }

  // ---------------------------------------------------------------------
  // A clean precheck leaves no question unanswered
  // ---------------------------------------------------------------------

  lemma CleanMeans(r: Registries, mode: Mode, v: Value, prefix: string)
    ensures Faults(r, mode, v, prefix) == {} <==>
            v.Object? && forall k :: k in v.fields ==> KeyFaults(r, mode, k, v.fields[k], prefix) == {}
  {
    if v.Object? {
      forall k, f | k in v.fields && f in KeyFaults(r, mode, k, v.fields[k], prefix)
        ensures f in Faults(r, mode, v, prefix)
      {
      }
    } else {
      assert StructuralFault(if prefix == "" then "$" else prefix, None) in Faults(r, mode, v, prefix);
    }
  }

  lemma CleanKeyMeans(r: Registries, mode: Mode, key: string, value: Value, prefix: string)
    ensures KeyFaults(r, mode, key, value, prefix) == {} <==>
            && Resolvable(r, mode, key)
            && (key == "$or" ==> value.Array? && forall i: nat :: i < |value.items| ==>
                  Faults(r, mode, value.items[i], JoinPath(prefix, key) + "[" + Decimal.Print(i) + "]") == {})
            && (key == "$not" ==> value.Object? && Faults(r, mode, value, JoinPath(prefix, key)) == {})
            && (key == "arguments" ==>
                  (value.Object? && value.fields != map[]
                   && forall k :: k in value.fields ==> WellFormedPredicate(k, value.fields[k])))
  {
    var path := JoinPath(prefix, key);
    var faults := KeyFaults(r, mode, key, value, prefix);
    if !Resolvable(r, mode, key) {
      assert RuleFault(path, Some(key), Resolvable(r, Sync, key), Resolvable(r, Async, key)) in faults;
    } else if key == "$or" && value.Array? {
      forall i: nat, f | i < |value.items| && f in Faults(r, mode, value.items[i], path + "[" + Decimal.Print(i) + "]")
        ensures f in faults
      {
      }
    } else if key == "$or" || (key == "$not" && !value.Object?) {
      assert StructuralFault(path, Some(key)) in faults;
    } else if key == "arguments" {
      assert !value.Object? || value.fields == map[] ==> StructuralFault(path, Some("arguments")) in faults;
      if value.Object? && value.fields != map[] {
        forall k | k in value.fields && !WellFormedPredicate(k, value.fields[k])
          ensures StructuralFault(path + "." + k, Some("arguments")) in faults
        {
        }
      }
    }
  }

  lemma CleanKeyIsAnswered(r: Registries, mode: Mode, key: string, value: Value, prefix: string)
    requires BuiltinsInPlace(r) && LeavesAnswer(r, mode) && r.projection.Some?
    requires KeyFaults(r, mode, key, value, prefix) == {}
    ensures EvalKey(r, mode, key, value) != Unevaluable
    decreases value, 3
  {
    BuiltinInstances(r, mode);
    CleanKeyMeans(r, mode, key, value, prefix);
    if key == "$or" {
      forall i: nat | i < |value.items|
        ensures EvalBranch(r, mode, value.items[i]) != Unevaluable
      {
        CleanPrecheckIsAnswered(r, mode, value.items[i], JoinPath(prefix, "$or") + "[" + Decimal.Print(i) + "]");
      }
    } else if key == "$not" {
      CleanPrecheckIsAnswered(r, mode, value, JoinPath(prefix, "$not"));
    } else if key != "arguments" {
      assert LeafPoll(r, mode, key, value).Done?;
    }
  }

  lemma {:induction false} CleanPrecheckIsAnswered(r: Registries, mode: Mode, v: Value, prefix: string)
    requires BuiltinsInPlace(r) && LeavesAnswer(r, mode) && r.projection.Some?
    requires Faults(r, mode, v, prefix) == {}
    ensures v.Object? && Eval(r, mode, v) != Unevaluable
    decreases v, 1
  {
    CleanMeans(r, mode, v, prefix);
    forall k | k in v.fields
      ensures EvalKey(r, mode, k, v.fields[k]) != Unevaluable
    {
      CleanKeyIsAnswered(r, mode, k, v.fields[k], prefix);
    }
  }

  // ---------------------------------------------------------------------
  // More answers only refine an outcome
  // ---------------------------------------------------------------------

  // `b` on path `mb` knows at least what `a` on path `ma` knows: it resolves
  // every key `a` does to the same kind of handler, no leaf takes back a
  // definite answer, and a projection that was there is the same.
  ghost predicate Extends(a: Registries, ma: Mode, b: Registries, mb: Mode) {
    && (forall k {:trigger Resolvable(a, ma, k)} :: Resolvable(a, ma, k) ==>
          Resolvable(b, mb, k) && Resolve(b, mb, k) == Resolve(a, ma, k))
    && (forall k, v {:trigger LeafPoll(a, ma, k, v)} :: Resolvable(a, ma, k) && Resolve(a, ma, k) == Leaf ==>
          Refines(LeafOutcome(LeafPoll(a, ma, k, v)), LeafOutcome(LeafPoll(b, mb, k, v))))
    && (a.projection.Some? ==> b.projection == a.projection)
  }

  lemma ArgumentsMonotone(value: Value, p: Option<GovernanceProjection>, q: Option<GovernanceProjection>)
    requires p.Some? ==> q == p
    ensures Refines(ArgumentsOutcome(value, p), ArgumentsOutcome(value, q))
  {
    if value.Object? && value.fields != map[] && p.None? {
      var k :| k in value.fields;
      var children := set j | j in value.fields :: PredicateOutcome(j, value.fields[j], p);
      assert PredicateOutcome(k, value.fields[k], p) in children;
      assert Unsatisfied !in children;
    }
  }

  lemma KeyMonotone(a: Registries, ma: Mode, b: Registries, mb: Mode, key: string, value: Value)
    requires BuiltinsInPlace(a) && BuiltinsInPlace(b) && Extends(a, ma, b, mb)
    ensures Refines(EvalKey(a, ma, key, value), EvalKey(b, mb, key, value))
    decreases value, 3
  {
    BuiltinInstances(a, ma);
    BuiltinInstances(b, mb);
    if !Resolvable(a, ma, key) {
    } else if key == "$or" {
      if value.Array? {
        OrMonotone(a, ma, b, mb, value);
      }
    } else if key == "$not" {
      if value.Object? {
        EvalMonotone(a, ma, b, mb, value);
      }
    } else if key == "arguments" {
      ArgumentsMonotone(value, a.projection, b.projection);
    } else {
      assert Resolve(a, ma, key) == Leaf;
      assert Refines(LeafOutcome(LeafPoll(a, ma, key, value)), LeafOutcome(LeafPoll(b, mb, key, value)));
    }
  }

  lemma OrMonotone(a: Registries, ma: Mode, b: Registries, mb: Mode, value: Value)
    requires BuiltinsInPlace(a) && BuiltinsInPlace(b) && Extends(a, ma, b, mb) && value.Array?
    ensures Refines(EvalOr(a, ma, value), EvalOr(b, mb, value))
    decreases value, 2
  {
    forall i | 0 <= i < |value.items|
      ensures Refines(EvalBranch(a, ma, value.items[i]), EvalBranch(b, mb, value.items[i]))
    {
      if value.items[i].Object? {
        EvalMonotone(a, ma, b, mb, value.items[i]);
      }
    }
    var before := set i | 0 <= i < |value.items| :: EvalBranch(a, ma, value.items[i]);
    var after := set i | 0 <= i < |value.items| :: EvalBranch(b, mb, value.items[i]);
    if Satisfied in before {
      var i :| 0 <= i < |value.items| && EvalBranch(a, ma, value.items[i]) == Satisfied;
      assert EvalBranch(b, mb, value.items[i]) in after;
    } else if Unevaluable !in before {
      forall o | o in after ensures o == Unsatisfied {
        var i :| 0 <= i < |value.items| && EvalBranch(b, mb, value.items[i]) == o;
        assert EvalBranch(a, ma, value.items[i]) in before;
      }
    }
  }

  lemma {:induction false} EvalMonotone(a: Registries, ma: Mode, b: Registries, mb: Mode, v: Value)
    requires BuiltinsInPlace(a) && BuiltinsInPlace(b) && Extends(a, ma, b, mb) && v.Object?
    ensures Refines(Eval(a, ma, v), Eval(b, mb, v))
    decreases v, 1
  {
    forall k | k in v.fields
      ensures Refines(EvalKey(a, ma, k, v.fields[k]), EvalKey(b, mb, k, v.fields[k]))
    {
      KeyMonotone(a, ma, b, mb, k, v.fields[k]);
    }
    var before := set k | k in v.fields :: EvalKey(a, ma, k, v.fields[k]);
    var after := set k | k in v.fields :: EvalKey(b, mb, k, v.fields[k]);
    forall o | o in before ensures o == Unevaluable || o in after {
      var k :| k in v.fields && EvalKey(a, ma, k, v.fields[k]) == o;
      assert EvalKey(b, mb, k, v.fields[k]) in after;
    }
    forall o | o in after ensures Unevaluable in before || o in before {
      var k :| k in v.fields && EvalKey(b, mb, k, v.fields[k]) == o;
      assert EvalKey(a, ma, k, v.fields[k]) in before;
    }
    AllOfRefines(before, after);
  }

  // What the precheck accepts stays accepted when more keys resolve.
  lemma {:induction false} CleanPrecheckMonotone(a: Registries, ma: Mode, b: Registries, mb: Mode, v: Value,
                                                 prefix: string)
    requires BuiltinsInPlace(a) && BuiltinsInPlace(b) && Extends(a, ma, b, mb)
    requires Faults(a, ma, v, prefix) == {}
    ensures Faults(b, mb, v, prefix) == {}
    decreases v, 1
  {
    CleanMeans(a, ma, v, prefix);
    CleanMeans(b, mb, v, prefix);
    forall k | k in v.fields
      ensures KeyFaults(b, mb, k, v.fields[k], prefix) == {}
    {
      CleanKeyMonotone(a, ma, b, mb, k, v.fields[k], prefix);
    }
  }

  lemma CleanKeyMonotone(a: Registries, ma: Mode, b: Registries, mb: Mode, key: string, value: Value, prefix: string)
    requires BuiltinsInPlace(a) && BuiltinsInPlace(b) && Extends(a, ma, b, mb)
    requires KeyFaults(a, ma, key, value, prefix) == {}
    ensures KeyFaults(b, mb, key, value, prefix) == {}
    decreases value, 3
  {
    CleanKeyMeans(a, ma, key, value, prefix);
    CleanKeyMeans(b, mb, key, value, prefix);
    if key == "$or" {
      forall i: nat | i < |value.items|
        ensures Faults(b, mb, value.items[i], JoinPath(prefix, key) + "[" + Decimal.Print(i) + "]") == {}
      {
        CleanPrecheckMonotone(a, ma, b, mb, value.items[i], JoinPath(prefix, key) + "[" + Decimal.Print(i) + "]");
      }
    } else if key == "$not" {
      CleanPrecheckMonotone(a, ma, b, mb, value, JoinPath(prefix, key));
    }
  }

  // The async path knows at least what the synchronous path knows, when the
  // async registry replaces no synchronous key but the compound operators and
  // a handler that is ready at the first poll says the same when awaited.
  ghost predicate PathsConsistent(r: Registries) {
    && (forall k :: k in r.sync && k in r.async ==> k in {"$or", "$not"})
    && (forall k, v {:trigger r.polled(k, v)} :: k in r.sync && r.sync[k] == Leaf ==>
          Refines(LeafOutcome(r.polled(k, v)), LeafOutcome(Done(r.awaited(k, v)))))
  }

  lemma AsyncExtendsSync(r: Registries)
    requires BuiltinsInPlace(r) && PathsConsistent(r)
    ensures Extends(r, Sync, r, Async)
  {
    forall k | Resolvable(r, Sync, k)
      ensures Resolve(r, Async, k) == Resolve(r, Sync, k)
    {
    }
    forall k, v | Resolvable(r, Sync, k) && Resolve(r, Sync, k) == Leaf
      ensures Refines(LeafOutcome(LeafPoll(r, Sync, k, v)), LeafOutcome(LeafPoll(r, Async, k, v)))
    {
      assert Refines(LeafOutcome(r.polled(k, v)), LeafOutcome(Done(r.awaited(k, v))));
    }
  }
}
