// Evaluation of ACL condition trees and the static precheck over the same
// trees (src/acl_handlers.rs, and `evaluate_conditions` of src/acl.rs).
//
// The specification functions are order-free: a conjunction is the set of its
// children's outcomes. The methods walk the trees as the program does, in any
// order a hash map may yield, and are proved to compute those functions.
module Conditions {
  import opened Wrappers
  import opened Json
  import opened Kleene
  import opened Projection
  import Decimal

  // Which evaluation path a check runs on; also which registry's instance of
  // `$or` / `$not` is in use (src/acl_handlers.rs:958-962, 1084-1090).
  datatype Mode = Sync | Async

  datatype Handler = CompoundOr | CompoundNot | BuiltinArguments | Leaf

  // A leaf handler is opaque. What it reports on its own is either `local`, put
  // under the path being evaluated, as by an evaluation it starts itself
  // (src/acl_handlers.rs:290-292, 603), or a note whose path is its own text
  // (src/acl_handlers.rs:379-386).
  datatype Answer = Ready(outcome: ConditionOutcome, local: set<string>, notes: set<string>) | Panicked

  // What one poll of a handler's future yields on the synchronous path.
  datatype Poll = Done(answer: Answer) | Pending

  // The two process-wide registries, what the registered leaf handlers say for
  // the call being checked, and the projection of that call, if it has one.
  datatype Registries = Registries(
    sync: map<string, Handler>,
    async: map<string, Handler>,
    polled: (string, Value) -> Poll,
    awaited: (string, Value) -> Answer,
    projection: Option<GovernanceProjection>)

  predicate Resolvable(r: Registries, mode: Mode, key: string) {
    key in r.sync || (mode.Async? && key in r.async)
  }

  function Resolve(r: Registries, mode: Mode, key: string): Handler
    requires Resolvable(r, mode, key)
  {
    if mode.Async? && key in r.async then r.async[key] else r.sync[key]
  }

  // The mode of the instance found: sub-conditions are evaluated in it.
  function InstanceMode(r: Registries, mode: Mode, key: string): Mode {
    if mode.Async? && key in r.async then Async else Sync
  }

  function LeafPoll(r: Registries, mode: Mode, key: string, value: Value): Poll {
    if mode.Sync? then r.polled(key, value) else Done(r.awaited(key, value))
  }

  function LeafOutcome(p: Poll): ConditionOutcome {
    if p.Done? && p.answer.Ready? then p.answer.outcome else Unevaluable
  }

  function JoinPath(prefix: string, local: string): string {
    if prefix == "" then local else prefix + "." + local
  }

  // What a leaf that answered has reported, under the path `prefix`.
  function LeafReports(answer: Answer, prefix: string): set<string>
    requires answer.Ready?
  {
    (set l | l in answer.local :: JoinPath(prefix, l)) + answer.notes
  }

  function OrSegment(index: nat): string {
    "$or[" + Decimal.Print(index) + "]"
  }

  // ---------------------------------------------------------------------
  // The `arguments` condition
  // ---------------------------------------------------------------------

  const ARGUMENT_PREDICATES: seq<string> := ["has_key", "has_all_keys", "has_none_of"]

  function KeyNames(operand: Value): Option<seq<string>> {
    if operand.Array? && forall i | 0 <= i < |operand.items| :: operand.items[i].String? then
      Some(seq(|operand.items|, i requires 0 <= i < |operand.items| && operand.items[i].String? => operand.items[i].s))
    else
      None
  }

  predicate IsNames(operand: Value) {
    operand.Array? && forall i :: 0 <= i < |operand.items| ==> operand.items[i].String?
  }

  lemma NamesOf(operand: Value)
    ensures KeyNames(operand).Some? <==> IsNames(operand)
    ensures IsNames(operand) ==>
      && |KeyNames(operand).value| == |operand.items|
      && forall i :: 0 <= i < |operand.items| ==> KeyNames(operand).value[i] == operand.items[i].s
  {
  }

  // A predicate the operand of `arguments` may carry, in a shape that can be answered.
  predicate WellFormedPredicate(name: string, operand: Value) {
    name in ARGUMENT_PREDICATES && KeyNames(operand).Some?
  }

  predicate PredicateHolds(name: string, names: seq<string>, p: GovernanceProjection) {
    if name == "has_key" then exists k :: k in names && k in p
    else if name == "has_all_keys" then forall k :: k in names ==> k in p
    else forall k :: k in names ==> k !in p
  }

  ghost function PredicateOutcome(name: string, operand: Value, p: Option<GovernanceProjection>): ConditionOutcome {
    if !WellFormedPredicate(name, operand) || p.None? then Unevaluable
    else FromBool(PredicateHolds(name, KeyNames(operand).value, p.value))
  }

  ghost function ArgumentsOutcome(value: Value, p: Option<GovernanceProjection>): ConditionOutcome {
    if !value.Object? || value.fields == map[] then Unevaluable
    else AllOf(set k | k in value.fields :: PredicateOutcome(k, value.fields[k], p))
  }

  ghost function ArgumentsReports(value: Value, p: Option<GovernanceProjection>, prefix: string): set<string> {
    if !value.Object? || value.fields == map[] then {JoinPath(prefix, "arguments")}
    else set k | k in value.fields && (!WellFormedPredicate(k, value.fields[k]) || p.None?) ::
           JoinPath(prefix, "arguments." + k)
  }

  // ---------------------------------------------------------------------
  // What a condition tree means
  // ---------------------------------------------------------------------

  ghost function Eval(r: Registries, mode: Mode, v: Value): ConditionOutcome
    requires v.Object?
    decreases v, 1
  {
    AllOf(set k | k in v.fields :: EvalKey(r, mode, k, v.fields[k]))
  }

  ghost function EvalKey(r: Registries, mode: Mode, key: string, value: Value): ConditionOutcome
    decreases value, 3
  {
    if !Resolvable(r, mode, key) then Unevaluable
    else match Resolve(r, mode, key)
      case CompoundOr => EvalOr(r, InstanceMode(r, mode, key), value)
      case CompoundNot =>
        if value.Object? then Eval(r, InstanceMode(r, mode, key), value).Negate() else Unevaluable
      case BuiltinArguments => ArgumentsOutcome(value, r.projection)
      case Leaf => LeafOutcome(LeafPoll(r, mode, key, value))
  }

  ghost function EvalOr(r: Registries, mode: Mode, value: Value): ConditionOutcome
    decreases value, 2
  {
    if value.Array? then AnyOf(set i | 0 <= i < |value.items| :: EvalBranch(r, mode, value.items[i]))
    else Unevaluable
  }

  ghost function EvalBranch(r: Registries, mode: Mode, branch: Value): ConditionOutcome
    decreases branch, 2
  {
    if branch.Object? then Eval(r, mode, branch) else Unevaluable
  }

  // The paths evaluation reports as unevaluable, under the path `prefix`.
  ghost function Reports(r: Registries, mode: Mode, v: Value, prefix: string): set<string>
    requires v.Object?
    decreases v, 1
  {
    set k, p | k in v.fields && p in KeyReports(r, mode, k, v.fields[k], prefix) :: p
  }

  ghost function KeyReports(r: Registries, mode: Mode, key: string, value: Value, prefix: string): set<string>
    decreases value, 3
  {
    if !Resolvable(r, mode, key) then {JoinPath(prefix, key)}
    else match Resolve(r, mode, key)
      case CompoundOr => OrReports(r, InstanceMode(r, mode, key), value, prefix)
      case CompoundNot =>
        if value.Object? then Reports(r, InstanceMode(r, mode, key), value, JoinPath(prefix, "$not"))
        else {JoinPath(prefix, "$not")}
      case BuiltinArguments => ArgumentsReports(value, r.projection, prefix)
      case Leaf =>
        var p := LeafPoll(r, mode, key, value);
        if p.Done? && p.answer.Ready? then LeafReports(p.answer, prefix) else {JoinPath(prefix, key)}
  }

  ghost function OrReports(r: Registries, mode: Mode, value: Value, prefix: string): set<string>
    decreases value, 2
  {
    if value.Array? then
      set i, p | 0 <= i < |value.items|
                 && p in BranchReports(r, mode, value.items[i], JoinPath(prefix, OrSegment(i))) :: p
    else {JoinPath(prefix, "$or")}
  }

  ghost function BranchReports(r: Registries, mode: Mode, branch: Value, prefix: string): set<string>
    decreases branch, 2
  {
    if branch.Object? then Reports(r, mode, branch, prefix) else {prefix}
  }

  // ---------------------------------------------------------------------
  // The precheck
  // ---------------------------------------------------------------------

  datatype RuleFault = RuleFault(path: string, key: Option<string>, syncResolvable: bool, asyncResolvable: bool)

  function StructuralFault(path: string, key: Option<string>): RuleFault {
    RuleFault(path, key, false, false)
  }

  ghost function Faults(r: Registries, mode: Mode, v: Value, prefix: string): set<RuleFault>
    decreases v, 1
  {
    if v.Object? then set k, f | k in v.fields && f in KeyFaults(r, mode, k, v.fields[k], prefix) :: f
    else {StructuralFault(if prefix == "" then "$" else prefix, None)}
  }

  ghost function KeyFaults(r: Registries, mode: Mode, key: string, value: Value, prefix: string): set<RuleFault>
    decreases value, 3
  {
    var path := JoinPath(prefix, key);
    if !Resolvable(r, mode, key) then
      {RuleFault(path, Some(key), Resolvable(r, Sync, key), Resolvable(r, Async, key))}
    else if key == "$or" then
      if value.Array? then
        set i, f | 0 <= i < |value.items|
                   && f in Faults(r, mode, value.items[i], path + "[" + Decimal.Print(i) + "]") :: f
      else {StructuralFault(path, Some(key))}
    else if key == "$not" then
      if value.Object? then Faults(r, mode, value, path) else {StructuralFault(path, Some(key))}
    else if key == "arguments" then ArgumentFaults(value, path)
    else {}
  }

  ghost function ArgumentFaults(value: Value, path: string): set<RuleFault> {
    if !value.Object? || value.fields == map[] then {StructuralFault(path, Some("arguments"))}
    else set k | k in value.fields && !WellFormedPredicate(k, value.fields[k]) ::
           StructuralFault(path + "." + k, Some("arguments"))
  }

  ghost function Paths(faults: set<RuleFault>): set<string> {
    set f | f in faults :: f.path
  }
}
