// One governed call: the standard steps in their order (src/builtin_steps.rs),
// with the access check and the approval gate in full, the other steps as
// opaque answers of the world around them.
module Pipeline {
  import opened Acl
  import opened AclDecision
  import opened AclLaws
  import opened AclRules
  import opened Conditions
  import opened Json
  import opened Projection
  import opened Wrappers

  datatype Annotations = Annotations(requiresApproval: bool, destructive: bool)

  datatype Module = Module(annotations: Annotations)

  datatype PolicyDecision = PolicyDecision(needsApproval: bool, destructive: bool)

  // ExecutionPolicy, opaque but for its strictness.
  datatype Policy = Policy(strict: bool, resolve: (Option<Annotations>, Value) -> PolicyDecision)

  datatype ApprovalResult = ApprovalResult(status: string, approvalId: Option<string>)

  datatype ApprovalHandler = ApprovalHandler(
    check: string -> Result<ApprovalResult, StepError>,
    request: (Value, Annotations) -> Result<ApprovalResult, StepError>)

  datatype StepError =
    | ExecutionCancelled
    | CallChainRefused
    | ModuleNotFound
    | ModuleDisabled
    | ACLDenied
    | InvalidToken
    | ApprovalDenied
    | ApprovalTimeout
    | ApprovalPending(approvalId: Option<string>)
    | InvalidInput
    | InvalidOutput
    | Other(code: string)

  // Everything a call meets besides its own inputs.
  datatype World = World(
    call: Call,
    chainRefused: bool,
    cancelledAtGuard: bool,
    cancelledAtExecute: bool,
    lookup: Result<Option<Module>, StepError>,
    enabled: bool,
    descriptor: Option<Annotations>,
    policy: Option<Policy>,
    handler: Option<ApprovalHandler>,
    before: Value -> Result<Value, StepError>,
    // Some middleware is registered.
    watched: bool,
    inputFits: Value -> bool,
    deadline: Option<StepError>,
    body: Value -> Result<Value, StepError>,
    outputFits: Value -> bool,
    after: (Value, Value) -> Result<Value, StepError>)

  // ---------------------------------------------------------------------
  // What governs a call
  // ---------------------------------------------------------------------

  // ModuleAnnotations::governance_union (src/module.rs:497-509).
  function GovernanceUnion(live: Option<Annotations>, descriptor: Option<Annotations>): Option<Annotations> {
    if live.None? then descriptor
    else if descriptor.None? then live
    else
      Some(Annotations(
             live.value.requiresApproval || descriptor.value.requiresApproval,
             live.value.destructive || descriptor.value.destructive))
  }

  // Two declarations ask for what either asks for; one alone stands.
  lemma UnionAsksForBoth(live: Annotations, descriptor: Annotations)
    ensures GovernanceUnion(Some(live), Some(descriptor)) ==
            Some(Annotations(live.requiresApproval || descriptor.requiresApproval,
                             live.destructive || descriptor.destructive))
    ensures GovernanceUnion(None, Some(descriptor)) == Some(descriptor)
    ensures GovernanceUnion(Some(live), None) == Some(live) && GovernanceUnion(None, None) == None
  {
  }

  function Declared(w: World, live: Option<Module>): Option<Annotations> {
    GovernanceUnion(if live.None? then None else Some(live.value.annotations), w.descriptor)
  }

  // What the policy makes of the declared annotations; without one they stand.
  function Effective(w: World, live: Option<Module>, arguments: Value): PolicyDecision {
    var declared := Declared(w, live);
    if w.policy.Some? then w.policy.value.resolve(declared, arguments)
    else PolicyDecision(declared.Some? && declared.value.requiresApproval, declared.Some? && declared.value.destructive)
  }

  predicate NeedsApproval(w: World, live: Option<Module>, aclRequires: bool, arguments: Value) {
    Effective(w, live, arguments).needsApproval || aclRequires
  }

  // When approval is needed: the ACL asks for it, or the policy does on seeing
  // the union of both declarations, or without a policy either declaration does.
  lemma ApprovalIsNeeded(w: World, live: Option<Module>, aclRequires: bool, arguments: Value)
    ensures w.policy.None? ==>
      (NeedsApproval(w, live, aclRequires, arguments) <==>
       || aclRequires
       || (live.Some? && live.value.annotations.requiresApproval)
       || (w.descriptor.Some? && w.descriptor.value.requiresApproval))
    ensures w.policy.Some? && live.Some? && w.descriptor.Some? ==>
      var a, b := live.value.annotations, w.descriptor.value;
      var declared := Annotations(a.requiresApproval || b.requiresApproval, a.destructive || b.destructive);
      (NeedsApproval(w, live, aclRequires, arguments) <==>
       aclRequires || w.policy.value.resolve(Some(declared), arguments).needsApproval)
    ensures w.policy.Some? && live.Some? && w.descriptor.None? ==>
      (NeedsApproval(w, live, aclRequires, arguments) <==>
       aclRequires || w.policy.value.resolve(Some(live.value.annotations), arguments).needsApproval)
    ensures w.policy.Some? && live.None? ==>
      (NeedsApproval(w, live, aclRequires, arguments) <==>
       aclRequires || w.policy.value.resolve(w.descriptor, arguments).needsApproval)
  {
  }

  predicate HasToken(inputs: Value) {
    inputs.Object? && APPROVAL_TOKEN_KEY in inputs.fields
  }

  predicate TokenReadable(inputs: Value) {
    HasToken(inputs) ==> inputs.fields[APPROVAL_TOKEN_KEY].String?
  }

  predicate Strict(w: World) {
    w.policy.Some? && w.policy.value.strict
  }

  // Who is asked, and what: the handler, about the caller's token, or with a
  // new request that names the requirement and never shows the token.
  function Ruling(w: World, live: Option<Module>, inputs: Value): Result<ApprovalResult, StepError>
    requires w.handler.Some? && TokenReadable(inputs)
  {
    if HasToken(inputs) then w.handler.value.check(inputs.fields[APPROVAL_TOKEN_KEY].s)
    else if live.None? then Err(ModuleNotFound)
    else
      w.handler.value.request(StripToken(inputs), Annotations(true, Effective(w, live, StripToken(inputs)).destructive))
  }

  predicate SaysApproved(answer: Result<ApprovalResult, StepError>) {
    answer.Ok? && answer.value.status == "approved"
  }

  predicate Approved(w: World, live: Option<Module>, inputs: Value)
    requires w.handler.Some? && TokenReadable(inputs)
  {
    SaysApproved(Ruling(w, live, inputs))
  }

  // What a refused caller is told: the handler's own failure, that it may come
  // back with an approval id, that nobody answered in time, or no.
  predicate Tells(answer: Result<ApprovalResult, StepError>, error: StepError) {
    match answer
    case Err(e) => error == e
    case Ok(result) =>
      && (error.ApprovalPending? <==> result.status == "pending")
      && (error.ApprovalPending? ==> error.approvalId == result.approvalId)
      && (error == ApprovalTimeout <==> result.status == "timeout")
      && (error == ApprovalDenied <==> result.status !in {"pending", "timeout", "approved"})
  }

  // When the gate lets a call through.
  predicate GateOpens(w: World, live: Option<Module>, aclRequires: bool, inputs: Value) {
    && TokenReadable(inputs)
    && (NeedsApproval(w, live, aclRequires, StripToken(inputs)) ==>
          if w.handler.None? then !Strict(w) else Approved(w, live, inputs))
  }

  predicate Found(w: World) {
    w.lookup.Ok? && w.lookup.value.Some? && w.enabled
  }

  // The access decision for a call: the ACL's on its asynchronous path, or
  // free passage where none is configured.
  ghost predicate Verdict(rules: Option<seq<ACLRule>>, defaultEffect: string, call: Call, inputs: Value,
                          d: AccessDecision) {
    if rules.None? then d == AccessDecision("allow", false, None, ByNoRules)
    else IsDecision(d, rules.value, Outcomes(rules.value, CallWith(call, inputs), Async), defaultEffect)
  }

  lemma VerdictIsUnique(rules: Option<seq<ACLRule>>, defaultEffect: string, call: Call, inputs: Value)
    ensures exists d :: Verdict(rules, defaultEffect, call, inputs, d)
    ensures forall d, e ::
      Verdict(rules, defaultEffect, call, inputs, d) && Verdict(rules, defaultEffect, call, inputs, e) ==> d == e
  {
    if rules.None? {
      assert Verdict(rules, defaultEffect, call, inputs, AccessDecision("allow", false, None, ByNoRules));
    } else {
      var outs := Outcomes(rules.value, CallWith(call, inputs), Async);
      DecisionIsUnique(rules.value, outs, defaultEffect);
      var d :| IsDecision(d, rules.value, outs, defaultEffect);
      assert Verdict(rules, defaultEffect, call, inputs, d);
    }
  }

  // Exactly when the call gets past the access check and the gate.
  predicate Passes(w: World, d: AccessDecision, inputs: Value) {
    && !w.cancelledAtGuard && !w.chainRefused && Found(w)
    && d.IsAllowed()
    && GateOpens(w, w.lookup.value, d.approvalRequired, inputs)
  }

  // What the steps behind the gate ask before the module's code is run.
  predicate BodyRuns(w: World, inputs: Value) {
    w.before(inputs).Ok? && w.inputFits(w.before(inputs).value) && w.deadline.None? && !w.cancelledAtExecute
  }

  // Exactly when the module's code is run.
  predicate Runs(w: World, d: AccessDecision, inputs: Value) {
    Passes(w, d, inputs) && BodyRuns(w, StripToken(inputs))
  }

  // ---------------------------------------------------------------------
  // What happens during a call, in order
  // ---------------------------------------------------------------------

  // The handler is asked about the caller's token, or sent a new request.
  datatype Question = AboutToken(token: string) | NewRequest(arguments: Value, annotations: Annotations)

  datatype Event = Asked(question: Question, answer: Result<ApprovalResult, StepError>) | Ran(inputs: Value)

  function RanOn(log: seq<Event>): Option<Value> {
    if log != [] && log[|log| - 1].Ran? then Some(log[|log| - 1].inputs) else None
  }

  // A question the gate may ask for these inputs, and the handler's answer. A
  // token is asked about only if the caller brought it, and a new request
  // says what is required and never shows a token.
  predicate IsAnswered(w: World, inputs: Value, event: Event) {
    event.Asked? && w.handler.Some? &&
    match event.question
    case AboutToken(token) =>
      && HasToken(inputs) && inputs.fields[APPROVAL_TOKEN_KEY] == Value.String(token)
      && event.answer == w.handler.value.check(token)
    case NewRequest(arguments, annotations) =>
      && !HasToken(inputs) && !HasToken(arguments) && arguments == StripToken(inputs) && annotations.requiresApproval
      && event.answer == w.handler.value.request(arguments, annotations)
  }

  predicate IsApproval(event: Event) {
    event.Asked? && SaysApproved(event.answer)
  }

  predicate Gated(w: World, d: AccessDecision, inputs: Value) {
    Found(w) && NeedsApproval(w, w.lookup.value, d.approvalRequired, StripToken(inputs))
  }

  // The history of one call: the handler is asked once at most, and only about
  // an allowed call that needs approval; the code is run once at most and
  // last, never behind a refusal, and in a gated call that a handler can rule
  // on only behind an approval.
  predicate IsHistory(w: World, d: AccessDecision, inputs: Value, log: seq<Event>) {
    && |log| <= 2
    && (forall i :: 0 <= i < |log| ==>
          if log[i].Ran? then i == |log| - 1 && d.IsAllowed()
          else
            && i == 0 && !w.cancelledAtGuard && !w.chainRefused && d.IsAllowed()
            && Gated(w, d, inputs) && IsAnswered(w, inputs, log[i]))
    && (RanOn(log).Some? && (|log| == 2 || (w.handler.Some? && Gated(w, d, inputs))) ==> IsApproval(log[0]))
  }

  // At most one question, put to the handler about an allowed call, is a history,
  // and so is a run of the code behind it if the gate has opened.
  lemma HistoryAtTheGate(w: World, d: AccessDecision, inputs: Value, log: seq<Event>, passed: bool, ran: Value)
    requires !w.cancelledAtGuard && !w.chainRefused && d.IsAllowed() && Found(w)
    requires log == [] || (|log| == 1 && IsAnswered(w, inputs, log[0]) && Gated(w, d, inputs))
    requires passed ==> if log == [] then w.handler.None? || !Gated(w, d, inputs) else IsApproval(log[0])
    ensures IsHistory(w, d, inputs, log) && RanOn(log).None?
    ensures passed ==> IsHistory(w, d, inputs, log + [Ran(ran)])
  {
  }

  // One run of the strategy is ruled on by its own verdict: the code runs
  // exactly when everything that governs it says so, the log is a history under
  // that verdict, and middleware has run only behind the gate.
  ghost predicate IsRuled(rules: Option<seq<ACLRule>>, defaultEffect: string, w: World, inputs: Value,
                          log: seq<Event>, executed: bool) {
    exists d ::
      && Verdict(rules, defaultEffect, w.call, inputs, d)
      && (RanOn(log).Some? <==> Runs(w, d, inputs)) && IsHistory(w, d, inputs, log)
      && (executed <==> Passes(w, d, inputs) && w.watched)
  }

  // ---------------------------------------------------------------------
  // The steps
  // ---------------------------------------------------------------------

  class PipelineContext {
    var world: World
    const acl: Option<ACL>
    var inputs: Value
    var live: Option<Module>
    var governanceProjection: Option<GovernanceProjection>
    var aclApprovalRequired: bool
    var output: Option<Value>
    // Some middleware has run, and may react to an error.
    var executed: bool
    // What has been asked of the handler, and what the module's code has been
    // run on.
    ghost var log: seq<Event>

    constructor (world: World, acl: Option<ACL>, inputs: Value)
      ensures this.world == world && this.acl == acl && this.inputs == inputs && log == [] && live.None?
      ensures !aclApprovalRequired && governanceProjection.None? && output.None? && !executed
    {
      this.world, this.acl, this.inputs := world, acl, inputs;
      live, governanceProjection, aclApprovalRequired, output, executed, log := None, None, false, None, false, [];
    }

    method CallChainGuard() returns (r: Result<(), StepError>)
      ensures r.Ok? <==> !world.cancelledAtGuard && !world.chainRefused
      ensures r == Err(ExecutionCancelled) <==> world.cancelledAtGuard
    {
      r := if world.cancelledAtGuard then Err(ExecutionCancelled)
           else if world.chainRefused then Err(CallChainRefused) else Ok(());
    }

    method ModuleLookup() returns (r: Result<(), StepError>)
      modifies this`live, this`governanceProjection
      ensures r.Ok? <==> Found(world)
      ensures r ==
              match world.lookup
              case Err(e) => Err(e)
              case Ok(None) => Err(ModuleNotFound)
              case Ok(Some(_)) => if world.enabled then Ok(()) else Err(ModuleDisabled)
      ensures r.Ok? ==> live == world.lookup.value && governanceProjection == Some(FromArguments(inputs))
    {
      match world.lookup
      case Err(e) => return Err(e);
      case Ok(None) => return Err(ModuleNotFound);
      case Ok(Some(found)) =>
        if !world.enabled {
          return Err(ModuleDisabled);
        }
        live := Some(found);
        governanceProjection := Some(FromArguments(inputs));
        r := Ok(());
    }

    method ACLCheck() returns (r: Result<(), StepError>)
      requires acl.Some? ==> acl.value.Valid()
      requires governanceProjection == Some(FromArguments(inputs)) && (acl.None? ==> !aclApprovalRequired)
      modifies this`aclApprovalRequired, if acl.Some? then {acl.value} else {}
      ensures acl.Some? ==>
        && acl.value.Valid() && acl.value.rules == old(acl.value.rules)
        && acl.value.defaultEffect == old(acl.value.defaultEffect)
      ensures exists d ::
                && Verdict(Rules(), Default(), world.call, inputs, d)
                && (r.Ok? <==> d.IsAllowed()) && aclApprovalRequired == d.approvalRequired
      ensures r.Err? ==> r.error == ACLDenied
    {
      if acl.None? {
        assert Verdict(Rules(), Default(), world.call, inputs, AccessDecision("allow", false, None, ByNoRules));
        return Ok(());
      }
      var call := world.call.(registries := world.call.registries.(projection := governanceProjection));
      var d := acl.value.AsyncCheckAccess(call);
      aclApprovalRequired := d.approvalRequired;
      assert Verdict(Rules(), Default(), world.call, inputs, d);
      r := if d.IsAllowed() then Ok(()) else Err(ACLDenied);
    }

    ghost function Rules(): Option<seq<ACLRule>>
      reads this, if acl.Some? then {acl.value} else {}
    {
      if acl.Some? then Some(acl.value.rules) else None
    }

    ghost function Default(): string
      reads this, if acl.Some? then {acl.value} else {}
    {
      if acl.Some? then acl.value.defaultEffect else ""
    }

    // The token is gone from the inputs whether or not it is readable.
    method TakeApprovalToken() returns (r: Result<Option<string>, StepError>)
      modifies this`inputs
      ensures inputs == StripToken(old(inputs)) && !HasToken(inputs)
      ensures r.Ok? <==> TokenReadable(old(inputs))
      ensures r == if old(inputs).Object? && "_approval_token" in old(inputs).fields then
                     match old(inputs).fields["_approval_token"]
                     case String(s) => Ok(Some(s))
                     case _ => Err(InvalidToken)
                   else Ok(None)
      ensures r.Ok? ==> (r.value.Some? <==> HasToken(old(inputs)))
      ensures r.Ok? && r.value.Some? ==> old(inputs).fields[APPROVAL_TOKEN_KEY] == Value.String(r.value.value)
      ensures r.Err? ==> r.error == InvalidToken
    {
      if !inputs.Object? || APPROVAL_TOKEN_KEY !in inputs.fields {
        assert inputs.Object? ==> inputs.fields - {APPROVAL_TOKEN_KEY} == inputs.fields;
        return Ok(None);
      }
      var token := inputs.fields[APPROVAL_TOKEN_KEY];
      inputs := Object(inputs.fields - {APPROVAL_TOKEN_KEY});
      r := if token.String? then Ok(Some(token.s)) else Err(InvalidToken);
    }

    method ApprovalGate() returns (r: Result<(), StepError>)
      modifies this`inputs, this`log
      ensures inputs == StripToken(old(inputs)) && !HasToken(inputs)
      ensures r.Ok? <==> GateOpens(world, Resolved(live), aclApprovalRequired, old(inputs))
      ensures r.Err? && !TokenReadable(old(inputs)) ==> r.error == InvalidToken
      ensures r.Err? && TokenReadable(old(inputs)) ==>
                if world.handler.None? then r.error == ApprovalDenied
                else Tells(Ruling(world, Resolved(live), old(inputs)), r.error)
      ensures log == old(log) || exists event ::
                && log == old(log) + [event] && IsAnswered(world, old(inputs), event)
                && NeedsApproval(world, Resolved(live), aclApprovalRequired, inputs) && (r.Ok? <==> IsApproval(event))
      ensures TokenReadable(old(inputs)) && !NeedsApproval(world, Resolved(live), aclApprovalRequired, inputs) ==> r.Ok?
      ensures TokenReadable(old(inputs)) && NeedsApproval(world, Resolved(live), aclApprovalRequired, inputs)
              && world.handler.None? ==>
                r == if world.policy.Some? && world.policy.value.strict then Err(ApprovalDenied) else Ok(())
      ensures log != old(log) ==>
        r == match log[|log| - 1].answer
             case Err(e) => Err(e)
             case Ok(ApprovalResult("approved", _)) => Ok(())
             case Ok(ApprovalResult("timeout", _)) => Err(ApprovalTimeout)
             case Ok(ApprovalResult("pending", id)) => Err(ApprovalPending(id))
             case Ok(_) => Err(ApprovalDenied)
      ensures r.Ok? && log == old(log) ==>
                world.handler.None? || !NeedsApproval(world, Resolved(live), aclApprovalRequired, inputs)
    {
      var token :- TakeApprovalToken();
      var found := Resolved(live);
      var decision := Effective(world, found, inputs);
      if !(decision.needsApproval || aclApprovalRequired) {
        return Ok(());
      }
      if world.handler.None? {
        return if Strict(world) then Err(ApprovalDenied) else Ok(());
      }
      var result: ApprovalResult;
      if token.Some? {
        log := log + [Asked(AboutToken(token.value), world.handler.value.check(token.value))];
        result :- world.handler.value.check(token.value);
      } else if found.None? {
        return Err(ModuleNotFound);
      } else {
        var annotations := Annotations(true, decision.destructive);
        log := log + [Asked(NewRequest(inputs, annotations), world.handler.value.request(inputs, annotations))];
        result :- world.handler.value.request(inputs, annotations);
      }
      r := if result.status == "approved" then Ok(())
           else if result.status == "timeout" then Err(ApprovalTimeout)
           else if result.status == "pending" then Err(ApprovalPending(result.approvalId))
           else Err(ApprovalDenied);
    }

    // The module found by Step 3, or what the registry answers when the gate
    // is driven on its own.
    function Resolved(live: Option<Module>): Option<Module>
      reads this`world
    {
      if live.Some? then live else if world.lookup.Ok? then world.lookup.value else None
    }

    // An error of a middleware is reacted to like any later one: the failing
    // middleware counts as executed.
    method MiddlewareBefore() returns (r: Result<(), StepError>)
      modifies this`inputs, this`executed
      ensures executed == world.watched
      ensures r.Ok? <==> world.before(old(inputs)).Ok?
      ensures inputs == if r.Ok? then world.before(old(inputs)).value else old(inputs)
    {
      executed := world.watched;
      inputs :- world.before(inputs);
      r := Ok(());
    }

    method Execute() returns (r: Result<(), StepError>)
      requires live.Some?
      modifies this`output, this`log
      ensures log == old(log) + if world.deadline.None? && !world.cancelledAtExecute then [Ran(inputs)] else []
      ensures r.Ok? ==> RanOn(log) == Some(inputs) && output.Some? && world.body(inputs) == Ok(output.value)
      ensures r.Ok? ==> world.deadline.None? && !world.cancelledAtExecute
    {
      if world.deadline.Some? {
        return Err(world.deadline.value);
      }
      if world.cancelledAtExecute {
        return Err(ExecutionCancelled);
      }
      log := log + [Ran(inputs)];
      var result :- world.body(inputs);
      output := Some(result);
      r := Ok(());
    }

    // Steps 2 to 5: what is asked before anything is run. The requirement the
    // ACL left in the context is that of a run before this one, if any.
    method Govern(ghost d: AccessDecision) returns (r: Result<(), StepError>)
      requires acl.Some? ==> acl.value.Valid()
      requires log == [] && live.None? && (acl.None? ==> !aclApprovalRequired)
      requires Verdict(Rules(), Default(), world.call, inputs, d)
      modifies this`inputs, this`live, this`governanceProjection, this`aclApprovalRequired, this`log,
               if acl.Some? then {acl.value} else {}
      ensures acl.Some? ==> acl.value.Valid()
      ensures Rules() == old(Rules()) && Default() == old(Default()) && (acl.None? ==> !aclApprovalRequired)
      ensures r.Ok? <==> Passes(world, d, old(inputs))
      ensures r.Ok? ==> live.Some? && inputs == StripToken(old(inputs))
      ensures |log| <= 1 && IsHistory(world, d, old(inputs), log) && RanOn(log).None?
      ensures r.Ok? ==> IsHistory(world, d, old(inputs), log + [Ran(inputs)])
    {
      var _ :- CallChainGuard();
      var _ :- ModuleLookup();
      VerdictIsUnique(Rules(), Default(), world.call, inputs);
      var _ :- ACLCheck();
      ghost var given := inputs;
      r := ApprovalGate();
      HistoryAtTheGate(world, d, given, log, r.Ok?, inputs);
    }

    // Steps 6 to 11.
    method Perform() returns (r: Result<Value, StepError>)
      requires live.Some?
      modifies this`inputs, this`output, this`executed, this`log
      ensures executed == world.watched
      ensures log == old(log) + if BodyRuns(world, old(inputs)) then [Ran(world.before(old(inputs)).value)] else []
      ensures r.Ok? ==>
        && BodyRuns(world, old(inputs))
        && var ran := world.before(old(inputs)).value;
           world.body(ran).Ok? && world.outputFits(world.body(ran).value)
           && world.after(ran, world.body(ran).value) == r
    {
      var _ :- MiddlewareBefore();
      if !world.inputFits(inputs) {
        return Err(InvalidInput);
      }
      var _ :- Execute();
      if !world.outputFits(output.value) {
        return Err(InvalidOutput);
      }
      var result :- world.after(inputs, output.value);
      output := Some(result);
      r := Ok(result);
    }

    // The standard strategy (src/builtin_steps.rs:1419-1451): the steps in
    // order, stopped by the first error.
    method Run() returns (r: Result<Value, StepError>)
      requires acl.Some? ==> acl.value.Valid()
      requires log == [] && live.None? && !executed && (acl.None? ==> !aclApprovalRequired)
      modifies this`inputs, this`live, this`governanceProjection, this`aclApprovalRequired, this`output,
               this`executed, this`log, if acl.Some? then {acl.value} else {}
      ensures acl.Some? ==> acl.value.Valid()
      ensures Rules() == old(Rules()) && Default() == old(Default()) && (acl.None? ==> !aclApprovalRequired)
      ensures IsRuled(old(Rules()), old(Default()), world, old(inputs), log, executed)
      ensures RanOn(log).Some? ==> world.before(StripToken(old(inputs))) == Ok(RanOn(log).value)
      ensures r.Ok? ==> RanOn(log).Some? && world.body(RanOn(log).value).Ok?
      ensures r.Ok? ==> world.outputFits(world.body(RanOn(log).value).value)
      ensures r.Ok? ==> world.after(RanOn(log).value, world.body(RanOn(log).value).value) == r
    {
      VerdictIsUnique(Rules(), Default(), world.call, inputs);
      ghost var d :| Verdict(Rules(), Default(), world.call, inputs, d);
      var _ :- Govern(d);
      r := Perform();
    }
  }

  // ---------------------------------------------------------------------
  // What governs cannot be got around
  // ---------------------------------------------------------------------

  // What the handler is asked: about the caller's token if there is one, else
  // with a request that carries the arguments without the token, asks for
  // approval, and is marked destructive as the policy or the declarations say.
  lemma HandlerIsAsked(w: World, live: Module, inputs: Value)
    requires w.handler.Some?
    ensures inputs.Object? && "_approval_token" in inputs.fields && inputs.fields["_approval_token"].String? ==>
      TokenReadable(inputs)
      && Ruling(w, Some(live), inputs) == w.handler.value.check(inputs.fields["_approval_token"].s)
    ensures !(inputs.Object? && "_approval_token" in inputs.fields) ==>
      var destructive :=
        match w.policy
        case Some(policy) => policy.resolve(GovernanceUnion(Some(live.annotations), w.descriptor), inputs).destructive
        case None => live.annotations.destructive || (w.descriptor.Some? && w.descriptor.value.destructive);
      TokenReadable(inputs)
      && Ruling(w, Some(live), inputs) == w.handler.value.request(inputs, Annotations(true, destructive))
  {
    assert !HasToken(inputs) ==> StripToken(inputs) == inputs by {
      assert inputs.Object? && !HasToken(inputs) ==> inputs.fields - {APPROVAL_TOKEN_KEY} == inputs.fields;
    }
  }

  // Exactly when module code is run, all in all: nobody has cancelled, the
  // module may be called from here, is there and is enabled, the ACL allows,
  // any token is a string, approval is not needed or given or nobody could give
  // it and no strict policy minds, and the steps behind agree.
  lemma RunsExactlyWhen(w: World, d: AccessDecision, inputs: Value)
    ensures Runs(w, d, inputs) <==>
            && !w.cancelledAtGuard && !w.cancelledAtExecute && !w.chainRefused && w.deadline.None?
            && w.lookup.Ok? && w.lookup.value.Some? && w.enabled && d.access == "allow"
            && (inputs.Object? && "_approval_token" in inputs.fields ==> inputs.fields["_approval_token"].String?)
            && (NeedsApproval(w, w.lookup.value, d.approvalRequired, StripToken(inputs)) ==>
                  match w.handler
                  case None => w.policy.Some? ==> !w.policy.value.strict
                  case Some(_) =>
                    var ruling := Ruling(w, w.lookup.value, inputs);
                    ruling.Ok? && ruling.value.status == "approved")
            && match w.before(StripToken(inputs))
               case Err(_) => false
               case Ok(passed) => w.inputFits(passed)
  {
  }

  // Without an ACL every call is allowed, with no approval; with one, its
  // asynchronous decision on the projected arguments is the verdict.
  lemma VerdictIs(rules: Option<seq<ACLRule>>, defaultEffect: string, call: Call, inputs: Value, d: AccessDecision)
    requires Verdict(rules, defaultEffect, call, inputs, d)
    ensures rules.None? ==> d.access == "allow" && !d.approvalRequired
    ensures rules.Some? ==>
      var projected := call.registries.(projection := Some(FromArguments(inputs)));
      IsDecision(d, rules.value, Outcomes(rules.value, call.(registries := projected), Async), defaultEffect)
  {
  }

  // Module code runs only where the ACL allowed the call; and if the ACL asks
  // for approval, or the policy does, or without a policy either declaration
  // of the module does, then only behind an approving answer to the one
  // question put to the handler, or with nobody to ask and no strict policy.
  // No policy takes the ACL's requirement away.
  lemma GovernedExecution(w: World, d: AccessDecision, inputs: Value, log: seq<Event>, n: nat)
    requires IsHistory(w, d, inputs, log) && (RanOn(log).Some? ==> Runs(w, d, inputs)) && n < |log| && log[n].Ran?
    requires
      || d.approvalRequired
      || (w.policy.Some? && w.policy.value.resolve(Declared(w, w.lookup.value), StripToken(inputs)).needsApproval)
      || (w.policy.None? && w.lookup.Ok? && w.lookup.value.Some? && w.lookup.value.value.annotations.requiresApproval)
      || (w.policy.None? && w.descriptor.Some? && w.descriptor.value.requiresApproval)
    ensures d.IsAllowed()
    ensures w.handler.None? ==> n == 0 && (w.policy.Some? ==> !w.policy.value.strict)
    ensures w.handler.Some? ==>
      && n == 1 && IsAnswered(w, inputs, log[0])
      && log[0].Asked? && log[0].answer.Ok? && log[0].answer.value.status == "approved"
  {
    assert Gated(w, d, inputs);
  }

  // Taking an approval requirement of the ACL away never stops a call.
  lemma LessRequiredStillRuns(w: World, d: AccessDecision, e: AccessDecision, inputs: Value)
    requires Runs(w, d, inputs) && e.IsAllowed() && (e.approvalRequired ==> d.approvalRequired)
    ensures Runs(w, e, inputs)
  {
  }

  lemma RunsReadsOnlyTheVerdict(w: World, v: World, d: AccessDecision, inputs: Value)
    requires v == w.(call := v.call)
    ensures Runs(w, d, inputs) <==> Runs(v, d, inputs)
  {
  }

  lemma VerdictSurvivesMoreAnswers(
      rules: seq<ACLRule>, defaultEffect: string, a: Call, b: Call, inputs: Value, d: AccessDecision, e: AccessDecision)
    requires Acceptable(rules, defaultEffect)
    requires SameQuestion(CallWith(a, inputs), Async, CallWith(b, inputs), Async)
    requires Verdict(Some(rules), defaultEffect, a, inputs, d) && Verdict(Some(rules), defaultEffect, b, inputs, e)
    ensures d.IsAllowed() ==> e.IsAllowed() && (e.approvalRequired ==> d.approvalRequired)
  {
    CheckSurvivesMoreAnswers(rules, defaultEffect, CallWith(a, inputs), Async, CallWith(b, inputs), Async, d, e);
  }

  // A call that runs still runs once conditions nobody could answer are
  // answered: missing handlers and panics of the ACL only ever hold a call back.
  lemma RunsSurvivesMoreAnswers(
      w: World, b: Call, rules: seq<ACLRule>, defaultEffect: string, inputs: Value,
      d: AccessDecision, e: AccessDecision)
    requires Acceptable(rules, defaultEffect)
    requires SameQuestion(CallWith(w.call, inputs), Async, CallWith(b, inputs), Async)
    requires Verdict(Some(rules), defaultEffect, w.call, inputs, d) && Verdict(Some(rules), defaultEffect, b, inputs, e)
    ensures Runs(w, d, inputs) ==> Runs(w.(call := b), e, inputs)
  {
    VerdictSurvivesMoreAnswers(rules, defaultEffect, w.call, b, inputs, d, e);
    if Runs(w, d, inputs) {
      LessRequiredStillRuns(w, d, e, inputs);
      RunsReadsOnlyTheVerdict(w, w.(call := b), e, inputs);
    }
  }

  // The resume token never moves the access decision: with it and without it
  // the verdict is the same.
  lemma TokenNeverMovesTheVerdict(
      rules: Option<seq<ACLRule>>, defaultEffect: string, call: Call, inputs: Value, d: AccessDecision)
    ensures Verdict(rules, defaultEffect, call, inputs, d) <==>
            Verdict(rules, defaultEffect, call, StripToken(inputs), d)
  {
    ProjectionIgnoresToken(inputs);
  }

  // A handler that approves nothing lets nothing gated run,
  // whatever token the caller brings.
  lemma RefusedNeverRuns(w: World, d: AccessDecision, inputs: Value, log: seq<Event>, n: nat)
    requires w.handler.Some? && IsHistory(w, d, inputs, log) && Gated(w, d, inputs)
    requires forall t :: !SaysApproved(w.handler.value.check(t))
    requires forall v, a :: !SaysApproved(w.handler.value.request(v, a))
    ensures n < |log| ==> !log[n].Ran?
  {
    forall event | IsAnswered(w, inputs, event) ensures !IsApproval(event) {}
  }
}
