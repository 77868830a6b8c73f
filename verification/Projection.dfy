// The governance projection of a call's arguments (src/acl.rs:462-606): the
// argument key set and each key's JSON type, never a value.
module Projection {
  import opened Json

  datatype JsonType = TNull | TBoolean | TNumber | TString | TArray | TObject

  type GovernanceProjection = map<string, JsonType>

  // The framework-owned resume token's key (src/policy.rs:35).
  const APPROVAL_TOKEN_KEY := "_approval_token"

  function TypeOf(v: Value): JsonType {
    match v
    case Null => TNull
    case Bool(_) => TBoolean
    case Number(_) => TNumber
    case String(_) => TString
    case Array(_) => TArray
    case Object(_) => TObject
  }

  function FromArguments(arguments: Value): GovernanceProjection {
    if arguments.Object? then
      map k | k in arguments.fields && k != APPROVAL_TOKEN_KEY :: TypeOf(arguments.fields[k])
    else
      map[]
  }

  // `inputs` without the resume token, as the approval gate rebuilds them
  // (src/builtin_steps.rs:652-659).
  function StripToken(inputs: Value): Value {
    if inputs.Object? then Object(inputs.fields - {APPROVAL_TOKEN_KEY}) else inputs
  }

  // The view has exactly the keys other than the token, each with the type of
  // its value; what is no object has no keys.
  lemma ProjectionIsKeysAndTypes(arguments: Value, k: string)
    ensures k in FromArguments(arguments) <==>
            arguments.Object? && k in arguments.fields && k != "_approval_token"
    ensures k in FromArguments(arguments) ==>
      match arguments.fields[k]
      case Null => FromArguments(arguments)[k] == TNull
      case Bool(_) => FromArguments(arguments)[k] == TBoolean
      case Number(_) => FromArguments(arguments)[k] == TNumber
      case String(_) => FromArguments(arguments)[k] == TString
      case Array(_) => FromArguments(arguments)[k] == TArray
      case Object(_) => FromArguments(arguments)[k] == TObject
  {
  }

  // Stripping takes the token and nothing else.
  lemma StrippedOfTheToken(inputs: Value)
    ensures !inputs.Object? ==> StripToken(inputs) == inputs
    ensures inputs.Object? ==>
      && StripToken(inputs).Object? && StripToken(inputs).fields.Keys == inputs.fields.Keys - {"_approval_token"}
      && forall k :: k in StripToken(inputs).fields ==> StripToken(inputs).fields[k] == inputs.fields[k]
  {
  }

  // Two calls whose arguments differ only in the resume token, and in values
  // of the same type, project to the same view.
  lemma ProjectionIgnoresTokenAndValues(a: Value, b: Value)
    requires a.Object? && b.Object?
    requires a.fields.Keys - {APPROVAL_TOKEN_KEY} == b.fields.Keys - {APPROVAL_TOKEN_KEY}
    requires forall k :: k in a.fields && k != APPROVAL_TOKEN_KEY && k in b.fields ==>
               TypeOf(a.fields[k]) == TypeOf(b.fields[k])
    ensures FromArguments(a) == FromArguments(b)
  {
    forall k | k != APPROVAL_TOKEN_KEY
      ensures k in a.fields <==> k in b.fields
    {
      assert k in a.fields.Keys - {APPROVAL_TOKEN_KEY} <==> k in b.fields.Keys - {APPROVAL_TOKEN_KEY};
    }
  }

  lemma ProjectionIgnoresToken(inputs: Value)
    ensures FromArguments(StripToken(inputs)) == FromArguments(inputs)
  {
    if inputs.Object? {
      ProjectionIgnoresTokenAndValues(StripToken(inputs), inputs);
    }
  }
}
