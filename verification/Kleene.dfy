// The three outcomes of an ACL condition and strong Kleene logic over them
// (src/acl_handlers.rs:36-106).
module Kleene {
  datatype ConditionOutcome = Satisfied | Unsatisfied | Unevaluable {
    function And(other: ConditionOutcome): ConditionOutcome {
      match (this, other)
      case (Unsatisfied, _) => Unsatisfied
      case (_, Unsatisfied) => Unsatisfied
      case (Unevaluable, _) => Unevaluable
      case (_, Unevaluable) => Unevaluable
      case (Satisfied, Satisfied) => Satisfied
    }

    function Or(other: ConditionOutcome): ConditionOutcome {
      match (this, other)
      case (Satisfied, _) => Satisfied
      case (_, Satisfied) => Satisfied
      case (Unevaluable, _) => Unevaluable
      case (_, Unevaluable) => Unevaluable
      case (Unsatisfied, Unsatisfied) => Unsatisfied
    }

    function Negate(): ConditionOutcome {
      match this
      case Satisfied => Unsatisfied
      case Unsatisfied => Satisfied
      case Unevaluable => Unevaluable
    }
  }

  function FromBool(value: bool): ConditionOutcome {
    if value then Satisfied else Unsatisfied
  }

  // What a conjunction, and a disjunction, of children means, with no order
  // among them: the reference for the folds the evaluators run.
  ghost function AllOf(children: set<ConditionOutcome>): ConditionOutcome {
    if Unsatisfied in children then Unsatisfied
    else if Unevaluable in children then Unevaluable
    else Satisfied
  }

  ghost function AnyOf(children: set<ConditionOutcome>): ConditionOutcome {
    if Satisfied in children then Satisfied
    else if Unevaluable in children then Unevaluable
    else Unsatisfied
  }

  // A conjunction holds when every child does and fails when one does; a
  // disjunction the other way round. No child at all: it holds, it fails.
  lemma ChildrenDecide(children: set<ConditionOutcome>)
    ensures AllOf(children) == Satisfied <==> forall o :: o in children ==> o == Satisfied
    ensures AllOf(children) == Unsatisfied <==> exists o :: o in children && o == Unsatisfied
    ensures AnyOf(children) == Satisfied <==> exists o :: o in children && o == Satisfied
    ensures AnyOf(children) == Unsatisfied <==> forall o :: o in children ==> o == Unsatisfied
  {
    forall o | o in children && o != Unsatisfied && o != Unevaluable ensures o == Satisfied {}
    forall o | o in children && o != Satisfied && o != Unevaluable ensures o == Unsatisfied {}
  }

  // Information order: `b` is what `a` may become when a question nobody could
  // answer gets an answer. A definite outcome never changes.
  predicate Refines(a: ConditionOutcome, b: ConditionOutcome) {
    a == Unevaluable || a == b
  }

  // Every outcome before is unevaluable or found again, and nothing is new
  // unless something was unevaluable.
  predicate SetRefines(before: set<ConditionOutcome>, after: set<ConditionOutcome>) {
    && (forall o :: o in before ==> o == Unevaluable || o in after)
    && (forall o :: o in after ==> Unevaluable in before || o in before)
  }

  lemma AllOfRefines(before: set<ConditionOutcome>, after: set<ConditionOutcome>)
    requires SetRefines(before, after)
    ensures Refines(AllOf(before), AllOf(after))
  {
  }

  // ---------------------------------------------------------------------
  // The connectives are the strong Kleene ones
  // ---------------------------------------------------------------------

  // A conjunction is definite exactly when every way of answering its
  // unevaluable operands gives that same two-valued conjunction.
  lemma AndIsStrongKleene(a: ConditionOutcome, b: ConditionOutcome, v: bool)
    ensures a.And(b) == FromBool(v) <==>
            forall x, y :: Refines(a, FromBool(x)) && Refines(b, FromBool(y)) ==> (x && y) == v
  {
    if forall x, y :: Refines(a, FromBool(x)) && Refines(b, FromBool(y)) ==> (x && y) == v {
      assert Refines(a, FromBool(true)) && Refines(b, FromBool(true)) ==> (true && true) == v;
      assert Refines(a, FromBool(true)) && Refines(b, FromBool(false)) ==> (true && false) == v;
      assert Refines(a, FromBool(false)) && Refines(b, FromBool(true)) ==> (false && true) == v;
      assert Refines(a, FromBool(false)) && Refines(b, FromBool(false)) ==> (false && false) == v;
    }
  }

  lemma OrIsStrongKleene(a: ConditionOutcome, b: ConditionOutcome, v: bool)
    ensures a.Or(b) == FromBool(v) <==>
            forall x, y :: Refines(a, FromBool(x)) && Refines(b, FromBool(y)) ==> (x || y) == v
  {
    if forall x, y :: Refines(a, FromBool(x)) && Refines(b, FromBool(y)) ==> (x || y) == v {
      assert Refines(a, FromBool(true)) && Refines(b, FromBool(true)) ==> (true || true) == v;
      assert Refines(a, FromBool(true)) && Refines(b, FromBool(false)) ==> (true || false) == v;
      assert Refines(a, FromBool(false)) && Refines(b, FromBool(true)) ==> (false || true) == v;
      assert Refines(a, FromBool(false)) && Refines(b, FromBool(false)) ==> (false || false) == v;
    }
  }

  lemma NegateIsStrongKleene(a: ConditionOutcome, v: bool)
    ensures a.Negate() == FromBool(v) <==> forall x :: Refines(a, FromBool(x)) ==> !x == v
  {
    assert Refines(a, FromBool(true)) || Refines(a, FromBool(false));
  }
}
