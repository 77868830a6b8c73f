// ErrorCodeRegistry (src/errors.rs:1345-1475): who owns which error code, and
// the derived index of all codes.
module ErrorCodes {
  import opened Wrappers

  const FRAMEWORK_ERROR_CODE_PREFIXES: seq<string> := [
    "ACL_", "APPROVAL_", "BINDING_", "CALL_", "CIRCULAR_", "CONFIG_", "DEPENDENCY_",
    "ERROR_CODE_", "FUNC_", "GENERAL_", "MIDDLEWARE_", "MODULE_", "SCHEMA_", "VERSION_"]

  type Owners = map<string, set<string>>

  // What a refused code collides with.
  datatype Collision =
    | FrameworkCode(code: string)
    | FrameworkPrefix(code: string, prefix: string)
    | OtherModule(code: string, owner: string)

  predicate HasReservedPrefix(code: string) {
    exists i {:trigger FRAMEWORK_ERROR_CODE_PREFIXES[i]} ::
      0 <= i < |FRAMEWORK_ERROR_CODE_PREFIXES| && FRAMEWORK_ERROR_CODE_PREFIXES[i] <= code
  }

  // A code is reserved exactly when it starts with one of the prefixes.
  lemma ReservedIs(code: string)
    ensures HasReservedPrefix(code) <==> exists p :: p in FRAMEWORK_ERROR_CODE_PREFIXES && p <= code
  {
    if HasReservedPrefix(code) {
      var i :| 0 <= i < |FRAMEWORK_ERROR_CODE_PREFIXES| && FRAMEWORK_ERROR_CODE_PREFIXES[i] <= code;
      assert FRAMEWORK_ERROR_CODE_PREFIXES[i] in FRAMEWORK_ERROR_CODE_PREFIXES;
    }
  }

  // Whatever starts with one of the framework's words is reserved.
  lemma FrameworkWordsAreReserved(rest: string)
    ensures HasReservedPrefix("ACL_" + rest) && HasReservedPrefix("APPROVAL_" + rest)
    ensures HasReservedPrefix("BINDING_" + rest) && HasReservedPrefix("CALL_" + rest)
    ensures HasReservedPrefix("CIRCULAR_" + rest) && HasReservedPrefix("CONFIG_" + rest)
    ensures HasReservedPrefix("DEPENDENCY_" + rest) && HasReservedPrefix("ERROR_CODE_" + rest)
    ensures HasReservedPrefix("FUNC_" + rest) && HasReservedPrefix("GENERAL_" + rest)
    ensures HasReservedPrefix("MIDDLEWARE_" + rest) && HasReservedPrefix("MODULE_" + rest)
    ensures HasReservedPrefix("SCHEMA_" + rest) && HasReservedPrefix("VERSION_" + rest)
  {
    forall i | 0 <= i < |FRAMEWORK_ERROR_CODE_PREFIXES|
      ensures HasReservedPrefix(FRAMEWORK_ERROR_CODE_PREFIXES[i] + rest)
    {
      assert FRAMEWORK_ERROR_CODE_PREFIXES[i] <= FRAMEWORK_ERROR_CODE_PREFIXES[i] + rest;
    }
    var ps := FRAMEWORK_ERROR_CODE_PREFIXES;
    assert |ps| == 14;
    assert HasReservedPrefix(ps[0] + rest) && HasReservedPrefix(ps[1] + rest) && HasReservedPrefix(ps[2] + rest);
    assert HasReservedPrefix(ps[3] + rest) && HasReservedPrefix(ps[4] + rest) && HasReservedPrefix(ps[5] + rest);
    assert HasReservedPrefix(ps[6] + rest) && HasReservedPrefix(ps[7] + rest) && HasReservedPrefix(ps[8] + rest);
    assert HasReservedPrefix(ps[9] + rest) && HasReservedPrefix(ps[10] + rest) && HasReservedPrefix(ps[11] + rest);
    assert HasReservedPrefix(ps[12] + rest) && HasReservedPrefix(ps[13] + rest);
  }

  ghost predicate Owns(owners: Owners, moduleId: string, code: string) {
    moduleId in owners && code in owners[moduleId]
  }

  ghost function Union(owners: Owners): set<string> {
    set m, c | m in owners && c in owners[m] :: c
  }

  // A code a module may claim.
  ghost predicate Free(framework: set<string>, owners: Owners, moduleId: string, code: string) {
    && code !in framework && !HasReservedPrefix(code)
    && forall m :: Owns(owners, m, code) ==> m == moduleId
  }

  // A module may claim a code that is no framework code, starts with no
  // reserved prefix, and is nobody's or its own.
  lemma FreeIs(framework: set<string>, owners: Owners, moduleId: string, code: string)
    ensures Free(framework, owners, moduleId, code) <==>
            && code !in framework
            && (forall p :: p in FRAMEWORK_ERROR_CODE_PREFIXES ==> !(p <= code))
            && forall m :: m in owners && code in owners[m] ==> m == moduleId
  {
    ReservedIs(code);
    forall m | m in owners && code in owners[m] ensures Owns(owners, m, code) {}
  }

  ghost predicate Registrable(framework: set<string>, owners: Owners, moduleId: string, codes: set<string>) {
    forall c :: c in codes ==> Free(framework, owners, moduleId, c)
  }

  ghost function Registered(owners: Owners, moduleId: string, codes: set<string>): Owners {
    owners[moduleId := if moduleId in owners then owners[moduleId] + codes else codes]
  }

  // No code is reserved, and no code has two owners.
  ghost predicate Apart(framework: set<string>, owners: Owners) {
    && (forall m, c :: Owns(owners, m, c) ==> c !in framework && !HasReservedPrefix(c))
    && (forall m, n, c :: Owns(owners, m, c) && Owns(owners, n, c) ==> m == n)
  }

  ghost predicate Explains(framework: set<string>, owners: Owners, moduleId: string, codes: set<string>, e: Collision) {
    && e.code in codes
    && match e
       case FrameworkCode(c) => c in framework
       case FrameworkPrefix(c, p) => p in FRAMEWORK_ERROR_CODE_PREFIXES && p <= c
       case OtherModule(c, owner) => Owns(owners, owner, c) && owner != moduleId
  }

  class ErrorCodeRegistry {
    const framework: set<string>
    var moduleCodes: Owners
    var allCodes: set<string>

    ghost predicate Valid()
      reads this
    {
      Apart(framework, moduleCodes) && allCodes == framework + Union(moduleCodes)
    }

    constructor (framework: set<string>)
      ensures Valid() && this.framework == framework && moduleCodes == map[] && allCodes == framework
    {
      this.framework := framework;
      moduleCodes, allCodes := map[], framework;
    }

    // Any module that has the code, whichever the map yields first; under the
    // invariant there is at most one.
    method FindOwner(code: string) returns (owner: Option<string>)
      ensures owner.Some? ==> Owns(moduleCodes, owner.value, code)
      ensures owner.None? ==> forall m :: !Owns(moduleCodes, m, code)
    {
      var rest := moduleCodes.Keys;
      while rest != {}
        invariant rest <= moduleCodes.Keys
        invariant forall m :: Owns(moduleCodes, m, code) ==> m in rest
        decreases |rest|
      {
        var m :| m in rest;
        if code in moduleCodes[m] {
          return Some(m);
        }
        rest := rest - {m};
      }
      owner := None;
    }

    method CheckCode(moduleId: string, code: string) returns (collision: Option<Collision>)
      requires Valid()
      ensures collision.None? <==> Free(framework, moduleCodes, moduleId, code)
      ensures collision.None? <==>
              && code !in framework
              && (forall p :: p in FRAMEWORK_ERROR_CODE_PREFIXES ==> !(p <= code))
              && forall m :: m in moduleCodes && code in moduleCodes[m] ==> m == moduleId
      ensures collision == Some(FrameworkCode(code)) <==> code in framework
      ensures collision.Some? && collision.value.FrameworkPrefix? <==>
              code !in framework && exists p :: p in FRAMEWORK_ERROR_CODE_PREFIXES && p <= code
      ensures collision.Some? ==> Explains(framework, moduleCodes, moduleId, {code}, collision.value)
    {
      ReservedIs(code);
      FreeIs(framework, moduleCodes, moduleId, code);
      if code in framework {
        return Some(FrameworkCode(code));
      }
      for i := 0 to |FRAMEWORK_ERROR_CODE_PREFIXES|
        invariant forall j :: 0 <= j < i ==> !(FRAMEWORK_ERROR_CODE_PREFIXES[j] <= code)
      {
        if FRAMEWORK_ERROR_CODE_PREFIXES[i] <= code {
          return Some(FrameworkPrefix(code, FRAMEWORK_ERROR_CODE_PREFIXES[i]));
        }
      }
      var owner := FindOwner(code);
      if owner.Some? && owner.value != moduleId {
        return Some(OtherModule(code, owner.value));
      }
      collision := None;
    }

    // Succeeds exactly when every code is free; a refusal changes nothing, and
    // names one of the codes with what it collides with.
    method Register(moduleId: string, codes: set<string>) returns (r: Result<(), Collision>)
      requires Valid()
      modifies this
      ensures Valid()
      ensures r.Ok? <==> Registrable(framework, old(moduleCodes), moduleId, codes)
      ensures r.Ok? ==> moduleCodes == Registered(old(moduleCodes), moduleId, codes)
      ensures r.Ok? ==> forall m, c ::
        m in moduleCodes && c in moduleCodes[m] <==>
        (m in old(moduleCodes) && c in old(moduleCodes)[m]) || (m == moduleId && c in codes)
      ensures forall c :: c in allCodes <==>
        c in framework || exists m :: m in moduleCodes && c in moduleCodes[m]
      ensures r.Err? ==> moduleCodes == old(moduleCodes) && allCodes == old(allCodes)
      ensures r.Err? ==> Explains(framework, moduleCodes, moduleId, codes, r.error)
    {
      var rest := codes;
      while rest != {}
        invariant rest <= codes && moduleCodes == old(moduleCodes) && allCodes == old(allCodes)
        invariant forall c :: c in codes && c !in rest ==> Free(framework, moduleCodes, moduleId, c)
        decreases |rest|
      {
        var code :| code in rest;
        var collision := CheckCode(moduleId, code);
        if collision.Some? {
          return Err(collision.value);
        }
        rest := rest - {code};
      }
      RegisteringKeepsApart(framework, moduleCodes, moduleId, codes);
      moduleCodes := moduleCodes[moduleId := if moduleId in moduleCodes then moduleCodes[moduleId] + codes else codes];
      RebuildAllCodes();
      r := Ok(());
    }

    method Unregister(moduleId: string)
      requires Valid()
      modifies this
      ensures Valid() && moduleCodes == old(moduleCodes) - {moduleId}
      ensures forall m, c :: Owns(moduleCodes, m, c) <==> Owns(old(moduleCodes), m, c) && m != moduleId
    {
      moduleCodes := moduleCodes - {moduleId};
      assert Apart(framework, moduleCodes) by {
        assert forall m, c :: Owns(moduleCodes, m, c) ==> Owns(old(moduleCodes), m, c);
      }
      RebuildAllCodes();
    }

    method RebuildAllCodes()
      modifies this`allCodes
      ensures allCodes == framework + Union(moduleCodes)
    {
      var all := framework;
      var rest := moduleCodes.Keys;
      while rest != {}
        invariant rest <= moduleCodes.Keys
        invariant forall c :: c in all <==> c in framework || exists m :: m !in rest && Owns(moduleCodes, m, c)
        decreases |rest|
      {
        var m :| m in rest;
        ghost var before := all;
        all := all + moduleCodes[m];
        rest := rest - {m};
        forall c ensures c in all <==> c in framework || exists n :: n !in rest && Owns(moduleCodes, n, c) {
          if c in moduleCodes[m] {
            assert Owns(moduleCodes, m, c);
          }
          if c in before && c !in framework {
            var n :| n !in rest + {m} && Owns(moduleCodes, n, c);
            assert n !in rest;
          }
        }
      }
      UnionIsOwned(moduleCodes);
      allCodes := all;
    }
  }

  lemma UnionIsOwned(owners: Owners)
    ensures forall c :: c in Union(owners) <==> exists m :: Owns(owners, m, c)
  {
    forall m, c | Owns(owners, m, c) ensures c in Union(owners) {
      assert m in owners && c in owners[m];
    }
    forall c | c in Union(owners) ensures exists m :: Owns(owners, m, c) {
      var m :| m in owners && c in owners[m];
      assert Owns(owners, m, c);
    }
  }

  // ---------------------------------------------------------------------
  // What registrations do to each other
  // ---------------------------------------------------------------------

  lemma RegisteredOwns(owners: Owners, moduleId: string, codes: set<string>, m: string, c: string)
    ensures Owns(Registered(owners, moduleId, codes), m, c) <==> Owns(owners, m, c) || (m == moduleId && c in codes)
  {
  }

  lemma RegisteringKeepsApart(framework: set<string>, owners: Owners, moduleId: string, codes: set<string>)
    requires Apart(framework, owners) && Registrable(framework, owners, moduleId, codes)
    ensures Apart(framework, Registered(owners, moduleId, codes))
  {
    forall m, c | Owns(Registered(owners, moduleId, codes), m, c)
      ensures Owns(owners, m, c) || (m == moduleId && c in codes)
    {
      RegisteredOwns(owners, moduleId, codes, m, c);
    }
  }

  // Registering the same codes for the same module again succeeds and changes
  // nothing.
  lemma RegisteringAgain(framework: set<string>, owners: Owners, moduleId: string, codes: set<string>)
    requires Apart(framework, owners) && Registrable(framework, owners, moduleId, codes)
    ensures Registrable(framework, Registered(owners, moduleId, codes), moduleId, codes)
    ensures Registered(Registered(owners, moduleId, codes), moduleId, codes) == Registered(owners, moduleId, codes)
  {
    forall c | c in codes ensures Free(framework, Registered(owners, moduleId, codes), moduleId, c) {
      assert Free(framework, owners, moduleId, c);
      forall m | Owns(Registered(owners, moduleId, codes), m, c) ensures m == moduleId {
        RegisteredOwns(owners, moduleId, codes, m, c);
      }
    }
    var once := Registered(owners, moduleId, codes);
    assert once[moduleId] + codes == once[moduleId];
  }

  // Two modules can both register in one order exactly when they can in the
  // other, with the same result; what stands in the way is a shared code.
  lemma OrderDoesNotMatter(framework: set<string>, owners: Owners, m: string, cs: set<string>, n: string,
                           ds: set<string>)
    requires m != n && Registrable(framework, owners, m, cs) && Registrable(framework, owners, n, ds)
    ensures Registrable(framework, Registered(owners, m, cs), n, ds) <==> cs !! ds
    ensures Registrable(framework, Registered(owners, m, cs), n, ds) <==>
            Registrable(framework, Registered(owners, n, ds), m, cs)
    ensures Registered(Registered(owners, m, cs), n, ds) == Registered(Registered(owners, n, ds), m, cs)
  {
    OtherInTheWay(framework, owners, m, cs, n, ds);
    OtherInTheWay(framework, owners, n, ds, m, cs);
  }

  lemma OtherInTheWay(framework: set<string>, owners: Owners, m: string, cs: set<string>, n: string, ds: set<string>)
    requires m != n && Registrable(framework, owners, n, ds)
    ensures Registrable(framework, Registered(owners, m, cs), n, ds) <==> cs !! ds
  {
    var after := Registered(owners, m, cs);
    if d :| d in cs && d in ds {
      assert Owns(after, m, d);
      assert !Free(framework, after, n, d);
    } else {
      forall d | d in ds ensures Free(framework, after, n, d) {
        assert Free(framework, owners, n, d);
        forall o | Owns(after, o, d) ensures o == n {
          RegisteredOwns(owners, m, cs, o, d);
        }
      }
    }
  }

  // Unregistering frees exactly the codes of that module.
  lemma UnregisteringFrees(framework: set<string>, owners: Owners, gone: string, moduleId: string, code: string)
    requires Apart(framework, owners) && gone != moduleId
    ensures Free(framework, owners - {gone}, moduleId, code) <==>
            Free(framework, owners, moduleId, code) || Owns(owners, gone, code)
  {
    assert forall m :: Owns(owners - {gone}, m, code) <==> Owns(owners, m, code) && m != gone;
  }
}
