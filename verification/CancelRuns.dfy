// What a set flag means for a scope over a stretch of a run, whatever else
// goes on between its token steps.
module CancelRuns {
  import opened CancelTokens
  import opened CancelLaws

  // Token states in a row: each the one before, or one token step on.
  ghost predicate Row(toks: seq<State>) {
    && (forall i {:trigger Inv(toks[i])} :: 0 <= i < |toks| ==> Inv(toks[i]))
    && (forall i: nat {:trigger Follows(toks, i)} :: i < |toks| - 1 ==> Follows(toks, i))
  }

  ghost predicate Follows(toks: seq<State>, i: nat)
    requires i < |toks| - 1
  {
    toks[i + 1] == toks[i] || Next(toks[i], toks[i + 1])
  }

  // The flag of `t` is set all the way from `a` to `b`.
  ghost predicate FlagKept(toks: seq<State>, t: TokenId, a: nat, b: nat)
    requires b < |toks|
  {
    forall k: nat {:trigger toks[k]} :: a <= k <= b ==> t in toks[k].cancelled
  }

  // Between `k` and the next state execution e is spawned.
  predicate SpawnsAt(toks: seq<State>, k: nat, e: ExecId)
    requires k < |toks| - 1
  {
    && e in toks[k].execs && toks[k].execs[e].body.NotSpawned?
    && e in toks[k + 1].execs && toks[k + 1].execs[e].body.Live?
  }

  lemma RowStep(toks: seq<State>, i: nat) returns (moved: bool, step: Step)
    requires Row(toks) && i < |toks| - 1
    ensures Inv(toks[i]) && (!moved ==> toks[i + 1] == toks[i])
    ensures moved ==> Enabled(toks[i], step) && toks[i + 1] == Apply(toks[i], step)
  {
    assert Inv(toks[i]) && Follows(toks, i);
    moved := toks[i + 1] != toks[i];
    step :| moved ==> Enabled(toks[i], step) && toks[i + 1] == Apply(toks[i], step);
  }

  // ---------------------------------------------------------------------
  // One execution along a row
  // ---------------------------------------------------------------------

  lemma KnownNext(toks: seq<State>, i: nat, e: ExecId)
    requires Row(toks) && i < |toks| - 1 && e in toks[i].execs
    ensures e in toks[i + 1].execs && toks[i + 1].execs[e].scopes == toks[i].execs[e].scopes
    ensures !toks[i].execs[e].body.NotSpawned? ==> !toks[i + 1].execs[e].body.NotSpawned?
    ensures toks[i + 1].execs[e].body.Live? ==> toks[i].execs[e].body.Live? || toks[i].execs[e].body.NotSpawned?
  {
    var moved, step := RowStep(toks, i);
    if moved {
      SpawnedStaysSpawned(toks[i], step, e);
    }
  }

  lemma {:induction false} KnownAlong(toks: seq<State>, a: nat, b: nat, e: ExecId)
    requires Row(toks) && a <= b < |toks| && e in toks[a].execs
    ensures e in toks[b].execs && toks[b].execs[e].scopes == toks[a].execs[e].scopes
    ensures toks[b].execs[e].body.Live? ==> toks[a].execs[e].body.Live? || toks[a].execs[e].body.NotSpawned?
    ensures toks[b].execs[e].body.NotSpawned? ==> toks[a].execs[e].body.NotSpawned?
  {
    if a < b {
      KnownAlong(toks, a, b - 1, e);
      KnownNext(toks, b - 1, e);
    }
  }

  // Whatever is past its check of a token whose flag has been set all along
  // was past it when the stretch began.
  lemma {:induction false} PastAlong(toks: seq<State>, t: TokenId, a: nat, b: nat, e: ExecId)
    requires Row(toks) && a <= b < |toks| && FlagKept(toks, t, a, b)
    requires e in toks[b].execs && PastCheckOf(toks[b].execs[e], t)
    ensures e in toks[a].execs && PastCheckOf(toks[a].execs[e], t)
    ensures toks[a].execs[e].scopes == toks[b].execs[e].scopes
  {
    if a < b {
      var moved, step := RowStep(toks, b - 1);
      if moved {
        NoNewPast(toks[b - 1], step, t, e);
      }
      PastAlong(toks, t, a, b - 1, e);
    }
  }

  lemma {:induction false} SpawnBetween(toks: seq<State>, a: nat, b: nat, e: ExecId) returns (k: nat)
    requires Row(toks) && a <= b < |toks|
    requires e in toks[a].execs && toks[a].execs[e].body.NotSpawned? && e in toks[b].execs
    requires toks[b].execs[e].body.Live?
    ensures a <= k < b && SpawnsAt(toks, k, e)
  {
    KnownAlong(toks, a, b - 1, e);
    KnownNext(toks, b - 1, e);
    if toks[b - 1].execs[e].body.Live? {
      k := SpawnBetween(toks, a, b - 1, e);
    } else {
      k := b - 1;
    }
  }

  // ---------------------------------------------------------------------
  // A scope along a row
  // ---------------------------------------------------------------------

  lemma {:induction false} QuietAlong(toks: seq<State>, t: TokenId, a: nat, b: nat)
    requires Row(toks) && a <= b < |toks| && FlagKept(toks, t, a, b) && Quiet(toks[a], t)
    ensures Quiet(toks[b], t)
  {
    if a < b {
      QuietAlong(toks, t, a, b - 1);
      var moved, step := RowStep(toks, b - 1);
      if moved {
        QuietStaysQuiet(toks[b - 1], step, t);
      }
    }
  }

  // Live module code past check is a spawned call.
  lemma LiveIsPast(s: State, t: TokenId, e: ExecId)
    requires Inv(s) && LiveBeneath(s, e, t)
    ensures PastCheckOf(s.execs[e], t)
  {
    assert ExecOk(s.tree, s.active, e, s.execs[e]);
  }

  // What is live or pending at the end of the stretch was pending where
  // nothing was live.
  lemma WasPending(toks: seq<State>, t: TokenId, a: nat, b: nat, e: ExecId)
    requires Row(toks) && a <= b < |toks| && FlagKept(toks, t, a, b) && NothingLive(toks[a], t)
    requires LiveBeneath(toks[b], e, t) || (e in toks[b].execs && Pending(toks[b].execs[e], t))
    ensures e in toks[a].execs && Pending(toks[a].execs[e], t)
  {
    assert Inv(toks[b]);
    if LiveBeneath(toks[b], e, t) {
      LiveIsPast(toks[b], t, e);
    }
    PastAlong(toks, t, a, b, e);
    KnownAlong(toks, a, b, e);
    assert !LiveBeneath(toks[a], e, t);
  }

  // A call that was past its check of t at `g`, was still to be spawned at
  // `d`, and is spawned at `k`.
  predicate LateSpawn(toks: seq<State>, t: TokenId, g: nat, d: nat, k: nat, e: ExecId)
    requires g < |toks| && d < |toks| && k < |toks| - 1
  {
    && e in toks[g].execs && PastCheckOf(toks[g].execs[e], t)
    && e in toks[d].execs && Pending(toks[d].execs[e], t)
    && SpawnsAt(toks, k, e)
  }

  ghost predicate Disturbed(toks: seq<State>, t: TokenId, d: nat, n: nat)
    requires n < |toks|
  {
    exists k: nat, e: ExecId :: d <= k <= n && LiveBeneath(toks[k], e, t)
  }

  ghost predicate SpawnedLate(toks: seq<State>, t: TokenId, g: nat, d: nat, n: nat)
    requires g < |toks| && d < |toks| && n < |toks|
  {
    exists k: nat, e: ExecId :: d <= k < n && LateSpawn(toks, t, g, d, k, e)
  }

  // From a moment with nothing live beneath t on, and for as long as the flag
  // stays set, anything is live there exactly if a call that was past its check
  // of t before the flag was set is spawned.
  lemma DisturbedExactlyBy(toks: seq<State>, t: TokenId, g: nat, d: nat, n: nat)
    requires Row(toks) && g <= d <= n < |toks| && FlagKept(toks, t, g, n) && NothingLive(toks[d], t)
    ensures Disturbed(toks, t, d, n) <==> SpawnedLate(toks, t, g, d, n)
  {
    if Disturbed(toks, t, d, n) {
      var k: nat, e: ExecId :| d <= k <= n && LiveBeneath(toks[k], e, t);
      WasPending(toks, t, d, k, e);
      PastAlong(toks, t, g, d, e);
      var at := SpawnBetween(toks, d, k, e);
      assert LateSpawn(toks, t, g, d, at, e);
    }
    if SpawnedLate(toks, t, g, d, n) {
      var k: nat, e: ExecId :| d <= k < n && LateSpawn(toks, t, g, d, k, e);
      KnownAlong(toks, d, k + 1, e);
      assert LiveBeneath(toks[k + 1], e, t);
    }
  }

  // Every call that was pending at `d` is over at `k`: spawned and dropped
  // again, or refused further up its chain.
  ghost predicate PendingAreOver(toks: seq<State>, t: TokenId, d: nat, k: nat)
    requires d < |toks| && k < |toks|
  {
    forall e :: e in toks[d].execs && Pending(toks[d].execs[e], t) ==>
      e in toks[k].execs && !toks[k].execs[e].body.Live? && !Pending(toks[k].execs[e], t)
  }

  // Then the scope is quiet, and stays so.
  lemma QuietOnceOver(toks: seq<State>, t: TokenId, d: nat, k: nat, n: nat)
    requires Row(toks) && d <= k <= n < |toks| && FlagKept(toks, t, d, n)
    requires NothingLive(toks[d], t) && PendingAreOver(toks, t, d, k)
    ensures Quiet(toks[n], t)
  {
    forall e ensures !LiveBeneath(toks[k], e, t) && (e in toks[k].execs ==> !Pending(toks[k].execs[e], t)) {
      if LiveBeneath(toks[k], e, t) || (e in toks[k].execs && Pending(toks[k].execs[e], t)) {
        WasPending(toks, t, d, k, e);
      }
    }
    QuietAlong(toks, t, k, n);
  }
}
