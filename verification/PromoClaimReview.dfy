/**
 When an operator may answer "no effect" for an intent under manual review: exactly when its
 request can no longer take effect, which is exactly when a fresh claim cannot end in a
 second code.
 */
module PromoClaimReview {
  import opened Wrappers
  import opened PromoClaim
  import opened PromoClaimRuns
  import opened PromoClaimSafety

  /** The state after the operator's answer, which the code accepts at any time. */
  function WrittenOff(s: State, k: Exec): State
    requires WellFormed(s) && k in s.intents && s.intents[k] == ManualReviewRequired
  {
    Do(s, Adjudicate(k, false), Unchecked)
  }

  /** Some continuation mints a code for execution `k`. */
  ghost predicate CanMint(s: State, k: Exec, rule: OperatorRule) {
    exists t :: Reaches(s, t, rule) && k in t.minted
  }

  // ---------------------------------------------------------------------
  // Never
  // ---------------------------------------------------------------------

  predicate PastEffect(s: State, k: Exec) {
    WellFormed(s) && NoEffectPossible(s, k) && !BeforeIntent(s.phases[k])
  }

  predicate StepOf(a: Action, k: Exec) {
    !a.Expire? && !a.Capture? && !a.Adjudicate? && a.e == k
  }

  lemma OwnStepKeepsPast(s: State, a: Action, k: Exec, rule: OperatorRule)
    requires PastEffect(s, k) && Enabled(s, a, rule) && StepOf(a, k)
    ensures NoEffectPossible(Do(s, a, rule), k) && !BeforeIntent(Do(s, a, rule).phases[k])
  {
    if Fenced(a) {
      FencedOnlyMoves(s, a, rule);
    }
  }

  lemma OtherStepKeepsPast(s: State, a: Action, k: Exec, rule: OperatorRule)
    requires PastEffect(s, k) && Enabled(s, a, rule) && !StepOf(a, k)
    ensures NoEffectPossible(Do(s, a, rule), k) && !BeforeIntent(Do(s, a, rule).phases[k])
  {
    if Fenced(a) {
      FencedOnlyMoves(s, a, rule);
    }
  }

  lemma StaysWellFormed(s: State, a: Action, rule: OperatorRule)
    requires WellFormed(s) && Enabled(s, a, rule)
    ensures WellFormed(Do(s, a, rule))
  {
    if Fenced(a) {
      FencedOnlyMoves(s, a, rule);
    } else if a.PrepareIntent? {
      assert forall k <- s.order + [a.e] :: k in s.order || k == a.e;
    }
  }

  lemma {:induction false} PastEffectForever(s: State, actions: seq<Action>, k: Exec, rule: OperatorRule)
    requires PastEffect(s, k) && CanRun(s, actions, rule)
    ensures k !in Run(s, actions, rule).minted
    decreases |actions|
  {
    if actions != [] {
      StaysWellFormed(s, actions[0], rule);
      if StepOf(actions[0], k) {
        OwnStepKeepsPast(s, actions[0], k, rule);
      } else {
        OtherStepKeepsPast(s, actions[0], k, rule);
      }
      PastEffectForever(Do(s, actions[0], rule), actions[1..], k, rule);
    }
  }

  // ---------------------------------------------------------------------
  // Still possible
  // ---------------------------------------------------------------------

  /** Minted already, or on its way to the upstream. */
  predicate OutThere(s: State, k: Exec) {
    k in s.minted || k in s.inFlight
  }

  /** The owner rechecks its lease and dispatches; intents, order and link stay as they are. */
  lemma GoesOut(origin: State, s: State, k: Exec, rule: OperatorRule) returns (t: State)
    requires Reaches(origin, s, rule) && WellFormed(s) && k in s.phases && !NoEffectPossible(s, k)
    ensures Reaches(origin, t, rule) && WellFormed(t) && OutThere(t, k)
    ensures t.phases.Keys == s.phases.Keys && t.intents == s.intents && t.link == s.link
  {
    t := s;
    if !OutThere(s, k) {
      if t.phases[k] == BeforeHeartbeat {
        ReachStep(origin, t, Heartbeat(k), rule);
        t := Do(t, Heartbeat(k), rule);
      }
      ReachStep(origin, t, Dispatch(k), rule);
      t := Do(t, Dispatch(k), rule);
    }
  }

  lemma Arrives(origin: State, s: State, k: Exec, code: Code, rule: OperatorRule) returns (t: State)
    requires Reaches(origin, s, rule) && WellFormed(s) && OutThere(s, k)
    ensures Reaches(origin, t, rule) && WellFormed(t) && k in t.minted
    ensures s.minted.Keys <= t.minted.Keys && s.inFlight <= t.inFlight + {k}
  {
    t := s;
    if k !in s.minted {
      ReachStep(origin, s, Mint(k, code), rule);
      t := Do(s, Mint(k, code), rule);
    }
  }

  /**
   After "no effect" was answered for an intent under manual review, some continuation mints
   a code for it exactly when its request can still take effect.
   */
  lemma WriteOffMintsIff(s: State, k: Exec, rule: OperatorRule)
    requires Inv(s) && k in s.intents && s.intents[k] == ManualReviewRequired
    ensures CanMint(WrittenOff(s, k), k, rule) <==> !NoEffectPossible(s, k)
  {
    var t := WrittenOff(s, k);
    assert ExecInv(s, k);
    if NoEffectPossible(s, k) {
      forall u | Reaches(t, u, rule) ensures k !in u.minted {
        var trace :| IsTrace(trace, t, u, rule);
        var actions := TraceIsRun(trace, t, u, rule);
        PastEffectForever(t, actions, k, rule);
      }
    } else {
      ReachStay(t, rule);
      var u := GoesOut(t, t, k, rule);
      var v := Arrives(t, u, k, "late", rule);
    }
  }

  // ---------------------------------------------------------------------
  // A second code
  // ---------------------------------------------------------------------

  ghost predicate CanMintTwo(s: State, rule: OperatorRule) {
    exists t :: Reaches(s, t, rule) && |t.minted| > 1
  }

  lemma {:induction false} FreshExec(used: set<Exec>) returns (e: Exec)
    ensures e !in used && forall d :: d in used ==> d < e
    decreases |used|
  {
    if used == {} {
      e := 0;
    } else {
      var d :| d in used;
      var f := FreshExec(used - {d});
      e := if d < f then f else d + 1;
      assert forall c :: c in used ==> c == d || c in used - {d};
    }
  }

  /** The lease runs out and a fresh execution claims; then both requests are applied. */
  lemma BothMinted(origin: State, s: State, k: Exec, rule: OperatorRule) returns (t: State)
    requires Reaches(origin, s, rule) && WellFormed(s) && OutThere(s, k) && k in s.phases
    requires (forall j :: !IsOpen(s, j)) && (s.link.Some? ==> s.link.value.status != Fetched)
    ensures Reaches(origin, t, rule) && |t.minted| > 1
  {
    var free := s.(lease := None);
    if s.lease.Some? {
      ReachStep(origin, s, Expire, rule);
    } else {
      assert free == s;
    }
    assert forall j :: IsOpen(free, j) ==> IsOpen(s, j);
    var e := FreshExec(s.phases.Keys + s.intents.Keys);
    var u := ClaimProceeds(origin, free, e, rule);
    t := BothArrive(origin, u, e, k, rule);
  }

  lemma BothArrive(origin: State, s: State, e: Exec, k: Exec, rule: OperatorRule) returns (t: State)
    requires Reaches(origin, s, rule) && WellFormed(s) && OutThere(s, k) && OutThere(s, e) && e != k
    ensures Reaches(origin, t, rule) && |t.minted| > 1
  {
    var v := Arrives(origin, s, e, "second", rule);
    t := Arrives(origin, v, k, "first", rule);
    assert {e, k} <= t.minted.Keys;
    assert |{e, k}| == 2;
    SubsetSize({e, k}, t.minted.Keys);
  }

  lemma SubsetSize<T>(small: set<T>, large: set<T>)
    requires small <= large
    ensures |small| <= |large|
  {
    assert large == small + (large - small);
  }

  /**
   With every other intent failed and no fetched link, answering "no effect" lets the target
   end with a second code exactly when the request can still take effect.
   */
  lemma SecondCodeIff(s: State, k: Exec)
    requires Inv(s) && k in s.intents && s.intents[k] == ManualReviewRequired
    requires (forall j :: IsOpen(s, j) ==> j == k) && (s.link.Some? ==> s.link.value.status != Fetched)
    ensures CanMintTwo(WrittenOff(s, k), Careful) <==> !NoEffectPossible(s, k)
  {
    var t := WrittenOff(s, k);
    assert ExecInv(s, k);
    if NoEffectPossible(s, k) {
      assert t == Do(s, Adjudicate(k, false), Careful);
      StepKeepsInv(s, Adjudicate(k, false));
      forall u | Reaches(t, u, Careful) ensures |u.minted| <= 1 {
        var trace :| IsTrace(trace, t, u, Careful);
        var actions := TraceIsRun(trace, t, u, Careful);
        RunKeepsInv(t, actions);
        AtMostOneMinted(u);
      }
    } else {
      ReachStay(t, Careful);
      var u := GoesOut(t, t, k, Careful);
      assert forall j :: IsOpen(u, j) ==> IsOpen(s, j);
      var v := BothMinted(t, u, k, Careful);
    }
  }
}
