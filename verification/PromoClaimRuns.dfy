/**
 Particular runs of the claim protocol: what one uninterrupted rerun does to an intent a
 crash left behind, and what happens when an operator writes off a request too early.
 */
module PromoClaimRuns {
  import opened Wrappers
  import opened PromoClaim

  // ---------------------------------------------------------------------
  // Recovery by one uninterrupted rerun
  // ---------------------------------------------------------------------

  /** The steps of a recovery after its readback: the route of the intent, then the fenced write. */
  function FinishSteps(e: Exec, snapshot: IntentStatus, result: ReadResult): seq<Action> {
    if result.ReadFound? then [Commit(e)]
    else if snapshot == Prepared then [Transition(e), Transition(e), Commit(e)]
    else if snapshot == ClaimRetryBlocked then [Transition(e), Commit(e)]
    else [Commit(e)]
  }

  /** The steps a rerun takes once it has looked the prior intent up. */
  function RecoverySteps(e: Exec, snapshot: IntentStatus, result: ReadResult): seq<Action> {
    if snapshot == ManualReviewRequired then [Commit(e)] else [Read(e, result)] + FinishSteps(e, snapshot, result)
  }

  function RerunSteps(e: Exec, snapshot: IntentStatus, result: ReadResult): seq<Action> {
    [LookUp(e)] + RecoverySteps(e, snapshot, result)
  }

  /** What a rerun by `e` has left of the prior intent `k` and of the link. */
  predicate Settled(s: State, t: State, e: Exec, k: Exec, found: Option<Code>) {
    && e in t.phases && t.phases[e] == Halted && t.lease == None
    && t.dispatched == s.dispatched && t.inFlight == s.inFlight && t.minted == s.minted && t.order == s.order
    && t.phases.Keys == s.phases.Keys && t.readbacks.Keys == s.readbacks.Keys && t.link.Some?
    && k in s.intents && k in t.intents && t.intents == s.intents[k := t.intents[k]]
    && (match found
        case Some(code) => t.intents[k] == Confirmed && t.link.value == Link(Fetched, Some(code))
        case None =>
          && t.intents[k] == (if s.intents[k] == Confirmed then Confirmed else ManualReviewRequired)
          && t.link.value.status == Pending)
  }

  /** A transition of `k` before a rerun that settles `k` does not show afterwards. */
  lemma SettledTrans(s: State, t: State, u: State, e: Exec, k: Exec)
    requires k in s.intents && ReadbackConfirmable(s.intents[k])
    requires t.dispatched == s.dispatched && t.inFlight == s.inFlight && t.minted == s.minted && t.order == s.order
    requires t.phases.Keys == s.phases.Keys && t.readbacks.Keys == s.readbacks.Keys
    requires k in t.intents && t.intents[k] != Confirmed
    requires t.intents == s.intents[k := t.intents[k]] && Settled(t, u, e, k, None)
    ensures Settled(s, u, e, k, None)
  {}

  lemma {:induction false} FinishManual(s: State, e: Exec, k: Exec, rule: OperatorRule)
    requires WellFormed(s) && e in s.phases && s.lease == Some(e) && k in s.intents
    requires s.phases[e] == WriteManual && (s.intents[k] == ManualReviewRequired || s.intents[k] == Confirmed)
    ensures CanRun(s, [Commit(e)], rule) && Settled(s, Run(s, [Commit(e)], rule), e, k, None)
  {
    var t := Do(s, Commit(e), rule);
    RunCons(s, Commit(e), [], rule);
    assert s.intents[k := t.intents[k]] == s.intents;
  }

  lemma {:induction false} FinishRouteManual(s: State, e: Exec, k: Exec, rule: OperatorRule)
    requires WellFormed(s) && e in s.phases && s.lease == Some(e) && k in s.intents
    requires s.phases[e] == RouteManual(k) && s.intents[k] == ClaimRetryBlocked
    ensures CanRun(s, [Transition(e), Commit(e)], rule)
    ensures Settled(s, Run(s, [Transition(e), Commit(e)], rule), e, k, None)
  {
    var t := DoTransition(s, e, k, ManualReviewRequired, WriteManual);
    assert t == Do(s, Transition(e), rule);
    FinishManual(t, e, k, rule);
    RunCons(s, Transition(e), [Commit(e)], rule);
    SettledTrans(s, t, Run(t, [Commit(e)], rule), e, k);
  }

  lemma {:induction false} FinishRouteBlocked(s: State, e: Exec, k: Exec, rule: OperatorRule)
    requires WellFormed(s) && e in s.phases && s.lease == Some(e) && k in s.intents
    requires s.phases[e] == RouteBlocked(k) && s.intents[k] == Prepared
    ensures CanRun(s, [Transition(e), Transition(e), Commit(e)], rule)
    ensures Settled(s, Run(s, [Transition(e), Transition(e), Commit(e)], rule), e, k, None)
  {
    var t := DoTransition(s, e, k, ClaimRetryBlocked, RouteManual(k));
    assert t == Do(s, Transition(e), rule);
    FinishRouteManual(t, e, k, rule);
    RunCons(s, Transition(e), [Transition(e), Commit(e)], rule);
    SettledTrans(s, t, Run(t, [Transition(e), Commit(e)], rule), e, k);
  }

  lemma {:induction false} FinishFound(s: State, e: Exec, k: Exec, code: Code, rule: OperatorRule)
    requires WellFormed(s) && e in s.phases && s.lease == Some(e) && k in s.intents
    requires s.phases[e] == Found(if s.intents[k] == Confirmed then None else Some(k), code)
    requires s.intents[k] == Confirmed || ReadbackConfirmable(s.intents[k])
    ensures CanRun(s, [Commit(e)], rule) && Settled(s, Run(s, [Commit(e)], rule), e, k, Some(code))
  {
    var t := Do(s, Commit(e), rule);
    RunCons(s, Commit(e), [], rule);
    assert s.intents[k := Confirmed] == t.intents;
  }

  /** Everything after the readback. */
  lemma {:induction false} FinishAfterRead(t: State, e: Exec, k: Exec, snapshot: IntentStatus,
      result: ReadResult, rule: OperatorRule)
    requires WellFormed(t) && e in t.phases && t.lease == Some(e) && k in t.intents && t.intents[k] == snapshot
    requires snapshot == Confirmed || ReadbackConfirmable(snapshot)
    requires t.phases[e] == AfterRead(e, Recovering(k, snapshot), result)
    ensures var rest := FinishSteps(e, snapshot, result);
            CanRun(t, rest, rule) &&
            Settled(t, Run(t, rest, rule), e, k, if result.ReadFound? then Some(result.code) else None)
  {
    if result.ReadFound? {
      FinishFound(t, e, k, result.code, rule);
    } else if snapshot == Prepared {
      FinishRouteBlocked(t, e, k, rule);
    } else if snapshot == ClaimRetryBlocked {
      FinishRouteManual(t, e, k, rule);
    } else {
      FinishManual(t, e, k, rule);
    }
  }

  /** A first step that moves no intent, link, request or code. */
  lemma SettledAfterRead(s: State, t: State, u: State, e: Exec, k: Exec, found: Option<Code>)
    requires Settled(t, u, e, k, found) && t.intents == s.intents && t.order == s.order
    requires t.dispatched == s.dispatched && t.inFlight == s.inFlight && t.minted == s.minted
    requires t.phases.Keys == s.phases.Keys && t.readbacks.Keys == s.readbacks.Keys
    ensures Settled(s, u, e, k, found)
  {}

  /** Everything after the prior intent was looked up. */
  lemma {:induction false} FinishRecovery(s: State, e: Exec, k: Exec, result: ReadResult, rule: OperatorRule)
    requires WellFormed(s) && e in s.phases && s.lease == Some(e) && k in s.intents
    requires s.phases[e] == Recovering(k, s.intents[k])
    requires s.intents[k] == Confirmed || ReadbackConfirmable(s.intents[k])
    ensures var steps := RecoverySteps(e, s.intents[k], result);
            CanRun(s, steps, rule) &&
            Settled(s, Run(s, steps, rule), e, k, if result.ReadFound? then Some(result.code) else None)
  {
    var t := Do(s, Read(e, result), rule);
    var rest := FinishSteps(e, s.intents[k], result);
    assert WellFormed(t);
    FinishAfterRead(t, e, k, s.intents[k], result, rule);
    RunCons(s, Read(e, result), rest, rule);
    SettledAfterRead(s, t, Run(t, rest, rule), e, k, if result.ReadFound? then Some(result.code) else None);
  }

  /**
   One uninterrupted rerun settles whatever a crash left behind: an intent left
   `prepared` or `claim_retry_blocked` ends `confirmed` with the link fetched, or in
   manual review with the link pending; `getcode` is not dispatched again and no
   other intent moves.
   */
  lemma {:induction false} RerunSettles(s: State, e: Exec, result: ReadResult, rule: OperatorRule)
    requires WellFormed(s) && e in s.phases && s.phases[e] == Begun(false) && s.lease == Some(e)
    requires PriorIntent(s, |s.order|).Some?
    ensures var k := PriorIntent(s, |s.order|).value;
            var steps := RerunSteps(e, s.intents[k], result);
            var found := if result.ReadFound? && s.intents[k] != ManualReviewRequired then Some(result.code) else None;
            CanRun(s, steps, rule) && Settled(s, Run(s, steps, rule), e, k, found)
  {
    var k := PriorIntent(s, |s.order|).value;
    var rest := RecoverySteps(e, s.intents[k], result);
    var found := if result.ReadFound? && s.intents[k] != ManualReviewRequired then Some(result.code) else None;
    var t := Do(s, LookUp(e), rule);
    assert WellFormed(t);
    if s.intents[k] == ManualReviewRequired {
      FinishManual(t, e, k, rule);
    } else {
      FinishRecovery(t, e, k, result, rule);
    }
    RunCons(s, LookUp(e), rest, rule);
    SettledAfterRead(s, t, Run(t, rest, rule), e, k, found);
  }

  // ---------------------------------------------------------------------
  // A claim that meets no obstacle, and what a hasty operator can do with it
  // ---------------------------------------------------------------------

  /** Nothing is minted on the way, and no execution or intent but `e` is involved. */
  predicate OnlyInvolves(s: State, t: State, e: Exec) {
    && WellFormed(t) && t.minted == s.minted && s.inFlight <= t.inFlight
    && t.phases.Keys <= s.phases.Keys + {e}
    && t.intents.Keys <= s.intents.Keys + {e}
    && (forall k :: k in s.intents && k != e ==> k in t.intents && t.intents[k] == s.intents[k])
  }

  lemma ClaimStarts(origin: State, s: State, e: Exec, rule: OperatorRule) returns (t: State)
    requires Reaches(origin, s, rule) && WellFormed(s) && e !in s.phases && e !in s.intents && s.lease == None
    requires s.link.Some? ==> s.link.value.status != Fetched
    ensures Reaches(origin, t, rule) && OnlyInvolves(s, t, e) && e in t.phases && t.lease == Some(e)
    ensures t.phases[e] == Begun(false) && t.intents == s.intents
  {
    ReachStep(origin, s, Start(e), rule);
    t := Do(s, Start(e), rule);
  }

  lemma ClaimPreReads(origin: State, s: State, e: Exec, rule: OperatorRule) returns (t: State)
    requires Reaches(origin, s, rule) && WellFormed(s) && e in s.phases
    requires s.phases[e] == Begun(false) && s.lease == Some(e)
    requires forall k :: !IsOpen(s, k)
    ensures Reaches(origin, t, rule) && OnlyInvolves(s, t, e) && e in t.phases && t.lease == Some(e)
    ensures t.phases[e] == ToPrepare && t.intents == s.intents
  {
    ReachStep(origin, s, LookUp(e), rule);
    var u := Goto(s, e, PreRead);
    ReachStep(origin, u, Read(e, ReadMissing), rule);
    t := Do(u, Read(e, ReadMissing), rule);
  }

  lemma ClaimDispatches(origin: State, s: State, e: Exec, rule: OperatorRule) returns (t: State)
    requires Reaches(origin, s, rule) && WellFormed(s) && e in s.phases
    requires s.phases[e] == ToPrepare && s.lease == Some(e)
    ensures Reaches(origin, t, rule) && OnlyInvolves(s, t, e) && e in t.phases && t.lease == Some(e)
    ensures t.phases[e] == AwaitResponse && e in t.intents && t.intents[e] == Prepared && e in t.inFlight
  {
    ReachStep(origin, s, PrepareIntent(e), rule);
    var u := Do(s, PrepareIntent(e), rule);
    ReachStep(origin, u, Heartbeat(e), rule);
    var v := Do(u, Heartbeat(e), rule);
    ReachStep(origin, v, Dispatch(e), rule);
    t := Do(v, Dispatch(e), rule);
  }

  /** With no open intent, no fetched link and a lease that holds, an execution reaches `getcode`. */
  lemma ClaimProceeds(origin: State, s: State, e: Exec, rule: OperatorRule) returns (t: State)
    requires Reaches(origin, s, rule) && WellFormed(s) && e !in s.phases && e !in s.intents && s.lease == None
    requires (forall k :: !IsOpen(s, k)) && (s.link.Some? ==> s.link.value.status != Fetched)
    ensures Reaches(origin, t, rule) && OnlyInvolves(s, t, e) && e in t.phases && t.lease == Some(e)
    ensures t.phases[e] == AwaitResponse && e in t.intents && t.intents[e] == Prepared && e in t.inFlight
  {
    var u := ClaimStarts(origin, s, e, rule);
    assert forall k :: IsOpen(u, k) ==> IsOpen(s, k);
    var v := ClaimPreReads(origin, u, e, rule);
    t := ClaimDispatches(origin, v, e, rule);
  }

  lemma RequestTimesOut(origin: State, s: State, d: Exec, rule: OperatorRule) returns (t: State)
    requires Reaches(origin, s, rule) && WellFormed(s) && d in s.phases && s.phases[d] == AwaitResponse
    ensures Reaches(origin, t, rule) && OnlyInvolves(s, t, d) && d in t.phases && t.lease == s.lease
    ensures t.phases[d] == RouteBlocked(d) && t.intents == s.intents
  {
    ReachStep(origin, s, Respond(d, AmbiguousFailure), rule);
    var u := Goto(s, d, Recovering(d, Prepared));
    ReachStep(origin, u, Read(d, ReadError), rule);
    t := Do(u, Read(d, ReadError), rule);
  }

  lemma IntentToManualReview(origin: State, s: State, d: Exec, rule: OperatorRule) returns (t: State)
    requires Reaches(origin, s, rule) && WellFormed(s) && d in s.phases && s.phases[d] == RouteBlocked(d)
    requires d in s.intents && s.intents[d] == Prepared
    ensures Reaches(origin, t, rule) && OnlyInvolves(s, t, d) && d in t.phases && t.lease == s.lease
    ensures t.phases[d] == WriteManual && d in t.intents && t.intents[d] == ManualReviewRequired
  {
    ReachStep(origin, s, Transition(d), rule);
    var u := Do(s, Transition(d), rule);
    ReachStep(origin, u, Transition(d), rule);
    t := Do(u, Transition(d), rule);
  }

  /** The code accepts "no effect" even though the request may still be in flight. */
  lemma ReviewedAsNoEffect(origin: State, s: State, d: Exec) returns (t: State)
    requires Reaches(origin, s, Unchecked) && WellFormed(s) && d in s.phases && s.phases[d] == WriteManual
    requires d in s.intents && s.intents[d] == ManualReviewRequired && s.lease == Some(d)
    ensures Reaches(origin, t, Unchecked) && OnlyInvolves(s, t, d) && t.lease == None
    ensures d in t.intents && t.intents[d] == Failed && t.link.Some? && t.link.value.status == Pending
  {
    ReachStep(origin, s, Commit(d), Unchecked);
    var u := Do(s, Commit(d), Unchecked);
    ReachStep(origin, u, Adjudicate(d, false), Unchecked);
    t := Do(u, Adjudicate(d, false), Unchecked);
  }

  /** A dispatched request times out, cannot be read back and is written off while in flight. */
  lemma WrittenOff(s: State, d: Exec) returns (t: State)
    requires Reaches(Init(), s, Unchecked) && WellFormed(s) && d in s.phases && s.phases[d] == AwaitResponse
    requires s.lease == Some(d) && d in s.intents && s.intents[d] == Prepared && s.intents.Keys == {d}
    ensures Reaches(Init(), t, Unchecked) && OnlyInvolves(s, t, d) && t.lease == None
    ensures (forall k :: !IsOpen(t, k)) && t.link.Some? && t.link.value.status == Pending
  {
    var u := RequestTimesOut(Init(), s, d, Unchecked);
    var v := IntentToManualReview(Init(), u, d, Unchecked);
    OnlyInvolvesTrans(s, u, v, d);
    t := ReviewedAsNoEffect(Init(), v, d);
    OnlyInvolvesTrans(s, v, t, d);
  }

  lemma OnlyInvolvesTrans(s: State, t: State, u: State, e: Exec)
    requires OnlyInvolves(s, t, e) && OnlyInvolves(t, u, e)
    ensures OnlyInvolves(s, u, e)
  {}

  /**
   Without the operator rule the guarantee is lost.  A dispatched request times out and
   cannot be read back; while it is in flight an operator answers "no effect"; a fresh
   execution claims; the upstream applies both requests and mints two codes.
   */
  lemma HastyOperatorBreaksAtMostOnce(d: Exec, e: Exec)
    requires d != e
    ensures exists actions :: CanRun(Init(), actions, Unchecked) &&
                              Run(Init(), actions, Unchecked).minted == map[e := "second", d := "first"]
  {
    ReachStay(Init(), Unchecked);
    var s := ClaimProceeds(Init(), Init(), d, Unchecked);
    var t := WrittenOff(s, d);
    var u := ClaimProceeds(Init(), t, e, Unchecked);
    var v := BothApplied(u, d, e);
    var trace :| IsTrace(trace, Init(), v, Unchecked);
    var actions := TraceIsRun(trace, Init(), v, Unchecked);
  }

  lemma BothApplied(s: State, d: Exec, e: Exec) returns (t: State)
    requires Reaches(Init(), s, Unchecked) && WellFormed(s) && d != e && d in s.inFlight && e in s.inFlight
        && s.minted == map[]
    ensures Reaches(Init(), t, Unchecked) && t.minted == map[e := "second", d := "first"]
  {
    ReachStep(Init(), s, Mint(e, "second"), Unchecked);
    var u := Do(s, Mint(e, "second"), Unchecked);
    ReachStep(Init(), u, Mint(d, "first"), Unchecked);
    t := Do(u, Mint(d, "first"), Unchecked);
  }
}
