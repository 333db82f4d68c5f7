/**
 Safety of the claim protocol over every run: at most one code per target, and which
 steps may move an intent.
 */
module PromoClaimSafety {
  import opened Sequences
  import opened Wrappers
  import opened PromoClaim

  // ---------------------------------------------------------------------
  // The invariant
  // ---------------------------------------------------------------------

  predicate BeforeIntent(p: Phase) {
    p.Begun? || p.PreRead? || p.ToPrepare?
  }

  predicate NoReadYet(p: Phase, e: Exec) {
    p.Begun? || p.PreRead? || (p.Recovering? && p.intent != e)
  }

  predicate MayStillRead(p: Phase) {
    p.ToPrepare? || p.BeforeHeartbeat? || p.Ready? || p.AwaitResponse? || p.Confirming? || p.Recovering?
  }

  /** Histories nest: intent durable, then lease rechecked, then dispatched, then in flight or minted. */
  predicate HistoryOf(s: State, k: Exec) {
    && (k in s.intents ==> k in s.order && k in s.phases)
    && (k in s.armed ==> k in s.intents)
    && (k in s.dispatched ==> k in s.armed)
    && (k in s.inFlight ==> k in s.dispatched)
    && (k in s.minted ==> k in s.dispatched && k !in s.inFlight)
    // an intent becomes `failed` only when it had no effect and can have none
    && (k in s.intents && s.intents[k] == Failed ==> k !in s.minted && k !in s.inFlight)
  }

  /** What an execution's phase says about its own intent. */
  predicate PhaseOf(s: State, e: Exec) {
    e in s.phases ==>
      var p := s.phases[e];
      && (BeforeIntent(p) ==> e !in s.intents)
      && (p.BeforeHeartbeat? ==> e in s.intents && e !in s.armed && (IsOpen(s, e) || s.lease != Some(e)))
      && (p.Ready? ==> e in s.armed && e !in s.dispatched && IsOpen(s, e))
      && (p.AwaitResponse? ==> e in s.dispatched)
      && (p.RouteFailed? ==> e in s.dispatched && e !in s.inFlight && e !in s.minted)
  }

  /** At most two readbacks per execution, counted by where it stands. */
  predicate ReadsOf(s: State, e: Exec) {
    e in s.phases && e in s.readbacks ==>
      && s.readbacks[e] <= 2
      && (NoReadYet(s.phases[e], e) ==> s.readbacks[e] == 0)
      && (MayStillRead(s.phases[e]) ==> s.readbacks[e] <= 1)
  }

  predicate ExecInv(s: State, e: Exec) {
    HistoryOf(s, e) && PhaseOf(s, e) && ReadsOf(s, e)
  }

  /** Past its lease recheck with an intent that still counts. */
  predicate ArmedOpen(s: State, k: Exec) {
    k in s.armed && IsOpen(s, k)
  }

  predicate Clean(p: Phase) {
    p.PreRead? || p.ToPrepare? || p.BeforeHeartbeat?
  }

  /** The lease holder saw no open intent and has not yet rechecked its lease. */
  predicate HolderIsClean(s: State) {
    s.lease.Some? && s.lease.value in s.phases && Clean(s.phases[s.lease.value])
  }

  ghost predicate ArmedInv(s: State) {
    && (forall j, k :: ArmedOpen(s, j) && ArmedOpen(s, k) ==> j == k)
    && (HolderIsClean(s) ==> forall k :: !ArmedOpen(s, k))
  }

  ghost predicate Inv(s: State) {
    && WellFormed(s)
    && Distinct(s.order) && Distinct(s.dispatched)
    && (forall e :: ExecInv(s, e))
    && ArmedInv(s)
  }

  /** A step that only moves one execution to another phase. */
  lemma MoveKeepsInv(s: State, e: Exec, p: Phase, n: nat)
    requires Inv(s) && e in s.phases
    requires var t := Goto(s, e, p).(readbacks := s.readbacks[e := n]);
             PhaseOf(t, e) && ReadsOf(t, e) && (Clean(p) ==> Clean(s.phases[e]) || forall k :: !ArmedOpen(s, k))
    ensures Inv(Goto(s, e, p).(readbacks := s.readbacks[e := n]))
  {
    var t := Goto(s, e, p).(readbacks := s.readbacks[e := n]);
    forall j ensures ExecInv(t, j) { assert ExecInv(s, j); }
    forall j ensures ArmedOpen(t, j) ==> ArmedOpen(s, j) {}
  }

  /** Moving an open intent to another status, unless that status is a wrong `failed`. */
  lemma SetStatusKeepsInv(s: State, e: Exec, k: Exec, next: IntentStatus, p: Phase)
    requires Inv(s) && e in s.phases && !Clean(p) && !BeforeIntent(p) && !MayStillRead(p) && !p.RouteFailed?
    requires k in s.intents && s.intents[k] != Failed
    requires next == Failed ==> k == e && s.phases[e].RouteFailed?
    ensures Inv(Goto(s.(intents := s.intents[k := next]), e, p))
  {
    var t := Goto(s.(intents := s.intents[k := next]), e, p);
    forall j ensures ExecInv(t, j) { assert ExecInv(s, j); assert ExecInv(s, k); }
    forall j ensures ArmedOpen(t, j) ==> ArmedOpen(s, j) {}
  }

  lemma FinishKeepsInv(s: State, e: Exec)
    requires Inv(s) && e in s.phases
    ensures Inv(Finish(s, e)) && Inv(Goto(s, e, Halted))
  {
    var t := Finish(s, e);
    var u := Goto(s, e, Halted);
    forall j ensures ExecInv(t, j) && ExecInv(u, j) { assert ExecInv(s, j); }
    forall j ensures (ArmedOpen(t, j) || ArmedOpen(u, j)) ==> ArmedOpen(s, j) {}
  }

  lemma LinkKeepsInv(s: State, link: Link)
    requires Inv(s)
    ensures Inv(s.(link := Some(link)))
  {
    var t := s.(link := Some(link));
    forall j ensures ExecInv(t, j) { assert ExecInv(s, j); }
    forall j ensures ArmedOpen(t, j) ==> ArmedOpen(s, j) {}
  }

  lemma DoTransitionKeepsInv(s: State, e: Exec, k: Exec, next: IntentStatus, p: Phase)
    requires Inv(s) && e in s.phases && (p.RouteManual? || p.WriteManual? || p.WriteFailed?)
    requires next == Failed ==> k == e && s.phases[e].RouteFailed?
    ensures Inv(DoTransition(s, e, k, next, p))
  {
    if k in s.intents && AllowedTransition(s.intents[k], next) {
      SetStatusKeepsInv(s, e, k, next, p);
    } else {
      FinishKeepsInv(s, e);
    }
  }

  lemma StartKeepsInv(s: State, e: Exec)
    requires Inv(s) && Enabled(s, Start(e), Careful)
    ensures Inv(Do(s, Start(e), Careful))
  {
    var t := Do(s, Start(e), Careful);
    forall j ensures ExecInv(t, j) { assert ExecInv(s, j); }
    forall j ensures ArmedOpen(t, j) ==> ArmedOpen(s, j) { assert ExecInv(s, j); }
  }

  lemma DisableLinkKeepsInv(s: State, e: Exec)
    requires Inv(s) && Enabled(s, DisableLink(e), Careful)
    ensures Inv(Do(s, DisableLink(e), Careful))
  {
    FinishKeepsInv(s, e);
    LinkKeepsInv(s, SetLink(s, RegisteredDisabled).link.value);
    FinishKeepsInv(SetLink(s, RegisteredDisabled), e);
  }

  lemma LookUpKeepsInv(s: State, e: Exec)
    requires Inv(s) && Enabled(s, LookUp(e), Careful)
    ensures Inv(Do(s, LookUp(e), Careful))
  {
    assert ExecInv(s, e);
    if PriorIntent(s, |s.order|) == None {
      forall k ensures !ArmedOpen(s, k) { assert ExecInv(s, k); }
    }
    var t := Do(s, LookUp(e), Careful);
    assert t == Goto(s, e, t.phases[e]).(readbacks := s.readbacks[e := s.readbacks[e]]);
    MoveKeepsInv(s, e, t.phases[e], s.readbacks[e]);
  }

  lemma ReadKeepsInv(s: State, e: Exec, result: ReadResult)
    requires Inv(s) && Enabled(s, Read(e, result), Careful)
    ensures Inv(Do(s, Read(e, result), Careful))
  {
    assert ExecInv(s, e);
    var p := AfterRead(e, s.phases[e], result);
    MoveKeepsInv(s, e, p, s.readbacks[e] + 1);
    var t := Goto(s, e, p).(readbacks := s.readbacks[e := s.readbacks[e] + 1]);
    if p.Halted? {
      FinishKeepsInv(t, e);
      assert Finish(t, e) == Do(s, Read(e, result), Careful);
    }
  }

  lemma PrepareIntentKeepsInv(s: State, e: Exec)
    requires Inv(s) && Enabled(s, PrepareIntent(e), Careful)
    ensures Inv(Do(s, PrepareIntent(e), Careful))
  {
    var t := Do(s, PrepareIntent(e), Careful);
    assert t.order[|s.order|] == e;
    assert ExecInv(s, e);
    forall j ensures ExecInv(t, j) { assert ExecInv(s, j); }
    forall j ensures ArmedOpen(t, j) ==> ArmedOpen(s, j) { assert ExecInv(s, j); }
  }

  lemma HeartbeatKeepsInv(s: State, e: Exec)
    requires Inv(s) && Enabled(s, Heartbeat(e), Careful)
    ensures Inv(Do(s, Heartbeat(e), Careful))
  {
    var t := Do(s, Heartbeat(e), Careful);
    forall j ensures ExecInv(t, j) { assert ExecInv(s, j); }
    assert s.lease == Some(e) ==> HolderIsClean(s);
    forall j ensures ArmedOpen(t, j) ==> ArmedOpen(s, j) || (s.lease == Some(e) && j == e) {}
  }

  lemma DispatchKeepsInv(s: State, e: Exec)
    requires Inv(s) && Enabled(s, Dispatch(e), Careful)
    ensures Inv(Do(s, Dispatch(e), Careful))
  {
    var t := Do(s, Dispatch(e), Careful);
    assert t.dispatched[|s.dispatched|] == e;
    assert ExecInv(s, e);
    forall j ensures ExecInv(t, j) { assert ExecInv(s, j); }
    forall j ensures ArmedOpen(t, j) ==> ArmedOpen(s, j) { assert ExecInv(s, j); }
  }

  lemma MintKeepsInv(s: State, e: Exec, code: Code)
    requires Inv(s) && Enabled(s, Mint(e, code), Careful)
    ensures Inv(Do(s, Mint(e, code), Careful))
  {
    var t := Do(s, Mint(e, code), Careful);
    forall j ensures ExecInv(t, j) { assert ExecInv(s, j); }
    forall j ensures ArmedOpen(t, j) ==> ArmedOpen(s, j) { assert ExecInv(s, j); }
  }

  lemma RespondKeepsInv(s: State, e: Exec, reply: Reply)
    requires Inv(s) && Enabled(s, Respond(e, reply), Careful)
    ensures Inv(Do(s, Respond(e, reply), Careful))
  {
    var t := Do(s, Respond(e, reply), Careful);
    forall j ensures ExecInv(t, j) { assert ExecInv(s, j); }
    forall j ensures ArmedOpen(t, j) ==> ArmedOpen(s, j) { assert ExecInv(s, j); }
  }

  lemma TransitionKeepsInv(s: State, e: Exec)
    requires Inv(s) && Enabled(s, Transition(e), Careful)
    ensures Inv(Do(s, Transition(e), Careful))
  {
    match s.phases[e]
    case RouteBlocked(k) => DoTransitionKeepsInv(s, e, k, ClaimRetryBlocked, RouteManual(k));
    case RouteManual(k) => DoTransitionKeepsInv(s, e, k, ManualReviewRequired, WriteManual);
    case _ => DoTransitionKeepsInv(s, e, e, Failed, WriteFailed);
  }

  lemma CommitKeepsInv(s: State, e: Exec)
    requires Inv(s) && Enabled(s, Commit(e), Careful)
    ensures Inv(Do(s, Commit(e), Careful))
  {
    FinishKeepsInv(s, e);
    var p := s.phases[e];
    if s.lease == Some(e) {
      if p.Found? {
        var t := s;
        if p.confirm.Some? && p.confirm.value in s.intents && ReadbackConfirmable(s.intents[p.confirm.value]) {
          SetStatusKeepsInv(s, e, p.confirm.value, Confirmed, p);
          assert s.phases[e := p] == s.phases;
          t := s.(intents := s.intents[p.confirm.value := Confirmed]);
        }
        LinkKeepsInv(t, Link(Fetched, Some(p.code)));
        FinishKeepsInv(SetFetched(t, p.code), e);
      } else {
        var status := if p.WriteManual? then Pending else LinkFailed;
        LinkKeepsInv(s, SetLink(s, status).link.value);
        FinishKeepsInv(SetLink(s, status), e);
      }
    }
  }

  lemma AdjudicateKeepsInv(s: State, k: Exec, effect: bool)
    requires Inv(s) && Enabled(s, Adjudicate(k, effect), Careful)
    ensures Inv(Do(s, Adjudicate(k, effect), Careful))
  {
    var t := Do(s, Adjudicate(k, effect), Careful);
    forall j ensures ExecInv(t, j) { assert ExecInv(s, j); }
    forall j ensures ArmedOpen(t, j) ==> ArmedOpen(s, j) { assert ExecInv(s, j); }
  }

  /** Every step of every execution, of the upstream and of the environment keeps the invariant. */
  lemma StepKeepsInv(s: State, a: Action)
    requires Inv(s) && Enabled(s, a, Careful)
    ensures Inv(Do(s, a, Careful))
  {
    match a
    case Start(e) => StartKeepsInv(s, e);
    case Expire =>
      var t := Do(s, a, Careful);
      forall j ensures ExecInv(t, j) { assert ExecInv(s, j); }
      forall j ensures ArmedOpen(t, j) ==> ArmedOpen(s, j) {}
    case Crash(e) => FinishKeepsInv(s, e);
    case Exit(e) => FinishKeepsInv(s, e);
    case DisableLink(e) => DisableLinkKeepsInv(s, e);
    case LookUp(e) => LookUpKeepsInv(s, e);
    case Read(e, result) => ReadKeepsInv(s, e, result);
    case PrepareIntent(e) => PrepareIntentKeepsInv(s, e);
    case Heartbeat(e) => HeartbeatKeepsInv(s, e);
    case Dispatch(e) => DispatchKeepsInv(s, e);
    case Mint(e, code) => MintKeepsInv(s, e, code);
    case Lose(e) =>
      var t := Do(s, a, Careful);
      forall j ensures ExecInv(t, j) { assert ExecInv(s, j); }
      forall j ensures ArmedOpen(t, j) ==> ArmedOpen(s, j) {}
    case Respond(e, reply) => RespondKeepsInv(s, e, reply);
    case Transition(e) => TransitionKeepsInv(s, e);
    case Commit(e) => CommitKeepsInv(s, e);
    case Capture(code) => LinkKeepsInv(s, Link(Fetched, Some(code)));
    case Adjudicate(k, effect) => AdjudicateKeepsInv(s, k, effect);
  }

  lemma {:induction false} RunKeepsInv(s: State, actions: seq<Action>)
    requires Inv(s) && CanRun(s, actions, Careful)
    ensures Inv(Run(s, actions, Careful))
    decreases |actions|
  {
    if actions != [] {
      StepKeepsInv(s, actions[0]);
      RunKeepsInv(Do(s, actions[0], Careful), actions[1..]);
    }
  }

  // ---------------------------------------------------------------------
  // Safety over whole runs
  // ---------------------------------------------------------------------

  /** Whatever was minted belongs to the one dispatch whose intent counts. */
  lemma AtMostOneMinted(s: State)
    requires Inv(s)
    ensures |s.minted| <= 1 && forall j, k :: j in s.minted && k in s.minted ==> j == k
    ensures forall k :: k in s.minted ==> k in s.dispatched && IsOpen(s, k)
  {
    forall k | k in s.minted ensures k in s.dispatched && IsOpen(s, k) && ArmedOpen(s, k) { assert ExecInv(s, k); }
    if s.minted != map[] {
      var j :| j in s.minted;
      assert s.minted.Keys == {j};
    }
  }

  /**
   At most once: however executions interleave, crash and lose their leases, no
   execution dispatches `getcode` twice, at most one dispatch belongs to an intent
   that is not `failed`, and the upstream mints at most one code for the target.
   */
  lemma {:induction false} AtMostOneCode(actions: seq<Action>)
    requires CanRun(Init(), actions, Careful)
    ensures var s := Run(Init(), actions, Careful);
            && Distinct(s.dispatched)
            && (forall j, k :: j in s.dispatched && k in s.dispatched && IsOpen(s, j) && IsOpen(s, k) ==> j == k)
            && (forall j, k :: j in s.minted && k in s.minted ==> j == k)
            && |s.minted| <= 1
            && (forall k :: k in s.minted ==> k in s.dispatched && IsOpen(s, k))
  {
    RunKeepsInv(Init(), actions);
    var s := Run(Init(), actions, Careful);
    forall k ensures k in s.dispatched && IsOpen(s, k) ==> ArmedOpen(s, k) { assert ExecInv(s, k); }
    AtMostOneMinted(s);
  }

  /** An intent recorded as failed had no upstream effect, and never will have one. */
  lemma {:induction false} FailedHadNoEffect(before: seq<Action>, after: seq<Action>, k: Exec)
    requires CanRun(Init(), before, Careful) && CanRun(Run(Init(), before, Careful), after, Careful)
    requires var s := Run(Init(), before, Careful); k in s.intents && s.intents[k] == Failed
    ensures k !in Run(Run(Init(), before, Careful), after, Careful).minted
  {
    RunKeepsInv(Init(), before);
    var s := Run(Init(), before, Careful);
    SettledStaysSettled(s, after, k);
    RunKeepsInv(s, after);
    assert ExecInv(Run(s, after, Careful), k);
  }

  /** One execution never completes more than two readbacks. */
  lemma {:induction false} AtMostTwoReadbacks(actions: seq<Action>, e: Exec)
    requires CanRun(Init(), actions, Careful)
    ensures var s := Run(Init(), actions, Careful); e in s.readbacks ==> s.readbacks[e] <= 2
  {
    RunKeepsInv(Init(), actions);
    assert ExecInv(Run(Init(), actions, Careful), e);
  }

  // ---------------------------------------------------------------------
  // Who may move an intent, and where to
  // ---------------------------------------------------------------------

  /** The status changes an intent can undergo in one step. */
  predicate StatusStep(current: IntentStatus, next: IntentStatus, a: Action) {
    || next == current
    || (a.Transition? && AllowedTransition(current, next) && next != Confirmed)
    || (a.Commit? && ReadbackConfirmable(current) && next == Confirmed)
    || (a.Adjudicate? && current == ManualReviewRequired && (next == Confirmed || next == Failed))
  }

  /**
   A worker confirms an intent only by the fenced write of an execution that holds
   the lease and has just read the promo back; the same write makes the PromoLink
   `fetched` with exactly that code.
   */
  lemma IntentStep(s: State, a: Action, k: Exec)
    requires Inv(s) && Enabled(s, a, Careful) && k in s.intents
    ensures var t := Do(s, a, Careful);
            && k in t.intents
            && StatusStep(s.intents[k], t.intents[k], a)
            && (t.intents[k] == Confirmed && s.intents[k] != Confirmed && !a.Adjudicate? ==>
                  && a.Commit? && s.lease == Some(a.e)
                  && s.phases[a.e].Found? && s.phases[a.e].confirm == Some(k)
                  && t.link == Some(Link(Fetched, Some(s.phases[a.e].code))))
  {
    assert ExecInv(s, k);
  }

  /** `failed` and `confirmed` are final for everyone. */
  lemma {:induction false} SettledStaysSettled(s: State, actions: seq<Action>, k: Exec)
    requires Inv(s) && CanRun(s, actions, Careful)
    requires k in s.intents && (s.intents[k] == Failed || s.intents[k] == Confirmed)
    ensures var t := Run(s, actions, Careful); k in t.intents && t.intents[k] == s.intents[k]
    decreases |actions|
  {
    if actions != [] {
      StepKeepsInv(s, actions[0]);
      IntentStep(s, actions[0], k);
      SettledStaysSettled(Do(s, actions[0], Careful), actions[1..], k);
    }
  }

  /** Only an operator takes an intent out of manual review, whatever the workers do. */
  lemma {:induction false} ManualReviewStays(s: State, actions: seq<Action>, k: Exec)
    requires Inv(s) && CanRun(s, actions, Careful)
    requires k in s.intents && s.intents[k] == ManualReviewRequired
    requires forall a <- actions :: !a.Adjudicate?
    ensures var t := Run(s, actions, Careful); k in t.intents && t.intents[k] == ManualReviewRequired
    decreases |actions|
  {
    if actions != [] {
      StepKeepsInv(s, actions[0]);
      IntentStep(s, actions[0], k);
      ManualReviewStays(Do(s, actions[0], Careful), actions[1..], k);
    }
  }
}
