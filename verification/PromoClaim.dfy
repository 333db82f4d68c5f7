/**
 The promo-link claim protocol (worker/handlers/promo-link-claim.ts), as a state
 machine over the steps of any number of executions on ONE claim target.

 `getcode` is a non-idempotent upstream mutation.  An execution makes a durable
 intent, rechecks its lease, dispatches `getcode` at most once, and afterwards may
 only read.  Steps of different executions interleave freely; an execution can
 crash or lose its lease between any two of its steps and, having lost the lease,
 keeps running until it notices; the upstream may apply a dispatched request
 arbitrarily late.
 */
module PromoClaim {
  import opened Wrappers

  /** One worker attempt (task, item, attempt count); also its intent's effect key. */
  type Exec = nat
  type Code = string

  datatype IntentStatus = Prepared | Confirmed | Failed | ClaimRetryBlocked | ManualReviewRequired

  datatype LinkStatus = Pending | RegisteredDisabled | LinkFailed | Fetched

  datatype Link = Link(status: LinkStatus, code: Option<Code>)

  /** What one bounded readback reports to the decision tree. */
  datatype ReadResult = ReadFound(code: Code) | ReadMissing | ReadUnlocated | ReadError

  /** How the `getcode` call came back. */
  datatype Reply = Accepted(code: Code) | AmbiguousFailure | RejectedFailure

  /** Where an execution stands: the next thing it will do. */
  datatype Phase =
    | Begun(loadedFetched: bool)                           // scope loaded, local checks next
    | Recovering(intent: Exec, snapshot: IntentStatus)     // readback-only recovery of an intent
    | Found(confirm: Option<Exec>, code: Code)             // fenced write of a read-back code
    | RouteBlocked(intent: Exec)                           // intent -> claim_retry_blocked
    | RouteManual(intent: Exec)                            // intent -> manual_review_required
    | WriteManual                                          // fenced write: link needs manual review
    | PreRead                                              // no open intent was found
    | ToPrepare                                            // the pre-read said "missing"
    | BeforeHeartbeat                                      // own intent durable, lease not rechecked
    | Ready                                                // lease rechecked, about to dispatch
    | AwaitResponse                                        // getcode dispatched
    | Confirming(expected: Code)                           // getcode accepted, confirming read
    | RouteFailed                                          // own intent -> failed
    | WriteFailed                                          // fenced write: claim failed
    | Halted

  datatype State = State(
    phases: map<Exec, Phase>,
    lease: Option<Exec>,                // the one valid lease on this target
    intents: map<Exec, IntentStatus>,
    order: seq<Exec>,                   // intents by creation time
    link: Option<Link>,
    armed: set<Exec>,                   // executions that ever passed the lease recheck
    dispatched: seq<Exec>,              // every getcode dispatch ever made
    inFlight: set<Exec>,                // dispatched, upstream may still apply or lose it
    minted: map<Exec, Code>,            // codes the upstream minted, by dispatching execution
    readbacks: map<Exec, nat>)              // readbacks completed per execution

  datatype Action =
    | Start(e: Exec)
    | Expire
    | Crash(e: Exec)
    | Exit(e: Exec)
    | DisableLink(e: Exec)
    | LookUp(e: Exec)
    | Read(e: Exec, result: ReadResult)
    | PrepareIntent(e: Exec)
    | Heartbeat(e: Exec)
    | Dispatch(e: Exec)
    | Mint(e: Exec, code: Code)
    | Lose(e: Exec)
    | Respond(e: Exec, reply: Reply)
    | Transition(e: Exec)
    | Commit(e: Exec)
    | Capture(code: Code)
    | Adjudicate(intent: Exec, effectConfirmed: bool)

  /**
   Rule for the operator who adjudicates an intent under manual review.  `Careful`: "no
   effect" is only answered when the owning execution's request can no longer take effect.
   The code itself accepts either answer at any time.
   */
  datatype OperatorRule = Careful | Unchecked

  function Init(): State {
    State(map[], None, map[], [], None, {}, [], {}, map[], map[])
  }

  /** An intent that still counts: every status other than failed. */
  predicate IsOpen(s: State, k: Exec) {
    k in s.intents && s.intents[k] != Failed
  }

  /** The newest intent that still counts (status other than failed). */
  function PriorIntent(s: State, n: nat): (r: Option<Exec>)
    requires n <= |s.order|
    requires forall k <- s.order :: k in s.intents
    ensures r.Some? ==> r.value in s.order && IsOpen(s, r.value)
    ensures r.None? ==> forall i :: 0 <= i < n ==> s.intents[s.order[i]] == Failed
  {
    if n == 0 then None
    else if IsOpen(s, s.order[n - 1]) then Some(s.order[n - 1])
    else PriorIntent(s, n - 1)
  }

  /** The prior intent is the newest that counts: every later one failed. */
  lemma {:induction false} PriorIntentIsNewest(s: State, n: nat) returns (at: nat)
    requires n <= |s.order|
    requires forall k <- s.order :: k in s.intents
    requires PriorIntent(s, n).Some?
    ensures at < n && s.order[at] == PriorIntent(s, n).value && IsOpen(s, s.order[at])
    ensures forall j :: at < j < n ==> s.intents[s.order[j]] == Failed
  {
    if IsOpen(s, s.order[n - 1]) {
      at := n - 1;
    } else {
      at := PriorIntentIsNewest(s, n - 1);
    }
  }

  predicate WellFormed(s: State) {
    && (forall k <- s.order :: k in s.intents)
    && s.phases.Keys == s.readbacks.Keys
  }

  /** The generic worker graph of intent transitions. */
  predicate AllowedTransition(current: IntentStatus, next: IntentStatus) {
    match current
    case Prepared => next == Confirmed || next == Failed || next == ClaimRetryBlocked
    case ClaimRetryBlocked => next == ManualReviewRequired
    case _ => false
  }

  predicate ReadbackConfirmable(status: IntentStatus) {
    status == Prepared || status == ClaimRetryBlocked
  }

  /**
   The intent's request took no effect and cannot take one: it minted nothing, is not in
   flight, and its owner is neither about to dispatch nor able to pass the lease recheck.
   */
  predicate NoEffectPossible(s: State, k: Exec) {
    && k in s.phases && k !in s.minted && k !in s.inFlight && s.phases[k] != Ready
    && (s.phases[k] == BeforeHeartbeat ==> s.lease != Some(k))
  }

  predicate Enabled(s: State, a: Action, rule: OperatorRule)
    requires WellFormed(s)
  {
    match a
    case Start(e) => e !in s.phases && e !in s.intents && s.lease == None
    case Expire => s.lease.Some?
    case Crash(e) => e in s.phases
    case Exit(e) => e in s.phases && s.phases[e].Begun?
    case DisableLink(e) => e in s.phases && s.phases[e] == Begun(false)
    case LookUp(e) => e in s.phases && s.phases[e] == Begun(false)
    case Read(e, _) => e in s.phases && (s.phases[e].Recovering? || s.phases[e].PreRead? || s.phases[e].Confirming?)
    case PrepareIntent(e) => e in s.phases && s.phases[e].ToPrepare?
    case Heartbeat(e) => e in s.phases && s.phases[e].BeforeHeartbeat?
    case Dispatch(e) => e in s.phases && s.phases[e].Ready?
    case Mint(e, _) => e in s.inFlight
    case Lose(e) => e in s.inFlight
    case Respond(e, reply) =>
      && e in s.phases && s.phases[e].AwaitResponse?
      && (reply.Accepted? ==> e in s.minted && s.minted[e] == reply.code)
      && (reply.RejectedFailure? ==> e !in s.minted)
    case Transition(e) =>
      e in s.phases && (s.phases[e].RouteBlocked? || s.phases[e].RouteManual? || s.phases[e].RouteFailed?)
    case Commit(e) => e in s.phases && (s.phases[e].Found? || s.phases[e].WriteManual? || s.phases[e].WriteFailed?)
    case Capture(_) => true
    case Adjudicate(k, effect) =>
      && k in s.intents && s.intents[k] == ManualReviewRequired
      && (rule == Careful && !effect ==> NoEffectPossible(s, k))
  }

  function Goto(s: State, e: Exec, p: Phase): State {
    s.(phases := s.phases[e := p])
  }

  /** The item became terminal: the execution stops and its lease is released. */
  function Finish(s: State, e: Exec): State {
    Goto(s, e, Halted).(lease := if s.lease == Some(e) then None else s.lease)
  }

  function SetLink(s: State, status: LinkStatus): State {
    s.(link := Some(Link(status, if s.link.Some? then s.link.value.code else None)))
  }

  function SetFetched(s: State, code: Code): State {
    s.(link := Some(Link(Fetched, Some(code))))
  }

  /** Where a readback-only recovery goes when the readback did not find the promo. */
  function RouteFrom(k: Exec, snapshot: IntentStatus): Phase {
    match snapshot
    case Prepared => RouteBlocked(k)
    case ClaimRetryBlocked => RouteManual(k)
    case _ => WriteManual
  }

  function AfterRead(e: Exec, p: Phase, result: ReadResult): Phase
    requires p.Recovering? || p.PreRead? || p.Confirming?
  {
    match p
    case Recovering(k, snapshot) =>
      if result.ReadFound?
      then Found(if snapshot == Confirmed then None else Some(k), result.code)
      else RouteFrom(k, snapshot)
    case Confirming(expected) =>
      if result == ReadFound(expected) then Found(Some(e), expected) else RouteBlocked(e)
    case _ =>
      match result
      case ReadFound(code) => Found(None, code)
      case ReadMissing => ToPrepare
      case _ => Halted
  }

  function DoTransition(s: State, e: Exec, k: Exec, next: IntentStatus, then_: Phase): State {
    if k in s.intents && AllowedTransition(s.intents[k], next)
    then Goto(s.(intents := s.intents[k := next]), e, then_)
    else Finish(s, e)
  }

  /** The fenced write: it needs the lease, and a confirmation needs a confirmable intent. */
  function DoCommit(s: State, e: Exec, p: Phase): State
    requires p.Found? || p.WriteManual? || p.WriteFailed?
  {
    if s.lease != Some(e) then Goto(s, e, Halted)
    else match p
      case Found(None, code) => Finish(SetFetched(s, code), e)
      case Found(Some(k), code) =>
        if k in s.intents && ReadbackConfirmable(s.intents[k])
        then Finish(SetFetched(s.(intents := s.intents[k := Confirmed]), code), e)
        else Goto(s, e, Halted)
      case WriteManual => Finish(SetLink(s, Pending), e)
      case _ => Finish(SetLink(s, LinkFailed), e)
  }

  /** One more readback, and where its result leads; a pre-read that cannot decide ends the item. */
  function DoRead(s: State, e: Exec, next: Phase): State
    requires e in s.readbacks
  {
    var t := s.(readbacks := s.readbacks[e := s.readbacks[e] + 1]);
    if next.Halted? then Finish(t, e) else Goto(t, e, next)
  }

  function Do(s: State, a: Action, rule: OperatorRule): State
    requires WellFormed(s) && Enabled(s, a, rule)
  {
    match a
    case Start(e) =>
      s.(phases := s.phases[e := Begun(s.link.Some? && s.link.value.status == Fetched)],
         readbacks := s.readbacks[e := 0], lease := Some(e))
    case Expire => s.(lease := None)
    case Crash(e) => Goto(s, e, Halted)
    case Exit(e) => Finish(s, e)
    case DisableLink(e) =>
      if s.lease == Some(e) then Finish(SetLink(s, RegisteredDisabled), e) else Goto(s, e, Halted)
    case LookUp(e) =>
      (match PriorIntent(s, |s.order|)
       case None => Goto(s, e, PreRead)
       case Some(k) =>
         if s.intents[k] == ManualReviewRequired then Goto(s, e, WriteManual)
         else Goto(s, e, Recovering(k, s.intents[k])))
    case Read(e, result) => DoRead(s, e, AfterRead(e, s.phases[e], result))
    case PrepareIntent(e) =>
      Goto(s.(intents := s.intents[e := Prepared], order := s.order + [e]), e, BeforeHeartbeat)
    case Heartbeat(e) =>
      if s.lease == Some(e) then Goto(s.(armed := s.armed + {e}), e, Ready) else Goto(s, e, Halted)
    case Dispatch(e) =>
      Goto(s.(dispatched := s.dispatched + [e], inFlight := s.inFlight + {e}), e, AwaitResponse)
    case Mint(e, code) => s.(inFlight := s.inFlight - {e}, minted := s.minted[e := code])
    case Lose(e) => s.(inFlight := s.inFlight - {e})
    case Respond(e, reply) =>
      (match reply
       case Accepted(code) => Goto(s, e, Confirming(code))
       case AmbiguousFailure => Goto(s, e, Recovering(e, Prepared))
       case RejectedFailure => Goto(s.(inFlight := s.inFlight - {e}), e, RouteFailed))
    case Transition(e) =>
      (match s.phases[e]
       case RouteBlocked(k) => DoTransition(s, e, k, ClaimRetryBlocked, RouteManual(k))
       case RouteManual(k) => DoTransition(s, e, k, ManualReviewRequired, WriteManual)
       case _ => DoTransition(s, e, e, Failed, WriteFailed))
    case Commit(e) => DoCommit(s, e, s.phases[e])
    case Capture(code) => SetFetched(s, code)
    case Adjudicate(k, effect) => s.(intents := s.intents[k := if effect then Confirmed else Failed])
  }

  /** Only execution `e` moved; requests, codes and the intents' order are as before, no lease was
      given, and `e` is not about to dispatch. */
  ghost predicate OnlyMoves(s: State, t: State, e: Exec) {
    && (forall j :: j in t.phases <==> j in s.phases)
    && (forall j :: j in s.phases && j != e ==> t.phases[j] == s.phases[j])
    && t.intents.Keys == s.intents.Keys && t.order == s.order && t.readbacks.Keys == s.readbacks.Keys
    && t.minted == s.minted && t.inFlight == s.inFlight && t.dispatched == s.dispatched
    && (t.lease == s.lease || t.lease == None)
    && e in s.phases && NotEarlier(s.phases[e], t.phases[e])
  }

  /** Not about to dispatch or recheck; before any intent of its own only after a pre-read. */
  predicate NotEarlier(p: Phase, q: Phase) {
    q != Ready && q != BeforeHeartbeat && !q.Begun? && q != PreRead && (q == ToPrepare ==> p == PreRead)
  }

  lemma TransitionOnlyMoves(s: State, e: Exec, k: Exec, next: IntentStatus, then_: Phase)
    requires e in s.phases && NotEarlier(s.phases[e], then_)
    ensures OnlyMoves(s, DoTransition(s, e, k, next, then_), e)
  {
    if k in s.intents && AllowedTransition(s.intents[k], next) {
      assert s.intents[k := next].Keys == s.intents.Keys;
    }
  }

  lemma FinishOnlyMoves(s: State, e: Exec, link: Option<Link>, intents: map<Exec, IntentStatus>)
    requires e in s.phases && intents.Keys == s.intents.Keys
    ensures OnlyMoves(s, Finish(s.(link := link, intents := intents), e), e)
  {}

  lemma HaltOnlyMoves(s: State, e: Exec)
    requires e in s.phases
    ensures OnlyMoves(s, Goto(s, e, Halted), e)
  {}

  lemma CommitOnlyMoves(s: State, e: Exec, p: Phase)
    requires e in s.phases && (p.Found? || p.WriteManual? || p.WriteFailed?)
    ensures OnlyMoves(s, DoCommit(s, e, p), e)
  {
    HaltOnlyMoves(s, e);
    if p.Found? {
      if p.confirm.Some? && p.confirm.value in s.intents {
        assert s.intents[p.confirm.value := Confirmed].Keys == s.intents.Keys;
        FinishOnlyMoves(s, e, Some(Link(Fetched, Some(p.code))), s.intents[p.confirm.value := Confirmed]);
      }
      FinishOnlyMoves(s, e, Some(Link(Fetched, Some(p.code))), s.intents);
    } else {
      FinishOnlyMoves(s, e, SetLink(s, if p.WriteManual? then Pending else LinkFailed).link, s.intents);
    }
  }

  lemma AfterReadNotEarlier(e: Exec, p: Phase, result: ReadResult)
    requires p.Recovering? || p.PreRead? || p.Confirming?
    ensures NotEarlier(p, AfterRead(e, p, result))
  {}

  lemma ReadOnlyMoves(s: State, e: Exec, next: Phase)
    requires e in s.phases && e in s.readbacks && NotEarlier(s.phases[e], next)
    ensures OnlyMoves(s, DoRead(s, e, next), e)
  {
    assert s.readbacks[e := s.readbacks[e] + 1].Keys == s.readbacks.Keys;
  }

  predicate Fenced(a: Action) {
    a.Transition? || a.Commit? || a.DisableLink? || a.Exit? || a.Read?
  }

  lemma FencedOnlyMoves(s: State, a: Action, rule: OperatorRule)
    requires WellFormed(s) && Enabled(s, a, rule) && Fenced(a)
    ensures OnlyMoves(s, Do(s, a, rule), a.e)
  {
    match a
    case Transition(e) =>
      match s.phases[e] {
        case RouteBlocked(k) => TransitionOnlyMoves(s, e, k, ClaimRetryBlocked, RouteManual(k));
        case RouteManual(k) => TransitionOnlyMoves(s, e, k, ManualReviewRequired, WriteManual);
        case _ => TransitionOnlyMoves(s, e, e, Failed, WriteFailed);
      }
    case Commit(e) => CommitOnlyMoves(s, e, s.phases[e]);
    case Read(e, result) =>
      AfterReadNotEarlier(e, s.phases[e], result);
      ReadOnlyMoves(s, e, AfterRead(e, s.phases[e], result));
    case Exit(e) => FinishOnlyMoves(s, e, s.link, s.intents);
    case DisableLink(e) =>
      HaltOnlyMoves(s, e);
      FinishOnlyMoves(s, e, SetLink(s, RegisteredDisabled).link, s.intents);
  }

  // ---------------------------------------------------------------------
  // Runs
  // ---------------------------------------------------------------------

  /** The actions can be taken one after the other from `s`. */
  predicate CanRun(s: State, actions: seq<Action>, rule: OperatorRule)
    decreases |actions|
  {
    actions == [] ||
    (WellFormed(s) && Enabled(s, actions[0], rule) && CanRun(Do(s, actions[0], rule), actions[1..], rule))
  }

  function Run(s: State, actions: seq<Action>, rule: OperatorRule): State
    requires CanRun(s, actions, rule)
    decreases |actions|
  {
    if actions == [] then s else Run(Do(s, actions[0], rule), actions[1..], rule)
  }

  lemma {:induction false} RunCons(s: State, a: Action, rest: seq<Action>, rule: OperatorRule)
    requires WellFormed(s) && Enabled(s, a, rule) && CanRun(Do(s, a, rule), rest, rule)
    ensures CanRun(s, [a] + rest, rule) && Run(s, [a] + rest, rule) == Run(Do(s, a, rule), rest, rule)
  {
    assert ([a] + rest)[1..] == rest;
  }

  ghost predicate StepAt(trace: seq<State>, i: int, rule: OperatorRule)
    requires 0 <= i < |trace| - 1
  {
    WellFormed(trace[i]) && exists a :: Enabled(trace[i], a, rule) && trace[i + 1] == Do(trace[i], a, rule)
  }

  ghost predicate IsTrace(trace: seq<State>, s: State, t: State, rule: OperatorRule) {
    && |trace| > 0 && trace[0] == s && trace[|trace| - 1] == t
    && forall i :: 0 <= i < |trace| - 1 ==> StepAt(trace, i, rule)
  }

  /** Some run leads from `s` to `t`. */
  ghost predicate Reaches(s: State, t: State, rule: OperatorRule) {
    exists trace :: IsTrace(trace, s, t, rule)
  }

  lemma ReachStay(s: State, rule: OperatorRule)
    ensures Reaches(s, s, rule)
  {
    assert IsTrace([s], s, s, rule);
  }

  lemma ReachStep(s: State, t: State, a: Action, rule: OperatorRule)
    requires Reaches(s, t, rule) && WellFormed(t) && Enabled(t, a, rule)
    ensures Reaches(s, Do(t, a, rule), rule)
  {
    var trace :| IsTrace(trace, s, t, rule);
    var longer := trace + [Do(t, a, rule)];
    forall i | 0 <= i < |longer| - 1 ensures StepAt(longer, i, rule) {
      if i < |trace| - 1 {
        assert StepAt(trace, i, rule);
      }
    }
    assert IsTrace(longer, s, Do(t, a, rule), rule);
  }

  lemma {:induction false} TraceIsRun(trace: seq<State>, s: State, t: State, rule: OperatorRule)
    returns (actions: seq<Action>)
    requires IsTrace(trace, s, t, rule)
    ensures CanRun(s, actions, rule) && Run(s, actions, rule) == t
    decreases |trace|
  {
    if |trace| == 1 {
      actions := [];
    } else {
      assert StepAt(trace, 0, rule);
      var a :| Enabled(s, a, rule) && trace[1] == Do(s, a, rule);
      forall i | 0 <= i < |trace| - 2 ensures StepAt(trace[1..], i, rule) {
        assert StepAt(trace, i + 1, rule);
      }
      var rest := TraceIsRun(trace[1..], trace[1], t, rule);
      RunCons(s, a, rest, rule);
      actions := [a] + rest;
    }
  }
}
