/**
 The claim handler itself: one execution as the imperative sequence the worker runs,
 while everybody else interferes between any two of its steps.  Every durable effect
 goes through a step of the protocol, so what holds of all runs holds here.
 */
module PromoClaimWorker {
  import opened Wrappers
  import opened PromoClaim
  import opened PromoClaimSafety
  import R = PromoReadback

  /** The decision recorded for the item. */
  datatype Decision =
    | ManualReview
    | ReadbackRecovered(code: Code)
    | AlreadyAvailable(code: Code)
    | Claimed(code: Code)
    | ClaimFailed
    | PreReadFailed
    | LeaseLostBeforeClaim
    | TransitionRefused

  /** Steps of the lease table, the upstream, the catalog and the operator. */
  predicate Environment(a: Action) {
    a.Expire? || a.Capture? || a.Adjudicate? || a.Mint? || a.Lose?
  }

  /** A step only execution `me` takes; the lease, the upstream and the operator are not its own. */
  predicate OwnStep(a: Action, me: Exec) {
    !Environment(a) && a.e == me
  }

  /** What nobody else changes about execution `me`. */
  predicate SameForMe(s: State, t: State, me: Exec) {
    && me in s.phases && me in t.phases && t.phases[me] == s.phases[me]
    && (me in t.dispatched <==> me in s.dispatched)
    && (me in t.intents <==> me in s.intents)
  }

  lemma OthersLeaveMe(s: State, a: Action, me: Exec)
    requires WellFormed(s) && Enabled(s, a, Careful) && !OwnStep(a, me) && me in s.phases
    ensures SameForMe(s, Do(s, a, Careful), me)
  {
    if Fenced(a) {
      FencedOnlyMoves(s, a, Careful);
    }
  }

  /** Every reachable state meets the invariant and the at-most-one-code guarantee. */
  lemma ReachableIsSafe(s: State)
    requires Reaches(Init(), s, Careful)
    ensures Inv(s) && |s.minted| <= 1
  {
    var trace :| IsTrace(trace, Init(), s, Careful);
    var actions := TraceIsRun(trace, Init(), s, Careful);
    RunKeepsInv(Init(), actions);
    AtMostOneCode(actions);
  }

  /** The same without the invariant itself. */
  lemma ReachableIsWellFormed(s: State)
    requires Reaches(Init(), s, Careful)
    ensures WellFormed(s) && |s.minted| <= 1
  {
    ReachableIsSafe(s);
  }

  function ResultOf(a: R.Answer): ReadResult {
    match a
    case PromoFound(code) => ReadFound(code)
    case PromoMissing => ReadMissing
    case Thrown(_) => ReadError
    case _ => ReadUnlocated
  }

  /** What the protected write of a decision leaves behind on the PromoLink. */
  predicate LinkFits(link: Option<Link>, d: Decision) {
    match d
    case ManualReview => link.Some? && link.value.status == Pending
    case ReadbackRecovered(code) => link == Some(Link(Fetched, Some(code)))
    case AlreadyAvailable(code) => link == Some(Link(Fetched, Some(code)))
    case Claimed(code) => link == Some(Link(Fetched, Some(code)))
    case ClaimFailed => link.Some? && link.value.status == LinkFailed
    case _ => false
  }

  /** The intent a fenced write would confirm, if any, can be confirmed by a readback. */
  predicate Confirmable(s: State, p: Phase) {
    p.Found? && p.confirm.Some? ==> p.confirm.value in s.intents && ReadbackConfirmable(s.intents[p.confirm.value])
  }

  /** The intents with the one this write confirms. */
  function WithConfirmed(intents: map<Exec, IntentStatus>, p: Phase): map<Exec, IntentStatus> {
    if p.Found? && p.confirm.Some? then intents[p.confirm.value := Confirmed] else intents
  }

  /** The status of the newest intent that counts, if there is one. */
  ghost function PriorStatus(s: State): Option<IntentStatus>
    requires WellFormed(s)
  {
    var k := PriorIntent(s, |s.order|);
    if k.Some? then Some(s.intents[k.value]) else None
  }

  class ClaimWorker {
    const me: Exec
    const upstream: R.Upstream
    const attempts: nat
    const refreshedTitle: string
    const schedule: nat -> seq<Action>   // what everybody else tries to do, turn by turn
    const replyKind: nat                 // how the upstream answers getcode

    var world: State
    var turn: nat
    var readCalls: nat
    var getcodeCalls: nat

    constructor (me: Exec, world: State, upstream: R.Upstream, attempts: nat, refreshedTitle: string,
                 schedule: nat -> seq<Action>, replyKind: nat)
      requires Reaches(Init(), world, Careful) && me in world.phases && 1 <= attempts
      ensures this.world == world && this.me == me && this.attempts == attempts && Valid()
      ensures readCalls == 0 && getcodeCalls == 0
    {
      this.me, this.world, this.upstream, this.attempts := me, world, upstream, attempts;
      this.refreshedTitle, this.schedule, this.replyKind := refreshedTitle, schedule, replyKind;
      turn, readCalls, getcodeCalls := 0, 0, 0;
      new;
      ReachableIsWellFormed(world);
    }

    ghost predicate Valid()
      reads this
    {
      WellFormed(world) && Reaches(Init(), world, Careful) && me in world.phases && 1 <= attempts
    }

    method Step(a: Action)
      requires Valid() && Enabled(world, a, Careful)
      modifies `world
      ensures Valid() && world == Do(old(world), a, Careful)
    {
      ReachStep(Init(), world, a, Careful);
      ReachableIsWellFormed(Do(world, a, Careful));
      world := Do(world, a, Careful);
    }

    /** Everybody else takes as many steps as they like. */
    method Others()
      requires Valid()
      modifies `world, `turn
      ensures Valid() && SameForMe(old(world), world, me)
    {
      var script := schedule(turn);
      turn := turn + 1;
      for i := 0 to |script|
        invariant Valid() && SameForMe(old(world), world, me)
      {
        if Enabled(world, script[i], Careful) && !OwnStep(script[i], me) {
          ReachableIsWellFormed(world);
          OthersLeaveMe(world, script[i], me);
          Step(script[i]);
        }
      }
    }

    /** The last call made so far answered this code. */
    ghost predicate LastRead(code: Code)
      reads `readCalls
    {
      readCalls > 0 && upstream.answer(readCalls - 1) == R.PromoFound(code)
    }

    /** How the recovery read that starts with call `first` ends. */
    ghost predicate Recovers(first: nat, answer: R.Answer) {
      R.ReadsAs(upstream, first, attempts, R.Options(true, None), refreshedTitle, answer)
    }

    /** One bounded readback: at most two coordinates of `attempts` calls each. */
    method CallUpstream(options: R.Options) returns (result: ReadResult, ghost answer: R.Answer)
      requires 1 <= attempts
      modifies `readCalls
      ensures old(readCalls) < readCalls <= old(readCalls) + 2 * attempts
      ensures R.ReadsAs(upstream, old(readCalls), attempts, options, refreshedTitle, answer)
      ensures answer.PromoFound? ==> answer == upstream.answer(readCalls - 1)
      ensures result.ReadFound? <==> answer.PromoFound?
      ensures result.ReadFound? ==> result.code == answer.code
      ensures result.ReadMissing? <==> answer.PromoMissing?
      ensures result.ReadError? <==> answer.Thrown?
    {
      var read, calls := R.Readback(upstream, readCalls, attempts, options, refreshedTitle);
      answer := read;
      readCalls := readCalls + calls;
      result := ResultOf(read);
    }

    /** A readback, and the phase its answer leads to. */
    method ReadPromo(options: R.Options) returns (result: ReadResult, ghost answer: R.Answer)
      requires Valid()
      requires var p := world.phases[me]; p.Recovering? || p.PreRead? || p.Confirming?
      modifies `world, `turn, `readCalls
      ensures Valid() && old(readCalls) < readCalls <= old(readCalls) + 2 * attempts
      ensures R.ReadsAs(upstream, old(readCalls), attempts, options, refreshedTitle, answer)
      ensures answer.PromoFound? ==> result == ReadFound(answer.code) && answer == upstream.answer(readCalls - 1)
      ensures result.ReadFound? ==> answer.PromoFound?
      ensures result.ReadMissing? <==> answer.PromoMissing?
      ensures world.phases[me] == AfterRead(me, old(world.phases[me]), result)
      ensures me in world.dispatched <==> me in old(world.dispatched)
    {
      result, answer := CallUpstream(options);
      Others();
      Step(Read(me, result));
    }

    /** `routeIntentToManualReview`: through `claim_retry_blocked` where needed. */
    method RouteIntentToManualReview() returns (routed: bool)
      requires Valid()
      requires var p := world.phases[me]; p.RouteBlocked? || p.RouteManual? || p.WriteManual?
      modifies `world, `turn
      ensures Valid() && world.phases[me] == if routed then WriteManual else Halted
      ensures me in world.dispatched <==> me in old(world.dispatched)
    {
      if world.phases[me].RouteBlocked? {
        Others();
        Step(Transition(me));
      }
      if world.phases[me].RouteManual? {
        Others();
        Step(Transition(me));
      }
      routed := world.phases[me] != Halted;
    }

    /**
     The fenced write that ends the item, tried in the state `at` that everybody else left:
     it takes effect under the lease and with a confirmable intent, and then leaves link and
     intents as its decision says; otherwise it leaves them as they were.
     */
    method ProtectedWrite(d: Decision) returns (written: bool, ghost at: State)
      requires Valid()
      requires var p := world.phases[me];
               match d
               case ManualReview => p.WriteManual?
               case ClaimFailed => p.WriteFailed?
               case Claimed(code) => p == Found(Some(me), code)
               case AlreadyAvailable(code) => p == Found(None, code)
               case ReadbackRecovered(code) => p.Found? && p.code == code
               case _ => false
      modifies `world, `turn
      ensures Valid() && world.phases[me] == Halted
      ensures SameForMe(old(world), at, me)
      ensures written <==> at.lease == Some(me) && Confirmable(at, old(world.phases[me]))
      ensures written ==> LinkFits(world.link, d) && world.lease == None
      ensures written ==> world.intents == WithConfirmed(at.intents, old(world.phases[me]))
      ensures !written ==> world.link == at.link && world.intents == at.intents
      ensures written && d.Claimed? ==> me in world.intents && world.intents[me] == Confirmed
      ensures me in world.dispatched <==> me in old(world.dispatched)
    {
      Others();
      at := world;
      var p := world.phases[me];
      written := world.lease == Some(me) && Confirmable(world, p);
      Step(Commit(me));
    }

    /** No code was read: the intent goes to manual review, or its transition was refused. */
    method ReviewInstead() returns (d: Decision, written: bool)
      requires Valid()
      requires var p := world.phases[me]; p.RouteBlocked? || p.RouteManual? || p.WriteManual?
      modifies `world, `turn
      ensures Valid() && world.phases[me] == Halted
      ensures d.ManualReview? || (d.TransitionRefused? && !written)
      ensures written ==> LinkFits(world.link, ManualReview)
      ensures me in world.dispatched <==> me in old(world.dispatched)
    {
      var routed := RouteIntentToManualReview();
      if !routed {
        return TransitionRefused, false;
      }
      d := ManualReview;
      ghost var at: State;
      written, at := ProtectedWrite(d);
    }

    /** Readback-only: the promo is found, or the intent goes to manual review. */
    method Recover() returns (d: Decision, written: bool, ghost answer: R.Answer)
      requires Valid() && world.phases[me].Recovering?
      modifies `world, `turn, `readCalls
      ensures Valid() && world.phases[me] == Halted
      ensures old(readCalls) < readCalls <= old(readCalls) + 2 * attempts
      ensures Recovers(old(readCalls), answer)
      ensures answer.PromoFound? ==> d == ReadbackRecovered(answer.code) && answer == upstream.answer(readCalls - 1)
      ensures !answer.PromoFound? ==> d.ManualReview? || (d.TransitionRefused? && !written)
      ensures written ==> LinkFits(world.link, d)
      ensures me in world.dispatched <==> me in old(world.dispatched)
    {
      var result;
      result, answer := ReadPromo(R.Options(true, None));
      if result.ReadFound? {
        d := ReadbackRecovered(result.code);
        ghost var at: State;
        written, at := ProtectedWrite(d);
      } else {
        d, written := ReviewInstead();
      }
    }

    /** How `getcode` comes back: a code only if the upstream minted one, a rejection only if it did not. */
    method GetCode() returns (reply: Reply)
      requires Valid() && world.phases[me].Ready? && me !in world.dispatched
      modifies `world, `turn, `getcodeCalls
      ensures Valid() && getcodeCalls == old(getcodeCalls) + 1 && me in world.dispatched
      ensures match reply
              case Accepted(code) => world.phases[me] == Confirming(code)
              case AmbiguousFailure => world.phases[me] == Recovering(me, Prepared)
              case RejectedFailure => world.phases[me] == RouteFailed
    {
      Step(Dispatch(me));
      getcodeCalls := getcodeCalls + 1;
      Others();
      if replyKind == 0 && me in world.minted {
        reply := Accepted(world.minted[me]);
      } else if replyKind == 1 && me !in world.minted {
        reply := RejectedFailure;
      } else {
        reply := AmbiguousFailure;
      }
      Step(Respond(me, reply));
    }

    /** The code `getcode` returned counts only when a read shows the same one. */
    method Confirm(code: Code) returns (d: Decision, written: bool, ghost answer: R.Answer)
      requires Valid() && world.phases[me] == Confirming(code)
      modifies `world, `turn, `readCalls
      ensures Valid() && world.phases[me] == Halted
      ensures old(readCalls) < readCalls <= old(readCalls) + 2 * attempts
      ensures R.ReadsAs(upstream, old(readCalls), attempts, R.Options(true, Some(code)), refreshedTitle, answer)
      ensures answer == R.PromoFound(code) ==> d == Claimed(code) && answer == upstream.answer(readCalls - 1)
      ensures answer != R.PromoFound(code) ==> d.ManualReview? || (d.TransitionRefused? && !written)
      ensures written ==> LinkFits(world.link, d)
      ensures written && d.Claimed? ==> me in world.intents && world.intents[me] == Confirmed
      ensures me in world.dispatched <==> me in old(world.dispatched)
    {
      var result;
      result, answer := ReadPromo(R.Options(true, Some(code)));
      if result == ReadFound(code) {
        d := Claimed(code);
        ghost var at: State;
        written, at := ProtectedWrite(d);
      } else {
        d, written := ReviewInstead();
      }
    }

    /** A rejected `getcode` is recorded on the intent and on the link. */
    method RecordFailure() returns (d: Decision, written: bool)
      requires Valid() && world.phases[me] == RouteFailed
      modifies `world, `turn
      ensures Valid() && world.phases[me] == Halted
      ensures d.ClaimFailed? || (d.TransitionRefused? && !written)
      ensures written ==> LinkFits(world.link, ClaimFailed)
      ensures me in world.dispatched <==> me in old(world.dispatched)
    {
      Others();
      Step(Transition(me));
      if world.phases[me] == Halted {
        return TransitionRefused, false;
      }
      d := ClaimFailed;
      ghost var at: State;
      written, at := ProtectedWrite(d);
    }

    /** The options of the read that follows a reply of `getcode`, if one does. */
    function ReadAfter(reply: Reply): Option<R.Options> {
      match reply
      case Accepted(code) => Some(R.Options(true, Some(code)))
      case AmbiguousFailure => Some(R.Options(true, None))
      case RejectedFailure => None
    }

    /** After `getcode`: confirm by reading back the same code, recover, or record the failure. */
    method Settle(reply: Reply) returns (d: Decision, written: bool, ghost answer: Option<R.Answer>)
      requires Valid()
      requires match reply
               case Accepted(code) => world.phases[me] == Confirming(code)
               case AmbiguousFailure => world.phases[me] == Recovering(me, Prepared)
               case RejectedFailure => world.phases[me] == RouteFailed
      modifies `world, `turn, `readCalls
      ensures Valid() && world.phases[me] == Halted
      ensures old(readCalls) <= readCalls <= old(readCalls) + 2 * attempts
      ensures answer.Some? <==> !reply.RejectedFailure?
      ensures answer.Some? ==> R.ReadsAs(upstream, old(readCalls), attempts, ReadAfter(reply).value, refreshedTitle,
                                         answer.value)
      ensures d.Claimed? <==> reply.Accepted? && answer == Some(R.PromoFound(reply.code))
      ensures d.ReadbackRecovered? <==> reply.AmbiguousFailure? && answer.value.PromoFound?
      ensures d.Claimed? || d.ReadbackRecovered? ==>
        answer == Some(R.PromoFound(d.code)) && LastRead(d.code)
      ensures d.ClaimFailed? ==> reply.RejectedFailure?
      ensures !d.AlreadyAvailable? && !d.PreReadFailed? && !d.LeaseLostBeforeClaim?
      ensures written ==> LinkFits(world.link, d)
      ensures written && d.Claimed? ==> me in world.intents && world.intents[me] == Confirmed
      ensures me in world.dispatched <==> me in old(world.dispatched)
    {
      ghost var read;
      match reply {
        case Accepted(code) =>
          d, written, read := Confirm(code);
          answer := Some(read);
        case AmbiguousFailure =>
          d, written, read := Recover();
          answer := Some(read);
        case RejectedFailure =>
          d, written := RecordFailure();
          answer := None;
      }
    }

    /** The intent becomes durable, then the lease is checked again. */
    method PrepareAndRecheckLease() returns (held: bool)
      requires Valid() && world.phases[me].ToPrepare?
      modifies `world, `turn
      ensures Valid() && world.phases[me] == if held then Ready else Halted
      ensures me in world.intents
      ensures me in world.dispatched <==> me in old(world.dispatched)
    {
      Others();
      Step(PrepareIntent(me));
      Others();
      Step(Heartbeat(me));
      held := world.phases[me] != Halted;
    }

    /** The pre-read answered "missing": durable intent, lease recheck, then the one mutation. */
    method Claim() returns (d: Decision, written: bool)
      requires Valid() && world.phases[me].ToPrepare? && me !in world.dispatched
      modifies `world, `turn, `readCalls, `getcodeCalls
      ensures Valid() && world.phases[me] == Halted
      ensures old(readCalls) <= readCalls <= old(readCalls) + 2 * attempts
      ensures getcodeCalls == old(getcodeCalls) + (if d.LeaseLostBeforeClaim? then 0 else 1)
      ensures me in world.dispatched <==> !d.LeaseLostBeforeClaim?
      ensures !d.AlreadyAvailable? && !d.PreReadFailed?
      ensures d.Claimed? || d.ReadbackRecovered? ==>
        LastRead(d.code)
      ensures written ==> LinkFits(world.link, d)
      ensures written && d.Claimed? ==> me in world.intents && world.intents[me] == Confirmed
    {
      var held := PrepareAndRecheckLease();
      if !held {
        return LeaseLostBeforeClaim, false;
      }
      Others();
      var reply := GetCode();
      ghost var answer;
      d, written, answer := Settle(reply);
    }

    /** How the pre-read that starts with call `first` ends. */
    ghost predicate PreReads(first: nat, answer: R.Answer) {
      R.ReadsAs(upstream, first, attempts, R.Options(false, None), refreshedTitle, answer)
    }

    /**
     No open intent: a promo already there is taken over, a missing one is claimed, and
     any other answer of the pre-read fails closed.
     */
    method PreReadThenClaim() returns (d: Decision, written: bool, ghost answer: R.Answer)
      requires Valid() && world.phases[me].PreRead? && me !in world.dispatched
      modifies `world, `turn, `readCalls, `getcodeCalls
      ensures Valid() && world.phases[me] == Halted
      ensures readCalls <= old(readCalls) + 4 * attempts
      ensures getcodeCalls == old(getcodeCalls) + (if me in world.dispatched then 1 else 0)
      ensures me !in world.dispatched <==> d.AlreadyAvailable? || d.PreReadFailed? || d.LeaseLostBeforeClaim?
      ensures PreReads(old(readCalls), answer) && readCalls > old(readCalls)
      ensures answer.PromoFound? ==> d == AlreadyAvailable(answer.code)
      ensures answer.PromoMissing? <==> getcodeCalls > old(getcodeCalls) || d.LeaseLostBeforeClaim?
      ensures !answer.PromoFound? && !answer.PromoMissing? ==> d.PreReadFailed? && !written
      ensures d.PreReadFailed? || d.AlreadyAvailable? ==> !answer.PromoMissing?
      ensures d.AlreadyAvailable? || d.Claimed? || d.ReadbackRecovered? ==>
        LastRead(d.code)
      ensures written ==> LinkFits(world.link, d)
      ensures written && d.Claimed? ==> me in world.intents && world.intents[me] == Confirmed
    {
      var result;
      result, answer := ReadPromo(R.Options(false, None));
      if result.ReadFound? {
        d := AlreadyAvailable(result.code);
        ghost var at: State;
        written, at := ProtectedWrite(d);
      } else if result.ReadMissing? {
        d, written := Claim();
      } else {
        d, written := PreReadFailed, false;
      }
    }

    /**
     An earlier intent still counts: under manual review it stays there unread; otherwise a found
     promo is recovered and anything else goes to manual review.  None of it calls `getcode`.
     */
    method FollowPrior() returns (d: Decision, written: bool, ghost answer: Option<R.Answer>)
      requires Valid() && (world.phases[me].WriteManual? || world.phases[me].Recovering?)
      modifies `world, `turn, `readCalls
      ensures Valid() && world.phases[me] == Halted
      ensures old(readCalls) <= readCalls <= old(readCalls) + 2 * attempts
      ensures answer.None? <==> old(world.phases[me]).WriteManual?
      ensures answer.None? ==> d.ManualReview? && readCalls == old(readCalls)
      ensures answer.Some? ==> Recovers(old(readCalls), answer.value)
      ensures d.ReadbackRecovered? || d.ManualReview? || (d.TransitionRefused? && !written)
      ensures d.ReadbackRecovered? <==> answer.Some? && answer.value.PromoFound?
      ensures d.ReadbackRecovered? ==> d.code == answer.value.code && LastRead(d.code)
      ensures written ==> LinkFits(world.link, d)
      ensures me in world.dispatched <==> me in old(world.dispatched)
    {
      if world.phases[me].WriteManual? {
        d, answer := ManualReview, None;
        ghost var at: State;
        written, at := ProtectedWrite(d);
      } else {
        ghost var read;
        d, written, read := Recover();
        answer := Some(read);
      }
    }

    /** Looks up the newest intent that counts in the state `at`; `prior` is its status. */
    method FindPrior() returns (ghost prior: Option<IntentStatus>, ghost at: State)
      requires Valid() && world.phases[me] == Begun(false)
      modifies `world, `turn
      ensures Valid() && WellFormed(at) && prior == PriorStatus(at) && SameForMe(old(world), at, me)
      ensures world.intents == at.intents && world.order == at.order && world.link == at.link
      ensures prior.None? ==> world.phases[me] == PreRead
      ensures prior == Some(ManualReviewRequired) <==> world.phases[me].WriteManual?
      ensures prior.Some? && prior != Some(ManualReviewRequired) ==> world.phases[me].Recovering?
      ensures me in world.dispatched <==> me in old(world.dispatched)
    {
      Others();
      at := world;
      prior := PriorStatus(world);
      Step(LookUp(me));
    }

    /**
     The handler from the intent lookup on.  However everybody else interferes, it halts
     after at most one `getcode` and at most four times `attempts` readback calls.  With a
     prior intent it never reaches `getcode`, and without one it gets as far as the lease recheck
     before it exactly when the pre-read ended in a missing promo; a code is reported only if the last
     call answered it; a write that took effect left the link its decision says; and the
     upstream has minted at most one code.
     */
    method ClaimViaAdapter()
      returns (d: Decision, written: bool, ghost prior: Option<IntentStatus>, ghost answer: Option<R.Answer>)
      requires Valid() && world.phases[me] == Begun(false) && me !in world.dispatched
      modifies `world, `turn, `readCalls, `getcodeCalls
      ensures Valid() && world.phases[me] == Halted && |world.minted| <= 1
      ensures readCalls <= old(readCalls) + 4 * attempts
      ensures old(getcodeCalls) <= getcodeCalls <= old(getcodeCalls) + 1
      ensures getcodeCalls == old(getcodeCalls) + (if me in world.dispatched then 1 else 0)
      ensures answer.None? <==> prior == Some(ManualReviewRequired)
      ensures answer.None? ==> d.ManualReview? && readCalls == old(readCalls)
      ensures prior.Some? && answer.Some? ==> Recovers(old(readCalls), answer.value)
      ensures prior.Some? ==> (d.ReadbackRecovered? <==> answer.Some? && answer.value.PromoFound?)
      ensures prior.None? ==> PreReads(old(readCalls), answer.value)
      ensures getcodeCalls > old(getcodeCalls) || d.LeaseLostBeforeClaim? <==>
        prior.None? && answer == Some(R.PromoMissing)
      ensures d.AlreadyAvailable? <==> prior.None? && answer.value.PromoFound?
      ensures d.AlreadyAvailable? ==> d.code == answer.value.code
      ensures d.PreReadFailed? <==> prior.None? && !answer.value.PromoFound? && !answer.value.PromoMissing?
      ensures d.Claimed? || d.ClaimFailed? ==> getcodeCalls == old(getcodeCalls) + 1
      ensures d.AlreadyAvailable? || d.Claimed? || d.ReadbackRecovered? ==> LastRead(d.code)
      ensures written ==> LinkFits(world.link, d)
      ensures written && d.Claimed? ==> me in world.intents && world.intents[me] == Confirmed
    {
      ghost var at: State;
      prior, at := FindPrior();
      if world.phases[me] != PreRead {
        d, written, answer := FollowPrior();
      } else {
        ghost var read;
        d, written, read := PreReadThenClaim();
        answer := Some(read);
      }
      ReachableIsWellFormed(world);
    }
  }
}
