/**
 The delivery handler and the stale-delivery recovery themselves: the statements one
 process issues, in order, with everybody else's statements in between.
 */
module IndexNowWorker {
  import opened Wrappers
  import opened IndexNow

  /** The item's result. */
  datatype Result = NotDue | ConfigMissing | EligibilityDrift | LostTheAttempt | Delivered(outcome: Outcome)

  /** What everybody else leaves alone while process `me` is between two statements. */
  predicate Untouched(s: State, t: State, me: Worker) {
    && (me in t.workers <==> me in s.workers)
    && (me in t.workers ==> t.workers[me] == s.workers[me])
    && s.attemptCount <= t.attemptCount && s.posts <= t.posts
    && s.attempts.Keys <= t.attempts.Keys && t.maxAttempts == s.maxAttempts
  }

  lemma OthersLeaveMe(s: State, a: Action, rule: RecoveryRule, me: Worker)
    requires Inv(s) && Enabled(s, a, rule) && a.w != me
    ensures Untouched(s, Next(s, a, rule), me)
  {
    NextKeepsInv(s, a, rule);
  }

  /**
   Where recovery leaves the row: pending when no attempt was made, as answered when the newest
   attempt has a recorded answer, and otherwise retried within the budget.
   */
  predicate Recovered(s: State, status: Status) {
    var k := Top(s);
    && (k !in s.attempts ==> status == Pending)
    && (k in s.attempts && s.attempts[k].state == Completed ==>
        Answered(status, s.attempts[k].http, k, s.maxAttempts))
    && (k in s.attempts && s.attempts[k].state == Started ==>
        status == if k >= s.maxAttempts then DeadLetter else RetryWait)
  }

  class Deliverer {
    const me: Worker
    const rule: RecoveryRule
    const schedule: nat -> seq<Action>     // what everybody else tries to do, turn by turn
    var world: State
    var turn: nat

    constructor (me: Worker, world: State, rule: RecoveryRule, schedule: nat -> seq<Action>)
      requires Inv(world) && me !in world.workers
      ensures this.me == me && this.world == world && this.rule == rule && Inv(world)
    {
      this.me, this.world, this.rule, this.schedule, turn := me, world, rule, schedule, 0;
    }

    /** A statement of this process. */
    method Do(a: Action)
      requires Inv(world) && Enabled(world, a, rule)
      modifies `world
      ensures Inv(world) && world == Next(old(world), a, rule)
      ensures old(world.attemptCount) <= world.attemptCount && old(world.posts) <= world.posts
    {
      NextKeepsInv(world, a, rule);
      world := Next(world, a, rule);
    }

    /** Everybody else issues as many statements as they like; none of them is on this process's behalf. */
    method Others()
      requires Inv(world)
      modifies `world, `turn
      ensures Inv(world)
      ensures Untouched(old(world), world, me)
    {
      var script := schedule(turn);
      turn := turn + 1;
      for i := 0 to |script|
        invariant Inv(world)
        invariant Untouched(old(world), world, me)
      {
        if script[i].w != me && Enabled(world, script[i], rule) {
          OthersLeaveMe(world, script[i], rule, me);
          Do(script[i]);
        }
      }
    }

    /**
     One delivery.  A POST is sent only under an attempt number this process alone created,
     one past the attempt count it read, and no number in front of it is POSTed by it; if
     another process created that number first, nothing is sent.
     */
    method Deliver(finding: Finding, http: Option<nat>) returns (result: Result, ghost attemptNo: nat)
      requires Inv(world) && me !in world.workers
      modifies `world, `turn
      ensures Inv(world) && me in world.workers && world.workers[me] == Done
      ensures attemptNo == old(world.attemptCount) + 1
      ensures result == NotDue <==> old(world.status) != Pending && old(world.status) != RetryWait
      ensures result == ConfigMissing <==> Due(old(world.status)) && finding == Unconfigured
      ensures result == EligibilityDrift <==> Due(old(world.status)) && finding == Drifted
      ensures result == EligibilityDrift ==> world.status == Cancelled
      ensures result == NotDue || result == ConfigMissing ==> world == Goto(old(world), me, Done)
      ensures result.Delivered? ==>
        && Due(old(world.status)) && finding == Eligible
        && attemptNo !in old(world.posts) && attemptNo in world.posts && attemptNo <= world.attemptCount
        && attemptNo in world.attempts
        && Answered(world.status, http, attemptNo, old(world.maxAttempts))
        && (result.outcome == AcceptedOutcome <==> http in {Some(200), Some(202)})
        && (result.outcome == PermanentOutcome <==> http in {Some(400), Some(403), Some(422)})
      ensures result.LostTheAttempt? ==> attemptNo in world.attempts
    {
      attemptNo := world.attemptCount + 1;
      var due := Due(world.status);
      Do(Begin(me, finding));
      if !due {
        return NotDue, attemptNo;
      }
      if finding == Unconfigured {
        return ConfigMissing, attemptNo;
      }
      Others();
      if finding == Drifted {
        Do(Step(me, None));
        return EligibilityDrift, attemptNo;
      }
      Do(Step(me, None));
      if world.workers[me] == Done {
        return LostTheAttempt, attemptNo;
      }
      result := Submit(attemptNo, http);
    }

    /** After the attempt row was created: mark the row, POST, record the answer, fold it. */
    method Submit(ghost attemptNo: nat, http: Option<nat>) returns (result: Result)
      requires Inv(world) && me in world.workers && world.workers[me] == Marking(attemptNo)
      modifies `world, `turn
      ensures Inv(world) && me in world.workers && world.workers[me] == Done
      ensures attemptNo !in old(world.posts) && attemptNo in world.posts && attemptNo <= world.attemptCount
      ensures attemptNo in world.attempts
      ensures result.Delivered? && Answered(world.status, http, attemptNo, old(world.maxAttempts))
      ensures result.outcome == AcceptedOutcome <==> http in {Some(200), Some(202)}
      ensures result.outcome == PermanentOutcome <==> http in {Some(400), Some(403), Some(422)}
    {
      MarkAndPost(attemptNo, http);
      Others();
      RecordAnswer(attemptNo, http);
      result := FoldAnswer(attemptNo, http);
    }

    /** The recorded answer decides the row's status. */
    method FoldAnswer(ghost attemptNo: nat, http: Option<nat>) returns (result: Result)
      requires Inv(world) && me in world.workers && world.workers[me] == Folding(attemptNo, http)
      modifies `world, `turn
      ensures Inv(world) && me in world.workers && world.workers[me] == Done
      ensures world.attemptCount >= old(world.attemptCount) && old(world.posts) <= world.posts
      ensures old(world.attempts).Keys <= world.attempts.Keys
      ensures result.Delivered? && Answered(world.status, http, attemptNo, old(world.maxAttempts))
      ensures result.outcome == AcceptedOutcome <==> http in {Some(200), Some(202)}
      ensures result.outcome == PermanentOutcome <==> http in {Some(400), Some(403), Some(422)}
    {
      Others();
      Do(Step(me, None));
      result := Delivered(Classify(http));
    }

    /** Marking the row moves the attempt count to this attempt; then the one POST under its number. */
    method MarkAndPost(ghost attemptNo: nat, http: Option<nat>)
      requires Inv(world) && me in world.workers && world.workers[me] == Marking(attemptNo)
      modifies `world, `turn
      ensures Inv(world) && me in world.workers && world.workers[me] == Completing(attemptNo, http)
      ensures attemptNo !in old(world.posts) && attemptNo in world.posts && attemptNo <= world.attemptCount
      ensures attemptNo in world.attempts && world.maxAttempts == old(world.maxAttempts)
    {
      assert WorkerOk(world, me);
      Others();
      Do(Step(me, None));
      Others();
      Do(Step(me, http));
    }

    method RecordAnswer(ghost attemptNo: nat, http: Option<nat>)
      requires Inv(world) && me in world.workers && world.workers[me] == Completing(attemptNo, http)
      modifies `world
      ensures Inv(world) && me in world.workers && world.workers[me] == Folding(attemptNo, http)
      ensures world == old(world).(attempts := world.attempts, workers := world.workers)
      ensures world.attempts == old(world.attempts)[attemptNo := Attempt(Completed, http)]
    {
      Do(Step(me, None));
    }

    /** Recovery's first statement: the newest attempt's outcome is unknown. */
    method WriteOff(ghost k: nat)
      requires Inv(world) && me in world.workers && world.workers[me] == Abandoning(k)
      modifies `world, `turn
      ensures Inv(world) && me in world.workers && world.workers[me] == Requeuing(k)
      ensures k in world.attempts && world.attempts[k].state == UnknownOutcome
          && world.maxAttempts == old(world.maxAttempts)
    {
      Others();
      Do(Step(me, None));
    }

    /** Recovery's last statement: what is known of the newest attempt decides the row's status. */
    method SetStatus()
      requires Inv(world) && me in world.workers
      requires var p := world.workers[me]; p.Resetting? || p.Requeuing? || p.Reapplying?
      modifies `world, `turn
      ensures Inv(world) && me in world.workers && world.workers[me] == Done
      ensures var p := old(world.workers[me]);
              && (p.Resetting? ==> world.status == Pending)
              && (p.Requeuing? ==> world.status == if p.n >= old(world.maxAttempts) then DeadLetter else RetryWait)
              && (p.Reapplying? ==> Answered(world.status, p.http, p.n, old(world.maxAttempts)))
    {
      Others();
      Do(Step(me, None));
    }

    /** One stale-delivery recovery of this row. */
    method RecoverStale() returns (recovered: bool)
      requires Inv(world) && me !in world.workers && Enabled(world, Recover(me), rule)
      modifies `world, `turn
      ensures Inv(world) && me in world.workers && world.workers[me] == Done
      ensures recovered <==>
          !(Top(old(world)) in old(world.attempts) && old(world.attempts)[Top(old(world))].state == UnknownOutcome)
      ensures recovered ==> Recovered(old(world), world.status)
    {
      ghost var k := Top(world);
      Do(Recover(me));
      recovered := world.workers[me] != Done;
      if world.workers[me].Abandoning? {
        WriteOff(k);
      }
      if recovered {
        SetStatus();
      }
    }
  }
}
