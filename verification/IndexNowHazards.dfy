/**
 Runs that show the limits of the delivery protocol: a recovery pass that starts while a
 slow worker still holds its attempt, and a recovery pass that dies half way.
 */
module IndexNowHazards {
  import opened Wrappers
  import opened IndexNow
  import opened IndexNowEndings
  import opened IndexNowRuns

  /** A fresh worker gets as far as having POSTed the next attempt. */
  lemma PostsNext(s: State, w: Worker, http: Option<nat>, rule: RecoveryRule) returns (t: State)
    requires Due(s.status) && w !in s.workers && s.attemptCount + 1 !in s.attempts
    ensures var n := s.attemptCount + 1;
            t == State(Processing, n, s.maxAttempts, s.attempts[n := Attempt(Started, None)],
                       s.workers[w := Completing(n, http)], s.posts + [n])
    ensures Leads(s, t, rule)
  {
    var n := s.attemptCount + 1;
    LeadsHere(s, rule);
    LeadsStep(s, s, Begin(w, Eligible), rule);
    var a := Goto(s, w, Creating(n));
    LeadsStep(s, a, Step(w, None), rule);
    var b := StepOf(a, w, Creating(n), None);
    LeadsStep(s, b, Step(w, None), rule);
    var c := StepOf(b, w, Marking(n), None);
    LeadsStep(s, c, Step(w, http), rule);
    t := StepOf(c, w, Posting(n), http);
    assert t.workers == s.workers[w := Completing(n, http)];
  }

  /** A worker with an answer in hand records it and folds it into the row. */
  lemma AnswerFolds(s: State, w: Worker, n: nat, http: Option<nat>, rule: RecoveryRule) returns (t: State)
    requires w in s.workers && s.workers[w] == Completing(n, http)
    ensures t == s.(status := Decide(Classify(http), n, s.maxAttempts),
                    attempts := s.attempts[n := Attempt(Completed, http)], workers := s.workers[w := Done])
    ensures Leads(s, t, rule)
  {
    LeadsHere(s, rule);
    LeadsStep(s, s, Step(w, None), rule);
    var a := StepOf(s, w, Completing(n, http), None);
    LeadsStep(s, a, Step(w, None), rule);
    t := StepOf(a, w, Folding(n, http), None);
    assert t.workers == s.workers[w := Done];
  }

  /** A recovery pass writes the newest attempt off and requeues the row. */
  lemma RecoveryRequeues(s: State, r: Worker) returns (t: State)
    requires s.status == Processing && r !in s.workers && s.attemptCount + 1 !in s.attempts
    requires s.attemptCount in s.attempts && s.attempts[s.attemptCount] == Attempt(Started, None)
    ensures t == s.(status := if s.attemptCount >= s.maxAttempts then DeadLetter else RetryWait,
                    attempts := s.attempts[s.attemptCount := Attempt(UnknownOutcome, None)],
                    workers := s.workers[r := Done])
    ensures Leads(s, t, AnyTime)
  {
    var n := s.attemptCount;
    LeadsHere(s, AnyTime);
    LeadsStep(s, s, Recover(r), AnyTime);
    var a := Goto(s, r, Abandoning(n));
    LeadsStep(s, a, Step(r, None), AnyTime);
    var b := StepOf(a, r, Abandoning(n), None);
    LeadsStep(s, b, Step(r, None), AnyTime);
    t := StepOf(b, r, Requeuing(n), None);
    assert t.workers == s.workers[r := Done];
  }

  /** A slow worker holds attempt 1, which recovery has written off. */
  lemma SlowWorkerWrittenOff() returns (t: State)
    ensures t == State(RetryWait, 1, 2, map[1 := Attempt(UnknownOutcome, None)],
        map[0 := Completing(1, None), 1 := Done], [1])
    ensures Leads(Init(2), t, AnyTime)
  {
    var slow := PostsNext(Init(2), 0, None, AnyTime);
    t := RecoveryRequeues(slow, 1);
    LeadsTrans(Init(2), slow, t, AnyTime);
  }

  /** Meanwhile a second worker delivers the row. */
  lemma SecondWorkerDelivers(s: State) returns (t: State)
    requires s.status == RetryWait && s.attemptCount == 1 && s.maxAttempts == 2
    requires s.attempts == map[1 := Attempt(UnknownOutcome, None)]
    requires s.workers == map[0 := Completing(1, None), 1 := Done] && s.posts == [1]
    ensures t.status == Accepted && t.attemptCount == 2 && t.maxAttempts == 2 && t.attempts.Keys == {1, 2}
    ensures t.workers == map[0 := Completing(1, None), 1 := Done, 2 := Done] && t.posts == [1, 2]
    ensures Leads(s, t, AnyTime)
  {
    var second := PostsNext(s, 2, Some(200), AnyTime);
    t := AnswerFolds(second, 2, 2, Some(200), AnyTime);
    LeadsTrans(s, second, t, AnyTime);
  }

  /**
   Why recovery must be quiet.  A worker is slow to record its failed answer; recovery
   requeues the row; a second worker delivers it and the row is accepted; the slow worker
   then folds its old failure over the accepted row, and a third worker submits again,
   beyond the budget of two attempts.
   */
  lemma LateAnswerRevivesAcceptedRow() returns (accepted: State, again: State)
    ensures Leads(Init(2), accepted, AnyTime) && accepted.status == Accepted && accepted.posts == [1, 2]
    ensures Leads(accepted, again, AnyTime) && again.posts == [1, 2, 3] && again.maxAttempts == 2
  {
    var requeued := SlowWorkerWrittenOff();
    accepted := SecondWorkerDelivers(requeued);
    LeadsTrans(Init(2), requeued, accepted, AnyTime);
    var revived := AnswerFolds(accepted, 0, 1, None, AnyTime);
    again := PostsNext(revived, 3, None, AnyTime);
    LeadsTrans(accepted, revived, again, AnyTime);
  }

  lemma HalfRecovery(o: State, s: State) returns (t: State)
    requires Leads(o, s, Quiet) && s.status == Processing && s.attemptCount == 1
        && s.attempts == map[1 := Attempt(Started, None)]
    requires s.workers == map[0 := Done, 1 := Abandoning(1)]
    ensures Leads(o, t, Quiet) && Stranded(t) && t.posts == s.posts
  {
    LeadsStep(o, s, Step(1, None), Quiet);
    var b := StepOf(s, 1, Abandoning(1), None);
    LeadsStep(o, b, Crash(1), Quiet);
    t := Goto(b, 1, Done);
  }

  /** A worker dies after its POST, a recovery pass after writing the attempt off: nobody returns to the row. */
  lemma HalfRecoveryStrands(maxAttempts: nat) returns (t: State)
    ensures Leads(Init(maxAttempts), t, Quiet) && Stranded(t) && t.posts == [1]
  {
    var o := Init(maxAttempts);
    var posted := PostsNext(o, 0, None, Quiet);
    LeadsStep(o, posted, Crash(0), Quiet);
    var dead := Goto(posted, 0, Done);
    LeadsStep(o, dead, Recover(1), Quiet);
    t := HalfRecovery(o, Goto(dead, 1, Abandoning(1)));
  }
}
