/**
 How a delivery ends: exactly when a settled row is submitted once more, and exactly when a
 row never leaves `processing`, over every run and whenever recovery starts.
 */
module IndexNowEndings {
  import opened Wrappers
  import opened IndexNow
  import opened IndexNowRuns

  // ---------------------------------------------------------------------
  // What a worker with an attempt in hand still does to the row
  // ---------------------------------------------------------------------

  /** Is about to create an attempt number that is still free. */
  predicate CreatesFree(s: State, p: Phase) {
    p.Creating? && p.n !in s.attempts
  }

  /** Can still send the POST of its attempt. */
  predicate WillPost(s: State, p: Phase) {
    p.Marking? || p.Posting? || CreatesFree(s, p)
  }

  /** Past its POST, or recovering the row: its remaining statements decide the status. */
  predicate WillDecide(p: Phase) {
    p.Completing? || p.Folding? || p.Resetting? || p.Abandoning? || p.Requeuing? || p.Reapplying?
  }

  /** The status those statements write. */
  function PendingStatus(s: State, p: Phase): Status
    requires WillDecide(p)
  {
    match p
    case Completing(n, h) => Decide(Classify(h), n, s.maxAttempts)
    case Folding(n, h) => Decide(Classify(h), n, s.maxAttempts)
    case Reapplying(n, h) => Decide(Classify(h), n, s.maxAttempts)
    case Resetting => Pending
    case Abandoning(n) => if n >= s.maxAttempts then DeadLetter else RetryWait
    case Requeuing(n) => if n >= s.maxAttempts then DeadLetter else RetryWait
  }

  /** Left alone, a worker that can still POST does, and has its answer in hand. */
  lemma {:induction false} PostReached(s: State, w: Worker, rule: RecoveryRule) returns (t: State)
    requires Inv(s) && w in s.workers && WillPost(s, s.workers[w])
    ensures Leads(s, t, rule) && Inv(t) && w in t.workers && t.workers[w].Completing? && |t.posts| == |s.posts| + 1
    decreases if s.workers[w].Creating? then 2 else if s.workers[w].Marking? then 1 else 0
  {
    LeadsHere(s, rule);
    LeadsStep(s, s, Step(w, None), rule);
    var u := Next(s, Step(w, None), rule);
    NextKeepsInv(s, Step(w, None), rule);
    if s.workers[w].Posting? {
      t := u;
    } else {
      assert WorkerOk(u, w);
      t := PostReached(u, w, rule);
      LeadsTrans(s, u, t, rule);
    }
  }

  /** Left alone, a worker with a decision to make makes it. */
  lemma {:induction false} DecisionReached(s: State, w: Worker, rule: RecoveryRule) returns (t: State)
    requires Inv(s) && w in s.workers && WillDecide(s.workers[w])
    ensures Leads(s, t, rule) && Inv(t) && t.status == PendingStatus(s, s.workers[w])
    ensures t.attemptCount == s.attemptCount && t.attempts.Keys == s.attempts.Keys && t.posts == s.posts
    decreases if s.workers[w].Completing? || s.workers[w].Abandoning? then 1 else 0
  {
    assert WorkerOk(s, w);
    LeadsHere(s, rule);
    LeadsStep(s, s, Step(w, None), rule);
    var u := Next(s, Step(w, None), rule);
    NextKeepsInv(s, Step(w, None), rule);
    if s.workers[w].Completing? || s.workers[w].Abandoning? {
      t := DecisionReached(u, w, rule);
      LeadsTrans(s, u, t, rule);
    } else {
      t := u;
    }
  }

  // ---------------------------------------------------------------------
  // When a settled row is submitted again
  // ---------------------------------------------------------------------

  /** Some run from here sends another POST. */
  ghost predicate CanPostAgain(s: State, rule: RecoveryRule) {
    exists t :: Leads(s, t, rule) && |t.posts| > |s.posts|
  }

  /** Some worker's pending decision makes the row due. */
  ghost predicate WillBeDue(s: State) {
    exists w :: w in s.workers && WillDecide(s.workers[w]) && Due(PendingStatus(s, s.workers[w]))
  }

  /** Nobody can POST, and nobody can make the row deliverable. */
  ghost predicate NoPostLeft(s: State) {
    && Inv(s) && s.status != Processing
    && (forall w :: w in s.workers ==> !WillPost(s, s.workers[w]))
    && (s.attemptCount + 1 in s.attempts || (!Due(s.status) && !WillBeDue(s)))
  }

  /** With nobody left to POST, a step moves neither the attempts nor the count. */
  lemma NoPostLeftFrame(s: State, a: Action, rule: RecoveryRule)
    requires NoPostLeft(s) && Enabled(s, a, rule)
    ensures var t := Next(s, a, rule);
            && t.posts == s.posts && t.attempts.Keys == s.attempts.Keys && t.attemptCount == s.attemptCount
            && t.maxAttempts == s.maxAttempts
  {
    if a.Step? { assert WorkerOk(s, a.w); }
  }

  /** With the next number free and nobody about to make the row due, a step changes neither. */
  lemma NoneBecomesDue(s: State, a: Action, rule: RecoveryRule)
    requires NoPostLeft(s) && Enabled(s, a, rule) && s.attemptCount + 1 !in s.attempts
    ensures !WillBeDue(Next(s, a, rule))
  {
    var t := Next(s, a, rule);
    NoPostLeftFrame(s, a, rule);
    forall w | w in t.workers && WillDecide(t.workers[w]) ensures !Due(PendingStatus(t, t.workers[w])) {
      assert w in s.workers && WillDecide(s.workers[w]);
      assert !Due(PendingStatus(s, s.workers[w]));
    }
  }

  lemma NoPostLeftStep(s: State, a: Action, rule: RecoveryRule)
    requires NoPostLeft(s) && Enabled(s, a, rule)
    ensures NoPostLeft(Next(s, a, rule)) && Next(s, a, rule).posts == s.posts
  {
    var t := Next(s, a, rule);
    NextKeepsInv(s, a, rule);
    NoPostLeftFrame(s, a, rule);
    if s.attemptCount + 1 !in s.attempts {
      NoneBecomesDue(s, a, rule);
    }
  }

  lemma {:induction false} NoPostLeftForever(s: State, actions: seq<Action>, rule: RecoveryRule)
    requires NoPostLeft(s) && CanRun(s, actions, rule)
    ensures Run(s, actions, rule).posts == s.posts
    decreases |actions|
  {
    if actions != [] {
      NoPostLeftStep(s, actions[0], rule);
      NoPostLeftForever(Next(s, actions[0], rule), actions[1..], rule);
    }
  }

  lemma DuePostsAgain(s: State, t: State, rule: RecoveryRule)
    requires Leads(s, t, rule) && Inv(t) && t.posts == s.posts && Due(t.status) && t.attemptCount + 1 !in t.attempts
    ensures CanPostAgain(s, rule)
  {
    var w := NewWorker(t);
    var first, u := FreshWorkerMarks(t, w, rule);
    RunKeepsInv(t, first, rule);
    assert Leads(t, u, rule);
    var v := PostReached(u, w, rule);
    LeadsTrans(t, u, v, rule);
    LeadsTrans(s, t, v, rule);
  }

  /**
   A row that is accepted, failed, dead-lettered or cancelled is POSTed again by some run
   exactly when a worker can still POST an attempt of its own, or, with the next attempt
   number free, a worker's pending decision makes the row due.
   */
  lemma SettledPostsAgainIff(s: State, rule: RecoveryRule)
    requires Inv(s) && (Final(s.status) || s.status == Cancelled)
    ensures CanPostAgain(s, rule) <==>
              || (exists w :: w in s.workers && WillPost(s, s.workers[w]))
              || (s.attemptCount + 1 !in s.attempts && WillBeDue(s))
  {
    if w :| w in s.workers && WillPost(s, s.workers[w]) {
      var t := PostReached(s, w, rule);
    } else if s.attemptCount + 1 !in s.attempts && WillBeDue(s) {
      var w :| w in s.workers && WillDecide(s.workers[w]) && Due(PendingStatus(s, s.workers[w]));
      var t := DecisionReached(s, w, rule);
      DuePostsAgain(s, t, rule);
    } else {
      forall t | Leads(s, t, rule) ensures t.posts == s.posts {
        var actions :| CanRun(s, actions, rule) && Run(s, actions, rule) == t;
        NoPostLeftForever(s, actions, rule);
      }
    }
  }

  // ---------------------------------------------------------------------
  // When a row stays `processing` for good
  // ---------------------------------------------------------------------

  /** Has nothing left to do with the row. */
  predicate Idle(s: State, p: Phase) {
    p == Done || (p.Creating? && p.n in s.attempts)
  }

  predicate NewestWrittenOff(s: State) {
    Top(s) in s.attempts && s.attempts[Top(s)].state == UnknownOutcome
  }

  /** Still `processing`, the newest attempt already written off, and nobody with anything left to do. */
  ghost predicate Stranded(s: State) {
    s.status == Processing && NewestWrittenOff(s) && forall w :: w in s.workers ==> Idle(s, s.workers[w])
  }

  /** No later worker or recovery pass ever touches a stranded row again. */
  lemma {:induction false} StrandedForever(s: State, actions: seq<Action>, rule: RecoveryRule)
    requires Stranded(s) && CanRun(s, actions, rule)
    ensures var t := Run(s, actions, rule); Stranded(t) && t == s.(workers := t.workers)
    decreases |actions|
  {
    if actions != [] {
      StrandedForever(Next(s, actions[0], rule), actions[1..], rule);
    }
  }

  /** Some run ends the processing of the row. */
  ghost predicate CanLeaveProcessing(s: State, rule: RecoveryRule) {
    exists t :: Leads(s, t, rule) && t.status != Processing
  }

  lemma BusyLeaves(s: State, w: Worker, rule: RecoveryRule)
    requires Inv(s) && w in s.workers && !Idle(s, s.workers[w])
    ensures CanLeaveProcessing(s, rule)
  {
    if s.workers[w].Cancelling? {
      LeadsHere(s, rule);
      LeadsStep(s, s, Step(w, None), rule);
      assert Next(s, Step(w, None), rule).status == Cancelled;
    } else if WillDecide(s.workers[w]) {
      DecidedIsNotProcessing(s, s.workers[w]);
      var t := DecisionReached(s, w, rule);
    } else {
      var t := PostReached(s, w, rule);
      DecidedIsNotProcessing(t, t.workers[w]);
      var u := DecisionReached(t, w, rule);
      LeadsTrans(s, t, u, rule);
    }
  }

  lemma RecoveryDecides(s: State)
    requires !NewestWrittenOff(s)
    ensures WillDecide(RecoveryOf(s))
  {}

  lemma DecidedIsNotProcessing(s: State, p: Phase)
    requires WillDecide(p)
    ensures PendingStatus(s, p) != Processing
  {}

  lemma RecoveryLeaves(s: State, rule: RecoveryRule)
    requires Inv(s) && s.status == Processing && !NewestWrittenOff(s)
    requires forall w :: w in s.workers ==> Idle(s, s.workers[w])
    ensures CanLeaveProcessing(s, rule)
  {
    var w := NewWorker(s);
    var t := Goto(s, w, RecoveryOf(s));
    assert Enabled(s, Recover(w), rule) && Next(s, Recover(w), rule) == t;
    LeadsHere(s, rule);
    LeadsStep(s, s, Recover(w), rule);
    NextKeepsInv(s, Recover(w), rule);
    RecoveryDecides(s);
    DecidedIsNotProcessing(t, RecoveryOf(s));
    var u := DecisionReached(t, w, rule);
    LeadsTrans(s, t, u, rule);
  }

  /**
   Some run takes a `processing` row out of that status exactly when it is not stranded:
   its newest attempt is not written off yet, or somebody still has something to do with it.
   */
  lemma LeavesProcessingIff(s: State, rule: RecoveryRule)
    requires Inv(s) && s.status == Processing
    ensures CanLeaveProcessing(s, rule) <==> !Stranded(s)
  {
    if Stranded(s) {
      forall t | Leads(s, t, rule) ensures t.status == Processing {
        var actions :| CanRun(s, actions, rule) && Run(s, actions, rule) == t;
        StrandedForever(s, actions, rule);
      }
    } else if w :| w in s.workers && !Idle(s, s.workers[w]) {
      BusyLeaves(s, w, rule);
    } else {
      RecoveryLeaves(s, rule);
    }
  }
}
