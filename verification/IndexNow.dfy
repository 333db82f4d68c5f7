/**
 Delivery of one IndexNow outbox row by racing workers
 (worker/handlers/indexnow-delivery.ts) and by stale-delivery recovery
 (src/lib/indexnow/recovery.ts), interleaved statement by statement.  Every database
 statement is one step; a worker can crash between any two of its statements.
 */
module IndexNow {
  import opened Sequences
  import opened Wrappers

  type Worker = nat

  datatype Status = Pending | RetryWait | Processing | Accepted | PermanentFailed | DeadLetter | Cancelled

  datatype AttemptState = Started | Completed | UnknownOutcome

  /** An attempt row; `http` is the recorded response status, if there was one. */
  datatype Attempt = Attempt(state: AttemptState, http: Option<nat>)

  datatype Outcome = AcceptedOutcome | PermanentOutcome | RetryableOutcome

  /** The next statement of a worker or of a recovery pass, with what it has read so far. */
  datatype Phase =
    | Cancelling
    | Creating(n: nat)
    | Marking(n: nat)
    | Posting(n: nat)
    | Completing(n: nat, http: Option<nat>)
    | Folding(n: nat, http: Option<nat>)
    | Resetting
    | Abandoning(n: nat)
    | Requeuing(n: nat)
    | Reapplying(n: nat, http: Option<nat>)
    | Done

  datatype State = State(
    status: Status,
    attemptCount: nat,
    maxAttempts: nat,
    attempts: map<nat, Attempt>,
    workers: map<Worker, Phase>,
    posts: seq<nat>)               // the attempt number behind every POST ever sent

  /** What a worker finds when it rereads a due row. */
  datatype Finding = Eligible | Drifted | Unconfigured

  datatype Action =
    | Begin(w: Worker, finding: Finding)
    | Recover(w: Worker)
    | Step(w: Worker, http: Option<nat>)
    | Crash(w: Worker)

  /**
   When a recovery pass starts.  The code starts it on any row that has been `processing`
   for long enough.  `Quiet` is the intent of that timeout: nobody who holds an attempt,
   and no other recovery pass, is still alive.
   */
  datatype RecoveryRule = Quiet | AnyTime

  function Classify(http: Option<nat>): Outcome {
    if http == Some(200) || http == Some(202) then AcceptedOutcome
    else if http == Some(400) || http == Some(403) || http == Some(422) then PermanentOutcome
    else RetryableOutcome
  }

  function Decide(outcome: Outcome, n: nat, maxAttempts: nat): Status {
    match outcome
    case AcceptedOutcome => Accepted
    case PermanentOutcome => PermanentFailed
    case RetryableOutcome => if n >= maxAttempts then DeadLetter else RetryWait
  }

  /** The status a row must have once attempt `n` was answered with `http`. */
  predicate Answered(status: Status, http: Option<nat>, n: nat, maxAttempts: nat) {
    && (status == Accepted <==> http in {Some(200), Some(202)})
    && (status == PermanentFailed <==> http in {Some(400), Some(403), Some(422)})
    && (status == DeadLetter <==>
        http !in {Some(200), Some(202), Some(400), Some(403), Some(422)} && n >= maxAttempts)
    && (status == RetryWait <==>
        http !in {Some(200), Some(202), Some(400), Some(403), Some(422)} && n < maxAttempts)
  }

  predicate Due(status: Status) {
    status == Pending || status == RetryWait
  }

  predicate Final(status: Status) {
    status == Accepted || status == PermanentFailed || status == DeadLetter
  }

  function Init(maxAttempts: nat): State {
    State(Pending, 0, maxAttempts, map[], map[], [])
  }

  /** The highest attempt number. */
  function Top(s: State): nat {
    if s.attemptCount + 1 in s.attempts then s.attemptCount + 1 else s.attemptCount
  }

  /** Holds an attempt, or is recovering one. */
  predicate Live(p: Phase) {
    p.Marking? || Late(p)
  }

  predicate Late(p: Phase) {
    p.Posting? || p.Completing? || p.Folding? || p.Resetting? || p.Abandoning? || p.Requeuing? || p.Reapplying?
  }

  predicate Enabled(s: State, a: Action, rule: RecoveryRule) {
    match a
    case Begin(w, _) => w !in s.workers
    case Recover(w) =>
      w !in s.workers && s.status == Processing &&
      (rule == Quiet ==> forall v :: v in s.workers ==> !Live(s.workers[v]))
    case Step(w, _) => w in s.workers && s.workers[w] != Done
    case Crash(w) => w in s.workers
  }

  function Goto(s: State, w: Worker, p: Phase): State {
    s.(workers := s.workers[w := p])
  }

  /** What a recovery pass does about the newest attempt. */
  function RecoveryOf(s: State): Phase {
    var k := Top(s);
    if k !in s.attempts then Resetting
    else match s.attempts[k].state
      case Started => Abandoning(k)
      case Completed => Reapplying(k, s.attempts[k].http)
      case UnknownOutcome => Done
  }

  function StepOf(s: State, w: Worker, p: Phase, http: Option<nat>): State {
    match p
    case Cancelling => Goto(s.(status := Cancelled), w, Done)
    case Creating(n) =>
      if n in s.attempts then Goto(s, w, Done)         // unique (outboxId, attemptNo)
      else Goto(s.(attempts := s.attempts[n := Attempt(Started, None)]), w, Marking(n))
    case Marking(n) => Goto(s.(status := Processing, attemptCount := n), w, Posting(n))
    case Posting(n) => Goto(s.(posts := s.posts + [n]), w, Completing(n, http))
    case Completing(n, h) => Goto(s.(attempts := s.attempts[n := Attempt(Completed, h)]), w, Folding(n, h))
    case Folding(n, h) => Goto(s.(status := Decide(Classify(h), n, s.maxAttempts)), w, Done)
    case Resetting => Goto(s.(status := Pending), w, Done)
    case Abandoning(n) =>
      var http := if n in s.attempts then s.attempts[n].http else None;
      Goto(s.(attempts := s.attempts[n := Attempt(UnknownOutcome, http)]), w, Requeuing(n))
    case Requeuing(n) => Goto(s.(status := if n >= s.maxAttempts then DeadLetter else RetryWait), w, Done)
    case Reapplying(n, h) => Goto(s.(status := Decide(Classify(h), n, s.maxAttempts)), w, Done)
    case Done => s
  }

  function Next(s: State, a: Action, rule: RecoveryRule): State
    requires Enabled(s, a, rule)
  {
    match a
    case Begin(w, finding) =>
      if !Due(s.status) || finding == Unconfigured then Goto(s, w, Done)
      else Goto(s, w, if finding == Drifted then Cancelling else Creating(s.attemptCount + 1))
    case Recover(w) => Goto(s, w, RecoveryOf(s))
    case Step(w, http) => StepOf(s, w, s.workers[w], http)
    case Crash(w) => Goto(s, w, Done)
  }

  predicate CanRun(s: State, actions: seq<Action>, rule: RecoveryRule)
    decreases |actions|
  {
    actions == [] || (Enabled(s, actions[0], rule) && CanRun(Next(s, actions[0], rule), actions[1..], rule))
  }

  function Run(s: State, actions: seq<Action>, rule: RecoveryRule): State
    requires CanRun(s, actions, rule)
    decreases |actions|
  {
    if actions == [] then s else Run(Next(s, actions[0], rule), actions[1..], rule)
  }

  // ---------------------------------------------------------------------
  // Safety under any interleaving, with recovery at any time
  // ---------------------------------------------------------------------

  predicate AboutToPost(p: Phase) {
    p.Marking? || p.Posting?
  }

  predicate WorkerOk(s: State, w: Worker) {
    w in s.workers ==>
      match s.workers[w]
      case Creating(n) => 1 <= n <= s.attemptCount + 1
      case Marking(n) => n == s.attemptCount + 1 && n in s.attempts && n !in s.posts
      case Posting(n) => 1 <= n <= s.attemptCount && n !in s.posts
      case Completing(n, _) => 1 <= n <= s.attemptCount
      case Folding(n, _) => 1 <= n <= s.attemptCount
      case Abandoning(n) => 1 <= n <= Top(s)
      case Requeuing(n) => 1 <= n <= Top(s)
      case Reapplying(n, _) => 1 <= n <= Top(s)
      case _ => true
  }

  /** Attempts are exactly 1..k with k the attempt count or one more; nobody shares an unsent attempt. */
  ghost predicate Inv(s: State) {
    && (forall n :: n in s.attempts <==> 1 <= n <= Top(s))
    && (forall w :: WorkerOk(s, w))
    && (forall v, w :: v in s.workers && w in s.workers && v != w
          && AboutToPost(s.workers[v]) && AboutToPost(s.workers[w])
          ==> s.workers[v].n != s.workers[w].n)
    && Distinct(s.posts)
    && (forall n :: n in s.posts ==> 1 <= n <= s.attemptCount)
  }

  /** One worker moves on without starting to hold an attempt. */
  lemma MoveKeepsInv(s: State, w: Worker, p: Phase)
    requires Inv(s) && !AboutToPost(p) && WorkerOk(Goto(s, w, p), w)
    ensures Inv(Goto(s, w, p))
  {
    var t := Goto(s, w, p);
    forall v ensures WorkerOk(t, v) { assert WorkerOk(s, v); }
  }

  lemma CreateKeepsInv(s: State, w: Worker)
    requires Inv(s) && w in s.workers && s.workers[w].Creating? && s.workers[w].n !in s.attempts
    ensures Inv(StepOf(s, w, s.workers[w], None))
  {
    var t := StepOf(s, w, s.workers[w], None);
    assert WorkerOk(s, w);
    forall v ensures WorkerOk(t, v) { assert WorkerOk(s, v); }
    forall v | v in s.workers && v != w && AboutToPost(s.workers[v]) ensures s.workers[v].n != s.workers[w].n {
      assert WorkerOk(s, v);
    }
  }

  lemma MarkKeepsInv(s: State, w: Worker)
    requires Inv(s) && w in s.workers && s.workers[w].Marking?
    ensures Inv(StepOf(s, w, s.workers[w], None))
  {
    var t := StepOf(s, w, s.workers[w], None);
    assert WorkerOk(s, w);
    forall v ensures WorkerOk(t, v) { assert WorkerOk(s, v); }
  }

  lemma PostKeepsInv(s: State, w: Worker, http: Option<nat>)
    requires Inv(s) && w in s.workers && s.workers[w].Posting?
    ensures Inv(StepOf(s, w, s.workers[w], http))
  {
    var t := StepOf(s, w, s.workers[w], http);
    assert WorkerOk(s, w);
    forall v ensures WorkerOk(t, v) { assert WorkerOk(s, v); }
  }

  lemma AttemptUpdateKeepsInv(s: State, w: Worker, n: nat, row: Attempt, p: Phase)
    requires Inv(s) && n in s.attempts && !AboutToPost(p) && WorkerOk(Goto(s, w, p), w)
    ensures Inv(Goto(s.(attempts := s.attempts[n := row]), w, p))
  {
    var t := Goto(s.(attempts := s.attempts[n := row]), w, p);
    forall v ensures WorkerOk(t, v) { assert WorkerOk(s, v); assert WorkerOk(Goto(s, w, p), w); }
  }

  lemma StatusKeepsInv(s: State, status: Status)
    requires Inv(s)
    ensures Inv(s.(status := status))
  {
    forall v ensures WorkerOk(s.(status := status), v) { assert WorkerOk(s, v); }
  }

  lemma StepKeepsInv(s: State, w: Worker, http: Option<nat>)
    requires Inv(s) && w in s.workers
    ensures Inv(StepOf(s, w, s.workers[w], http))
  {
    assert WorkerOk(s, w);
    var t := StepOf(s, w, s.workers[w], http);
    match s.workers[w]
    case Creating(n) => if n in s.attempts { MoveKeepsInv(s, w, Done); } else { CreateKeepsInv(s, w); }
    case Marking(n) => MarkKeepsInv(s, w);
    case Posting(n) => PostKeepsInv(s, w, http);
    case Completing(n, h) => AttemptUpdateKeepsInv(s, w, n, Attempt(Completed, h), Folding(n, h));
    case Abandoning(n) => AttemptUpdateKeepsInv(s, w, n, Attempt(UnknownOutcome, s.attempts[n].http), Requeuing(n));
    case Done =>
    case _ =>
      StatusKeepsInv(s, t.status);
      MoveKeepsInv(s.(status := t.status), w, Done);
  }

  lemma NextKeepsInv(s: State, a: Action, rule: RecoveryRule)
    requires Inv(s) && Enabled(s, a, rule)
    ensures Inv(Next(s, a, rule)) && s.attemptCount <= Next(s, a, rule).attemptCount
        && s.posts <= Next(s, a, rule).posts
  {
    match a
    case Begin(w, finding) => MoveKeepsInv(s, w, Next(s, a, rule).workers[w]);
    case Recover(w) => MoveKeepsInv(s, w, RecoveryOf(s));
    case Step(w, http) =>
      assert WorkerOk(s, w);
      StepKeepsInv(s, w, http);
    case Crash(w) => MoveKeepsInv(s, w, Done);
  }

  lemma {:induction false} RunKeepsInv(s: State, actions: seq<Action>, rule: RecoveryRule)
    requires Inv(s) && CanRun(s, actions, rule)
    ensures var t := Run(s, actions, rule); Inv(t) && s.attemptCount <= t.attemptCount && s.posts <= t.posts
    decreases |actions|
  {
    if actions != [] {
      NextKeepsInv(s, actions[0], rule);
      RunKeepsInv(Next(s, actions[0], rule), actions[1..], rule);
    }
  }
}
