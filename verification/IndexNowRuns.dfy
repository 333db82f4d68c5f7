/**
 What a delivery row can and cannot do over whole runs: no attempt is submitted twice,
 which crash stops the row for good, and what the staleness timeout of recovery must
 guarantee.
 */
module IndexNowRuns {
  import opened Sequences
  import opened Wrappers
  import opened IndexNow

  lemma {:induction false} RunSnoc(s: State, actions: seq<Action>, a: Action, rule: RecoveryRule)
    requires CanRun(s, actions, rule) && Enabled(Run(s, actions, rule), a, rule)
    ensures CanRun(s, actions + [a], rule)
    ensures Run(s, actions + [a], rule) == Next(Run(s, actions, rule), a, rule)
    decreases |actions|
  {
    if actions == [] {
      assert [a][1..] == [];
    } else {
      RunSnoc(Next(s, actions[0], rule), actions[1..], a, rule);
      assert (actions + [a])[1..] == actions[1..] + [a];
    }
  }

  lemma {:induction false} RunAppend(s: State, xs: seq<Action>, ys: seq<Action>, rule: RecoveryRule)
    requires CanRun(s, xs, rule) && CanRun(Run(s, xs, rule), ys, rule)
    ensures CanRun(s, xs + ys, rule) && Run(s, xs + ys, rule) == Run(Run(s, xs, rule), ys, rule)
    decreases |xs|
  {
    if xs == [] {
      assert xs + ys == ys;
    } else {
      RunAppend(Next(s, xs[0], rule), xs[1..], ys, rule);
      assert (xs + ys)[1..] == xs[1..] + ys;
    }
  }

  /** Some run under `rule` leads from `s` to `t`. */
  ghost predicate Leads(s: State, t: State, rule: RecoveryRule) {
    exists actions :: CanRun(s, actions, rule) && Run(s, actions, rule) == t
  }

  lemma LeadsTrans(s: State, t: State, u: State, rule: RecoveryRule)
    requires Leads(s, t, rule) && Leads(t, u, rule)
    ensures Leads(s, u, rule)
  {
    var xs :| CanRun(s, xs, rule) && Run(s, xs, rule) == t;
    var ys :| CanRun(t, ys, rule) && Run(t, ys, rule) == u;
    RunAppend(s, xs, ys, rule);
  }

  lemma LeadsStep(s: State, t: State, a: Action, rule: RecoveryRule)
    requires Leads(s, t, rule) && Enabled(t, a, rule)
    ensures Leads(s, Next(t, a, rule), rule)
  {
    var xs :| CanRun(s, xs, rule) && Run(s, xs, rule) == t;
    RunSnoc(s, xs, a, rule);
  }

  lemma LeadsHere(s: State, rule: RecoveryRule)
    ensures Leads(s, s, rule)
  {
    assert CanRun(s, [], rule) && Run(s, [], rule) == s;
  }

  // ---------------------------------------------------------------------
  // Any interleaving, recovery at any time
  // ---------------------------------------------------------------------

  lemma {:induction false} DistinctFit(xs: seq<nat>, c: nat)
    requires Distinct(xs) && forall x :: x in xs ==> 1 <= x <= c
    ensures |xs| <= c
    decreases c
  {
    if xs == [] {
      return;
    }
    assert xs[0] in xs;
    if c in xs {
      var i :| 0 <= i < |xs| && xs[i] == c;
      var rest := xs[..i] + xs[i + 1..];
      forall x | x in rest ensures 1 <= x <= c - 1 {
        var j :| 0 <= j < |rest| && rest[j] == x;
        var at := if j < i then j else j + 1;
        assert x == xs[at] && at != i;
        assert xs[at] in xs;
      }
      DistinctFit(rest, c - 1);
    } else {
      DistinctFit(xs, c - 1);
    }
  }

  /**
   Under any interleaving and any crashes, and even with recovery at any time: attempt rows
   are exactly 1..k, the attempt count is k - 1 or k, it never decreases, no attempt number
   is POSTed twice, and there are never more POSTs than the attempt count.
   */
  lemma NoDuplicateSubmission(maxAttempts: nat, before: seq<Action>, after: seq<Action>, rule: RecoveryRule)
    returns (k: nat)
    requires CanRun(Init(maxAttempts), before, rule) && CanRun(Run(Init(maxAttempts), before, rule), after, rule)
    ensures var s := Run(Init(maxAttempts), before, rule);
            var t := Run(s, after, rule);
            && s.attemptCount <= t.attemptCount
            && (forall n :: n in t.attempts <==> 1 <= n <= k)
            && (t.attemptCount == k || t.attemptCount == k - 1)
            && Distinct(t.posts) && |t.posts| <= t.attemptCount
  {
    RunKeepsInv(Init(maxAttempts), before, rule);
    var s := Run(Init(maxAttempts), before, rule);
    RunKeepsInv(s, after, rule);
    var t := Run(s, after, rule);
    DistinctFit(t.posts, t.attemptCount);
    k := Top(t);
  }

  // ---------------------------------------------------------------------
  // A crash between creating the attempt and marking the row
  // ---------------------------------------------------------------------

  /** The newest attempt row was created, the row was never marked, and its worker is gone. */
  ghost predicate Wedged(s: State) {
    s.attemptCount + 1 in s.attempts && forall w :: w in s.workers ==> !s.workers[w].Marking?
  }

  lemma WedgedStep(s: State, a: Action, rule: RecoveryRule)
    requires Inv(s) && Wedged(s) && Enabled(s, a, rule)
    ensures var t := Next(s, a, rule);
            Wedged(t) && t.attemptCount == s.attemptCount && t.attempts.Keys == s.attempts.Keys
  {
    if a.Step? { assert WorkerOk(s, a.w); }
  }

  /** A wedged row never sees another attempt or another attempt number POSTed, whatever happens. */
  lemma {:induction false} WedgedForever(s: State, actions: seq<Action>, rule: RecoveryRule)
    requires Inv(s) && Wedged(s) && CanRun(s, actions, rule)
    ensures var t := Run(s, actions, rule);
            && Wedged(t) && t.attemptCount == s.attemptCount && t.attempts.Keys == s.attempts.Keys
            && s.attemptCount + 1 !in t.posts
    decreases |actions|
  {
    if actions != [] {
      WedgedStep(s, actions[0], rule);
      NextKeepsInv(s, actions[0], rule);
      WedgedForever(Next(s, actions[0], rule), actions[1..], rule);
    }
  }

  /** Some run from here POSTs the next attempt number. */
  ghost predicate CanStillDeliver(s: State, rule: RecoveryRule) {
    exists actions :: CanRun(s, actions, rule) && s.attemptCount + 1 in Run(s, actions, rule).posts
  }

  lemma MarkedDelivers(s: State, w: Worker, rule: RecoveryRule) returns (actions: seq<Action>)
    requires Inv(s) && w in s.workers && s.workers[w].Marking?
    ensures CanRun(s, actions, rule) && s.attemptCount + 1 in Run(s, actions, rule).posts
  {
    assert WorkerOk(s, w);
    actions := [Step(w, None)] + [Step(w, None)];
    assert CanRun(s, [], rule);
    RunSnoc(s, [], Step(w, None), rule);
    RunSnoc(s, [Step(w, None)], Step(w, None), rule);
    assert [] + [Step(w, None)] == [Step(w, None)];
  }

  lemma FreshWorkerMarks(s: State, w: Worker, rule: RecoveryRule) returns (actions: seq<Action>, t: State)
    requires Inv(s) && Due(s.status) && w !in s.workers && s.attemptCount + 1 !in s.attempts
    ensures CanRun(s, actions, rule) && t == Run(s, actions, rule)
    ensures t == Goto(s.(attempts := s.attempts[s.attemptCount + 1 := Attempt(Started, None)]), w,
        Marking(s.attemptCount + 1))
  {
    RunSnoc(s, [], Begin(w, Eligible), rule);
    RunSnoc(s, [Begin(w, Eligible)], Step(w, None), rule);
    assert [] + [Begin(w, Eligible)] == [Begin(w, Eligible)];
    actions := [Begin(w, Eligible)] + [Step(w, None)];
    t := Run(s, actions, rule);
    var u := Goto(s, w, Creating(s.attemptCount + 1));
    assert u == Next(s, Begin(w, Eligible), rule);
    assert u.workers[w := Marking(s.attemptCount + 1)] == s.workers[w := Marking(s.attemptCount + 1)];
  }

  /** A due row can be delivered again exactly when it is not wedged. */
  lemma DeliverableIffNotWedged(s: State, rule: RecoveryRule)
    requires Inv(s) && Due(s.status)
    ensures CanStillDeliver(s, rule) <==> !Wedged(s)
  {
    if Wedged(s) {
      forall actions | CanRun(s, actions, rule) ensures s.attemptCount + 1 !in Run(s, actions, rule).posts {
        WedgedForever(s, actions, rule);
      }
    } else if s.attemptCount + 1 in s.attempts {
      var w :| w in s.workers && s.workers[w].Marking?;
      var actions := MarkedDelivers(s, w, rule);
    } else {
      var w := NewWorker(s);
      var first, t := FreshWorkerMarks(s, w, rule);
      RunKeepsInv(s, first, rule);
      var second := MarkedDelivers(t, w, rule);
      RunAppend(s, first, second, rule);
    }
  }

  lemma NewWorker(s: State) returns (w: Worker)
    ensures w !in s.workers
  {
    w := Above(s.workers.Keys);
  }

  lemma {:induction false} Above(ws: set<nat>) returns (bound: nat)
    ensures bound !in ws && forall w :: w in ws ==> w < bound
    decreases |ws|
  {
    if ws == {} {
      bound := 0;
    } else {
      var w :| w in ws;
      var rest := Above(ws - {w});
      bound := if w < rest then rest else w + 1;
      assert forall v :: v in ws ==> v == w || v in ws - {w};
    }
  }

  /** One crash is enough to wedge a row that was never delivered. */
  lemma OneCrashWedges(maxAttempts: nat, w: Worker, rule: RecoveryRule) returns (actions: seq<Action>)
    ensures CanRun(Init(maxAttempts), actions, rule)
    ensures var t := Run(Init(maxAttempts), actions, rule); Wedged(t) && Due(t.status) && t.posts == []
  {
    var s := Init(maxAttempts);
    var first, t := FreshWorkerMarks(s, w, rule);
    RunSnoc(s, first, Crash(w), rule);
    actions := first + [Crash(w)];
    assert Run(s, actions, rule).workers[w] == Done;
  }

  // ---------------------------------------------------------------------
  // What a quiet recovery guarantees
  // ---------------------------------------------------------------------

  predicate WillCreateNext(s: State, w: Worker) {
    w in s.workers && s.workers[w].Creating? && s.workers[w].n == s.attemptCount + 1
  }

  /** A worker past the marking of its attempt, or a recovery pass, works on the newest one. */
  predicate LateOk(s: State, w: Worker) {
    w in s.workers ==>
      var p := s.workers[w];
      && (p.Creating? ==> p.n <= s.maxAttempts)
      && (Late(p) ==> s.attemptCount + 1 !in s.attempts && !Due(s.status) && !Final(s.status))
      && (p.Posting? || p.Completing? || p.Folding? || p.Abandoning? || p.Requeuing? || p.Reapplying? ==>
            p.n == s.attemptCount)
      && !p.Resetting?
  }

  /** The row is being delivered, or its delivery is over. */
  predicate Taken(s: State) {
    s.status == Processing || Final(s.status)
  }

  /** At most one process holds an attempt or recovers one. */
  ghost predicate OneLive(s: State) {
    forall v, w :: v in s.workers && w in s.workers && v != w && Live(s.workers[v]) ==> !Live(s.workers[w])
  }

  /** While somebody can still create the next attempt, nobody is past marking. */
  ghost predicate NoLateWithNext(s: State) {
    forall v, w :: WillCreateNext(s, v) && w in s.workers ==> !Late(s.workers[w])
  }

  ghost predicate QuietInv(s: State) {
    && Inv(s)
    && (forall w :: LateOk(s, w))
    && OneLive(s) && NoLateWithNext(s)
    && (Taken(s) ==> 1 <= s.attemptCount && s.attemptCount + 1 !in s.attempts && forall w :: !WillCreateNext(s, w))
    && (Final(s.status) ==> forall w :: w in s.workers ==> !Live(s.workers[w]))
    && (Due(s.status) ==> s.attemptCount < s.maxAttempts)
    && (forall n :: n in s.attempts ==> n <= s.maxAttempts)
  }

  /** A newcomer that holds nothing, and creates only what a due row allows. */
  lemma QuietJoin(s: State, w: Worker, p: Phase)
    requires QuietInv(s) && Inv(Goto(s, w, p)) && w !in s.workers
    requires p == Done || p == Cancelling || (p == Creating(s.attemptCount + 1) && Due(s.status))
    ensures QuietInv(Goto(s, w, p))
  {
    var t := Goto(s, w, p);
    forall v ensures LateOk(t, v) { assert LateOk(s, v); }
    assert OneLive(t);
    forall v, x | WillCreateNext(t, v) && x in t.workers ensures !Late(t.workers[x]) {
      assert LateOk(s, x);
      assert v != w ==> WillCreateNext(s, v);
    }
    if Taken(t) {
      forall v ensures !WillCreateNext(t, v) { assert !WillCreateNext(s, v); }
    }
  }

  lemma QuietBegin(s: State, w: Worker, finding: Finding)
    requires QuietInv(s) && w !in s.workers
    ensures QuietInv(Next(s, Begin(w, finding), Quiet))
  {
    NextKeepsInv(s, Begin(w, finding), Quiet);
    QuietJoin(s, w, Next(s, Begin(w, finding), Quiet).workers[w]);
  }

  lemma QuietRecover(s: State, w: Worker)
    requires QuietInv(s) && Enabled(s, Recover(w), Quiet)
    ensures QuietInv(Next(s, Recover(w), Quiet))
  {
    var t := Next(s, Recover(w), Quiet);
    NextKeepsInv(s, Recover(w), Quiet);
    forall v ensures LateOk(t, v) { assert LateOk(s, v); }
    forall v ensures WillCreateNext(t, v) ==> WillCreateNext(s, v) {}
  }

  /** A worker goes idle and the status becomes `status`; nobody else is affected. */
  lemma QuietFinish(s: State, w: Worker, status: Status)
    requires QuietInv(s) && w in s.workers
    requires status == s.status || status == Cancelled
        || (Late(s.workers[w]) && status != Processing && status != Pending)
    requires Due(status) && status != s.status ==> s.attemptCount < s.maxAttempts
    requires Final(status) && status != s.status ==> s.attemptCount >= 1
    ensures QuietInv(Goto(s.(status := status), w, Done))
  {
    var t := Goto(s.(status := status), w, Done);
    StatusKeepsInv(s, status);
    MoveKeepsInv(s.(status := status), w, Done);
    assert LateOk(s, w);
    forall v ensures LateOk(t, v) { assert LateOk(s, v); }
    forall v ensures WillCreateNext(t, v) ==> WillCreateNext(s, v) {}
  }

  lemma QuietCreate(s: State, w: Worker)
    requires QuietInv(s) && w in s.workers && s.workers[w].Creating? && s.workers[w].n !in s.attempts
    ensures QuietInv(StepOf(s, w, s.workers[w], None))
  {
    var t := StepOf(s, w, s.workers[w], None);
    CreateKeepsInv(s, w);
    assert WorkerOk(s, w) && LateOk(s, w);
    assert WillCreateNext(s, w);
    forall v ensures LateOk(t, v) { assert LateOk(s, v); }
    forall v ensures WillCreateNext(t, v) ==> WillCreateNext(s, v) {}
    forall v | v in s.workers && v != w ensures !Live(s.workers[v]) { assert WorkerOk(s, v) && LateOk(s, v); }
  }

  lemma QuietMark(s: State, w: Worker)
    requires QuietInv(s) && w in s.workers && s.workers[w].Marking?
    ensures QuietInv(StepOf(s, w, s.workers[w], None))
  {
    var t := StepOf(s, w, s.workers[w], None);
    MarkKeepsInv(s, w);
    assert WorkerOk(s, w) && LateOk(s, w);
    forall v ensures LateOk(t, v) && !WillCreateNext(t, v) { assert LateOk(s, v) && WorkerOk(s, v); }
  }

  /** A worker past marking goes on with its attempt. */
  lemma QuietAdvance(s: State, w: Worker, t: State)
    requires QuietInv(s) && w in s.workers && Late(s.workers[w]) && Inv(t)
    requires t.status == s.status && t.attemptCount == s.attemptCount && t.maxAttempts == s.maxAttempts
    requires t.attempts.Keys == s.attempts.Keys && w in t.workers && t.workers == s.workers[w := t.workers[w]]
    requires (t.workers[w].Completing? || t.workers[w].Folding? || t.workers[w].Requeuing?)
        && t.workers[w].n == s.attemptCount
    ensures QuietInv(t)
  {
    assert LateOk(s, w);
    forall v ensures LateOk(t, v) { assert LateOk(s, v); }
    forall v ensures WillCreateNext(t, v) ==> WillCreateNext(s, v) {}
  }

  lemma QuietStep(s: State, w: Worker, http: Option<nat>)
    requires QuietInv(s) && w in s.workers
    ensures QuietInv(StepOf(s, w, s.workers[w], http))
  {
    assert WorkerOk(s, w) && LateOk(s, w);
    StepKeepsInv(s, w, http);
    var t := StepOf(s, w, s.workers[w], http);
    match s.workers[w]
    case Creating(n) => if n in s.attempts { QuietFinish(s, w, s.status); } else { QuietCreate(s, w); }
    case Marking(n) => QuietMark(s, w);
    case Posting(n) => QuietAdvance(s, w, t);
    case Completing(n, h) => QuietAdvance(s, w, t);
    case Abandoning(n) => QuietAdvance(s, w, t);
    case Done =>
    case _ => QuietFinish(s, w, t.status);
  }

  lemma QuietNext(s: State, a: Action)
    requires QuietInv(s) && Enabled(s, a, Quiet)
    ensures QuietInv(Next(s, a, Quiet))
  {
    match a
    case Begin(w, finding) => QuietBegin(s, w, finding);
    case Recover(w) => QuietRecover(s, w);
    case Step(w, http) => QuietStep(s, w, http);
    case Crash(w) => QuietFinish(s, w, s.status);
  }

  lemma {:induction false} QuietRun(s: State, actions: seq<Action>)
    requires QuietInv(s) && CanRun(s, actions, Quiet)
    ensures QuietInv(Run(s, actions, Quiet)) && Run(s, actions, Quiet).maxAttempts == s.maxAttempts
    decreases |actions|
  {
    if actions != [] {
      QuietNext(s, actions[0]);
      QuietRun(Next(s, actions[0], Quiet), actions[1..]);
    }
  }

  /** Nobody holds an attempt, nobody is about to create one, and the row is not due. */
  ghost predicate Closed(s: State) {
    && Inv(s) && (Final(s.status) || s.status == Cancelled)
    && s.attemptCount + 1 !in s.attempts
    && forall w :: w in s.workers ==> !Live(s.workers[w]) && !WillCreateNext(s, w)
  }

  lemma {:induction false} ClosedForever(s: State, actions: seq<Action>, rule: RecoveryRule)
    requires Closed(s) && CanRun(s, actions, rule)
    ensures var t := Run(s, actions, rule); t.posts == s.posts && (t.status == s.status || t.status == Cancelled)
    decreases |actions|
  {
    if actions != [] {
      var t := Next(s, actions[0], rule);
      NextKeepsInv(s, actions[0], rule);
      assert actions[0].Step? ==> WorkerOk(s, actions[0].w);
      ClosedForever(t, actions[1..], rule);
    }
  }

  /**
   With a quiet recovery a delivery never exceeds its attempt budget, and once its row is
   accepted, permanently failed or dead-lettered there is never another POST: the status
   stays, or a worker that started earlier cancels the row.
   */
  lemma {:induction false} QuietRecoveryIsSafe(maxAttempts: nat, before: seq<Action>, after: seq<Action>)
    requires 1 <= maxAttempts
    requires CanRun(Init(maxAttempts), before, Quiet) && CanRun(Run(Init(maxAttempts), before, Quiet), after, Quiet)
    ensures var s := Run(Init(maxAttempts), before, Quiet);
            var t := Run(s, after, Quiet);
            && |t.posts| <= maxAttempts && (forall n :: n in t.attempts ==> n <= maxAttempts)
            && (Final(s.status) ==> t.posts == s.posts && (t.status == s.status || t.status == Cancelled))
  {
    var s := Run(Init(maxAttempts), before, Quiet);
    QuietRun(Init(maxAttempts), before);
    QuietRun(s, after);
    var t := Run(s, after, Quiet);
    forall n | n in t.posts ensures 1 <= n <= maxAttempts { assert n in t.attempts; }
    DistinctFit(t.posts, maxAttempts);
    if Final(s.status) {
      ClosedForever(s, after, Quiet);
    }
  }
}
