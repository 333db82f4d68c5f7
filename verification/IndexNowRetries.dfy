/**
 Deliveries of one row that nobody disturbs: how often it is POSTed, and how it ends.
 */
module IndexNowRetries {
  import opened Wrappers
  import opened IndexNow
  import R = IndexNowRuns

  /** One whole delivery by the new worker `w`, its POST answered with `http`. */
  function AfterDelivery(s: State, w: Worker, http: Option<nat>): State
    requires w !in s.workers
  {
    var begun := Next(s, Begin(w, Eligible), AnyTime);
    if begun.workers[w] == Done then begun else
    var created := StepOf(begun, w, begun.workers[w], None);
    if created.workers[w] == Done then created else
    Answer(created, w, http)
  }

  /** Mark, POST, record and fold. */
  function Answer(s: State, w: Worker, http: Option<nat>): State
    requires w in s.workers && s.workers[w].Marking?
  {
    var posting := StepOf(s, w, s.workers[w], None);
    var posted := StepOf(posting, w, posting.workers[w], http);
    var recorded := StepOf(posted, w, posted.workers[w], None);
    StepOf(recorded, w, recorded.workers[w], None)
  }

  /** Deliveries one after the other; the i-th POST that goes out after `answers[i]` was set up is answered with it. */
  function AfterDeliveries(s: State, w: Worker, answers: seq<Option<nat>>): State
    requires forall v :: v in s.workers ==> v < w
    decreases |answers|
  {
    if answers == [] then s else AfterDeliveries(AfterDelivery(s, w, answers[0]), w + 1, answers[1..])
  }

  lemma AnswerRuns(s: State, t: State, w: Worker, http: Option<nat>)
    requires R.Leads(s, t, AnyTime) && w in t.workers && t.workers[w].Marking?
    ensures R.Leads(s, Answer(t, w, http), AnyTime)
  {
    var posting := StepOf(t, w, t.workers[w], None);
    R.LeadsStep(s, t, Step(w, None), AnyTime);
    var posted := StepOf(posting, w, posting.workers[w], http);
    R.LeadsStep(s, posting, Step(w, http), AnyTime);
    var recorded := StepOf(posted, w, posted.workers[w], None);
    R.LeadsStep(s, posted, Step(w, None), AnyTime);
    R.LeadsStep(s, recorded, Step(w, None), AnyTime);
  }

  /** A delivery is a run of the machine. */
  lemma DeliveryRuns(s: State, w: Worker, http: Option<nat>)
    requires w !in s.workers
    ensures R.Leads(s, AfterDelivery(s, w, http), AnyTime)
  {
    R.LeadsHere(s, AnyTime);
    R.LeadsStep(s, s, Begin(w, Eligible), AnyTime);
    var begun := Next(s, Begin(w, Eligible), AnyTime);
    if begun.workers[w] != Done {
      R.LeadsStep(s, begun, Step(w, None), AnyTime);
      var created := StepOf(begun, w, begun.workers[w], None);
      if created.workers[w] != Done {
        AnswerRuns(s, created, w, http);
      }
    }
  }

  lemma {:induction false} DeliveriesRun(s: State, w: Worker, answers: seq<Option<nat>>)
    requires forall v :: v in s.workers ==> v < w
    ensures R.Leads(s, AfterDeliveries(s, w, answers), AnyTime)
    decreases |answers|
  {
    if answers == [] {
      R.LeadsHere(s, AnyTime);
    } else {
      var t := AfterDelivery(s, w, answers[0]);
      DeliveryRuns(s, w, answers[0]);
      DeliveriesRun(t, w + 1, answers[1..]);
      R.LeadsTrans(s, t, AfterDeliveries(s, w, answers), AnyTime);
    }
  }

  /** No attempt row is ahead of the attempt count. */
  ghost predicate Tidy(s: State) {
    forall n :: n in s.attempts ==> n <= s.attemptCount
  }

  lemma AnswerInFull(s: State, w: Worker, http: Option<nat>)
    requires w in s.workers && s.workers[w].Marking?
    ensures var t := Answer(s, w, http);
            var n := s.workers[w].n;
            && t.workers.Keys == s.workers.Keys && t.attempts.Keys == s.attempts.Keys + {n}
            && t.attemptCount == n && t.posts == s.posts + [n] && t.maxAttempts == s.maxAttempts
            && Answered(t.status, http, n, s.maxAttempts)
  {
    var n := s.workers[w].n;
    var posting := StepOf(s, w, s.workers[w], None);
    var posted := StepOf(posting, w, posting.workers[w], http);
    assert posted == s.(status := Processing, attemptCount := n, posts := s.posts + [n], workers := posted.workers);
    var recorded := StepOf(posted, w, posted.workers[w], None);
    assert recorded.workers[w] == Folding(n, http);
    assert recorded.workers.Keys == s.workers.Keys;
  }

  /** One delivery POSTs a due row once, and the answer alone decides what becomes of it. */
  lemma DueDelivery(s: State, w: Worker, http: Option<nat>)
    requires w !in s.workers && Tidy(s) && Due(s.status)
    ensures var t := AfterDelivery(s, w, http);
            && t.workers.Keys == s.workers.Keys + {w} && Tidy(t) && t.maxAttempts == s.maxAttempts
            && t.attemptCount == s.attemptCount + 1 && t.posts == s.posts + [s.attemptCount + 1]
            && Answered(t.status, http, s.attemptCount + 1, s.maxAttempts)
  {
    var begun := Next(s, Begin(w, Eligible), AnyTime);
    var created := StepOf(begun, w, begun.workers[w], None);
    assert created.workers[w] == Marking(s.attemptCount + 1);
    AnswerInFull(created, w, http);
  }

  /** A row that is not due is left alone. */
  lemma IdleDelivery(s: State, w: Worker, http: Option<nat>)
    requires w !in s.workers && !Due(s.status)
    ensures AfterDelivery(s, w, http) == Goto(s, w, Done)
  {
  }

  /** The numbers `from + 1 .. from + k`. */
  function Numbers(from: nat, k: nat): seq<nat> {
    seq(k, i => from + 1 + i)
  }

  /**
   Undisturbed deliveries POST a row under the numbers 1, 2, ... exactly until the first answer
   200, 202, 400, 403 or 422, or until the budget is used up, and however many more deliveries
   follow, nothing else is sent; the last answer decides how the row ends.
   */
  lemma {:induction false} RetriedUntilAnswered(maxAttempts: nat, answers: seq<Option<nat>>) returns (k: nat)
    ensures var t := AfterDeliveries(Init(maxAttempts), 0, answers);
            R.Leads(Init(maxAttempts), t, AnyTime) && t.posts == Numbers(0, k) && k <= |answers|
    ensures forall i :: 0 <= i < k - 1 ==>
              answers[i] !in {Some(200), Some(202), Some(400), Some(403), Some(422)} && i + 1 < maxAttempts
    ensures k < |answers| ==> 0 < k
    ensures 0 < k < |answers| && k < maxAttempts ==>
              answers[k - 1] in {Some(200), Some(202), Some(400), Some(403), Some(422)}
    ensures k > 0 ==> Answered(AfterDeliveries(Init(maxAttempts), 0, answers).status, answers[k - 1], k, maxAttempts)
  {
    DeliveriesRun(Init(maxAttempts), 0, answers);
    k := RetriedFrom(Init(maxAttempts), 0, answers);
    forall i | 0 <= i < k - 1
      ensures answers[i] !in {Some(200), Some(202), Some(400), Some(403), Some(422)} && i + 1 < maxAttempts
    {
      assert Retries(answers, i, 0, maxAttempts);
    }
  }

  /** The answer to POST `i` lets the row be tried again. */
  predicate Retries(answers: seq<Option<nat>>, i: nat, before: nat, maxAttempts: nat)
    requires i < |answers|
  {
    Answered(RetryWait, answers[i], before + i + 1, maxAttempts)
  }

  lemma {:induction false} SettledStays(s: State, w: Worker, answers: seq<Option<nat>>)
    requires (forall v :: v in s.workers ==> v < w) && !Due(s.status)
    ensures var t := AfterDeliveries(s, w, answers); t.posts == s.posts && t.status == s.status
    decreases |answers|
  {
    if answers != [] {
      IdleDelivery(s, w, answers[0]);
      SettledStays(AfterDelivery(s, w, answers[0]), w + 1, answers[1..]);
    }
  }

  /** Of these answers the first `k` are used: those before the last allow a retry, and the last decides. */
  ghost predicate Uses(answers: seq<Option<nat>>, k: nat, before: nat, maxAttempts: nat, status: Status) {
    && k <= |answers| && (answers != [] ==> k > 0)
    && (forall i :: 0 <= i < k - 1 ==> Retries(answers, i, before, maxAttempts))
    && (0 < k < |answers| ==> !Retries(answers, k - 1, before, maxAttempts))
    && (k > 0 ==> Answered(status, answers[k - 1], before + k, maxAttempts))
  }

  lemma UsesOneMore(answers: seq<Option<nat>>, more: nat, before: nat, maxAttempts: nat, status: Status)
    requires answers != [] && Retries(answers, 0, before, maxAttempts)
    requires Uses(answers[1..], more, before + 1, maxAttempts, status)
    requires more == 0 ==> status == RetryWait
    ensures Uses(answers, 1 + more, before, maxAttempts, status)
  {
    forall i | 0 <= i < more ensures Retries(answers, i, before, maxAttempts) {
      if i > 0 {
        assert Retries(answers[1..], i - 1, before + 1, maxAttempts);
      }
    }
    if 0 < more < |answers| - 1 {
      assert !Retries(answers[1..], more - 1, before + 1, maxAttempts);
    }
  }

  lemma NumbersFromFirst(posts: seq<nat>, first: nat, more: nat)
    ensures posts + [first + 1] + Numbers(first + 1, more) == posts + Numbers(first, 1 + more)
  {
    assert [first + 1] + Numbers(first + 1, more) == Numbers(first, 1 + more);
  }

  lemma {:induction false} RetriedFrom(s: State, w: Worker, answers: seq<Option<nat>>) returns (k: nat)
    requires (forall v :: v in s.workers ==> v < w) && Tidy(s) && Due(s.status)
    ensures var t := AfterDeliveries(s, w, answers);
            t.posts == s.posts + Numbers(s.attemptCount, k)
            && Uses(answers, k, s.attemptCount, s.maxAttempts, t.status) && (k == 0 ==> t.status == s.status)
    decreases |answers|, 1
  {
    if answers == [] {
      k := 0;
      return;
    }
    DueDelivery(s, w, answers[0]);
    k := RetriedAfter(s, AfterDelivery(s, w, answers[0]), w, answers);
  }

  lemma {:induction false} RetriedAfter(s: State, t: State, w: Worker, answers: seq<Option<nat>>) returns (k: nat)
    requires (forall v :: v in t.workers ==> v < w + 1) && Tidy(t) && answers != []
    requires t.attemptCount == s.attemptCount + 1 && t.posts == s.posts + [s.attemptCount + 1]
    requires t.maxAttempts == s.maxAttempts && Answered(t.status, answers[0], s.attemptCount + 1, s.maxAttempts)
    ensures var u := AfterDeliveries(t, w + 1, answers[1..]);
            u.posts == s.posts + Numbers(s.attemptCount, k)
            && Uses(answers, k, s.attemptCount, s.maxAttempts, u.status) && k > 0
    decreases |answers|, 0
  {
    if Due(t.status) {
      var more := RetriedFrom(t, w + 1, answers[1..]);
      k := 1 + more;
      NumbersFromFirst(s.posts, s.attemptCount, more);
      UsesOneMore(answers, more, s.attemptCount, s.maxAttempts, AfterDeliveries(t, w + 1, answers[1..]).status);
    } else {
      k := 1;
      SettledStays(t, w + 1, answers[1..]);
      assert Numbers(s.attemptCount, 1) == [s.attemptCount + 1];
    }
  }
}
