/**
 The bounded readback of the claim handler: one title coordinate is read up to a
 configured number of times, and a coordinate that matches no row is refreshed once.
 The upstream is an oracle that answers the n-th call of an execution.
 */
module PromoReadback {
  import opened Wrappers

  type Code = string

  datatype Unlocated = TitleUnavailable | TitleNoMatch | LocatorStale

  datatype Answer =
    | PromoFound(code: Code)
    | PromoMissing
    | NotLocated(reason: Unlocated)
    | TargetMissing
    | AmbiguousCandidates
    | Thrown(retryable: bool)

  /** The upstream as seen by one execution: its answers, and when the abort signal is up. */
  datatype Upstream = Upstream(answer: nat -> Answer, aborted: nat -> bool)

  datatype Options = Options(retryVisibility: bool, expected: Option<Code>)

  /** Retryable read errors; after a mutation also a promo that is not visible yet. */
  predicate WorthRetrying(a: Answer, options: Options) {
    match a
    case Thrown(retryable) => retryable
    case PromoMissing => options.retryVisibility
    case PromoFound(code) => options.retryVisibility && options.expected.Some? && code != options.expected.value
    case _ => false
  }

  /** What `calls` calls from number `first` on amount to, for one coordinate. */
  ghost predicate CoordinateRead(up: Upstream, first: nat, calls: nat, attempts: nat, options: Options, r: Answer) {
    && 1 <= calls <= attempts
    && (forall i :: first <= i < first + calls - 1 ==> WorthRetrying(up.answer(i), options) && !up.aborted(i))
    && var last := first + calls - 1;
       if WorthRetrying(up.answer(last), options) && calls < attempts
       then up.aborted(last) && r == Thrown(false)
       else r == up.answer(last)
  }

  /**
   The retry rule in full: a further call follows exactly a retryable error or, after a
   mutation, a promo that is missing or not the expected one; a read that stops early with
   such an answer was aborted.
   */
  lemma CoordinateInFull(up: Upstream, first: nat, calls: nat, attempts: nat, options: Options, r: Answer)
    requires CoordinateRead(up, first, calls, attempts, options, r)
    ensures forall i :: first <= i < first + calls - 1 ==>
      || up.answer(i) == Thrown(true)
      || (options.retryVisibility && up.answer(i) == PromoMissing)
      || (options.retryVisibility && up.answer(i).PromoFound? && options.expected.Some?
          && options.expected != Some(up.answer(i).code))
    ensures calls < attempts ==>
      || (up.aborted(first + calls - 1) && r == Thrown(false))
      || (r == up.answer(first + calls - 1) && r != Thrown(true)
          && (options.retryVisibility ==> r != PromoMissing)
          && (options.retryVisibility && r.PromoFound? ==> options.expected in {None, Some(r.code)}))
  {
  }

  /** Without an abort, transient errors use up every attempt, and the last one is reported. */
  lemma TransientErrorsUseEveryAttempt(up: Upstream, first: nat, calls: nat, attempts: nat, options: Options,
                                       r: Answer)
    requires CoordinateRead(up, first, calls, attempts, options, r)
    requires forall i :: first <= i < first + attempts ==> up.answer(i) == Thrown(true) && !up.aborted(i)
    ensures calls == attempts && r == Thrown(true)
  {
  }

  /** Without an abort, the first answer that is no reason to retry ends the read. */
  lemma FirstSettledAnswerWins(up: Upstream, first: nat, n: nat, code: Code, calls: nat, attempts: nat,
                               options: Options, r: Answer)
    requires CoordinateRead(up, first, calls, attempts, options, r)
    requires 1 <= n <= attempts && options.retryVisibility && options.expected in {None, Some(code)}
    requires forall i :: first <= i < first + n - 1 ==> up.answer(i) in {Thrown(true), PromoMissing} && !up.aborted(i)
    requires up.answer(first + n - 1) in {PromoFound(code), Thrown(false)}
    ensures calls == n && r == up.answer(first + n - 1)
  {
  }

  lemma CoordinateUnique(up: Upstream, first: nat, c1: nat, c2: nat, attempts: nat, options: Options,
                         r1: Answer, r2: Answer)
    requires CoordinateRead(up, first, c1, attempts, options, r1)
    requires CoordinateRead(up, first, c2, attempts, options, r2)
    ensures c1 == c2 && r1 == r2
  {
  }

  method ReadCoordinate(up: Upstream, first: nat, attempts: nat, options: Options)
    returns (r: Answer, calls: nat)
    requires 1 <= attempts
    ensures CoordinateRead(up, first, calls, attempts, options, r)
  {
    calls := 0;
    for attempt := 1 to attempts + 1
      invariant calls == attempt - 1
      invariant forall i :: first <= i < first + calls ==> WorthRetrying(up.answer(i), options) && !up.aborted(i)
      invariant attempt <= attempts
    {
      r := up.answer(first + calls);
      calls := calls + 1;
      if !WorthRetrying(r, options) || attempt == attempts {
        return;
      }
      if up.aborted(first + calls - 1) {
        return Thrown(false), calls;
      }
    }
    assert false;
  }

  /** What follows when the first coordinate gave `r1` after `n` calls. */
  ghost predicate Continued(up: Upstream, next: nat, more: nat, attempts: nat, options: Options,
                            refreshedTitle: string, r1: Answer, r: Answer)
  {
    if r1 != NotLocated(TitleNoMatch) then more == 0 && r == r1
    else if refreshedTitle == "" then more == 0 && r == NotLocated(TitleUnavailable)
    else if r == NotLocated(LocatorStale)
    then CoordinateRead(up, next, more, attempts, options, NotLocated(TitleNoMatch))
      || CoordinateRead(up, next, more, attempts, options, NotLocated(LocatorStale))
    else r != NotLocated(TitleNoMatch) && CoordinateRead(up, next, more, attempts, options, r)
  }

  /** Of the `calls` calls the first coordinate took `n` and gave `r1`. */
  ghost predicate SplitAt(up: Upstream, first: nat, n: nat, r1: Answer, calls: nat, attempts: nat, options: Options,
                          refreshedTitle: string, r: Answer)
  {
    && n <= calls && CoordinateRead(up, first, n, attempts, options, r1)
    && Continued(up, first + n, calls - n, attempts, options, refreshedTitle, r1, r)
  }

  /** One coordinate, and when it matches no row the refreshed title as a second one. */
  ghost predicate TwoCoordinates(up: Upstream, first: nat, calls: nat, attempts: nat, options: Options,
                                 refreshedTitle: string, r: Answer)
  {
    exists n: nat, r1 :: SplitAt(up, first, n, r1, calls, attempts, options, refreshedTitle, r)
  }

  /** The readback that starts with call `first` ends in the answer `r`. */
  ghost predicate ReadsAs(up: Upstream, first: nat, attempts: nat, options: Options, refreshedTitle: string,
                          r: Answer)
  {
    exists calls: nat :: TwoCoordinates(up, first, calls, attempts, options, refreshedTitle, r)
  }

  lemma SecondUnique(up: Upstream, next: nat, c: nat, d: nat, attempts: nat, options: Options,
                     refreshedTitle: string, q: Answer, r: Answer)
    requires refreshedTitle != ""
    requires Continued(up, next, c, attempts, options, refreshedTitle, NotLocated(TitleNoMatch), q)
    requires Continued(up, next, d, attempts, options, refreshedTitle, NotLocated(TitleNoMatch), r)
    ensures c == d && q == r
  {
    var stale, none := NotLocated(LocatorStale), NotLocated(TitleNoMatch);
    var q2 := if q == stale && CoordinateRead(up, next, c, attempts, options, none) then none else q;
    var r2 := if r == stale && CoordinateRead(up, next, d, attempts, options, none) then none else r;
    CoordinateUnique(up, next, c, d, attempts, options, q2, r2);
  }

  lemma ContinuedUnique(up: Upstream, next: nat, c: nat, d: nat, attempts: nat, options: Options,
                        refreshedTitle: string, r1: Answer, q: Answer, r: Answer)
    requires Continued(up, next, c, attempts, options, refreshedTitle, r1, q)
    requires Continued(up, next, d, attempts, options, refreshedTitle, r1, r)
    ensures c == d && q == r
  {
    if r1 == NotLocated(TitleNoMatch) && refreshedTitle != "" {
      SecondUnique(up, next, c, d, attempts, options, refreshedTitle, q, r);
    }
  }

  lemma SplitUnique(up: Upstream, first: nat, m: nat, q1: Answer, n: nat, r1: Answer, c: nat, d: nat, attempts: nat,
                    options: Options, refreshedTitle: string, q: Answer, r: Answer)
    requires SplitAt(up, first, m, q1, c, attempts, options, refreshedTitle, q)
    requires SplitAt(up, first, n, r1, d, attempts, options, refreshedTitle, r)
    ensures c == d && q == r
  {
    CoordinateUnique(up, first, m, n, attempts, options, q1, r1);
    ContinuedUnique(up, first + m, c - m, d - n, attempts, options, refreshedTitle, q1, q, r);
  }

  /** A readback has one number of calls and one answer. */
  lemma TwoCoordinatesUnique(up: Upstream, first: nat, c: nat, d: nat, attempts: nat, options: Options,
                             refreshedTitle: string, q: Answer, r: Answer)
    requires TwoCoordinates(up, first, c, attempts, options, refreshedTitle, q)
    requires TwoCoordinates(up, first, d, attempts, options, refreshedTitle, r)
    ensures c == d && q == r
  {
    var m: nat, q1 :| SplitAt(up, first, m, q1, c, attempts, options, refreshedTitle, q);
    var n: nat, r1 :| SplitAt(up, first, n, r1, d, attempts, options, refreshedTitle, r);
    SplitUnique(up, first, m, q1, n, r1, c, d, attempts, options, refreshedTitle, q, r);
  }

  /** A readback ends in one answer only. */
  lemma ReadsAsUnique(up: Upstream, first: nat, attempts: nat, options: Options, refreshedTitle: string,
                      q: Answer, r: Answer)
    requires ReadsAs(up, first, attempts, options, refreshedTitle, q)
    requires ReadsAs(up, first, attempts, options, refreshedTitle, r)
    ensures q == r
  {
    var c: nat :| TwoCoordinates(up, first, c, attempts, options, refreshedTitle, q);
    var d: nat :| TwoCoordinates(up, first, d, attempts, options, refreshedTitle, r);
    TwoCoordinatesUnique(up, first, c, d, attempts, options, refreshedTitle, q, r);
  }

  /** The pre-read, the post-claim confirmation and recovery all read through this. */
  method Readback(up: Upstream, first: nat, attempts: nat, options: Options, refreshedTitle: string)
    returns (r: Answer, calls: nat)
    requires 1 <= attempts
    ensures 1 <= calls <= 2 * attempts
    ensures TwoCoordinates(up, first, calls, attempts, options, refreshedTitle, r)
    ensures r != NotLocated(TitleNoMatch)
    ensures r.PromoFound? || r.PromoMissing? ==> r == up.answer(first + calls - 1)
  {
    r, calls := ReadCoordinate(up, first, attempts, options);
    ghost var n, r1 := calls, r;
    if r != NotLocated(TitleNoMatch) {
      assert SplitAt(up, first, n, r1, calls, attempts, options, refreshedTitle, r);
      return;
    }
    if refreshedTitle == "" {
      r := NotLocated(TitleUnavailable);
      assert SplitAt(up, first, n, r1, calls, attempts, options, refreshedTitle, r);
      return;
    }
    var more;
    r, more := ReadCoordinate(up, first + calls, attempts, options);
    calls := calls + more;
    assert calls - n == more;
    if r == NotLocated(TitleNoMatch) {
      r := NotLocated(LocatorStale);
    }
    assert SplitAt(up, first, n, r1, calls, attempts, options, refreshedTitle, r);
  }
}
