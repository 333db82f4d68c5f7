/**
 The catalog scan task: ascending pages, the stop decision, the stop cascade and the
 counts a scan reports (worker/handlers/moboreader.ts, src/lib/tasks/store.ts).
 */
module CatalogScan {
  import opened Sequences
  import opened Wrappers
  import opened SourceTable

  datatype StopReason =
    | ExpectedTotalReached | ExpectedPagesReached | EmptyPage | ShortPage | SafetyLimit | UpstreamError

  datatype Params = Params(pageStart: nat, pageEnd: nat, pageSize: nat, safetyMaxPages: nat)

  predicate ValidParams(p: Params) {
    1 <= p.pageStart <= p.pageEnd && 1 <= p.pageSize && 1 <= p.safetyMaxPages
  }

  function Min(a: int, b: int): int { if a < b then a else b }

  function Max(a: int, b: int): int { if a > b then a else b }

  function ScheduledEnd(p: Params): int {
    Min(p.pageEnd, p.pageStart + p.safetyMaxPages - 1)
  }

  function RequestedCapacity(p: Params): int {
    (p.pageEnd - p.pageStart + 1) * p.pageSize
  }

  function ScheduledCapacity(p: Params): int {
    (ScheduledEnd(p) - p.pageStart + 1) * p.pageSize
  }

  function UpstreamRemaining(p: Params, total: nat): nat {
    Max(0, total - (p.pageStart - 1) * p.pageSize)
  }

  function Expected(p: Params, total: nat): int {
    Min(RequestedCapacity(p), UpstreamRemaining(p, total))
  }

  function DetermineStopReason(returned: nat, fetchedRaw: nat, expected: int, page: nat,
        p: Params): Option<StopReason> {
    if returned == 0 then Some(EmptyPage)
    else if fetchedRaw >= expected then Some(ExpectedTotalReached)
    else if ScheduledEnd(p) < p.pageEnd && page >= ScheduledEnd(p) then Some(SafetyLimit)
    else if page >= p.pageEnd then Some(ExpectedPagesReached)
    else if returned < p.pageSize then Some(ShortPage)
    else None
  }

  /** All that was asked for has been counted, or all that the upstream has from the first page on. */
  predicate Enough(sum: nat, total: nat, p: Params) {
    (p.pageEnd - p.pageStart + 1) * p.pageSize <= sum || total <= (p.pageStart - 1) * p.pageSize + sum
  }

  /** Why a page with `returned` books, `sum` counted with it, stops the scan, or that it does not. */
  predicate StopsFor(reason: Option<StopReason>, returned: nat, sum: nat, total: nat, page: nat, p: Params) {
    && (reason == Some(EmptyPage) <==> returned == 0)
    && (reason == Some(ExpectedTotalReached) <==> returned > 0 && Enough(sum, total, p))
    && (reason == Some(SafetyLimit) <==>
        returned > 0 && !Enough(sum, total, p) && page >= p.pageStart + p.safetyMaxPages - 1
        && p.pageStart + p.safetyMaxPages - 1 < p.pageEnd)
    && (reason == Some(ExpectedPagesReached) <==>
        returned > 0 && !Enough(sum, total, p) && page >= p.pageEnd
        && p.pageEnd <= p.pageStart + p.safetyMaxPages - 1)
    && (reason == Some(ShortPage) <==>
        0 < returned < p.pageSize && !Enough(sum, total, p)
        && page < p.pageEnd && page < p.pageStart + p.safetyMaxPages - 1)
    && (reason == None <==>
        returned >= p.pageSize && !Enough(sum, total, p)
        && page < p.pageEnd && page < p.pageStart + p.safetyMaxPages - 1)
  }

  lemma EnoughIff(sum: nat, total: nat, p: Params)
    requires ValidParams(p) && sum > 0
    ensures sum >= Expected(p, total) <==> Enough(sum, total, p)
  {
  }

  /** The decision, spelled out for every page and every answer. */
  lemma DecisionInFull(returned: nat, before: nat, total: nat, page: nat, p: Params)
    requires ValidParams(p)
    ensures StopsFor(DetermineStopReason(returned, before + returned, Expected(p, total), page, p),
                     returned, before + returned, total, page, p)
  {
    if returned > 0 {
      EnoughIff(before + returned, total, p);
    }
  }

  /** What the upstream answers for a page; an oversized page counts as a failure. */
  datatype Answer = Page(books: seq<Book>, total: nat) | Failure

  function Count(a: Answer): nat {
    if a.Page? then |a.books| else 0
  }

  predicate Usable(a: Answer, p: Params) {
    a.Page? && |a.books| <= p.pageSize
  }

  /** Where a scan stops, why, and how many items it has counted by then. */
  datatype Outcome = Outcome(page: nat, reason: StopReason, fetched: nat)

  /** An ascending scan from `page` on, with `fetched` items counted before: it stops by the scheduled end. */
  function ScanFrom(up: nat -> Answer, p: Params, page: nat, fetched: nat): (o: Outcome)
    requires ValidParams(p) && p.pageStart <= page <= ScheduledEnd(p)
    ensures page <= o.page <= ScheduledEnd(p)
    decreases ScheduledEnd(p) - page
  {
    var a := up(page);
    if !Usable(a, p) then Outcome(page, UpstreamError, fetched)
    else
      var sum := fetched + |a.books|;
      match DetermineStopReason(|a.books|, sum, Expected(p, a.total), page, p)
      case Some(reason) => Outcome(page, reason, sum)
      case None => ScanFrom(up, p, page + 1, sum)
  }

  /** Books served on the pages `first .. end`, `end` excluded. */
  function Books(up: nat -> Answer, first: nat, end: nat): nat
    requires first <= end
    decreases end
  {
    if first == end then 0 else Books(up, first, end - 1) + Count(up(end - 1))
  }

  /** A page that lets the scan go on: it is full, and more is expected. */
  predicate GoesOn(up: nat -> Answer, p: Params, n: nat)
    requires p.pageStart <= n
  {
    && up(n).Page? && |up(n).books| == p.pageSize && n < p.pageEnd && n < p.pageStart + p.safetyMaxPages - 1
    && !Enough(Books(up, p.pageStart, n + 1), up(n).total, p)
  }

  /**
   Where a scan stops and why, for any upstream: every page before is full with more expected,
   and the answer of the stopping page has exactly the property the reason names.
   */
  ghost predicate StopsAt(up: nat -> Answer, p: Params, o: Outcome) {
    && p.pageStart <= o.page <= p.pageEnd && o.page <= p.pageStart + p.safetyMaxPages - 1
    && (forall n :: p.pageStart <= n < o.page ==> GoesOn(up, p, n))
    && var a := up(o.page);
       if a.Page? && |a.books| <= p.pageSize
       then o.fetched == Books(up, p.pageStart, o.page + 1)
         && StopsFor(Some(o.reason), |a.books|, o.fetched, a.total, o.page, p)
       else o.fetched == Books(up, p.pageStart, o.page) && o.reason == UpstreamError
  }

  lemma {:induction false} ScanFromInFull(up: nat -> Answer, p: Params, page: nat)
    requires ValidParams(p) && p.pageStart <= page <= ScheduledEnd(p)
    requires forall n :: p.pageStart <= n < page ==> GoesOn(up, p, n)
    ensures StopsAt(up, p, ScanFrom(up, p, page, Books(up, p.pageStart, page)))
    decreases ScheduledEnd(p) - page
  {
    var a := up(page);
    if Usable(a, p) {
      var before := Books(up, p.pageStart, page);
      assert Books(up, p.pageStart, page + 1) == before + |a.books|;
      DecisionInFull(|a.books|, before, a.total, page, p);
      if DetermineStopReason(|a.books|, before + |a.books|, Expected(p, a.total), page, p).None? {
        assert GoesOn(up, p, page);
        ScanFromInFull(up, p, page + 1);
      }
    }
  }

  /** For any upstream a scan stops where and why `StopsAt` says. */
  lemma {:induction false} ScanInFull(up: nat -> Answer, p: Params)
    requires ValidParams(p)
    ensures StopsAt(up, p, ScanFrom(up, p, p.pageStart, 0))
  {
    ScanFromInFull(up, p, p.pageStart);
  }

  // ---------------------------------------------------------------------
  // An upstream with a fixed total that serves full pages
  // ---------------------------------------------------------------------

  /** Page `n` holds items (n - 1) * size .. n * size of a catalog of `total` items. */
  ghost predicate ServesFullPages(up: nat -> Answer, size: nat, total: nat) {
    forall n: nat :: 1 <= n ==>
      up(n).Page? && up(n).total == total && |up(n).books| == Max(0, Min(size, total - (n - 1) * size))
  }

  /** Items served by the first `k` pages of the scan. */
  function Served(p: Params, total: nat, k: nat): nat {
    Min(UpstreamRemaining(p, total), k * p.pageSize)
  }

  lemma ServedStep(up: nat -> Answer, p: Params, total: nat, page: nat)
    requires ValidParams(p) && p.pageStart <= page && ServesFullPages(up, p.pageSize, total)
    ensures var k := page - p.pageStart;
            && Served(p, total, k) + |up(page).books| == Served(p, total, k + 1)
            && |up(page).books| <= p.pageSize
            && (|up(page).books| < p.pageSize ==> Served(p, total, k + 1) == UpstreamRemaining(p, total))
  {
    var k := page - p.pageStart;
    assert (page - 1) * p.pageSize == (p.pageStart - 1) * p.pageSize + k * p.pageSize;
    assert (k + 1) * p.pageSize == k * p.pageSize + p.pageSize;
  }

  lemma MulLe(a: nat, b: nat, c: nat)
    requires a <= b
    ensures a * c <= b * c
  {}

  lemma Capacities(p: Params, page: nat)
    requires ValidParams(p) && p.pageStart <= page <= ScheduledEnd(p)
    ensures var served := (page - p.pageStart + 1) * p.pageSize;
            && p.pageSize <= served <= ScheduledCapacity(p) <= RequestedCapacity(p)
            && (page == ScheduledEnd(p) ==> served == ScheduledCapacity(p))
            && (page == p.pageEnd ==> served == RequestedCapacity(p))
  {
    MulLe(1, page - p.pageStart + 1, p.pageSize);
    MulLe(page - p.pageStart + 1, ScheduledEnd(p) - p.pageStart + 1, p.pageSize);
    MulLe(ScheduledEnd(p) - p.pageStart + 1, p.pageEnd - p.pageStart + 1, p.pageSize);
  }

  /** The decision on a page of a scan that has not stopped before it. */
  lemma FullPageDecision(up: nat -> Answer, p: Params, total: nat, page: nat)
    requires ValidParams(p) && p.pageStart <= page <= ScheduledEnd(p) && ServesFullPages(up, p.pageSize, total)
    requires page > p.pageStart ==> Served(p, total, page - p.pageStart) < Expected(p, total)
    ensures var served := Served(p, total, page - p.pageStart + 1);
            var reason := DetermineStopReason(|up(page).books|, served, Expected(p, total), page, p);
            if UpstreamRemaining(p, total) == 0 then reason == Some(EmptyPage) && served == 0
            else if served >= Expected(p, total)
            then reason == Some(ExpectedTotalReached) && served == Expected(p, total) <= ScheduledCapacity(p)
            else if page == ScheduledEnd(p) then reason == Some(SafetyLimit) && served == ScheduledCapacity(p)
            else reason == None
  {
    ServedStep(up, p, total, page);
    Capacities(p, page);
  }

  /** A scan that has not stopped yet: what remains of it, from any of its pages. */
  lemma {:induction false} FullPagesFrom(up: nat -> Answer, p: Params, total: nat, page: nat)
    requires ValidParams(p) && p.pageStart <= page <= ScheduledEnd(p) && ServesFullPages(up, p.pageSize, total)
    requires page > p.pageStart ==> Served(p, total, page - p.pageStart) < Expected(p, total)
    ensures var o := ScanFrom(up, p, page, Served(p, total, page - p.pageStart));
            if UpstreamRemaining(p, total) == 0 then o.reason == EmptyPage && o.fetched == 0
            else if ScheduledCapacity(p) < Expected(p, total)
              then o.reason == SafetyLimit && o.fetched == ScheduledCapacity(p)
            else o.reason == ExpectedTotalReached && o.fetched == Expected(p, total)
    decreases ScheduledEnd(p) - page
  {
    ServedStep(up, p, total, page);
    FullPageDecision(up, p, total, page);
    var served := Served(p, total, page - p.pageStart + 1);
    if UpstreamRemaining(p, total) > 0 && served < Expected(p, total) && page < ScheduledEnd(p) {
      FullPagesFrom(up, p, total, page + 1);
    }
  }

  /**
   Against an upstream with a fixed total that serves full pages, a scan stops by its
   scheduled end having counted min(requested capacity, upstream remainder), unless it
   stopped on the safety limit, exactly when its scheduled capacity is smaller, and then
   it counted that capacity.  It never stops on a short page or on its page count.
   */
  lemma {:induction false} FullPagesScan(up: nat -> Answer, p: Params, total: nat)
    requires ValidParams(p) && ServesFullPages(up, p.pageSize, total)
    ensures var o := ScanFrom(up, p, p.pageStart, 0);
            && o.page <= ScheduledEnd(p)
            && (o.reason == SafetyLimit <==> ScheduledCapacity(p) < Expected(p, total))
            && (o.reason != SafetyLimit ==> o.fetched == Expected(p, total))
            && (o.reason == SafetyLimit ==> o.fetched == ScheduledCapacity(p) < Expected(p, total))
            && o.reason != ShortPage && o.reason != ExpectedPagesReached && o.reason != UpstreamError
  {
    FullPagesFrom(up, p, total, p.pageStart);
    Capacities(p, p.pageStart);
  }

  // ---------------------------------------------------------------------
  // The task and its items
  // ---------------------------------------------------------------------

  datatype Kind = PageItem | RecoveryItem
  datatype Status = Pending | Success | Failed

  datatype Item = Item(kind: Kind, index: nat, status: Status, returned: nat, sourceIds: seq<nat>,
      stopReason: Option<StopReason>)

  /** The fields of the task result this model keeps. */
  datatype TaskResult = TaskResult(
    stopReason: Option<StopReason>, terminalPage: Option<nat>, expected: int, actual: nat,
    fetchedUnique: nat, duplicates: int)

  /** A page that succeeded has one source id per returned item; any other item counts nothing. */
  predicate ItemOk(it: Item) {
    |it.sourceIds| == it.returned && (it.status != Success ==> it.returned == 0)
  }

  /** SUM(returnedCount) over the catalog pages. */
  function PageSum(items: seq<Item>): nat {
    if items == [] then 0
    else PageSum(items[..|items| - 1])
         + (if items[|items| - 1].kind == PageItem then items[|items| - 1].returned else 0)
  }

  /** The same over the pages and recovery pages that succeeded. */
  function SuccessSum(items: seq<Item>): nat {
    if items == [] then 0
    else SuccessSum(items[..|items| - 1])
         + (if items[|items| - 1].status == Success then items[|items| - 1].returned else 0)
  }

  /** Later pages that are still pending end with the page that stopped the scan. */
  function Cascaded(it: Item, page: nat, reason: StopReason): Item {
    if it.kind == PageItem && it.status == Pending && it.index > page
    then Item(PageItem, it.index, if reason == UpstreamError then Failed else Success, 0, [], Some(reason))
    else it
  }

  lemma {:induction false} PageSumSame(xs: seq<Item>, ys: seq<Item>)
    requires |xs| == |ys|
    requires forall i :: 0 <= i < |xs| ==> ys[i].kind == xs[i].kind && ys[i].returned == xs[i].returned
    ensures PageSum(ys) == PageSum(xs)
  {
    if xs != [] {
      PageSumSame(xs[..|xs| - 1], ys[..|ys| - 1]);
    }
  }

  lemma {:induction false} PageSumUpdate(xs: seq<Item>, i: nat, it: Item)
    requires i < |xs| && it.kind == xs[i].kind
    ensures PageSum(xs[i := it]) == PageSum(xs) + (if it.kind == PageItem then it.returned - xs[i].returned else 0)
  {
    var last := |xs| - 1;
    if i == last {
      assert xs[i := it][..last] == xs[..last];
    } else {
      PageSumUpdate(xs[..last], i, it);
      assert xs[i := it][..last] == xs[..last][i := it];
    }
  }

  // ---------------------------------------------------------------------
  // How far a scan has come
  // ---------------------------------------------------------------------

  predicate PagesInOrder(p: Params, items: seq<Item>) {
    forall j :: 0 <= j < |items| ==> items[j].kind == PageItem && items[j].index == p.pageStart + j
  }

  /** No stop yet: the pages before position `i` are counted, the others are pending. */
  ghost predicate Scanning(up: nat -> Answer, p: Params, items: seq<Item>, i: nat, goal: Outcome) {
    && ValidParams(p) && i < |items| == ScheduledEnd(p) - p.pageStart + 1
    && (forall j :: 0 <= j < i ==> items[j].status == Success && items[j].returned == Count(up(p.pageStart + j))
                                   && items[j].stopReason == None)
    && (forall j :: i <= j < |items| ==> items[j].status == Pending && items[j].returned == 0)
    && p.pageStart + i <= goal.page
    && goal == ScanFrom(up, p, p.pageStart + i, PageSum(items))
  }

  /** How a page ends: before the stop with its count, at the stop and behind it with the reason. */
  predicate EndsAs(up: nat -> Answer, p: Params, it: Item, goal: Outcome) {
    && (it.index < goal.page ==>
        it.status == Success && it.returned == Count(up(it.index)) && it.stopReason == None)
    && (it.index >= goal.page ==>
        it.status == (if goal.reason == UpstreamError then Failed else Success) && it.stopReason == Some(goal.reason))
    && (it.index == goal.page ==> it.returned == if Usable(up(goal.page), p) then Count(up(goal.page)) else 0)
    && (it.index > goal.page ==> it.returned == 0)
  }

  /** The scan stopped at the page `goal` says; every page is terminal. */
  predicate Stopped(up: nat -> Answer, p: Params, items: seq<Item>, goal: Outcome) {
    goal.fetched == PageSum(items) && forall j :: 0 <= j < |items| ==> EndsAs(up, p, items[j], goal)
  }

  /** The items after one page succeeded or failed with `done`. */
  predicate PageDone(items: seq<Item>, after: seq<Item>, i: nat, done: Item)
    requires i < |items|
  {
    && |after| == |items| && after[i] == done && done.kind == items[i].kind && done.index == items[i].index
    && forall j :: 0 <= j < |items| && j != i ==>
         after[j] == if done.stopReason.Some? then Cascaded(items[j], done.index, done.stopReason.value) else items[j]
  }

  /** `done` is the item a usable answer makes of page position `i`. */
  ghost predicate PageRead(up: nat -> Answer, p: Params, items: seq<Item>, after: seq<Item>, i: nat, done: Item)
    requires i < |items|
  {
    && ValidParams(p) && PagesInOrder(p, items) && PageDone(items, after, i, done)
    && Usable(up(done.index), p) && done.status == Success && done.returned == Count(up(done.index))
    && PageSum(after) == PageSum(items) + done.returned
    && done.stopReason ==
         DetermineStopReason(done.returned, PageSum(after), Expected(p, up(done.index).total), done.index, p)
  }

  lemma PageContinues(up: nat -> Answer, p: Params, items: seq<Item>, after: seq<Item>, i: nat,
        goal: Outcome, done: Item)
    requires Scanning(up, p, items, i, goal) && PageRead(up, p, items, after, i, done) && done.stopReason.None?
    ensures PagesInOrder(p, after) && Scanning(up, p, after, i + 1, goal)
  {
    assert items[i].index == p.pageStart + i;
  }

  lemma {:induction false} PageStops(up: nat -> Answer, p: Params, items: seq<Item>, after: seq<Item>, i: nat,
      goal: Outcome, done: Item)
    requires Scanning(up, p, items, i, goal) && PageRead(up, p, items, after, i, done) && done.stopReason.Some?
    ensures PagesInOrder(p, after) && Stopped(up, p, after, goal)
    ensures goal == Outcome(done.index, done.stopReason.value, PageSum(after))
  {
    assert items[i].index == p.pageStart + i;
    assert goal == Outcome(done.index, done.stopReason.value, PageSum(after));
  }

  lemma {:induction false} FailureStops(up: nat -> Answer, p: Params, items: seq<Item>, after: seq<Item>, i: nat,
      goal: Outcome, done: Item)
    requires Scanning(up, p, items, i, goal) && PagesInOrder(p, items) && PageDone(items, after, i, done)
    requires !Usable(up(done.index), p) && done.status == Failed && done.returned == 0
    requires done.stopReason == Some(UpstreamError) && PageSum(after) == PageSum(items)
    ensures PagesInOrder(p, after) && Stopped(up, p, after, goal)
    ensures goal.page == done.index && goal.reason == UpstreamError
  {
    assert items[i].index == p.pageStart + i;
  }

  lemma {:induction false} PageSumZero(xs: seq<Item>)
    requires forall i :: 0 <= i < |xs| ==> xs[i].returned == 0
    ensures PageSum(xs) == 0
  {
    if xs != [] {
      PageSumZero(xs[..|xs| - 1]);
    }
  }

  class CatalogTask {
    const params: Params
    var items: seq<Item>
    var table: Table
    var result: TaskResult

    ghost predicate Valid()
      reads this
    {
      && ValidParams(params)
      && (forall i :: 0 <= i < |items| ==> ItemOk(items[i]))
      && FreshIds(table)
    }

    constructor (params: Params, table: Table)
      requires ValidParams(params) && FreshIds(table)
      ensures Valid() && this.params == params && this.table == table
      ensures |items| == ScheduledEnd(params) - params.pageStart + 1
      ensures forall i :: 0 <= i < |items| ==> items[i] == Item(PageItem, params.pageStart + i, Pending, 0, [], None)
    {
      this.params, this.table := params, table;
      items := seq(ScheduledEnd(params) - params.pageStart + 1,
        i requires 0 <= i => Item(PageItem, params.pageStart + i, Pending, 0, [], None));
      result := TaskResult(None, None, 0, 0, 0, 0);
    }

    /** One book becomes a row; its id is collected unless a recovery page skipped it as a duplicate. */
    method PersistItem(book: Book, recoveryOnly: bool, ids: seq<nat>) returns (collected: seq<nat>)
      modifies `table
      ensures Persisted(table, collected) == PersistBook(Persisted(old(table), ids), book, recoveryOnly)
    {
      collected := ids;
      if book.identity in table.rows {
        if !recoveryOnly {
          var row := table.rows[book.identity];
          table := table.(rows := table.rows[book.identity := row.(data := book.data)]);
          collected := ids + [row.id];
        }
      } else {
        collected := ids + [table.nextId];
        table := Table(table.rows[book.identity := Row(table.nextId, book.data)], table.nextId + 1);
      }
    }

    method PersistItems(books: seq<Book>, recoveryOnly: bool) returns (ids: seq<nat>)
      requires FreshIds(table)
      modifies `table
      ensures FreshIds(table) && (!recoveryOnly ==> |ids| == |books|)
      ensures Persisted(table, ids) == PersistBooks(old(table), books, recoveryOnly)
    {
      if recoveryOnly { RecoveryPagePersists(table, books); } else { ScanPagePersists(table, books); }
      ids := [];
      for i := 0 to |books|
        invariant Persisted(table, ids) == PersistBooks(old(table), books[..i], recoveryOnly)
      {
        assert books[..i + 1][..i] == books[..i];
        ids := PersistItem(books[i], recoveryOnly, ids);
      }
      assert books[..|books|] == books;
    }

    /** The stop cascade over the pending pages behind `page`. */
    method Cascade(page: nat, reason: StopReason)
      modifies `items
      ensures |items| == |old(items)|
      ensures forall i :: 0 <= i < |items| ==> items[i] == Cascaded(old(items[i]), page, reason)
    {
      for i := 0 to |items|
        invariant |items| == |old(items)|
        invariant forall j :: 0 <= j < i ==> items[j] == Cascaded(old(items)[j], page, reason)
        invariant forall j :: i <= j < |items| ==> items[j] == old(items)[j]
      {
        if items[i].kind == PageItem && items[i].status == Pending && items[i].index > page {
          items := items[i := Item(PageItem, items[i].index,
                                 if reason == UpstreamError then Failed else Success, 0, [], Some(reason))];
        }
      }
    }

    /** The item gets its result; on a stop every pending later page ends with it. */
    method FinishPage(i: nat, done: Item)
      requires i < |items| && items[i].status == Pending && done.kind == items[i].kind && done.index == items[i].index
      requires ItemOk(done) && done.status != Pending && forall j :: 0 <= j < |items| ==> ItemOk(items[j])
      modifies `items
      ensures PageDone(old(items), items, i, done)
      ensures PageSum(items) == PageSum(old(items)) + (if done.kind == PageItem then done.returned else 0)
      ensures forall j :: 0 <= j < |items| ==> ItemOk(items[j])
    {
      PageSumUpdate(items, i, done);
      items := items[i := done];
      ghost var provisional := items;
      if done.stopReason.Some? {
        Cascade(done.index, done.stopReason.value);
      }
      PageSumSame(provisional, items);
    }

    method SumPages() returns (sum: nat)
      ensures sum == PageSum(items)
    {
      sum := 0;
      for i := 0 to |items|
        invariant sum == PageSum(items[..i])
      {
        assert items[..i + 1][..i] == items[..i];
        if items[i].kind == PageItem {
          sum := sum + items[i].returned;
        }
      }
      assert items[..|items|] == items;
    }

    /**
     A page answered.  The item succeeds with as many source ids as it returned; the stop
     decision is taken on the sum of all pages so far; on a stop every pending later page
     ends with it; the task reports the sum.
     */
    method PersistCatalogPage(i: nat, books: seq<Book>, total: nat) returns (done: Item)
      requires Valid() && i < |items| && items[i].status == Pending
      modifies `items, `table, `result
      ensures Valid() && PageDone(old(items), items, i, done) && done.status == Success
      ensures Persisted(table, done.sourceIds) == PersistBooks(old(table), books, done.kind == RecoveryItem)
      ensures done.returned == |done.sourceIds| && (done.kind == PageItem ==> done.returned == |books|)
      ensures StopsFor(done.stopReason, done.returned, PageSum(old(items)) + done.returned, total, done.index, params)
      ensures done.stopReason == DetermineStopReason(done.returned, PageSum(old(items)) + done.returned,
                                                     Expected(params, total), done.index, params)
      ensures PageSum(items) == PageSum(old(items)) + (if done.kind == PageItem then done.returned else 0)
      ensures result.stopReason == done.stopReason && result.actual == PageSum(items)
      ensures result.terminalPage == if done.stopReason.Some? then Some(done.index) else None
    {
      var recoveryOnly := items[i].kind == RecoveryItem;
      var ids := PersistItems(books, recoveryOnly);
      var before := SumPages();
      var expected := Expected(params, total);
      var reason := DetermineStopReason(|ids|, before + |ids|, expected, items[i].index, params);
      DecisionInFull(|ids|, before, total, items[i].index, params);
      done := Item(items[i].kind, items[i].index, Success, |ids|, ids, reason);
      FinishPage(i, done);
      var actual := SumPages();
      result := TaskResult(reason, if reason.Some? then Some(done.index) else None, expected,
                           actual, |ids|, Max(0, actual - |ids|));
    }

    /** A page that could not be read: it and every pending later page fail, and what was counted stays counted. */
    method PersistCatalogUpstreamFailure(i: nat) returns (done: Item)
      requires Valid() && i < |items| && items[i].status == Pending
      modifies `items, `result
      ensures Valid() && PageDone(old(items), items, i, done)
      ensures done == Item(old(items)[i].kind, old(items)[i].index, Failed, 0, [], Some(UpstreamError))
      ensures PageSum(items) == PageSum(old(items))
      ensures result.stopReason == Some(UpstreamError) && result.terminalPage == Some(done.index)
      ensures result.actual == PageSum(items)
    {
      done := Item(items[i].kind, items[i].index, Failed, 0, [], Some(UpstreamError));
      FinishPage(i, done);
      var actual := SumPages();
      result := result.(stopReason := Some(UpstreamError), terminalPage := Some(done.index), actual := actual,
                        fetchedUnique := actual, duplicates := 0);
    }

    /**
     Pages are claimed strictly in order.  Whatever the upstream answers, the scan ends by
     its scheduled end with every page terminal, and reports where and why it stopped and
     how many items the pages up to there returned; `StopsAt` says where that is.
     */
    method Scan(up: nat -> Answer)
      requires Valid() && |items| == ScheduledEnd(params) - params.pageStart + 1 && PagesInOrder(params, items)
      requires forall i :: 0 <= i < |items| ==> items[i].status == Pending
      modifies `items, `table, `result
      ensures Valid() && |items| == |old(items)| && PagesInOrder(params, items)
      ensures Finished(up, ScanFrom(up, params, params.pageStart, 0))
      ensures StopsAt(up, params, ScanFrom(up, params, params.pageStart, 0))
    {
      ScanInFull(up, params);
      ghost var goal := ScanFrom(up, params, params.pageStart, 0);
      ghost var stopped := false;
      forall j | 0 <= j < |items| ensures items[j].returned == 0 { assert ItemOk(items[j]); }
      PageSumZero(items);
      for i := 0 to |items|
        invariant Valid() && PagesInOrder(params, items) && |items| == |old(items)|
        invariant if stopped then Finished(up, goal) else Scanning(up, params, items, i, goal)
      {
        if items[i].status == Pending {
          stopped := ScanPage(up, i, goal);
        }
      }
    }

    /** One page of the scan: read it, then persist what came back. */
    method ScanPage(up: nat -> Answer, i: nat, ghost goal: Outcome) returns (ghost stopped: bool)
      requires Valid() && PagesInOrder(params, items) && i < |items| && Scanning(up, params, items, i, goal)
      modifies `items, `table, `result
      ensures Valid() && PagesInOrder(params, items) && |items| == |old(items)|
      ensures if stopped then Finished(up, goal) else Scanning(up, params, items, i + 1, goal)
    {
      ghost var before := items;
      var answer := up(items[i].index);
      if !answer.Page? || |answer.books| > params.pageSize {
        var done := PersistCatalogUpstreamFailure(i);
        FailureStops(up, params, before, items, i, goal, done);
        stopped := true;
      } else {
        var done := PersistCatalogPage(i, answer.books, answer.total);
        stopped := done.stopReason.Some?;
        if stopped {
          PageStops(up, params, before, items, i, goal, done);
        } else {
          PageContinues(up, params, before, items, i, goal, done);
        }
      }
    }

    /** The task reports the stop `goal` describes, and its items agree. */
    ghost predicate Finished(up: nat -> Answer, goal: Outcome)
      reads this
    {
      && result.stopReason == Some(goal.reason) && result.terminalPage == Some(goal.page)
      && result.actual == goal.fetched && Stopped(up, params, items, goal)
    }

    // -------------------------------------------------------------------
    // The counts the finalize item reports
    // -------------------------------------------------------------------

    /** A recovery page is queued behind the pages. */
    method QueueRecoveryPage(index: nat)
      requires Valid()
      modifies `items
      ensures Valid() && items == old(items) + [Item(RecoveryItem, index, Pending, 0, [], None)]
    {
      items := items + [Item(RecoveryItem, index, Pending, 0, [], None)];
    }

    /**
     Every successful page, recovery pages included, has as many source ids as it counted,
     so distinct ids and duplicate observations add up to the count exactly: the Math.max
     never cuts anything off.
     */
    method FinalizeCounts()
      requires Valid()
      modifies `result
      ensures result.actual == SuccessSum(items) && result.fetchedUnique == |SuccessIds(items)|
      ensures result.duplicates == result.actual - result.fetchedUnique
      ensures result.fetchedUnique + result.duplicates == result.actual && 0 <= result.duplicates
      ensures result.actual == |IdsFound(items)| && result.fetchedUnique == |Elements(IdsFound(items))|
    {
      var ids: set<nat> := {};
      var actual := 0;
      for i := 0 to |items|
        invariant ids == SuccessIds(items[..i]) && actual == SuccessSum(items[..i])
      {
        assert items[..i + 1][..i] == items[..i];
        if items[i].status == Success {
          ids := ids + Elements(items[i].sourceIds);
          actual := actual + items[i].returned;
        }
      }
      assert items[..|items|] == items;
      UniqueWithinCount(items);
      FoundAreCounted(items);
      result := result.(actual := actual, fetchedUnique := |ids|, duplicates := Max(0, actual - |ids|));
    }
  }

  function SuccessIds(items: seq<Item>): set<nat> {
    if items == [] then {}
    else SuccessIds(items[..|items| - 1]) +
         (if items[|items| - 1].status == Success then Elements(items[|items| - 1].sourceIds) else {})
  }

  /** The source ids of all successful items, one after the other, repetitions included. */
  function IdsFound(items: seq<Item>): seq<nat> {
    if items == [] then []
    else IdsFound(items[..|items| - 1]) +
         (if items[|items| - 1].status == Success then items[|items| - 1].sourceIds else [])
  }

  /** What is counted are the ids found, and the distinct ones are those in the set. */
  lemma {:induction false} FoundAreCounted(items: seq<Item>)
    requires forall i :: 0 <= i < |items| ==> ItemOk(items[i])
    ensures |IdsFound(items)| == SuccessSum(items) && Elements(IdsFound(items)) == SuccessIds(items)
  {
    if items != [] {
      var last := items[|items| - 1];
      assert ItemOk(last);
      FoundAreCounted(items[..|items| - 1]);
    }
  }

  lemma {:induction false} UniqueWithinCount(items: seq<Item>)
    requires forall i :: 0 <= i < |items| ==> ItemOk(items[i])
    ensures |SuccessIds(items)| <= SuccessSum(items)
  {
    if items != [] {
      var last := items[|items| - 1];
      assert ItemOk(last);
      UniqueWithinCount(items[..|items| - 1]);
      ElementsAtMost(last.sourceIds);
    }
  }
}
