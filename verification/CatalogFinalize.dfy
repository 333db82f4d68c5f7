/**
 Finalization of a catalog scan by generation: page writes, upstream failures, the
 finalize item's own phases and retries (worker/handlers/moboreader.ts,
 src/lib/tasks/store.ts, src/lib/tasks/moboreader.ts), the admin retry
 (src/server/task-admin/service.ts) and gap recovery (scripts/catalog-finalize-recovery.ts).
 Every event is one transaction; the finalize run is fenced by its lease.
 */
module CatalogFinalize {
  import opened Doubles
  import opened Wrappers

  /** `catalogFinalizeGeneration`: anything but a positive safe integer counts as 1. */
  function Generation(raw: Option<int>): (g: int)
    ensures 1 <= g <= MAX_SAFE_INTEGER
  {
    if raw.Some? && 1 <= raw.value <= MAX_SAFE_INTEGER then raw.value else 1
  }

  datatype ItemStatus = ItemPending | ItemProcessing | ItemSuccess | ItemFailed

  /** The finalize item; the generation in its payload may be absent in old rows. */
  datatype FinalizeItem = FinalizeItem(status: ItemStatus, generation: Option<int>)

  datatype RecordStatus = Pending | Processing | Completed | Failed

  /** `result.finalization` of the task. */
  datatype Record = Record(status: RecordStatus, generation: int)

  /** Where the one leased finalize execution stands; it carries the generation of its payload. */
  datatype Execution = NoRun | Claimed(gen: int) | Checked(gen: int) | Started(gen: int) | Finished(gen: int)

  datatype Entry = Began(gen: int) | Ended(gen: int)

  datatype State = State(
    item: Option<FinalizeItem>,
    record: Option<Record>,
    openPages: nat,                    // catalog pages and recovery pages pending or processing
    paused: bool,
    run: Execution,
    loaded: Option<Option<Record>>,    // the record a recovery script has read
    log: seq<Entry>)                   // executions begun and completed

  datatype Event =
    | PageStopped(left: nat)           // a page write that stops the scan
    | PageContinued(left: nat)         // a page write that does not
    | PageFailed(left: nat)            // persistCatalogUpstreamFailure
    | PageExpired(left: nat)           // a page gives up after its last lease expired
    | SetPaused(value: bool)
    | Claim
    | Check
    | Begin
    | Complete
    | Succeed
    | Requeue                          // retry outcome, or the lease expired with attempts left
    | GiveUp                           // retries exhausted, or the last lease expired
    | Rearm(left: nat)                 // admin retry of failed pages or of the finalize item
    | LoadRecovery
    | ApplyRecovery(left: nat)

  function ItemGeneration(s: State): int {
    if s.item.Some? then Generation(s.item.value.generation) else 1
  }

  function RecordGeneration(r: Option<Record>): int {
    if r.Some? then Generation(Some(r.value.generation)) else 1
  }

  function Max(a: int, b: int): int { if a > b then a else b }

  /** The upsert with an empty update: the first one creates generation 1. */
  function EnsureItem(s: State): State {
    if s.item.Some? then s else s.(item := Some(FinalizeItem(ItemPending, Some(1))))
  }

  predicate Enabled(s: State, e: Event) {
    match e
    case PageStopped(left) => left < s.openPages
    case PageContinued(left) => left < s.openPages
    case PageFailed(left) => left < s.openPages
    case PageExpired(left) => left < s.openPages
    case SetPaused(_) => true
    case Claim => !s.paused && s.openPages == 0 && s.item.Some? && s.item.value.status == ItemPending && s.run == NoRun
    case Check => s.run.Claimed?
    case Begin => s.run.Checked?
    case Complete => s.run.Started?
    case Succeed => s.run.Finished?
    case Requeue => s.run != NoRun
    case GiveUp => s.run != NoRun
    case Rearm(_) =>
      !s.paused && s.run == NoRun && s.openPages == 0 && (s.item.Some? ==> s.item.value.status != ItemPending)
    case LoadRecovery => s.paused && s.run == NoRun
    case ApplyRecovery(left) => s.loaded.Some? && s.paused && s.run == NoRun && left <= s.openPages + 1
  }

  function SetItem(s: State, status: ItemStatus): State {
    if s.item.Some? then s.(item := Some(s.item.value.(status := status))) else s
  }

  /** A new generation, one past whatever the item and the given record hold. */
  function Bump(s: State, record: Option<Record>, left: nat): State {
    var g := Max(ItemGeneration(s), RecordGeneration(record)) + 1;
    s.(item := Some(FinalizeItem(ItemPending, Some(g))), record := Some(Record(Pending, g)), openPages := left)
  }

  function Next(s: State, e: Event): State
    requires Enabled(s, e)
  {
    match e
    case PageStopped(left) =>
      var t := EnsureItem(s);
      t.(record := Some(Record(Pending, ItemGeneration(t))), openPages := left)
    case PageContinued(left) => s.(record := None, openPages := left)
    case PageFailed(left) =>
      var t := EnsureItem(s);
      t.(record := Some(Record(Pending, ItemGeneration(t))), openPages := left)
    case PageExpired(left) => EnsureItem(s).(openPages := left)
    case SetPaused(value) => s.(paused := value)
    case Claim => SetItem(s, ItemProcessing).(run := Claimed(ItemGeneration(s)))
    case Check =>
      if s.record.Some? && s.record.value.status == Completed && RecordGeneration(s.record) == s.run.gen
      then SetItem(s, ItemSuccess).(run := NoRun)
      else s.(run := Checked(s.run.gen))
    case Begin => s.(record := Some(Record(Processing, s.run.gen)), run := Started(s.run.gen),
        log := s.log + [Began(s.run.gen)])
    case Complete => s.(record := Some(Record(Completed, s.run.gen)), run := Finished(s.run.gen),
        log := s.log + [Ended(s.run.gen)])
    case Succeed => SetItem(s, ItemSuccess).(run := NoRun)
    case Requeue => SetItem(s, ItemPending).(run := NoRun)
    case GiveUp => SetItem(s, ItemFailed).(record := Some(Record(Failed, s.run.gen)), run := NoRun)
    case Rearm(left) => Bump(s, s.record, left)
    case LoadRecovery => s.(loaded := Some(s.record))
    case ApplyRecovery(left) => Bump(s, s.loaded.value, left).(paused := false, loaded := None)
  }

  predicate CanRun(s: State, events: seq<Event>)
    decreases |events|
  {
    events == [] || (Enabled(s, events[0]) && CanRun(Next(s, events[0]), events[1..]))
  }

  function Run(s: State, events: seq<Event>): State
    requires CanRun(s, events)
    decreases |events|
  {
    if events == [] then s else Run(Next(s, events[0]), events[1..])
  }

  /** A scan that has just been queued. */
  function Init(pages: nat): State {
    State(None, None, pages, false, NoRun, None, [])
  }

  // ---------------------------------------------------------------------
  // The invariant
  // ---------------------------------------------------------------------

  predicate Agrees(s: State, r: Option<Record>) {
    r.Some? ==> s.item.Some? && r.value.generation == ItemGeneration(s)
  }

  /** What a script read earlier may be stale, but never ahead of the item. */
  predicate Behind(s: State, r: Option<Record>) {
    r.Some? ==> s.item.Some? && 1 <= r.value.generation <= ItemGeneration(s)
  }

  predicate Over(s: State) {
    && s.openPages == 0
    && s.record.Some?
    && match s.record.value.status
       case Completed => !s.run.Checked? && !s.run.Started?
       case Failed => s.run == NoRun && s.item.Some? && s.item.value.status == ItemFailed
       case _ => false
  }

  predicate EntryOk(s: State, x: Entry) {
    1 <= x.gen <= ItemGeneration(s) && (x.Ended? && x.gen == ItemGeneration(s) ==> Over(s))
  }

  /** No execution of a generation begins after that generation, or a later one, was completed. */
  predicate LogOk(log: seq<Entry>) {
    forall i, j :: 0 <= i < j < |log| && log[i].Ended? ==> log[j].gen > log[i].gen
  }

  ghost predicate Inv(s: State) {
    && Agrees(s, s.record)
    && (s.loaded.Some? ==> Behind(s, s.loaded.value))
    && (s.run != NoRun ==>
          s.openPages == 0 && s.item.Some? && s.item.value.status == ItemProcessing && s.run.gen == ItemGeneration(s))
    && (s.item.Some? && s.item.value.status == ItemProcessing ==> s.run != NoRun)
    && (s.run.Finished? ==> s.record == Some(Record(Completed, s.run.gen)))
    && (s.record.Some? && s.record.value.status == Completed ==>
          s.openPages == 0 && s.item.value.status != ItemFailed && (s.run != NoRun ==> s.run.gen == ItemGeneration(s)))
    && (s.record.Some? && s.record.value.status == Completed ==> Ended(s.record.value.generation) in s.log)
    && (s.log != [] ==> s.item.Some?)
    && (forall i :: 0 <= i < |s.log| ==> EntryOk(s, s.log[i]))
    && LogOk(s.log)
  }

  lemma BumpKeepsInv(s: State, record: Option<Record>, left: nat)
    requires Inv(s) && Behind(s, record) && s.run == NoRun && ItemGeneration(s) < MAX_SAFE_INTEGER
    ensures var t := Bump(s, record, left); Inv(t) && ItemGeneration(t) == ItemGeneration(s) + 1
  {
    var t := Bump(s, record, left);
    assert RecordGeneration(record) <= ItemGeneration(s);
    assert ItemGeneration(t) == ItemGeneration(s) + 1;
    forall i | 0 <= i < |t.log| ensures EntryOk(t, t.log[i]) { assert EntryOk(s, s.log[i]); }
  }

  lemma PageKeepsInv(s: State, e: Event)
    requires Inv(s) && Enabled(s, e) && (e.PageStopped? || e.PageContinued? || e.PageFailed? || e.PageExpired?)
    ensures Inv(Next(s, e))
  {
    var t := Next(s, e);
    forall i | 0 <= i < |t.log| ensures EntryOk(t, t.log[i]) { assert EntryOk(s, s.log[i]); }
  }

  lemma RunStepKeepsInv(s: State, e: Event)
    requires Inv(s) && Enabled(s, e) && (e.Claim? || e.Check? || e.Succeed? || e.Requeue? || e.GiveUp?)
    ensures Inv(Next(s, e))
  {
    var t := Next(s, e);
    assert ItemGeneration(t) == ItemGeneration(s);
    forall i | 0 <= i < |t.log| ensures EntryOk(t, t.log[i]) { assert EntryOk(s, s.log[i]); }
  }

  lemma ExecutionKeepsInv(s: State, e: Event)
    requires Inv(s) && Enabled(s, e) && (e.Begin? || e.Complete?)
    ensures Inv(Next(s, e))
  {
    var t := Next(s, e);
    assert ItemGeneration(t) == ItemGeneration(s);
    forall i | 0 <= i < |s.log| ensures EntryOk(t, s.log[i]) && (s.log[i].Ended? ==> s.log[i].gen < s.run.gen) {
      assert EntryOk(s, s.log[i]);
    }
  }

  lemma StepKeepsInv(s: State, e: Event)
    requires Inv(s) && Enabled(s, e) && ItemGeneration(s) < MAX_SAFE_INTEGER
    ensures var t := Next(s, e);
            && Inv(t)
            && ItemGeneration(t) == ItemGeneration(s) + (if e.Rearm? || e.ApplyRecovery? then 1 else 0)
            && (s.item.Some? ==> t.item.Some?)
  {
    match e
    case Rearm(left) => BumpKeepsInv(s, s.record, left);
    case ApplyRecovery(left) =>
      BumpKeepsInv(s, s.loaded.value, left);
      var u, t := Bump(s, s.loaded.value, left), Next(s, e);
      forall i | 0 <= i < |t.log| ensures EntryOk(t, t.log[i]) { assert EntryOk(u, u.log[i]); }
    case SetPaused(_) =>
      var t := Next(s, e);
      forall i | 0 <= i < |t.log| ensures EntryOk(t, t.log[i]) { assert EntryOk(s, s.log[i]); }
    case LoadRecovery =>
      var t := Next(s, e);
      forall i | 0 <= i < |t.log| ensures EntryOk(t, t.log[i]) { assert EntryOk(s, s.log[i]); }
    case Begin => ExecutionKeepsInv(s, e);
    case Complete => ExecutionKeepsInv(s, e);
    case PageStopped(_) => PageKeepsInv(s, e);
    case PageContinued(_) => PageKeepsInv(s, e);
    case PageFailed(_) => PageKeepsInv(s, e);
    case PageExpired(_) => PageKeepsInv(s, e);
    case _ => RunStepKeepsInv(s, e);
  }

  /** Retries and recoveries among the events. */
  function Bumps(events: seq<Event>): nat {
    if events == [] then 0
    else (if events[0].Rearm? || events[0].ApplyRecovery? then 1 else 0) + Bumps(events[1..])
  }

  lemma {:induction false} RunKeepsInv(s: State, events: seq<Event>)
    requires Inv(s) && CanRun(s, events) && ItemGeneration(s) + Bumps(events) < MAX_SAFE_INTEGER
    ensures Inv(Run(s, events)) && ItemGeneration(Run(s, events)) == ItemGeneration(s) + Bumps(events)
    ensures s.log <= Run(s, events).log
    decreases |events|
  {
    if events != [] {
      StepKeepsInv(s, events[0]);
      RunKeepsInv(Next(s, events[0]), events[1..]);
    }
  }

  /**
   Over any run of page writes, failures, finalize phases, retries and recoveries: the
   recorded generation is the finalize item's whenever one is recorded; the item's
   generation counts the retries and recoveries, so it never decreases and grows strictly at
   each of them; and once a generation was completed no execution of it, or of an earlier
   one, ever begins again.
   */
  lemma {:induction false} GenerationsOverRuns(pages: nat, before: seq<Event>, after: seq<Event>)
    requires CanRun(Init(pages), before) && CanRun(Run(Init(pages), before), after)
    requires Bumps(before) + Bumps(after) < MAX_SAFE_INTEGER - 1
    ensures var s := Run(Init(pages), before);
            var t := Run(s, after);
            && ItemGeneration(t) == 1 + Bumps(before) + Bumps(after)
            && (t.record.Some? ==> t.item.Some? && t.record.value.generation == ItemGeneration(t))
            && LogOk(t.log) && s.log <= t.log
  {
    RunKeepsInv(Init(pages), before);
    RunKeepsInv(Run(Init(pages), before), after);
  }

  /**
   Exactly while the generation is below the largest safe integer does a retry or recovery
   increase it; past that it falls back to 1.
   */
  lemma BumpGrowsIff(s: State, record: Option<Record>, left: nat)
    requires Behind(s, record)
    ensures ItemGeneration(Bump(s, record, left)) > ItemGeneration(s) <==> ItemGeneration(s) < MAX_SAFE_INTEGER
    ensures ItemGeneration(s) == MAX_SAFE_INTEGER ==> ItemGeneration(Bump(s, record, left)) == 1
  {
    assert RecordGeneration(record) <= ItemGeneration(s);
  }

  // ---------------------------------------------------------------------
  // A generation that can be completed
  // ---------------------------------------------------------------------

  lemma {:induction false} RunSnoc(s: State, events: seq<Event>, e: Event)
    requires CanRun(s, events) && Enabled(Run(s, events), e)
    ensures CanRun(s, events + [e]) && Run(s, events + [e]) == Next(Run(s, events), e)
    decreases |events|
  {
    if events == [] {
      assert [e][1..] == [];
    } else {
      RunSnoc(Next(s, events[0]), events[1..], e);
      assert (events + [e])[1..] == events[1..] + [e];
    }
  }

  /** No retry, no recovery, and nobody pauses or resumes the task. */
  predicate Unaided(e: Event) {
    !e.Rearm? && !e.ApplyRecovery? && !e.SetPaused?
  }

  /** Some run of unaided events leads from `s` to `t`. */
  ghost predicate Leads(s: State, t: State) {
    exists events :: CanRun(s, events) && (forall e <- events :: Unaided(e)) && Run(s, events) == t
  }

  lemma LeadsNext(s: State, t: State, e: Event)
    requires Leads(s, t) && Enabled(t, e) && Unaided(e)
    ensures Leads(s, Next(t, e))
  {
    var events :| CanRun(s, events) && (forall e <- events :: Unaided(e)) && Run(s, events) == t;
    RunSnoc(s, events, e);
    assert forall x <- events + [e] :: Unaided(x);
  }

  /** The current generation is or will be completed on some such run. */
  ghost predicate CanComplete(s: State) {
    exists t :: Leads(s, t) && Ended(ItemGeneration(s)) in t.log
  }

  /** From a claimed execution on: check, begin, complete. */
  lemma ClaimedCompletes(s: State, t: State, g: int)
    requires Leads(s, t) && t.run == Claimed(g)
    requires t.record.Some? && t.record.value.status == Completed ==> RecordGeneration(t.record) != g
    ensures exists u :: Leads(s, u) && Ended(g) in u.log
  {
    LeadsNext(s, t, Check);
    var checked := Next(t, Check);
    LeadsNext(s, checked, Begin);
    var begun := Next(checked, Begin);
    LeadsNext(s, begun, Complete);
    var u := Next(begun, Complete);
    assert u.log[|u.log| - 1] == Ended(g);
  }

  /** A pending item is claimed once the open pages have ended. */
  lemma PendingCompletes(s: State, t: State, g: int)
    requires Leads(s, t) && !t.paused && t.run == NoRun && g == ItemGeneration(t)
    requires t.item.Some? && t.item.value.status == ItemPending
    requires t.record.Some? && t.record.value.status == Completed ==> RecordGeneration(t.record) != g || t.openPages > 0
    ensures exists u :: Leads(s, u) && Ended(g) in u.log
  {
    var ready := t;
    if t.openPages > 0 {
      LeadsNext(s, t, PageStopped(0));
      ready := Next(t, PageStopped(0));
    }
    LeadsNext(s, ready, Claim);
    ClaimedCompletes(s, Next(ready, Claim), g);
  }

  lemma LeadsHere(s: State)
    ensures Leads(s, s)
  {
    var none: seq<Event> := [];
    assert CanRun(s, none) && (forall e <- none :: Unaided(e)) && Run(s, none) == s;
  }

  /** Nothing more is executed: the item ended, or there is none and no page left to create it. */
  predicate Idle(s: State) {
    && s.run == NoRun
    && (s.item.Some? ==> s.item.value.status == ItemSuccess || s.item.value.status == ItemFailed)
    && (s.item.None? ==> s.openPages == 0)
  }

  lemma {:induction false} IdleStays(s: State, events: seq<Event>)
    requires Idle(s) && CanRun(s, events) && forall e <- events :: Unaided(e)
    ensures Run(s, events).log == s.log
    decreases |events|
  {
    if events != [] {
      assert events[0] in events;
      IdleStays(Next(s, events[0]), events[1..]);
    }
  }

  /**
   Unless the task is paused, the current generation is completed or can still be, without a
   retry or a recovery, exactly when it was completed before, or its finalize item is pending
   or processing, or the item is still to be created by an open page.
   */
  lemma CanCompleteIff(s: State)
    requires Inv(s) && !s.paused
    ensures CanComplete(s) <==>
      || Ended(ItemGeneration(s)) in s.log
      || (s.item.Some? && (s.item.value.status == ItemPending || s.item.value.status == ItemProcessing))
      || (s.item.None? && s.openPages > 0)
  {
    LeadsHere(s);
    if Ended(ItemGeneration(s)) in s.log {
    } else if Idle(s) {
      forall t | Leads(s, t) ensures t.log == s.log {
        var events :| CanRun(s, events) && (forall e <- events :: Unaided(e)) && Run(s, events) == t;
        IdleStays(s, events);
      }
    } else if s.item.None? {
      LeadsNext(s, s, PageStopped(0));
      PendingCompletes(s, Next(s, PageStopped(0)), 1);
    } else if s.item.value.status == ItemPending {
      PendingCompletes(s, s, ItemGeneration(s));
    } else {
      LeadsNext(s, s, Requeue);
      PendingCompletes(s, Next(s, Requeue), ItemGeneration(s));
    }
  }

  /**
   Every retry and every recovery below the largest safe integer starts a generation that was
   never begun, is recorded as pending, and can be completed without further help; a recovery
   leaves the task running.
   */
  lemma NewGenerationCanComplete(s: State, e: Event)
    requires Inv(s) && Enabled(s, e) && (e.Rearm? || e.ApplyRecovery?) && ItemGeneration(s) < MAX_SAFE_INTEGER
    ensures var t := Next(s, e);
            var g := ItemGeneration(t);
            && g == ItemGeneration(s) + 1 && Began(g) !in s.log && Ended(g) !in s.log && t.log == s.log
            && t.record == Some(Record(Pending, g)) && !t.paused && t.openPages == e.left
            && CanComplete(t)
  {
    var t := Next(s, e);
    StepKeepsInv(s, e);
    forall i | 0 <= i < |s.log| ensures s.log[i].gen < ItemGeneration(t) {
      assert EntryOk(s, s.log[i]);
    }
    CanCompleteIff(t);
  }

  // ---------------------------------------------------------------------
  // A completed generation that ends as failed
  // ---------------------------------------------------------------------

  predicate NoNewGeneration(events: seq<Event>) {
    forall e <- events :: !e.Rearm? && !e.ApplyRecovery?
  }

  predicate RecordedFailed(s: State) {
    s.record.Some? && s.record.value.status == Failed
  }

  /** Some continuation without a retry or a recovery records the generation as failed. */
  ghost predicate CanEndFailed(s: State) {
    exists events :: CanRun(s, events) && NoNewGeneration(events) && RecordedFailed(Run(s, events))
  }

  /** Once the item has succeeded the completed record stays. */
  lemma {:induction false} SucceededStays(s: State, events: seq<Event>)
    requires s.openPages == 0 && s.run == NoRun && s.item.Some? && s.item.value.status == ItemSuccess
    requires CanRun(s, events) && NoNewGeneration(events)
    ensures Run(s, events).record == s.record
    decreases |events|
  {
    if events != [] {
      SucceededStays(Next(s, events[0]), events[1..]);
    }
  }

  /** A requeued item is claimed again and its last lease expires. */
  lemma PendingEndsFailed(s: State)
    requires s.openPages == 0 && s.run == NoRun && s.item.Some? && s.item.value.status == ItemPending
    ensures CanEndFailed(s)
  {
    var events := [SetPaused(false), Claim, GiveUp];
    var t := Next(s, SetPaused(false));
    assert events[1..] == [Claim, GiveUp] && events[1..][1..] == [GiveUp] && [GiveUp][1..] == [];
    assert Enabled(t, Claim) && Enabled(Next(t, Claim), GiveUp);
    assert CanRun(Next(t, Claim), [GiveUp]);
    assert CanRun(t, events[1..]);
    assert CanRun(s, events) && RecordedFailed(Run(s, events));
  }

  /**
   A completed generation can still be recorded as failed, without any retry or recovery,
   exactly until its item has succeeded: the record is completed one write before that, and
   in between the last lease may expire.
   */
  lemma CompletedEndsFailedIff(s: State)
    requires Inv(s) && s.record.Some? && s.record.value.status == Completed
    ensures CanEndFailed(s) <==> s.item.value.status != ItemSuccess
  {
    if s.item.value.status == ItemSuccess {
      forall events | CanRun(s, events) && NoNewGeneration(events) ensures !RecordedFailed(Run(s, events)) {
        SucceededStays(s, events);
      }
    } else if s.run != NoRun {
      assert [GiveUp][1..] == [];
      assert CanRun(s, [GiveUp]) && RecordedFailed(Run(s, [GiveUp]));
    } else {
      PendingEndsFailed(s);
    }
  }

  /** Some run of a scan of `pages` pages, without a retry or a recovery, leads to `s`. */
  ghost predicate Reachable(pages: nat, s: State) {
    exists events :: CanRun(Init(pages), events) && NoNewGeneration(events) && Run(Init(pages), events) == s
  }

  lemma ReachNext(pages: nat, s: State, e: Event) returns (t: State)
    requires Reachable(pages, s) && Enabled(s, e) && !e.Rearm? && !e.ApplyRecovery?
    ensures t == Next(s, e) && Reachable(pages, t)
  {
    var events :| CanRun(Init(pages), events) && NoNewGeneration(events) && Run(Init(pages), events) == s;
    RunSnoc(Init(pages), events, e);
    t := Next(s, e);
    assert NoNewGeneration(events + [e]);
  }

  lemma FinalizeChecked() returns (s: State)
    ensures Reachable(1, s) && s.run == Checked(1) && s.log == [] && s.openPages == 0
    ensures s.item == Some(FinalizeItem(ItemProcessing, Some(1)))
  {
    assert CanRun(Init(1), []) && NoNewGeneration([]) && Run(Init(1), []) == Init(1);
    s := ReachNext(1, Init(1), PageStopped(0));
    s := ReachNext(1, s, Claim);
    s := ReachNext(1, s, Check);
  }

  /** The window is reachable: a crash after completing, then exhausted attempts. */
  lemma CompletedCanEndFailed() returns (s: State, t: State)
    ensures Reachable(1, s) && s.record == Some(Record(Completed, 1)) && s.item.Some?
    ensures s.item.value.status == ItemProcessing
    ensures Reachable(1, t) && t.record == Some(Record(Failed, 1)) && Ended(1) in t.log
  {
    s := FinalizeChecked();
    s := ReachNext(1, s, Begin);
    s := ReachNext(1, s, Complete);
    assert s.log[1] == Ended(1);
    t := ReachNext(1, s, GiveUp);
  }

  // ---------------------------------------------------------------------
  // The transactions as the code writes them
  // ---------------------------------------------------------------------

  /** An item that is there stays as it is; a new one is pending at generation 1. */
  predicate KeptOrCreated(before: Option<FinalizeItem>, after: Option<FinalizeItem>) {
    if before.Some? then after == before else after == Some(FinalizeItem(ItemPending, Some(1)))
  }

  /** The entry just begun is of a later generation than any that ended before it. */
  lemma BeganIsLatest(s: State)
    requires Inv(s) && s.log != []
    ensures forall i :: 0 <= i < |s.log| - 1 && s.log[i].Ended? ==> s.log[i].gen < s.log[|s.log| - 1].gen
  {
  }

  class CatalogTask {
    var item: Option<FinalizeItem>
    var record: Option<Record>
    var openPages: nat
    var paused: bool
    var run: Execution
    var loaded: Option<Option<Record>>
    ghost var log: seq<Entry>

    ghost function Contents(): State
      reads this
    {
      State(item, record, openPages, paused, run, loaded, log)
    }

    constructor (pages: nat)
      ensures Contents() == Init(pages)
    {
      item, record, openPages, paused, run, loaded, log := None, None, pages, false, NoRun, None, [];
    }

    /** The upsert of the finalize item; its payload's generation is what gets recorded. */
    method UpsertFinalizeItem() returns (generation: int)
      modifies `item
      ensures item == EnsureItem(old(Contents())).item
      ensures item.Some? && generation == Generation(item.value.generation)
    {
      if item.None? {
        item := Some(FinalizeItem(ItemPending, Some(1)));
      }
      generation := Generation(item.value.generation);
    }

    /** The finalize part of persistCatalogPage: with a stop reason the generation is recorded,
        without one the record is dropped. */
    method PersistPage(stops: bool, left: nat)
      requires left < openPages
      modifies `item, `record, `openPages
      ensures Contents() == Next(old(Contents()), if stops then PageStopped(left) else PageContinued(left))
      ensures openPages == left && (!stops ==> record == None && item == old(item))
      ensures stops ==> KeptOrCreated(old(item), item) && record == Some(Record(Pending, ItemGeneration(Contents())))
    {
      var finalizeGeneration := 1;
      if stops {
        finalizeGeneration := UpsertFinalizeItem();
      }
      record := if stops then Some(Record(Pending, finalizeGeneration)) else None;
      openPages := left;
    }

    method PersistUpstreamFailure(left: nat)
      requires left < openPages
      modifies `item, `record, `openPages
      ensures Contents() == Next(old(Contents()), PageFailed(left))
      ensures openPages == left && KeptOrCreated(old(item), item)
      ensures record == Some(Record(Pending, ItemGeneration(Contents())))
    {
      var finalizeGeneration := UpsertFinalizeItem();
      record := Some(Record(Pending, finalizeGeneration));
      openPages := left;
    }

    /** The check against the record, then the first fenced write of an execution. */
    method BeginFinalize() returns (alreadyCompleted: bool)
      requires Inv(Contents()) && run.Claimed? && ItemGeneration(Contents()) < MAX_SAFE_INTEGER
      modifies `item, `record, `run, `log
      ensures Inv(Contents()) && ItemGeneration(Contents()) == ItemGeneration(old(Contents()))
      ensures alreadyCompleted <==> old(record) == Some(Record(Completed, old(run.gen)))
      ensures alreadyCompleted ==> Contents() == Next(old(Contents()), Check)
      ensures !alreadyCompleted ==> run == Started(old(run.gen)) && log == old(log) + [Began(old(run.gen))]
      ensures alreadyCompleted ==> run == NoRun && item.Some? && item.value.status == ItemSuccess
      ensures alreadyCompleted ==> log == old(log) && record == old(record)
      ensures !alreadyCompleted ==>
          forall i :: 0 <= i < |old(log)| && old(log)[i].Ended? ==> old(log)[i].gen < old(run.gen)
    {
      var generation := run.gen;
      alreadyCompleted := record.Some? && record.value.status == Completed
          && Generation(Some(record.value.generation)) == generation;
      StepKeepsInv(Contents(), Check);
      if alreadyCompleted {
        item := Some(item.value.(status := ItemSuccess));
        run := NoRun;
      } else {
        run := Checked(generation);
        StepKeepsInv(Contents(), Begin);
        record, run, log := Some(Record(Processing, generation)), Started(generation), log + [Began(generation)];
        BeganIsLatest(Contents());
      }
    }

    /** The last fenced write of an execution, and the item's terminal status. */
    method CompleteFinalize()
      requires Inv(Contents()) && run.Started? && ItemGeneration(Contents()) < MAX_SAFE_INTEGER
      modifies `item, `record, `run, `log
      ensures Inv(Contents()) && run == NoRun && item.Some? && item.value.status == ItemSuccess
      ensures record == Some(Record(Completed, old(run.gen))) && log == old(log) + [Ended(old(run.gen))]
    {
      var generation := run.gen;
      StepKeepsInv(Contents(), Complete);
      record, run, log := Some(Record(Completed, generation)), Finished(generation), log + [Ended(generation)];
      StepKeepsInv(Contents(), Succeed);
      item := Some(item.value.(status := ItemSuccess));
      run := NoRun;
    }

    /**
     One finalize execution that nothing interrupts: a generation already completed is
     left alone; any other was never completed before, and is begun, completed and
     recorded once.
     */
    method RunCatalogFinalize() returns (alreadyCompleted: bool)
      requires Inv(Contents()) && run.Claimed? && ItemGeneration(Contents()) < MAX_SAFE_INTEGER
      modifies `item, `record, `run, `log
      ensures Inv(Contents()) && run == NoRun && item.Some? && item.value.status == ItemSuccess
      ensures record == Some(Record(Completed, old(run.gen)))
      ensures alreadyCompleted <==> old(record) == Some(Record(Completed, old(run.gen)))
      ensures log == if alreadyCompleted then old(log) else old(log) + [Began(old(run.gen)), Ended(old(run.gen))]
      ensures !alreadyCompleted ==>
          forall i :: 0 <= i < |old(log)| && old(log)[i].Ended? ==> old(log)[i].gen < old(run.gen)
    {
      alreadyCompleted := BeginFinalize();
      if !alreadyCompleted {
        CompleteFinalize();
      }
    }

    /** `failMoboreaderCatalogFinalize` with the item's terminal status. */
    method FailCatalogFinalize()
      requires run != NoRun && item.Some?
      modifies `item, `record, `run
      ensures Contents() == Next(old(Contents()), GiveUp)
      ensures record == Some(Record(Failed, old(run.gen))) && item.Some? && item.value.status == ItemFailed
      ensures item.value.generation == old(item).value.generation && run == NoRun
    {
      record := Some(Record(Failed, run.gen));
      item := Some(item.value.(status := ItemFailed));
      run := NoRun;
    }

    /** `rearmCatalogFinalize`: an admin retry starts a new generation and reopens the failed pages. */
    method RearmCatalogFinalize(left: nat)
      requires Enabled(Contents(), Rearm(left))
      modifies `item, `record, `openPages
      ensures Contents() == Next(old(Contents()), Rearm(left))
      ensures item.Some? && item.value.status == ItemPending && openPages == left
      ensures old(Inv(Contents())) && ItemGeneration(old(Contents())) < MAX_SAFE_INTEGER ==>
        CanComplete(Contents()) && record == Some(Record(Pending, ItemGeneration(old(Contents())) + 1))
    {
      var itemGeneration := if item.Some? then Generation(item.value.generation) else 1;
      var recorded := if record.Some? then Generation(Some(record.value.generation)) else 1;
      var generation := (if itemGeneration > recorded then itemGeneration else recorded) + 1;
      item := Some(FinalizeItem(ItemPending, Some(generation)));
      record := Some(Record(Pending, generation));
      openPages := left;
      if old(Inv(Contents())) && ItemGeneration(old(Contents())) < MAX_SAFE_INTEGER {
        NewGenerationCanComplete(old(Contents()), Rearm(left));
      }
    }

    method LoadRecoveryContext() returns (ok: bool)
      modifies `loaded
      ensures ok <==> paused && run == NoRun
      ensures ok ==> loaded == Some(record)
      ensures Contents() == if ok then Next(old(Contents()), LoadRecovery) else old(Contents())
    {
      ok := paused && run == NoRun;
      if ok {
        loaded := Some(record);
      }
    }

    /** The writes of the recovery transaction: one new generation, one past all before. */
    method WriteRecovery(left: nat)
      requires Enabled(Contents(), ApplyRecovery(left))
      modifies this
      ensures Contents() == Next(old(Contents()), ApplyRecovery(left))
    {
      var itemGeneration := if item.Some? then Generation(item.value.generation) else 1;
      var prior := if loaded.value.Some? then Generation(Some(loaded.value.value.generation)) else 1;
      var generation := (if itemGeneration > prior then itemGeneration else prior) + 1;
      item := Some(FinalizeItem(ItemPending, Some(generation)));
      record := Some(Record(Pending, generation));
      openPages, paused, loaded := left, false, None;
    }

    /**
     The recovery transaction: refused unless still paused and idle; otherwise it starts a new
     generation that can be completed, and leaves the task running.
     */
    method RunCatalogRecovery(left: nat) returns (ok: bool)
      requires loaded.Some? && left <= openPages + 1
      modifies this
      ensures ok <==> old(paused) && old(run) == NoRun
      ensures Contents() == if ok then Next(old(Contents()), ApplyRecovery(left)) else old(Contents())
      ensures ok ==> item.Some? && item.value.status == ItemPending && openPages == left && !paused && loaded == None
      ensures ok && old(Inv(Contents())) && ItemGeneration(old(Contents())) < MAX_SAFE_INTEGER ==>
        CanComplete(Contents()) && record == Some(Record(Pending, ItemGeneration(old(Contents())) + 1))
    {
      ok := paused && run == NoRun;
      if ok {
        WriteRecovery(left);
        if old(Inv(Contents())) && ItemGeneration(old(Contents())) < MAX_SAFE_INTEGER {
          NewGenerationCanComplete(old(Contents()), ApplyRecovery(left));
        }
      }
    }
  }
}
