/**
 Catalog batch fan-out (worker/handlers/catalog-batch.ts): enumerate the selection, classify
 every row, group the submitted ones and create one child task per group.  The whole run
 sees one RepeatableRead snapshot, so the table and every lookup are fixed.
 */
module CatalogBatch {
  import opened Wrappers
  import opened Keyset
  import opened Sequences

  const CHUNK_SIZE := 50

  type App = string
  type Account = string

  datatype Row = Row(id: Id, app: App, locale: Option<string>, status: string, novelId: Option<string>, deleted: bool)

  datatype Selection = ExplicitIds(ids: seq<Id>) | AllFiltered(filter: Row -> bool)

  datatype Operation = PromoClaim | NovelMaterialize

  datatype Reason =
    | ActiveItemConflict | MissingLocale | UnsupportedLocale | ChannelAccountRequired
    | BindingOrCapabilityUnavailable | ActiveScopeConflict

  datatype Verdict = Blocked(reason: Reason) | AlreadyLinked | Ineligible | Submitted

  /** The payload and the snapshot's answers to the lookups. */
  datatype Config = Config(
    operation: Operation, localePolicy: bool, accounts: map<App, Account>,
    siteLocales: set<string>, activePromo: set<Id>)

  datatype Child = Child(app: App, account: Option<Account>, items: seq<Id>, totalCount: nat)

  predicate Blank(s: string) {
    forall c <- s :: c == ' ' || c == '\t' || c == '\n' || c == '\r'
  }

  function Classify(r: Row, c: Config): Verdict {
    if c.operation == PromoClaim && r.id in c.activePromo then Blocked(ActiveItemConflict)
    else if c.operation == NovelMaterialize && r.status == "linked" && r.novelId.Some? then AlreadyLinked
    else if !(if c.operation == NovelMaterialize then r.status == "pending" && r.novelId.None?
              else r.status == "linked" && r.novelId.Some?) then Ineligible
    else if c.operation == NovelMaterialize && c.localePolicy && (r.locale.None? || Blank(r.locale.value))
        then Blocked(MissingLocale)
    else if c.operation == NovelMaterialize && c.localePolicy && r.locale.value !in c.siteLocales
        then Blocked(UnsupportedLocale)
    else if c.operation == PromoClaim && r.app !in c.accounts then Blocked(ChannelAccountRequired)
    else Submitted
  }

  /** A row a promo code can be claimed for. */
  predicate Claimable(r: Row, c: Config) {
    r.status == "linked" && r.novelId.Some? && r.id !in c.activePromo && r.app in c.accounts
  }

  /** A row a Novel can be made of; the locale counts only under the newer policy. */
  predicate Materializable(r: Row, c: Config) {
    && r.status == "pending" && r.novelId.None?
    && (c.localePolicy ==> r.locale.Some? && !Blank(r.locale.value) && r.locale.value in c.siteLocales)
  }

  /** The row fits the operation. */
  predicate Fits(r: Row, c: Config) {
    (c.operation == PromoClaim ==> Claimable(r, c)) && (c.operation == NovelMaterialize ==> Materializable(r, c))
  }

  /** Which rows of a promo claim get which verdict. */
  lemma ClaimVerdicts(r: Row, c: Config)
    requires c.operation == PromoClaim
    ensures Classify(r, c) == Submitted <==>
      r.status == "linked" && r.novelId.Some? && r.id !in c.activePromo && r.app in c.accounts
    ensures Classify(r, c) == Blocked(ActiveItemConflict) <==> r.id in c.activePromo
    ensures Classify(r, c) == Ineligible <==> r.id !in c.activePromo && (r.status != "linked" || r.novelId.None?)
    ensures Classify(r, c) == Blocked(ChannelAccountRequired) <==>
      r.id !in c.activePromo && r.status == "linked" && r.novelId.Some? && r.app !in c.accounts
  {
  }

  /** Which rows of a materialization get which verdict. */
  lemma MaterializeVerdicts(r: Row, c: Config)
    requires c.operation == NovelMaterialize
    ensures Classify(r, c) == Submitted <==>
      && r.status == "pending" && r.novelId.None?
      && (c.localePolicy ==> r.locale.Some? && !Blank(r.locale.value) && r.locale.value in c.siteLocales)
    ensures Classify(r, c) == AlreadyLinked <==> r.status == "linked" && r.novelId.Some?
    ensures Classify(r, c) == Ineligible <==>
      (r.status != "linked" || r.novelId.None?) && (r.status != "pending" || r.novelId.Some?)
    ensures Classify(r, c) == Blocked(MissingLocale) <==>
      c.localePolicy && r.status == "pending" && r.novelId.None? && (r.locale.None? || Blank(r.locale.value))
    ensures Classify(r, c) == Blocked(UnsupportedLocale) <==>
      && c.localePolicy && r.status == "pending" && r.novelId.None?
      && r.locale.Some? && !Blank(r.locale.value) && r.locale.value !in c.siteLocales
  {
  }

  /** Exactly the rows that fit the operation are submitted. */
  lemma SubmittedIffFits(r: Row, c: Config)
    ensures Classify(r, c) == Submitted <==> Fits(r, c)
  {
    if c.operation == PromoClaim { ClaimVerdicts(r, c); } else { MaterializeVerdicts(r, c); }
  }

  function Matches(s: Selection): Row -> bool {
    match s
    case ExplicitIds(ids) => (r: Row) => !r.deleted && r.id in ids
    case AllFiltered(f) => (r: Row) => !r.deleted && f(r)
  }

  /** Where the chunk that begins at `i` ends. */
  function ChunkEnd(ids: seq<Id>, i: nat): nat {
    if i + CHUNK_SIZE <= |ids| then i + CHUNK_SIZE else |ids|
  }

  /** The rows of one chunk of an id list, in id order. */
  function Chunk(table: seq<Row>, ids: seq<Id>, i: nat): seq<Row>
    requires i <= |ids|
  {
    Filter(table, Matches(ExplicitIds(ids[i..ChunkEnd(ids, i)])))
  }

  /** The rows the chunks of an id list find from position `i` on. */
  function ChunkRows(table: seq<Row>, ids: seq<Id>, i: nat): seq<Row>
    requires i <= |ids|
    decreases |ids| - i
  {
    if i == |ids| then [] else Chunk(table, ids, i) + ChunkRows(table, ids, ChunkEnd(ids, i))
  }

  /** The rows a selection visits, in order. */
  function SelectedRows(table: seq<Row>, s: Selection): seq<Row> {
    if s.ExplicitIds? then ChunkRows(table, s.ids, 0) else Filter(table, Matches(s))
  }

  /** Strictly increasing ids, as normalizeCatalogSelection leaves them. */
  predicate Normalized(s: Selection) {
    s.ExplicitIds? ==> forall i, j :: 0 <= i < j < |s.ids| ==> s.ids[i] < s.ids[j]
  }

  function RowId(r: Row): Id { r.id }

  // ---------------------------------------------------------------------
  // What the enumeration counts
  // ---------------------------------------------------------------------

  function Count(rows: seq<Row>, c: Config, v: Verdict): nat {
    if rows == [] then 0 else Count(rows[..|rows| - 1], c, v) + (if Classify(rows[|rows| - 1], c) == v then 1 else 0)
  }

  /** The submitted rows of one app, in visiting order. */
  function Bucket(rows: seq<Row>, c: Config, app: App): seq<Row> {
    if rows == [] then []
    else
      var r := rows[|rows| - 1];
      Bucket(rows[..|rows| - 1], c, app) + (if Classify(r, c) == Submitted && r.app == app then [r] else [])
  }

  function Of(counts: map<Reason, nat>, reason: Reason): nat {
    if reason in counts then counts[reason] else 0
  }

  function TotalBlocked(counts: map<Reason, nat>): nat {
    Of(counts, ActiveItemConflict) + Of(counts, MissingLocale) + Of(counts, UnsupportedLocale)
    + Of(counts, ChannelAccountRequired) + Of(counts, BindingOrCapabilityUnavailable) + Of(counts, ActiveScopeConflict)
  }

  function AllCounts(rows: seq<Row>, c: Config): nat {
    Count(rows, c, Submitted) + Count(rows, c, Ineligible) + Count(rows, c, AlreadyLinked)
    + Count(rows, c, Blocked(ActiveItemConflict)) + Count(rows, c, Blocked(MissingLocale))
    + Count(rows, c, Blocked(UnsupportedLocale)) + Count(rows, c, Blocked(ChannelAccountRequired))
    + Count(rows, c, Blocked(BindingOrCapabilityUnavailable)) + Count(rows, c, Blocked(ActiveScopeConflict))
  }

  /** Every row has exactly one verdict. */
  lemma {:induction false} VerdictsAddUp(rows: seq<Row>, c: Config)
    ensures AllCounts(rows, c) == |rows|
  {
    if rows != [] {
      VerdictsAddUp(rows[..|rows| - 1], c);
    }
  }

  /** The group map says of `app` what the rows say. */
  predicate GroupAt(order: seq<App>, groups: map<App, seq<Row>>, rows: seq<Row>, c: Config, app: App) {
    && (app in groups <==> Bucket(rows, c, app) != [])
    && (app in groups ==> groups[app] == Bucket(rows, c, app))
    && (app in order <==> app in groups)
  }

  ghost predicate GroupsOk(order: seq<App>, groups: map<App, seq<Row>>, rows: seq<Row>, c: Config) {
    Distinct(order) && forall app :: GroupAt(order, groups, rows, c, app)
  }

  lemma GroupsKept(order: seq<App>, groups: map<App, seq<Row>>, rows: seq<Row>, r: Row, c: Config)
    requires GroupsOk(order, groups, rows, c) && Classify(r, c) != Submitted
    ensures GroupsOk(order, groups, rows + [r], c)
  {
    forall app ensures GroupAt(order, groups, rows + [r], c, app) {
      assert GroupAt(order, groups, rows, c, app);
    }
  }

  // ---------------------------------------------------------------------
  // The enumeration as the handler runs it
  // ---------------------------------------------------------------------

  class Enumeration {
    const config: Config
    var observedCount: nat
    var submittedCount: nat
    var ineligibleCount: nat
    var alreadyLinkedCount: nat
    var blockedReasonCounts: map<Reason, nat>
    var order: seq<App>                 // group keys in order of first appearance
    var groups: map<App, seq<Row>>
    ghost var visited: seq<Row>

    constructor (config: Config)
      ensures this.config == config && visited == [] && Valid()
    {
      this.config := config;
      observedCount, submittedCount, ineligibleCount, alreadyLinkedCount := 0, 0, 0, 0;
      blockedReasonCounts, order, groups, visited := map[], [], map[], [];
    }

    ghost predicate CountersOk(v: Verdict)
      reads this
    {
      Count(visited, config, v) == match v
        case Submitted => submittedCount
        case Ineligible => ineligibleCount
        case AlreadyLinked => alreadyLinkedCount
        case Blocked(r) => Of(blockedReasonCounts, r)
    }

    ghost predicate Valid()
      reads this
    {
      && observedCount == |visited|
      && (forall v :: CountersOk(v))
      && GroupsOk(order, groups, visited, config)
    }

    /** A row that is not submitted enters its counter. */
    method Dismiss(row: Row, v: Verdict)
      requires Valid() && v == Classify(row, config) && v != Submitted
      modifies `observedCount, `ineligibleCount, `alreadyLinkedCount, `blockedReasonCounts, `visited
      ensures Valid() && visited == old(visited) + [row]
    {
      GroupsKept(order, groups, visited, row, config);
      match v {
        case Ineligible => ineligibleCount := ineligibleCount + 1;
        case AlreadyLinked => alreadyLinkedCount := alreadyLinkedCount + 1;
        case Blocked(reason) =>
          blockedReasonCounts := blockedReasonCounts[reason := Of(blockedReasonCounts, reason) + 1];
      }
      observedCount := observedCount + 1;
      visited := visited + [row];
      forall w ensures CountersOk(w) {
        assert old(CountersOk(w));
      }
    }

    /** `bucket.push(row); groups.set(key, bucket); submittedCount += 1` */
    method Submit(row: Row)
      requires Valid() && Classify(row, config) == Submitted
      modifies `observedCount, `submittedCount, `order, `groups, `visited
      ensures Valid() && visited == old(visited) + [row]
    {
      assert GroupAt(order, groups, visited, config, row.app);
      if row.app in groups {
        groups := groups[row.app := groups[row.app] + [row]];
      } else {
        order := order + [row.app];
        groups := groups[row.app := [row]];
      }
      submittedCount := submittedCount + 1;
      observedCount := observedCount + 1;
      visited := visited + [row];
      forall app ensures GroupAt(order, groups, visited, config, app) {
        assert GroupAt(old(order), old(groups), old(visited), config, app);
      }
      forall w ensures CountersOk(w) {
        assert old(CountersOk(w));
      }
    }

    /** One row's verdict, in the handler's order of checks. */
    method VisitRow(row: Row)
      requires Valid()
      modifies this
      ensures Valid() && visited == old(visited) + [row]
    {
      if config.operation == PromoClaim && row.id in config.activePromo {
        Dismiss(row, Blocked(ActiveItemConflict));
        return;
      }
      if config.operation == NovelMaterialize && row.status == "linked" && row.novelId != None {
        Dismiss(row, AlreadyLinked);
        return;
      }
      var eligible := if config.operation == NovelMaterialize then row.status == "pending" && row.novelId == None
                      else row.status == "linked" && row.novelId != None;
      if !eligible {
        Dismiss(row, Ineligible);
        return;
      }
      if config.operation == NovelMaterialize && config.localePolicy {
        if row.locale == None || Blank(row.locale.value) {
          Dismiss(row, Blocked(MissingLocale));
          return;
        }
        if row.locale.value !in config.siteLocales {
          Dismiss(row, Blocked(UnsupportedLocale));
          return;
        }
      }
      if config.operation == PromoClaim && row.app !in config.accounts {
        Dismiss(row, Blocked(ChannelAccountRequired));
        return;
      }
      Submit(row);
    }

    method Visit(rows: seq<Row>)
      requires Valid()
      modifies this
      ensures Valid() && visited == old(visited) + rows
    {
      for i := 0 to |rows|
        invariant Valid() && visited == old(visited) + rows[..i]
      {
        VisitRow(rows[i]);
        assert rows[..i + 1] == rows[..i] + [rows[i]];
      }
      assert rows[..|rows|] == rows;
    }

    /**
     `streamSelection`: keyset pages of a filter, or chunks of an explicit id list.  For a
     filter and for a normalized list every selected row of the snapshot is visited exactly
     once, in id order; a list the payload check lets through unsorted is visited by chunks.
     */
    method StreamSelection(table: seq<Row>, selection: Selection)
      requires Valid() && Ascending(table, RowId)
      modifies this
      ensures Valid() && visited == old(visited) + SelectedRows(table, selection)
      ensures Normalized(selection) ==> visited == old(visited) + Filter(table, Matches(selection))
    {
      if selection.ExplicitIds? {
        StreamIds(table, selection.ids);
        if Normalized(selection) { NormalizedSelection(table, selection.ids); }
      } else {
        StreamFilter(table, Matches(selection));
      }
    }

    method StreamFilter(table: seq<Row>, keep: Row -> bool)
      requires Valid() && Ascending(table, RowId)
      modifies this
      ensures Valid() && visited == old(visited) + Filter(table, keep)
    {
      ghost var start := visited;
      ghost var matching := Filter(table, keep);
      var after: Option<Id> := None;
      ghost var n := 0;
      var more := true;
      AppendSlice(start, matching, 0, 0);
      while more
        invariant Valid() && n <= |matching| && visited == Appended(start, matching, n)
        invariant after == Cursor(matching, RowId, n)
        invariant !more ==> n == |matching|
        decreases |matching| - n, more
      {
        var size;
        size, after := VisitPage(table, keep, after, n);
        AppendSlice(start, matching, n, n + size);
        n := n + size;
        more := size == CHUNK_SIZE;
      }
      AppendSlice(start, matching, n, n);
    }

    /** One query of the keyset loop and the visit of its rows. */
    method VisitPage(table: seq<Row>, keep: Row -> bool, after: Option<Id>, ghost n: nat)
      returns (size: nat, next: Option<Id>)
      requires Valid() && Ascending(table, RowId) && n <= |Filter(table, keep)|
      requires after == Cursor(Filter(table, keep), RowId, n)
      modifies this
      ensures Valid() && n + size <= |Filter(table, keep)| && next == Cursor(Filter(table, keep), RowId, n + size)
      ensures visited == old(visited) + Filter(table, keep)[n..n + size]
      ensures size <= CHUNK_SIZE && (size < CHUNK_SIZE ==> n + size == |Filter(table, keep)|)
    {
      FilterAscending(table, RowId, keep);
      var rows;
      rows, next := FetchPage(table, RowId, keep, after, CHUNK_SIZE, n, Filter(table, keep));
      Visit(rows);
      size := |rows|;
      assert rows == Filter(table, keep)[n..n + size];
    }

    method StreamIds(table: seq<Row>, ids: seq<Id>)
      requires Valid() && Ascending(table, RowId)
      modifies this
      ensures Valid() && visited == old(visited) + ChunkRows(table, ids, 0)
    {
      ghost var goal := visited + ChunkRows(table, ids, 0);
      var i := 0;
      while i < |ids|
        invariant Valid() && 0 <= i <= |ids|
        invariant visited + ChunkRows(table, ids, i) == goal
      {
        ghost var before := visited;
        var next := ChunkEnd(ids, i);
        var rows := Chunk(table, ids, i);
        Visit(rows);
        assert before + (rows + ChunkRows(table, ids, next)) == (before + rows) + ChunkRows(table, ids, next);
        i := next;
      }
    }
  }

  /** A normalized list is found once and in order, however it is cut into chunks. */
  lemma {:induction false} NormalizedChunks(table: seq<Row>, ids: seq<Id>, i: nat)
    requires Ascending(table, RowId) && Normalized(ExplicitIds(ids)) && i <= |ids|
    ensures ChunkRows(table, ids, i) == Filter(table, Matches(ExplicitIds(ids[i..])))
    decreases |ids| - i
  {
    var next := ChunkEnd(ids, i);
    if i == |ids| {
      FilterNone(table, Matches(ExplicitIds(ids[i..])));
    } else {
      NormalizedChunks(table, ids, next);
      if next == |ids| {
        assert ids[i..next] == ids[i..];
      } else {
        SplitIds(table, ids[i..], next - i);
        assert ids[i..][..next - i] == ids[i..next] && ids[i..][next - i..] == ids[next..];
      }
    }
  }

  lemma {:induction false} NormalizedSelection(table: seq<Row>, ids: seq<Id>)
    requires Ascending(table, RowId) && Normalized(ExplicitIds(ids))
    ensures SelectedRows(table, ExplicitIds(ids)) == Filter(table, Matches(ExplicitIds(ids)))
  {
    NormalizedChunks(table, ids, 0);
    assert ids[0..] == ids;
  }

  /** Cutting a normalized list in two cuts its rows in two. */
  lemma {:induction false} SplitIds(table: seq<Row>, ids: seq<Id>, n: nat)
    requires Ascending(table, RowId) && Normalized(ExplicitIds(ids)) && n < |ids|
    ensures Filter(table, Matches(ExplicitIds(ids))) ==
              Filter(table, Matches(ExplicitIds(ids[..n]))) + Filter(table, Matches(ExplicitIds(ids[n..])))
  {
    assert ids == ids[..n] + ids[n..];
    var low, high, either := Matches(ExplicitIds(ids[..n])), Matches(ExplicitIds(ids[n..])), Matches(ExplicitIds(ids));
    forall r | r in table ensures (low(r) ==> r.id < ids[n]) && (high(r) ==> ids[n] <= r.id) {
      assert forall j :: n < j < |ids| ==> ids[n] < ids[j];
    }
    FilterSplit(table, RowId, low, high, either, ids[n]);
  }
}
