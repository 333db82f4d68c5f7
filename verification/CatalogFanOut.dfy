/**
 The second half of a catalog batch: one child task per surviving group, group-level
 demotions, and the counts the batch reports (worker/handlers/catalog-batch.ts).
 */
module CatalogFanOut {
  import opened Wrappers
  import opened Keyset
  import opened Sequences
  import opened CatalogBatch
  import opened SortedSets

  /** The snapshot's answers about a group: is it bound to an enabled capability, is its scope already active. */
  datatype Lookups = Lookups(bound: App -> bool, scopeTaken: (App, seq<Id>) -> bool)

  datatype Result = Result(
    selected: nat, submitted: int, ineligible: int, alreadyLinked: nat, blocked: nat, childTasks: nat)

  function Ids(rows: seq<Row>): seq<Id> {
    if rows == [] then [] else Ids(rows[..|rows| - 1]) + [rows[|rows| - 1].id]
  }

  /** Why a whole group is withdrawn, if it is. */
  function Demotion(app: App, members: seq<Row>, c: Config, k: Lookups): Option<Reason> {
    if c.operation == PromoClaim && !k.bound(app) then Some(BindingOrCapabilityUnavailable)
    else if k.scopeTaken(app, Ids(members)) then Some(ActiveScopeConflict)
    else None
  }

  /** A group is withdrawn for want of a binding before its scope is looked at. */
  lemma {:induction false} DemotionInFull(app: App, members: seq<Row>, c: Config, k: Lookups)
    ensures Demotion(app, members, c, k) == Some(BindingOrCapabilityUnavailable) <==>
      c.operation == PromoClaim && !k.bound(app)
    ensures Demotion(app, members, c, k) == Some(ActiveScopeConflict) <==>
      (c.operation == NovelMaterialize || k.bound(app)) && k.scopeTaken(app, Ids(members))
    ensures Demotion(app, members, c, k).None? <==>
      (c.operation == NovelMaterialize || k.bound(app)) && !k.scopeTaken(app, Ids(members))
  {
  }

  function AccountOf(app: App, c: Config): Option<Account> {
    if c.operation == PromoClaim && app in c.accounts then Some(c.accounts[app]) else None
  }

  /** The children of the groups in `order`. */
  function ChildrenOf(order: seq<App>, rows: seq<Row>, c: Config, k: Lookups): seq<Child> {
    if order == [] then []
    else
      var app := order[|order| - 1];
      var members := Bucket(rows, c, app);
      ChildrenOf(order[..|order| - 1], rows, c, k) +
      (if Demotion(app, members, c, k).None? then [Child(app, AccountOf(app, c), Ids(members), |members|)] else [])
  }

  /** Rows withdrawn for `reason` with their groups. */
  function Demoted(order: seq<App>, rows: seq<Row>, c: Config, k: Lookups, reason: Reason): nat {
    if order == [] then 0
    else
      var app := order[|order| - 1];
      Demoted(order[..|order| - 1], rows, c, k, reason) +
      (if Demotion(app, Bucket(rows, c, app), c, k) == Some(reason) then |Bucket(rows, c, app)| else 0)
  }

  function SumTotals(children: seq<Child>): nat {
    if children == [] then 0 else SumTotals(children[..|children| - 1]) + children[|children| - 1].totalCount
  }

  function SumBuckets(order: seq<App>, rows: seq<Row>, c: Config): nat {
    if order == [] then 0 else SumBuckets(order[..|order| - 1], rows, c) + |Bucket(rows, c, order[|order| - 1])|
  }

  // ---------------------------------------------------------------------
  // The groups hold every submitted row once
  // ---------------------------------------------------------------------

  lemma {:induction false} SumBucketsSnoc(order: seq<App>, rows: seq<Row>, r: Row, c: Config)
    requires Distinct(order)
    ensures SumBuckets(order, rows + [r], c) ==
              SumBuckets(order, rows, c) + (if Classify(r, c) == Submitted && r.app in order then 1 else 0)
  {
    if order != [] {
      var front, last := order[..|order| - 1], order[|order| - 1];
      SumBucketsSnoc(front, rows, r, c);
      assert SumBuckets(order, rows + [r], c) == SumBuckets(front, rows + [r], c) + |Bucket(rows + [r], c, last)|;
      assert order == front + [last] && last !in front;
    }
  }

  lemma {:induction false} NoRowsNoBuckets(order: seq<App>, c: Config)
    ensures SumBuckets(order, [], c) == 0
  {
    if order != [] {
      NoRowsNoBuckets(order[..|order| - 1], c);
    }
  }

  lemma {:induction false} BucketsHoldSubmitted(order: seq<App>, rows: seq<Row>, c: Config)
    requires Distinct(order) && forall app :: Bucket(rows, c, app) != [] ==> app in order
    ensures SumBuckets(order, rows, c) == Count(rows, c, Submitted)
  {
    if rows == [] {
      NoRowsNoBuckets(order, c);
    } else {
      var front, r := rows[..|rows| - 1], rows[|rows| - 1];
      assert rows == front + [r];
      forall app | Bucket(front, c, app) != [] ensures app in order {}
      BucketsHoldSubmitted(order, front, c);
      SumBucketsSnoc(order, front, r, c);
    }
  }

  // ---------------------------------------------------------------------
  // Which rows a child holds
  // ---------------------------------------------------------------------

  lemma {:induction false} BucketMembers(rows: seq<Row>, c: Config, app: App, r: Row)
    ensures r in Bucket(rows, c, app) <==> r in rows && Classify(r, c) == Submitted && r.app == app
  {
    if rows != [] {
      BucketMembers(rows[..|rows| - 1], c, app, r);
      assert rows == rows[..|rows| - 1] + [rows[|rows| - 1]];
    }
  }

  lemma {:induction false} BucketAscending(rows: seq<Row>, c: Config, app: App)
    requires Ascending(rows, RowId)
    ensures Ascending(Bucket(rows, c, app), RowId)
  {
    if rows != [] {
      var front, last := rows[..|rows| - 1], rows[|rows| - 1];
      BucketAscending(front, c, app);
      var b := Bucket(front, c, app);
      forall i | 0 <= i < |b| ensures b[i].id < last.id {
        BucketMembers(front, c, app, b[i]);
        assert b[i] in front;
        var j :| 0 <= j < |front| && front[j] == b[i];
        assert RowId(rows[j]) < RowId(rows[|rows| - 1]);
      }
    }
  }

  lemma {:induction false} IdsAt(rows: seq<Row>)
    ensures |Ids(rows)| == |rows| && forall i :: 0 <= i < |rows| ==> Ids(rows)[i] == rows[i].id
  {
    if rows != [] {
      IdsAt(rows[..|rows| - 1]);
    }
  }

  /** The row with this id, submitted under this app. */
  predicate SubmittedAs(rows: seq<Row>, c: Config, id: Id, app: App) {
    exists i :: 0 <= i < |rows| && rows[i].id == id && rows[i].app == app && Classify(rows[i], c) == Submitted
  }

  lemma {:induction false} BucketIds(rows: seq<Row>, c: Config, app: App, id: Id)
    ensures id in Ids(Bucket(rows, c, app)) <==> SubmittedAs(rows, c, id, app)
  {
    var b := Bucket(rows, c, app);
    IdsAt(b);
    if id in Ids(b) {
      var i :| 0 <= i < |b| && b[i].id == id;
      BucketMembers(rows, c, app, b[i]);
    }
    if SubmittedAs(rows, c, id, app) {
      var i :| 0 <= i < |rows| && rows[i].id == id && rows[i].app == app && Classify(rows[i], c) == Submitted;
      BucketMembers(rows, c, app, rows[i]);
      var j :| 0 <= j < |b| && b[j] == rows[i];
      assert Ids(b)[j] == id;
    }
  }

  lemma {:induction false} IdsDistinct(rows: seq<Row>)
    requires Ascending(rows, RowId)
    ensures Distinct(Ids(rows)) && |Ids(rows)| == |rows|
  {
    IdsAt(rows);
    forall i, j | 0 <= i < j < |rows| ensures Ids(rows)[i] != Ids(rows)[j] {
      assert RowId(rows[i]) < RowId(rows[j]);
    }
  }

  /** The group has rows and is not withdrawn. */
  predicate Survives(app: App, rows: seq<Row>, c: Config, k: Lookups) {
    Bucket(rows, c, app) != [] && Demotion(app, Bucket(rows, c, app), c, k).None?
  }

  function ChildFor(app: App, rows: seq<Row>, c: Config): Child {
    Child(app, AccountOf(app, c), Ids(Bucket(rows, c, app)), |Bucket(rows, c, app)|)
  }

  predicate HasChild(cs: seq<Child>, app: App) {
    exists i :: 0 <= i < |cs| && cs[i].app == app
  }

  /** Every child is that of a surviving group, and no group has two. */
  predicate ChildrenFit(cs: seq<Child>, order: seq<App>, rows: seq<Row>, c: Config, k: Lookups) {
    && (forall i :: 0 <= i < |cs| ==>
          cs[i] == ChildFor(cs[i].app, rows, c) && cs[i].app in order && Survives(cs[i].app, rows, c, k))
    && (forall i, j :: 0 <= i < j < |cs| ==> cs[i].app != cs[j].app)
  }

  lemma {:induction false} ChildrenAt(order: seq<App>, rows: seq<Row>, c: Config, k: Lookups)
    requires Distinct(order) && forall app <- order :: Bucket(rows, c, app) != []
    ensures ChildrenFit(ChildrenOf(order, rows, c, k), order, rows, c, k)
  {
    if order != [] {
      assert order == order[..|order| - 1] + [order[|order| - 1]];
      ChildrenAt(order[..|order| - 1], rows, c, k);
    }
  }

  lemma {:induction false} SurvivorHasChild(order: seq<App>, rows: seq<Row>, c: Config, k: Lookups, app: App)
    requires app in order && Survives(app, rows, c, k)
    ensures HasChild(ChildrenOf(order, rows, c, k), app)
  {
    var front, last := order[..|order| - 1], order[|order| - 1];
    assert order == front + [last];
    var before, cs := ChildrenOf(front, rows, c, k), ChildrenOf(order, rows, c, k);
    if app in front {
      SurvivorHasChild(front, rows, c, k, app);
      var i :| 0 <= i < |before| && before[i].app == app;
      assert cs[i].app == app;
    } else {
      assert cs[|cs| - 1].app == app;
    }
  }

  /** A child lists its rows once and holds exactly the rows submitted under its app. */
  lemma {:induction false} ChildHolds(order: seq<App>, rows: seq<Row>, c: Config, k: Lookups, i: nat, id: Id)
    requires Ascending(rows, RowId) && Distinct(order) && forall app <- order :: Bucket(rows, c, app) != []
    requires i < |ChildrenOf(order, rows, c, k)|
    ensures var ch := ChildrenOf(order, rows, c, k)[i];
            && (c.operation == PromoClaim ==> ch.app in c.accounts && ch.account == Some(c.accounts[ch.app]))
            && (c.operation == NovelMaterialize ==> ch.account == None)
            && ch.totalCount == |ch.items| && Distinct(ch.items)
            && Survives(ch.app, rows, c, k)
            && (id in ch.items <==> SubmittedAs(rows, c, id, ch.app))
  {
    ChildrenAt(order, rows, c, k);
    var app := ChildrenOf(order, rows, c, k)[i].app;
    BucketAscending(rows, c, app);
    IdsDistinct(Bucket(rows, c, app));
    BucketIds(rows, c, app, id);
    var r := Bucket(rows, c, app)[0];
    BucketMembers(rows, c, app, r);
    SubmittedIffFits(r, c);
  }

  /** A submitted row whose group survives. */
  predicate Kept(rows: seq<Row>, c: Config, k: Lookups, id: Id) {
    exists i :: 0 <= i < |rows| && rows[i].id == id && Classify(rows[i], c) == Submitted
        && Survives(rows[i].app, rows, c, k)
  }

  predicate InChild(cs: seq<Child>, i: nat, id: Id) {
    i < |cs| && id in cs[i].items
  }

  /** No row is in two children. */
  lemma {:induction false} ChildrenDisjoint(order: seq<App>, rows: seq<Row>, c: Config, k: Lookups,
        id: Id, i: nat, j: nat)
    requires Ascending(rows, RowId) && Distinct(order) && forall app :: app in order <==> Bucket(rows, c, app) != []
    requires InChild(ChildrenOf(order, rows, c, k), i, id) && InChild(ChildrenOf(order, rows, c, k), j, id)
    ensures i == j
  {
    var cs := ChildrenOf(order, rows, c, k);
    ChildrenAt(order, rows, c, k);
    ChildHolds(order, rows, c, k, i, id);
    ChildHolds(order, rows, c, k, j, id);
  }

  lemma {:induction false} InChildIsKept(order: seq<App>, rows: seq<Row>, c: Config, k: Lookups, id: Id, i: nat)
    requires Ascending(rows, RowId) && Distinct(order) && forall app :: app in order <==> Bucket(rows, c, app) != []
    requires InChild(ChildrenOf(order, rows, c, k), i, id)
    ensures Kept(rows, c, k, id)
  {
    var app := ChildrenOf(order, rows, c, k)[i].app;
    ChildHolds(order, rows, c, k, i, id);
    var n :| 0 <= n < |rows| && rows[n].id == id && rows[n].app == app && Classify(rows[n], c) == Submitted;
  }

  /**
   The children partition the submitted rows of the surviving groups: such a row is in
   exactly one child, and no other row is in any.
   */
  lemma {:induction false} ChildrenPartition(order: seq<App>, rows: seq<Row>, c: Config, k: Lookups, id: Id)
    requires Ascending(rows, RowId) && Distinct(order) && forall app :: app in order <==> Bucket(rows, c, app) != []
    ensures var cs := ChildrenOf(order, rows, c, k);
            && (Kept(rows, c, k, id) <==> exists i: nat :: InChild(cs, i, id))
            && (forall i: nat, j: nat :: InChild(cs, i, id) && InChild(cs, j, id) ==> i == j)
  {
    var cs := ChildrenOf(order, rows, c, k);
    if Kept(rows, c, k, id) {
      var n :| 0 <= n < |rows| && rows[n].id == id && Classify(rows[n], c) == Submitted
          && Survives(rows[n].app, rows, c, k);
      KeptHasChild(order, rows, c, k, n);
    }
    forall i: nat | InChild(cs, i, id) ensures Kept(rows, c, k, id) { InChildIsKept(order, rows, c, k, id, i); }
    forall i: nat, j: nat | InChild(cs, i, id) && InChild(cs, j, id) ensures i == j {
      ChildrenDisjoint(order, rows, c, k, id, i, j);
    }
  }

  lemma {:induction false} KeptHasChild(order: seq<App>, rows: seq<Row>, c: Config, k: Lookups, n: nat)
    requires Ascending(rows, RowId) && Distinct(order) && forall app :: app in order <==> Bucket(rows, c, app) != []
    requires n < |rows| && Classify(rows[n], c) == Submitted && Survives(rows[n].app, rows, c, k)
    ensures exists i: nat :: InChild(ChildrenOf(order, rows, c, k), i, rows[n].id)
  {
    var cs := ChildrenOf(order, rows, c, k);
    var app := rows[n].app;
    SurvivorHasChild(order, rows, c, k, app);
    var i: nat :| i < |cs| && cs[i].app == app;
    ChildHolds(order, rows, c, k, i, rows[n].id);
    assert InChild(cs, i, rows[n].id);
  }

  // ---------------------------------------------------------------------
  // The same in row fields and lookups only
  // ---------------------------------------------------------------------

  /** A row with this id and app that fits the operation. */
  predicate FitsAs(rows: seq<Row>, c: Config, id: Id, app: App) {
    exists i :: 0 <= i < |rows| && rows[i].id == id && rows[i].app == app && Fits(rows[i], c)
  }

  /** `ids` lists, in order, the fitting rows of one app. */
  ghost predicate IsGroup(ids: seq<Id>, rows: seq<Row>, c: Config, app: App) {
    && (forall i, j :: 0 <= i < j < |ids| ==> ids[i] < ids[j])
    && (forall id :: id in ids <==> FitsAs(rows, c, id, app))
  }

  /** The group of this app is bound, when a promo is claimed, and its scope is free. */
  ghost predicate GroupRuns(rows: seq<Row>, c: Config, k: Lookups, app: App) {
    && (c.operation == PromoClaim ==> k.bound(app))
    && (forall ids :: IsGroup(ids, rows, c, app) ==> !k.scopeTaken(app, ids))
  }

  /** The row of this id fits the operation, and its group runs. */
  ghost predicate Owed(rows: seq<Row>, c: Config, k: Lookups, id: Id) {
    exists i :: 0 <= i < |rows| && rows[i].id == id && Fits(rows[i], c) && GroupRuns(rows, c, k, rows[i].app)
  }

  lemma FitsAsSubmitted(rows: seq<Row>, c: Config, id: Id, app: App)
    ensures SubmittedAs(rows, c, id, app) <==> FitsAs(rows, c, id, app)
  {
    forall r ensures Classify(r, c) == Submitted <==> Fits(r, c) { SubmittedIffFits(r, c); }
  }

  /** A group has exactly one such list, and it is the bucket's. */
  lemma {:induction false} GroupIsBucket(rows: seq<Row>, c: Config, app: App, ids: seq<Id>)
    requires Ascending(rows, RowId)
    ensures IsGroup(ids, rows, c, app) <==> ids == Ids(Bucket(rows, c, app))
  {
    var b := Bucket(rows, c, app);
    IdsAt(b);
    BucketAscending(rows, c, app);
    forall i, j | 0 <= i < j < |b| ensures Ids(b)[i] < Ids(b)[j] { assert RowId(b[i]) < RowId(b[j]); }
    forall id ensures id in Ids(b) <==> FitsAs(rows, c, id, app) {
      BucketIds(rows, c, app, id);
      FitsAsSubmitted(rows, c, id, app);
    }
    if IsGroup(ids, rows, c, app) {
      SortedUnique(ids, Ids(b), (x: Id, y: Id) => x <= y);
    }
  }

  lemma RunsIffSurvives(rows: seq<Row>, c: Config, k: Lookups, r: Row)
    requires Ascending(rows, RowId) && r in rows && Fits(r, c)
    ensures GroupRuns(rows, c, k, r.app) <==> Survives(r.app, rows, c, k)
  {
    var ids := Ids(Bucket(rows, c, r.app));
    SubmittedIffFits(r, c);
    BucketMembers(rows, c, r.app, r);
    DemotionInFull(r.app, Bucket(rows, c, r.app), c, k);
    GroupIsBucket(rows, c, r.app, ids);
    forall other | IsGroup(other, rows, c, r.app) ensures other == ids { GroupIsBucket(rows, c, r.app, other); }
  }

  lemma OwedIffKept(rows: seq<Row>, c: Config, k: Lookups, id: Id)
    requires Ascending(rows, RowId)
    ensures Owed(rows, c, k, id) <==> Kept(rows, c, k, id)
  {
    forall r | r in rows
      ensures Classify(r, c) == Submitted <==> Fits(r, c)
      ensures Fits(r, c) ==> (GroupRuns(rows, c, k, r.app) <==> Survives(r.app, rows, c, k))
    {
      SubmittedIffFits(r, c);
      if Fits(r, c) { RunsIffSurvives(rows, c, k, r); }
    }
    if Owed(rows, c, k, id) {
      var i :| 0 <= i < |rows| && rows[i].id == id && Fits(rows[i], c) && GroupRuns(rows, c, k, rows[i].app);
      assert rows[i] in rows;
    }
    if Kept(rows, c, k, id) {
      var i :| 0 <= i < |rows| && rows[i].id == id && Classify(rows[i], c) == Submitted
          && Survives(rows[i].app, rows, c, k);
      assert rows[i] in rows;
    }
  }

  ghost predicate InSomeChild(cs: seq<Child>, id: Id) {
    exists i: nat :: InChild(cs, i, id)
  }

  /**
   A row is handed to a child exactly when it fits the operation and its group runs: for a promo
   claim it is linked with a Novel, has no active item and an account for its app, the app is bound
   to the enabled capability and the scope of its group is free; for a materialization it is pending
   without a Novel, has a supported locale where the policy asks for one, and its scope is free.
   */
  lemma {:induction false} InChildIff(order: seq<App>, rows: seq<Row>, c: Config, k: Lookups, id: Id)
    requires Ascending(rows, RowId) && Distinct(order) && forall app :: app in order <==> Bucket(rows, c, app) != []
    ensures InSomeChild(ChildrenOf(order, rows, c, k), id) <==> Owed(rows, c, k, id)
  {
    ChildrenPartition(order, rows, c, k, id);
    OwedIffKept(rows, c, k, id);
  }

  // ---------------------------------------------------------------------
  // The handler's own loops
  // ---------------------------------------------------------------------

  /** createMany in chunks: together the chunks are the members, once each. */
  method CreateItems(members: seq<Row>) returns (items: seq<Id>)
    ensures items == Ids(members)
  {
    items := [];
    var i := 0;
    assert members[..0] == [];
    while i < |members|
      invariant 0 <= i <= |members| && items == Ids(members[..i])
    {
      var next := if i + CHUNK_SIZE <= |members| then i + CHUNK_SIZE else |members|;
      for j := i to next
        invariant items == Ids(members[..j])
      {
        assert members[..j + 1][..j] == members[..j];
        items := items + [members[j].id];
      }
      i := next;
    }
    assert members[..|members|] == members;
  }

  /** One group: withdrawn for a reason, or turned into a child. */
  method ConsiderGroup(app: App, members: seq<Row>, c: Config, k: Lookups)
    returns (reason: Option<Reason>, child: Child)
    ensures reason == Demotion(app, members, c, k)
    ensures child == Child(app, AccountOf(app, c), Ids(members), |members|)
  {
    var items := CreateItems(members);
    child := Child(app, AccountOf(app, c), items, |members|);
    reason := None;
    if c.operation == PromoClaim && !k.bound(app) {
      reason := Some(BindingOrCapabilityUnavailable);
    } else if k.scopeTaken(app, items) {
      reason := Some(ActiveScopeConflict);
    }
  }

  function AddTo(counts: map<Reason, nat>, reason: Reason, n: nat): map<Reason, nat> {
    counts[reason := Of(counts, reason) + n]
  }

  predicate BlockedAt(order: seq<App>, rows: seq<Row>, c: Config, k: Lookups, blocked0: map<Reason, nat>,
      blocked: map<Reason, nat>, r: Reason) {
    Of(blocked, r) == Of(blocked0, r) + Demoted(order, rows, c, k, r)
  }

  /** The counters after the groups in `order`. */
  ghost predicate Balanced(order: seq<App>, rows: seq<Row>, c: Config, k: Lookups, submitted0: int,
      blocked0: map<Reason, nat>,
                           children: seq<Child>, submitted: int, blocked: map<Reason, nat>)
  {
    && children == ChildrenOf(order, rows, c, k)
    && submitted == submitted0 - SumBuckets(order, rows, c) + SumTotals(children)
    && submitted + TotalBlocked(blocked) == submitted0 + TotalBlocked(blocked0)
    && forall r :: BlockedAt(order, rows, c, k, blocked0, blocked, r)
  }

  lemma TotalBlockedAdd(counts: map<Reason, nat>, reason: Reason, n: nat)
    ensures TotalBlocked(AddTo(counts, reason, n)) == TotalBlocked(counts) + n
    ensures forall r :: Of(AddTo(counts, reason, n), r) == Of(counts, r) + (if r == reason then n else 0)
  {
  }

  lemma {:induction false} DemotedSnoc(order: seq<App>, app: App, rows: seq<Row>, c: Config, k: Lookups, r: Reason)
    ensures Demoted(order + [app], rows, c, k, r) == Demoted(order, rows, c, k, r) +
              (if Demotion(app, Bucket(rows, c, app), c, k) == Some(r) then |Bucket(rows, c, app)| else 0)
  {
    assert (order + [app])[..|order|] == order;
  }

  lemma {:induction false} DemotedGroup(order: seq<App>, app: App, rows: seq<Row>, c: Config, k: Lookups)
    requires Demotion(app, Bucket(rows, c, app), c, k).Some?
    ensures ChildrenOf(order + [app], rows, c, k) == ChildrenOf(order, rows, c, k)
    ensures SumBuckets(order + [app], rows, c) == SumBuckets(order, rows, c) + |Bucket(rows, c, app)|
  {
    assert (order + [app])[..|order|] == order;
  }

  /** A withdrawn group: its rows move from submitted to blocked. */
  lemma {:induction false} BalancedDemotion(order: seq<App>, app: App, rows: seq<Row>, c: Config, k: Lookups,
      submitted0: int, blocked0: map<Reason, nat>,
                         children: seq<Child>, submitted: int, blocked: map<Reason, nat>, reason: Reason)
    requires Balanced(order, rows, c, k, submitted0, blocked0, children, submitted, blocked)
    requires Demotion(app, Bucket(rows, c, app), c, k) == Some(reason)
    ensures var n := |Bucket(rows, c, app)|;
            Balanced(order + [app], rows, c, k, submitted0, blocked0, children,
                     submitted - n, AddTo(blocked, reason, n))
  {
    TotalBlockedAdd(blocked, reason, |Bucket(rows, c, app)|);
    DemotedGroup(order, app, rows, c, k);
    forall r ensures BlockedAt(order + [app], rows, c, k, blocked0, AddTo(blocked, reason, |Bucket(rows, c, app)|), r) {
      assert BlockedAt(order, rows, c, k, blocked0, blocked, r);
      DemotedSnoc(order, app, rows, c, k, r);
    }
  }

  /** A surviving group: its rows become a child. */
  lemma {:induction false} BalancedChild(order: seq<App>, app: App, rows: seq<Row>, c: Config, k: Lookups,
      submitted0: int, blocked0: map<Reason, nat>,
                      children: seq<Child>, submitted: int, blocked: map<Reason, nat>)
    requires Balanced(order, rows, c, k, submitted0, blocked0, children, submitted, blocked)
    requires Demotion(app, Bucket(rows, c, app), c, k) == None
    ensures Balanced(order + [app], rows, c, k, submitted0, blocked0, children + [ChildFor(app, rows, c)],
        submitted, blocked)
  {
    var child := ChildFor(app, rows, c);
    assert (children + [child])[..|children|] == children;
    forall r ensures BlockedAt(order + [app], rows, c, k, blocked0, blocked, r) {
      assert BlockedAt(order, rows, c, k, blocked0, blocked, r);
    }
  }

  /** Children and counters after the group loop. */
  method CreateChildren(e: Enumeration, k: Lookups)
    returns (children: seq<Child>, submitted: int, blocked: map<Reason, nat>)
    requires e.Valid()
    ensures Balanced(e.order, e.visited, e.config, k, e.submittedCount, e.blockedReasonCounts,
                     children, submitted, blocked)
    ensures submitted == SumTotals(children)
  {
    children, submitted, blocked := [], e.submittedCount, e.blockedReasonCounts;
    for i := 0 to |e.order|
      invariant Balanced(e.order[..i], e.visited, e.config, k, e.submittedCount, e.blockedReasonCounts, children,
          submitted, blocked)
    {
      var app := e.order[i];
      assert GroupAt(e.order, e.groups, e.visited, e.config, app);
      assert e.order[..i + 1] == e.order[..i] + [app];
      var members := e.groups[app];
      var reason, child := ConsiderGroup(app, members, e.config, k);
      if reason.Some? {
        BalancedDemotion(e.order[..i], app, e.visited, e.config, k, e.submittedCount, e.blockedReasonCounts,
                         children, submitted, blocked, reason.value);
        blocked := AddTo(blocked, reason.value, |members|);
        submitted := submitted - |members|;
      } else {
        BalancedChild(e.order[..i], app, e.visited, e.config, k, e.submittedCount, e.blockedReasonCounts,
                      children, submitted, blocked);
        children := children + [child];
      }
    }
    assert e.order[..|e.order|] == e.order;
    SubmittedInGroups(e);
  }

  lemma SubmittedInGroups(e: Enumeration)
    requires e.Valid()
    ensures e.submittedCount == SumBuckets(e.order, e.visited, e.config)
  {
    forall app | Bucket(e.visited, e.config, app) != [] ensures app in e.order {
      assert GroupAt(e.order, e.groups, e.visited, e.config, app);
    }
    BucketsHoldSubmitted(e.order, e.visited, e.config);
    assert e.CountersOk(Submitted);
  }

  /**
   The whole batch.  However groups are demoted, every selected row is counted once:
   selected = submitted + ineligible + already linked + blocked; and the children's totals
   sum to the submitted count.  The transaction commits unless a child would list a row
   twice, which the unique item key refuses and a normalized selection never does.
   */
  method Materialize(table: seq<Row>, selection: Selection, config: Config, k: Lookups)
    returns (committed: bool, result: Result, blocked: map<Reason, nat>, children: seq<Child>, order: seq<App>)
    requires Ascending(table, RowId)
    ensures result.selected == result.submitted + result.ineligible + result.alreadyLinked + result.blocked
    ensures result.submitted == SumTotals(children) && result.childTasks == |children| && result.ineligible >= 0
    ensures var rows := SelectedRows(table, selection);
            && result.selected == (if selection.ExplicitIds? then |selection.ids| else |rows|)
            && result.ineligible == Count(rows, config, Ineligible) + result.selected - |rows|
            && result.alreadyLinked == Count(rows, config, AlreadyLinked)
            && Distinct(order) && (forall app :: app in order <==> Bucket(rows, config, app) != [])
            && children == ChildrenOf(order, rows, config, k)
    ensures result.blocked == TotalBlocked(blocked)
    ensures forall r :: CountedAs(SelectedRows(table, selection), order, config, k, blocked, r)
    ensures committed <==> forall ch <- children :: Distinct(ch.items)
    ensures Normalized(selection) ==> committed && SelectedRows(table, selection) == Filter(table, Matches(selection))
    ensures Normalized(selection) ==> forall id ::
      InSomeChild(children, id) <==> Owed(Filter(table, Matches(selection)), config, k, id)
  {
    var e := new Enumeration(config);
    e.StreamSelection(table, selection);
    ghost var rows := SelectedRows(table, selection);
    assert e.visited == rows;
    var submitted;
    children, submitted, blocked := CreateChildren(e, k);
    var selected := if selection.ExplicitIds? then |selection.ids| else e.observedCount;
    var ineligible := if selection.ExplicitIds? then e.ineligibleCount + (selected - e.observedCount)
        else e.ineligibleCount;
    order := e.order;
    result := Result(selected, submitted, ineligible, e.alreadyLinkedCount, TotalBlocked(blocked), |children|);
    committed := forall ch <- children :: Distinct(ch.items);
    Conserved(e);
    forall app ensures app in order <==> Bucket(rows, config, app) != [] {
      assert GroupAt(e.order, e.groups, e.visited, e.config, app);
    }
    if selection.ExplicitIds? {
      ChunkRowsAtMost(table, selection.ids, 0);
    }
    if Normalized(selection) {
      NormalizedCommits(table, selection, order, config, k);
    }
    assert e.CountersOk(Ineligible) && e.CountersOk(AlreadyLinked);
    forall r ensures CountedAs(rows, order, config, k, blocked, r) {
      assert e.CountersOk(Blocked(r));
      assert BlockedAt(order, rows, config, k, e.blockedReasonCounts, blocked, r);
    }
  }

  /** A reason counts the rows blocked for it and the rows of the groups withdrawn for it. */
  predicate CountedAs(rows: seq<Row>, order: seq<App>, c: Config, k: Lookups, blocked: map<Reason, nat>, r: Reason) {
    Of(blocked, r) == Count(rows, c, Blocked(r)) + Demoted(order, rows, c, k, r)
  }

  /** For a filter and for a normalized list the rows visited are the selected rows that are not deleted. */
  lemma SelectedIff(table: seq<Row>, selection: Selection, r: Row)
    requires Ascending(table, RowId) && Normalized(selection)
    ensures r in SelectedRows(table, selection) <==>
      && r in table && !r.deleted
      && (selection.ExplicitIds? ==> r.id in selection.ids)
      && (selection.AllFiltered? ==> selection.filter(r))
  {
    if selection.ExplicitIds? {
      NormalizedSelection(table, selection.ids);
    }
    FilterMembers(table, Matches(selection));
  }

  lemma {:induction false} NormalizedCommits(table: seq<Row>, selection: Selection, order: seq<App>,
        c: Config, k: Lookups)
    requires Ascending(table, RowId) && Normalized(selection) && Distinct(order)
    requires forall app :: app in order <==> Bucket(SelectedRows(table, selection), c, app) != []
    ensures SelectedRows(table, selection) == Filter(table, Matches(selection))
    ensures forall ch <- ChildrenOf(order, SelectedRows(table, selection), c, k) :: Distinct(ch.items)
    ensures forall id :: InSomeChild(ChildrenOf(order, SelectedRows(table, selection), c, k), id)
                    <==> Owed(Filter(table, Matches(selection)), c, k, id)
  {
    if selection.ExplicitIds? {
      NormalizedSelection(table, selection.ids);
    }
    FilterAscending(table, RowId, Matches(selection));
    var rows := SelectedRows(table, selection);
    var cs := ChildrenOf(order, rows, c, k);
    forall i | 0 <= i < |cs| ensures Distinct(cs[i].items) { ChildHolds(order, rows, c, k, i, 0); }
    forall id ensures InSomeChild(cs, id) <==> Owed(rows, c, k, id) { InChildIff(order, rows, c, k, id); }
  }

  lemma Conserved(e: Enumeration)
    requires e.Valid()
    ensures e.observedCount ==
              e.submittedCount + e.ineligibleCount + e.alreadyLinkedCount + TotalBlocked(e.blockedReasonCounts)
  {
    VerdictsAddUp(e.visited, e.config);
    assert e.CountersOk(Submitted) && e.CountersOk(Ineligible) && e.CountersOk(AlreadyLinked);
    assert e.CountersOk(Blocked(ActiveItemConflict)) && e.CountersOk(Blocked(MissingLocale))
        && e.CountersOk(Blocked(UnsupportedLocale)) && e.CountersOk(Blocked(ChannelAccountRequired))
        && e.CountersOk(Blocked(BindingOrCapabilityUnavailable)) && e.CountersOk(Blocked(ActiveScopeConflict));
  }

  /** No more rows are found than ids were asked for. */
  lemma {:induction false} ObservedAtMost(table: seq<Row>, ids: seq<Id>)
    requires Ascending(table, RowId)
    ensures |Filter(table, Matches(ExplicitIds(ids)))| <= |ids|
  {
    var rows := Filter(table, Matches(ExplicitIds(ids)));
    FilterAscending(table, RowId, Matches(ExplicitIds(ids)));
    FilterMembers(table, Matches(ExplicitIds(ids)));
    forall i | 0 <= i < |rows| ensures rows[i].id in ids { assert rows[i] in rows; }
    DistinctWithin(rows, ids);
  }

  lemma {:induction false} ChunkRowsAtMost(table: seq<Row>, ids: seq<Id>, i: nat)
    requires Ascending(table, RowId) && i <= |ids|
    ensures |ChunkRows(table, ids, i)| <= |ids| - i
    decreases |ids| - i
  {
    if i < |ids| {
      ObservedAtMost(table, ids[i..ChunkEnd(ids, i)]);
      ChunkRowsAtMost(table, ids, ChunkEnd(ids, i));
    }
  }

  lemma {:induction false} DistinctWithin(rows: seq<Row>, ids: seq<Id>)
    requires Ascending(rows, RowId) && forall i :: 0 <= i < |rows| ==> rows[i].id in ids
    ensures |rows| <= |ids|
  {
    if rows != [] {
      var last := rows[|rows| - 1];
      var front := rows[..|rows| - 1];
      var j :| 0 <= j < |ids| && ids[j] == last.id;
      var rest := ids[..j] + ids[j + 1..];
      forall i | 0 <= i < |front| ensures front[i].id in rest {
        assert RowId(rows[i]) < RowId(rows[|rows| - 1]);
        assert rows[i].id in ids;
        var n :| 0 <= n < |ids| && ids[n] == rows[i].id;
        assert n != j;
        assert rest[if n < j then n else n - 1] == rows[i].id;
      }
      DistinctWithin(front, rest);
    }
  }
}
