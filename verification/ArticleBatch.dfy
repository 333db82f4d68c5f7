/**
 Article generation fan-out (worker/handlers/article-generate-batch.ts): page through the
 eligible novels of one RepeatableRead snapshot and create one leaf task per page.
 */
module ArticleBatch {
  import opened Wrappers
  import opened Keyset

  const LEAF_MAX := 200

  datatype Promo = PromoReady | PromoNotReady(outcome: string)

  datatype Reason = NovelDeleted | AlreadyExists | ArticleSoftDeleted | PromoBlocked(outcome: string)

  datatype ArticleRow = ArticleRow(locale: string, deleted: bool)

  /** A novel row with its Articles, deleted ones included, and its promo readiness. */
  datatype Novel = Novel(id: Id, locale: string, deleted: bool, articles: seq<ArticleRow>, promo: Promo)

  /** A leaf's request token is a digest of the parent and the cursor its page started from. */
  datatype Leaf = Leaf(token: Option<Id>, novelIds: seq<Id>)

  function NovelId(n: Novel): Id { n.id }

  /** The first Article of a locale. */
  function FirstOf(articles: seq<ArticleRow>, locale: string): Option<ArticleRow> {
    if articles == [] then None
    else if articles[0].locale == locale then Some(articles[0])
    else FirstOf(articles[1..], locale)
  }

  /** The admission classification (src/server/content-creation/eligibility.ts), in its order of checks. */
  function BlockedBy(n: Novel): Option<Reason> {
    if n.deleted then Some(NovelDeleted)
    else match FirstOf(n.articles, n.locale)
      case Some(a) => Some(if a.deleted then ArticleSoftDeleted else AlreadyExists)
      case None => if n.promo.PromoReady? then None else Some(PromoBlocked(n.promo.outcome))
  }

  predicate CanGenerate(n: Novel) { BlockedBy(n).None? }

  lemma {:induction false} FirstOfNone(articles: seq<ArticleRow>, locale: string)
    ensures FirstOf(articles, locale).None? <==> forall a <- articles :: a.locale != locale
  {
    if articles != [] {
      FirstOfNone(articles[1..], locale);
      assert articles == [articles[0]] + articles[1..];
    }
  }

  /** Exactly a live novel with a ready promo and no Article of its locale, not even a deleted one, is generated. */
  lemma CanGenerateIff(n: Novel)
    ensures CanGenerate(n) <==> !n.deleted && n.promo.PromoReady? && forall a <- n.articles :: a.locale != n.locale
  {
    FirstOfNone(n.articles, n.locale);
  }

  /** The first Article of the novel's locale is the one at position `i`. */
  predicate DecidedAt(n: Novel, i: nat) {
    && i < |n.articles| && n.articles[i].locale == n.locale
    && forall j :: 0 <= j < i ==> n.articles[j].locale != n.locale
  }

  lemma {:induction false} FirstOfAt(articles: seq<ArticleRow>, locale: string, i: nat)
    requires i < |articles| && articles[i].locale == locale
    requires forall j :: 0 <= j < i ==> articles[j].locale != locale
    ensures FirstOf(articles, locale) == Some(articles[i])
  {
    if i > 0 {
      FirstOfAt(articles[1..], locale, i - 1);
    }
  }

  lemma FirstIndex(articles: seq<ArticleRow>, locale: string) returns (i: nat)
    requires exists a :: a in articles && a.locale == locale
    ensures i < |articles| && articles[i].locale == locale
    ensures forall j :: 0 <= j < i ==> articles[j].locale != locale
  {
    if articles[0].locale == locale {
      i := 0;
    } else {
      assert articles == [articles[0]] + articles[1..];
      var rest := FirstIndex(articles[1..], locale);
      i := 1 + rest;
    }
  }

  /**
   Which novels are blocked for which reason: a deleted novel as such; otherwise the first
   Article of its locale decides, a live one as existing and a deleted one as soft-deleted; and
   only without an Article of the locale does the promo.
   */
  lemma BlockedInFull(n: Novel, outcome: string)
    ensures BlockedBy(n) == Some(NovelDeleted) <==> n.deleted
    ensures BlockedBy(n) == Some(AlreadyExists) <==>
      !n.deleted && exists i: nat :: DecidedAt(n, i) && !n.articles[i].deleted
    ensures BlockedBy(n) == Some(ArticleSoftDeleted) <==>
      !n.deleted && exists i: nat :: DecidedAt(n, i) && n.articles[i].deleted
    ensures BlockedBy(n) == Some(PromoBlocked(outcome)) <==>
      !n.deleted && n.promo == PromoNotReady(outcome) && forall a <- n.articles :: a.locale != n.locale
    ensures BlockedBy(n) == None <==>
      !n.deleted && n.promo == PromoReady && forall a <- n.articles :: a.locale != n.locale
  {
    FirstOfNone(n.articles, n.locale);
    if exists a :: a in n.articles && a.locale == n.locale {
      var i := FirstIndex(n.articles, n.locale);
      FirstOfAt(n.articles, n.locale, i);
      assert DecidedAt(n, i);
      forall j: nat | DecidedAt(n, j) ensures j == i {
        assert !(i < j) && !(j < i);
      }
    }
  }

  /** Ids of the novels at positions lo .. hi that can be generated, in order. */
  function ReadyIn(rows: seq<Novel>, lo: nat, hi: nat): seq<Id>
    requires lo <= hi <= |rows|
  {
    if lo == hi then []
    else ReadyIn(rows, lo, hi - 1) + (if CanGenerate(rows[hi - 1]) then [rows[hi - 1].id] else [])
  }

  function Ready(rows: seq<Novel>): seq<Id> {
    ReadyIn(rows, 0, |rows|)
  }

  /** All ids of all leaves, in leaf order. */
  function AllIds(leaves: seq<Leaf>): seq<Id> {
    if leaves == [] then [] else AllIds(leaves[..|leaves| - 1]) + leaves[|leaves| - 1].novelIds
  }

  function BlockedIn(rows: seq<Novel>, lo: nat, hi: nat, reason: Reason): nat
    requires lo <= hi <= |rows|
  {
    if lo == hi then 0
    else BlockedIn(rows, lo, hi - 1, reason) + (if BlockedBy(rows[hi - 1]) == Some(reason) then 1 else 0)
  }

  function BlockedFor(rows: seq<Novel>, reason: Reason): nat {
    BlockedIn(rows, 0, |rows|, reason)
  }

  /** Positions of the novels blocked for a reason. */
  function BlockedAt(rows: seq<Novel>, n: nat, reason: Reason): set<nat>
    requires n <= |rows|
  {
    set i: nat | i < n && BlockedBy(rows[i]) == Some(reason)
  }

  /** A count is the number of novels blocked for its reason. */
  lemma {:induction false} BlockedExactly(rows: seq<Novel>, n: nat, reason: Reason)
    requires n <= |rows|
    ensures BlockedIn(rows, 0, n, reason) == |BlockedAt(rows, n, reason)|
  {
    if n == 0 {
      assert BlockedAt(rows, 0, reason) == {};
    } else {
      var m := n - 1;
      BlockedExactly(rows, m, reason);
      var here := BlockedBy(rows[m]) == Some(reason);
      assert BlockedAt(rows, n, reason) == BlockedAt(rows, m, reason) + (if here then {m} else {});
    }
  }

  function Of(counts: map<Reason, nat>, reason: Reason): nat {
    if reason in counts then counts[reason] else 0
  }

  /** Cursors in the order a scan takes them. */
  predicate Before(a: Option<Id>, b: Option<Id>) {
    b.Some? && (a.Some? ==> a.value < b.value)
  }

  /** Nonempty leaves within the limit, under strictly increasing cursors, all before `after`. */
  predicate LeavesOk(leaves: seq<Leaf>, after: Option<Id>) {
    && (forall i :: 0 <= i < |leaves| ==> 1 <= |leaves[i].novelIds| <= LEAF_MAX && Before(leaves[i].token, after))
    && (forall i, j :: 0 <= i < j < |leaves| ==> Before(leaves[i].token, leaves[j].token))
  }

  lemma {:induction false} RangesJoin(rows: seq<Novel>, lo: nat, mid: nat, hi: nat, reason: Reason)
    requires lo <= mid <= hi <= |rows|
    ensures ReadyIn(rows, lo, hi) == ReadyIn(rows, lo, mid) + ReadyIn(rows, mid, hi)
    ensures BlockedIn(rows, lo, hi, reason) == BlockedIn(rows, lo, mid, reason) + BlockedIn(rows, mid, hi, reason)
    decreases hi
  {
    if mid < hi {
      RangesJoin(rows, lo, mid, hi - 1, reason);
    }
  }

  /** `page` lies in `rows` from position `lo` on. */
  predicate IsStretch(page: seq<Novel>, rows: seq<Novel>, lo: nat) {
    lo + |page| <= |rows| && forall i :: 0 <= i < |page| ==> page[i] == rows[lo + i]
  }

  lemma {:induction false} RangeOfSlice(rows: seq<Novel>, page: seq<Novel>, lo: nat, k: nat, reason: Reason)
    requires IsStretch(page, rows, lo) && k <= |page|
    ensures ReadyIn(page, 0, k) == ReadyIn(rows, lo, lo + k)
    ensures BlockedIn(page, 0, k, reason) == BlockedIn(rows, lo, lo + k, reason)
    ensures |ReadyIn(page, 0, k)| <= k
    decreases k
  {
    if k > 0 {
      RangeOfSlice(rows, page, lo, k - 1, reason);
      assert page[k - 1] == rows[lo + k - 1];
    }
  }

  predicate AddedAt(counts: map<Reason, nat>, counts0: map<Reason, nat>, rows: seq<Novel>, n: nat, r: Reason)
    requires n <= |rows|
  {
    Of(counts, r) == Of(counts0, r) + BlockedIn(rows, 0, n, r)
  }

  /** The counts have grown by the reasons of the first `n` rows. */
  ghost predicate Added(counts: map<Reason, nat>, counts0: map<Reason, nat>, rows: seq<Novel>, n: nat)
    requires n <= |rows|
  {
    forall r :: AddedAt(counts, counts0, rows, n, r)
  }

  /** `resolveArticleGenerateAdmissions` for one row: the first Article of its locale decides before the promo does. */
  method ResolveAdmission(n: Novel) returns (reason: Option<Reason>)
    ensures reason == BlockedBy(n)
    ensures reason == Some(NovelDeleted) <==> n.deleted
    ensures reason == Some(AlreadyExists) <==>
      !n.deleted && exists i: nat :: DecidedAt(n, i) && !n.articles[i].deleted
    ensures reason == Some(ArticleSoftDeleted) <==>
      !n.deleted && exists i: nat :: DecidedAt(n, i) && n.articles[i].deleted
    ensures reason.Some? && reason.value.PromoBlocked? <==>
      !n.deleted && n.promo.PromoNotReady? && forall a <- n.articles :: a.locale != n.locale
    ensures reason.Some? && reason.value.PromoBlocked? ==> n.promo == PromoNotReady(reason.value.outcome)
  {
    BlockedInFull(n, if n.promo.PromoNotReady? then n.promo.outcome else "");
    if n.deleted {
      return Some(NovelDeleted);
    }
    for i := 0 to |n.articles|
      invariant FirstOf(n.articles, n.locale) == FirstOf(n.articles[i..], n.locale)
    {
      if n.articles[i].locale == n.locale {
        return Some(if n.articles[i].deleted then ArticleSoftDeleted else AlreadyExists);
      }
      assert n.articles[i..][1..] == n.articles[i + 1..];
    }
    reason := if n.promo.PromoReady? then None else Some(PromoBlocked(n.promo.outcome));
  }

  /** One page's admissions: the ready ids in order, and the blocked rows by reason. */
  method Admit(rows: seq<Novel>, counts0: map<Reason, nat>) returns (ready: seq<Id>, counts: map<Reason, nat>)
    ensures ready == Ready(rows) && Added(counts, counts0, rows, |rows|)
  {
    ready, counts := [], counts0;
    for i := 0 to |rows|
      invariant ready == ReadyIn(rows, 0, i)
      invariant Added(counts, counts0, rows, i)
    {
      ghost var before := counts;
      var reason := ResolveAdmission(rows[i]);
      if reason.None? {
        ready := ready + [rows[i].id];
      } else {
        counts := counts[reason.value := Of(counts, reason.value) + 1];
      }
      var m := i + 1;
      forall r ensures AddedAt(counts, counts0, rows, m, r) { assert AddedAt(before, counts0, rows, i, r); }
    }
  }

  predicate CountAt(counts: map<Reason, nat>, rows: seq<Novel>, n: nat, r: Reason)
    requires n <= |rows|
  {
    Of(counts, r) == BlockedIn(rows, 0, n, r)
  }

  /** The reasons counted are those of the first `n` novels. */
  ghost predicate CountsOk(counts: map<Reason, nat>, rows: seq<Novel>, n: nat)
    requires n <= |rows|
  {
    forall r :: CountAt(counts, rows, n, r)
  }

  /** What the loop has done after the first `n` matching novels. */
  ghost predicate Progress(matching: seq<Novel>, n: nat, after: Option<Id>, leaves: seq<Leaf>, selected: nat,
      submitted: nat, counts: map<Reason, nat>)
  {
    && n <= |matching| && after == Cursor(matching, NovelId, n) && selected == n
    && AllIds(leaves) == ReadyIn(matching, 0, n) && submitted == |AllIds(leaves)|
    && LeavesOk(leaves, after) && CountsOk(counts, matching, n)
  }

  lemma CursorGrows(matching: seq<Novel>, n: nat, m: nat)
    requires Ascending(matching, NovelId) && n < m <= |matching|
    ensures Before(Cursor(matching, NovelId, n), Cursor(matching, NovelId, m))
  {
    if n > 0 { assert NovelId(matching[n - 1]) < NovelId(matching[m - 1]); }
  }

  lemma {:induction false} LeafAdded(leaves: seq<Leaf>, after: Option<Id>, next: Option<Id>, ids: seq<Id>)
    requires LeavesOk(leaves, after) && Before(after, next) && 1 <= |ids| <= LEAF_MAX
    ensures LeavesOk(leaves + [Leaf(after, ids)], next) && AllIds(leaves + [Leaf(after, ids)]) == AllIds(leaves) + ids
  {
    assert (leaves + [Leaf(after, ids)])[..|leaves|] == leaves;
  }

  lemma PageCounts(matching: seq<Novel>, page: seq<Novel>, n: nat, counts0: map<Reason, nat>, counts: map<Reason, nat>)
    requires IsStretch(page, matching, n) && CountsOk(counts0, matching, n)
    requires Added(counts, counts0, page, |page|)
    ensures CountsOk(counts, matching, n + |page|)
  {
    var m := n + |page|;
    forall r ensures CountAt(counts, matching, m, r) {
      assert CountAt(counts0, matching, n, r) && AddedAt(counts, counts0, page, |page|, r);
      RangeOfSlice(matching, page, n, |page|, r);
      RangesJoin(matching, 0, n, n + |page|, r);
    }
  }

  lemma PageReady(matching: seq<Novel>, page: seq<Novel>, n: nat)
    requires IsStretch(page, matching, n)
    ensures ReadyIn(matching, 0, n + |page|) == ReadyIn(matching, 0, n) + Ready(page) && |Ready(page)| <= |page|
  {
    RangeOfSlice(matching, page, n, |page|, NovelDeleted);
    RangesJoin(matching, 0, n, n + |page|, NovelDeleted);
  }

  lemma LeavesLater(leaves: seq<Leaf>, after: Option<Id>, next: Option<Id>)
    requires LeavesOk(leaves, after) && Before(after, next)
    ensures LeavesOk(leaves, next)
  {}

  /** A page with ready novels becomes one more leaf; a page without leaves the leaves alone. */
  lemma PageProgress(matching: seq<Novel>, page: seq<Novel>, n: nat, after: Option<Id>, next: Option<Id>,
                     leaves: seq<Leaf>, submitted: nat, counts0: map<Reason, nat>, counts: map<Reason, nat>)
    requires Ascending(matching, NovelId) && Progress(matching, n, after, leaves, n, submitted, counts0)
    requires 1 <= |page| <= LEAF_MAX && IsStretch(page, matching, n)
    requires next == Cursor(matching, NovelId, n + |page|) && CountsOk(counts, matching, n + |page|)
    ensures var ready := Ready(page);
            var after_ := if ready == [] then leaves else leaves + [Leaf(after, ready)];
            Progress(matching, n + |page|, next, after_, n + |page|, submitted + |ready|, counts)
  {
    CursorGrows(matching, n, n + |page|);
    PageReady(matching, page, n);
    if Ready(page) == [] {
      LeavesLater(leaves, after, next);
    } else {
      LeafAdded(leaves, after, next, Ready(page));
    }
  }

  /** One page: classify its rows and, if any is ready, create its leaf under the page's starting cursor. */
  method HandleRows(rows: seq<Novel>, after: Option<Id>, ghost next: Option<Id>, leaves0: seq<Leaf>, submitted0: nat,
                    counts0: map<Reason, nat>, ghost matching: seq<Novel>, ghost n: nat)
    returns (leaves: seq<Leaf>, submitted: nat, counts: map<Reason, nat>)
    requires Ascending(matching, NovelId) && Progress(matching, n, after, leaves0, n, submitted0, counts0)
    requires 1 <= |rows| <= LEAF_MAX && IsStretch(rows, matching, n)
    requires next == Cursor(matching, NovelId, n + |rows|)
    ensures Progress(matching, n + |rows|, next, leaves, n + |rows|, submitted, counts)
  {
    var ready;
    ready, counts := Admit(rows, counts0);
    PageCounts(matching, rows, n, counts0, counts);
    PageProgress(matching, rows, n, after, next, leaves0, submitted0, counts0, counts);
    leaves, submitted := leaves0, submitted0;
    if |ready| > 0 {
      leaves := leaves + [Leaf(after, ready)];
      submitted := submitted + |ready|;
    }
  }

  /** One turn of the paging loop. */
  method HandlePage(table: seq<Novel>, eligible: Novel -> bool, after: Option<Id>, leaves0: seq<Leaf>, submitted0: nat,
                    counts0: map<Reason, nat>, ghost matching: seq<Novel>, ghost n: nat)
    returns (size: nat, next: Option<Id>, leaves: seq<Leaf>, submitted: nat, counts: map<Reason, nat>)
    requires matching == Filter(table, eligible) && Ascending(matching, NovelId)
    requires Progress(matching, n, after, leaves0, n, submitted0, counts0)
    ensures Progress(matching, n + size, next, leaves, n + size, submitted, counts)
    ensures size <= LEAF_MAX && (size < LEAF_MAX ==> n + size == |matching|)
  {
    var rows;
    rows, next := FetchPage(table, NovelId, eligible, after, LEAF_MAX, n, matching);
    size, leaves, submitted, counts := |rows|, leaves0, submitted0, counts0;
    if size > 0 {
      leaves, submitted, counts := HandleRows(rows, after, next, leaves0, submitted0, counts0, matching, n);
    }
  }

  /** What a completed enumeration reports and leaves behind. */
  ghost predicate Enumerated(matching: seq<Novel>, leaves: seq<Leaf>, selected: nat, submitted: nat,
      counts: map<Reason, nat>) {
    && AllIds(leaves) == Ready(matching)
    && (forall i :: 0 <= i < |leaves| ==> 1 <= |leaves[i].novelIds| <= LEAF_MAX)
    && (forall i, j :: 0 <= i < j < |leaves| ==> leaves[i].token != leaves[j].token)
    && selected == |matching| && submitted == |AllIds(leaves)|
    && (forall r :: Of(counts, r) == BlockedFor(matching, r))
  }

  lemma ProgressDone(matching: seq<Novel>, after: Option<Id>, leaves: seq<Leaf>, submitted: nat,
        counts: map<Reason, nat>)
    requires Progress(matching, |matching|, after, leaves, |matching|, submitted, counts)
    ensures Enumerated(matching, leaves, |matching|, submitted, counts)
  {
    forall r ensures Of(counts, r) == BlockedFor(matching, r) { assert CountAt(counts, matching, |matching|, r); }
    forall i, j | 0 <= i < j < |leaves| ensures leaves[i].token != leaves[j].token {
      assert Before(leaves[i].token, leaves[j].token);
    }
  }

  /**
   The leaves hold exactly the generatable novels among the eligible ones, in id order; a
   leaf holds 1 to 200 of them; tokens are distinct; every eligible novel is selected, and
   those not submitted are counted under their reason.
   */
  method EnumerateLeaves(table: seq<Novel>, eligible: Novel -> bool)
    returns (leaves: seq<Leaf>, selectedCount: nat, submittedCount: nat, blockedReasonCounts: map<Reason, nat>)
    requires Ascending(table, NovelId)
    ensures Enumerated(Filter(table, eligible), leaves, selectedCount, submittedCount, blockedReasonCounts)
  {
    ghost var matching := Filter(table, eligible);
    FilterAscending(table, NovelId, eligible);
    var after: Option<Id> := None;
    leaves, selectedCount, submittedCount, blockedReasonCounts := [], 0, 0, map[];
    var more := true;
    while more
      invariant Progress(matching, selectedCount, after, leaves, selectedCount, submittedCount, blockedReasonCounts)
      invariant !more ==> selectedCount == |matching|
      decreases |matching| - selectedCount, more
    {
      var size;
      size, after, leaves, submittedCount, blockedReasonCounts :=
        HandlePage(table, eligible, after, leaves, submittedCount, blockedReasonCounts, matching, selectedCount);
      selectedCount := selectedCount + size;
      more := size == LEAF_MAX;
    }
    ProgressDone(matching, after, leaves, submittedCount, blockedReasonCounts);
  }

  // ---------------------------------------------------------------------
  // What that says of single novels
  // ---------------------------------------------------------------------

  /** Row `n` is a generatable novel with this id. */
  predicate ReadyRow(n: Novel, id: Id) {
    n.id == id && CanGenerate(n)
  }

  lemma {:induction false} ReadyMembers(rows: seq<Novel>, n: nat, id: Id)
    requires n <= |rows|
    ensures id in ReadyIn(rows, 0, n) <==> exists i :: 0 <= i < n && ReadyRow(rows[i], id)
  {
    if n > 0 {
      ReadyMembers(rows, n - 1, id);
      if ReadyRow(rows[n - 1], id) {
        assert id in ReadyIn(rows, 0, n);
      }
    }
  }

  lemma {:induction false} ReadyAscending(rows: seq<Novel>, n: nat)
    requires Ascending(rows, NovelId) && n <= |rows|
    ensures forall i, j :: 0 <= i < j < |ReadyIn(rows, 0, n)| ==> ReadyIn(rows, 0, n)[i] < ReadyIn(rows, 0, n)[j]
  {
    if n > 0 {
      ReadyAscending(rows, n - 1);
      var front := ReadyIn(rows, 0, n - 1);
      forall i | 0 <= i < |front| ensures front[i] < rows[n - 1].id {
        ReadyMembers(rows, n - 1, front[i]);
        var j :| 0 <= j < n - 1 && ReadyRow(rows[j], front[i]);
        assert NovelId(rows[j]) < NovelId(rows[n - 1]);
      }
    }
  }

  lemma {:induction false} AllIdsAt(leaves: seq<Leaf>, i: nat, x: nat) returns (at: nat)
    requires i < |leaves| && x < |leaves[i].novelIds|
    ensures at < |AllIds(leaves)| && AllIds(leaves)[at] == leaves[i].novelIds[x]
    ensures at == |AllIds(leaves[..i])| + x
  {
    var last := |leaves| - 1;
    if i == last {
      at := |AllIds(leaves[..last])| + x;
    } else {
      assert leaves[..last][..i] == leaves[..i];
      at := AllIdsAt(leaves[..last], i, x);
    }
  }

  lemma {:induction false} AllIdsGrow(leaves: seq<Leaf>, i: nat, j: nat)
    requires i < j <= |leaves|
    ensures |AllIds(leaves[..i])| + |leaves[i].novelIds| <= |AllIds(leaves[..j])|
    decreases j
  {
    assert leaves[..j][..j - 1] == leaves[..j - 1];
    if i < j - 1 {
      AllIdsGrow(leaves, i, j - 1);
    }
  }

  /** Leaves over strictly increasing ids are pairwise disjoint. */
  lemma {:induction false} LeavesDisjoint(leaves: seq<Leaf>, rows: seq<Novel>, i: nat, j: nat, id: Id)
    requires AllIds(leaves) == Ready(rows) && Ascending(rows, NovelId)
    requires i < j < |leaves| && id in leaves[i].novelIds
    ensures id !in leaves[j].novelIds
  {
    ReadyAscending(rows, |rows|);
    AllIdsGrow(leaves, i, j);
    var x :| 0 <= x < |leaves[i].novelIds| && leaves[i].novelIds[x] == id;
    var a := AllIdsAt(leaves, i, x);
    forall y | 0 <= y < |leaves[j].novelIds| ensures leaves[j].novelIds[y] != id {
      var b := AllIdsAt(leaves, j, y);
      assert Ready(rows)[a] < Ready(rows)[b];
    }
  }

  lemma {:induction false} InAllIds(leaves: seq<Leaf>, id: Id)
    ensures id in AllIds(leaves) <==> exists i :: 0 <= i < |leaves| && id in leaves[i].novelIds
  {
    if leaves != [] {
      var front := leaves[..|leaves| - 1];
      InAllIds(front, id);
      if id in AllIds(front) {
        var i :| 0 <= i < |front| && id in front[i].novelIds;
        assert id in leaves[i].novelIds;
      }
      if i :| 0 <= i < |leaves| && id in leaves[i].novelIds {
        assert i < |front| ==> id in front[i].novelIds;
      }
    }
  }

  /** A novel is in some leaf exactly when it is eligible and can be generated. */
  lemma {:induction false} LeavesCoverExactly(table: seq<Novel>, eligible: Novel -> bool, leaves: seq<Leaf>, id: Id)
    requires AllIds(leaves) == Ready(Filter(table, eligible))
    ensures (exists i :: 0 <= i < |leaves| && id in leaves[i].novelIds) <==>
              exists n :: n in table && eligible(n) && ReadyRow(n, id)
  {
    var matching := Filter(table, eligible);
    InAllIds(leaves, id);
    ReadyMembers(matching, |matching|, id);
    FilterMembers(table, eligible);
    if id in Ready(matching) {
      var i :| 0 <= i < |matching| && ReadyRow(matching[i], id);
      assert matching[i] in matching;
    }
    if n :| n in table && eligible(n) && ReadyRow(n, id) {
      assert n in matching;
      var i :| 0 <= i < |matching| && matching[i] == n;
    }
  }
}
