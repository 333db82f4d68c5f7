/**
 `mergeDroppedLabels` as the code computes it (worker/handlers/moboreader.ts): counts are
 added as floating-point numbers, exact only up to 2^53.
 */
module DroppedLabels {
  import opened Doubles
  import opened DroppedLabelTallies
  import opened Sequences
  import opened SortedSets

  /** The count a merge gives a key: its groups added up in order. */
  function RoundedTally(gs: seq<Group>, k: Key): int {
    if gs == [] then 0
    else if gs[|gs| - 1].key != k then RoundedTally(gs[..|gs| - 1], k)
    else Add(RoundedTally(gs[..|gs| - 1], k), gs[|gs| - 1].count)
  }

  function RoundedSum(gs: seq<Group>): int {
    if gs == [] then 0 else Add(RoundedSum(gs[..|gs| - 1]), gs[|gs| - 1].count)
  }

  function RoundedGroups(gs: seq<Group>, ks: seq<Key>): seq<Group> {
    if ks == [] then []
    else RoundedGroups(gs, ks[..|ks| - 1]) + [Group(ks[|ks| - 1], RoundedTally(gs, ks[|ks| - 1]))]
  }

  /** One group per key, sorted; and the total. */
  function Merge(gs: seq<Group>, le: (Key, Key) -> bool): Summary {
    Summary(RoundedSum(gs), RoundedGroups(gs, SortedSet(Keys(gs), le)))
  }

  // ---------------------------------------------------------------------
  // Exact exactly while safe
  // ---------------------------------------------------------------------

  lemma AddKeeps(a: int, exact: int, c: int)
    requires 0 <= exact && 1 <= c
    requires if exact <= TWO_53 then a == exact else a >= TWO_53
    ensures if exact + c <= TWO_53 then Add(a, c) == exact + c else Add(a, c) >= TWO_53
  {
    if exact + c <= TWO_53 {
      RoundedExact(a + c);
    } else {
      RoundedLarge(a + c);
    }
  }

  /** A key's count is its tally up to 2^53, and from there on it is never below. */
  lemma {:induction false} TallyWhileSafe(gs: seq<Group>, k: Key)
    requires AllValid(gs)
    ensures Tally(gs, k) >= 0
    ensures if Tally(gs, k) <= TWO_53 then RoundedTally(gs, k) == Tally(gs, k) else RoundedTally(gs, k) >= TWO_53
  {
    if gs != [] {
      var front, last := gs[..|gs| - 1], gs[|gs| - 1];
      TallyWhileSafe(front, k);
      if last.key == k {
        AddKeeps(RoundedTally(front, k), Tally(front, k), last.count);
      }
    }
  }

  lemma {:induction false} SumWhileSafe(gs: seq<Group>)
    requires AllValid(gs)
    ensures Sum(gs) >= 0
    ensures if Sum(gs) <= TWO_53 then RoundedSum(gs) == Sum(gs) else RoundedSum(gs) >= TWO_53
  {
    if gs != [] {
      var front, last := gs[..|gs| - 1], gs[|gs| - 1];
      SumWhileSafe(front);
      AddKeeps(RoundedSum(front), Sum(front), last.count);
    }
  }

  lemma {:induction false} RoundedSnoc(gs: seq<Group>, g: Group, k: Key)
    ensures RoundedSum(gs + [g]) == Add(RoundedSum(gs), g.count)
    ensures RoundedTally(gs + [g], k) ==
              if g.key == k then Add(RoundedTally(gs, k), g.count) else RoundedTally(gs, k)
  {
    assert (gs + [g])[..|gs|] == gs;
  }

  lemma {:induction false} RoundedTallyPositive(gs: seq<Group>, k: Key)
    requires AllValid(gs)
    ensures RoundedTally(gs, k) >= 0 && (RoundedTally(gs, k) > 0 <==> k in Keys(gs))
  {
    TallyWhileSafe(gs, k);
    TallyPositive(gs, k);
  }

  lemma {:induction false} RoundedGroupsAt(gs: seq<Group>, ks: seq<Key>)
    ensures |RoundedGroups(gs, ks)| == |ks|
    ensures forall i :: 0 <= i < |ks| ==> RoundedGroups(gs, ks)[i] == Group(ks[i], RoundedTally(gs, ks[i]))
  {
    if ks != [] {
      RoundedGroupsAt(gs, ks[..|ks| - 1]);
    }
  }

  /**
   A merge holds exactly one group per dropped key.  A count that is a safe integer is how
   often the key was dropped, and a key that was dropped a safe number of times has that count.
   */
  lemma {:induction false} MergedGroups(gs: seq<Group>, le: (Key, Key) -> bool, k: Key, n: int)
    requires TotalOrder(le) && AllValid(gs)
    ensures Group(k, n) in Merge(gs, le).groups <==> n == RoundedTally(gs, k) && n > 0
    ensures n <= MAX_SAFE_INTEGER ==> (Group(k, n) in Merge(gs, le).groups <==> n == Tally(gs, k) && n > 0)
    ensures RoundedTally(gs, k) <= MAX_SAFE_INTEGER <==> Tally(gs, k) <= MAX_SAFE_INTEGER
  {
    var ks := SortedSet(Keys(gs), le);
    RoundedGroupsAt(gs, ks);
    SortedKeys(gs, le);
    TallyWhileSafe(gs, k);
    RoundedTallyPositive(gs, k);
    assert k in ks <==> k in Elements(ks);
    assert k in Keys(gs) <==> k in Elements(Keys(gs));
    if k in ks && n == RoundedTally(gs, k) {
      var i :| 0 <= i < |ks| && ks[i] == k;
      assert RoundedGroups(gs, ks)[i] == Group(k, n);
    }
  }

  lemma {:induction false} GroupsWhileSafe(gs: seq<Group>, ks: seq<Key>)
    requires AllValid(gs) && forall k <- ks :: Tally(gs, k) <= TWO_53
    ensures RoundedGroups(gs, ks) == Grouped(gs, ks)
  {
    if ks != [] {
      GroupsWhileSafe(gs, ks[..|ks| - 1]);
      TallyWhileSafe(gs, ks[|ks| - 1]);
    }
  }

  lemma {:induction false} TallyAtMostSum(gs: seq<Group>, k: Key)
    requires AllValid(gs)
    ensures 0 <= Tally(gs, k) <= Sum(gs)
  {
    if gs != [] {
      TallyAtMostSum(gs[..|gs| - 1], k);
    }
  }

  /** Up to a total of 2^53 nothing is rounded. */
  lemma {:induction false} MergeWhileSafe(gs: seq<Group>, le: (Key, Key) -> bool)
    requires AllValid(gs) && Sum(gs) <= TWO_53
    ensures Merge(gs, le) == ExactMerge(gs, le)
  {
    SumWhileSafe(gs);
    forall k ensures Tally(gs, k) <= TWO_53 { TallyAtMostSum(gs, k); }
    GroupsWhileSafe(gs, SortedSet(Keys(gs), le));
  }

  /**
   The keys are unique and sorted.  The total is a safe integer exactly when the number of
   dropped labels is, and then it is that number and the sum of the groups' counts.
   */
  lemma {:induction false} MergedTotal(gs: seq<Group>, le: (Key, Key) -> bool)
    requires TotalOrder(le) && AllValid(gs)
    ensures var r := Merge(gs, le);
            && (forall i, j :: 0 <= i < j < |r.groups| ==>
                 le(r.groups[i].key, r.groups[j].key) && r.groups[i].key != r.groups[j].key)
            && (r.count <= MAX_SAFE_INTEGER <==> Sum(gs) <= MAX_SAFE_INTEGER)
            && (r.count <= MAX_SAFE_INTEGER ==> r.count == Sum(gs) == Sum(r.groups))
  {
    SortedKeys(gs, le);
    RoundedGroupsAt(gs, SortedSet(Keys(gs), le));
    SumWhileSafe(gs);
    if Sum(gs) <= MAX_SAFE_INTEGER {
      MergeWhileSafe(gs, le);
      ExactTotal(gs, le);
    }
  }

  /** Two inputs with a safe total merge alike exactly when every key was dropped equally often. */
  lemma {:induction false} MergeCanonical(gs: seq<Group>, hs: seq<Group>, le: (Key, Key) -> bool)
    requires TotalOrder(le) && AllValid(gs) && AllValid(hs)
    requires Sum(gs) <= MAX_SAFE_INTEGER && Sum(hs) <= MAX_SAFE_INTEGER
    ensures Merge(gs, le) == Merge(hs, le) <==> SameTallies(gs, hs)
  {
    MergeWhileSafe(gs, le);
    MergeWhileSafe(hs, le);
    ExactCanonical(gs, hs, le);
  }

  lemma {:induction false} SumOfMultiset(gs: seq<Group>, hs: seq<Group>)
    requires multiset(gs) == multiset(hs)
    ensures Sum(gs) == Sum(hs)
    decreases |gs|
  {
    if gs == [] {
      assert |hs| == |multiset(hs)|;
    } else {
      var i := MatchFirst(gs, hs);
      SumOfMultiset(gs[1..], hs[..i] + hs[i + 1..]);
      SumWithout(gs, 0);
      SumWithout(hs, i);
      assert gs[..0] + gs[1..] == gs[1..];
    }
  }

  lemma {:induction false} SumAppend(gs: seq<Group>, hs: seq<Group>)
    ensures Sum(gs + hs) == Sum(gs) + Sum(hs)
  {
    if hs == [] {
      assert gs + hs == gs;
    } else {
      SumAppend(gs, hs[..|hs| - 1]);
      assert (gs + hs)[..|gs + hs| - 1] == gs + hs[..|hs| - 1];
    }
  }

  lemma {:induction false} SumWithout(hs: seq<Group>, i: nat)
    requires i < |hs|
    ensures Sum(hs) == Sum(hs[..i] + hs[i + 1..]) + hs[i].count
  {
    assert hs == hs[..i] + ([hs[i]] + hs[i + 1..]);
    SumAppend(hs[..i], [hs[i]] + hs[i + 1..]);
    SumAppend([hs[i]], hs[i + 1..]);
    SumAppend(hs[..i], hs[i + 1..]);
  }

  /** With a safe total the order in which groups come does not matter. */
  lemma OrderIrrelevant(gs: seq<Group>, hs: seq<Group>, le: (Key, Key) -> bool)
    requires TotalOrder(le) && AllValid(gs) && AllValid(hs) && multiset(gs) == multiset(hs)
    requires Merge(gs, le).count <= MAX_SAFE_INTEGER
    ensures Merge(gs, le) == Merge(hs, le)
  {
    MergedTotal(gs, le);
    SumOfMultiset(gs, hs);
    forall k ensures Tally(gs, k) == Tally(hs, k) { TallyOfMultiset(gs, hs, k); }
    MergeCanonical(gs, hs, le);
  }

  // ---------------------------------------------------------------------
  // Merging merges
  // ---------------------------------------------------------------------

  /** Merge every page's groups, and hand the summaries to the next merge. */
  function PageMerges(pages: seq<seq<Group>>, le: (Key, Key) -> bool): seq<Candidates> {
    if pages == [] then []
    else PageMerges(pages[..|pages| - 1], le) + [Groups(Objects(Merge(pages[|pages| - 1], le).groups))]
  }

  function MergeOfPages(pages: seq<seq<Group>>, le: (Key, Key) -> bool): Summary {
    Merge(ValidGroups(PageMerges(pages, le)), le)
  }

  lemma {:induction false} ObjectsReadBack(gs: seq<Group>, ks: seq<Key>, k: Key)
    requires AllValid(gs) && Distinct(ks) && forall i :: 0 <= i < |ks| ==> ValidKey(ks[i]) && Tally(gs, ks[i]) >= 1
    ensures Tally(ValidOf(Objects(RoundedGroups(gs, ks))), k) ==
              if k in ks && Tally(gs, k) <= MAX_SAFE_INTEGER then Tally(gs, k) else 0
  {
    if ks != [] {
      var front, last := ks[..|ks| - 1], ks[|ks| - 1];
      ObjectsReadBack(gs, front, k);
      ObjectsSnoc(RoundedGroups(gs, front), Group(last, RoundedTally(gs, last)), k);
      TallyWhileSafe(gs, last);
      assert ks == front + [last] && last !in front;
    }
  }

  /** What the next merge reads of one merged page: each key's tally, unless it is no longer safe. */
  lemma {:induction false} PageReadBack(gs: seq<Group>, le: (Key, Key) -> bool, k: Key)
    requires TotalOrder(le) && AllValid(gs)
    ensures Tally(ValidOf(Objects(Merge(gs, le).groups)), k) ==
              if Tally(gs, k) <= MAX_SAFE_INTEGER then Tally(gs, k) else 0
    ensures Tally(gs, k) >= 0
  {
    var ks := SortedSet(Keys(gs), le);
    SortedKeys(gs, le);
    KeysValid(gs);
    forall i | 0 <= i < |ks| ensures ValidKey(ks[i]) && Tally(gs, ks[i]) >= 1 {
      assert ks[i] in Elements(ks);
      TallyPositive(gs, ks[i]);
    }
    ObjectsReadBack(gs, ks, k);
    TallyPositive(gs, k);
    assert k in ks <==> k in Elements(ks);
    assert k in Keys(gs) <==> k in Elements(Keys(gs));
  }

  lemma {:induction false} PageMergesLength(pages: seq<seq<Group>>, le: (Key, Key) -> bool)
    ensures |PageMerges(pages, le)| == |pages|
  {
    if pages != [] {
      PageMergesLength(pages[..|pages| - 1], le);
    }
  }

  /** `k` stays a safe integer on every page. */
  predicate SafeAt(pages: seq<seq<Group>>, k: Key) {
    forall p :: 0 <= p < |pages| ==> Tally(pages[p], k) <= MAX_SAFE_INTEGER
  }

  lemma {:induction false} MergedSnoc(front: seq<seq<Group>>, last: seq<Group>, le: (Key, Key) -> bool, k: Key)
    ensures Tally(ValidGroups(PageMerges(front + [last], le)), k) ==
              Tally(ValidGroups(PageMerges(front, le)), k) + Tally(ValidOf(Objects(Merge(last, le).groups)), k)
  {
    var merged := Groups(Objects(Merge(last, le).groups));
    PageMergesLength(front, le);
    assert (front + [last])[..|front|] == front;
    assert PageMerges(front + [last], le) == PageMerges(front, le) + [merged];
    assert (PageMerges(front, le) + [merged])[..|front|] == PageMerges(front, le);
    TallyAppend(ValidGroups(PageMerges(front, le)), ValidOf(merged.candidates), k);
  }

  lemma {:induction false} FlatSnoc(front: seq<seq<Group>>, last: seq<Group>, k: Key)
    ensures Tally(Flat(front + [last]), k) == Tally(Flat(front), k) + Tally(last, k)
    ensures SafeAt(front + [last], k) <==> SafeAt(front, k) && Tally(last, k) <= MAX_SAFE_INTEGER
  {
    assert (front + [last])[..|front|] == front;
    TallyAppend(Flat(front), last, k);
  }

  lemma {:induction false} PagesReadBack(pages: seq<seq<Group>>, le: (Key, Key) -> bool, k: Key)
    requires TotalOrder(le) && AllPagesValid(pages)
    ensures Tally(ValidGroups(PageMerges(pages, le)), k) <= Tally(Flat(pages), k)
    ensures Tally(ValidGroups(PageMerges(pages, le)), k) == Tally(Flat(pages), k) <==> SafeAt(pages, k)
  {
    if pages != [] {
      var front, last := pages[..|pages| - 1], pages[|pages| - 1];
      assert pages == front + [last];
      PagesReadBack(front, le, k);
      PageReadBack(last, le, k);
      MergedSnoc(front, last, le, k);
      FlatSnoc(front, last, k);
    }
  }

  /** A key's tally on one page is at most its tally over all pages. */
  lemma {:induction false} PageTallyAtMost(pages: seq<seq<Group>>, k: Key, p: nat)
    requires AllPagesValid(pages) && p < |pages|
    ensures 0 <= Tally(pages[p], k) <= Tally(Flat(pages), k)
  {
    var front, last := pages[..|pages| - 1], pages[|pages| - 1];
    TallyAppend(Flat(front), last, k);
    TallyAtMostSum(last, k);
    FlatValid(front);
    TallyAtMostSum(Flat(front), k);
    if p < |front| {
      PageTallyAtMost(front, k, p);
      assert front[p] == pages[p];
    }
  }

  /** While a key is safe over all pages, merging page by page loses none of it. */
  lemma {:induction false} SafeKeySurvives(pages: seq<seq<Group>>, le: (Key, Key) -> bool, k: Key)
    requires TotalOrder(le) && AllPagesValid(pages) && Tally(Flat(pages), k) <= MAX_SAFE_INTEGER
    ensures Tally(ValidGroups(PageMerges(pages, le)), k) == Tally(Flat(pages), k)
  {
    forall p | 0 <= p < |pages| ensures Tally(pages[p], k) <= MAX_SAFE_INTEGER { PageTallyAtMost(pages, k, p); }
    PagesReadBack(pages, le, k);
  }

  lemma {:induction false} SameTalliesSameSum(gs: seq<Group>, hs: seq<Group>, le: (Key, Key) -> bool)
    requires TotalOrder(le) && AllValid(gs) && AllValid(hs) && SameTallies(gs, hs)
    ensures Sum(gs) == Sum(hs)
  {
    SameTalliesMergeAlike(gs, hs, le);
  }

  /** With a safe total, merging per-page merges is the same as merging all groups at once. */
  lemma {:induction false} MergeOfMerges(pages: seq<seq<Group>>, le: (Key, Key) -> bool)
    requires TotalOrder(le) && AllPagesValid(pages) && Sum(Flat(pages)) <= MAX_SAFE_INTEGER
    ensures MergeOfPages(pages, le) == Merge(Flat(pages), le)
  {
    var merged := ValidGroups(PageMerges(pages, le));
    ValidGroupsValid(PageMerges(pages, le));
    FlatValid(pages);
    forall k ensures Tally(merged, k) == Tally(Flat(pages), k) {
      TallyAtMostSum(Flat(pages), k);
      SafeKeySurvives(pages, le, k);
    }
    SameTalliesSameSum(merged, Flat(pages), le);
    MergeCanonical(merged, Flat(pages), le);
  }

  /** The same groups, cut into pages in any way and any order. */
  predicate Regroups(pages: seq<seq<Group>>, gs: seq<Group>) {
    AllPagesValid(pages) && multiset(Flat(pages)) == multiset(gs)
  }

  lemma {:induction false} RoundedGroupsSame(gs: seq<Group>, hs: seq<Group>, ks: seq<Key>)
    requires forall k :: RoundedTally(gs, k) == RoundedTally(hs, k)
    ensures RoundedGroups(gs, ks) == RoundedGroups(hs, ks)
  {
    if ks != [] {
      RoundedGroupsSame(gs, hs, ks[..|ks| - 1]);
    }
  }

  lemma {:induction false} SafeGroupsMergeAlike(gs: seq<Group>, hs: seq<Group>, le: (Key, Key) -> bool)
    requires TotalOrder(le) && AllValid(gs) && AllValid(hs) && SameTallies(gs, hs)
    requires forall k :: Tally(gs, k) <= MAX_SAFE_INTEGER
    ensures Merge(gs, le).groups == Merge(hs, le).groups
  {
    forall k ensures RoundedTally(gs, k) == RoundedTally(hs, k) { TallyWhileSafe(gs, k); TallyWhileSafe(hs, k); }
    forall k ensures k in Elements(Keys(gs)) <==> k in Elements(Keys(hs)) {
      TallyPositive(gs, k);
      TallyPositive(hs, k);
    }
    SortedSetCanonical(Keys(gs), Keys(hs), le);
    RoundedGroupsSame(gs, hs, SortedSet(Keys(gs), le));
  }

  lemma {:induction false} RegroupedAlike(pages: seq<seq<Group>>, gs: seq<Group>, le: (Key, Key) -> bool)
    requires TotalOrder(le) && AllValid(gs) && Regroups(pages, gs)
    requires forall k :: Tally(gs, k) <= MAX_SAFE_INTEGER
    ensures MergeOfPages(pages, le).groups == Merge(gs, le).groups
  {
    var merged := ValidGroups(PageMerges(pages, le));
    ValidGroupsValid(PageMerges(pages, le));
    forall k ensures Tally(gs, k) == Tally(merged, k) {
      TallyOfMultiset(Flat(pages), gs, k);
      SafeKeySurvives(pages, le, k);
    }
    SafeGroupsMergeAlike(gs, merged, le);
  }

  /** One page with a key that is no longer safe: the next merge does not read it. */
  lemma {:induction false} OnePageLoses(gs: seq<Group>, le: (Key, Key) -> bool, k: Key)
    requires TotalOrder(le) && AllValid(gs) && Tally(gs, k) > MAX_SAFE_INTEGER
    ensures Regroups([gs], gs) && MergeOfPages([gs], le).groups != Merge(gs, le).groups
  {
    var merged := ValidGroups(PageMerges([gs], le));
    assert [gs][..0] == [] && Flat([gs]) == [] + gs;
    ValidGroupsValid(PageMerges([gs], le));
    PageReadBack(gs, le, k);
    MergedSnoc([], gs, le, k);
    assert [] + [gs] == [gs];
    var n := RoundedTally(gs, k);
    TallyWhileSafe(gs, k);
    MergedGroups(gs, le, k, n);
    MergedGroups(merged, le, k, n);
    TallyWhileSafe(merged, k);
  }

  /**
   The groups of a merge do not depend on how the dropped labels were cut into pages, and in
   which order they came, exactly when no key was dropped more often than a safe integer
   can count.
   */
  lemma {:induction false} RegroupingIff(gs: seq<Group>, le: (Key, Key) -> bool)
    requires TotalOrder(le) && AllValid(gs)
    ensures (forall pages :: Regroups(pages, gs) ==> MergeOfPages(pages, le).groups == Merge(gs, le).groups) <==>
              forall k :: Tally(gs, k) <= MAX_SAFE_INTEGER
  {
    if k :| Tally(gs, k) > MAX_SAFE_INTEGER {
      OnePageLoses(gs, le, k);
    } else {
      forall pages | Regroups(pages, gs) ensures MergeOfPages(pages, le).groups == Merge(gs, le).groups {
        RegroupedAlike(pages, gs, le);
      }
    }
  }

  /**
   Past a safe total the homomorphism can fail although every page is safe: three times one
   added to 2^53 - 1 one by one is lost to rounding, three at once is not.
   */
  lemma RoundingBreaksMerge(k: Key, le: (Key, Key) -> bool) returns (pages: seq<seq<Group>>)
    requires ValidKey(k) && TotalOrder(le)
    ensures pages == [[Group(k, MAX_SAFE_INTEGER)], [Group(k, 1), Group(k, 1), Group(k, 1)]] && AllPagesValid(pages)
    ensures Merge(Flat(pages), le).count == TWO_53 && MergeOfPages(pages, le).count == TWO_53 + 2
  {
    var p, q := [Group(k, MAX_SAFE_INTEGER)], [Group(k, 1), Group(k, 1), Group(k, 1)];
    pages := [p] + [q];
    RoundingOneByOne(k);
    MergedAtOnce(k, le);
  }

  lemma MergedAtOnce(k: Key, le: (Key, Key) -> bool)
    requires ValidKey(k)
    ensures MergeOfPages([[Group(k, MAX_SAFE_INTEGER)]] + [[Group(k, 1), Group(k, 1), Group(k, 1)]], le).count
              == TWO_53 + 2
  {
    LargePage(k, le);
    PageOfOnes(k, le);
    RoundingAtOnce(k);
    TwoPagesRead([Group(k, MAX_SAFE_INTEGER)], [Group(k, 1), Group(k, 1), Group(k, 1)], k, MAX_SAFE_INTEGER, 3, le);
  }

  lemma OneMore()
    ensures Add(MAX_SAFE_INTEGER, 1) == TWO_53 && Add(TWO_53, 1) == TWO_53 && Add(MAX_SAFE_INTEGER, 3) == TWO_53 + 2
  {
    assert Ulp(TWO_53 / 2) == 1 && Ulp((TWO_53 + 1) / 2) == 1 && Ulp((TWO_53 + 2) / 2) == 1;
  }

  lemma RoundingOneByOne(k: Key)
    ensures RoundedSum(Flat([[Group(k, MAX_SAFE_INTEGER)]] + [[Group(k, 1), Group(k, 1), Group(k, 1)]])) == TWO_53
  {
    var a, b := Group(k, MAX_SAFE_INTEGER), Group(k, 1);
    FlatAdds([], [a]);
    FlatAdds([[a]], [b, b, b]);
    assert [] + [[a]] == [[a]] && [] + [a] == [a];
    assert [a] + [b, b, b] == ([a] + [b] + [b]) + [b];
    OneMore();
    RoundedExact(MAX_SAFE_INTEGER);
    RoundedSnoc([], a, k);
    RoundedSnoc([a], b, k);
    RoundedSnoc([a] + [b], b, k);
    RoundedSnoc([a] + [b] + [b], b, k);
  }

  lemma {:induction false} FlatAdds(front: seq<seq<Group>>, last: seq<Group>)
    ensures Flat(front + [last]) == Flat(front) + last
  {
    assert (front + [last])[..|front|] == front;
  }

  /** A page that dropped one key only. */
  lemma {:induction false} OneKeyMerge(gs: seq<Group>, k: Key, le: (Key, Key) -> bool)
    requires AllValid(gs) && gs != [] && forall i :: 0 <= i < |gs| ==> gs[i].key == k
    ensures Merge(gs, le).groups == [Group(k, RoundedTally(gs, k))]
  {
    OneKeySorted(gs, k, le);
    assert [k][..0] == [] && RoundedGroups(gs, []) == [];
    assert RoundedGroups(gs, [k]) == RoundedGroups(gs, [k][..0]) + [Group(k, RoundedTally(gs, k))];
  }

  lemma {:induction false} OneKeySorted(gs: seq<Group>, k: Key, le: (Key, Key) -> bool)
    requires gs != [] && forall i :: 0 <= i < |gs| ==> gs[i].key == k
    ensures SortedSet(Keys(gs), le) == [k]
  {
    var front := gs[..|gs| - 1];
    assert Keys(gs)[..|Keys(gs)| - 1] == Keys(front);
    if front != [] {
      OneKeySorted(front, k, le);
    }
  }

  lemma {:induction false} MergesAdd(front: seq<seq<Group>>, last: seq<Group>, k: Key, n: int, le: (Key, Key) -> bool)
    requires Merge(last, le).groups == [Group(k, n)] && ValidGroup(Group(k, n))
    ensures ValidGroups(PageMerges(front + [last], le)) == ValidGroups(PageMerges(front, le)) + [Group(k, n)]
  {
    var g := Group(k, n);
    assert [g][..0] == [] && Objects([g]) == [Object(g)] && [Object(g)][..0] == [] && ValidOf(Objects([g])) == [g];
    PageMergesLength(front, le);
    assert (front + [last])[..|front|] == front;
    assert (PageMerges(front, le) + [Groups(Objects([g]))])[..|front|] == PageMerges(front, le);
  }

  lemma OnePageRead(p: seq<Group>, k: Key, m: int, le: (Key, Key) -> bool)
    requires Merge(p, le).groups == [Group(k, m)] && ValidGroup(Group(k, m))
    ensures ValidGroups(PageMerges([p], le)) == [Group(k, m)]
  {
    MergesAdd([], p, k, m, le);
    assert [] + [p] == [p];
    assert ValidGroups(PageMerges([], le)) == [];
  }

  /** What the next merge reads of two pages that each dropped one key. */
  lemma TwoPagesRead(p: seq<Group>, q: seq<Group>, k: Key, m: int, n: int, le: (Key, Key) -> bool)
    requires Merge(p, le).groups == [Group(k, m)] && Merge(q, le).groups == [Group(k, n)]
    requires ValidGroup(Group(k, m)) && ValidGroup(Group(k, n))
    ensures ValidGroups(PageMerges([p] + [q], le)) == [Group(k, m)] + [Group(k, n)]
  {
    OnePageRead(p, k, m, le);
    MergesAdd([p], q, k, n, le);
  }

  lemma LargePage(k: Key, le: (Key, Key) -> bool)
    requires ValidKey(k)
    ensures Merge([Group(k, MAX_SAFE_INTEGER)], le).groups == [Group(k, MAX_SAFE_INTEGER)]
  {
    OneKeyMerge([Group(k, MAX_SAFE_INTEGER)], k, le);
  }

  lemma PageOfOnes(k: Key, le: (Key, Key) -> bool)
    requires ValidKey(k)
    ensures Merge([Group(k, 1), Group(k, 1), Group(k, 1)], le).groups == [Group(k, 3)]
  {
    TallyOfThree(k);
    OneKeyMerge([Group(k, 1), Group(k, 1), Group(k, 1)], k, le);
  }

  lemma RoundingAtOnce(k: Key)
    ensures RoundedSum([Group(k, MAX_SAFE_INTEGER)] + [Group(k, 3)]) == TWO_53 + 2
  {
    var a, c := Group(k, MAX_SAFE_INTEGER), Group(k, 3);
    OneMore();
    RoundedExact(MAX_SAFE_INTEGER);
    RoundedSnoc([], a, k);
    RoundedSnoc([a], c, k);
    assert [] + [a] == [a];
  }

  lemma {:induction false} TallyOfThree(k: Key)
    ensures RoundedTally([Group(k, 1), Group(k, 1), Group(k, 1)], k) == 3
  {
    var b := Group(k, 1);
    RoundedExact(2);
    RoundedExact(3);
    RoundedSnoc([b], b, k);
    RoundedSnoc([b, b], b, k);
    assert [b] + [b] == [b, b] && [b, b] + [b] == [b, b, b];
  }

  // ---------------------------------------------------------------------
  // The code's own loops
  // ---------------------------------------------------------------------

  /** What the Map under construction says of one key. */
  predicate CountedAt(keys: seq<Key>, counts: map<Key, int>, gs: seq<Group>, k: Key) {
    && (k in counts <==> RoundedTally(gs, k) > 0)
    && (k in counts ==> counts[k] == RoundedTally(gs, k))
    && (k in keys <==> k in counts)
  }

  ghost predicate Counted(keys: seq<Key>, counts: map<Key, int>, gs: seq<Group>) {
    forall k :: CountedAt(keys, counts, gs, k)
  }

  /** One group enters the Map: its count is added to its key's, which is new or already there. */
  method AddGroup(g: Group, keys0: seq<Key>, counts0: map<Key, int>, ghost seen: seq<Group>)
    returns (keys: seq<Key>, counts: map<Key, int>)
    requires Counted(keys0, counts0, seen) && AllValid(seen) && ValidGroup(g)
    ensures Counted(keys, counts, seen + [g])
  {
    keys := keys0;
    if g.key in counts0 {
      counts := counts0[g.key := Add(counts0[g.key], g.count)];
    } else {
      counts, keys := counts0[g.key := g.count], keys + [g.key];
    }
    assert CountedAt(keys0, counts0, seen, g.key);
    RoundedExact(g.count);
    forall k ensures CountedAt(keys, counts, seen + [g], k) {
      assert CountedAt(keys0, counts0, seen, k);
      RoundedTallyPositive(seen, k);
      RoundedTallyPositive(seen + [g], k);
      RoundedSnoc(seen, g, k);
    }
  }

  /** The inner loop: one `groups` array enters the Map. */
  method CollectGroups(candidates: seq<Candidate>, keys0: seq<Key>, counts0: map<Key, int>, count0: int,
      ghost seen0: seq<Group>)
    returns (keys: seq<Key>, counts: map<Key, int>, count: int)
    requires Counted(keys0, counts0, seen0) && AllValid(seen0) && count0 == RoundedSum(seen0)
    ensures var seen := seen0 + ValidOf(candidates);
            Counted(keys, counts, seen) && AllValid(seen) && count == RoundedSum(seen)
  {
    keys, counts, count := keys0, counts0, count0;
    ghost var seen := seen0;
    for i := 0 to |candidates|
      invariant seen == seen0 + ValidOf(candidates[..i]) && AllValid(seen)
      invariant Counted(keys, counts, seen) && count == RoundedSum(seen)
    {
      assert candidates[..i + 1][..i] == candidates[..i];
      if candidates[i].Object? && ValidGroup(candidates[i].group) {
        keys, counts := AddGroup(candidates[i].group, keys, counts, seen);
        count := Add(count, candidates[i].group.count);
        seen := seen + [candidates[i].group];
      }
    }
    assert candidates[..|candidates|] == candidates;
  }

  /** The Map's values in order. */
  method SortedGroups(keys: seq<Key>, counts: map<Key, int>, le: (Key, Key) -> bool, ghost seen: seq<Group>)
    returns (groups: seq<Group>)
    requires TotalOrder(le) && Counted(keys, counts, seen) && AllValid(seen)
    ensures groups == RoundedGroups(seen, SortedSet(Keys(seen), le))
  {
    var sorted := SortedSet(keys, le);
    forall k ensures k in Elements(keys) <==> k in Elements(Keys(seen)) {
      assert CountedAt(keys, counts, seen, k);
      RoundedTallyPositive(seen, k);
    }
    SortedSetCanonical(keys, Keys(seen), le);
    SortedSetElements(keys, le);
    groups := [];
    for i := 0 to |sorted|
      invariant groups == RoundedGroups(seen, sorted[..i])
    {
      assert sorted[..i + 1][..i] == sorted[..i];
      assert sorted[i] in Elements(sorted) && CountedAt(keys, counts, seen, sorted[i]);
      groups := groups + [Group(sorted[i], counts[sorted[i]])];
    }
    assert sorted[..|sorted|] == sorted;
  }

  /** `mergeDroppedLabels`: malformed summaries and groups are skipped, everything else is merged. */
  method MergeDroppedLabels(summaries: seq<Candidates>, le: (Key, Key) -> bool) returns (r: Summary)
    requires TotalOrder(le)
    ensures r == Merge(ValidGroups(summaries), le)
  {
    var keys: seq<Key>, counts: map<Key, int> := [], map[];
    var count := 0;
    ghost var seen: seq<Group> := [];
    for i := 0 to |summaries|
      invariant seen == ValidGroups(summaries[..i]) && AllValid(seen)
      invariant Counted(keys, counts, seen) && count == RoundedSum(seen)
    {
      assert summaries[..i + 1][..i] == summaries[..i];
      if summaries[i].Groups? {
        keys, counts, count := CollectGroups(summaries[i].candidates, keys, counts, count, seen);
        seen := seen + ValidOf(summaries[i].candidates);
      }
    }
    assert summaries[..|summaries|] == summaries;
    var groups := SortedGroups(keys, counts, le, seen);
    r := Summary(count, groups);
  }
}
