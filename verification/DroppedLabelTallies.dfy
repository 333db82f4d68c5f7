/**
 Dropped-label groups (worker/handlers/moboreader.ts) and how often each key was dropped, in
 exact integers.  A summary may be anything a JSON column holds; only well-formed groups
 count.  `le` is the order the groups are sorted by: kind, then length, then digest.
 */
module DroppedLabelTallies {
  import opened Doubles
  import opened Sequences
  import opened SortedSets

  /** What identifies a group. */
  datatype Key = Key(kind: string, length: int, sha256: string)

  datatype Group = Group(key: Key, count: int)

  /** An element of a `groups` array: an object with the right field types, or something else. */
  datatype Candidate = Object(group: Group) | Other

  /** An element of the argument: an object with a `groups` array, or something else. */
  datatype Candidates = Groups(candidates: seq<Candidate>) | NotASummary

  datatype Summary = Summary(count: int, groups: seq<Group>)

  predicate IsKind(kind: string) {
    kind == "series_type" || kind == "recommend" || kind == "language" || kind == "agency"
  }

  predicate IsDigest(s: string) {
    |s| == 64 && forall c <- s :: 'a' <= c <= 'f' || '0' <= c <= '9'
  }

  predicate ValidKey(k: Key) {
    IsKind(k.kind) && 0 <= k.length <= MAX_SAFE_INTEGER && IsDigest(k.sha256)
  }

  predicate ValidGroup(g: Group) {
    ValidKey(g.key) && 1 <= g.count <= MAX_SAFE_INTEGER
  }

  /** The well-formed groups of one `groups` array, in order. */
  function ValidOf(cs: seq<Candidate>): seq<Group> {
    if cs == [] then []
    else ValidOf(cs[..|cs| - 1]) +
         (if cs[|cs| - 1].Object? && ValidGroup(cs[|cs| - 1].group) then [cs[|cs| - 1].group] else [])
  }

  /** All well-formed groups of the argument. */
  function ValidGroups(xs: seq<Candidates>): seq<Group> {
    if xs == [] then []
    else ValidGroups(xs[..|xs| - 1]) + (if xs[|xs| - 1].Groups? then ValidOf(xs[|xs| - 1].candidates) else [])
  }

  /** How often `k` was dropped. */
  function Tally(gs: seq<Group>, k: Key): int {
    if gs == [] then 0
    else Tally(gs[..|gs| - 1], k) + (if gs[|gs| - 1].key == k then gs[|gs| - 1].count else 0)
  }

  function Sum(gs: seq<Group>): int {
    if gs == [] then 0 else Sum(gs[..|gs| - 1]) + gs[|gs| - 1].count
  }

  function Keys(gs: seq<Group>): seq<Key> {
    if gs == [] then [] else Keys(gs[..|gs| - 1]) + [gs[|gs| - 1].key]
  }

  function Grouped(gs: seq<Group>, ks: seq<Key>): seq<Group> {
    if ks == [] then [] else Grouped(gs, ks[..|ks| - 1]) + [Group(ks[|ks| - 1], Tally(gs, ks[|ks| - 1]))]
  }

  /** One group per key, sorted, with its tally; and the total. */
  function ExactMerge(gs: seq<Group>, le: (Key, Key) -> bool): Summary {
    Summary(Sum(gs), Grouped(gs, SortedSet(Keys(gs), le)))
  }

  predicate AllPositive(gs: seq<Group>) {
    forall i :: 0 <= i < |gs| ==> 1 <= gs[i].count
  }

  // ---------------------------------------------------------------------
  // What a merge says
  // ---------------------------------------------------------------------

  lemma {:induction false} GroupedAt(gs: seq<Group>, ks: seq<Key>)
    ensures |Grouped(gs, ks)| == |ks|
    ensures forall i :: 0 <= i < |ks| ==> Grouped(gs, ks)[i] == Group(ks[i], Tally(gs, ks[i]))
  {
    if ks != [] {
      GroupedAt(gs, ks[..|ks| - 1]);
    }
  }

  lemma {:induction false} GroupedMember(gs: seq<Group>, ks: seq<Key>, k: Key, n: int)
    ensures Group(k, n) in Grouped(gs, ks) <==> k in ks && n == Tally(gs, k)
  {
    GroupedAt(gs, ks);
    if k in ks && n == Tally(gs, k) {
      var i :| 0 <= i < |ks| && ks[i] == k;
      assert Grouped(gs, ks)[i] == Group(k, n);
    }
  }

  lemma {:induction false} TallyPositive(gs: seq<Group>, k: Key)
    requires AllPositive(gs)
    ensures 0 <= Tally(gs, k) && (Tally(gs, k) > 0 <==> k in Keys(gs))
  {
    if gs != [] {
      TallyPositive(gs[..|gs| - 1], k);
    }
  }

  /** Tallies over a list of keys. */
  function SumOver(gs: seq<Group>, ks: seq<Key>): int {
    if ks == [] then 0 else SumOver(gs, ks[..|ks| - 1]) + Tally(gs, ks[|ks| - 1])
  }

  lemma {:induction false} SumOverSnoc(gs: seq<Group>, g: Group, ks: seq<Key>)
    requires Distinct(ks)
    ensures SumOver(gs + [g], ks) == SumOver(gs, ks) + (if g.key in ks then g.count else 0)
  {
    if ks != [] {
      var front, last := ks[..|ks| - 1], ks[|ks| - 1];
      SumOverSnoc(gs, g, front);
      assert (gs + [g])[..|gs|] == gs;
      assert ks == front + [last];
      assert last !in front;
    }
  }

  lemma {:induction false} SumOverNothing(ks: seq<Key>)
    ensures SumOver([], ks) == 0
  {
    if ks != [] {
      SumOverNothing(ks[..|ks| - 1]);
    }
  }

  lemma {:induction false} SumOverAll(gs: seq<Group>, ks: seq<Key>)
    requires Distinct(ks) && forall k :: k in Keys(gs) ==> k in ks
    ensures SumOver(gs, ks) == Sum(gs)
  {
    if gs == [] {
      SumOverNothing(ks);
    } else {
      var front, last := gs[..|gs| - 1], gs[|gs| - 1];
      assert last.key in Keys(gs);
      SumOverAll(front, ks);
      SumOverSnoc(front, last, ks);
      assert gs == front + [last];
    }
  }

  lemma {:induction false} SumGrouped(gs: seq<Group>, ks: seq<Key>)
    ensures Sum(Grouped(gs, ks)) == SumOver(gs, ks)
  {
    if ks != [] {
      SumGrouped(gs, ks[..|ks| - 1]);
    }
  }

  lemma {:induction false} SortedKeys(gs: seq<Group>, le: (Key, Key) -> bool)
    requires TotalOrder(le)
    ensures var ks := SortedSet(Keys(gs), le);
            StrictlySorted(ks, le) && Distinct(ks) && Elements(ks) == Elements(Keys(gs))
  {
    SortedSetSorted(Keys(gs), le);
    SortedSetElements(Keys(gs), le);
  }

  /** A merge holds exactly one group per dropped key, with how often it was dropped. */
  lemma {:induction false} ExactGroups(gs: seq<Group>, le: (Key, Key) -> bool, k: Key, n: int)
    requires TotalOrder(le) && AllPositive(gs)
    ensures Group(k, n) in ExactMerge(gs, le).groups <==> n == Tally(gs, k) && n > 0
  {
    var ks := SortedSet(Keys(gs), le);
    GroupedMember(gs, ks, k, n);
    SortedKeys(gs, le);
    TallyPositive(gs, k);
    assert k in ks <==> k in Elements(ks);
    assert k in Keys(gs) <==> k in Elements(Keys(gs));
  }

  /** The total is the sum of the groups' counts, and the keys are unique and sorted. */
  lemma ExactTotal(gs: seq<Group>, le: (Key, Key) -> bool)
    requires TotalOrder(le) && AllPositive(gs)
    ensures var r := ExactMerge(gs, le);
            && Sum(r.groups) == r.count
            && forall i, j :: 0 <= i < j < |r.groups| ==>
                 le(r.groups[i].key, r.groups[j].key) && r.groups[i].key != r.groups[j].key
  {
    var ks := SortedSet(Keys(gs), le);
    SortedKeys(gs, le);
    GroupedAt(gs, ks);
    forall k | k in Keys(gs) ensures k in ks { assert k in Elements(Keys(gs)); }
    SumOverAll(gs, ks);
    SumGrouped(gs, ks);
  }

  /** Every key was dropped equally often. */
  ghost predicate SameTallies(gs: seq<Group>, hs: seq<Group>) {
    forall k :: Tally(gs, k) == Tally(hs, k)
  }

  lemma {:induction false} GroupedSame(gs: seq<Group>, hs: seq<Group>, ks: seq<Key>)
    requires SameTallies(gs, hs)
    ensures Grouped(gs, ks) == Grouped(hs, ks)
  {
    if ks != [] {
      GroupedSame(gs, hs, ks[..|ks| - 1]);
    }
  }

  lemma SameTalliesMergeAlike(gs: seq<Group>, hs: seq<Group>, le: (Key, Key) -> bool)
    requires TotalOrder(le) && AllPositive(gs) && AllPositive(hs)
    requires SameTallies(gs, hs)
    ensures ExactMerge(gs, le) == ExactMerge(hs, le)
  {
    forall k ensures k in Elements(Keys(gs)) <==> k in Elements(Keys(hs)) {
      TallyPositive(gs, k);
      TallyPositive(hs, k);
    }
    SortedSetCanonical(Keys(gs), Keys(hs), le);
    GroupedSame(gs, hs, SortedSet(Keys(gs), le));
    ExactTotal(gs, le);
    ExactTotal(hs, le);
  }

  /** Two inputs merge alike exactly when every key was dropped equally often. */
  lemma ExactCanonical(gs: seq<Group>, hs: seq<Group>, le: (Key, Key) -> bool)
    requires TotalOrder(le) && AllPositive(gs) && AllPositive(hs)
    ensures ExactMerge(gs, le) == ExactMerge(hs, le) <==> SameTallies(gs, hs)
  {
    if SameTallies(gs, hs) {
      SameTalliesMergeAlike(gs, hs, le);
    }
    if ExactMerge(gs, le) == ExactMerge(hs, le) {
      forall k ensures Tally(gs, k) == Tally(hs, k) {
        TallyPositive(gs, k);
        TallyPositive(hs, k);
        ExactGroups(gs, le, k, Tally(gs, k));
        ExactGroups(hs, le, k, Tally(gs, k));
        ExactGroups(gs, le, k, Tally(hs, k));
        ExactGroups(hs, le, k, Tally(hs, k));
      }
    }
  }

  // ---------------------------------------------------------------------
  // Concatenation, order and reading back
  // ---------------------------------------------------------------------

  lemma {:induction false} TallyAppend(gs: seq<Group>, hs: seq<Group>, k: Key)
    ensures Tally(gs + hs, k) == Tally(gs, k) + Tally(hs, k)
  {
    if hs == [] {
      assert gs + hs == gs;
    } else {
      TallyAppend(gs, hs[..|hs| - 1], k);
      assert (gs + hs)[..|gs + hs| - 1] == gs + hs[..|hs| - 1];
    }
  }

  lemma {:induction false} TallyWithout(hs: seq<Group>, i: nat, k: Key)
    requires i < |hs|
    ensures Tally(hs, k) == Tally(hs[..i] + hs[i + 1..], k) + Tally([hs[i]], k)
  {
    assert hs == hs[..i] + ([hs[i]] + hs[i + 1..]);
    TallyAppend(hs[..i], [hs[i]] + hs[i + 1..], k);
    TallyAppend([hs[i]], hs[i + 1..], k);
    TallyAppend(hs[..i], hs[i + 1..], k);
  }

  lemma MatchFirst<T>(gs: seq<T>, hs: seq<T>) returns (i: nat)
    requires gs != [] && multiset(gs) == multiset(hs)
    ensures i < |hs| && hs[i] == gs[0] && multiset(gs[1..]) == multiset(hs[..i] + hs[i + 1..])
  {
    assert gs[0] in multiset(hs);
    i :| 0 <= i < |hs| && hs[i] == gs[0];
    assert gs == [gs[0]] + gs[1..];
    assert hs == hs[..i] + ([hs[i]] + hs[i + 1..]);
    assert multiset(gs[1..]) == multiset(gs) - multiset{gs[0]};
    assert multiset(hs[..i] + hs[i + 1..]) == multiset(hs) - multiset{hs[i]};
  }

  lemma {:induction false} TallyOfMultiset(gs: seq<Group>, hs: seq<Group>, k: Key)
    requires multiset(gs) == multiset(hs)
    ensures Tally(gs, k) == Tally(hs, k)
    decreases |gs|
  {
    if gs == [] {
      assert |hs| == |multiset(hs)|;
    } else {
      var i := MatchFirst(gs, hs);
      TallyOfMultiset(gs[1..], hs[..i] + hs[i + 1..], k);
      TallyWithout(gs, 0, k);
      TallyWithout(hs, i, k);
      assert gs[..0] + gs[1..] == gs[1..];
    }
  }

  /** A merged summary as the next merge finds it. */
  function Objects(gs: seq<Group>): seq<Candidate> {
    if gs == [] then [] else Objects(gs[..|gs| - 1]) + [Object(gs[|gs| - 1])]
  }

  /** All groups of all pages at once. */
  function Flat(pages: seq<seq<Group>>): seq<Group> {
    if pages == [] then [] else Flat(pages[..|pages| - 1]) + pages[|pages| - 1]
  }

  predicate AllValid(gs: seq<Group>) {
    forall i :: 0 <= i < |gs| ==> ValidGroup(gs[i])
  }

  lemma {:induction false} ObjectsSnoc(rs: seq<Group>, g: Group, k: Key)
    ensures Tally(ValidOf(Objects(rs + [g])), k) ==
              Tally(ValidOf(Objects(rs)), k) + (if ValidGroup(g) && g.key == k then g.count else 0)
  {
    assert (rs + [g])[..|rs|] == rs;
    assert Objects(rs + [g]) == Objects(rs) + [Object(g)];
    assert (Objects(rs) + [Object(g)])[..|Objects(rs)|] == Objects(rs);
    var rest := if ValidGroup(g) then [g] else [];
    TallyAppend(ValidOf(Objects(rs)), rest, k);
  }

  lemma {:induction false} KeysValid(gs: seq<Group>)
    requires AllValid(gs)
    ensures forall k :: k in Keys(gs) ==> ValidKey(k)
  {
    if gs != [] {
      KeysValid(gs[..|gs| - 1]);
    }
  }

  predicate AllPagesValid(pages: seq<seq<Group>>) {
    forall p :: 0 <= p < |pages| ==> AllValid(pages[p])
  }

  lemma {:induction false} ValidOfValid(cs: seq<Candidate>)
    ensures AllValid(ValidOf(cs))
  {
    if cs != [] {
      ValidOfValid(cs[..|cs| - 1]);
    }
  }

  lemma {:induction false} ValidGroupsValid(xs: seq<Candidates>)
    ensures AllValid(ValidGroups(xs))
  {
    if xs != [] {
      ValidGroupsValid(xs[..|xs| - 1]);
      if xs[|xs| - 1].Groups? { ValidOfValid(xs[|xs| - 1].candidates); }
    }
  }

  lemma {:induction false} FlatValid(pages: seq<seq<Group>>)
    requires AllPagesValid(pages)
    ensures AllValid(Flat(pages))
  {
    if pages != [] {
      FlatValid(pages[..|pages| - 1]);
    }
  }
}
