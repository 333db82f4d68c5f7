/**
 Recovery of a catalog gap under a pinned fingerprint: the gap computed by the operator's
 script (scripts/catalog-finalize-recovery.ts) and the recovery page the worker runs
 (worker/handlers/moboreader.ts).  `le` is the order of the JSON keys and `hash` the digest.
 */
module CatalogRecovery {
  import opened Sequences
  import opened SortedSets
  import opened SourceTable

  datatype Digest = Digest(value: string)

  /** The two functions taken as given. */
  datatype Oracle = Oracle(le: (Identity, Identity) -> bool, hash: seq<Identity> -> Digest)

  ghost predicate ValidOracle(o: Oracle) {
    && TotalOrder(o.le)
    && forall xs, ys {:trigger o.hash(xs), o.hash(ys)} :: o.hash(xs) == o.hash(ys) ==> xs == ys
  }

  function Normalize(ids: seq<Identity>, o: Oracle): seq<Identity> {
    SortedSet(ids, o.le)
  }

  function Fingerprint(ids: seq<Identity>, o: Oracle): Digest {
    o.hash(Normalize(ids, o))
  }

  predicate WellNamed(id: Identity) {
    id.bookId != "" && id.language != ""
  }

  /**
   The Map keeps the first position of each key; sorting its entries gives the normal form.
   An identity with an empty part is rejected.
   */
  method NormalizedRecoveryIdentities(ids: seq<Identity>, o: Oracle) returns (ok: bool, r: seq<Identity>)
    requires ValidOracle(o)
    ensures ok == forall id <- ids :: WellNamed(id)
    ensures ok ==> r == Normalize(ids, o) && StrictlySorted(r, o.le) && Elements(r) == Elements(ids)
  {
    r := [];
    var unique: seq<Identity> := [];
    for i := 0 to |ids|
      invariant Elements(unique) == Elements(ids[..i]) && Distinct(unique)
      invariant forall j :: 0 <= j < i ==> WellNamed(ids[j])
    {
      if ids[i].bookId == "" || ids[i].language == "" {
        assert !WellNamed(ids[i]);
        return false, [];
      }
      assert ids[..i + 1] == ids[..i] + [ids[i]];
      ElementsSnoc(ids[..i], ids[i]);
      ElementsSnoc(unique, ids[i]);
      if ids[i] !in unique {
        unique := unique + [ids[i]];
      } else {
        assert ids[i] in Elements(unique);
      }
    }
    assert ids[..|ids|] == ids;
    ok := true;
    r := SortedSet(unique, o.le);
    SortedSetCanonical(unique, ids, o.le);
    SortedSetSorted(unique, o.le);
    SortedSetElements(unique, o.le);
  }

  /** The fingerprint depends on the identity set alone: order and repetition do not matter, nothing else collides. */
  lemma FingerprintOfSet(xs: seq<Identity>, ys: seq<Identity>, o: Oracle)
    requires ValidOracle(o)
    ensures Fingerprint(xs, o) == Fingerprint(ys, o) <==> Elements(xs) == Elements(ys)
    ensures Normalize(Normalize(xs, o), o) == Normalize(xs, o)
    ensures Fingerprint(Normalize(xs, o), o) == Fingerprint(xs, o)
  {
    SortedSetCanonical(xs, ys, o.le);
  }

  // ---------------------------------------------------------------------
  // The gap and the recovery page
  // ---------------------------------------------------------------------

  /** Upstream identities that have no row. */
  function Gap(t: Table, items: seq<Book>): seq<Identity> {
    if items == [] then []
    else Gap(t, items[..|items| - 1]) +
         (if items[|items| - 1].identity in t.rows then [] else [items[|items| - 1].identity])
  }

  function StillMissing(t: Table, ids: seq<Identity>): seq<Identity> {
    if ids == [] then []
    else StillMissing(t, ids[..|ids| - 1]) + (if ids[|ids| - 1] in t.rows then [] else [ids[|ids| - 1]])
  }

  function Selected(items: seq<Book>, wanted: set<Identity>): seq<Book> {
    if items == [] then []
    else Selected(items[..|items| - 1], wanted) +
         (if items[|items| - 1].identity in wanted then [items[|items| - 1]] else [])
  }

  datatype Check = GapDrift | UpstreamDrift | Approved(books: seq<Book>)

  /** The checks the worker makes before it persists a recovery page. */
  function CheckRecovery(t: Table, approved: seq<Identity>, gap: Digest, items: seq<Book>, o: Oracle): Check {
    var still := StillMissing(t, approved);
    var books := Selected(items, Elements(still));
    if Fingerprint(still, o) != gap then GapDrift
    else if |books| != |still| then UpstreamDrift
    else Approved(books)
  }

  /** A payload the worker accepts: normalized identities under their own fingerprint. */
  predicate ValidPayload(approved: seq<Identity>, gap: Digest, o: Oracle) {
    approved == Normalize(approved, o) && approved != [] && Fingerprint(approved, o) == gap
  }

  lemma {:induction false} StillMissingElements(t: Table, ids: seq<Identity>)
    ensures Elements(StillMissing(t, ids)) == Elements(ids) - t.rows.Keys
  {
    if ids != [] {
      var front, last := ids[..|ids| - 1], ids[|ids| - 1];
      StillMissingElements(t, front);
      ElementsSnoc(front, last);
      ElementsSnoc(StillMissing(t, front), last);
      assert StillMissing(t, front) + [] == StillMissing(t, front);
      assert ids == front + [last];
    }
  }

  lemma {:induction false} AllStillMissing(t: Table, ids: seq<Identity>)
    requires Elements(ids) !! t.rows.Keys
    ensures StillMissing(t, ids) == ids
  {
    if ids != [] {
      var front, last := ids[..|ids| - 1], ids[|ids| - 1];
      assert ids == front + [last];
      ElementsSnoc(front, last);
      AllStillMissing(t, front);
      assert last in Elements(ids);
    }
  }

  lemma {:induction false} GapElements(t: Table, items: seq<Book>)
    ensures Elements(Gap(t, items)) == Identities(items) - t.rows.Keys
  {
    if items == [] {
      assert Identities(items) == {};
    } else {
      var front, last := items[..|items| - 1], items[|items| - 1];
      GapElements(t, front);
      ElementsSnoc(Gap(t, front), last.identity);
      assert Gap(t, front) + [] == Gap(t, front);
      assert items == front + [last];
    }
  }

  lemma {:induction false} SelectedIdentities(items: seq<Book>, wanted: set<Identity>)
    ensures Identities(Selected(items, wanted)) == Identities(items) * wanted
  {
    if items == [] {
      assert Identities(items) == {};
    } else {
      var front, last := items[..|items| - 1], items[|items| - 1];
      SelectedIdentities(front, wanted);
      assert items == front + [last];
      assert Identities(items) * wanted == Identities(front) * wanted
                                             + (if last.identity in wanted then {last.identity} else {});
    }
  }

  function IdentitySeq(books: seq<Book>): seq<Identity> {
    seq(|books|, i requires 0 <= i < |books| => books[i].identity)
  }

  predicate DistinctBooks(books: seq<Book>) {
    forall i, j :: 0 <= i < j < |books| ==> books[i].identity != books[j].identity
  }

  lemma IdentitySeqElements(books: seq<Book>)
    ensures Elements(IdentitySeq(books)) == Identities(books)
  {
    forall x ensures x in Elements(IdentitySeq(books)) <==> x in Identities(books) {
      if x in Identities(books) {
        var i :| 0 <= i < |books| && books[i].identity == x;
        assert IdentitySeq(books)[i] == x;
      }
    }
  }

  lemma DistinctBooksCount(books: seq<Book>)
    ensures DistinctBooks(books) <==> |Identities(books)| == |books|
  {
    var ids := IdentitySeq(books);
    IdentitySeqElements(books);
    DistinctCount(ids);
    assert forall i :: 0 <= i < |books| ==> ids[i] == books[i].identity;
    assert Distinct(ids) <==> DistinctBooks(books);
  }

  lemma PayloadLength(approved: seq<Identity>, gap: Digest, o: Oracle)
    requires ValidOracle(o) && ValidPayload(approved, gap, o)
    ensures |approved| == |Elements(approved)|
  {
    SortedSetSorted(approved, o.le);
    DistinctCount(approved);
  }

  /** The pinned fingerprint matches only while nothing approved has a row. */
  lemma {:induction false} NoDrift(t: Table, approved: seq<Identity>, gap: Digest, o: Oracle)
    requires ValidOracle(o) && ValidPayload(approved, gap, o)
    ensures Fingerprint(StillMissing(t, approved), o) == gap <==> Elements(approved) !! t.rows.Keys
    ensures Elements(approved) !! t.rows.Keys ==> StillMissing(t, approved) == approved
  {
    FingerprintOfSet(StillMissing(t, approved), approved, o);
    StillMissingElements(t, approved);
    if Elements(approved) !! t.rows.Keys {
      AllStillMissing(t, approved);
    }
  }

  /** Positions of the items whose identity is wanted. */
  function WantedAt(items: seq<Book>, wanted: set<Identity>): set<nat> {
    set i: nat | i < |items| && items[i].identity in wanted
  }

  /** `at` lists in increasing order the positions of the wanted items, and `books` holds them. */
  ghost predicate SelectedAt(at: seq<nat>, books: seq<Book>, items: seq<Book>, wanted: set<Identity>) {
    && |at| == |books| && (forall k, l :: 0 <= k < l < |at| ==> at[k] < at[l])
    && (forall k :: 0 <= k < |at| ==> at[k] < |items| && books[k] == items[at[k]])
    && (forall i: nat :: i in at <==> i < |items| && items[i].identity in wanted)
  }

  lemma WantedSnoc(items: seq<Book>, book: Book, wanted: set<Identity>)
    ensures |WantedAt(items + [book], wanted)| == |WantedAt(items, wanted)| + (if book.identity in wanted then 1 else 0)
  {
    var all := items + [book];
    assert forall i :: 0 <= i < |items| ==> all[i] == items[i];
    assert all[|items|] == book;
    assert WantedAt(all, wanted) == WantedAt(items, wanted) + (if book.identity in wanted then {|items|} else {});
  }

  lemma SelectedSnoc(at: seq<nat>, books: seq<Book>, items: seq<Book>, book: Book, wanted: set<Identity>)
    requires SelectedAt(at, books, items, wanted)
    ensures if book.identity in wanted then SelectedAt(at + [|items|], books + [book], items + [book], wanted)
            else SelectedAt(at, books, items + [book], wanted)
  {
    forall k | 0 <= k < |at| ensures at[k] < |items| && (items + [book])[at[k]] == items[at[k]] {
    }
  }

  /** The selection keeps exactly the wanted items, in order and as often as they occur. */
  lemma SelectedInOrder(items: seq<Book>, wanted: set<Identity>) returns (at: seq<nat>)
    ensures SelectedAt(at, Selected(items, wanted), items, wanted)
    ensures |Selected(items, wanted)| == |WantedAt(items, wanted)|
  {
    if items == [] {
      at := [];
      assert WantedAt(items, wanted) == {};
      return;
    }
    var front, last := items[..|items| - 1], items[|items| - 1];
    assert items == front + [last];
    at := SelectedInOrder(front, wanted);
    WantedSnoc(front, last, wanted);
    SelectedSnoc(at, Selected(front, wanted), front, last, wanted);
    if last.identity in wanted {
      at := at + [|front|];
    }
  }

  /**
   The outcome of the checks in terms of the table and the page: the gap has drifted exactly when
   an approved identity has a row by now, and the upstream exactly when it has not and the number
   of approved items on the page is not the number approved; otherwise those items go on.
   */
  lemma {:induction false} ChecksInFull(t: Table, approved: seq<Identity>, gap: Digest, items: seq<Book>, o: Oracle)
    requires ValidOracle(o) && ValidPayload(approved, gap, o)
    ensures var check := CheckRecovery(t, approved, gap, items, o);
            var drifted := exists id :: id in approved && id in t.rows;
            var found := |WantedAt(items, Elements(approved))|;
            && (check == GapDrift <==> drifted)
            && (check == UpstreamDrift <==> !drifted && found != |approved|)
            && (check.Approved? <==> !drifted && found == |approved|)
            && (check.Approved? ==> check.books == Selected(items, Elements(approved)))
  {
    NoDrift(t, approved, gap, o);
    var at := SelectedInOrder(items, Elements(approved));
    assert Elements(approved) !! t.rows.Keys <==> !(exists id :: id in approved && id in t.rows) by {
      if id :| id in approved && id in t.rows {
        assert id in Elements(approved) && id in t.rows.Keys;
      }
    }
  }

  /** What the checks establish: nothing approved exists yet, and as many approved books go on as were approved. */
  lemma ApprovedBooks(t: Table, approved: seq<Identity>, gap: Digest, items: seq<Book>, o: Oracle)
    requires ValidOracle(o) && ValidPayload(approved, gap, o)
    requires CheckRecovery(t, approved, gap, items, o).Approved?
    ensures var books := CheckRecovery(t, approved, gap, items, o).books;
            && Elements(approved) !! t.rows.Keys
            && Identities(books) <= Elements(approved)
            && |books| == |approved| == |Elements(approved)|
  {
    NoDrift(t, approved, gap, o);
    SelectedIdentities(items, Elements(approved));
    PayloadLength(approved, gap, o);
  }

  /** As many books as approved identities, all approved: they cover the approval exactly when they are distinct. */
  lemma CoversIffDistinct(books: seq<Book>, approved: set<Identity>)
    requires Identities(books) <= approved && |books| == |approved|
    ensures Identities(books) == approved <==> DistinctBooks(books)
  {
    DistinctBooksCount(books);
    SubsetOfSameSize(Identities(books), approved);
  }

  /**
   A recovery page that passes its checks changes no existing row and adds approved
   identities only, whatever the table has become by the time it writes.  It closes the
   whole approved gap exactly when the upstream items it selected are distinct.
   */
  lemma {:induction false} RecoveryPageExact(t: Table, approved: seq<Identity>, gap: Digest, items: seq<Book>,
      o: Oracle, later: Table)
    requires ValidOracle(o) && ValidPayload(approved, gap, o) && FreshIds(later)
    requires CheckRecovery(t, approved, gap, items, o).Approved?
    ensures var books := CheckRecovery(t, approved, gap, items, o).books;
            var after := PersistBooks(later, books, true);
            && Extends(later, after)
            && after.table.rows.Keys - later.rows.Keys <= Elements(approved)
            && (DistinctBooks(books) ==> Elements(approved) <= after.table.rows.Keys)
            && (DistinctBooks(books) <==> Elements(approved) <= PersistBooks(t, books, true).table.rows.Keys)
  {
    var books := CheckRecovery(t, approved, gap, items, o).books;
    ApprovedBooks(t, approved, gap, items, o);
    CoversIffDistinct(books, Elements(approved));
    RecoveryPagePersists(later, books);
    PersistedKeys(later, books, true);
    PersistedKeys(t, books, true);
  }

  lemma SubsetOfSameSize<T>(small: set<T>, large: set<T>)
    requires small <= large
    ensures |small| == |large| <==> small == large
  {
    assert large == small + (large - small);
  }

  lemma {:induction false} SelectedDistinct(items: seq<Book>, wanted: set<Identity>)
    requires DistinctBooks(items)
    ensures DistinctBooks(Selected(items, wanted))
  {
    if items != [] {
      var front, last := items[..|items| - 1], items[|items| - 1];
      SelectedDistinct(front, wanted);
      SelectedIdentities(front, wanted);
      var books := Selected(front, wanted);
      forall i | 0 <= i < |books| ensures books[i].identity != last.identity {
        assert books[i].identity in Identities(books);
        var j :| 0 <= j < |front| && front[j].identity == books[i].identity;
        assert items[j].identity != items[|items| - 1].identity;
      }
    }
  }

  /** The operator's fingerprint of a gap is the fingerprint of its normal form. */
  lemma GapPayload(gap: seq<Identity>, o: Oracle)
    requires ValidOracle(o) && gap != []
    ensures ValidPayload(Normalize(gap, o), Fingerprint(gap, o), o) && Elements(Normalize(gap, o)) == Elements(gap)
  {
    FingerprintOfSet(gap, gap, o);
    SortedSetElements(gap, o.le);
    EmptyElements(gap);
    EmptyElements(Normalize(gap, o));
  }

  /** The checks do not notice a page that repeats one approved item in place of another. */
  lemma RepeatedItemHidesGap(a: Identity, b: Identity, o: Oracle)
    requires ValidOracle(o) && a != b
    ensures var t := Table(map[], 0);
            var items := [Book(a, ""), Book(a, "")];
            var approved := Normalize([a, b], o);
            var check := CheckRecovery(t, approved, Fingerprint([a, b], o), items, o);
            && ValidPayload(approved, Fingerprint([a, b], o), o) && check == Approved(items)
            && b in Elements(approved) && b !in PersistBooks(t, items, true).table.rows
  {
    var t := Table(map[], 0);
    var items := [Book(a, ""), Book(a, "")];
    var approved := Normalize([a, b], o);
    GapPayload([a, b], o);
    assert Elements([a, b]) == {a, b};
    NoDrift(t, approved, Fingerprint([a, b], o), o);
    PayloadLength(approved, Fingerprint([a, b], o), o);
    assert items[..1] == [Book(a, "")] && items[..1][..0] == [];
    assert Selected(items[..1], {a, b}) == [Book(a, "")];
    assert Selected(items, {a, b}) == items;
    PersistedKeys(t, items, true);
  }

  lemma {:induction false} SelectedCovers(items: seq<Book>, wanted: set<Identity>)
    requires DistinctBooks(items) && wanted <= Identities(items)
    ensures Identities(Selected(items, wanted)) == wanted && |Selected(items, wanted)| == |wanted|
  {
    SelectedIdentities(items, wanted);
    SelectedDistinct(items, wanted);
    DistinctBooksCount(Selected(items, wanted));
    assert Identities(items) * wanted == wanted;
  }

  /** Distinct upstream items that include the approval pass the checks and cover it. */
  lemma {:induction false} DistinctItemsPass(t: Table, approved: seq<Identity>, gap: Digest, items: seq<Book>,
        o: Oracle)
    requires ValidOracle(o) && ValidPayload(approved, gap, o) && DistinctBooks(items)
    requires Elements(approved) <= Identities(items) && Elements(approved) !! t.rows.Keys
    ensures CheckRecovery(t, approved, gap, items, o) == Approved(Selected(items, Elements(approved)))
    ensures Identities(Selected(items, Elements(approved))) == Elements(approved)
  {
    NoDrift(t, approved, gap, o);
    SelectedCovers(items, Elements(approved));
    PayloadLength(approved, gap, o);
  }

  /**
   Nothing has changed since the operator pinned the gap: the same page with distinct
   identities passes its checks, and afterwards every upstream identity has a row.
   */
  lemma {:induction false} PinnedGapCloses(t: Table, items: seq<Book>, o: Oracle)
    requires ValidOracle(o) && DistinctBooks(items) && Gap(t, items) != []
    ensures var gap := Gap(t, items);
            var approved := Normalize(gap, o);
            var check := CheckRecovery(t, approved, Fingerprint(gap, o), items, o);
            && ValidPayload(approved, Fingerprint(gap, o), o) && check.Approved?
            && Identities(items) <= PersistBooks(t, check.books, true).table.rows.Keys
  {
    var gap := Gap(t, items);
    var approved := Normalize(gap, o);
    GapPayload(gap, o);
    GapElements(t, items);
    DistinctItemsPass(t, approved, Fingerprint(gap, o), items, o);
    PersistedKeys(t, Selected(items, Elements(approved)), true);
  }

  /** The worker's checks as it makes them, row by row. */
  method CheckRecoveryPage(t: Table, approved: seq<Identity>, gap: Digest, items: seq<Book>, o: Oracle)
    returns (r: Check)
    ensures r == CheckRecovery(t, approved, gap, items, o)
    ensures ValidOracle(o) && ValidPayload(approved, gap, o) ==>
      (r == GapDrift <==> exists id :: id in approved && id in t.rows)
    ensures ValidOracle(o) && ValidPayload(approved, gap, o) ==>
      (r.Approved? <==>
         (forall id :: id in approved ==> id !in t.rows) && |WantedAt(items, Elements(approved))| == |approved|)
  {
    if ValidOracle(o) && ValidPayload(approved, gap, o) {
      ChecksInFull(t, approved, gap, items, o);
    }
    var still: seq<Identity> := [];
    for i := 0 to |approved|
      invariant still == StillMissing(t, approved[..i])
    {
      assert approved[..i + 1][..i] == approved[..i];
      if approved[i] !in t.rows {
        still := still + [approved[i]];
      }
    }
    assert approved[..|approved|] == approved;
    if Fingerprint(still, o) != gap {
      return GapDrift;
    }
    var books: seq<Book> := [];
    for i := 0 to |items|
      invariant books == Selected(items[..i], Elements(still))
    {
      assert items[..i + 1][..i] == items[..i];
      if items[i].identity in still {
        books := books + [items[i]];
      }
    }
    assert items[..|items|] == items;
    r := if |books| != |still| then UpstreamDrift else Approved(books);
  }
}
