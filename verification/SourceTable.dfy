/** NovelSourceItem rows as catalog pages write them (worker/handlers/moboreader.ts). */
module SourceTable {
  /** The unique key (externalBookId, sourceLanguageCode) within one channel app. */
  datatype Identity = Identity(bookId: string, language: string)

  /** One item of an upstream page; `data` stands for every other column. */
  datatype Book = Book(identity: Identity, data: string)

  datatype Row = Row(id: nat, data: string)

  datatype Table = Table(rows: map<Identity, Row>, nextId: nat)

  /** A table and the source ids a page has collected so far. */
  datatype Persisted = Persisted(table: Table, ids: seq<nat>)

  /** A scan page upserts; a recovery page inserts and skips duplicates. */
  function PersistBook(p: Persisted, b: Book, recoveryOnly: bool): Persisted {
    var t := p.table;
    if b.identity in t.rows then
      if recoveryOnly then p
      else Persisted(t.(rows := t.rows[b.identity := t.rows[b.identity].(data := b.data)]),
                p.ids + [t.rows[b.identity].id])
    else Persisted(Table(t.rows[b.identity := Row(t.nextId, b.data)], t.nextId + 1), p.ids + [t.nextId])
  }

  function PersistBooks(t: Table, books: seq<Book>, recoveryOnly: bool): Persisted {
    if books == [] then Persisted(t, [])
    else PersistBook(PersistBooks(t, books[..|books| - 1], recoveryOnly), books[|books| - 1], recoveryOnly)
  }

  function Identities(books: seq<Book>): set<Identity> {
    set b <- books :: b.identity
  }

  predicate FreshIds(t: Table) {
    && (forall k :: k in t.rows ==> t.rows[k].id < t.nextId)
    && forall j, k :: j in t.rows && k in t.rows && j != k ==> t.rows[j].id != t.rows[k].id
  }

  /** `q` holds the rows of `t` under their old ids, one row per book, and the id of each book's row. */
  predicate Holds(t: Table, q: Persisted, books: seq<Book>) {
    && FreshIds(q.table) && |q.ids| == |books|
    && (forall k :: k in t.rows ==> k in q.table.rows && q.table.rows[k].id == t.rows[k].id)
    && (forall i :: 0 <= i < |books| ==>
          books[i].identity in q.table.rows && q.ids[i] == q.table.rows[books[i].identity].id)
  }

  /**
   A scan page leaves one source id per book, that of the book's row, and keeps every
   row's id.
   */
  lemma {:induction false} ScanPagePersists(t: Table, books: seq<Book>)
    requires FreshIds(t)
    ensures Holds(t, PersistBooks(t, books, false), books)
  {
    if books != [] {
      var front, last := books[..|books| - 1], books[|books| - 1];
      ScanPagePersists(t, front);
      assert books == front + [last];
    }
  }

  /** No other book of the page, from `first` on and before `end`, has the identity of book `i`. */
  predicate Sole(books: seq<Book>, i: nat, first: nat, end: nat)
    requires i < |books| && end <= |books|
  {
    forall j :: first <= j < end && j != i ==> books[j].identity != books[i].identity
  }

  /**
   After a scan page the row of a book holds the data of the last book with its identity,
   and the rows of other identities are unchanged.
   */
  lemma {:induction false} ScanPageData(t: Table, books: seq<Book>)
    ensures var rows := PersistBooks(t, books, false).table.rows;
            forall i :: 0 <= i < |books| && Sole(books, i, i, |books|) ==>
              books[i].identity in rows && rows[books[i].identity].data == books[i].data
    ensures var rows := PersistBooks(t, books, false).table.rows;
            forall k :: k in t.rows && (forall i :: 0 <= i < |books| ==> books[i].identity != k) ==>
              k in rows && rows[k] == t.rows[k]
  {
    if books != [] {
      var n, last := |books| - 1, books[|books| - 1];
      var front := books[..n];
      ScanPageData(t, front);
      forall i | 0 <= i < n && Sole(books, i, i, |books|)
        ensures Sole(front, i, i, n) && front[i].identity != last.identity
      {
      }
    }
  }

  /**
   A recovery page adds a row for each new identity, with the data of the first book that has
   it, and numbers the added rows one after the other.
   */
  lemma {:induction false} RecoveryPageData(t: Table, books: seq<Book>)
    ensures var q := PersistBooks(t, books, true);
            && q.table.nextId == t.nextId + |q.ids|
            && forall i :: 0 <= i < |q.ids| ==> q.ids[i] == t.nextId + i
    ensures var rows := PersistBooks(t, books, true).table.rows;
            forall i :: 0 <= i < |books| && Sole(books, i, 0, i) && books[i].identity !in t.rows ==>
              books[i].identity in rows && rows[books[i].identity].data == books[i].data
  {
    if books != [] {
      var n, last := |books| - 1, books[|books| - 1];
      var front := books[..n];
      RecoveryPageData(t, front);
      PersistedKeys(t, front, true);
      forall i | 0 <= i < n && Sole(books, i, 0, i) ensures Sole(front, i, 0, i) {
      }
      if Sole(books, n, 0, n) {
        assert forall b <- front :: b.identity != last.identity;
      }
    }
  }

  /** Either kind of page adds exactly the identities it was given. */
  lemma {:induction false} PersistedKeys(t: Table, books: seq<Book>, recoveryOnly: bool)
    ensures PersistBooks(t, books, recoveryOnly).table.rows.Keys == t.rows.Keys + Identities(books)
  {
    if books == [] {
      assert Identities([]) == {};
    } else {
      var front, last := books[..|books| - 1], books[|books| - 1];
      PersistedKeys(t, front, recoveryOnly);
      assert books == front + [last];
    }
  }

  /** `q` changes none of the rows of `t`. */
  predicate Extends(t: Table, q: Persisted) {
    FreshIds(q.table) && forall k :: k in t.rows ==> k in q.table.rows && q.table.rows[k] == t.rows[k]
  }

  /** A recovery page changes no existing row. */
  lemma {:induction false} RecoveryPagePersists(t: Table, books: seq<Book>)
    requires FreshIds(t)
    ensures Extends(t, PersistBooks(t, books, true))
  {
    if books != [] {
      RecoveryPagePersists(t, books[..|books| - 1]);
    }
  }

  /** Its source ids number exactly the rows it added. */
  lemma {:induction false} RecoveryPageCounts(t: Table, books: seq<Book>)
    ensures |PersistBooks(t, books, true).ids| == |PersistBooks(t, books, true).table.rows| - |t.rows|
  {
    if books != [] {
      RecoveryPageCounts(t, books[..|books| - 1]);
    }
  }
}
