/**
 Enumerating an id-ordered table in bounded pages: keyset paging (`id > after`, `take n`) and
 chunks of an explicit id list.  A UUID is the 128-bit number its hex digits spell, so ids are
 numbers; the table is a fixed snapshot in id order.
 */
module Keyset {
  import opened Wrappers

  type Id = nat

  function Filter<T>(rows: seq<T>, keep: T -> bool): seq<T> {
    if rows == [] then []
    else (if keep(rows[0]) then [rows[0]] else []) + Filter(rows[1..], keep)
  }

  /** Strictly increasing ids: the primary key, in order. */
  predicate Ascending<T>(rows: seq<T>, id: T -> Id) {
    forall i, j :: 0 <= i < j < |rows| ==> id(rows[i]) < id(rows[j])
  }

  function Take<T>(rows: seq<T>, n: nat): seq<T> {
    if |rows| <= n then rows else rows[..n]
  }

  /** The where clause of one page. */
  function Beyond<T>(id: T -> Id, keep: T -> bool, after: Option<Id>): T -> bool {
    r => keep(r) && (after.Some? ==> id(r) > after.value)
  }

  /** findMany({ where, id > after, orderBy id asc, take }). */
  function FindPage<T>(table: seq<T>, id: T -> Id, keep: T -> bool, after: Option<Id>, take: nat): seq<T> {
    Take(Filter(table, Beyond(id, keep, after)), take)
  }

  lemma {:induction false} FilterMembers<T(!new)>(rows: seq<T>, keep: T -> bool)
    ensures forall r :: r in Filter(rows, keep) <==> r in rows && keep(r)
  {
    if rows != [] {
      FilterMembers(rows[1..], keep);
      assert rows == [rows[0]] + rows[1..];
    }
  }

  lemma {:induction false} FilterAscending<T(!new)>(rows: seq<T>, id: T -> Id, keep: T -> bool)
    requires Ascending(rows, id)
    ensures Ascending(Filter(rows, keep), id)
  {
    if rows != [] {
      FilterAscending(rows[1..], id, keep);
      FilterMembers(rows[1..], keep);
      var rest := Filter(rows[1..], keep);
      forall j | 0 <= j < |rest| ensures id(rows[0]) < id(rest[j]) { assert rest[j] in rows[1..]; }
    }
  }

  lemma {:induction false} FilterTwice<T>(rows: seq<T>, f: T -> bool, g: T -> bool, both: T -> bool)
    requires forall i :: 0 <= i < |rows| ==> both(rows[i]) == (f(rows[i]) && g(rows[i]))
    ensures Filter(Filter(rows, f), g) == Filter(rows, both)
  {
    if rows != [] {
      FilterTwice(rows[1..], f, g, both);
      var rest := Filter(rows[1..], f);
      if f(rows[0]) {
        assert Filter(rows, f) == [rows[0]] + rest;
        assert ([rows[0]] + rest)[1..] == rest;
      } else {
        assert Filter(rows, f) == rest;
      }
    }
  }

  lemma {:induction false} FilterAll<T>(rows: seq<T>, keep: T -> bool)
    requires forall i :: 0 <= i < |rows| ==> keep(rows[i])
    ensures Filter(rows, keep) == rows
  {
    if rows != [] {
      FilterAll(rows[1..], keep);
    }
  }

  lemma {:induction false} FilterNone<T>(rows: seq<T>, keep: T -> bool)
    requires forall i :: 0 <= i < |rows| ==> !keep(rows[i])
    ensures Filter(rows, keep) == []
  {
    if rows != [] {
      FilterNone(rows[1..], keep);
    }
  }

  /** The rows behind an id in an ascending list are exactly those after its position. */
  lemma {:induction false} SuffixAfter<T>(rows: seq<T>, id: T -> Id, n: nat, beyond: T -> bool)
    requires Ascending(rows, id) && 1 <= n <= |rows|
    requires forall i :: 0 <= i < |rows| ==> beyond(rows[i]) == (id(rows[i]) > id(rows[n - 1]))
    ensures Filter(rows, beyond) == rows[n..]
    decreases n
  {
    assert !beyond(rows[0]) by { assert n > 1 ==> id(rows[0]) < id(rows[n - 1]); }
    var rest := rows[1..];
    if n == 1 {
      forall i | 0 <= i < |rest| ensures beyond(rest[i]) { assert rest[i] == rows[i + 1]; }
      FilterAll(rest, beyond);
    } else {
      assert rest[n - 2] == rows[n - 1];
      SuffixAfter(rest, id, n - 1, beyond);
      assert rest[n - 1..] == rows[n..];
    }
  }

  /** The page behind the first `n` matching rows is found among the matching rows after them. */
  lemma {:induction false} NextPage<T>(table: seq<T>, id: T -> Id, keep: T -> bool,
        n: nat, after: Option<Id>, take: nat)
    requires Ascending(Filter(table, keep), id) && n <= |Filter(table, keep)|
    requires after == Cursor(Filter(table, keep), id, n)
    ensures FindPage(table, id, keep, after, take) == Take(Filter(table, keep)[n..], take)
  {
    var matching := Filter(table, keep);
    var bound := r => after.Some? ==> id(r) > after.value;
    FilterTwice(table, keep, bound, Beyond(id, keep, after));
    if n == 0 {
      FilterAll(matching, bound);
    } else {
      SuffixAfter(matching, id, n, bound);
    }
  }

  /** `page` is the stretch of `rows` from position `n` on, cut off after `take` rows. */
  predicate IsPage<T(==)>(page: seq<T>, rows: seq<T>, n: nat, take: nat) {
    && n + |page| <= |rows| && |page| <= take
    && (|page| < take ==> n + |page| == |rows|)
    && forall i :: 0 <= i < |page| ==> page[i] == rows[n + i]
  }

  lemma TakeIsPage<T>(rows: seq<T>, n: nat, take: nat)
    requires n <= |rows|
    ensures IsPage(Take(rows[n..], take), rows, n, take)
  {}

  /** The cursor after the first `n` rows. */
  function Cursor<T>(rows: seq<T>, id: T -> Id, n: nat): Option<Id>
    requires n <= |rows|
  {
    if n == 0 then None else Some(id(rows[n - 1]))
  }

  /** What a loop has visited after the first `n` rows. */
  function Appended<T>(start: seq<T>, rows: seq<T>, n: nat): seq<T>
    requires n <= |rows|
  {
    start + rows[..n]
  }

  lemma AppendSlice<T>(start: seq<T>, rows: seq<T>, n: nat, m: nat)
    requires n <= m <= |rows|
    ensures Appended(start, rows, n) + rows[n..m] == Appended(start, rows, m)
    ensures Appended(start, rows, 0) == start && Appended(start, rows, |rows|) == start + rows
  {
    assert rows[..m] == rows[..n] + rows[n..m];
  }

  /** One query of a keyset loop that has already seen the first `n` matching rows, with the next cursor. */
  method FetchPage<T(==)>(table: seq<T>, id: T -> Id, keep: T -> bool, after: Option<Id>, take: nat,
      ghost n: nat, ghost matching: seq<T>)
    returns (rows: seq<T>, next: Option<Id>)
    requires matching == Filter(table, keep) && Ascending(matching, id) && n <= |matching| && 1 <= take
    requires after == Cursor(matching, id, n)
    ensures IsPage(rows, matching, n, take) && next == Cursor(matching, id, n + |rows|)
  {
    NextPage(table, id, keep, n, after, take);
    TakeIsPage(matching, n, take);
    rows := FindPage(table, id, keep, after, take);
    next := if |rows| == 0 then after else Some(id(rows[|rows| - 1]));
  }

  /** Selecting by two id ranges, one below the other, is selecting by each in turn. */
  lemma {:induction false} FilterSplit<T(!new)>(rows: seq<T>, id: T -> Id, low: T -> bool, high: T -> bool,
      either: T -> bool, bound: Id)
    requires Ascending(rows, id)
    requires forall r :: r in rows ==> either(r) == (low(r) || high(r))
    requires forall r :: r in rows ==> (low(r) ==> id(r) < bound) && (high(r) ==> bound <= id(r))
    ensures Filter(rows, either) == Filter(rows, low) + Filter(rows, high)
  {
    if rows != [] {
      var head, rest := rows[0], rows[1..];
      assert rows == [head] + rest;
      FilterSplit(rest, id, low, high, either, bound);
      var ls, hs := Filter(rest, low), Filter(rest, high);
      if high(head) {
        forall i | 0 <= i < |rest| ensures !low(rest[i]) {
          assert rest[i] in rows && id(rows[0]) < id(rows[i + 1]);
        }
        FilterNone(rest, low);
        assert Filter(rows, either) == [head] + hs;
      } else if low(head) {
        assert Filter(rows, either) == [head] + (ls + hs);
        assert Filter(rows, low) == [head] + ls;
      }
    }
  }
}
