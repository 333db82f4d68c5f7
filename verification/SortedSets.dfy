/** Sorted, duplicate-free sequences: what `new Set`, `Map` keys and `sort` amount to in the sources. */
module SortedSets {
  import opened Sequences

  ghost predicate TotalOrder<T(!new)>(le: (T, T) -> bool) {
    && (forall a :: le(a, a))
    && (forall a, b :: le(a, b) || le(b, a))
    && (forall a, b :: le(a, b) && le(b, a) ==> a == b)
    && (forall a, b, c :: le(a, b) && le(b, c) ==> le(a, c))
  }

  predicate StrictlySorted<T(==)>(xs: seq<T>, le: (T, T) -> bool) {
    forall i, j :: 0 <= i < j < |xs| ==> le(xs[i], xs[j]) && xs[i] != xs[j]
  }

  function Insert<T(==)>(x: T, xs: seq<T>, le: (T, T) -> bool): seq<T> {
    if xs == [] then [x]
    else if x == xs[0] then xs
    else if le(x, xs[0]) then [x] + xs
    else [xs[0]] + Insert(x, xs[1..], le)
  }

  /** The distinct elements of a sequence in order. */
  function SortedSet<T(==)>(xs: seq<T>, le: (T, T) -> bool): seq<T> {
    if xs == [] then [] else Insert(xs[|xs| - 1], SortedSet(xs[..|xs| - 1], le), le)
  }

  lemma {:induction false} InsertElements<T>(x: T, xs: seq<T>, le: (T, T) -> bool)
    ensures forall y :: y in Insert(x, xs, le) <==> y == x || y in xs
  {
    if xs != [] && x != xs[0] && !le(x, xs[0]) {
      InsertElements(x, xs[1..], le);
      assert xs == [xs[0]] + xs[1..];
    }
  }

  lemma {:induction false} InsertSorted<T(!new)>(x: T, xs: seq<T>, le: (T, T) -> bool)
    requires TotalOrder(le) && StrictlySorted(xs, le)
    ensures StrictlySorted(Insert(x, xs, le), le)
  {
    if xs == [] || x == xs[0] {
    } else if le(x, xs[0]) {
      forall y | y in xs ensures le(x, y) && x != y {}
    } else {
      InsertSorted(x, xs[1..], le);
      InsertElements(x, xs[1..], le);
      forall y | y in xs[1..] ensures le(xs[0], y) && xs[0] != y {
        var j :| 1 <= j < |xs| && xs[j] == y;
      }
    }
  }

  lemma {:induction false} SortedSetElements<T>(xs: seq<T>, le: (T, T) -> bool)
    ensures Elements(SortedSet(xs, le)) == Elements(xs)
  {
    if xs != [] {
      var front, last := xs[..|xs| - 1], xs[|xs| - 1];
      SortedSetElements(front, le);
      InsertElements(last, SortedSet(front, le), le);
      ElementsSnoc(front, last);
      assert xs == front + [last];
      assert Elements(SortedSet(xs, le)) == Elements(SortedSet(front, le)) + {last};
    }
  }

  lemma {:induction false} SortedSetSorted<T(!new)>(xs: seq<T>, le: (T, T) -> bool)
    requires TotalOrder(le)
    ensures StrictlySorted(SortedSet(xs, le), le)
  {
    if xs != [] {
      SortedSetSorted(xs[..|xs| - 1], le);
      InsertSorted(xs[|xs| - 1], SortedSet(xs[..|xs| - 1], le), le);
    }
  }

  lemma TailElements<T>(xs: seq<T>, le: (T, T) -> bool)
    requires xs != [] && StrictlySorted(xs, le)
    ensures Elements(xs[1..]) == Elements(xs) - {xs[0]}
  {
    forall x ensures x in xs[1..] <==> x in xs && x != xs[0] {}
  }

  /** A set has only one sorted, duplicate-free listing. */
  lemma {:induction false} SortedUnique<T(!new)>(xs: seq<T>, ys: seq<T>, le: (T, T) -> bool)
    requires TotalOrder(le) && StrictlySorted(xs, le) && StrictlySorted(ys, le)
    requires Elements(xs) == Elements(ys)
    ensures xs == ys
  {
    EmptyElements(xs);
    EmptyElements(ys);
    if xs != [] {
      assert xs[0] in Elements(xs) && ys[0] in Elements(ys);
      TailElements(xs, le);
      TailElements(ys, le);
      SortedUnique(xs[1..], ys[1..], le);
      assert xs == [xs[0]] + xs[1..] && ys == [ys[0]] + ys[1..];
    }
  }

  /** Sorting a set is a function of the set alone, and sorting again changes nothing. */
  lemma {:induction false} SortedSetCanonical<T(!new)>(xs: seq<T>, ys: seq<T>, le: (T, T) -> bool)
    requires TotalOrder(le)
    ensures SortedSet(xs, le) == SortedSet(ys, le) <==> Elements(xs) == Elements(ys)
    ensures SortedSet(SortedSet(xs, le), le) == SortedSet(xs, le)
  {
    SortedSetElements(xs, le);
    SortedSetElements(ys, le);
    SortedSetSorted(xs, le);
    SortedSetSorted(ys, le);
    if Elements(xs) == Elements(ys) {
      SortedUnique(SortedSet(xs, le), SortedSet(ys, le), le);
    }
    SortedSetElements(SortedSet(xs, le), le);
    SortedSetSorted(SortedSet(xs, le), le);
    SortedUnique(SortedSet(SortedSet(xs, le), le), SortedSet(xs, le), le);
  }
}
