/** Histograms filled by counting one value at a time, and what their buckets sum to. */
module Histogram {
  import opened Sequences

  function Count<K(==)>(xs: seq<K>, k: K): nat {
    if xs == [] then 0 else Count(xs[..|xs| - 1], k) + (if xs[|xs| - 1] == k then 1 else 0)
  }

  function Of<K(==)>(h: map<K, nat>, k: K): nat {
    if k in h then h[k] else 0
  }

  /** `bumpHistogram`. */
  function Bump<K(==)>(h: map<K, nat>, k: K): map<K, nat> {
    h[k := Of(h, k) + 1]
  }

  predicate TalliesAt<K(==)>(h: map<K, nat>, xs: seq<K>, k: K) {
    Of(h, k) == Count(xs, k) && (k in h <==> Count(xs, k) > 0)
  }

  /** `h` holds one bucket per value that occurs, with how often it does. */
  ghost predicate Tallies<K(!new)>(h: map<K, nat>, xs: seq<K>) {
    forall k :: TalliesAt(h, xs, k)
  }

  lemma BumpTallies<K(!new)>(h: map<K, nat>, xs: seq<K>, x: K)
    requires Tallies(h, xs)
    ensures Tallies(Bump(h, x), xs + [x])
  {
    assert (xs + [x])[..|xs|] == xs;
    forall k ensures TalliesAt(Bump(h, x), xs + [x], k) { assert TalliesAt(h, xs, k); }
  }

  /** The sum of the buckets in `ks`. */
  function Total<K(==)>(h: map<K, nat>, ks: seq<K>): nat {
    if ks == [] then 0 else Total(h, ks[..|ks| - 1]) + Of(h, ks[|ks| - 1])
  }

  function CountOver<K(==)>(xs: seq<K>, ks: seq<K>): nat {
    if ks == [] then 0 else CountOver(xs, ks[..|ks| - 1]) + Count(xs, ks[|ks| - 1])
  }

  lemma {:induction false} CountOverSnoc<K>(xs: seq<K>, x: K, ks: seq<K>)
    requires Distinct(ks)
    ensures CountOver(xs + [x], ks) == CountOver(xs, ks) + (if x in ks then 1 else 0)
  {
    if ks != [] {
      var front, last := ks[..|ks| - 1], ks[|ks| - 1];
      CountOverSnoc(xs, x, front);
      assert (xs + [x])[..|xs|] == xs;
      assert ks == front + [last] && last !in front;
    }
  }

  lemma {:induction false} CountOverNothing<K>(ks: seq<K>)
    ensures CountOver([], ks) == 0
  {
    if ks != [] {
      CountOverNothing(ks[..|ks| - 1]);
    }
  }

  lemma {:induction false} CountOverAll<K>(xs: seq<K>, ks: seq<K>)
    requires Distinct(ks) && forall i :: 0 <= i < |xs| ==> xs[i] in ks
    ensures CountOver(xs, ks) == |xs|
  {
    if xs == [] {
      CountOverNothing(ks);
    } else {
      var front, last := xs[..|xs| - 1], xs[|xs| - 1];
      CountOverAll(front, ks);
      CountOverSnoc(front, last, ks);
      assert xs == front + [last];
    }
  }

  lemma {:induction false} TotalIsCountOver<K(!new)>(h: map<K, nat>, xs: seq<K>, ks: seq<K>)
    requires Tallies(h, xs)
    ensures Total(h, ks) == CountOver(xs, ks)
  {
    if ks != [] {
      TotalIsCountOver(h, xs, ks[..|ks| - 1]);
      assert TalliesAt(h, xs, ks[|ks| - 1]);
    }
  }

  lemma {:induction false} CountPositive<K>(xs: seq<K>, i: nat)
    requires i < |xs|
    ensures Count(xs, xs[i]) > 0
  {
    if i < |xs| - 1 {
      CountPositive(xs[..|xs| - 1], i);
    }
  }

  /** The buckets of a histogram, listed once each, sum to the number of values counted. */
  lemma {:induction false} BucketsSum<K(!new)>(h: map<K, nat>, xs: seq<K>, ks: seq<K>)
    requires Tallies(h, xs) && Distinct(ks) && forall k :: k in h ==> k in ks
    ensures Total(h, ks) == |xs|
  {
    TotalIsCountOver(h, xs, ks);
    forall i | 0 <= i < |xs| ensures xs[i] in ks {
      CountPositive(xs, i);
      assert TalliesAt(h, xs, xs[i]);
    }
    CountOverAll(xs, ks);
  }
}
