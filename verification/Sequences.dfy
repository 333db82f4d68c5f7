/** Duplicate-free sequences and the sets of their elements. */
module Sequences {
  predicate Distinct<T(==)>(xs: seq<T>) {
    forall i, j :: 0 <= i < j < |xs| ==> xs[i] != xs[j]
  }

  function Elements<T>(xs: seq<T>): set<T> {
    set x | x in xs
  }

  lemma ElementsSnoc<T>(xs: seq<T>, x: T)
    ensures Elements(xs + [x]) == Elements(xs) + {x}
  {}

  lemma EmptyElements<T>(xs: seq<T>)
    ensures Elements(xs) == {} <==> xs == []
  {
    if xs != [] {
      assert xs[0] in Elements(xs);
    }
  }

  lemma {:induction false} ElementsAtMost<T>(xs: seq<T>)
    ensures |Elements(xs)| <= |xs|
  {
    if xs != [] {
      ElementsAtMost(xs[1..]);
      assert Elements(xs) == Elements(xs[1..]) + {xs[0]};
    }
  }

  /** A sequence is duplicate-free exactly when it has as many distinct elements as positions. */
  lemma {:induction false} DistinctCount<T>(xs: seq<T>)
    ensures Distinct(xs) <==> |Elements(xs)| == |xs|
  {
    if xs != [] {
      DistinctCount(xs[1..]);
      ElementsAtMost(xs[1..]);
      assert Elements(xs) == Elements(xs[1..]) + {xs[0]};
      if xs[0] in xs[1..] {
        var i :| 1 <= i < |xs| && xs[i] == xs[0];
        assert Elements(xs) == Elements(xs[1..]);
      } else {
        assert |Elements(xs)| == |Elements(xs[1..])| + 1;
        assert Distinct(xs) <==> Distinct(xs[1..]) by {
          if Distinct(xs[1..]) {
            forall i, j | 0 <= i < j < |xs| ensures xs[i] != xs[j] {
              assert xs[j] == xs[1..][j - 1];
              assert i > 0 ==> xs[i] == xs[1..][i - 1];
            }
          }
        }
      }
    }
  }
}
