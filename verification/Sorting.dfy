/** Stable sorting by an order given as "belongs after". */
module Sorting {
  import opened Lists

  ghost predicate Orders<T(!new)>(behind: (T, T) -> bool) {
    && (forall a, b :: behind(a, b) ==> !behind(b, a))
    && (forall a, b, c :: !behind(a, b) && !behind(b, c) ==> !behind(a, c))
  }

  /** Nothing comes before what it belongs after. */
  predicate InOrder<T>(behind: (T, T) -> bool, xs: seq<T>) {
    forall i, j :: 0 <= i < j < |xs| ==> !behind(xs[i], xs[j])
  }

  /** Puts x as far back as it may stand. */
  function Place<T>(behind: (T, T) -> bool, x: T, xs: seq<T>): seq<T> {
    if xs == [] || !behind(Last(xs), x) then xs + [x] else Place(behind, x, Front(xs)) + [Last(xs)]
  }

  /** Equals keep their order. */
  function Sort<T>(behind: (T, T) -> bool, xs: seq<T>): seq<T> {
    if xs == [] then [] else Place(behind, Last(xs), Sort(behind, Front(xs)))
  }

  lemma {:induction false} PlaceKeeps<T>(behind: (T, T) -> bool, x: T, xs: seq<T>)
    ensures |Place(behind, x, xs)| == |xs| + 1 && multiset(Place(behind, x, xs)) == multiset(xs) + multiset{x}
  {
    if xs != [] {
      PlaceKeeps(behind, x, Front(xs));
      assert xs == Front(xs) + [Last(xs)];
    }
  }

  /** Nothing is lost or added. */
  lemma {:induction false} SortKeeps<T>(behind: (T, T) -> bool, xs: seq<T>)
    ensures |Sort(behind, xs)| == |xs| && multiset(Sort(behind, xs)) == multiset(xs)
  {
    if xs != [] {
      SortKeeps(behind, Front(xs));
      PlaceKeeps(behind, Last(xs), Sort(behind, Front(xs)));
      assert xs == Front(xs) + [Last(xs)];
    }
  }

  lemma {:induction false} PlaceInOrder<T(!new)>(behind: (T, T) -> bool, x: T, xs: seq<T>)
    requires Orders(behind) && InOrder(behind, xs)
    ensures InOrder(behind, Place(behind, x, xs))
    ensures forall y :: y in Place(behind, x, xs) <==> y == x || y in xs
  {
    if xs == [] || !behind(Last(xs), x) {
      forall i | 0 <= i < |xs| ensures !behind(xs[i], x) {
        assert i < |xs| - 1 ==> !behind(xs[i], Last(xs));
      }
    } else {
      var front := Place(behind, x, Front(xs));
      PlaceInOrder(behind, x, Front(xs));
      forall i | 0 <= i < |front| ensures !behind(front[i], Last(xs)) {
        assert front[i] in front;
        if front[i] != x {
          var j :| 0 <= j < |Front(xs)| && Front(xs)[j] == front[i];
          assert !behind(xs[j], xs[|xs|-1]);
        }
      }
      assert xs == Front(xs) + [Last(xs)];
    }
  }

  lemma {:induction false} SortInOrder<T(!new)>(behind: (T, T) -> bool, xs: seq<T>)
    requires Orders(behind)
    ensures InOrder(behind, Sort(behind, xs))
  {
    if xs != [] {
      SortInOrder(behind, Front(xs));
      PlaceInOrder(behind, Last(xs), Sort(behind, Front(xs)));
    }
  }
}
