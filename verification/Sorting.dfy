/** A stable insertion sort under any comparison, and the order it gives. */
module Sorting {
  /** Puts x behind every element that may stand before it, as far as they reach from the end. */
  function Insert<T>(sorted: seq<T>, x: T, upTo: (T, T) -> bool): seq<T> {
    if sorted == [] || upTo(sorted[|sorted| - 1], x) then sorted + [x]
    else Insert(sorted[..|sorted| - 1], x, upTo) + [sorted[|sorted| - 1]]
  }

  function Sort<T>(items: seq<T>, upTo: (T, T) -> bool): seq<T> {
    if items == [] then [] else Insert(Sort(items[..|items| - 1], upTo), items[|items| - 1], upTo)
  }

  ghost predicate Pairwise<T>(items: seq<T>, r: (T, T) -> bool) {
    forall i, j | 0 <= i < j < |items| :: r(items[i], items[j])
  }

  /** The comparison tells on which side of y the relation puts x. */
  ghost predicate Sided<T>(y: T, x: T, upTo: (T, T) -> bool, r: (T, T) -> bool) {
    if upTo(y, x) then r(y, x) else r(x, y)
  }

  ghost predicate Chains<T>(a: T, b: T, c: T, r: (T, T) -> bool) {
    r(a, b) && r(b, c) ==> r(a, c)
  }

  /** Any two items are related the way they compare, and the relation carries over. */
  ghost predicate Sortable<T>(items: seq<T>, upTo: (T, T) -> bool, r: (T, T) -> bool) {
    && (forall i, j | 0 <= i < j < |items| :: Sided(items[i], items[j], upTo, r))
    && forall a, b, c | a in items && b in items && c in items :: Chains(a, b, c, r)
  }

  lemma {:induction false} InsertMembers<T>(sorted: seq<T>, x: T, upTo: (T, T) -> bool)
    ensures multiset(Insert(sorted, x, upTo)) == multiset(sorted) + multiset{x}
    decreases |sorted|
  {
    if sorted == [] || upTo(sorted[|sorted| - 1], x) {
    } else {
      InsertMembers(sorted[..|sorted| - 1], x, upTo);
      assert sorted == sorted[..|sorted| - 1] + [sorted[|sorted| - 1]];
    }
  }

  lemma {:induction false} InsertedIn<T>(sorted: seq<T>, x: T, upTo: (T, T) -> bool, i: nat)
    requires i < |Insert(sorted, x, upTo)|
    ensures Insert(sorted, x, upTo)[i] == x || Insert(sorted, x, upTo)[i] in sorted
  {
    hide Insert;
    InsertMembers(sorted, x, upTo);
    assert Insert(sorted, x, upTo)[i] in multiset(sorted) + multiset{x};
  }

  lemma {:induction false} PairwiseAppend<T>(init: seq<T>, last: T, r: (T, T) -> bool)
    requires Pairwise(init, r) && forall i | 0 <= i < |init| :: r(init[i], last)
    ensures Pairwise(init + [last], r)
  {
  }

  lemma {:induction false} PairwiseInit<T>(items: seq<T>, r: (T, T) -> bool)
    requires Pairwise(items, r) && items != []
    ensures Pairwise(items[..|items| - 1], r)
    ensures forall i | 0 <= i < |items| - 1 :: r(items[i], items[|items| - 1])
  {
  }

  lemma {:induction false} InsertPairwise<T>(sorted: seq<T>, x: T, upTo: (T, T) -> bool, r: (T, T) -> bool)
    requires Pairwise(sorted, r) && forall y | y in sorted :: Sided(y, x, upTo, r)
    requires forall a, b | a in sorted && b in sorted :: Chains(a, b, x, r)
    ensures Pairwise(Insert(sorted, x, upTo), r)
    decreases |sorted|
  {
    hide Pairwise;
    if sorted == [] {
      PairwiseAppend(sorted, x, r);
    } else {
      var init, last := sorted[..|sorted| - 1], sorted[|sorted| - 1];
      PairwiseInit(sorted, r);
      if upTo(last, x) {
        forall i | 0 <= i < |sorted|
          ensures r(sorted[i], x)
        {
          assert i < |init| ==> sorted[i] in init;
          assert Chains(sorted[i], last, x, r) && Sided(last, x, upTo, r);
        }
        PairwiseAppend(sorted, x, r);
      } else {
        InsertPairwise(init, x, upTo, r);
        forall i | 0 <= i < |Insert(init, x, upTo)|
          ensures r(Insert(init, x, upTo)[i], last)
        {
          InsertedIn(init, x, upTo, i);
          assert Sided(last, x, upTo, r);
        }
        PairwiseAppend(Insert(init, x, upTo), last, r);
      }
    }
  }

  lemma {:induction false} SortMembers<T>(items: seq<T>, upTo: (T, T) -> bool)
    ensures multiset(Sort(items, upTo)) == multiset(items)
    decreases |items|
  {
    hide Insert;
    if items == [] {
    } else {
      var init, last := items[..|items| - 1], items[|items| - 1];
      SortMembers(init, upTo);
      InsertMembers(Sort(init, upTo), last, upTo);
      assert items == init + [last];
    }
  }

  lemma {:induction false} SortHolds<T>(items: seq<T>, upTo: (T, T) -> bool, x: T)
    ensures x in Sort(items, upTo) <==> x in items
  {
    hide Sort;
    SortMembers(items, upTo);
    assert x in Sort(items, upTo) <==> x in multiset(Sort(items, upTo));
    assert x in items <==> x in multiset(items);
  }

  /** Sorting puts every item before those it is related to. */
  lemma {:induction false} SortPairwise<T>(items: seq<T>, upTo: (T, T) -> bool, r: (T, T) -> bool)
    requires Sortable(items, upTo, r)
    ensures Pairwise(Sort(items, upTo), r)
    decreases |items|
  {
    hide Insert, Pairwise;
    if items == [] {
      NonePairwise(r);
    } else {
      var init, last := items[..|items| - 1], items[|items| - 1];
      assert items == init + [last];
      assert forall i | 0 <= i < |init| :: init[i] == items[i];
      SortPairwise(init, upTo, r);
      SortMembers(init, upTo);
      forall y | y in Sort(init, upTo)
        ensures Sided(y, last, upTo, r)
      {
        SortHolds(init, upTo, y);
        var i :| 0 <= i < |init| && init[i] == y;
        assert Sided(items[i], items[|items| - 1], upTo, r);
      }
      forall a, b | a in Sort(init, upTo) && b in Sort(init, upTo)
        ensures Chains(a, b, last, r)
      {
        SortHolds(init, upTo, a);
        SortHolds(init, upTo, b);
      }
      InsertPairwise(Sort(init, upTo), last, upTo, r);
    }
  }

  lemma {:induction false} NonePairwise<T>(r: (T, T) -> bool)
    ensures Pairwise([], r)
  {
  }
}
