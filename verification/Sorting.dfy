/** Stable insertion sort by a comparator, standing for the library's array sort. */
module Sorting {

  /** after(a, b): b may stand right behind a. */
  type Comparator<!T> = (T, T) -> bool

  function Insert<T>(s: seq<T>, x: T, after: Comparator<T>): seq<T> {
    if s == [] || after(s[|s| - 1], x) then s + [x]
    else Insert(s[..|s| - 1], x, after) + [s[|s| - 1]]
  }

  function Sort<T>(s: seq<T>, after: Comparator<T>): seq<T> {
    if s == [] then [] else Insert(Sort(s[..|s| - 1], after), s[|s| - 1], after)
  }

  predicate Ordered<T>(s: seq<T>, order: (T, T) -> bool) {
    forall i, j :: 0 <= i < j < |s| ==> order(s[i], s[j])
  }

  /** The comparator sorts by a transitive order: it decides one way or the other. */
  ghost predicate Decides<T(!new)>(after: Comparator<T>, order: (T, T) -> bool) {
    && (forall a, b :: after(a, b) ==> order(a, b))
    && (forall a, b :: !after(a, b) ==> order(b, a))
    && (forall a, b, c :: order(a, b) && order(b, c) ==> order(a, c))
  }

  lemma {:induction false} InsertPermutes<T>(s: seq<T>, x: T, after: Comparator<T>)
    ensures multiset(Insert(s, x, after)) == multiset(s) + multiset{x}
  {
    if s != [] && !after(s[|s| - 1], x) {
      InsertPermutes(s[..|s| - 1], x, after);
      assert s == s[..|s| - 1] + [s[|s| - 1]];
    }
  }

  lemma {:induction false} InsertOrders<T(!new)>(s: seq<T>, x: T, after: Comparator<T>, order: (T, T) -> bool)
    requires Decides(after, order) && Ordered(s, order)
    ensures Ordered(Insert(s, x, after), order)
    ensures forall y :: y in Insert(s, x, after) ==> y == x || y in s
  {
    if s != [] {
      var init, last := s[..|s| - 1], s[|s| - 1];
      assert s == init + [last];
      if after(last, x) {
        assert forall i :: 0 <= i < |init| ==> order(init[i], last);
      } else {
        InsertOrders(init, x, after, order);
        var r := Insert(init, x, after);
        forall y | y in r ensures order(y, last) {
          if y in init {
            var i :| 0 <= i < |init| && init[i] == y;
          }
        }
      }
    }
  }

  lemma {:induction false} SortPermutes<T>(s: seq<T>, after: Comparator<T>)
    ensures multiset(Sort(s, after)) == multiset(s)
    ensures |Sort(s, after)| == |s|
  {
    if s != [] {
      var init, last := s[..|s| - 1], s[|s| - 1];
      assert s == init + [last];
      SortPermutes(init, after);
      InsertPermutes(Sort(init, after), last, after);
    }
    assert |multiset(Sort(s, after))| == |Sort(s, after)| && |multiset(s)| == |s|;
  }

  /** Sorting orders the elements and loses none. */
  lemma {:induction false} SortOrders<T(!new)>(s: seq<T>, after: Comparator<T>, order: (T, T) -> bool)
    requires Decides(after, order)
    ensures Ordered(Sort(s, after), order)
  {
    if s != [] {
      SortOrders(s[..|s| - 1], after, order);
      InsertOrders(Sort(s[..|s| - 1], after), s[|s| - 1], after, order);
    }
  }
}
