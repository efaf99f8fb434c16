/** Stable sorting by insertion, under any order in which incomparability is transitive. */
module Sorting {
  /** A strict weak order, through its complement. */
  ghost predicate WeakOrder<T(!new)>(lt: (T, T) -> bool) {
    && (forall x, y :: lt(x, y) ==> !lt(y, x))
    && (forall x, y, z :: !lt(x, y) && !lt(y, z) ==> !lt(x, z))
  }

  ghost predicate Sorted<T>(s: seq<T>, lt: (T, T) -> bool) {
    forall i, j :: 0 <= i < j < |s| ==> !lt(s[j], s[i])
  }

  /** Behind every element that `x` does not precede. */
  function Insert<T>(sorted: seq<T>, x: T, lt: (T, T) -> bool): (r: seq<T>)
    ensures |r| == |sorted| + 1
  {
    if sorted == [] || !lt(x, sorted[|sorted| - 1]) then sorted + [x]
    else Insert(sorted[..|sorted| - 1], x, lt) + [sorted[|sorted| - 1]]
  }

  /** The sorted form; elements that do not precede each other keep their order. */
  function SortedForm<T>(s: seq<T>, lt: (T, T) -> bool): (r: seq<T>)
    ensures |r| == |s|
  {
    if s == [] then [] else Insert(SortedForm(s[..|s| - 1], lt), s[|s| - 1], lt)
  }

  lemma {:induction false} InsertAdds<T>(sorted: seq<T>, x: T, lt: (T, T) -> bool)
    ensures multiset(Insert(sorted, x, lt)) == multiset(sorted) + multiset{x}
  {
    if sorted != [] && lt(x, sorted[|sorted| - 1]) {
      var init, last := sorted[..|sorted| - 1], sorted[|sorted| - 1];
      InsertAdds(init, x, lt);
      assert sorted == init + [last];
    }
  }

  lemma SortedSnoc<T(!new)>(s: seq<T>, x: T, lt: (T, T) -> bool)
    requires WeakOrder(lt) && Sorted(s, lt) && (s == [] || !lt(x, s[|s| - 1]))
    ensures Sorted(s + [x], lt)
  {
    forall i | 0 <= i < |s| ensures !lt(x, s[i]) {
      if i < |s| - 1 {
        assert !lt(s[|s| - 1], s[i]);
      }
    }
  }

  lemma {:induction false} InsertSorts<T(!new)>(sorted: seq<T>, x: T, lt: (T, T) -> bool)
    requires WeakOrder(lt) && Sorted(sorted, lt)
    ensures Sorted(Insert(sorted, x, lt), lt)
    ensures var last := Insert(sorted, x, lt)[|sorted|];
            last == x || (sorted != [] && last == sorted[|sorted| - 1])
  {
    if sorted != [] && lt(x, sorted[|sorted| - 1]) {
      var init, last := sorted[..|sorted| - 1], sorted[|sorted| - 1];
      assert init != [] ==> !lt(last, sorted[|sorted| - 2]);
      InsertSorts(init, x, lt);
      SortedSnoc(Insert(init, x, lt), last, lt);
    } else {
      SortedSnoc(sorted, x, lt);
    }
  }

  lemma {:induction false} SortedFormSorts<T(!new)>(s: seq<T>, lt: (T, T) -> bool)
    requires WeakOrder(lt)
    ensures Sorted(SortedForm(s, lt), lt) && multiset(SortedForm(s, lt)) == multiset(s)
  {
    if s != [] {
      var init, last := s[..|s| - 1], s[|s| - 1];
      assert s == init + [last];
      SortedFormSorts(init, lt);
      InsertAdds(SortedForm(init, lt), last, lt);
      InsertSorts(SortedForm(init, lt), last, lt);
    }
  }

  /** What is sorted already stays as it is. */
  lemma {:induction false} SortedFormKeeps<T>(s: seq<T>, lt: (T, T) -> bool)
    requires Sorted(s, lt)
    ensures SortedForm(s, lt) == s
  {
    if s != [] {
      var init, last := s[..|s| - 1], s[|s| - 1];
      assert init != [] ==> !lt(last, s[|s| - 2]);
      SortedFormKeeps(init, lt);
      assert Insert(init, last, lt) == init + [last];
    }
  }
}
