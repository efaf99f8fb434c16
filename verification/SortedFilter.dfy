/** In-place removal of consecutive duplicates, and the comparison of a sorted slice with a list taken as a set. */
module Slices {
  import opened Basics
  import opened Sorting

  // --- orders ---------------------------------------------------------------------------------------------------

  ghost predicate TotalOrder<T(!new)>(lt: (T, T) -> bool) {
    && (forall x :: !lt(x, x))
    && (forall x, y :: lt(x, y) || x == y || lt(y, x))
    && (forall x, y, z :: lt(x, y) && lt(y, z) ==> lt(x, z))
  }

  ghost predicate Increasing<T>(s: seq<T>, lt: (T, T) -> bool) {
    forall i, j :: 0 <= i < j < |s| ==> lt(s[i], s[j])
  }

  ghost predicate SameItems<T(!new)>(a: seq<T>, b: seq<T>) {
    forall x :: x in a <==> x in b
  }

  // --- partition_dedup ---------------------------------------------------------------------------------------------

  /** The sequence without elements equal to the one just before them. */
  function Dedup<T(==)>(s: seq<T>): (r: seq<T>)
    ensures |r| <= |s| && (s != [] ==> r != [] && r[|r| - 1] == s[|s| - 1])
  {
    if |s| <= 1 then s
    else
      var init := Dedup(s[..|s| - 1]);
      if s[|s| - 1] == s[|s| - 2] then init else init + [s[|s| - 1]]
  }

  lemma DedupSnoc<T>(s: seq<T>, x: T)
    requires s != []
    ensures Dedup(s + [x]) == if Dedup(s)[|Dedup(s)| - 1] == x then Dedup(s) else Dedup(s) + [x]
  {
    assert (s + [x])[..|s|] == s;
  }

  method Swap<T>(a: array<T>, i: nat, j: nat)
    requires i < a.Length && j < a.Length
    modifies a
    ensures multiset(a[..]) == multiset(old(a[..]))
    ensures a[..] == old(a[..])[i := old(a[j])][j := old(a[i])]
  {
    a[i], a[j] := a[j], a[i];
  }

  /** The first `read` elements are deduplicated into the first `write`, and the others are untouched. */
  ghost predicate Partial<T>(now: seq<T>, was: seq<T>, read: nat, write: nat) {
    && |now| == |was| && 1 <= write <= read <= |was|
    && now[..write] == Dedup(was[..read])
    && now[read..] == was[read..]
  }

  lemma PartialStep<T>(now: seq<T>, was: seq<T>, read: nat, write: nat)
    requires Partial(now, was, read, write) && read < |was|
    ensures if now[read] == now[write - 1] then Partial(now, was, read + 1, write)
            else Partial(now[read := now[write]][write := now[read]], was, read + 1, write + 1)
  {
    var x := was[read];
    DedupSnoc(was[..read], x);
    assert was[..read + 1] == was[..read] + [x];
    assert now[read] == now[read..][0] && x == was[read..][0];
    assert now[..write][write - 1] == now[write - 1];
    assert was[read..][1..] == was[read + 1..] && now[read..][1..] == now[read + 1..];
    if now[read] != now[write - 1] {
      var next := now[read := now[write]][write := now[read]];
      assert next[..write + 1] == now[..write] + [x];
      assert next[read + 1..] == now[read + 1..];
    }
  }

  /** Moves the kept elements to the front, in place; nothing is lost, and the front is the deduplicated input. */
  method PartitionDedup<T(==)>(a: array<T>) returns (nextWrite: nat)
    modifies a
    ensures nextWrite <= a.Length
    ensures a[..nextWrite] == Dedup(old(a[..]))
    ensures multiset(a[..]) == multiset(old(a[..]))
  {
    if a.Length <= 1 {
      assert a[..a.Length] == a[..];
      return a.Length;
    }
    ghost var was := a[..];
    var nextRead := 1;
    nextWrite := 1;
    assert was[..1] == [was[0]];
    while nextRead < a.Length
      invariant nextRead <= a.Length && Partial(a[..], was, nextRead, nextWrite)
      invariant multiset(a[..]) == multiset(was)
    {
      PartialStep(a[..], was, nextRead, nextWrite);
      if a[nextRead] != a[nextWrite - 1] {
        Swap(a, nextRead, nextWrite);
        nextWrite := nextWrite + 1;
      }
      nextRead := nextRead + 1;
    }
    assert was[..a.Length] == was && a[..][..nextWrite] == a[..nextWrite];
  }

  /** Of a sorted sequence, what remains is strictly increasing and has the same elements. */
  lemma {:induction false} DedupSorted<T(!new)>(s: seq<T>, lt: (T, T) -> bool)
    requires TotalOrder(lt) && Sorted(s, lt)
    ensures Increasing(Dedup(s), lt) && SameItems(Dedup(s), s)
  {
    if |s| > 1 {
      var init, last := s[..|s| - 1], s[|s| - 1];
      DedupSorted(init, lt);
      var d := Dedup(init);
      assert s == init + [last];
      if last != s[|s| - 2] {
        assert lt(d[|d| - 1], last);
        forall i | 0 <= i < |d| ensures lt(d[i], last) {
          assert i < |d| - 1 ==> lt(d[i], d[|d| - 1]);
        }
      }
    }
  }

  // --- sorted slices as sets ---------------------------------------------------------------------------------------

  lemma SmallestFirst<T(!new)>(a: seq<T>, b: seq<T>, lt: (T, T) -> bool)
    requires TotalOrder(lt) && Increasing(a, lt) && Increasing(b, lt) && SameItems(a, b) && a != []
    ensures b != [] && a[0] == b[0]
  {
    assert a[0] in b;
    assert b[0] in a;
    var i :| 0 <= i < |a| && a[i] == b[0];
    var j :| 0 <= j < |b| && b[j] == a[0];
  }

  lemma TailsHaveSameItems<T(!new)>(a: seq<T>, b: seq<T>, lt: (T, T) -> bool)
    requires TotalOrder(lt) && Increasing(a, lt) && Increasing(b, lt) && SameItems(a, b)
    requires a != [] && b != [] && a[0] == b[0]
    ensures SameItems(a[1..], b[1..])
  {
    forall x ensures x in a[1..] <==> x in a && x != a[0] {
      assert x in a <==> x == a[0] || x in a[1..];
    }
    forall x ensures x in b[1..] <==> x in b && x != b[0] {
      assert x in b <==> x == b[0] || x in b[1..];
    }
  }

  lemma NoItems<T(!new)>(s: seq<T>)
    ensures s == [] || exists x :: x in s
  {
    if s != [] {
      assert s[0] in s;
    }
  }

  /** Two strictly increasing sequences with the same elements are the same. */
  lemma {:induction false} IncreasingDetermined<T(!new)>(a: seq<T>, b: seq<T>, lt: (T, T) -> bool)
    requires TotalOrder(lt) && Increasing(a, lt) && Increasing(b, lt)
    ensures a == b <==> SameItems(a, b)
  {
    if SameItems(a, b) {
      if a == [] {
        NoItems(b);
      } else {
        SmallestFirst(a, b, lt);
        TailsHaveSameItems(a, b, lt);
        IncreasingDetermined(a[1..], b[1..], lt);
        assert a == [a[0]] + a[1..] && b == [b[0]] + b[1..];
      }
    }
  }

  method BinarySearch<T(==, !new)>(s: seq<T>, x: T, lt: (T, T) -> bool) returns (r: Option<nat>)
    requires TotalOrder(lt) && Increasing(s, lt)
    ensures r.Some? ==> r.value < |s| && s[r.value] == x
    ensures r.None? ==> x !in s
  {
    var low, high := 0, |s|;
    while low < high
      invariant low <= high <= |s|
      invariant forall i :: 0 <= i < low ==> s[i] != x
      invariant forall i :: high <= i < |s| ==> s[i] != x
    {
      var middle := (low + high) / 2;
      if s[middle] == x {
        return Some(middle);
      }
      if lt(s[middle], x) {
        low := middle + 1;
      } else {
        high := middle;
      }
    }
    return None;
  }

  /**
   Whether a list, in any order and with any repetitions, has exactly the elements of a strictly increasing slice;
   the size of the caller's buffer does not matter.
   */
  method EqWithBuffer<T(==, !new)>(slice: seq<T>, items: seq<T>, lt: (T, T) -> bool, buffer: array<bool>)
    returns (equal: bool)
    requires TotalOrder(lt) && Increasing(slice, lt)
    requires forall i :: 0 <= i < buffer.Length ==> !buffer[i]
    modifies buffer
    ensures equal <==> SameItems(slice, items)
  {
    var seen := buffer;
    if |slice| > buffer.Length {
      seen := new bool[|slice|](_ => false);
    }
    for k := 0 to |items|
      invariant forall i :: 0 <= i < k ==> items[i] in slice
      invariant forall i :: 0 <= i < |slice| ==> (seen[i] <==> slice[i] in items[..k])
    {
      var at := BinarySearch(slice, items[k], lt);
      if at.None? {
        assert items[k] in items;
        return false;
      }
      seen[at.value] := true;
      MarkSeen(slice, items, lt, k, at.value);
    }
    equal := true;
    assert items[..|items|] == items;
    for i := 0 to |slice|
      invariant equal <==> forall j :: 0 <= j < i ==> seen[j]
    {
      equal := equal && seen[i];
    }
    assert equal <==> forall i :: 0 <= i < |slice| ==> slice[i] in items;
  }

  lemma MarkSeen<T(!new)>(slice: seq<T>, items: seq<T>, lt: (T, T) -> bool, k: nat, at: nat)
    requires TotalOrder(lt) && Increasing(slice, lt)
    requires k < |items| && at < |slice| && slice[at] == items[k]
    ensures forall i :: 0 <= i < |slice| ==> (slice[i] in items[..k + 1] <==> slice[i] in items[..k] || i == at)
  {
    assert items[..k + 1] == items[..k] + [items[k]];
    forall i | 0 <= i < |slice| ensures slice[i] == items[k] <==> i == at {
      if i < at {
        assert lt(slice[i], slice[at]);
      } else if at < i {
        assert lt(slice[at], slice[i]);
      }
    }
  }
}

/** Filters that admit any of some items, or all; the items are kept sorted and without duplicates. */
module OrFilters {
  import opened Basics
  import opened Slices
  import opened Sorting

  /** No items stands for the filter that admits everything. */
  datatype OrFilter<T> = OrFilter(inner: seq<T>) {
    predicate IsAll() { inner == [] }
  }

  ghost predicate Admits<T>(f: OrFilter<T>, x: T) {
    f.IsAll() || x in f.inner
  }

  // --- sorting -------------------------------------------------------------------------------------------------------

  lemma TotalIsWeak<T(!new)>(lt: (T, T) -> bool)
    requires TotalOrder(lt)
    ensures WeakOrder(lt)
  {
  }

  lemma SameMultisetSameItems<T(!new)>(a: seq<T>, b: seq<T>)
    requires multiset(a) == multiset(b)
    ensures SameItems(a, b)
  {
    forall x ensures x in a <==> x in b {
      assert x in a <==> x in multiset(a);
      assert x in b <==> x in multiset(b);
    }
  }

  /** Elements that compare equal are equal, so any sorting gives the sorted form. */
  method SortUnstable<T(0)>(a: array<T>, lt: (T, T) -> bool)
    modifies a
    ensures a[..] == SortedForm(old(a[..]), lt)
  {
    var sorted := SortedForm(a[..], lt);
    for i := 0 to a.Length
      invariant a[..i] == sorted[..i]
    {
      a[i] := sorted[i];
      assert a[..i + 1] == a[..i] + [sorted[i]];
    }
    assert a[..a.Length] == a[..] && sorted[..a.Length] == sorted;
  }

  // --- the filter's operations -------------------------------------------------------------------------------------

  /** No list gives the filter that admits everything, an empty list gives no filter. */
  method FromList<T(0, ==, !new)>(list: array?<T>, lt: (T, T) -> bool) returns (r: Option<OrFilter<T>>)
    requires TotalOrder(lt)
    modifies list
    ensures list == null ==> r == Some(OrFilter([]))
    ensures list != null ==> (r.None? <==> list.Length == 0)
    ensures r.Some? ==> Increasing(r.value.inner, lt)
    ensures list != null && r.Some? ==> !r.value.IsAll() && SameItems(r.value.inner, old(list[..]))
  {
    if list == null {
      return Some(OrFilter([]));
    }
    if list.Length == 0 {
      return None;
    }
    ghost var was := list[..];
    TotalIsWeak(lt);
    SortedFormSorts(was, lt);
    SortUnstable(list, lt);
    SameMultisetSameItems(list[..], was);
    DedupSorted(list[..], lt);
    var n := PartitionDedup(list);
    r := Some(OrFilter(list[..n]));
  }

  method Contains<T(==, !new)>(f: OrFilter<T>, item: T, lt: (T, T) -> bool) returns (r: bool)
    requires TotalOrder(lt) && Increasing(f.inner, lt)
    ensures r <==> Admits(f, item)
  {
    if f.IsAll() {
      return true;
    }
    var at := BinarySearch(f.inner, item, lt);
    r := at.Some?;
  }

  /** Filters are equal exactly when they have the same items. */
  lemma EqualIffSameItems<T(!new)>(f: OrFilter<T>, g: OrFilter<T>, lt: (T, T) -> bool)
    requires TotalOrder(lt) && Increasing(f.inner, lt) && Increasing(g.inner, lt)
    ensures f == g <==> SameItems(f.inner, g.inner)
  {
    IncreasingDetermined(f.inner, g.inner, lt);
  }

  /** Comparing with a list, or with no list for "all". */
  method Compare<T(==, !new)>(f: OrFilter<T>, list: Option<seq<T>>, lt: (T, T) -> bool, stackSize: nat)
      returns (equal: bool)
    requires TotalOrder(lt) && Increasing(f.inner, lt)
    ensures equal <==> if list.None? then f.IsAll() else !f.IsAll() && SameItems(f.inner, list.value)
  {
    if list.None? {
      return f.IsAll();
    }
    if f.IsAll() {
      return false;
    }
    var buffer := new bool[stackSize](_ => false);
    equal := EqWithBuffer(f.inner, list.value, lt, buffer);
  }
}
