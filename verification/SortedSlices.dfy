/**
 * Sorted lists that are made of one slice for each source: a slice can be replaced
 * without touching the others, and the slices determine the list. The order inside a
 * slice is that of the sort.
 */
module SortedSlices {
  import opened Prelude
  import opened StableSorting

  function Of<T>(src: T -> string, s: string): T -> bool {
    x => src(x) == s
  }

  function NotOf<T>(src: T -> string, s: string): T -> bool {
    x => src(x) != s
  }

  function SliceOf<T>(src: T -> string, list: seq<T>, s: string): seq<T> {
    Filter(Of(src, s), list)
  }

  /** A list with the slice of one source replaced. */
  function Replaced<T>(key: T -> int, src: T -> string, list: seq<T>, s: string, slice: seq<T>): seq<T> {
    StableSort(key, Filter(NotOf(src, s), list) + slice)
  }

  ghost predicate AllOf<T>(src: T -> string, list: seq<T>, s: string) {
    forall x | x in list :: src(x) == s
  }

  lemma {:induction false} FilterOther<T>(src: T -> string, list: seq<T>, s: string, t: string)
    ensures SliceOf(src, Filter(NotOf(src, t), list), s) == if s == t then [] else SliceOf(src, list, s)
  {
    if list != [] {
      var front, last := list[..|list| - 1], list[|list| - 1];
      FilterOther(src, front, s, t);
      if src(last) != t {
        FilterSnoc(Of(src, s), Filter(NotOf(src, t), front), last);
      }
    }
  }

  /** Replacing one slice sorts it in and leaves every other slice as it was, but sorted. */
  lemma {:induction false} ReplacedSlice<T>(key: T -> int, src: T -> string, list: seq<T>, t: string, slice: seq<T>,
      s: string)
    requires AllOf(src, slice, t)
    ensures SliceOf(src, Replaced(key, src, list, t, slice), s)
      == if s == t then StableSort(key, slice) else StableSort(key, SliceOf(src, list, s))
  {
    var kept := Filter(NotOf(src, t), list);
    FilterSort(key, Of(src, s), kept + slice);
    FilterAppend(Of(src, s), kept, slice);
    FilterOther(src, list, s, t);
    if s == t {
      FilterAll(Of(src, s), slice);
      var none: seq<T> := [];
      assert none + slice == slice;
    } else {
      FilterNone(Of(src, s), slice);
      assert SliceOf(src, list, s) + [] == SliceOf(src, list, s);
    }
  }

  /** No two elements of different sources are equal in the order. */
  ghost predicate NoCrossTies<T>(key: T -> int, src: T -> string, list: seq<T>) {
    forall x, y | x in list && y in list && src(x) != src(y) :: key(x) != key(y)
  }

  lemma {:induction false} InSlice<T>(src: T -> string, list: seq<T>, x: T)
    requires x in list
    ensures x in SliceOf(src, list, src(x))
  {
    var front, last := list[..|list| - 1], list[|list| - 1];
    if x in front {
      InSlice(src, front, x);
    } else {
      assert x == last;
    }
  }

  lemma {:induction false} FromSlice<T>(src: T -> string, list: seq<T>, s: string, x: T)
    requires x in SliceOf(src, list, s)
    ensures x in list
  {
    FilterFrom(Of(src, s), list);
  }

  lemma {:induction false} LastAgrees<T>(key: T -> int, src: T -> string, a: seq<T>, b: seq<T>)
    requires Sorted(key, a) && Sorted(key, b) && NoCrossTies(key, src, a) && a != [] && b != []
    requires forall s: string :: SliceOf(src, a, s) == SliceOf(src, b, s)
    ensures a[|a| - 1] == b[|b| - 1]
  {
    var x, y := a[|a| - 1], b[|b| - 1];
    InSlice(src, a, x);
    FromSlice(src, b, src(x), x);
    InSlice(src, b, y);
    FromSlice(src, a, src(y), y);
    assert x in a && key(x) == key(y);
    SliceFront(src, a, src(x));
    SliceFront(src, b, src(y));
    if src(x) == src(y) {
      var slice := SliceOf(src, a, src(x));
      assert slice[|slice| - 1] == x && slice[|slice| - 1] == y;
    }
  }

  lemma {:induction false} CancelLast<T>(a: seq<T>, b: seq<T>, x: T)
    requires a + [x] == b + [x]
    ensures a == b
  {
    assert |a| == |b|;
    assert forall k | 0 <= k < |a| :: a[k] == (a + [x])[k];
  }

  lemma {:induction false} SliceFront<T>(src: T -> string, list: seq<T>, s: string)
    requires list != []
    ensures SliceOf(src, list, s) == if src(list[|list| - 1]) == s
      then SliceOf(src, list[..|list| - 1], s) + [list[|list| - 1]] else SliceOf(src, list[..|list| - 1], s)
  {
  }

  /** Sorted lists with the same slices are the same, when sources never tie. */
  lemma {:induction false} SlicesDetermine<T>(key: T -> int, src: T -> string, a: seq<T>, b: seq<T>)
    requires Sorted(key, a) && Sorted(key, b) && NoCrossTies(key, src, a)
    requires forall s: string :: SliceOf(src, a, s) == SliceOf(src, b, s)
    ensures a == b
  {
    if a == [] {
      if b != [] {
        InSlice(src, b, b[|b| - 1]);
      }
    } else if b == [] {
      InSlice(src, a, a[|a| - 1]);
    } else {
      LastAgrees(key, src, a, b);
      var front, rest := a[..|a| - 1], b[..|b| - 1];
      forall s: string ensures SliceOf(src, front, s) == SliceOf(src, rest, s) {
        SliceFront(src, a, s);
        SliceFront(src, b, s);
        if src(a[|a| - 1]) == s {
          CancelLast(SliceOf(src, front, s), SliceOf(src, rest, s), a[|a| - 1]);
        }
      }
      SlicesDetermine(key, src, front, rest);
    }
  }

  lemma {:induction false} SliceOfParts<T>(src: T -> string, part: string -> seq<T>, ids: seq<string>, s: string)
    requires forall id | id in ids :: AllOf(src, part(id), id)
    requires forall i, j | 0 <= i < j < |ids| :: ids[i] != ids[j]
    ensures SliceOf(src, FlatMap(part, ids), s) == if s in ids then part(s) else []
  {
    if ids != [] {
      var front, last := ids[..|ids| - 1], ids[|ids| - 1];
      SliceOfParts(src, part, front, s);
      FilterAppend(Of(src, s), FlatMap(part, front), part(last));
      if last == s {
        FilterAll(Of(src, s), part(last));
        assert s !in front;
      } else {
        FilterNone(Of(src, s), part(last));
      }
    }
  }

  // ---------------------------------------------------------------------
  // Replacing slices one after the other.

  function ReplacedAll<T>(key: T -> int, src: T -> string, list: seq<T>, order: seq<string>,
      part: string -> seq<T>): seq<T>
  {
    if order == [] then list else
      var s := order[|order| - 1];
      Replaced(key, src, ReplacedAll(key, src, list, order[..|order| - 1], part), s, part(s))
  }

  lemma {:induction false} ReplacedAllSlice<T>(key: T -> int, src: T -> string, list: seq<T>, order: seq<string>,
                                                part: string -> seq<T>, s: string)
    requires forall id | id in order :: AllOf(src, part(id), id)
    ensures s in order ==> SliceOf(src, ReplacedAll(key, src, list, order, part), s) == StableSort(key, part(s))
    ensures s !in order && SliceOf(src, list, s) == []
      ==> SliceOf(src, ReplacedAll(key, src, list, order, part), s) == []
  {
    if order != [] {
      var front, last := order[..|order| - 1], order[|order| - 1];
      ReplacedAllSlice(key, src, list, front, part, s);
      ReplacedSlice(key, src, ReplacedAll(key, src, list, front, part), last, part(last), s);
      if s != last && s in front {
        SortSorted(key, part(s));
        SortOfSorted(key, StableSort(key, part(s)));
      }
    }
  }

  lemma {:induction false} NoSlice<T>(src: T -> string, list: seq<T>, s: string)
    requires forall x | x in list :: src(x) != s
    ensures SliceOf(src, list, s) == []
  {
    FilterNone(Of(src, s), list);
  }

  lemma {:induction false} TiesOfSorted<T>(key: T -> int, src: T -> string, s: seq<T>)
    requires NoCrossTies(key, src, s)
    ensures NoCrossTies(key, src, StableSort(key, s))
  {
    SortFrom(key, s);
  }

  lemma {:induction false} ReplacedAllSorted<T>(key: T -> int, src: T -> string, list: seq<T>, order: seq<string>,
      part: string -> seq<T>)
    requires order != [] || list == []
    ensures Sorted(key, ReplacedAll(key, src, list, order, part))
  {
    if order != [] {
      var s, front := order[|order| - 1], order[..|order| - 1];
      SortSorted(key, Filter(NotOf(src, s), ReplacedAll(key, src, list, front, part)) + part(s));
    }
  }

  lemma {:induction false} FullSlice<T>(key: T -> int, src: T -> string, part: string -> seq<T>, ids: seq<string>,
      s: string)
    requires forall i, j | 0 <= i < j < |ids| :: ids[i] != ids[j]
    requires forall id | id in ids :: AllOf(src, part(id), id)
    ensures SliceOf(src, StableSort(key, FlatMap(part, ids)), s) == if s in ids then StableSort(key, part(s)) else []
  {
    FilterSort(key, Of(src, s), FlatMap(part, ids));
    SliceOfParts(src, part, ids, s);
  }

  /**
   * Replacing the slices of all sources one at a time, in any order and with repetitions,
   * gives a list with the same slices as the one that is built from all parts at once,
   * whatever was there before.
   */
  lemma {:induction false} SlicesOneAtATime<T>(key: T -> int, src: T -> string, list: seq<T>, order: seq<string>,
                                                part: string -> seq<T>, ids: seq<string>)
    requires forall i, j | 0 <= i < j < |ids| :: ids[i] != ids[j]
    requires (forall id :: AllOf(src, part(id), id)) && (forall id | id !in ids :: part(id) == [])
    requires (forall id | id in ids :: id in order) && (forall x | x in list :: src(x) in ids)
    ensures var full, result := StableSort(key, FlatMap(part, ids)), ReplacedAll(key, src, list, order, part);
      && Sorted(key, full) && Sorted(key, result)
      && forall s: string :: SliceOf(src, full, s) == SliceOf(src, result, s)
  {
    var full, result := StableSort(key, FlatMap(part, ids)), ReplacedAll(key, src, list, order, part);
    SortSorted(key, FlatMap(part, ids));
    NothingToDo(src, list, order, ids);
    ReplacedAllSorted(key, src, list, order, part);
    forall s: string ensures SliceOf(src, full, s) == SliceOf(src, result, s) {
      FullSlice(key, src, part, ids, s);
      ReplacedAllSlice(key, src, list, order, part, s);
      if s !in order {
        NoSlice(src, list, s);
      }
    }
  }

  /** Two elements of two sources that tie stand in the order in which their sources were reached. */
  lemma {:induction false} TiesShowOrder<T>(key: T -> int, src: T -> string, x: T, y: T, part: string -> seq<T>)
    requires key(x) == key(y) && src(x) != src(y) && part(src(x)) == [x] && part(src(y)) == [y]
    ensures ReplacedAll(key, src, [], [src(x), src(y)], part) == [x, y]
    ensures ReplacedAll(key, src, [], [src(y), src(x)], part) == [y, x]
  {
    TwoInTurn(key, src, x, y, part);
    TwoInTurn(key, src, y, x, part);
  }

  lemma {:induction false} FirstReplaced<T>(key: T -> int, src: T -> string, x: T)
    ensures Replaced(key, src, [], src(x), [x]) == [x]
  {
    var none: seq<T> := [];
    assert Filter(NotOf(src, src(x)), none) + [x] == [x];
    SortOfSorted(key, [x]);
  }

  lemma {:induction false} NextReplaced<T>(key: T -> int, src: T -> string, x: T, y: T)
    requires key(x) == key(y) && src(x) != src(y)
    ensures Replaced(key, src, [x], src(y), [y]) == [x, y]
  {
    FilterAll(NotOf(src, src(y)), [x]);
    SortOfSorted(key, [x, y]);
    assert [x] + [y] == [x, y];
  }

  lemma {:induction false} TwoInTurn<T>(key: T -> int, src: T -> string, x: T, y: T, part: string -> seq<T>)
    requires key(x) == key(y) && src(x) != src(y) && part(src(x)) == [x] && part(src(y)) == [y]
    ensures ReplacedAll(key, src, [], [src(x), src(y)], part) == [x, y]
  {
    var order := [src(x), src(y)];
    assert order[..1] == [src(x)] && order[..1][..0] == [];
    FirstReplaced(key, src, x);
    assert ReplacedAll(key, src, [], order[..1], part) == [x];
    NextReplaced(key, src, x, y);
  }

  lemma {:induction false} NothingToDo<T>(src: T -> string, list: seq<T>, order: seq<string>, ids: seq<string>)
    requires (forall id | id in ids :: id in order) && (forall x | x in list :: src(x) in ids)
    ensures order != [] || list == []
  {
    if list != [] {
      assert list[0] in list;
      assert src(list[0]) in ids;
    }
  }

  /** It makes no difference to the slices whether the parts were sorted before they are put together. */
  lemma {:induction false} SortedParts<T>(key: T -> int, src: T -> string, part: string -> seq<T>,
      sorted: string -> seq<T>, ids: seq<string>)
    requires forall i, j | 0 <= i < j < |ids| :: ids[i] != ids[j]
    requires forall id ::
      AllOf(src, part(id), id) && AllOf(src, sorted(id), id) && sorted(id) == StableSort(key, part(id))
    ensures forall s: string ::
      SliceOf(src, StableSort(key, FlatMap(part, ids)), s) == SliceOf(src, StableSort(key, FlatMap(sorted, ids)), s)
  {
    forall s: string
      ensures SliceOf(src, StableSort(key, FlatMap(part, ids)), s)
        == SliceOf(src, StableSort(key, FlatMap(sorted, ids)), s)
    {
      FullSlice(key, src, part, ids, s);
      FullSlice(key, src, sorted, ids, s);
      SortSorted(key, part(s));
      SortOfSorted(key, StableSort(key, part(s)));
    }
  }

  // ---------------------------------------------------------------------
  // Changing elements without moving them.

  function Map<T, R>(f: T -> R, s: seq<T>): (r: seq<R>)
    ensures |r| == |s| && forall k | 0 <= k < |r| :: r[k] == f(s[k])
  {
    seq(|s|, k requires 0 <= k < |s| => f(s[k]))
  }

  lemma {:induction false} MapInsert<T>(f: T -> T, key: T -> int, s: seq<T>, x: T)
    requires forall y :: key(f(y)) == key(y)
    ensures Map(f, Insert(key, s, x)) == Insert(key, Map(f, s), f(x))
  {
    if s != [] && key(s[|s| - 1]) > key(x) {
      var front, last := s[..|s| - 1], s[|s| - 1];
      MapInsert(f, key, front, x);
      assert Map(f, s)[..|s| - 1] == Map(f, front);
      assert Map(f, Insert(key, front, x) + [last]) == Map(f, Insert(key, front, x)) + [f(last)];
    } else {
      assert Map(f, s + [x]) == Map(f, s) + [f(x)];
    }
  }

  lemma {:induction false} MapSort<T>(f: T -> T, key: T -> int, s: seq<T>)
    requires forall y :: key(f(y)) == key(y)
    ensures Map(f, StableSort(key, s)) == StableSort(key, Map(f, s))
  {
    if s != [] {
      var front, last := s[..|s| - 1], s[|s| - 1];
      MapSort(f, key, front);
      MapInsert(f, key, StableSort(key, front), last);
      assert Map(f, s)[..|s| - 1] == Map(f, front);
    }
  }

  lemma {:induction false} MapFilter<T>(f: T -> T, keep: T -> bool, s: seq<T>)
    requires forall y :: keep(f(y)) == keep(y)
    ensures Map(f, Filter(keep, s)) == Filter(keep, Map(f, s))
  {
    if s != [] {
      var front, last := s[..|s| - 1], s[|s| - 1];
      MapFilter(f, keep, front);
      assert Map(f, s)[..|s| - 1] == Map(f, front);
      assert Map(f, Filter(keep, front) + [last]) == Map(f, Filter(keep, front)) + [f(last)];
    }
  }

  lemma {:induction false} MapReplaced<T>(f: T -> T, key: T -> int, src: T -> string, list: seq<T>, s: string,
      slice: seq<T>)
    requires forall y :: key(f(y)) == key(y) && src(f(y)) == src(y)
    ensures Map(f, Replaced(key, src, list, s, slice)) == Replaced(key, src, Map(f, list), s, Map(f, slice))
  {
    var kept := Filter(NotOf(src, s), list);
    MapSort(f, key, kept + slice);
    MapFilter(f, NotOf(src, s), list);
    assert Map(f, kept + slice) == Map(f, kept) + Map(f, slice);
  }
}
