/**
 * Stable sorting by an integer key, as `Array.prototype.sort` promises it: the result
 * is ordered, it holds the same elements, and elements with equal keys keep the order
 * in which they came.
 */
module StableSorting {

  predicate Sorted<T>(key: T -> int, s: seq<T>) {
    forall i, j | 0 <= i < j < |s| :: key(s[i]) <= key(s[j])
  }

  /** Places `x` after every element whose key is not greater. */
  function Insert<T>(key: T -> int, s: seq<T>, x: T): seq<T> {
    if s == [] then [x]
    else if key(s[|s| - 1]) <= key(x) then s + [x]
    else Insert(key, s[..|s| - 1], x) + [s[|s| - 1]]
  }

  function StableSort<T>(key: T -> int, s: seq<T>): seq<T> {
    if s == [] then [] else Insert(key, StableSort(key, s[..|s| - 1]), s[|s| - 1])
  }

  function Filter<T>(keep: T -> bool, s: seq<T>): seq<T> {
    if s == [] then []
    else if keep(s[|s| - 1]) then Filter(keep, s[..|s| - 1]) + [s[|s| - 1]]
    else Filter(keep, s[..|s| - 1])
  }

  lemma {:induction false} InsertElements<T>(key: T -> int, s: seq<T>, x: T)
    ensures multiset(Insert(key, s, x)) == multiset(s) + multiset{x}
  {
    if s != [] && key(s[|s| - 1]) > key(x) {
      InsertElements(key, s[..|s| - 1], x);
      assert s == s[..|s| - 1] + [s[|s| - 1]];
    }
  }

  lemma {:induction false} SortElements<T>(key: T -> int, s: seq<T>)
    ensures multiset(StableSort(key, s)) == multiset(s)
  {
    if s != [] {
      var front, last := s[..|s| - 1], s[|s| - 1];
      SortElements(key, front);
      InsertElements(key, StableSort(key, front), last);
      assert s == front + [last];
    }
  }

  lemma {:induction false} InsertSorted<T>(key: T -> int, s: seq<T>, x: T)
    requires Sorted(key, s)
    ensures Sorted(key, Insert(key, s, x))
  {
    if s != [] && key(s[|s| - 1]) > key(x) {
      var front, last := s[..|s| - 1], s[|s| - 1];
      InsertSorted(key, front, x);
      InsertElements(key, front, x);
      var r := Insert(key, front, x);
      forall i | 0 <= i < |r| ensures key(r[i]) <= key(last) {
        assert r[i] in multiset(r);
      }
    }
  }

  lemma {:induction false} SortSorted<T>(key: T -> int, s: seq<T>)
    ensures Sorted(key, StableSort(key, s))
  {
    if s != [] {
      SortSorted(key, s[..|s| - 1]);
      InsertSorted(key, StableSort(key, s[..|s| - 1]), s[|s| - 1]);
    }
  }

  lemma {:induction false} SortOfSorted<T>(key: T -> int, s: seq<T>)
    requires Sorted(key, s)
    ensures StableSort(key, s) == s
  {
    if s != [] {
      SortOfSorted(key, s[..|s| - 1]);
      assert s == s[..|s| - 1] + [s[|s| - 1]];
    }
  }

  lemma {:induction false} FilterSnoc<T>(keep: T -> bool, s: seq<T>, x: T)
    ensures Filter(keep, s + [x]) == if keep(x) then Filter(keep, s) + [x] else Filter(keep, s)
  {
    assert (s + [x])[..|s|] == s;
  }

  lemma {:induction false} FilterAppend<T>(keep: T -> bool, s: seq<T>, t: seq<T>)
    ensures Filter(keep, s + t) == Filter(keep, s) + Filter(keep, t)
  {
    if t == [] {
      assert s + t == s;
    } else {
      var front, last := t[..|t| - 1], t[|t| - 1];
      FilterAppend(keep, s, front);
      FilterSnoc(keep, s + front, last);
      assert s + t == (s + front) + [last];
    }
  }

  lemma {:induction false} FilterFrom<T>(keep: T -> bool, s: seq<T>)
    ensures forall x | x in Filter(keep, s) :: x in s && keep(x)
  {
    if s != [] {
      FilterFrom(keep, s[..|s| - 1]);
    }
  }

  lemma {:induction false} FilterAll<T>(keep: T -> bool, s: seq<T>)
    requires forall x | x in s :: keep(x)
    ensures Filter(keep, s) == s
  {
    if s != [] {
      FilterAll(keep, s[..|s| - 1]);
      assert s == s[..|s| - 1] + [s[|s| - 1]];
    }
  }

  lemma {:induction false} FilterNone<T>(keep: T -> bool, s: seq<T>)
    requires forall x | x in s :: !keep(x)
    ensures Filter(keep, s) == []
  {
    if s != [] {
      FilterNone(keep, s[..|s| - 1]);
    }
  }

  lemma {:induction false} InsertAfterAll<T>(key: T -> int, s: seq<T>, x: T)
    requires forall y | y in s :: key(y) <= key(x)
    ensures Insert(key, s, x) == s + [x]
  {
  }

  lemma {:induction false} FilterInsert<T>(key: T -> int, keep: T -> bool, s: seq<T>, x: T)
    requires Sorted(key, s)
    ensures Filter(keep, Insert(key, s, x))
         == if keep(x) then Insert(key, Filter(keep, s), x) else Filter(keep, s)
  {
    if s == [] {
      FilterSnoc(keep, [], x);
    } else {
      var front, last := s[..|s| - 1], s[|s| - 1];
      if key(last) <= key(x) {
        FilterSnoc(keep, s, x);
        FilterFrom(keep, s);
        InsertAfterAll(key, Filter(keep, s), x);
      } else {
        FilterInsert(key, keep, front, x);
        FilterSnoc(keep, Insert(key, front, x), last);
        if keep(last) {
          InsertBeforeLast(key, Filter(keep, front), x, last);
        }
      }
    }
  }

  lemma {:induction false} InsertBeforeLast<T>(key: T -> int, s: seq<T>, x: T, last: T)
    requires key(last) > key(x)
    ensures Insert(key, s + [last], x) == Insert(key, s, x) + [last]
  {
    assert (s + [last])[..|s|] == s;
  }

  /** Stability: whatever part of the list is looked at, it is that part, sorted. */
  lemma {:induction false} FilterSort<T>(key: T -> int, keep: T -> bool, s: seq<T>)
    ensures Filter(keep, StableSort(key, s)) == StableSort(key, Filter(keep, s))
  {
    if s != [] {
      var front, last := s[..|s| - 1], s[|s| - 1];
      FilterSort(key, keep, front);
      SortSorted(key, front);
      FilterInsert(key, keep, StableSort(key, front), last);
      var kept := Filter(keep, front);
      assert (kept + [last])[..|kept|] == kept;
    }
  }

  /** Sorting more elements into a sorted list leaves the old elements in their order. */
  lemma {:induction false} SortKeepsPart<T>(key: T -> int, keep: T -> bool, a: seq<T>, b: seq<T>)
    requires Sorted(key, a)
    requires (forall x | x in a :: keep(x)) && (forall x | x in b :: !keep(x))
    ensures Filter(keep, StableSort(key, a + b)) == a
  {
    FilterAppend(keep, a, b);
    FilterAll(keep, a);
    FilterNone(keep, b);
    assert a + [] == a;
    FilterSort(key, keep, a + b);
    SortOfSorted(key, a);
  }

  /** Elements with equal keys keep their order. */
  lemma {:induction false} SortKeepsTies<T>(key: T -> int, tied: T -> bool, a: seq<T>, b: seq<T>, value: int)
    requires forall x | x in a + b && tied(x) :: key(x) == value
    ensures Filter(tied, StableSort(key, a + b)) == Filter(tied, a) + Filter(tied, b)
  {
    FilterAppend(tied, a, b);
    FilterSort(key, tied, a + b);
    var kept := Filter(tied, a + b);
    FilterFrom(tied, a + b);
    forall i | 0 <= i < |kept| ensures key(kept[i]) == value {
      assert kept[i] in kept;
    }
    SortOfSorted(key, kept);
  }

  lemma {:induction false} SortFrom<T>(key: T -> int, s: seq<T>)
    ensures forall x | x in StableSort(key, s) :: x in s
  {
    SortElements(key, s);
    forall x | x in StableSort(key, s) ensures x in s {
      assert x in multiset(StableSort(key, s));
      assert x in multiset(s);
    }
  }
}
