/**
 * Shared vocabulary: optional values, error results and a few facts about sequences,
 * mostly about the concatenation of a list of lists and about what does not depend on
 * the order of its parts.
 */
module Prelude {

  datatype Option<+T> = None | Some(value: T)

  datatype Result<+T, +E> = Ok(value: T) | Err(error: E) {
    predicate IsFailure() {
      Err?
    }

    function PropagateFailure<U>(): Result<U, E>
      requires Err?
    {
      Err(error)
    }

    function Extract(): T
      requires Ok?
    {
      value
    }
  }

  /** The sequences of `ss` one after the other. */
  function Flatten<T>(ss: seq<seq<T>>): seq<T> {
    if ss == [] then [] else ss[0] + Flatten(ss[1..])
  }

  lemma {:induction false} FlattenAppend<T>(ss: seq<seq<T>>, ts: seq<seq<T>>)
    ensures Flatten(ss + ts) == Flatten(ss) + Flatten(ts)
  {
    if ss == [] {
      assert ss + ts == ts;
    } else {
      calc {
        Flatten(ss + ts);
        { assert (ss + ts)[1..] == ss[1..] + ts; }
        ss[0] + Flatten(ss[1..] + ts);
        { FlattenAppend(ss[1..], ts); }
        Flatten(ss) + Flatten(ts);
      }
    }
  }

  lemma {:induction false} FlattenSnoc<T>(ss: seq<seq<T>>, t: seq<T>)
    ensures Flatten(ss + [t]) == Flatten(ss) + t
  {
    FlattenAppend(ss, [t]);
    assert Flatten([t]) == t + Flatten<T>([]);
  }

  /** Growing one of the sequences adds exactly the new elements to the whole. */
  lemma {:induction false} FlattenGrow<T>(ss: seq<seq<T>>, p: nat, extra: seq<T>)
    requires p < |ss|
    ensures multiset(Flatten(ss[p := ss[p] + extra])) == multiset(Flatten(ss)) + multiset(extra)
  {
    if p == 0 {
      assert ss[0 := ss[0] + extra][1..] == ss[1..];
    } else {
      FlattenGrow(ss[1..], p - 1, extra);
      assert ss[p := ss[p] + extra][1..] == ss[1..][p - 1 := ss[p] + extra];
    }
  }

  /** Concatenation only depends on the elements of the parts, up to order. */
  lemma {:induction false} FlattenSameElements<T>(ss: seq<seq<T>>, ts: seq<seq<T>>)
    requires |ss| == |ts|
    requires forall k | 0 <= k < |ss| :: multiset(ss[k]) == multiset(ts[k])
    ensures multiset(Flatten(ss)) == multiset(Flatten(ts))
  {
    if ss != [] {
      FlattenSameElements(ss[1..], ts[1..]);
    }
  }

  lemma {:induction false} ConsAppend<T>(x: T, a: seq<T>, b: seq<T>)
    ensures ([x] + a) + b == [x] + (a + b)
  {
  }

  /** The images of all elements one after the other. */
  function FlatMap<T, R>(f: T -> seq<R>, s: seq<T>): seq<R> {
    if s == [] then [] else FlatMap(f, s[..|s| - 1]) + f(s[|s| - 1])
  }

  lemma {:induction false} FlatMapAppend<T, R>(f: T -> seq<R>, a: seq<T>, b: seq<T>)
    ensures FlatMap(f, a + b) == FlatMap(f, a) + FlatMap(f, b)
  {
    if b == [] {
      assert a + b == a;
    } else {
      assert (a + b)[..|a + b| - 1] == a + b[..|b| - 1];
      FlatMapAppend(f, a, b[..|b| - 1]);
    }
  }

  lemma {:induction false} FlatMapSnoc<T, R>(f: T -> seq<R>, s: seq<T>, x: T)
    ensures FlatMap(f, s + [x]) == FlatMap(f, s) + f(x)
  {
    assert (s + [x])[..|s|] == s;
  }

  lemma {:induction false} FlatMapOne<T, R>(f: T -> seq<R>, x: T)
    ensures FlatMap(f, [x]) == f(x)
  {
    assert [x][..0] == [];
  }

  /** When `g` sees the same in `f(x)` as in `x`, it sees the same in all images as in all elements. */
  lemma {:induction false} FlatMapThrough<T, R>(f: T -> seq<T>, g: T -> seq<R>, s: seq<T>)
    requires forall k | 0 <= k < |s| :: FlatMap(g, f(s[k])) == g(s[k])
    ensures FlatMap(g, FlatMap(f, s)) == FlatMap(g, s)
  {
    if s != [] {
      FlatMapThrough(f, g, s[..|s| - 1]);
      FlatMapAppend(g, FlatMap(f, s[..|s| - 1]), f(s[|s| - 1]));
    }
  }

  lemma {:induction false} FlatMapNone<T, R>(f: T -> seq<R>, s: seq<T>)
    requires forall k | 0 <= k < |s| :: f(s[k]) == []
    ensures FlatMap(f, s) == []
  {
    if s != [] {
      FlatMapNone(f, s[..|s| - 1]);
    }
  }

  /** Replacing an element by one with the same image changes nothing. */
  lemma {:induction false} FlatMapReplace<T, R>(f: T -> seq<R>, s: seq<T>, n: nat, x: T)
    requires n < |s| && f(x) == f(s[n])
    ensures FlatMap(f, s[n := x]) == FlatMap(f, s)
  {
    var last := |s| - 1;
    assert s[n := x][..last] == if n < last then s[..last][n := x] else s[..last];
    if n < last {
      FlatMapReplace(f, s[..last], n, x);
    }
  }

  lemma {:induction false} FlatMapReplaceLength<T, R>(f: T -> seq<R>, s: seq<T>, n: nat, x: T)
    requires n < |s|
    ensures |FlatMap(f, s[n := x])| + |f(s[n])| == |FlatMap(f, s)| + |f(x)|
  {
    var last := |s| - 1;
    assert s[n := x][..last] == if n < last then s[..last][n := x] else s[..last];
    if n < last {
      FlatMapReplaceLength(f, s[..last], n, x);
    }
  }

  lemma {:induction false} Regroup<T>(a: seq<T>, b: seq<T>, c: seq<T>)
    ensures a + (b + c) == (a + b) + c
  {
  }

  lemma {:induction false} FlatMapSame<T, R>(f: T -> seq<R>, g: T -> seq<R>, s: seq<T>)
    requires forall k | 0 <= k < |s| :: f(s[k]) == g(s[k])
    ensures FlatMap(f, s) == FlatMap(g, s)
  {
    if s != [] {
      FlatMapSame(f, g, s[..|s| - 1]);
    }
  }
}
