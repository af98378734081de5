/**
 * Grouping a list by key: one group per key, in order of first appearance, as a
 * JavaScript `Map` of lists collects them. Elements without a key are dropped, and
 * each group is a subsequence of the list.
 */
module Grouping {
  import opened Prelude

  /** The keys of the first `n` elements, each once, in order of first appearance. */
  function Order<K(==)>(keys: seq<Option<K>>, n: nat): seq<K>
    requires n <= |keys|
  {
    if n == 0 then []
    else if keys[n - 1].None? || keys[n - 1].value in Order(keys, n - 1) then Order(keys, n - 1)
    else Order(keys, n - 1) + [keys[n - 1].value]
  }

  /** The elements among the first `n` with this key, in order. */
  function Members<T, K(==)>(items: seq<T>, keys: seq<Option<K>>, key: K, n: nat): seq<T>
    requires n <= |items| == |keys|
  {
    if n == 0 then []
    else Members(items, keys, key, n - 1) + (if keys[n - 1] == Some(key) then [items[n - 1]] else [])
  }

  function GroupsUpTo<T, K(==)>(items: seq<T>, keys: seq<Option<K>>, n: nat): (groups: seq<seq<T>>)
    requires n <= |items| == |keys|
    ensures |groups| == |Order(keys, n)|
    ensures forall k | 0 <= k < |groups| :: groups[k] == Members(items, keys, Order(keys, n)[k], n)
  {
    seq(|Order(keys, n)|, k requires 0 <= k < |Order(keys, n)| => Members(items, keys, Order(keys, n)[k], n))
  }

  function GroupBy<T, K(==)>(items: seq<T>, keys: seq<Option<K>>): seq<seq<T>>
    requires |items| == |keys|
  {
    GroupsUpTo(items, keys, |items|)
  }

  /** A key is listed exactly if some element carries it. */
  lemma {:induction false} OrderListsKeys<K>(keys: seq<Option<K>>, n: nat, key: K)
    requires n <= |keys|
    ensures key in Order(keys, n) <==> exists i | 0 <= i < n :: keys[i] == Some(key)
  {
    if n != 0 {
      OrderListsKeys(keys, n - 1, key);
    }
  }

  lemma {:induction false} OrderDistinct<K>(keys: seq<Option<K>>, n: nat)
    requires n <= |keys|
    ensures forall k, l | 0 <= k < l < |Order(keys, n)| :: Order(keys, n)[k] != Order(keys, n)[l]
  {
    if n != 0 {
      OrderDistinct(keys, n - 1);
    }
  }

  lemma {:induction false} NoMembers<T, K>(items: seq<T>, keys: seq<Option<K>>, key: K, n: nat)
    requires n <= |items| == |keys| && key !in Order(keys, n)
    ensures Members(items, keys, key, n) == []
  {
    if n != 0 {
      NoMembers(items, keys, key, n - 1);
    }
  }

  lemma {:induction false} GroupsSkip<T, K>(items: seq<T>, keys: seq<Option<K>>, n: nat)
    requires n < |items| == |keys| && keys[n].None?
    ensures Order(keys, n + 1) == Order(keys, n)
    ensures GroupsUpTo(items, keys, n + 1) == GroupsUpTo(items, keys, n)
  {
    var before, after := GroupsUpTo(items, keys, n), GroupsUpTo(items, keys, n + 1);
    forall k | 0 <= k < |before| ensures before[k] == after[k] {
    }
  }

  lemma {:induction false} GroupsJoin<T, K>(items: seq<T>, keys: seq<Option<K>>, n: nat, p: nat)
    requires n < |items| == |keys| && p < |Order(keys, n)| && keys[n] == Some(Order(keys, n)[p])
    ensures Order(keys, n + 1) == Order(keys, n)
    ensures GroupsUpTo(items, keys, n + 1)
         == GroupsUpTo(items, keys, n)[p := GroupsUpTo(items, keys, n)[p] + [items[n]]]
  {
    OrderDistinct(keys, n);
    var before, after := GroupsUpTo(items, keys, n), GroupsUpTo(items, keys, n + 1);
    forall k | 0 <= k < |before| ensures after[k] == if k == p then before[p] + [items[n]] else before[k] {
    }
  }

  lemma {:induction false} GroupsOpen<T, K>(items: seq<T>, keys: seq<Option<K>>, n: nat)
    requires n < |items| == |keys| && keys[n].Some? && keys[n].value !in Order(keys, n)
    ensures Order(keys, n + 1) == Order(keys, n) + [keys[n].value]
    ensures GroupsUpTo(items, keys, n + 1) == GroupsUpTo(items, keys, n) + [[items[n]]]
  {
    NoMembers(items, keys, keys[n].value, n);
    var before, after := GroupsUpTo(items, keys, n), GroupsUpTo(items, keys, n + 1);
    forall k | 0 <= k < |before| ensures after[k] == before[k] {
    }
    assert after[|before|] == [items[n]];
  }

  /** All elements that carry a key, in order. */
  function Keyed<T, K(==)>(items: seq<T>, keys: seq<Option<K>>, n: nat): seq<T>
    requires n <= |items| == |keys|
  {
    if n == 0 then []
    else Keyed(items, keys, n - 1) + (if keys[n - 1].Some? then [items[n - 1]] else [])
  }

  /** Grouping loses nothing and repeats nothing: the groups hold exactly the keyed elements. */
  lemma {:induction false} GroupsConserve<T, K>(items: seq<T>, keys: seq<Option<K>>, n: nat)
    requires n <= |items| == |keys|
    ensures multiset(Flatten(GroupsUpTo(items, keys, n))) == multiset(Keyed(items, keys, n))
  {
    if n != 0 {
      var m := n - 1;
      GroupsConserve(items, keys, m);
      if keys[m].None? {
        GroupsSkip(items, keys, m);
      } else if keys[m].value in Order(keys, m) {
        var p :| 0 <= p < |Order(keys, m)| && Order(keys, m)[p] == keys[m].value;
        GroupsJoin(items, keys, m, p);
        FlattenGrow(GroupsUpTo(items, keys, m), p, [items[m]]);
      } else {
        GroupsOpen(items, keys, m);
        FlattenSnoc(GroupsUpTo(items, keys, m), [items[m]]);
      }
    }
  }

  lemma {:induction false} MembersInclude<T, K>(items: seq<T>, keys: seq<Option<K>>, key: K, i: nat, n: nat)
    requires i < n <= |items| == |keys| && keys[i] == Some(key)
    ensures items[i] in Members(items, keys, key, n)
  {
    if i < n - 1 {
      MembersInclude(items, keys, key, i, n - 1);
    }
  }

  lemma {:induction false} MembersCome<T, K>(items: seq<T>, keys: seq<Option<K>>, key: K, n: nat, m: T)
    requires n <= |items| == |keys| && m in Members(items, keys, key, n)
    ensures exists i | 0 <= i < n :: items[i] == m && keys[i] == Some(key)
  {
    if m in Members(items, keys, key, n - 1) {
      MembersCome(items, keys, key, n - 1, m);
    } else {
      assert items[n - 1] == m && keys[n - 1] == Some(key);
    }
  }

  /** A key carried by one element only makes a group of one. */
  lemma {:induction false} SoleMember<T, K>(items: seq<T>, keys: seq<Option<K>>, key: K, i: nat, n: nat)
    requires n <= |items| == |keys| && i < |items|
    requires forall j | 0 <= j < |keys| :: keys[j] == Some(key) <==> j == i
    ensures Members(items, keys, key, n) == if i < n then [items[i]] else []
  {
    if n != 0 {
      SoleMember(items, keys, key, i, n - 1);
    }
  }

  lemma {:induction false} GroupOfKey<T, K>(items: seq<T>, keys: seq<Option<K>>, i: nat, key: K)
    requires i < |items| == |keys| && keys[i] == Some(key)
    ensures Members(items, keys, key, |items|) in GroupBy(items, keys)
  {
    OrderListsKeys(keys, |items|, key);
    var k :| 0 <= k < |Order(keys, |items|)| && Order(keys, |items|)[k] == key;
    assert GroupBy(items, keys)[k] == Members(items, keys, key, |items|);
  }

  predicate AllDifferent<K(==)>(keys: seq<Option<K>>) {
    (forall i | 0 <= i < |keys| :: keys[i].Some?) && forall i, j | 0 <= i < j < |keys| :: keys[i] != keys[j]
  }

  lemma {:induction false} OrderOfDifferent<K>(keys: seq<Option<K>>, n: nat)
    requires AllDifferent(keys) && n <= |keys|
    ensures |Order(keys, n)| == n && forall k | 0 <= k < n :: keys[k] == Some(Order(keys, n)[k])
  {
    if n != 0 {
      OrderOfDifferent(keys, n - 1);
      OrderListsKeys(keys, n - 1, keys[n - 1].value);
    }
  }

  /** Keys that never repeat make groups of one, in order. */
  lemma {:induction false} DistinctKeysGroupAlone<T, K>(items: seq<T>, keys: seq<Option<K>>)
    requires |items| == |keys| && AllDifferent(keys)
    ensures |GroupBy(items, keys)| == |items| && forall k | 0 <= k < |items| :: GroupBy(items, keys)[k] == [items[k]]
  {
    OrderOfDifferent(keys, |keys|);
    forall k | 0 <= k < |items| ensures GroupBy(items, keys)[k] == [items[k]] {
      SoleMember(items, keys, keys[k].value, k, |items|);
    }
  }
}
