/** Review interactions: items are grouped under user messages and projected. */
module ReviewGroups {
  import opened Prelude
  import opened Grouping
  import opened ReviewNodes

  datatype Trigger = UserTrigger | BackgroundTrigger

  datatype Interaction = Interaction(
    ordinal: int,
    trigger: Trigger,
    startedAt: int,
    endedAt: int,
    firstId: string,
    lastId: string,
    nodes: seq<Node>)

  const BACKGROUND := "background:"

  // ---------------------------------------------------------------------
  // Parent links.

  /** Position of the item with this id. */
  function Find(items: seq<Item>, id: string): (o: Option<nat>)
    ensures o.Some? ==> o.value < |items| && items[o.value].id == id
    ensures o.None? ==> forall i | 0 <= i < |items| :: items[i].id != id
  {
    if items == [] then None
    else if items[|items| - 1].id == id then Some(|items| - 1)
    else Find(items[..|items| - 1], id)
  }

  function Parent(items: seq<Item>, i: nat): (o: Option<nat>)
    requires i < |items|
    ensures o.Some? ==> o.value < |items|
  {
    if items[i].parentId == "" then None else Find(items, items[i].parentId)
  }

  /** The item reached from `i` by `t` parent links. */
  function Ancestor(items: seq<Item>, i: nat, t: nat): (o: Option<nat>)
    requires i < |items|
    ensures o.Some? ==> o.value < |items|
  {
    if t == 0 then Some(i) else
      var below := Ancestor(items, i, t - 1);
      if below.None? then None else Parent(items, below.value)
  }

  predicate IsUserMessage(item: Item) {
    item.kind == UserMessage
  }

  /** `u` is the first user message on the parent chain of `i`, `t` links away. */
  ghost predicate FirstUserAncestor(items: seq<Item>, i: nat, t: nat, u: nat) {
    && i < |items|
    && Ancestor(items, i, t) == Some(u)
    && IsUserMessage(items[u])
    && forall s | 0 <= s < t :: OrdinaryAncestor(items, i, s)
  }

  predicate OrdinaryAncestor(items: seq<Item>, i: nat, s: nat)
    requires i < |items|
  {
    Ancestor(items, i, s).Some? && !IsUserMessage(items[Ancestor(items, i, s).value])
  }

  predicate UserAncestor(items: seq<Item>, i: nat, t: nat)
    requires i < |items|
  {
    Ancestor(items, i, t).Some? && IsUserMessage(items[Ancestor(items, i, t).value])
  }

  lemma {:induction false} ChainEnds(items: seq<Item>, i: nat, k: nat, t: nat)
    requires i < |items| && k <= t && Ancestor(items, i, k) == None
    ensures Ancestor(items, i, t) == None
  {
    if k < t {
      ChainEnds(items, i, k, t - 1);
    }
  }

  lemma {:induction false} SameParent(items: seq<Item>, i: nat, a: nat, b: nat)
    requires i < |items| && Ancestor(items, i, a) == Ancestor(items, i, b)
    ensures Ancestor(items, i, a + 1) == Ancestor(items, i, b + 1)
  {
  }

  /** Once a parent chain meets itself, it never leaves the part already seen. */
  lemma {:induction false} ChainCycles(items: seq<Item>, i: nat, m: nat, k: nat, t: nat) returns (s: nat)
    requires i < |items| && m <= k && Ancestor(items, i, k + 1) == Ancestor(items, i, m)
    ensures s <= k && Ancestor(items, i, t) == Ancestor(items, i, s)
  {
    if t <= k {
      s := t;
    } else {
      var r := ChainCycles(items, i, m, k, t - 1);
      SameParent(items, i, t - 1, r);
      s := if r < k then r + 1 else m;
    }
  }

  predicate Indexed(items: seq<Item>, byId: map<string, nat>) {
    && (forall i | 0 <= i < |items| :: items[i].id in byId && byId[items[i].id] == i)
    && (forall id | id in byId :: byId[id] < |items| && items[byId[id]].id == id)
  }

  method IndexById(items: seq<Item>) returns (byId: map<string, nat>)
    requires DistinctIds(items)
    ensures Indexed(items, byId)
  {
    byId := map[];
    for n := 0 to |items|
      invariant forall i | 0 <= i < n :: items[i].id in byId && byId[items[i].id] == i
      invariant forall id | id in byId :: byId[id] < n && items[byId[id]].id == id
    {
      byId := byId[items[n].id := n];
    }
  }

  /** The first `k` ancestors after `i` are ordinary and carry the ids in `seen`. */
  ghost predicate Walked(items: seq<Item>, i: nat, k: nat, seen: set<string>)
    requires i < |items|
  {
    && (forall s | 0 <= s <= k :: OrdinaryAncestor(items, i, s))
    && (forall id | id in seen :: exists s | 1 <= s <= k :: Named(items, i, s, id))
  }

  predicate Named(items: seq<Item>, i: nat, s: nat, id: string)
    requires i < |items|
  {
    Ancestor(items, i, s).Some? && items[Ancestor(items, i, s).value].id == id
  }

  lemma {:induction false} WalkedStep(items: seq<Item>, i: nat, k: nat, seen: set<string>, id: string)
    requires i < |items| && Walked(items, i, k, seen)
    requires OrdinaryAncestor(items, i, k + 1) && Named(items, i, k + 1, id)
    ensures Walked(items, i, k + 1, seen + {id})
  {
    forall x | x in seen + {id} ensures exists s | 1 <= s <= k + 1 :: Named(items, i, s, x) {
      if x in seen {
        var s :| 1 <= s <= k && Named(items, i, s, x);
        assert 1 <= s <= k + 1;
      }
    }
  }

  lemma {:induction false} NoUserIfChainEnds(items: seq<Item>, i: nat, k: nat, seen: set<string>)
    requires i < |items| && Walked(items, i, k, seen) && Ancestor(items, i, k + 1) == None
    ensures forall t: nat :: !UserAncestor(items, i, t)
  {
    forall t: nat ensures !UserAncestor(items, i, t) {
      if t > k {
        ChainEnds(items, i, k + 1, t);
      } else {
        assert OrdinaryAncestor(items, i, t);
      }
    }
  }

  lemma {:induction false} NoUserIfChainCycles(items: seq<Item>, i: nat, k: nat, seen: set<string>, id: string)
    requires DistinctIds(items) && i < |items| && Walked(items, i, k, seen)
    requires id in seen && Named(items, i, k + 1, id)
    ensures forall t: nat :: !UserAncestor(items, i, t)
  {
    var m :| 1 <= m <= k && Named(items, i, m, id);
    assert Ancestor(items, i, k + 1) == Ancestor(items, i, m);
    forall t: nat ensures !UserAncestor(items, i, t) {
      var s := ChainCycles(items, i, m, k, t);
      assert OrdinaryAncestor(items, i, s);
    }
  }

  /** The user message an item descends from; the search stops on cyclic parent links. */
  method RootUser(items: seq<Item>, byId: map<string, nat>, i: nat) returns (root: Option<nat>)
    requires DistinctIds(items) && i < |items| && Indexed(items, byId)
    ensures root.Some? ==> exists t: nat :: FirstUserAncestor(items, i, t, root.value)
    ensures root.None? ==> forall t: nat :: !UserAncestor(items, i, t)
  {
    if IsUserMessage(items[i]) {
      assert FirstUserAncestor(items, i, 0, i);
      return Some(i);
    }
    var current := i;
    var seen: set<string> := {};
    ghost var k := 0;
    while items[current].parentId != "" && items[current].parentId !in seen
      invariant current < |items| && Ancestor(items, i, k) == Some(current)
      invariant Walked(items, i, k, seen)
      decreases byId.Keys - seen
    {
      var parent := items[current].parentId;
      if parent !in byId {
        NoUserIfChainEnds(items, i, k, seen);
        return None;
      }
      current := byId[parent];
      if IsUserMessage(items[current]) {
        assert FirstUserAncestor(items, i, k + 1, current);
        return Some(current);
      }
      WalkedStep(items, i, k, seen, parent);
      seen := seen + {parent};
      k := k + 1;
    }
    if items[current].parentId == "" || items[current].parentId !in byId {
      NoUserIfChainEnds(items, i, k, seen);
    } else {
      NoUserIfChainCycles(items, i, k, seen, items[current].parentId);
    }
    return None;
  }

  // ---------------------------------------------------------------------
  // Groups.

  /** The latest user message among the first `n` items. */
  function LatestUser(items: seq<Item>, n: nat): (o: Option<nat>)
    requires n <= |items|
    ensures o.Some? ==> o.value < n && IsUserMessage(items[o.value])
    ensures o.None? ==> forall i | 0 <= i < n :: !IsUserMessage(items[i])
  {
    if n == 0 then None
    else if IsUserMessage(items[n - 1]) then Some(n - 1)
    else LatestUser(items, n - 1)
  }

  ghost predicate Descends(items: seq<Item>, i: nat, u: nat) {
    exists t: nat :: FirstUserAncestor(items, i, t, u)
  }

  lemma {:induction false} DescendsUnique(items: seq<Item>, i: nat, u: nat, v: nat)
    requires Descends(items, i, u) && Descends(items, i, v)
    ensures u == v && u < |items| && IsUserMessage(items[u])
  {
    var t: nat :| FirstUserAncestor(items, i, t, u);
    var w: nat :| FirstUserAncestor(items, i, w, v);
    assert !OrdinaryAncestor(items, i, t) && !OrdinaryAncestor(items, i, w);
  }

  /** The user message an item is grouped under, if any. */
  ghost function Root(items: seq<Item>, i: nat): (o: Option<nat>)
    requires i < |items|
  {
    if exists u: nat :: Descends(items, i, u) then
      var u: nat :| Descends(items, i, u);
      Some(u)
    else LatestUser(items, i + 1)
  }

  lemma {:induction false} RootIsUser(items: seq<Item>, i: nat)
    requires i < |items|
    ensures Root(items, i).Some? ==> Root(items, i).value < |items| && IsUserMessage(items[Root(items, i).value])
    ensures IsUserMessage(items[i]) ==> Root(items, i) == Some(i)
  {
    if IsUserMessage(items[i]) {
      assert FirstUserAncestor(items, i, 0, i);
      assert Descends(items, i, i);
    }
    forall u: nat, v: nat | Descends(items, i, u) && Descends(items, i, v)
      ensures u == v && u < |items| && IsUserMessage(items[u]) {
      DescendsUnique(items, i, u, v);
    }
  }

  /**
   * What tells groups apart. The table of groups has background keys next to the ids of
   * user messages, and an item without a user message opens a group even if its key is
   * taken. From then on the key leads to that group.
   */
  datatype Slot = Slot(key: string, background: bool)

  /** An item that no user message accounts for. */
  ghost predicate OpensAlone(items: seq<Item>, m: nat)
    requires m < |items|
  {
    items[m].kind !in {ToolRegistration, SessionLifecycle} && Root(items, m) == None
  }

  /** Among the first `n` items, one without a user message has taken this key. */
  ghost predicate Taken(items: seq<Item>, n: nat, key: string)
    requires n <= |items|
  {
    exists m | 0 <= m < n :: OpensAlone(items, m) && BACKGROUND + items[m].id == key
  }

  /** The group an item belongs to; registrations and rootless lifecycle items have none. */
  ghost function GroupKey(items: seq<Item>, i: nat): Option<Slot>
    requires i < |items|
  {
    if items[i].kind == ToolRegistration then None
    else if Root(items, i).Some? then
      RootIsUser(items, i);
      var key := items[Root(items, i).value].id;
      Some(Slot(key, Taken(items, i, key)))
    else if items[i].kind == SessionLifecycle then None
    else Some(Slot(BACKGROUND + items[i].id, true))
  }

  ghost function GroupKeys(items: seq<Item>): (keys: seq<Option<Slot>>)
    ensures |keys| == |items|
    ensures forall i | 0 <= i < |items| :: keys[i] == GroupKey(items, i)
  {
    seq(|items|, i requires 0 <= i < |items| => GroupKey(items, i))
  }

  ghost function Groups(items: seq<Item>): seq<seq<Item>> {
    GroupBy(items, GroupKeys(items))
  }

  lemma {:induction false} BackgroundInjective(a: string, b: string)
    requires BACKGROUND + a == BACKGROUND + b
    ensures a == b
  {
    assert (BACKGROUND + a)[|BACKGROUND|..] == a;
    assert (BACKGROUND + b)[|BACKGROUND|..] == b;
  }

  lemma {:induction false} SameBackground(items: seq<Item>, m: nat, n: nat)
    requires DistinctIds(items) && m < |items| && n < |items| && BACKGROUND + items[m].id == BACKGROUND + items[n].id
    ensures m == n
  {
    BackgroundInjective(items[m].id, items[n].id);
  }

  lemma {:induction false} OtherBackground(items: seq<Item>, m: nat, n: nat)
    requires DistinctIds(items) && m < n < |items|
    ensures BACKGROUND + items[m].id != BACKGROUND + items[n].id
  {
    assert (BACKGROUND + items[m].id)[|BACKGROUND|..] == items[m].id;
    assert (BACKGROUND + items[n].id)[|BACKGROUND|..] == items[n].id;
  }

  /** The group of an item without a user message is new: only the item itself could have opened it. */
  lemma {:induction false} BackgroundIsNew(items: seq<Item>, n: nat)
    requires DistinctIds(items) && n < |items|
    ensures Slot(BACKGROUND + items[n].id, true) !in Order(GroupKeys(items), n)
  {
    var slot := Slot(BACKGROUND + items[n].id, true);
    forall m | 0 <= m < |items| && BACKGROUND + items[m].id == slot.key ensures m == n {
      SameBackground(items, m, n);
    }
    OrderListsKeys(GroupKeys(items), n, slot);
  }

  lemma {:induction false} RootFound(items: seq<Item>, n: nat, found: Option<nat>)
    requires n < |items|
    requires found.Some? ==> Descends(items, n, found.value)
    requires found.None? ==> forall t: nat :: !UserAncestor(items, n, t)
    ensures Root(items, n) == if found.Some? then found else LatestUser(items, n + 1)
  {
    if found.Some? {
      forall u: nat | Descends(items, n, u) ensures u == found.value {
        DescendsUnique(items, n, u, found.value);
      }
    } else {
      forall u: nat ensures !Descends(items, n, u) {
        forall t: nat ensures !FirstUserAncestor(items, n, t, u) {
          assert !UserAncestor(items, n, t);
        }
      }
    }
  }

  /** The table from keys to group positions: a key leads to the latest group that has it. */
  ghost predicate SlotTable(items: seq<Item>, n: nat, table: map<string, nat>)
    requires n <= |items|
  {
    var order := Order(GroupKeys(items), n);
    && (forall key | key in table :: table[key] < |order| && order[table[key]] == Slot(key, Taken(items, n, key)))
    && (forall k | 0 <= k < |order| :: order[k].key in table)
  }

  /** Only an item without a user message takes a key. */
  lemma {:induction false} TakenNext(items: seq<Item>, n: nat, key: string)
    requires n < |items|
    ensures Taken(items, n + 1, key)
      <==> Taken(items, n, key) || (OpensAlone(items, n) && BACKGROUND + items[n].id == key)
  {
  }

  lemma {:induction false} TableStays(items: seq<Item>, n: nat, table: map<string, nat>)
    requires n < |items| && SlotTable(items, n, table) && !OpensAlone(items, n)
    requires Order(GroupKeys(items), n + 1) == Order(GroupKeys(items), n)
    ensures SlotTable(items, n + 1, table)
  {
    forall key | key in table ensures Taken(items, n + 1, key) == Taken(items, n, key) {
      TakenNext(items, n, key);
    }
  }

  lemma {:induction false} TableGrows(items: seq<Item>, n: nat, table: map<string, nat>, key: string)
    requires n < |items| && SlotTable(items, n, table)
    requires OpensAlone(items, n) ==> key == BACKGROUND + items[n].id
    requires Order(GroupKeys(items), n + 1) == Order(GroupKeys(items), n) + [Slot(key, Taken(items, n + 1, key))]
    ensures SlotTable(items, n + 1, table[key := |Order(GroupKeys(items), n)|])
  {
    forall other | other in table && other != key ensures Taken(items, n + 1, other) == Taken(items, n, other) {
      TakenNext(items, n, other);
    }
  }

  /** One turn of the grouping loop, once the root of the item is known. */
  method AddToGroup(items: seq<Item>, n: nat, root: Option<nat>, groups: seq<seq<Item>>, table: map<string, nat>)
    returns (groups': seq<seq<Item>>, table': map<string, nat>)
    requires DistinctIds(items) && n < |items| && items[n].kind != ToolRegistration
    requires root == Root(items, n) && (root.Some? ==> root.value < |items|)
    requires groups == GroupsUpTo(items, GroupKeys(items), n) && SlotTable(items, n, table)
    ensures groups' == GroupsUpTo(items, GroupKeys(items), n + 1) && SlotTable(items, n + 1, table')
  {
    ghost var keys := GroupKeys(items);
    var item := items[n];
    if root.None? {
      if item.kind == SessionLifecycle {
        GroupsSkip(items, keys, n);
        TableStays(items, n, table);
        return groups, table;
      }
      var key := BACKGROUND + item.id;
      BackgroundIsNew(items, n);
      GroupsOpen(items, keys, n);
      TakenNext(items, n, key);
      TableGrows(items, n, table, key);
      return groups + [[item]], table[key := |groups|];
    }
    var key := items[root.value].id;
    TakenNext(items, n, key);
    if key in table {
      GroupsJoin(items, keys, n, table[key]);
      TableStays(items, n, table);
      return groups[table[key] := groups[table[key]] + [item]], table;
    }
    assert keys[n].value !in Order(keys, n);
    GroupsOpen(items, keys, n);
    TableGrows(items, n, table, key);
    return groups + [[item]], table[key := |groups|];
  }

  /** The user message to group an item under: its own ancestor, or else the latest one. */
  method GroupRoot(items: seq<Item>, byId: map<string, nat>, n: nat, linearRoot: Option<nat>)
    returns (root: Option<nat>)
    requires DistinctIds(items) && Indexed(items, byId) && n < |items| && items[n].kind != ToolRegistration
    requires linearRoot == LatestUser(items, n + 1)
    ensures root == Root(items, n) && (root.Some? ==> root.value < |items|)
  {
    root := RootUser(items, byId, n);
    RootFound(items, n, root);
    RootIsUser(items, n);
    if root.None? {
      root := linearRoot;
    }
  }

  /** What the grouping loop knows after `n` items. */
  ghost predicate Grouped(items: seq<Item>, n: nat, groups: seq<seq<Item>>, table: map<string, nat>) {
    && n <= |items|
    && groups == GroupsUpTo(items, GroupKeys(items), n)
    && SlotTable(items, n, table)
  }

  /** One turn of the grouping loop. */
  method GroupItem(items: seq<Item>, byId: map<string, nat>, n: nat, linearRoot: Option<nat>,
      groups: seq<seq<Item>>, table: map<string, nat>)
    returns (groups': seq<seq<Item>>, table': map<string, nat>)
    requires DistinctIds(items) && Indexed(items, byId)
    requires Grouped(items, n, groups, table) && n < |items| && items[n].kind != ToolRegistration
    requires linearRoot == LatestUser(items, n + 1)
    ensures Grouped(items, n + 1, groups', table')
  {
    var root := GroupRoot(items, byId, n, linearRoot);
    groups', table' := AddToGroup(items, n, root, groups, table);
  }

  lemma {:induction false} GroupedSkip(items: seq<Item>, n: nat, groups: seq<seq<Item>>, table: map<string, nat>)
    requires Grouped(items, n, groups, table) && n < |items| && items[n].kind == ToolRegistration
    ensures Grouped(items, n + 1, groups, table)
  {
    GroupsSkip(items, GroupKeys(items), n);
    TableStays(items, n, table);
  }

  lemma {:induction false} GroupedNone(items: seq<Item>)
    ensures Grouped(items, 0, [], map[])
  {
  }

  method GroupNext(items: seq<Item>, byId: map<string, nat>, n: nat, latest: Option<nat>,
      groups: seq<seq<Item>>, table: map<string, nat>)
    returns (linearRoot: Option<nat>, groups': seq<seq<Item>>, table': map<string, nat>)
    requires DistinctIds(items) && Indexed(items, byId) && n < |items|
    requires Grouped(items, n, groups, table) && latest == LatestUser(items, n)
    ensures linearRoot == LatestUser(items, n + 1) && Grouped(items, n + 1, groups', table')
  {
    linearRoot := if IsUserMessage(items[n]) then Some(n) else latest;
    if items[n].kind == ToolRegistration {
      GroupedSkip(items, n, groups, table);
      return linearRoot, groups, table;
    }
    groups', table' := GroupItem(items, byId, n, linearRoot, groups, table);
  }

  method SplitInteractionGroups(items: seq<Item>) returns (groups: seq<seq<Item>>)
    requires DistinctIds(items)
    ensures groups == Groups(items)
  {
    var byId := IndexById(items);
    groups := [];
    var groupByRoot: map<string, nat> := map[];
    var linearRoot: Option<nat> := None;
    GroupedNone(items);
    for n := 0 to |items|
      invariant Grouped(items, n, groups, groupByRoot)
      invariant linearRoot == LatestUser(items, n)
    {
      linearRoot, groups, groupByRoot := GroupNext(items, byId, n, linearRoot, groups, groupByRoot);
    }
  }

  // ---------------------------------------------------------------------
  // What the groups say.

  function Users(group: seq<Item>): seq<Item> {
    if group == [] then [] else
      var last := group[|group| - 1];
      Users(group[..|group| - 1]) + (if IsUserMessage(last) then [last] else [])
  }

  lemma {:induction false} UsersNone(group: seq<Item>)
    requires forall k | 0 <= k < |group| :: !IsUserMessage(group[k])
    ensures Users(group) == []
  {
    if group != [] {
      UsersNone(group[..|group| - 1]);
    }
  }

  lemma {:induction false} UsersSole(group: seq<Item>, p: nat)
    requires p < |group| && forall k | 0 <= k < |group| :: IsUserMessage(group[k]) <==> k == p
    ensures Users(group) == [group[p]]
  {
    var front := group[..|group| - 1];
    if p == |front| {
      UsersNone(front);
    } else {
      UsersSole(front, p);
    }
  }

  /** The user message at `u`, and no other, has this group. */
  predicate OnlyUserIs(items: seq<Item>, keys: seq<Option<Slot>>, slot: Slot, u: nat, n: nat)
    requires |keys| == |items| && n < |items|
  {
    keys[n] == Some(slot) && IsUserMessage(items[n]) <==> n == u
  }

  lemma {:induction false} UserInGroup(items: seq<Item>, keys: seq<Option<Slot>>, slot: Slot, u: nat, item: Item)
    requires |keys| == |items| && item in Members(items, keys, slot, |items|)
    requires forall i | 0 <= i < |items| :: OnlyUserIs(items, keys, slot, u, i)
    ensures IsUserMessage(item) ==> u < |items| && item == items[u]
  {
    MembersCome(items, keys, slot, |items|, item);
    var i :| 0 <= i < |items| && items[i] == item && keys[i] == Some(slot);
    assert OnlyUserIs(items, keys, slot, u, i);
  }

  /** A group that at most one user message belongs to. */
  lemma {:induction false} UsersOfMembers(items: seq<Item>, keys: seq<Option<Slot>>, slot: Slot, u: nat)
    requires DistinctIds(items) && |keys| == |items|
    requires forall i | 0 <= i < |items| :: OnlyUserIs(items, keys, slot, u, i)
    ensures Users(Members(items, keys, slot, |items|)) == if u < |items| then [items[u]] else []
  {
    var group := Members(items, keys, slot, |items|);
    forall k | 0 <= k < |group| ensures IsUserMessage(group[k]) ==> u < |items| && group[k] == items[u] {
      UserInGroup(items, keys, slot, u, group[k]);
    }
    if u < |items| {
      assert OnlyUserIs(items, keys, slot, u, u);
      MembersInclude(items, keys, slot, u, |items|);
      MembersDistinct(items, keys, slot, |items|);
      var p :| 0 <= p < |group| && group[p] == items[u];
      UsersSole(group, p);
    } else {
      UsersNone(group);
    }
  }

  /** The group of a user message is told apart by its own id. */
  lemma {:induction false} UserKey(items: seq<Item>, u: nat)
    requires u < |items| && IsUserMessage(items[u])
    ensures GroupKey(items, u) == Some(Slot(items[u].id, Taken(items, u, items[u].id)))
  {
    RootIsUser(items, u);
  }

  /** The group of a user message contains exactly one user message: that one. */
  lemma {:induction false} RootedGroupHasOneUser(items: seq<Item>, u: nat)
    requires DistinctIds(items) && u < |items| && IsUserMessage(items[u])
    ensures exists group | group in Groups(items) :: Users(group) == [items[u]]
  {
    var keys := GroupKeys(items);
    UserKey(items, u);
    var slot := keys[u].value;
    forall i | 0 <= i < |items| ensures OnlyUserIs(items, keys, slot, u, i) {
      if IsUserMessage(items[i]) {
        UserKey(items, i);
      }
    }
    UsersOfMembers(items, keys, slot, u);
    GroupOfKey(items, keys, u, slot);
  }

  /** Between an item and its user message, an item without a user message has taken the key of their group. */
  ghost predicate Separated(items: seq<Item>, i: nat, u: nat)
    requires u < |items|
  {
    exists m | i < m < u :: OpensAlone(items, m) && BACKGROUND + items[m].id == items[u].id
  }

  /** Before an item without a user message there is none at all. */
  lemma {:induction false} AloneBeforeUsers(items: seq<Item>, m: nat, u: nat)
    requires m < |items| && OpensAlone(items, m) && u < |items| && IsUserMessage(items[u])
    ensures m < u
  {
    assert LatestUser(items, m + 1) == None;
  }

  lemma {:induction false} SeparatedExact(items: seq<Item>, i: nat, u: nat)
    requires DistinctIds(items) && i < |items| && u < |items| && IsUserMessage(items[u]) && Root(items, i) == Some(u)
    ensures Separated(items, i, u) <==> Taken(items, i, items[u].id) != Taken(items, u, items[u].id)
  {
    forall m | 0 <= m < |items| && OpensAlone(items, m) ensures m < u && m != i {
      AloneBeforeUsers(items, m, u);
    }
    if m :| i < m < u && OpensAlone(items, m) && BACKGROUND + items[m].id == items[u].id {
      forall k | 0 <= k < i ensures BACKGROUND + items[k].id != items[u].id {
        OtherBackground(items, k, m);
      }
    }
  }

  /**
   * The group of an item under a user message has that user message and no other,
   * unless the user message comes later, has an id that reads like the background key
   * of an item in between, and so lies in the group of that item.
   */
  lemma {:induction false} GroupOfRooted(items: seq<Item>, i: nat, u: nat)
    requires DistinctIds(items) && i < |items| && items[i].kind != ToolRegistration && Root(items, i) == Some(u)
    ensures u < |items| && GroupKey(items, i).Some?
    ensures var group := Members(items, GroupKeys(items), GroupKey(items, i).value, |items|);
      && group in Groups(items) && items[i] in group
      && Users(group) == if Separated(items, i, u) then [] else [items[u]]
  {
    var keys := GroupKeys(items);
    RootIsUser(items, i);
    var slot := keys[i].value;
    SeparatedExact(items, i, u);
    UserKey(items, u);
    var only := if Separated(items, i, u) then |items| else u;
    forall j | 0 <= j < |items| ensures OnlyUserIs(items, keys, slot, only, j) {
      if IsUserMessage(items[j]) {
        UserKey(items, j);
      }
    }
    UsersOfMembers(items, keys, slot, only);
    GroupOfKey(items, keys, i, slot);
    MembersInclude(items, keys, slot, i, |items|);
  }

  /**
   * Such a group: a tool call that names a later user message as its parent, then an
   * item without a user message, and then that user message with an id like the
   * background key of the item.
   */
  lemma {:induction false} UserGoesElsewhere(items: seq<Item>)
    requires DistinctIds(items) && |items| == 3
    requires items[0].kind == ToolCall && items[0].parentId == items[2].id
    requires items[1].kind == ToolCall && items[1].parentId == ""
    requires IsUserMessage(items[2]) && items[2].id == BACKGROUND + items[1].id
    ensures exists group | group in Groups(items) :: items[0] in group && Users(group) == []
  {
    ParentIsUser(items);
    NoParent(items, 1);
    assert OpensAlone(items, 1) && Separated(items, 0, 2);
    GroupOfRooted(items, 0, 2);
  }

  lemma {:induction false} NoParent(items: seq<Item>, n: nat)
    requires n < |items| && items[n].parentId == "" && !IsUserMessage(items[n])
    ensures Root(items, n) == LatestUser(items, n + 1)
  {
    forall t: nat ensures !UserAncestor(items, n, t) {
      if t != 0 {
        assert Ancestor(items, n, 1) == None;
        ChainEnds(items, n, 1, t);
      }
    }
    RootFound(items, n, None);
  }

  lemma {:induction false} ParentIsUser(items: seq<Item>)
    requires DistinctIds(items) && |items| == 3 && items[0].kind == ToolCall && items[0].parentId == items[2].id
    requires IsUserMessage(items[2])
    ensures Root(items, 0) == Some(2)
  {
    var parent := Find(items, items[2].id);
    assert Ancestor(items, 0, 0) == Some(0) && Ancestor(items, 0, 1) == Parent(items, 0) == Some(2);
    assert FirstUserAncestor(items, 0, 1, 2);
    RootFound(items, 0, Some(2));
  }

  lemma {:induction false} SoleKey(items: seq<Item>, i: nat, j: nat)
    requires DistinctIds(items) && i < |items| && j < |items| && OpensAlone(items, i)
    requires forall u | 0 <= u < |items| && IsUserMessage(items[u]) :: items[u].id != BACKGROUND + items[i].id
    ensures GroupKey(items, j) == GroupKey(items, i) <==> j == i
  {
    RootIsUser(items, j);
    if BACKGROUND + items[j].id == BACKGROUND + items[i].id {
      SameBackground(items, j, i);
    }
  }

  /** A user message with the background key of an item as its id joins the group of that item. */
  lemma {:induction false} JoinsAlone(items: seq<Item>, i: nat, u: nat)
    requires DistinctIds(items) && i < |items| && OpensAlone(items, i)
    requires u < |items| && IsUserMessage(items[u]) && items[u].id == BACKGROUND + items[i].id
    ensures i < u && GroupKey(items, u) == GroupKey(items, i) && [items[i]] !in Groups(items)
  {
    AloneBeforeUsers(items, i, u);
    UserKey(items, u);
    assert Taken(items, u, items[u].id);
    forall k | 0 <= k < |Groups(items)| ensures Groups(items)[k] != [items[i]] {
      NotAlone(items, i, u, k);
    }
  }

  lemma {:induction false} NotAlone(items: seq<Item>, i: nat, u: nat, k: nat)
    requires DistinctIds(items) && i < u < |items| && GroupKey(items, i) == GroupKey(items, u) && k < |Groups(items)|
    ensures Groups(items)[k] != [items[i]]
  {
    if items[i] in Groups(items)[k] {
      InGroupToo(items, i, u, k);
    }
    assert items[i].id != items[u].id;
  }

  /** Items with the same key share their group. */
  lemma {:induction false} InGroupToo(items: seq<Item>, i: nat, u: nat, k: nat)
    requires DistinctIds(items) && i < |items| && u < |items| && GroupKey(items, i) == GroupKey(items, u)
    requires k < |Groups(items)| && items[i] in Groups(items)[k]
    ensures items[u] in Groups(items)[k]
  {
    var keys := GroupKeys(items);
    var slot := Order(keys, |items|)[k];
    MembersCome(items, keys, slot, |items|, items[i]);
    var j :| 0 <= j < |items| && items[j] == items[i] && keys[j] == Some(slot);
    SameItem(items, i, j);
    MembersInclude(items, keys, slot, u, |items|);
  }

  lemma {:induction false} SameItem(items: seq<Item>, i: nat, j: nat)
    requires DistinctIds(items) && i < |items| && j < |items| && items[i] == items[j]
    ensures i == j
  {
  }

  /** An item no user message accounts for is an interaction of its own, unless a user message has its background key
   * as id. */
  lemma {:induction false} RootlessItemStandsAlone(items: seq<Item>, i: nat)
    requires DistinctIds(items) && i < |items| && OpensAlone(items, i)
    ensures [items[i]] in Groups(items)
      <==> forall u | 0 <= u < |items| && IsUserMessage(items[u]) :: items[u].id != BACKGROUND + items[i].id
  {
    if u :| 0 <= u < |items| && IsUserMessage(items[u]) && items[u].id == BACKGROUND + items[i].id {
      JoinsAlone(items, i, u);
    } else {
      var keys := GroupKeys(items);
      forall j | 0 <= j < |items| ensures keys[j] == keys[i] <==> j == i {
        SoleKey(items, i, j);
      }
      SoleMember(items, keys, keys[i].value, i, |items|);
      GroupOfKey(items, keys, i, keys[i].value);
    }
  }

  lemma {:induction false} MembersDistinct(items: seq<Item>, keys: seq<Option<Slot>>, key: Slot, n: nat)
    requires n <= |items| == |keys| && DistinctIds(items)
    ensures DistinctIds(Members(items, keys, key, n))
  {
    if n != 0 {
      MembersDistinct(items, keys, key, n - 1);
      var before := Members(items, keys, key, n - 1);
      forall k | 0 <= k < |before| ensures before[k].id != items[n - 1].id {
        MembersCome(items, keys, key, n - 1, before[k]);
      }
    }
  }

  lemma {:induction false} GroupIsProper(items: seq<Item>, k: nat)
    requires DistinctIds(items) && k < |Groups(items)|
    ensures Groups(items)[k] != [] && DistinctIds(Groups(items)[k])
    ensures forall m | m in Groups(items)[k] :: m.kind != ToolRegistration
  {
    var keys := GroupKeys(items);
    var key := Order(keys, |items|)[k];
    OrderListsKeys(keys, |items|, key);
    var i :| 0 <= i < |items| && keys[i] == Some(key);
    MembersInclude(items, keys, key, i, |items|);
    MembersDistinct(items, keys, key, |items|);
    forall m | m in Groups(items)[k] ensures m.kind != ToolRegistration {
      MembersCome(items, keys, key, |items|, m);
    }
  }

  // ---------------------------------------------------------------------
  // Interactions.

  predicate IsMetadataAction(item: Item) {
    item.kind == SessionLifecycle && item.metadataAction
  }

  /** The time of the last item that is not a session rename, or else of the first item. */
  function EndedAt(group: seq<Item>, n: nat): int
    requires group != [] && n <= |group|
  {
    if n == 0 then group[0].at
    else if IsMetadataAction(group[n - 1]) then EndedAt(group, n - 1)
    else group[n - 1].at
  }

  /**
   * The time is that of the last item that is no session rename; if all items are, it is
   * that of the first one.
   */
  ghost predicate EndsTimed(group: seq<Item>, at: int)
    requires group != []
  {
    || (exists e | 0 <= e < |group| ::
          && group[e].at == at && !(group[e].kind == SessionLifecycle && group[e].metadataAction)
          && forall k | e < k < |group| :: group[k].kind == SessionLifecycle && group[k].metadataAction)
    || (group[0].at == at
        && forall k | 0 <= k < |group| :: group[k].kind == SessionLifecycle && group[k].metadataAction)
  }

  /** What an interaction says about its group. */
  ghost predicate Describes(interaction: Interaction, group: seq<Item>, ordinal: int)
    requires group != []
  {
    && interaction.ordinal == ordinal
    && interaction.trigger == (if group[0].kind == UserMessage then UserTrigger else BackgroundTrigger)
    && interaction.startedAt == group[0].at && EndsTimed(group, interaction.endedAt)
    && interaction.firstId == group[0].id && interaction.lastId == group[|group| - 1].id
    && interaction.nodes == Nodes(group)
  }

  lemma {:induction false} LastTimed(group: seq<Item>, n: nat)
    requires group != [] && n <= |group|
    requires forall k | n <= k < |group| :: group[k].kind == SessionLifecycle && group[k].metadataAction
    ensures EndsTimed(group, EndedAt(group, n))
  {
    if n > 0 && IsMetadataAction(group[n - 1]) {
      LastTimed(group, n - 1);
    }
  }

  method BuildInteractionGroups(groups: seq<seq<Item>>, startingOrdinal: int) returns (interactions: seq<Interaction>)
    requires forall k | 0 <= k < |groups| :: groups[k] != [] && DistinctIds(groups[k])
    ensures |interactions| == |groups|
    ensures forall k | 0 <= k < |groups| :: Describes(interactions[k], groups[k], startingOrdinal + k)
  {
    interactions := [];
    for index := 0 to |groups|
      invariant |interactions| == index
      invariant forall k | 0 <= k < index :: Describes(interactions[k], groups[k], startingOrdinal + k)
    {
      var interaction := BuildInteraction(groups[index], startingOrdinal + index);
      interactions := interactions + [interaction];
    }
  }

  method BuildInteraction(group: seq<Item>, ordinal: int) returns (interaction: Interaction)
    requires group != [] && DistinctIds(group)
    ensures Describes(interaction, group, ordinal)
  {
    var nodes := BuildNodes(group);
    LastTimed(group, |group|);
    interaction := Interaction(ordinal, if IsUserMessage(group[0]) then UserTrigger else BackgroundTrigger,
      group[0].at, EndedAt(group, |group|), group[0].id, group[|group| - 1].id, nodes);
  }

  method BuildInteractions(items: seq<Item>, startingOrdinal: int) returns (interactions: seq<Interaction>)
    requires DistinctIds(items)
    ensures |interactions| == |Groups(items)|
    ensures forall k | 0 <= k < |interactions| ::
      Groups(items)[k] != [] && Describes(interactions[k], Groups(items)[k], startingOrdinal + k)
    ensures multiset(InteractionObservations(interactions))
         == multiset(Keyed(Ids(items), GroupKeys(items), |items|))
  {
    var groups := SplitInteractionGroups(items);
    forall k | 0 <= k < |groups| ensures groups[k] != [] && DistinctIds(groups[k]) {
      GroupIsProper(items, k);
    }
    interactions := BuildInteractionGroups(groups, startingOrdinal);
    InteractionsConserve(items, interactions);
  }

  function Ids(items: seq<Item>): (ids: seq<string>)
    ensures |ids| == |items|
    ensures forall i | 0 <= i < |items| :: ids[i] == items[i].id
  {
    seq(|items|, i requires 0 <= i < |items| => items[i].id)
  }

  function ObservationsOf(interactions: seq<Interaction>): (lists: seq<seq<string>>)
    ensures |lists| == |interactions|
    ensures forall k | 0 <= k < |lists| :: lists[k] == Observations(interactions[k].nodes)
  {
    seq(|interactions|, k requires 0 <= k < |interactions| => Observations(interactions[k].nodes))
  }

  /** All observation ids of a list of interactions. */
  function InteractionObservations(interactions: seq<Interaction>): seq<string> {
    Flatten(ObservationsOf(interactions))
  }

  lemma {:induction false} MembersIds(items: seq<Item>, keys: seq<Option<Slot>>, key: Slot, n: nat)
    requires n <= |items| == |keys|
    ensures Members(Ids(items), keys, key, n) == Ids(Members(items, keys, key, n))
  {
    if n != 0 {
      MembersIds(items, keys, key, n - 1);
    }
  }

  lemma {:induction false} ShownIdsOfGroup(group: seq<Item>)
    requires forall m | m in group :: m.kind != ToolRegistration
    ensures ShownIds(group) == Ids(group)
  {
    if group != [] {
      ShownIdsOfGroup(group[..|group| - 1]);
    }
  }

  /**
   * End to end, every item except registrations and rootless lifecycle items
   * is shown by exactly one node of exactly one interaction.
   */
  lemma {:induction false} InteractionsConserve(items: seq<Item>, interactions: seq<Interaction>)
    requires DistinctIds(items) && |interactions| == |Groups(items)|
    requires forall k | 0 <= k < |interactions| :: interactions[k].nodes == Nodes(Groups(items)[k])
    ensures multiset(InteractionObservations(interactions))
         == multiset(Keyed(Ids(items), GroupKeys(items), |items|))
  {
    var keys := GroupKeys(items);
    var lists, groups := ObservationsOf(interactions), GroupBy(Ids(items), keys);
    forall k | 0 <= k < |lists| ensures multiset(lists[k]) == multiset(groups[k]) {
      GroupIsProper(items, k);
      MembersIds(items, keys, Order(keys, |items|)[k], |items|);
      ShownIdsOfGroup(Groups(items)[k]);
      NodesConserve(Groups(items)[k]);
    }
    FlattenSameElements(lists, groups);
    GroupsConserve(Ids(items), keys, |items|);
  }
}
