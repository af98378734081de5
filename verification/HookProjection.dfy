/** From archived Hook observations of six kinds to an overlaid review window. */
module HookProjection {
  import opened Prelude
  import opened Grouping
  import opened ReviewNodes
  import opened ReviewGroups
  import opened HookOverlay

  /**
   * A normalized Hook observation. `occurredAt` is its parsed native time, if it
   * has one; `stampedAtCapture` says that the native time text is the capture time text.
   */
  datatype Observation = Observation(
    kind: Kind,
    nativeEventId: string,
    nativeCallId: string,
    callId: string,
    nativeParentId: string,
    sequence: Option<int>,
    occurredAt: Option<int>,
    stampedAtCapture: bool)

  /** The parts an observation id is hashed from. */
  datatype Identifying = Identifying(
    session: string,
    record: string,
    kind: Kind,
    nativeEventId: string,
    sequence: Option<int>,
    ordinal: nat)

  /** An eligible observation with its record and its native time. */
  datatype Archived = Archived(observation: Observation, record: string, at: int)

  const HOOK_KINDS := {
    OtherKind("permission.request"), OtherKind("permission.response"),
    OtherKind("subagent.spawn"), OtherKind("subagent.end"),
    OtherKind("context.compaction"), OtherKind("context.injected")
  }

  predicate Eligible(observation: Observation) {
    && observation.kind in HOOK_KINDS
    && observation.occurredAt.Some?
    && !observation.stampedAtCapture
  }

  function Select(observations: seq<Observation>, records: seq<string>): (selected: seq<Archived>)
    requires |observations| == |records|
    ensures AllEligible(selected)
  {
    if observations == [] then [] else
      var last := |observations| - 1;
      var before := Select(observations[..last], records[..last]);
      if Eligible(observations[last]) then
        before + [Archived(observations[last], records[last], observations[last].occurredAt.value)]
      else before
  }

  predicate AllEligible(selected: seq<Archived>) {
    forall k | 0 <= k < |selected| :: selected[k].observation.kind in HOOK_KINDS
  }

  /** How often a record occurs among the first `n` selected observations. */
  function Occurrences(selected: seq<Archived>, record: string, n: nat): nat
    requires n <= |selected|
  {
    if n == 0 then 0
    else Occurrences(selected, record, n - 1) + (if selected[n - 1].record == record then 1 else 0)
  }

  function IdentityAt(session: string, selected: seq<Archived>, n: nat): Identifying
    requires n < |selected|
  {
    var Archived(o, record, _) := selected[n];
    Identifying(session, record, o.kind, o.nativeEventId, o.sequence, Occurrences(selected, record, n))
  }

  function ItemOf(id: string, scope: Scope, o: Observation, at: int): Item {
    Item(id, o.kind, scope, o.nativeEventId, o.nativeCallId, o.callId, o.nativeParentId, "", at,
      "", false, false, 0, [], [])
  }

  /** A hash that names different observations differently. */
  ghost predicate NamesApart(name: Identifying -> string) {
    && (forall a, b | name(a) == name(b) :: a == b)
    && (forall a :: name(a) != "")
  }

  function Items(name: Identifying -> string, scope: Scope, session: string,
      selected: seq<Archived>): (items: seq<Item>)
    ensures |items| == |selected|
    ensures forall n | 0 <= n < |items| ::
      items[n] == ItemOf(name(IdentityAt(session, selected, n)), scope, selected[n].observation, selected[n].at)
  {
    seq(|selected|, n requires 0 <= n < |selected| =>
      ItemOf(name(IdentityAt(session, selected, n)), scope, selected[n].observation, selected[n].at))
  }

  lemma {:induction false} OccurrencesGrow(selected: seq<Archived>, record: string, n: nat, m: nat)
    requires n < m <= |selected| && selected[n].record == record
    ensures Occurrences(selected, record, n) < Occurrences(selected, record, m)
  {
    if n + 1 < m {
      OccurrencesGrow(selected, record, n, m - 1);
    }
  }

  /** Even observations that share a record and all native fields get different ids. */
  lemma {:induction false} ItemsDistinct(name: Identifying -> string, scope: Scope, session: string,
      selected: seq<Archived>)
    requires NamesApart(name)
    ensures DistinctIds(Items(name, scope, session, selected))
  {
    var items := Items(name, scope, session, selected);
    forall n, m | 0 <= n < m < |items| ensures items[n].id != items[m].id {
      if selected[n].record == selected[m].record {
        OccurrencesGrow(selected, selected[n].record, n, m);
      }
      assert IdentityAt(session, selected, n) != IdentityAt(session, selected, m);
    }
  }

  /** The event nodes of the selected observations, one each, in order. */
  function Candidates(items: seq<Item>): (nodes: seq<Node>)
    ensures |nodes| == |items|
    ensures forall n | 0 <= n < |nodes| :: nodes[n] == EventNode(items[n], items[n].evidence, [items[n].id])
  {
    seq(|items|, n requires 0 <= n < |items| => EventNode(items[n], items[n].evidence, [items[n].id]))
  }

  predicate AllHookEvents(items: seq<Item>) {
    forall n | 0 <= n < |items| :: items[n].kind in HOOK_KINDS && items[n].parentId == ""
  }

  lemma {:induction false} HookEventsHaveNoRoot(items: seq<Item>, n: nat)
    requires AllHookEvents(items) && n < |items|
    ensures GroupKey(items, n) == Some(Slot(BACKGROUND + items[n].id, true))
  {
    NoParent(items, n);
  }

  lemma {:induction false} HookEventsStandAlone(items: seq<Item>)
    requires AllHookEvents(items) && DistinctIds(items)
    ensures |Groups(items)| == |items|
    ensures forall k | 0 <= k < |items| :: Groups(items)[k] == [items[k]]
  {
    var keys := GroupKeys(items);
    forall n | 0 <= n < |items| ensures keys[n] == Some(Slot(BACKGROUND + items[n].id, true)) {
      HookEventsHaveNoRoot(items, n);
    }
    forall i, j | 0 <= i < j < |keys| ensures keys[i] != keys[j] {
      if keys[i] == keys[j] {
        BackgroundInjective(items[i].id, items[j].id);
      }
    }
    DistinctKeysGroupAlone(items, keys);
  }

  lemma {:induction false} SingletonNodes(item: Item)
    requires item.kind in HOOK_KINDS
    ensures Nodes([item]) == [EventNode(item, item.evidence, [item.id])]
  {
    OwnerOfOther([item], 0);
    StepOpen([item], 0);
  }

  function NodeLists(interactions: seq<Interaction>): (lists: seq<seq<Node>>)
    ensures |lists| == |interactions|
    ensures forall k | 0 <= k < |lists| :: lists[k] == interactions[k].nodes
  {
    seq(|interactions|, k requires 0 <= k < |interactions| => interactions[k].nodes)
  }

  lemma {:induction false} FlattenSingletons<T>(lists: seq<seq<T>>, elements: seq<T>)
    requires |lists| == |elements| && forall k | 0 <= k < |lists| :: lists[k] == [elements[k]]
    ensures Flatten(lists) == elements
  {
    if lists != [] {
      FlattenSingletons(lists[1..], elements[1..]);
      assert elements == [elements[0]] + elements[1..];
    }
  }

  /** Projected like any other observations, the selected Hook events stay one event each. */
  method ProjectHookEvents(items: seq<Item>) returns (candidates: seq<Node>)
    requires AllHookEvents(items) && DistinctIds(items)
    ensures candidates == Candidates(items)
  {
    var interactions := BuildInteractions(items, 1);
    candidates := Flatten(NodeLists(interactions));
    HookEventsStandAlone(items);
    forall k | 0 <= k < |interactions| ensures NodeLists(interactions)[k] == [Candidates(items)[k]] {
      SingletonNodes(items[k]);
    }
    FlattenSingletons(NodeLists(interactions), Candidates(items));
  }

  datatype OverlayError = IncompleteWindow | MissingProvenance

  ghost function OverlaidWith(name: Identifying -> string, scope: Scope, session: string, window: Window,
      observations: seq<Observation>, records: seq<string>, truncated: bool): Result<Window, OverlayError>
  {
    if !window.complete || !window.interactionPaging then Err(IncompleteWindow)
    else if |observations| != |records| then Err(MissingProvenance)
    else Ok(Overlaid(window, Candidates(Items(name, scope, session, Select(observations, records))), truncated))
  }

  lemma {:induction false} NothingToOverlay(window: Window, candidates: seq<Node>, truncated: bool)
    requires candidates == [] || window.turns == []
    ensures Overlaid(window, candidates, truncated)
      == window.(hookEventsTruncated := truncated || window.hookEventsTruncated, hookFactsPartial := true)
  {
    NothingInserted(window.turns, candidates, |candidates|);
    assert ExtendedTurns(window.turns, []) == window.turns;
  }

  /** Overlaying the same archive twice is overlaying it once, unless one Hook names another as its parent. */
  lemma {:induction false} OverlayTwice(name: Identifying -> string, scope: Scope, session: string, window: Window,
      observations: seq<Observation>, records: seq<string>, truncated: bool)
    requires |observations| == |records| && window.complete && window.interactionPaging
    requires Unrelated(Candidates(Items(name, scope, session, Select(observations, records))))
    ensures var once := OverlaidWith(name, scope, session, window, observations, records, truncated);
      once.Ok? && OverlaidWith(name, scope, session, once.value, observations, records, truncated) == once
  {
    OverlayIdempotent(window, Candidates(Items(name, scope, session, Select(observations, records))), truncated);
  }
}
