/** What an overlaid review window shows, told by the archived observations and the turns alone. */
module HookWindow {
  import opened Prelude
  import opened ReviewNodes
  import opened ReviewGroups
  import opened StableSorting
  import opened HookOverlay
  import opened HookProjection

  /** A Hook observation of one of the six kinds, with a native time of its own. */
  predicate Qualifies(o: Observation) {
    && (|| o.kind == OtherKind("permission.request") || o.kind == OtherKind("permission.response")
        || o.kind == OtherKind("subagent.spawn") || o.kind == OtherKind("subagent.end")
        || o.kind == OtherKind("context.compaction") || o.kind == OtherKind("context.injected"))
    && o.occurredAt.Some? && !o.stampedAtCapture
  }

  predicate IsDuring(turn: Turn, at: int) {
    && turn.trigger == UserTrigger && turn.startedAt.Some? && turn.endedAt.Some?
    && turn.startedAt.value <= at && at <= turn.endedAt.value
  }

  predicate HoldsEvent(turn: Turn, nativeEventId: string) {
    exists m | 0 <= m < |turn.nodes| :: turn.nodes[m].item.nativeEventId == nativeEventId
  }

  predicate HoldsCall(turn: Turn, callId: string) {
    exists m | 0 <= m < |turn.nodes| :: turn.nodes[m].ToolNode? && turn.nodes[m].item.callId == callId
  }

  /**
   * Turn `t` is where the observation belongs: a user turn around its time, which alone
   * holds the parent and the tool call that are named or, if none is, is the only one.
   */
  predicate Belongs(turns: seq<Turn>, o: Observation, t: nat)
    requires o.occurredAt.Some?
  {
    && t < |turns| && IsDuring(turns[t], o.occurredAt.value)
    && (o.nativeParentId != "" ==> HoldsEvent(turns[t], o.nativeParentId))
    && (o.nativeCallId != "" ==> HoldsCall(turns[t], o.nativeCallId))
    && forall u | 0 <= u < |turns| && u != t && turns[u].trigger == UserTrigger :: !Rivals(turns[u], o)
  }

  /** Another turn could be meant as well. */
  predicate Rivals(turn: Turn, o: Observation)
    requires o.occurredAt.Some?
  {
    || (o.nativeParentId != "" && HoldsEvent(turn, o.nativeParentId))
    || (o.nativeCallId != "" && HoldsCall(turn, o.nativeCallId))
    || (o.nativeParentId == "" && o.nativeCallId == "" && IsDuring(turn, o.occurredAt.value))
  }

  /** Observation `observation` is shown in turn `turn`. */
  datatype Shown = Shown(observation: nat, turn: nat)

  predicate IsProper(observations: seq<Observation>, shown: Shown) {
    shown.observation < |observations| && Qualifies(observations[shown.observation])
  }

  predicate AllProper(observations: seq<Observation>, shown: seq<Shown>) {
    forall k | 0 <= k < |shown| :: IsProper(observations, shown[k])
  }

  /** How many qualifying observations before the `n`-th one come from the same record. */
  function SameRecord(observations: seq<Observation>, records: seq<string>, record: string, n: nat): nat
    requires n <= |observations| == |records|
  {
    if n == 0 then 0 else
      var before := SameRecord(observations, records, record, n - 1);
      if Qualifies(observations[n - 1]) && records[n - 1] == record then before + 1 else before
  }

  function IdOf(name: Identifying -> string, session: string, observations: seq<Observation>, records: seq<string>,
                n: nat): string
    requires n < |observations| == |records|
  {
    var o := observations[n];
    name(Identifying(session, records[n], o.kind, o.nativeEventId, o.sequence,
      SameRecord(observations, records, records[n], n)))
  }

  /** The event that shows an observation. */
  function EventOf(scope: Scope, id: string, o: Observation): Node
    requires o.occurredAt.Some?
  {
    EventNode(Item(id, o.kind, scope, o.nativeEventId, o.nativeCallId, o.callId, o.nativeParentId, "",
      o.occurredAt.value, "", false, false, 0, [], []), [], [id])
  }

  function ShownEvent(name: Identifying -> string, scope: Scope, session: string, observations: seq<Observation>,
                      records: seq<string>, shown: Shown): Node
    requires |observations| == |records| && IsProper(observations, shown)
  {
    EventOf(scope, IdOf(name, session, observations, records, shown.observation), observations[shown.observation])
  }

  predicate SameFact(node: Node, o: Observation) {
    node.EventNode? && node.item.nativeEventId == o.nativeEventId && node.item.kind == o.kind
  }

  /** The window does not hold the event, and neither it nor an earlier event states the same fact. */
  predicate IsMissing(turns: seq<Turn>, observations: seq<Observation>, shown: seq<Shown>, id: string, o: Observation)
    requires AllProper(observations, shown)
  {
    && (forall t, m | 0 <= t < |turns| && 0 <= m < |turns[t].nodes| :: turns[t].nodes[m].item.id != id)
    && (o.nativeEventId == "" ||
        (&& (forall t, m | 0 <= t < |turns| && 0 <= m < |turns[t].nodes| :: !SameFact(turns[t].nodes[m], o))
         && (forall k | 0 <= k < |shown| ::
              var other := observations[shown[k].observation];
              !(other.nativeEventId == o.nativeEventId && other.kind == o.kind))))
  }

  /** Which of the first `n` observations are shown, and where: those that qualify, belong to a turn and are missing. */
  ghost function ShownOf(name: Identifying -> string, session: string, turns: seq<Turn>, observations: seq<Observation>,
                         records: seq<string>, n: nat): (shown: seq<Shown>)
    requires n <= |observations| == |records|
    ensures AllProper(observations, shown) && forall k | 0 <= k < |shown| :: shown[k].observation < n
  {
    if n == 0 then [] else
      var before, o := ShownOf(name, session, turns, observations, records, n - 1), observations[n - 1];
      if Qualifies(o) && IsMissing(turns, observations, before, IdOf(name, session, observations, records, n - 1), o)
         && exists t: nat :: Belongs(turns, o, t) then
        var t: nat :| Belongs(turns, o, t);
        before + [Shown(n - 1, t)]
      else before
  }

  /** The events that are shown in turn `t`, in the order of their observations. */
  function EventsIn(name: Identifying -> string, scope: Scope, session: string, observations: seq<Observation>,
                    records: seq<string>, shown: seq<Shown>, t: nat): seq<Node>
    requires |observations| == |records| && AllProper(observations, shown)
  {
    if shown == [] then [] else
      var before := EventsIn(name, scope, session, observations, records, shown[..|shown| - 1], t);
      var last := shown[|shown| - 1];
      if last.turn == t then before + [ShownEvent(name, scope, session, observations, records, last)] else before
  }

  /** A turn gains the events and nothing else, and is then in time order. */
  ghost predicate Gains(turn: Turn, after: Turn, events: seq<Node>) {
    && after.id == turn.id && after.trigger == turn.trigger
    && after.startedAt == turn.startedAt && after.endedAt == turn.endedAt
    && multiset(after.nodes) == multiset(turn.nodes) + multiset(events)
    && (if events == [] then after.nodes == turn.nodes
        else forall i, j | 0 <= i < j < |after.nodes| :: after.nodes[i].item.at <= after.nodes[j].item.at)
  }

  ghost predicate ShowsHooks(name: Identifying -> string, scope: Scope, session: string, window: Window,
                             observations: seq<Observation>, records: seq<string>, truncated: bool, after: Window)
    requires |observations| == |records|
  {
    var shown := ShownOf(name, session, window.turns, observations, records, |observations|);
    && |after.turns| == |window.turns|
    && (forall t | 0 <= t < |after.turns| ::
          Gains(window.turns[t], after.turns[t], EventsIn(name, scope, session, observations, records, shown, t)))
    && after.observationCount == window.observationCount + |shown|
    && after.complete == window.complete && after.interactionPaging == window.interactionPaging
    && after.hookEventsTruncated == (truncated || window.hookEventsTruncated) && after.hookFactsPartial
  }

  // ---------------------------------------------------------------------
  // The selected observations.

  /** The selected observations are the qualifying ones. */
  lemma {:induction false} EligibleExact(o: Observation)
    ensures Eligible(o) <==> Qualifies(o)
  {
  }

  function Front(observations: seq<Observation>, records: seq<string>, n: nat): seq<Archived>
    requires n <= |observations| == |records|
  {
    Select(observations[..n], records[..n])
  }

  lemma {:induction false} FrontNext(observations: seq<Observation>, records: seq<string>, n: nat)
    requires n < |observations| == |records|
    ensures var o := observations[n];
      Front(observations, records, n + 1) == Front(observations, records, n)
        + if Qualifies(o) then [Archived(o, records[n], o.occurredAt.value)] else []
  {
    assert observations[..n + 1][..n] == observations[..n] && records[..n + 1][..n] == records[..n];
    EligibleExact(observations[n]);
  }

  lemma {:induction false} FrontGrows(observations: seq<Observation>, records: seq<string>, n: nat, m: nat)
    requires n <= m <= |observations| == |records|
    ensures Front(observations, records, n) <= Front(observations, records, m)
  {
    if n < m {
      FrontGrows(observations, records, n, m - 1);
      FrontNext(observations, records, m - 1);
    }
  }

  lemma {:induction false} FrontWhole(observations: seq<Observation>, records: seq<string>, n: nat)
    requires n <= |observations| == |records|
    ensures Front(observations, records, n) <= Select(observations, records)
    ensures n < |observations| && Qualifies(observations[n]) ==>
      var k := |Front(observations, records, n)|;
      k < |Select(observations, records)| && Select(observations, records)[k]
        == Archived(observations[n], records[n], observations[n].occurredAt.value)
  {
    assert observations[..|observations|] == observations && records[..|records|] == records;
    FrontGrows(observations, records, n, |observations|);
    if n < |observations| {
      FrontGrows(observations, records, n + 1, |observations|);
      FrontNext(observations, records, n);
    }
  }

  lemma {:induction false} OccurrencesPrefix(a: seq<Archived>, b: seq<Archived>, record: string, n: nat)
    requires n <= |a| && a <= b
    ensures Occurrences(a, record, n) == Occurrences(b, record, n)
  {
    if n != 0 {
      OccurrencesPrefix(a, b, record, n - 1);
    }
  }

  lemma {:induction false} OccurrencesOfFront(observations: seq<Observation>, records: seq<string>, record: string,
      n: nat)
    requires n <= |observations| == |records|
    ensures Occurrences(Front(observations, records, n), record, |Front(observations, records, n)|)
      == SameRecord(observations, records, record, n)
  {
    if n != 0 {
      OccurrencesOfFront(observations, records, record, n - 1);
      FrontNext(observations, records, n - 1);
      var before := Front(observations, records, n - 1);
      OccurrencesPrefix(before, Front(observations, records, n), record, |before|);
    }
  }

  /** The candidate of a qualifying observation. */
  lemma {:induction false} CandidateOf(name: Identifying -> string, scope: Scope, session: string,
      observations: seq<Observation>, records: seq<string>, n: nat)
    requires n < |observations| == |records| && Qualifies(observations[n])
    ensures var selected, k := Select(observations, records), |Front(observations, records, n)|;
      && k < |selected|
      && Candidates(Items(name, scope, session, selected))[k]
         == EventOf(scope, IdOf(name, session, observations, records, n), observations[n])
  {
    FrontWhole(observations, records, n);
    OccurrencesOfFront(observations, records, records[n], n);
    OccurrencesPrefix(Front(observations, records, n), Select(observations, records), records[n],
      |Front(observations, records, n)|);
  }

  // ---------------------------------------------------------------------
  // Where an event goes.

  lemma {:induction false} OwnsEvent(turn: Turn, id: string)
    requires id != ""
    ensures Owns(turn, EventIdentity(id)) <==> HoldsEvent(turn, id)
  {
    if HoldsEvent(turn, id) {
      var m :| 0 <= m < |turn.nodes| && turn.nodes[m].item.nativeEventId == id;
      assert Carries(turn.nodes[m], EventIdentity(id));
    }
  }

  lemma {:induction false} OwnsCall(turn: Turn, id: string)
    requires id != ""
    ensures Owns(turn, CallIdentity(id)) <==> HoldsCall(turn, id)
  {
    if HoldsCall(turn, id) {
      var m :| 0 <= m < |turn.nodes| && turn.nodes[m].ToolNode? && turn.nodes[m].item.callId == id;
      assert Carries(turn.nodes[m], CallIdentity(id));
    }
  }

  lemma {:induction false} SoleHolder(turns: seq<Turn>, key: Identity, t: nat)
    requires t < |turns| && turns[t].trigger == UserTrigger
    requires match key case EventIdentity(id) => id != "" case CallIdentity(id) => id != ""
    ensures SoleOwner(turns, key, t) <==>
      && Holds(turns[t], key)
      && forall u | 0 <= u < |turns| && u != t && turns[u].trigger == UserTrigger :: !Holds(turns[u], key)
  {
    forall u | 0 <= u < |turns| ensures Owns(turns[u], key) <==> Holds(turns[u], key) {
      match key {
        case EventIdentity(id) => OwnsEvent(turns[u], id);
        case CallIdentity(id) => OwnsCall(turns[u], id);
      }
    }
  }

  predicate Holds(turn: Turn, key: Identity) {
    match key
    case EventIdentity(id) => HoldsEvent(turn, id)
    case CallIdentity(id) => HoldsCall(turn, id)
  }

  lemma {:induction false} KeysOf(scope: Scope, id: string, o: Observation, key: Identity)
    requires o.occurredAt.Some?
    ensures key in CorrelationKeys(EventOf(scope, id, o)) <==>
      || (o.nativeParentId != "" && key == EventIdentity(o.nativeParentId))
      || (o.nativeCallId != "" && key == CallIdentity(o.nativeCallId))
    ensures CorrelationKeys(EventOf(scope, id, o)) == [] <==> o.nativeParentId == "" && o.nativeCallId == ""
  {
  }

  /** An event is placed in a turn exactly when its observation belongs there. */
  lemma {:induction false} PlacedExact(turns: seq<Turn>, scope: Scope, id: string, o: Observation, t: nat)
    requires o.occurredAt.Some?
    ensures PlacedIn(turns, EventOf(scope, id, o), t) <==> Belongs(turns, o, t)
  {
    if t < |turns| && turns[t].trigger == UserTrigger {
      var parent, call := EventIdentity(o.nativeParentId), CallIdentity(o.nativeCallId);
      if o.nativeParentId != "" {
        SoleHolder(turns, parent, t);
        KeysOf(scope, id, o, parent);
      }
      if o.nativeCallId != "" {
        SoleHolder(turns, call, t);
        KeysOf(scope, id, o, call);
      }
      forall key ensures key in CorrelationKeys(EventOf(scope, id, o)) ==>
        (o.nativeParentId != "" && key == parent) || (o.nativeCallId != "" && key == call)
      {
        KeysOf(scope, id, o, key);
      }
      KeysOf(scope, id, o, parent);
    }
  }

  // ---------------------------------------------------------------------
  // What is new.

  lemma {:induction false} SameRecordGrows(observations: seq<Observation>, records: seq<string>, i: nat, n: nat)
    requires i < n <= |observations| == |records| && Qualifies(observations[i])
    ensures SameRecord(observations, records, records[i], i) < SameRecord(observations, records, records[i], n)
  {
    if i + 1 < n {
      SameRecordGrows(observations, records, i, n - 1);
    }
  }

  lemma {:induction false} IdsApart(name: Identifying -> string, session: string, observations: seq<Observation>,
      records: seq<string>, i: nat, n: nat)
    requires NamesApart(name) && i < n < |observations| == |records| && Qualifies(observations[i])
    ensures IdOf(name, session, observations, records, i) != IdOf(name, session, observations, records, n)
  {
    if records[i] == records[n] {
      SameRecordGrows(observations, records, i, n);
    }
  }

  /** The insertions are the shown observations. */
  ghost predicate AsInsertions(name: Identifying -> string, scope: Scope, session: string,
                               observations: seq<Observation>, records: seq<string>, shown: seq<Shown>,
                               insertions: seq<Insertion>)
    requires |observations| == |records| && AllProper(observations, shown)
  {
    && |insertions| == |shown|
    && forall k | 0 <= k < |shown| :: insertions[k]
         == Insertion(ShownEvent(name, scope, session, observations, records, shown[k]), shown[k].turn)
  }

  lemma {:induction false} IdAbsent(turns: seq<Turn>, id: string)
    ensures HasNode(turns, id)
      <==> exists t, m | 0 <= t < |turns| && 0 <= m < |turns[t].nodes| :: turns[t].nodes[m].item.id == id
  {
    if HasNode(turns, id) {
      var t :| 0 <= t < |turns| && InNodes(turns[t].nodes, id);
      var m :| 0 <= m < |turns[t].nodes| && turns[t].nodes[m].item.id == id;
    }
    if t, m :| 0 <= t < |turns| && 0 <= m < |turns[t].nodes| && turns[t].nodes[m].item.id == id {
      assert InNodes(turns[t].nodes, id);
    }
  }

  lemma {:induction false} FactAbsent(turns: seq<Turn>, scope: Scope, id: string, o: Observation)
    requires o.occurredAt.Some? && o.nativeEventId != ""
    ensures HasFact(turns, FactOf(EventOf(scope, id, o)))
      <==> exists t, m | 0 <= t < |turns| && 0 <= m < |turns[t].nodes| :: SameFact(turns[t].nodes[m], o)
  {
    var fact := FactOf(EventOf(scope, id, o));
    if HasFact(turns, fact) {
      var t :| 0 <= t < |turns| && FactIn(turns[t].nodes, fact);
      var m :| 0 <= m < |turns[t].nodes| && States(turns[t].nodes[m], fact);
      assert SameFact(turns[t].nodes[m], o);
    }
    if t, m :| 0 <= t < |turns| && 0 <= m < |turns[t].nodes| && SameFact(turns[t].nodes[m], o) {
      assert States(turns[t].nodes[m], fact);
      assert FactIn(turns[t].nodes, fact);
    }
  }

  lemma {:induction false} MissingExact(name: Identifying -> string, scope: Scope, session: string, turns: seq<Turn>,
      observations: seq<Observation>, records: seq<string>, shown: seq<Shown>, insertions: seq<Insertion>, n: nat)
    requires NamesApart(name) && n < |observations| == |records| && Qualifies(observations[n])
    requires AllProper(observations, shown) && forall k | 0 <= k < |shown| :: shown[k].observation < n
    requires AsInsertions(name, scope, session, observations, records, shown, insertions)
    ensures var id := IdOf(name, session, observations, records, n);
      IsNew(turns, insertions, EventOf(scope, id, observations[n]))
      <==> IsMissing(turns, observations, shown, id, observations[n])
  {
    var id, o := IdOf(name, session, observations, records, n), observations[n];
    IdAbsent(turns, id);
    forall k | 0 <= k < |insertions| ensures insertions[k].node.item.id != id {
      IdsApart(name, session, observations, records, shown[k].observation, n);
    }
    if o.nativeEventId != "" {
      FactAbsent(turns, scope, id, o);
      InsertedFactExact(name, scope, session, observations, records, shown, insertions, id, o);
    }
  }

  lemma {:induction false} InsertedFactExact(name: Identifying -> string, scope: Scope, session: string,
      observations: seq<Observation>, records: seq<string>, shown: seq<Shown>, insertions: seq<Insertion>, id: string,
      o: Observation)
    requires |observations| == |records| && AllProper(observations, shown)
    requires o.occurredAt.Some? && o.nativeEventId != ""
    requires AsInsertions(name, scope, session, observations, records, shown, insertions)
    ensures InsertedFact(insertions, FactOf(EventOf(scope, id, o)))
      <==> exists k | 0 <= k < |shown| ::
        var other := observations[shown[k].observation];
        other.nativeEventId == o.nativeEventId && other.kind == o.kind
  {
    var fact := FactOf(EventOf(scope, id, o));
    forall k | 0 <= k < |shown|
      ensures States(insertions[k].node, fact) <==>
        var other := observations[shown[k].observation]; other.nativeEventId == o.nativeEventId && other.kind == o.kind
    {
    }
  }

  /** After `n` observations, the overlay has inserted what is shown of them. */
  ghost predicate InStep(name: Identifying -> string, scope: Scope, session: string, turns: seq<Turn>,
                         observations: seq<Observation>, records: seq<string>, candidates: seq<Node>, n: nat, k: nat)
    requires n <= |observations| == |records| && k <= |candidates|
  {
    AsInsertions(name, scope, session, observations, records,
      ShownOf(name, session, turns, observations, records, n), Insertions(turns, candidates, k))
  }

  lemma {:induction false} OneMoreShown(name: Identifying -> string, scope: Scope, session: string, turns: seq<Turn>,
      observations: seq<Observation>, records: seq<string>, candidates: seq<Node>, n: nat, k: nat)
    requires NamesApart(name) && n < |observations| == |records| && Qualifies(observations[n]) && k < |candidates|
    requires candidates[k] == EventOf(scope, IdOf(name, session, observations, records, n), observations[n])
    requires InStep(name, scope, session, turns, observations, records, candidates, n, k)
    ensures InStep(name, scope, session, turns, observations, records, candidates, n + 1, k + 1)
  {
    var id, o := IdOf(name, session, observations, records, n), observations[n];
    MissingExact(name, scope, session, turns, observations, records,
      ShownOf(name, session, turns, observations, records, n), Insertions(turns, candidates, k), n);
    forall t: nat ensures PlacedIn(turns, candidates[k], t) <==> Belongs(turns, o, t) {
      PlacedExact(turns, scope, id, o, t);
    }
    forall t: nat, u: nat | PlacedIn(turns, candidates[k], t) && PlacedIn(turns, candidates[k], u) ensures t == u {
      PlaceUnique(turns, candidates[k], t, u);
    }
  }

  lemma {:induction false} NoMoreShown(name: Identifying -> string, scope: Scope, session: string, turns: seq<Turn>,
      observations: seq<Observation>, records: seq<string>, candidates: seq<Node>, n: nat, k: nat)
    requires n < |observations| == |records| && !Qualifies(observations[n]) && k <= |candidates|
    requires InStep(name, scope, session, turns, observations, records, candidates, n, k)
    ensures InStep(name, scope, session, turns, observations, records, candidates, n + 1, k)
  {
  }

  lemma {:induction false} InsertionsFollow(name: Identifying -> string, scope: Scope, session: string,
      turns: seq<Turn>, observations: seq<Observation>, records: seq<string>, candidates: seq<Node>, n: nat)
    requires NamesApart(name) && n <= |observations| == |records|
    requires candidates == Candidates(Items(name, scope, session, Select(observations, records)))
    ensures FollowsTo(name, scope, session, turns, observations, records, candidates, n)
  {
    if n == 0 {
      assert Front(observations, records, 0) == [];
    } else {
      InsertionsFollow(name, scope, session, turns, observations, records, candidates, n - 1);
      if Qualifies(observations[n - 1]) {
        CandidateOf(name, scope, session, observations, records, n - 1);
      }
      FollowsNext(name, scope, session, turns, observations, records, candidates, n - 1);
    }
  }

  ghost predicate FollowsTo(name: Identifying -> string, scope: Scope, session: string, turns: seq<Turn>,
                            observations: seq<Observation>, records: seq<string>, candidates: seq<Node>, n: nat)
    requires n <= |observations| == |records|
  {
    var k := |Front(observations, records, n)|;
    k <= |candidates| && InStep(name, scope, session, turns, observations, records, candidates, n, k)
  }

  lemma {:induction false} FollowsNext(name: Identifying -> string, scope: Scope, session: string,
      turns: seq<Turn>, observations: seq<Observation>, records: seq<string>, candidates: seq<Node>, n: nat)
    requires NamesApart(name) && n < |observations| == |records|
    requires FollowsTo(name, scope, session, turns, observations, records, candidates, n)
    requires Qualifies(observations[n]) ==>
      var k := |Front(observations, records, n)|;
      k < |candidates|
      && candidates[k] == EventOf(scope, IdOf(name, session, observations, records, n), observations[n])
    ensures FollowsTo(name, scope, session, turns, observations, records, candidates, n + 1)
  {
    FrontNext(observations, records, n);
    var k := |Front(observations, records, n)|;
    if Qualifies(observations[n]) {
      OneMoreShown(name, scope, session, turns, observations, records, candidates, n, k);
    } else {
      NoMoreShown(name, scope, session, turns, observations, records, candidates, n, k);
    }
  }

  // ---------------------------------------------------------------------
  // The window.

  lemma {:induction false} EventsFollow(name: Identifying -> string, scope: Scope, session: string,
      observations: seq<Observation>, records: seq<string>, shown: seq<Shown>, insertions: seq<Insertion>, t: nat)
    requires |observations| == |records| && AllProper(observations, shown)
    requires AsInsertions(name, scope, session, observations, records, shown, insertions)
    ensures EventsFor(insertions, t) == EventsIn(name, scope, session, observations, records, shown, t)
  {
    if shown != [] {
      EventsFollow(name, scope, session, observations, records, shown[..|shown| - 1],
        insertions[..|insertions| - 1], t);
    }
  }

  lemma {:induction false} TurnGains(turn: Turn, events: seq<Node>)
    ensures Gains(turn, Extended(turn, events), events)
  {
    NativeNodesKept(turn, events);
    if events == [] {
      assert multiset(turn.nodes) + multiset(events) == multiset(turn.nodes);
    } else {
      ExtendedInOrder(turn, events);
      var nodes := Extended(turn, events).nodes;
      forall i, j | 0 <= i < j < |nodes| ensures nodes[i].item.at <= nodes[j].item.at {
        assert NodeTime(nodes[i]) <= NodeTime(nodes[j]);
      }
    }
  }

  /** Exactly the observations that qualify, belong to a turn and are missing are shown, each in its turn. */
  lemma {:induction false} OverlayShowsHooks(name: Identifying -> string, scope: Scope, session: string,
      window: Window, observations: seq<Observation>, records: seq<string>, truncated: bool)
    requires NamesApart(name) && |observations| == |records|
    ensures ShowsHooks(name, scope, session, window, observations, records, truncated,
      Overlaid(window, Candidates(Items(name, scope, session, Select(observations, records))), truncated))
  {
    var candidates := Candidates(Items(name, scope, session, Select(observations, records)));
    var shown := ShownOf(name, session, window.turns, observations, records, |observations|);
    var insertions := Insertions(window.turns, candidates, |candidates|);
    assert observations[..|observations|] == observations && records[..|records|] == records;
    InsertionsFollow(name, scope, session, window.turns, observations, records, candidates, |observations|);
    forall t | 0 <= t < |window.turns|
      ensures Gains(window.turns[t], Extended(window.turns[t], EventsFor(insertions, t)),
        EventsIn(name, scope, session, observations, records, shown, t))
    {
      EventsFollow(name, scope, session, observations, records, shown, insertions, t);
      TurnGains(window.turns[t], EventsFor(insertions, t));
    }
  }

  /** Overlays a review window with archived Hook observations. */
  method OverlayNativeHookEvents(name: Identifying -> string, scope: Scope, session: string, window: Window,
      observations: seq<Observation>, records: seq<string>, truncated: bool)
    returns (result: Result<Window, OverlayError>)
    requires NamesApart(name) && DistinctTurns(window.turns)
    ensures result == OverlaidWith(name, scope, session, window, observations, records, truncated)
    ensures result == Err(IncompleteWindow) <==> !window.complete || !window.interactionPaging
    ensures result == Err(MissingProvenance)
      <==> window.complete && window.interactionPaging && |observations| != |records|
    ensures result.Ok? ==>
      && |observations| == |records|
      && ShowsHooks(name, scope, session, window, observations, records, truncated, result.value)
  {
    if !window.complete || !window.interactionPaging {
      return Err(IncompleteWindow);
    }
    if |observations| != |records| {
      return Err(MissingProvenance);
    }
    OverlayShowsHooks(name, scope, session, window, observations, records, truncated);
    var selected := Select(observations, records);
    var items := Items(name, scope, session, selected);
    if selected == [] || window.turns == [] {
      NothingToOverlay(window, Candidates(items), truncated);
      return Ok(window.(
        hookEventsTruncated := truncated || window.hookEventsTruncated,
        hookFactsPartial := true));
    }
    ItemsDistinct(name, scope, session, selected);
    var candidates := ProjectHookEvents(items);
    var overlaid := OverlayEvents(window, candidates, truncated);
    return Ok(overlaid);
  }
}
