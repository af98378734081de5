/** Overlay of Hook events on a review window: in one user turn or not at all. */
module HookOverlay {
  import opened Prelude
  import opened ReviewNodes
  import opened ReviewGroups
  import opened StableSorting

  /** The times of a turn are absent when they do not parse. */
  datatype Turn = Turn(id: string, trigger: Trigger, startedAt: Option<int>, endedAt: Option<int>, nodes: seq<Node>)

  datatype Window = Window(
    turns: seq<Turn>,
    observationCount: nat,
    complete: bool,
    interactionPaging: bool,
    hookEventsTruncated: bool,
    hookFactsPartial: bool)

  /** A native identity a Hook event can name: another event, or a tool call. */
  datatype Identity = EventIdentity(id: string) | CallIdentity(id: string)

  datatype Fact = Fact(kind: Kind, nativeEventId: string)

  datatype Insertion = Insertion(node: Node, turn: nat)

  predicate IsUserTurn(turn: Turn) {
    turn.trigger == UserTrigger
  }

  function NodeTime(node: Node): int {
    node.item.at
  }

  predicate Carries(node: Node, key: Identity) {
    match key
    case EventIdentity(id) => id != "" && node.item.nativeEventId == id
    case CallIdentity(id) => id != "" && node.ToolNode? && node.item.callId == id
  }

  ghost predicate Owns(turn: Turn, key: Identity) {
    exists m | 0 <= m < |turn.nodes| :: Carries(turn.nodes[m], key)
  }

  predicate Covers(turn: Turn, at: int) {
    turn.startedAt.Some? && turn.endedAt.Some? && turn.startedAt.value <= at <= turn.endedAt.value
  }

  /** The identities a Hook event names explicitly. */
  function CorrelationKeys(node: Node): seq<Identity> {
    (if node.item.nativeParentId != "" then [EventIdentity(node.item.nativeParentId)] else [])
    + (if node.item.nativeCallId != "" then [CallIdentity(node.item.nativeCallId)] else [])
  }

  /**
   * Turn `t` is the only place for the event: a user turn that covers its time
   * and is the only owner of every identity it names or, if it names none, the
   * only user turn that covers its time.
   */
  ghost predicate PlacedIn(turns: seq<Turn>, node: Node, t: nat) {
    && t < |turns| && IsUserTurn(turns[t]) && Covers(turns[t], node.item.at)
    && (if CorrelationKeys(node) != []
        then OwnsAll(turns, CorrelationKeys(node), t)
        else forall u | 0 <= u < |turns| && u != t && IsUserTurn(turns[u]) :: !Covers(turns[u], node.item.at))
  }

  ghost predicate SoleOwner(turns: seq<Turn>, key: Identity, t: nat) {
    && t < |turns| && IsUserTurn(turns[t]) && Owns(turns[t], key)
    && forall u | 0 <= u < |turns| && u != t && IsUserTurn(turns[u]) :: !Owns(turns[u], key)
  }

  ghost predicate OwnsAll(turns: seq<Turn>, keys: seq<Identity>, t: nat) {
    forall key | key in keys :: SoleOwner(turns, key, t)
  }

  predicate DistinctTurns(turns: seq<Turn>) {
    forall t, u | 0 <= t < u < |turns| :: turns[t].id != turns[u].id
  }

  predicate HasNode(turns: seq<Turn>, id: string) {
    exists t | 0 <= t < |turns| :: InNodes(turns[t].nodes, id)
  }

  predicate InNodes(nodes: seq<Node>, id: string) {
    exists m | 0 <= m < |nodes| :: nodes[m].item.id == id
  }

  predicate HasFact(turns: seq<Turn>, fact: Fact) {
    exists t | 0 <= t < |turns| :: FactIn(turns[t].nodes, fact)
  }

  predicate FactIn(nodes: seq<Node>, fact: Fact) {
    exists m | 0 <= m < |nodes| :: States(nodes[m], fact)
  }

  predicate States(node: Node, fact: Fact) {
    node.EventNode? && node.item.nativeEventId != "" && FactOf(node) == fact
  }

  function FactOf(node: Node): Fact {
    Fact(node.item.kind, node.item.nativeEventId)
  }

  predicate InsertedId(insertions: seq<Insertion>, id: string) {
    exists k | 0 <= k < |insertions| :: insertions[k].node.item.id == id
  }

  predicate InsertedFact(insertions: seq<Insertion>, fact: Fact) {
    exists k | 0 <= k < |insertions| :: States(insertions[k].node, fact)
  }

  /** Neither the window nor an earlier insertion shows this event already. */
  predicate IsNew(turns: seq<Turn>, insertions: seq<Insertion>, node: Node) {
    && !HasNode(turns, node.item.id)
    && !InsertedId(insertions, node.item.id)
    && (node.item.nativeEventId == ""
        || (!HasFact(turns, FactOf(node)) && !InsertedFact(insertions, FactOf(node))))
  }

  /** The insertions made for the first `n` candidates, in order. */
  ghost function Insertions(turns: seq<Turn>, candidates: seq<Node>, n: nat): seq<Insertion>
    requires n <= |candidates|
  {
    if n == 0 then [] else
      var before := Insertions(turns, candidates, n - 1);
      var node := candidates[n - 1];
      if IsNew(turns, before, node) && exists t: nat :: PlacedIn(turns, node, t) then
        var t: nat :| PlacedIn(turns, node, t);
        before + [Insertion(node, t)]
      else before
  }

  /** The events inserted into turn `t`, in order. */
  function EventsFor(insertions: seq<Insertion>, t: nat): seq<Node> {
    if insertions == [] then [] else
      var last := insertions[|insertions| - 1];
      var before := EventsFor(insertions[..|insertions| - 1], t);
      if last.turn == t then before + [last.node] else before
  }

  /** A turn with its new events, in time order, native nodes first at equal times. */
  function Extended(turn: Turn, events: seq<Node>): Turn {
    if events == [] then turn else turn.(nodes := StableSort(NodeTime, turn.nodes + events))
  }

  function ExtendedTurns(turns: seq<Turn>, insertions: seq<Insertion>): (result: seq<Turn>)
    ensures |result| == |turns|
    ensures forall t | 0 <= t < |turns| :: result[t] == Extended(turns[t], EventsFor(insertions, t))
  {
    seq(|turns|, t requires 0 <= t < |turns| => Extended(turns[t], EventsFor(insertions, t)))
  }

  ghost function Overlaid(window: Window, candidates: seq<Node>, truncated: bool): Window {
    var insertions := Insertions(window.turns, candidates, |candidates|);
    window.(
      turns := ExtendedTurns(window.turns, insertions),
      observationCount := window.observationCount + |insertions|,
      hookEventsTruncated := truncated || window.hookEventsTruncated,
      hookFactsPartial := true)
  }

  lemma {:induction false} PlaceUnique(turns: seq<Turn>, node: Node, t: nat, u: nat)
    requires PlacedIn(turns, node, t) && PlacedIn(turns, node, u)
    ensures t == u
  {
    if CorrelationKeys(node) != [] {
      var key := CorrelationKeys(node)[0];
      assert SoleOwner(turns, key, t) && SoleOwner(turns, key, u);
    }
  }

  // ---------------------------------------------------------------------
  // The owner table.

  function Lookup<K, V>(table: map<K, set<V>>, key: K): set<V> {
    if key in table then table[key] else {}
  }

  /** Ids of the first `n` turns that are user turns owning `key`. */
  ghost function OwnerIds(turns: seq<Turn>, n: nat, key: Identity): set<string>
    requires n <= |turns|
  {
    if n == 0 then {}
    else if IsUserTurn(turns[n - 1]) && Owns(turns[n - 1], key) then OwnerIds(turns, n - 1, key) + {turns[n - 1].id}
    else OwnerIds(turns, n - 1, key)
  }

  lemma {:induction false} OwnerIdsMeaning(turns: seq<Turn>, n: nat, key: Identity, id: string)
    requires n <= |turns|
    ensures id in OwnerIds(turns, n, key)
      <==> exists t | 0 <= t < n :: turns[t].id == id && IsUserTurn(turns[t]) && Owns(turns[t], key)
  {
    if n != 0 {
      OwnerIdsMeaning(turns, n - 1, key, id);
    }
  }

  function NodeIdentities(node: Node): (keys: seq<Identity>)
    ensures forall key :: key in keys <==> Carries(node, key)
  {
    (if node.item.nativeEventId != "" then [EventIdentity(node.item.nativeEventId)] else [])
    + (if node.ToolNode? && node.item.callId != "" then [CallIdentity(node.item.callId)] else [])
  }

  method AddOwner(owners: map<Identity, set<string>>, keys: seq<Identity>, id: string)
    returns (owners': map<Identity, set<string>>)
    ensures forall key :: Lookup(owners', key) == Lookup(owners, key) + (if key in keys then {id} else {})
  {
    owners' := owners;
    for k := 0 to |keys|
      invariant forall key :: Lookup(owners', key) == Lookup(owners, key) + (if key in keys[..k] then {id} else {})
    {
      owners' := owners'[keys[k] := Lookup(owners', keys[k]) + {id}];
    }
    assert keys[..|keys|] == keys;
  }

  method AddTurnOwners(turn: Turn, owners: map<Identity, set<string>>) returns (owners': map<Identity, set<string>>)
    ensures forall key :: Lookup(owners', key) == Lookup(owners, key) + (if Owns(turn, key) then {turn.id} else {})
  {
    owners' := owners;
    for m := 0 to |turn.nodes|
      invariant forall key ::
        Lookup(owners', key) == Lookup(owners, key) + (if OwnsUpTo(turn, m, key) then {turn.id} else {})
    {
      owners' := AddOwner(owners', NodeIdentities(turn.nodes[m]), turn.id);
    }
    forall key ensures OwnsUpTo(turn, |turn.nodes|, key) <==> Owns(turn, key) {
      OwnsUpToMeaning(turn, |turn.nodes|, key);
    }
  }

  predicate OwnsUpTo(turn: Turn, m: nat, key: Identity)
    requires m <= |turn.nodes|
  {
    m != 0 && (OwnsUpTo(turn, m - 1, key) || Carries(turn.nodes[m - 1], key))
  }

  lemma {:induction false} OwnsUpToMeaning(turn: Turn, m: nat, key: Identity)
    requires m <= |turn.nodes|
    ensures OwnsUpTo(turn, m, key) <==> exists k | 0 <= k < m :: Carries(turn.nodes[k], key)
  {
    if m != 0 {
      OwnsUpToMeaning(turn, m - 1, key);
    }
  }

  method ExplicitOwners(turns: seq<Turn>) returns (owners: map<Identity, set<string>>)
    ensures forall key :: Lookup(owners, key) == OwnerIds(turns, |turns|, key)
  {
    owners := map[];
    for n := 0 to |turns|
      invariant forall key :: Lookup(owners, key) == OwnerIds(turns, n, key)
    {
      if IsUserTurn(turns[n]) {
        owners := AddTurnOwners(turns[n], owners);
      }
    }
  }

  /** One owner id in the table means one owning user turn. */
  lemma {:induction false} SingleOwner(turns: seq<Turn>, key: Identity, id: string) returns (t: nat)
    requires DistinctTurns(turns) && OwnerIds(turns, |turns|, key) == {id}
    ensures t < |turns| && turns[t].id == id && SoleOwner(turns, key, t)
  {
    OwnerIdsMeaning(turns, |turns|, key, id);
    t :| 0 <= t < |turns| && turns[t].id == id && IsUserTurn(turns[t]) && Owns(turns[t], key);
    forall u | 0 <= u < |turns| && u != t && IsUserTurn(turns[u]) ensures !Owns(turns[u], key) {
      OwnerIdsMeaning(turns, |turns|, key, turns[u].id);
    }
  }

  lemma {:induction false} SoleOwnerIds(turns: seq<Turn>, key: Identity, t: nat)
    requires SoleOwner(turns, key, t)
    ensures OwnerIds(turns, |turns|, key) == {turns[t].id}
  {
    forall id ensures id in OwnerIds(turns, |turns|, key) <==> id == turns[t].id {
      OwnerIdsMeaning(turns, |turns|, key, id);
    }
  }

  // ---------------------------------------------------------------------
  // Placing one event.

  ghost predicate OwnerTable(turns: seq<Turn>, owners: map<Identity, set<string>>) {
    forall key :: Lookup(owners, key) == OwnerIds(turns, |turns|, key)
  }

  method FindTurn(turns: seq<Turn>, id: string) returns (t: nat)
    requires exists u | 0 <= u < |turns| :: turns[u].id == id
    ensures t < |turns| && turns[t].id == id
  {
    t := 0;
    while turns[t].id != id
      invariant t < |turns|
      invariant forall u | 0 <= u < t :: turns[u].id != id
      decreases |turns| - t
    {
      t := t + 1;
    }
  }

  /** Every identity must resolve to the same single user turn. */
  method OwnerOfKeys(turns: seq<Turn>, owners: map<Identity, set<string>>, keys: seq<Identity>) returns (t: Option<nat>)
    requires DistinctTurns(turns) && OwnerTable(turns, owners) && keys != []
    ensures t.Some? ==> OwnsAll(turns, keys, t.value)
    ensures t.None? ==> forall u: nat :: !OwnsAll(turns, keys, u)
  {
    if k :| 0 <= k < |keys| && |Lookup(owners, keys[k])| != 1 {
      forall u: nat ensures !OwnsAll(turns, keys, u) {
        if SoleOwner(turns, keys[k], u) {
          SoleOwnerIds(turns, keys[k], u);
        }
        assert keys[k] in keys;
      }
      return None;
    }
    assert |Lookup(owners, keys[0])| == 1;
    var ownerId :| ownerId in Lookup(owners, keys[0]);
    if k :| 0 <= k < |keys| && ownerId !in Lookup(owners, keys[k]) {
      OwnersDisagree(turns, owners, keys, k, ownerId);
      return None;
    }
    OwnerIdsMeaning(turns, |turns|, keys[0], ownerId);
    var found := FindTurn(turns, ownerId);
    forall key | key in keys ensures SoleOwner(turns, key, found) {
      Singleton(Lookup(owners, key), ownerId);
      var u := SingleOwner(turns, key, ownerId);
    }
    return Some(found);
  }

  lemma {:induction false} Singleton<T>(s: set<T>, x: T)
    requires |s| == 1 && x in s
    ensures s == {x}
  {
    assert |s - {x}| == 0;
  }

  lemma {:induction false} OwnersDisagree(turns: seq<Turn>, owners: map<Identity, set<string>>, keys: seq<Identity>,
      k: nat, ownerId: string)
    requires DistinctTurns(turns) && OwnerTable(turns, owners) && k < |keys|
    requires |Lookup(owners, keys[0])| == 1 && ownerId in Lookup(owners, keys[0])
    requires ownerId !in Lookup(owners, keys[k])
    ensures forall u: nat :: !OwnsAll(turns, keys, u)
  {
    Singleton(Lookup(owners, keys[0]), ownerId);
    assert keys[0] in keys && keys[k] in keys;
    forall u: nat ensures !SoleOwner(turns, keys[0], u) || !SoleOwner(turns, keys[k], u) {
      if SoleOwner(turns, keys[0], u) {
        SoleOwnerIds(turns, keys[0], u);
        if SoleOwner(turns, keys[k], u) {
          SoleOwnerIds(turns, keys[k], u);
          assert false;
        }
      }
    }
  }

  /** Without identities the time must fall into exactly one user turn. */
  method OnlyCoveringTurn(turns: seq<Turn>, at: int) returns (t: Option<nat>)
    ensures t.Some? ==> t.value < |turns| && CoversAsUser(turns[t.value], at)
    ensures t.Some? ==> forall u | 0 <= u < |turns| && u != t.value :: !CoversAsUser(turns[u], at)
    ensures t.None? ==> forall v | 0 <= v < |turns| && CoversAsUser(turns[v], at) ::
      exists u | 0 <= u < |turns| :: u != v && CoversAsUser(turns[u], at)
  {
    var possibleTurns: seq<nat> := [];
    for n := 0 to |turns|
      invariant forall k | 0 <= k < |possibleTurns| :: possibleTurns[k] < n && CoversAsUser(turns[possibleTurns[k]], at)
      invariant forall u: nat | u < n && CoversAsUser(turns[u], at) :: u in possibleTurns
      invariant forall k, l | 0 <= k < l < |possibleTurns| :: possibleTurns[k] < possibleTurns[l]
    {
      if CoversAsUser(turns[n], at) {
        possibleTurns := possibleTurns + [n];
      }
    }
    if |possibleTurns| == 1 {
      return Some(possibleTurns[0]);
    }
    forall v: nat | v < |turns| && CoversAsUser(turns[v], at)
      ensures exists u | 0 <= u < |turns| :: u != v && CoversAsUser(turns[u], at)
    {
      var k :| 0 <= k < |possibleTurns| && possibleTurns[k] == v;
      var l := if k == 0 then 1 else 0;
      assert possibleTurns[l] != v;
    }
    return None;
  }

  predicate CoversAsUser(turn: Turn, at: int) {
    IsUserTurn(turn) && Covers(turn, at)
  }

  method PlaceOf(turns: seq<Turn>, owners: map<Identity, set<string>>, node: Node) returns (t: Option<nat>)
    requires DistinctTurns(turns) && OwnerTable(turns, owners)
    ensures t.Some? ==> PlacedIn(turns, node, t.value)
    ensures t.None? ==> forall u: nat :: !PlacedIn(turns, node, u)
  {
    var keys := CorrelationKeys(node);
    var matching: Option<nat>;
    if keys != [] {
      matching := OwnerOfKeys(turns, owners, keys);
      assert keys[0] in keys;
      forall u: nat | PlacedIn(turns, node, u) ensures matching == Some(u) {
        assert SoleOwner(turns, keys[0], u) && OwnsAll(turns, keys, u);
        assert SoleOwner(turns, keys[0], matching.value);
      }
    } else {
      matching := OnlyCoveringTurn(turns, node.item.at);
      forall u: nat | PlacedIn(turns, node, u) ensures matching == Some(u) {
        assert CoversAsUser(turns[u], node.item.at);
        forall v | 0 <= v < |turns| && v != u ensures !CoversAsUser(turns[v], node.item.at) {
        }
      }
    }
    if matching.None? || !Covers(turns[matching.value], node.item.at) {
      return None;
    }
    return matching;
  }

  // ---------------------------------------------------------------------
  // Placing all events.

  function WindowIds(turns: seq<Turn>, n: nat): set<string>
    requires n <= |turns|
  {
    set t, m | 0 <= t < n && 0 <= m < |turns[t].nodes| :: turns[t].nodes[m].item.id
  }

  function WindowFacts(turns: seq<Turn>, n: nat): set<Fact>
    requires n <= |turns|
  {
    set t, m | 0 <= t < n && 0 <= m < |turns[t].nodes| && States(turns[t].nodes[m], FactOf(turns[t].nodes[m]))
      :: FactOf(turns[t].nodes[m])
  }

  ghost predicate Tracks(turns: seq<Turn>, insertions: seq<Insertion>, seenIds: set<string>, facts: set<Fact>) {
    && (forall id :: id in seenIds <==> HasNode(turns, id) || InsertedId(insertions, id))
    && (forall fact: Fact :: fact.nativeEventId != "" ==>
          (fact in facts <==> HasFact(turns, fact) || InsertedFact(insertions, fact)))
  }

  lemma {:induction false} TracksStep(turns: seq<Turn>, insertions: seq<Insertion>, seenIds: set<string>,
      facts: set<Fact>, node: Node, t: nat)
    requires Tracks(turns, insertions, seenIds, facts) && node.EventNode?
    ensures Tracks(turns, insertions + [Insertion(node, t)], seenIds + {node.item.id},
      if node.item.nativeEventId != "" then facts + {FactOf(node)} else facts)
  {
    var insertions' := insertions + [Insertion(node, t)];
    assert forall k | 0 <= k < |insertions| :: insertions'[k] == insertions[k];
    assert insertions'[|insertions|].node == node;
    forall id ensures InsertedId(insertions', id) <==> InsertedId(insertions, id) || id == node.item.id {
      if InsertedId(insertions, id) {
        var k :| 0 <= k < |insertions| && insertions[k].node.item.id == id;
        assert insertions'[k].node.item.id == id;
      }
    }
    forall fact: Fact | fact.nativeEventId != ""
      ensures InsertedFact(insertions', fact) <==> InsertedFact(insertions, fact) || States(node, fact) {
      if InsertedFact(insertions, fact) {
        var k :| 0 <= k < |insertions| && States(insertions[k].node, fact);
        assert States(insertions'[k].node, fact);
      }
    }
  }

  function Events(added: map<string, seq<Node>>, id: string): seq<Node> {
    if id in added then added[id] else []
  }

  ghost predicate AddedTable(turns: seq<Turn>, insertions: seq<Insertion>, added: map<string, seq<Node>>) {
    forall t | 0 <= t < |turns| :: Events(added, turns[t].id) == EventsFor(insertions, t)
  }

  lemma {:induction false} InsertionsStep(turns: seq<Turn>, candidates: seq<Node>, n: nat, t: Option<nat>)
    requires n < |candidates|
    requires t.Some? ==> PlacedIn(turns, candidates[n], t.value)
    requires t.None? ==> forall u: nat :: !PlacedIn(turns, candidates[n], u)
    ensures Insertions(turns, candidates, n + 1)
      == Insertions(turns, candidates, n)
         + (if IsNew(turns, Insertions(turns, candidates, n), candidates[n]) && t.Some?
            then [Insertion(candidates[n], t.value)] else [])
  {
    if t.Some? {
      forall u: nat | PlacedIn(turns, candidates[n], u) ensures u == t.value {
        PlaceUnique(turns, candidates[n], t.value, u);
      }
    }
  }

  ghost predicate Placed(turns: seq<Turn>, candidates: seq<Node>, n: nat,
      seenIds: set<string>, facts: set<Fact>, added: map<string, seq<Node>>)
  {
    && n <= |candidates|
    && Tracks(turns, Insertions(turns, candidates, n), seenIds, facts)
    && AddedTable(turns, Insertions(turns, candidates, n), added)
  }

  lemma {:induction false} CandidateRefused(turns: seq<Turn>, candidates: seq<Node>, n: nat, place: Option<nat>,
      seenIds: set<string>, facts: set<Fact>, added: map<string, seq<Node>>)
    requires n < |candidates| && Placed(turns, candidates, n, seenIds, facts, added)
    requires place.Some? ==> PlacedIn(turns, candidates[n], place.value)
    requires place.None? ==> forall u: nat :: !PlacedIn(turns, candidates[n], u)
    requires var node := candidates[n];
      node.item.id in seenIds || (node.item.nativeEventId != "" && node.EventNode? && FactOf(node) in facts)
        || place.None?
    ensures Placed(turns, candidates, n + 1, seenIds, facts, added)
  {
    InsertionsStep(turns, candidates, n, place);
    var before := Insertions(turns, candidates, n);
    assert before + [] == before;
  }

  lemma {:induction false} CandidateInserted(turns: seq<Turn>, candidates: seq<Node>, n: nat, t: nat,
      seenIds: set<string>, facts: set<Fact>, added: map<string, seq<Node>>)
    requires DistinctTurns(turns) && n < |candidates| && Placed(turns, candidates, n, seenIds, facts, added)
    requires candidates[n].EventNode? && PlacedIn(turns, candidates[n], t)
    requires var node := candidates[n];
      node.item.id !in seenIds && !(node.item.nativeEventId != "" && FactOf(node) in facts)
    ensures var node := candidates[n];
      Placed(turns, candidates, n + 1, seenIds + {node.item.id},
             if node.item.nativeEventId != "" then facts + {FactOf(node)} else facts,
             added[turns[t].id := Events(added, turns[t].id) + [node]])
  {
    InsertionsStep(turns, candidates, n, Some(t));
    TracksStep(turns, Insertions(turns, candidates, n), seenIds, facts, candidates[n], t);
    AddedNext(turns, Insertions(turns, candidates, n), added, candidates[n], t);
  }

  lemma {:induction false} EventsNext(insertions: seq<Insertion>, node: Node, t: nat, u: nat)
    ensures EventsFor(insertions + [Insertion(node, t)], u) == EventsFor(insertions, u) + if t == u then [node] else []
  {
    assert (insertions + [Insertion(node, t)])[..|insertions|] == insertions;
  }

  lemma {:induction false} AddedNext(turns: seq<Turn>, insertions: seq<Insertion>, added: map<string, seq<Node>>,
      node: Node, t: nat)
    requires DistinctTurns(turns) && AddedTable(turns, insertions, added) && t < |turns|
    ensures AddedTable(turns, insertions + [Insertion(node, t)],
      added[turns[t].id := Events(added, turns[t].id) + [node]])
  {
    var added' := added[turns[t].id := Events(added, turns[t].id) + [node]];
    forall u | 0 <= u < |turns| ensures Events(added', turns[u].id) == EventsFor(insertions + [Insertion(node, t)], u) {
      EventsNext(insertions, node, t, u);
    }
  }

  /** One turn of the placement loop. */
  method PlaceCandidate(turns: seq<Turn>, candidates: seq<Node>, n: nat, owners: map<Identity, set<string>>,
      seenIds: set<string>, facts: set<Fact>, added: map<string, seq<Node>>)
    returns (seenIds': set<string>, facts': set<Fact>, added': map<string, seq<Node>>)
    requires DistinctTurns(turns) && OwnerTable(turns, owners)
    requires n < |candidates| && candidates[n].EventNode?
    requires Placed(turns, candidates, n, seenIds, facts, added)
    ensures Placed(turns, candidates, n + 1, seenIds', facts', added')
  {
    var node := candidates[n];
    var place := PlaceOf(turns, owners, node);
    if node.item.id in seenIds || (node.item.nativeEventId != "" && FactOf(node) in facts) || place.None? {
      CandidateRefused(turns, candidates, n, place, seenIds, facts, added);
      return seenIds, facts, added;
    }
    CandidateInserted(turns, candidates, n, place.value, seenIds, facts, added);
    var turnId := turns[place.value].id;
    added' := added[turnId := Events(added, turnId) + [node]];
    seenIds' := seenIds + {node.item.id};
    facts' := if node.item.nativeEventId != "" then facts + {FactOf(node)} else facts;
  }

  /** Places all candidates: what goes into each turn, by turn id. */
  method PlaceEvents(turns: seq<Turn>, candidates: seq<Node>) returns (added: map<string, seq<Node>>)
    requires DistinctTurns(turns)
    requires forall n | 0 <= n < |candidates| :: candidates[n].EventNode?
    ensures AddedTable(turns, Insertions(turns, candidates, |candidates|), added)
  {
    var owners := ExplicitOwners(turns);
    var seenIds, facts := WindowIds(turns, |turns|), WindowFacts(turns, |turns|);
    added := map[];
    for n := 0 to |candidates|
      invariant Placed(turns, candidates, n, seenIds, facts, added)
    {
      seenIds, facts, added := PlaceCandidate(turns, candidates, n, owners, seenIds, facts, added);
    }
  }

  lemma {:induction false} ExtendedNext(turns: seq<Turn>, insertions: seq<Insertion>, t: nat)
    requires t < |turns|
    ensures ExtendedTurns(turns, insertions)[..t + 1]
      == ExtendedTurns(turns, insertions)[..t] + [Extended(turns[t], EventsFor(insertions, t))]
  {
  }

  method MergeTurns(turns: seq<Turn>, added: map<string, seq<Node>>, ghost insertions: seq<Insertion>)
    returns (merged: seq<Turn>, mergedCount: nat)
    requires AddedTable(turns, insertions, added)
    requires forall k | 0 <= k < |insertions| :: insertions[k].turn < |turns|
    ensures merged == ExtendedTurns(turns, insertions) && mergedCount == |insertions|
  {
    mergedCount, merged := 0, [];
    for t := 0 to |turns|
      invariant MergedUpTo(turns, insertions, t, merged, mergedCount)
    {
      var events := Events(added, turns[t].id);
      MergedNext(turns, added, insertions, t, merged, mergedCount);
      merged := merged + [Extended(turns[t], events)];
      mergedCount := mergedCount + |events|;
    }
    EventCountAll(insertions, |turns|);
  }

  ghost predicate MergedUpTo(turns: seq<Turn>, insertions: seq<Insertion>, t: nat, merged: seq<Turn>, count: nat) {
    t <= |turns| && merged == ExtendedTurns(turns, insertions)[..t] && count == EventCount(insertions, t)
  }

  lemma {:induction false} MergedNext(turns: seq<Turn>, added: map<string, seq<Node>>, insertions: seq<Insertion>,
      t: nat, merged: seq<Turn>, count: nat)
    requires AddedTable(turns, insertions, added) && t < |turns| && MergedUpTo(turns, insertions, t, merged, count)
    ensures var events := Events(added, turns[t].id);
      MergedUpTo(turns, insertions, t + 1, merged + [Extended(turns[t], events)], count + |events|)
  {
    ExtendedNext(turns, insertions, t);
  }

  /** The overlay of already projected Hook events. */
  method OverlayEvents(window: Window, candidates: seq<Node>, truncated: bool) returns (result: Window)
    requires DistinctTurns(window.turns)
    requires forall n | 0 <= n < |candidates| :: candidates[n].EventNode?
    ensures result == Overlaid(window, candidates, truncated)
  {
    var turns := window.turns;
    var added := PlaceEvents(turns, candidates);
    ghost var insertions := Insertions(turns, candidates, |candidates|);
    InsertionTurns(turns, candidates, |candidates|);
    var merged, mergedCount := MergeTurns(turns, added, insertions);
    result := window.(
      turns := merged,
      observationCount := window.observationCount + mergedCount,
      hookEventsTruncated := truncated || window.hookEventsTruncated,
      hookFactsPartial := true);
  }

  function EventCount(insertions: seq<Insertion>, n: nat): nat {
    if n == 0 then 0 else EventCount(insertions, n - 1) + |EventsFor(insertions, n - 1)|
  }

  lemma {:induction false} InsertionTurns(turns: seq<Turn>, candidates: seq<Node>, n: nat)
    requires n <= |candidates|
    ensures forall k | 0 <= k < |Insertions(turns, candidates, n)| :: Insertions(turns, candidates, n)[k].turn < |turns|
  {
    if n != 0 {
      InsertionTurns(turns, candidates, n - 1);
    }
  }

  lemma {:induction false} EventCountSnoc(insertions: seq<Insertion>, insertion: Insertion, n: nat)
    ensures EventCount(insertions + [insertion], n) == EventCount(insertions, n) + (if insertion.turn < n then 1 else 0)
  {
    if n != 0 {
      EventCountSnoc(insertions, insertion, n - 1);
    }
  }

  lemma {:induction false} EventCountNone(n: nat)
    ensures EventCount([], n) == 0
  {
    if n != 0 {
      EventCountNone(n - 1);
    }
  }

  lemma {:induction false} EventCountAll(insertions: seq<Insertion>, n: nat)
    requires forall k | 0 <= k < |insertions| :: insertions[k].turn < n
    ensures EventCount(insertions, n) == |insertions|
  {
    if insertions == [] {
      EventCountNone(n);
    } else {
      var front, last := insertions[..|insertions| - 1], insertions[|insertions| - 1];
      EventCountAll(front, n);
      EventCountSnoc(front, last, n);
      assert insertions == front + [last];
    }
  }

  // ---------------------------------------------------------------------
  // What the overlay keeps and adds.

  lemma {:induction false} EventsForElements(insertions: seq<Insertion>, t: nat)
    ensures forall x | x in EventsFor(insertions, t) :: exists k | 0 <= k < |insertions| ::
      insertions[k] == Insertion(x, t)
    ensures forall k | 0 <= k < |insertions| && insertions[k].turn == t ::
      insertions[k].node in EventsFor(insertions, t)
  {
    if insertions != [] {
      var front := insertions[..|insertions| - 1];
      EventsForElements(front, t);
      forall x | x in EventsFor(insertions, t) ensures exists k | 0 <= k < |insertions| ::
        insertions[k] == Insertion(x, t) {
        if x in EventsFor(front, t) {
          var k :| 0 <= k < |front| && front[k] == Insertion(x, t);
          assert insertions[k] == Insertion(x, t);
        } else {
          assert insertions[|insertions| - 1] == Insertion(x, t);
        }
      }
    }
  }

  /** Nothing native is lost or duplicated: a turn gains exactly its new events. */
  lemma {:induction false} NativeNodesKept(turn: Turn, events: seq<Node>)
    ensures multiset(Extended(turn, events).nodes) == multiset(turn.nodes) + multiset(events)
    ensures Extended(turn, events) == turn.(nodes := Extended(turn, events).nodes)
  {
    SortElements(NodeTime, turn.nodes + events);
  }

  lemma {:induction false} InNodesOfMember(nodes: seq<Node>, node: Node)
    requires node in nodes
    ensures InNodes(nodes, node.item.id)
  {
    var m :| 0 <= m < |nodes| && nodes[m] == node;
    assert nodes[m].item.id == node.item.id;
  }

  /** Native nodes in time order stay in that order, whatever is inserted between them. */
  lemma {:induction false} NativeOrderKept(turn: Turn, events: seq<Node>)
    requires Sorted(NodeTime, turn.nodes)
    requires forall e | e in events :: !InNodes(turn.nodes, e.item.id)
    ensures Filter(n => n in turn.nodes, Extended(turn, events).nodes) == turn.nodes
  {
    var native := n => n in turn.nodes;
    forall e | e in events ensures !native(e) {
      if e in turn.nodes {
        InNodesOfMember(turn.nodes, e);
      }
    }
    if events == [] {
      FilterAll(native, turn.nodes);
    } else {
      SortKeepsPart(NodeTime, native, turn.nodes, events);
    }
  }

  /** At one point in time, native nodes come first and new events follow in their own order. */
  lemma {:induction false} NativeFirstAtTies(turn: Turn, events: seq<Node>, at: int)
    ensures var now := n => NodeTime(n) == at;
      Filter(now, Extended(turn, events).nodes) == Filter(now, turn.nodes) + Filter(now, events)
  {
    var now := n => NodeTime(n) == at;
    if events == [] {
      assert Filter(now, turn.nodes) + [] == Filter(now, turn.nodes);
    } else {
      SortKeepsTies(NodeTime, now, turn.nodes, events, at);
    }
  }

  /** A turn that gained events is in time order. */
  lemma {:induction false} ExtendedInOrder(turn: Turn, events: seq<Node>)
    requires events != []
    ensures Sorted(NodeTime, Extended(turn, events).nodes)
  {
    SortSorted(NodeTime, turn.nodes + events);
  }

  /** Where an inserted event comes from and why it may stand where it stands. */
  lemma {:induction false} InsertionSound(turns: seq<Turn>, candidates: seq<Node>, n: nat, k: nat) returns (m: nat)
    requires n <= |candidates| && k < |Insertions(turns, candidates, n)|
    ensures m < n && Insertions(turns, candidates, n)[k].node == candidates[m]
    ensures PlacedIn(turns, candidates[m], Insertions(turns, candidates, n)[k].turn)
    ensures !HasNode(turns, candidates[m].item.id)
    ensures forall l | 0 <= l < |Insertions(turns, candidates, n)| && l != k ::
      Insertions(turns, candidates, n)[l].node.item.id != candidates[m].item.id
  {
    var before := Insertions(turns, candidates, n - 1);
    var all := Insertions(turns, candidates, n);
    assert before <= all && |all| <= |before| + 1;
    if k < |before| {
      m := InsertionSound(turns, candidates, n - 1, k);
      if |all| > |before| {
        assert before[k] == all[k];
        assert IsNew(turns, before, candidates[n - 1]) && all[|before|].node == candidates[n - 1];
      }
    } else {
      m := n - 1;
      forall l | 0 <= l < |all| && l != k ensures all[l].node.item.id != candidates[m].item.id {
        assert all[l] == before[l];
      }
    }
  }

  function NodeTotal(turns: seq<Turn>, n: nat): nat
    requires n <= |turns|
  {
    if n == 0 then 0 else NodeTotal(turns, n - 1) + |turns[n - 1].nodes|
  }

  lemma {:induction false} NodeTotalGrows(turns: seq<Turn>, insertions: seq<Insertion>, n: nat)
    requires n <= |turns|
    ensures NodeTotal(ExtendedTurns(turns, insertions), n) == NodeTotal(turns, n) + EventCount(insertions, n)
  {
    if n != 0 {
      NodeTotalGrows(turns, insertions, n - 1);
      var events := EventsFor(insertions, n - 1);
      NativeNodesKept(turns[n - 1], events);
      assert |multiset(Extended(turns[n - 1], events).nodes)| == |turns[n - 1].nodes| + |events|;
    }
  }

  /** The observation count grows by exactly the number of nodes added to the turns. */
  lemma {:induction false} CountGrowsWithNodes(window: Window, candidates: seq<Node>, truncated: bool)
    ensures var result := Overlaid(window, candidates, truncated);
      && |result.turns| == |window.turns|
      && result.observationCount - window.observationCount
         == NodeTotal(result.turns, |result.turns|) - NodeTotal(window.turns, |window.turns|)
  {
    var insertions := Insertions(window.turns, candidates, |candidates|);
    InsertionTurns(window.turns, candidates, |candidates|);
    EventCountAll(insertions, |window.turns|);
    NodeTotalGrows(window.turns, insertions, |window.turns|);
  }

  // ---------------------------------------------------------------------
  // Overlaying twice.

  /** No event names another event of the same batch as its parent. */
  predicate Unrelated(candidates: seq<Node>) {
    forall a, b | 0 <= a < |candidates| && 0 <= b < |candidates| && a != b && candidates[a].item.nativeParentId != "" ::
      candidates[a].item.nativeParentId != candidates[b].item.nativeEventId
  }

  lemma {:induction false} ExtendedMembers(turns: seq<Turn>, insertions: seq<Insertion>, t: nat, node: Node)
    requires t < |turns|
    ensures node in ExtendedTurns(turns, insertions)[t].nodes
      <==> node in turns[t].nodes || Insertion(node, t) in insertions
  {
    var events := EventsFor(insertions, t);
    NativeNodesKept(turns[t], events);
    EventsForElements(insertions, t);
    assert node in Extended(turns[t], events).nodes <==> node in multiset(Extended(turns[t], events).nodes);
  }

  lemma {:induction false} ShownAfterwards(turns: seq<Turn>, insertions: seq<Insertion>, node: Node, t: nat)
    requires t < |turns| && (node in turns[t].nodes || Insertion(node, t) in insertions)
    ensures var turns' := ExtendedTurns(turns, insertions);
      HasNode(turns', node.item.id)
      && forall fact | States(node, fact) :: HasFact(turns', fact)
  {
    var turns' := ExtendedTurns(turns, insertions);
    ExtendedMembers(turns, insertions, t, node);
    var m :| 0 <= m < |turns'[t].nodes| && turns'[t].nodes[m] == node;
    assert InNodes(turns'[t].nodes, node.item.id);
    forall fact | States(node, fact) ensures HasFact(turns', fact) {
      assert FactIn(turns'[t].nodes, fact);
    }
  }

  /** What stands in a turn afterwards stood there before or was inserted. */
  lemma {:induction false} ShownBefore(turns: seq<Turn>, insertions: seq<Insertion>, t: nat, m: nat)
    requires t < |turns| && m < |ExtendedTurns(turns, insertions)[t].nodes|
    ensures var node := ExtendedTurns(turns, insertions)[t].nodes[m];
      || (exists l | 0 <= l < |turns[t].nodes| :: turns[t].nodes[l] == node)
      || (exists k | 0 <= k < |insertions| :: insertions[k] == Insertion(node, t))
  {
    ExtendedMembers(turns, insertions, t, ExtendedTurns(turns, insertions)[t].nodes[m]);
  }

  lemma {:induction false} IdAfterwards(turns: seq<Turn>, insertions: seq<Insertion>, id: string)
    requires forall k | 0 <= k < |insertions| :: insertions[k].turn < |turns|
    ensures HasNode(ExtendedTurns(turns, insertions), id) <==> HasNode(turns, id) || InsertedId(insertions, id)
  {
    var turns' := ExtendedTurns(turns, insertions);
    if t :| 0 <= t < |turns'| && InNodes(turns'[t].nodes, id) {
      var m :| 0 <= m < |turns'[t].nodes| && turns'[t].nodes[m].item.id == id;
      ShownBefore(turns, insertions, t, m);
      if l :| 0 <= l < |turns[t].nodes| && turns[t].nodes[l] == turns'[t].nodes[m] {
        assert InNodes(turns[t].nodes, id);
      }
    }
    if t :| 0 <= t < |turns| && InNodes(turns[t].nodes, id) {
      var m :| 0 <= m < |turns[t].nodes| && turns[t].nodes[m].item.id == id;
      ShownAfterwards(turns, insertions, turns[t].nodes[m], t);
    }
    if k :| 0 <= k < |insertions| && insertions[k].node.item.id == id {
      ShownAfterwards(turns, insertions, insertions[k].node, insertions[k].turn);
    }
  }

  lemma {:induction false} FactAfterwards(turns: seq<Turn>, insertions: seq<Insertion>, fact: Fact)
    requires forall k | 0 <= k < |insertions| :: insertions[k].turn < |turns|
    ensures HasFact(ExtendedTurns(turns, insertions), fact) <==> HasFact(turns, fact) || InsertedFact(insertions, fact)
  {
    var turns' := ExtendedTurns(turns, insertions);
    if t :| 0 <= t < |turns'| && FactIn(turns'[t].nodes, fact) {
      var m :| 0 <= m < |turns'[t].nodes| && States(turns'[t].nodes[m], fact);
      ShownBefore(turns, insertions, t, m);
      if l :| 0 <= l < |turns[t].nodes| && turns[t].nodes[l] == turns'[t].nodes[m] {
        assert FactIn(turns[t].nodes, fact);
      }
    }
    if t :| 0 <= t < |turns| && FactIn(turns[t].nodes, fact) {
      var m :| 0 <= m < |turns[t].nodes| && States(turns[t].nodes[m], fact);
      ShownAfterwards(turns, insertions, turns[t].nodes[m], t);
    }
    if k :| 0 <= k < |insertions| && States(insertions[k].node, fact) {
      ShownAfterwards(turns, insertions, insertions[k].node, insertions[k].turn);
    }
  }

  /** An event is new to the second overlay exactly if neither the window nor the first overlay shows it. */
  lemma {:induction false} NewAgain(turns: seq<Turn>, insertions: seq<Insertion>, node: Node)
    requires forall k | 0 <= k < |insertions| :: insertions[k].turn < |turns|
    ensures IsNew(ExtendedTurns(turns, insertions), [], node) <==> IsNew(turns, insertions, node)
  {
    IdAfterwards(turns, insertions, node.item.id);
    FactAfterwards(turns, insertions, FactOf(node));
  }

  lemma {:induction false} InsertionsMonotone(turns: seq<Turn>, candidates: seq<Node>, n: nat, m: nat)
    requires n <= m <= |candidates|
    ensures Insertions(turns, candidates, n) <= Insertions(turns, candidates, m)
    decreases m - n
  {
    if n < m {
      InsertionsMonotone(turns, candidates, n, m - 1);
    }
  }

  ghost predicate BroughtTo(insertions: seq<Insertion>, key: Identity, t: nat) {
    exists k | 0 <= k < |insertions| :: insertions[k].turn == t && Carries(insertions[k].node, key)
  }

  /** A turn owns an identity afterwards if it did before or if an inserted event brought it. */
  lemma {:induction false} OwnershipAfterwards(turns: seq<Turn>, insertions: seq<Insertion>, key: Identity, t: nat)
    requires t < |turns|
    ensures Owns(ExtendedTurns(turns, insertions)[t], key) <==> Owns(turns[t], key) || BroughtTo(insertions, key, t)
  {
    var turns' := ExtendedTurns(turns, insertions);
    if m :| 0 <= m < |turns'[t].nodes| && Carries(turns'[t].nodes[m], key) {
      ShownBefore(turns, insertions, t, m);
      if l :| 0 <= l < |turns[t].nodes| && turns[t].nodes[l] == turns'[t].nodes[m] {
        assert Carries(turns[t].nodes[l], key);
      }
    }
    if m :| 0 <= m < |turns[t].nodes| && Carries(turns[t].nodes[m], key) {
      ExtendedMembers(turns, insertions, t, turns[t].nodes[m]);
      var l :| 0 <= l < |turns'[t].nodes| && turns'[t].nodes[l] == turns[t].nodes[m];
      assert Carries(turns'[t].nodes[l], key);
    }
    if k :| 0 <= k < |insertions| && insertions[k].turn == t && Carries(insertions[k].node, key) {
      ExtendedMembers(turns, insertions, t, insertions[k].node);
      var l :| 0 <= l < |turns'[t].nodes| && turns'[t].nodes[l] == insertions[k].node;
      assert Carries(turns'[t].nodes[l], key);
    }
  }

  predicate AllEvents(candidates: seq<Node>) {
    forall m | 0 <= m < |candidates| :: candidates[m].EventNode?
  }

  /** Inserted events stand in user turns, and name no tool call as their own. */
  ghost predicate ProperInsertions(turns: seq<Turn>, insertions: seq<Insertion>) {
    forall k | 0 <= k < |insertions| ::
      insertions[k].turn < |turns| && IsUserTurn(turns[insertions[k].turn]) && insertions[k].node.EventNode?
  }

  lemma {:induction false} InsertionsProper(turns: seq<Turn>, candidates: seq<Node>, n: nat)
    requires n <= |candidates| && AllEvents(candidates)
    ensures ProperInsertions(turns, Insertions(turns, candidates, n))
  {
    var all := Insertions(turns, candidates, n);
    forall k | 0 <= k < |all|
      ensures all[k].turn < |turns| && IsUserTurn(turns[all[k].turn]) && all[k].node.EventNode?
    {
      var m := InsertionSound(turns, candidates, n, k);
    }
  }

  lemma {:induction false} CallOwnersStay(turns: seq<Turn>, insertions: seq<Insertion>, id: string, t: nat)
    requires ProperInsertions(turns, insertions) && t < |turns|
    ensures SoleOwner(ExtendedTurns(turns, insertions), CallIdentity(id), t) <==> SoleOwner(turns, CallIdentity(id), t)
  {
    forall u | 0 <= u < |turns| ensures Owns(ExtendedTurns(turns, insertions)[u], CallIdentity(id))
      <==> Owns(turns[u], CallIdentity(id)) {
      OwnershipAfterwards(turns, insertions, CallIdentity(id), u);
    }
    forall u | 0 <= u < |turns| ensures IsUserTurn(ExtendedTurns(turns, insertions)[u]) == IsUserTurn(turns[u]) {
    }
  }

  /** No native user turn knows the event, and all that brought it stand in turn `t`. */
  ghost predicate BroughtOnlyTo(turns: seq<Turn>, insertions: seq<Insertion>, id: string, t: nat) {
    && (forall u | 0 <= u < |turns| && IsUserTurn(turns[u]) :: !Owns(turns[u], EventIdentity(id)))
    && BroughtTo(insertions, EventIdentity(id), t)
    && (forall k | 0 <= k < |insertions| && Carries(insertions[k].node, EventIdentity(id)) :: insertions[k].turn == t)
  }

  /** A turn is the only owner of an event afterwards only if it was before, or if the insertions made it so. */
  lemma {:induction false} EventOwnersChange(turns: seq<Turn>, insertions: seq<Insertion>, id: string, t: nat)
    requires ProperInsertions(turns, insertions) && t < |turns| && IsUserTurn(turns[t])
    ensures BroughtOnlyTo(turns, insertions, id, t)
      ==> SoleOwner(ExtendedTurns(turns, insertions), EventIdentity(id), t)
    ensures SoleOwner(ExtendedTurns(turns, insertions), EventIdentity(id), t) ==>
      SoleOwner(turns, EventIdentity(id), t) || BroughtOnlyTo(turns, insertions, id, t)
  {
    var key, turns' := EventIdentity(id), ExtendedTurns(turns, insertions);
    forall u | 0 <= u < |turns|
      ensures IsUserTurn(turns'[u]) == IsUserTurn(turns[u])
      ensures Owns(turns'[u], key) <==> Owns(turns[u], key) || BroughtTo(insertions, key, u)
    {
      OwnershipAfterwards(turns, insertions, key, u);
    }
    if SoleOwner(turns', key, t) && !SoleOwner(turns, key, t) {
      forall k | 0 <= k < |insertions| && Carries(insertions[k].node, key) ensures insertions[k].turn == t {
        assert BroughtTo(insertions, key, insertions[k].turn);
        assert Owns(turns'[insertions[k].turn], key);
      }
    }
  }

  /**
   * The event has a place after the first overlay only: a user turn that covers its time
   * and owns the call it names, if any, and that got its parent from Hook events alone.
   */
  ghost predicate Adopts(turns: seq<Turn>, insertions: seq<Insertion>, node: Node, t: nat) {
    && IsNew(turns, insertions, node)
    && t < |turns| && IsUserTurn(turns[t]) && Covers(turns[t], node.item.at)
    && node.item.nativeParentId != "" && BroughtOnlyTo(turns, insertions, node.item.nativeParentId, t)
    && (node.item.nativeCallId != "" ==> SoleOwner(turns, CallIdentity(node.item.nativeCallId), t))
  }

  lemma {:induction false} PlacedByKeys(turns: seq<Turn>, node: Node, t: nat)
    requires t < |turns|
    ensures PlacedIn(turns, node, t) <==>
      && IsUserTurn(turns[t]) && Covers(turns[t], node.item.at)
      && (node.item.nativeParentId != "" ==> SoleOwner(turns, EventIdentity(node.item.nativeParentId), t))
      && (node.item.nativeCallId != "" ==> SoleOwner(turns, CallIdentity(node.item.nativeCallId), t))
      && (node.item.nativeParentId == "" && node.item.nativeCallId == "" ==>
            forall u | 0 <= u < |turns| && u != t && IsUserTurn(turns[u]) :: !Covers(turns[u], node.item.at))
  {
    var keys := CorrelationKeys(node);
    if node.item.nativeParentId != "" {
      assert EventIdentity(node.item.nativeParentId) in keys;
    }
    if node.item.nativeCallId != "" {
      assert CallIdentity(node.item.nativeCallId) in keys;
    }
  }

  lemma {:induction false} SameTime(turns: seq<Turn>, insertions: seq<Insertion>, u: nat)
    requires u < |turns|
    ensures var turn := ExtendedTurns(turns, insertions)[u];
      turn.trigger == turns[u].trigger && turn.startedAt == turns[u].startedAt && turn.endedAt == turns[u].endedAt
  {
  }

  lemma {:induction false} AdoptedIsPlaced(turns: seq<Turn>, insertions: seq<Insertion>, node: Node, t: nat)
    requires ProperInsertions(turns, insertions) && Adopts(turns, insertions, node, t)
    ensures PlacedIn(ExtendedTurns(turns, insertions), node, t)
  {
    PlacedByKeys(ExtendedTurns(turns, insertions), node, t);
    SameTime(turns, insertions, t);
    CallOwnersStay(turns, insertions, node.item.nativeCallId, t);
    EventOwnersChange(turns, insertions, node.item.nativeParentId, t);
    assert IsUserTurn(ExtendedTurns(turns, insertions)[t]) && Covers(ExtendedTurns(turns, insertions)[t], node.item.at);
  }

  lemma {:induction false} PlacedByTime(turns: seq<Turn>, insertions: seq<Insertion>, node: Node, t: nat)
    requires t < |turns| && node.item.nativeParentId == "" && node.item.nativeCallId == ""
    requires PlacedIn(ExtendedTurns(turns, insertions), node, t)
    ensures PlacedIn(turns, node, t)
  {
    SameTime(turns, insertions, t);
    forall u | 0 <= u < |turns| && u != t && IsUserTurn(turns[u]) ensures !Covers(turns[u], node.item.at) {
      SameTime(turns, insertions, u);
    }
  }

  lemma {:induction false} PlacedIsAdopted(turns: seq<Turn>, insertions: seq<Insertion>, node: Node, t: nat)
    requires ProperInsertions(turns, insertions) && IsNew(turns, insertions, node) && t < |turns|
    requires PlacedIn(ExtendedTurns(turns, insertions), node, t)
    ensures PlacedIn(turns, node, t) || Adopts(turns, insertions, node, t)
  {
    PlacedByKeys(turns, node, t);
    PlacedByKeys(ExtendedTurns(turns, insertions), node, t);
    SameTime(turns, insertions, t);
    assert IsUserTurn(turns[t]) && Covers(turns[t], node.item.at);
    CallOwnersStay(turns, insertions, node.item.nativeCallId, t);
    EventOwnersChange(turns, insertions, node.item.nativeParentId, t);
    if node.item.nativeParentId == "" && node.item.nativeCallId == "" {
      PlacedByTime(turns, insertions, node, t);
    }
  }

  /** An event that had no place gets one exactly if a turn adopts it. */
  lemma {:induction false} PlacedAfterwards(turns: seq<Turn>, insertions: seq<Insertion>, node: Node, t: nat)
    requires ProperInsertions(turns, insertions) && IsNew(turns, insertions, node) && t < |turns|
    requires !PlacedIn(turns, node, t)
    ensures PlacedIn(ExtendedTurns(turns, insertions), node, t) <==> Adopts(turns, insertions, node, t)
  {
    if PlacedIn(ExtendedTurns(turns, insertions), node, t) {
      PlacedIsAdopted(turns, insertions, node, t);
    } else if Adopts(turns, insertions, node, t) {
      AdoptedIsPlaced(turns, insertions, node, t);
    }
  }

  /** What the first overlay does not show had no place in the window. */
  lemma {:induction false} RefusedBefore(turns: seq<Turn>, candidates: seq<Node>, n: nat, t: nat)
    requires n < |candidates| && IsNew(turns, Insertions(turns, candidates, |candidates|), candidates[n])
    ensures !PlacedIn(turns, candidates[n], t)
  {
    if PlacedIn(turns, candidates[n], t) {
      InsertionsMonotone(turns, candidates, n, |candidates|);
      NewToPrefix(turns, Insertions(turns, candidates, n), Insertions(turns, candidates, |candidates|), candidates[n]);
      KnownOnceInserted(turns, candidates, n, t);
    }
  }

  lemma {:induction false} KnownOnceInserted(turns: seq<Turn>, candidates: seq<Node>, n: nat, t: nat)
    requires n < |candidates| && IsNew(turns, Insertions(turns, candidates, n), candidates[n])
      && PlacedIn(turns, candidates[n], t)
    ensures !IsNew(turns, Insertions(turns, candidates, |candidates|), candidates[n])
  {
    InsertionsStep(turns, candidates, n, Some(t));
    InsertionsMonotone(turns, candidates, n + 1, |candidates|);
    LastIsKnown(turns, Insertions(turns, candidates, n), Insertion(candidates[n], t),
      Insertions(turns, candidates, |candidates|));
  }

  lemma {:induction false} LastIsKnown(turns: seq<Turn>, before: seq<Insertion>, last: Insertion, all: seq<Insertion>)
    requires before + [last] <= all
    ensures !IsNew(turns, all, last.node)
  {
    assert all[|before|] == (before + [last])[|before|];
    InsertedIsKnown(turns, all, |before|);
  }

  lemma {:induction false} NewToPrefix(turns: seq<Turn>, before: seq<Insertion>, all: seq<Insertion>, node: Node)
    requires before <= all && IsNew(turns, all, node)
    ensures IsNew(turns, before, node)
  {
    forall k | 0 <= k < |before| ensures before[k] == all[k] {
    }
  }

  /** The second overlay can insert a candidate exactly if some turn adopts it. */
  lemma {:induction false} InsertedAgain(turns: seq<Turn>, candidates: seq<Node>, n: nat, t: nat)
    requires n < |candidates| && AllEvents(candidates)
    ensures var all := Insertions(turns, candidates, |candidates|); var once := ExtendedTurns(turns, all);
      IsNew(once, [], candidates[n]) && PlacedIn(once, candidates[n], t) <==> Adopts(turns, all, candidates[n], t)
  {
    var all := Insertions(turns, candidates, |candidates|);
    InsertionsProper(turns, candidates, |candidates|);
    NewAgain(turns, all, candidates[n]);
    if IsNew(turns, all, candidates[n]) && t < |turns| {
      RefusedBefore(turns, candidates, n, t);
      PlacedAfterwards(turns, all, candidates[n], t);
    }
  }

  lemma {:induction false} NothingInserted(turns: seq<Turn>, candidates: seq<Node>, n: nat)
    requires n <= |candidates|
    requires forall m | 0 <= m < n :: !IsNew(turns, [], candidates[m]) || forall t: nat ::
      !PlacedIn(turns, candidates[m], t)
    ensures Insertions(turns, candidates, n) == []
  {
    if n != 0 {
      NothingInserted(turns, candidates, n - 1);
    }
  }

  lemma {:induction false} SomethingInserted(turns: seq<Turn>, candidates: seq<Node>, n: nat, t: nat)
    requires n < |candidates| && IsNew(turns, [], candidates[n]) && PlacedIn(turns, candidates[n], t)
    ensures Insertions(turns, candidates, |candidates|) != []
  {
    InsertionsMonotone(turns, candidates, n, |candidates|);
    InsertionsMonotone(turns, candidates, n + 1, |candidates|);
    if Insertions(turns, candidates, n) == [] {
      InsertionsStep(turns, candidates, n, Some(t));
    }
  }

  /** A candidate that the second overlay inserts. */
  ghost predicate Adopted(turns: seq<Turn>, candidates: seq<Node>, n: nat, t: nat)
    requires n < |candidates|
  {
    Adopts(turns, Insertions(turns, candidates, |candidates|), candidates[n], t)
  }

  /** The second overlay inserts nothing exactly if no candidate is adopted. */
  lemma {:induction false} NothingAgain(turns: seq<Turn>, candidates: seq<Node>)
    requires AllEvents(candidates)
    ensures var once := ExtendedTurns(turns, Insertions(turns, candidates, |candidates|));
      (Insertions(once, candidates, |candidates|) == [])
      <==> (forall n: nat, t: nat | n < |candidates| :: !Adopted(turns, candidates, n, t))
  {
    var once := ExtendedTurns(turns, Insertions(turns, candidates, |candidates|));
    if n: nat, t: nat :| n < |candidates| && Adopted(turns, candidates, n, t) {
      InsertedAgain(turns, candidates, n, t);
      SomethingInserted(once, candidates, n, t);
    } else {
      forall m | 0 <= m < |candidates|
        ensures !IsNew(once, [], candidates[m]) || forall t: nat :: !PlacedIn(once, candidates[m], t)
      {
        forall t: nat ensures !(IsNew(once, [], candidates[m]) && PlacedIn(once, candidates[m], t)) {
          assert !Adopted(turns, candidates, m, t);
          InsertedAgain(turns, candidates, m, t);
        }
      }
      NothingInserted(once, candidates, |candidates|);
    }
  }

  /**
   * Overlaying the same events a second time changes nothing exactly if no refused event
   * names a parent that only Hook events in one turn brought, and has its place there.
   */
  lemma {:induction false} OverlayTwiceExact(window: Window, candidates: seq<Node>, truncated: bool)
    requires AllEvents(candidates)
    ensures var once := Overlaid(window, candidates, truncated);
      (Overlaid(once, candidates, truncated) == once)
      <==> (forall n: nat, t: nat | n < |candidates| :: !Adopted(window.turns, candidates, n, t))
  {
    var once := Overlaid(window, candidates, truncated);
    NothingAgain(window.turns, candidates);
    var again := Insertions(once.turns, candidates, |candidates|);
    if again == [] {
      assert ExtendedTurns(once.turns, []) == once.turns;
    } else {
      assert Overlaid(once, candidates, truncated).observationCount > once.observationCount;
    }
  }

  lemma {:induction false} UnrelatedNotAdopted(turns: seq<Turn>, candidates: seq<Node>, n: nat, t: nat)
    requires Unrelated(candidates) && n < |candidates|
    ensures !Adopted(turns, candidates, n, t)
  {
    var all := Insertions(turns, candidates, |candidates|);
    if Adopted(turns, candidates, n, t) {
      var k :| 0 <= k < |all| && all[k].turn == t
        && Carries(all[k].node, EventIdentity(candidates[n].item.nativeParentId));
      InsertedIsKnown(turns, all, k);
      var m := InsertionSound(turns, candidates, |candidates|, k);
    }
  }

  lemma {:induction false} InsertedIsKnown(turns: seq<Turn>, insertions: seq<Insertion>, k: nat)
    requires k < |insertions|
    ensures !IsNew(turns, insertions, insertions[k].node)
  {
  }

  /** In particular, when no event names another one as its parent. */
  lemma {:induction false} OverlayIdempotent(window: Window, candidates: seq<Node>, truncated: bool)
    requires Unrelated(candidates) && AllEvents(candidates)
    ensures var once := Overlaid(window, candidates, truncated);
      Overlaid(once, candidates, truncated) == once
  {
    OverlayTwiceExact(window, candidates, truncated);
    forall n: nat, t: nat | n < |candidates| ensures !Adopted(window.turns, candidates, n, t) {
      UnrelatedNotAdopted(window.turns, candidates, n, t);
    }
  }

  function SampleItem(id: string, nativeEventId: string, nativeParentId: string, at: int): Item {
    Item(id, OtherKind("permission.request"), Scope("", "", ""), nativeEventId, "", "", nativeParentId, "", at,
      "", false, false, 0, [], [])
  }

  lemma {:induction false} RefusedThenPlaced(turns: seq<Turn>, parent: Node, child: Node)
    requires |turns| == 1 && PlacedIn(turns, parent, 0) && IsNew(turns, [], parent) && !PlacedIn(turns, child, 0)
    ensures Insertions(turns, [child, parent], 2) == [Insertion(parent, 0)]
  {
    InsertionsStep(turns, [child, parent], 0, None);
    InsertionsStep(turns, [child, parent], 1, Some(0));
  }

  /**
   * One turn without events, a child event, and then its parent: the child is refused
   * while its parent is unknown, and accepted once the parent, itself a Hook event, has
   * become part of the turn.
   */
  lemma {:induction false} OverlayTwiceCanInsertMore(parent: Node, child: Node, turn: Turn)
    requires parent == EventNode(SampleItem("p", "e", "", 5), [], ["p"])
    requires child == EventNode(SampleItem("c", "", "e", 6), [], ["c"])
    requires turn == Turn("t", UserTrigger, Some(0), Some(10), [])
    ensures Insertions([turn], [child, parent], 2) == [Insertion(parent, 0)]
    ensures Adopted([turn], [child, parent], 0, 0)
  {
    PlacedByKeys([turn], parent, 0);
    PlacedByKeys([turn], child, 0);
    RefusedThenPlaced([turn], parent, child);
    AdoptsChild([turn], parent, child);
  }

  lemma {:induction false} AdoptsChild(turns: seq<Turn>, parent: Node, child: Node)
    requires |turns| == 1 && turns[0].nodes == [] && IsUserTurn(turns[0]) && Covers(turns[0], child.item.at)
    requires child.item.nativeParentId != "" && child.item.nativeCallId == "" && child.item.nativeEventId == ""
    requires parent.item.nativeEventId == child.item.nativeParentId && parent.item.id != child.item.id
    ensures Adopts(turns, [Insertion(parent, 0)], child, 0)
  {
    assert Carries([Insertion(parent, 0)][0].node, EventIdentity(child.item.nativeParentId));
  }
}
