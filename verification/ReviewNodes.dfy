/** Review nodes: observations become messages, tool rows and events. */
module ReviewNodes {
  import opened Prelude

  datatype Kind =
    | UserMessage
    | AssistantMessage
    | CommentaryMessage
    | ReasoningMessage
    | ToolCall
    | ToolResult
    | ToolRegistration
    | SessionLifecycle
    | OtherKind(name: string)

  datatype Role = User | Assistant | Commentary | Reasoning

  datatype Evidence = Evidence(id: string, body: string)

  /** Installation, source and source session: the scope of every native id. */
  datatype Scope = Scope(installation: string, source: string, session: string)

  /**
   * A timeline item. Absent native ids are empty strings, as in the source where
   * both are falsy; `callId` is the native call id or else its payload alias,
   * `text` is the text shown for a message, `attachments` counts
   * its attachments, `metadataAction` marks a session rename or title action and
   * `registered` is the evidence of its tool registration.
   */
  datatype Item = Item(
    id: string,
    kind: Kind,
    scope: Scope,
    nativeEventId: string,
    nativeCallId: string,
    callId: string,
    nativeParentId: string,
    parentId: string,
    at: int,
    text: string,
    commentaryPhase: bool,
    metadataAction: bool,
    attachments: nat,
    evidence: seq<Evidence>,
    registered: seq<Evidence>)

  datatype Node =
    | MessageNode(item: Item, evidence: seq<Evidence>, observationIds: seq<string>)
    | ToolNode(item: Item, result: Option<Item>, evidence: seq<Evidence>, observationIds: seq<string>)
    | EventNode(item: Item, evidence: seq<Evidence>, observationIds: seq<string>)

  datatype MessageKey = MessageKey(scope: Scope, nativeEventId: string, role: Role)

  datatype CallKey = CallKey(scope: Scope, callId: string)

  predicate IsMessage(item: Item) {
    item.kind in {UserMessage, AssistantMessage, CommentaryMessage, ReasoningMessage}
  }

  function RoleOf(item: Item): (role: Role)
    ensures IsMessage(item) ==>
      && (role == User <==> item.kind == UserMessage) && (role == Reasoning <==> item.kind == ReasoningMessage)
      && (role == Assistant <==> item.kind == AssistantMessage && !item.commentaryPhase)
  {
    match item.kind
    case UserMessage => User
    case CommentaryMessage => Commentary
    case ReasoningMessage => Reasoning
    case _ => if item.commentaryPhase then Commentary else Assistant
  }

  function MessageKeyOf(item: Item): MessageKey {
    MessageKey(item.scope, item.nativeEventId, RoleOf(item))
  }

  function CallKeyOf(item: Item): CallKey {
    CallKey(item.scope, item.callId)
  }

  predicate IsCallWith(item: Item, key: CallKey) {
    item.kind == ToolCall && item.callId != "" && CallKeyOf(item) == key
  }

  predicate IsResultWith(item: Item, key: CallKey) {
    item.kind == ToolResult && item.callId != "" && CallKeyOf(item) == key
  }

  predicate DistinctIds(items: seq<Item>) {
    && (forall i | 0 <= i < |items| :: items[i].id != "")
    && (forall i, j | 0 <= i < j < |items| :: items[i].id != items[j].id)
  }

  // ---------------------------------------------------------------------
  // What the projection means, item by item.

  /** Item `i` is the only tool call of the list that carries `key`. */
  ghost predicate SoleCall(items: seq<Item>, i: nat, key: CallKey) {
    && i < |items|
    && IsCallWith(items[i], key)
    && forall k | 0 <= k < |items| && k != i :: !IsCallWith(items[k], key)
  }

  /** The result at `j` belongs to the call at `i`. */
  ghost predicate Pairs(items: seq<Item>, i: nat, j: nat) {
    && i < j < |items|
    && IsResultWith(items[j], CallKeyOf(items[j]))
    && SoleCall(items, i, CallKeyOf(items[j]))
    && forall r | i < r < j :: !IsResultWith(items[r], CallKeyOf(items[j]))
  }

  predicate SameNativeMessage(a: Item, b: Item) {
    IsMessage(a) && IsMessage(b) && b.nativeEventId != "" && MessageKeyOf(a) == MessageKeyOf(b)
  }

  /** `q` is the latest message before `j` with the native identity of `j`. */
  ghost predicate PreviousTwin(items: seq<Item>, q: nat, j: nat) {
    && q < j < |items|
    && SameNativeMessage(items[q], items[j])
    && forall r | q < r < j :: !SameNativeMessage(items[r], items[j])
  }

  predicate SameContent(a: Item, b: Item) {
    a.text == b.text && a.attachments == 0 && b.attachments == 0
  }

  /** `j` repeats the latest message of the same native identity. */
  ghost predicate Repeats(items: seq<Item>, q: nat, j: nat) {
    PreviousTwin(items, q, j) && SameContent(items[q], items[j])
  }

  /** The item whose node shows item `j`; registrations are shown nowhere. */
  ghost function Owner(items: seq<Item>, j: nat): (o: Option<nat>)
    requires j < |items|
    ensures o.Some? ==> o.value <= j
    decreases j
  {
    if items[j].kind == ToolRegistration then None
    else if exists q: nat :: Repeats(items, q, j) then
      var q: nat :| Repeats(items, q, j);
      Owner(items, q)
    else if exists i: nat :: Pairs(items, i, j) then
      var i: nat :| Pairs(items, i, j);
      Some(i)
    else Some(j)
  }

  /** The node a fresh item opens. */
  function Open(item: Item): Node {
    if IsMessage(item) then MessageNode(item, item.evidence, [item.id])
    else if item.kind == ToolCall then ToolNode(item, None, item.evidence + item.registered, [item.id])
    else EventNode(item, item.evidence, [item.id])
  }

  /** One entry per evidence id, in order of first appearance, the last entry winning. */
  function Dedup(entries: seq<Evidence>): seq<Evidence> {
    if entries == [] then [] else
      var last := entries[|entries| - 1];
      Put(Dedup(entries[..|entries| - 1]), last)
  }

  /** `Map.set` on an insertion-ordered map of evidence entries. */
  function Put(entries: seq<Evidence>, entry: Evidence): seq<Evidence> {
    if entries == [] then [entry]
    else if entries[0].id == entry.id then [entry] + entries[1..]
    else [entries[0]] + Put(entries[1..], entry)
  }

  /** The node once a later item has been merged into it or attached to it. */
  function Absorb(node: Node, item: Item): Node {
    match node
    case MessageNode(i, evidence, ids) =>
      MessageNode(i, Dedup(evidence + item.evidence), ids + [item.id])
    case ToolNode(i, _, evidence, ids) =>
      ToolNode(i, Some(item), Dedup(evidence + item.evidence), ids + [item.id])
    case EventNode(_, _, _) => node
  }

  /** The node opened by item `i`, after the first `n` items. */
  ghost function NodeAt(items: seq<Item>, i: nat, n: nat): Node
    requires i < n <= |items|
    decreases n
  {
    if n == i + 1 then Open(items[i])
    else if Owner(items, n - 1) == Some(i) then Absorb(NodeAt(items, i, n - 1), items[n - 1])
    else NodeAt(items, i, n - 1)
  }

  /** The items among the first `n` that open a node, in order. */
  ghost function Openers(items: seq<Item>, n: nat): (s: seq<nat>)
    requires n <= |items|
    ensures forall k | 0 <= k < |s| :: s[k] < n && Owner(items, s[k]) == Some(s[k])
    ensures forall k, l | 0 <= k < l < |s| :: s[k] < s[l]
  {
    if n == 0 then []
    else Openers(items, n - 1) + if Owner(items, n - 1) == Some(n - 1) then [n - 1] else []
  }

  /** The nodes of the first `n` items, pairing decided on the whole list. */
  ghost function NodesUpTo(items: seq<Item>, n: nat): seq<Node>
    requires n <= |items|
  {
    var openers := Openers(items, n);
    seq(|openers|, k requires 0 <= k < |openers| => NodeAt(items, openers[k], n))
  }

  ghost function Nodes(items: seq<Item>): seq<Node> {
    NodesUpTo(items, |items|)
  }

  // ---------------------------------------------------------------------
  // Facts about ownership.

  lemma {:induction false} SoleCallUnique(items: seq<Item>, i: nat, k: nat, key: CallKey)
    requires SoleCall(items, i, key) && SoleCall(items, k, key)
    ensures i == k
  {
  }

  lemma {:induction false} OwnerOfPair(items: seq<Item>, i: nat, j: nat)
    requires Pairs(items, i, j)
    ensures Owner(items, j) == Some(i)
  {
    forall k: nat | Pairs(items, k, j) ensures k == i {
      SoleCallUnique(items, i, k, CallKeyOf(items[j]));
    }
  }

  lemma {:induction false} OwnerOfRepeat(items: seq<Item>, q: nat, j: nat)
    requires Repeats(items, q, j)
    ensures Owner(items, j) == Owner(items, q)
  {
    forall k: nat | Repeats(items, k, j) ensures k == q {
    }
  }

  lemma {:induction false} OwnerOfOther(items: seq<Item>, j: nat)
    requires j < |items| && items[j].kind != ToolRegistration
    requires forall q: nat :: !Repeats(items, q, j)
    requires forall i: nat :: !Pairs(items, i, j)
    ensures Owner(items, j) == Some(j)
  {
  }

  /** A message is shown by a message of the same identity and the same text. */
  lemma {:induction false} OwnerOfMessage(items: seq<Item>, j: nat)
    requires j < |items| && IsMessage(items[j])
    ensures Owner(items, j).Some?
    ensures var a := Owner(items, j).value;
      && IsMessage(items[a])
      && Owner(items, a) == Some(a)
      && items[a].text == items[j].text
      && (a == j || (SameNativeMessage(items[a], items[j]) && SameContent(items[a], items[j])))
    decreases j
  {
    if q: nat :| Repeats(items, q, j) {
      OwnerOfRepeat(items, q, j);
      OwnerOfMessage(items, q);
    } else {
      OwnerOfOther(items, j);
    }
  }

  /** An owner opens its own node. */
  lemma {:induction false} OwnerOwnsItself(items: seq<Item>, j: nat)
    requires j < |items| && Owner(items, j).Some?
    ensures Owner(items, Owner(items, j).value) == Owner(items, j)
  {
    if IsMessage(items[j]) {
      OwnerOfMessage(items, j);
    } else if i: nat :| Pairs(items, i, j) {
      OwnerOfPair(items, i, j);
      OwnerOfOther(items, i);
    } else {
      OwnerOfOther(items, j);
    }
  }

  // ---------------------------------------------------------------------
  // One step of the projection.

  lemma {:induction false} StepOpen(items: seq<Item>, n: nat)
    requires n < |items| && Owner(items, n) == Some(n)
    ensures NodesUpTo(items, n + 1) == NodesUpTo(items, n) + [Open(items[n])]
    ensures Openers(items, n + 1) == Openers(items, n) + [n]
  {
  }

  lemma {:induction false} StepSkip(items: seq<Item>, n: nat)
    requires n < |items| && Owner(items, n) == None
    ensures NodesUpTo(items, n + 1) == NodesUpTo(items, n)
    ensures Openers(items, n + 1) == Openers(items, n)
  {
  }

  lemma {:induction false} StepAbsorb(items: seq<Item>, n: nat, p: nat)
    requires n < |items| && p < |Openers(items, n)|
    requires Owner(items, n) == Some(Openers(items, n)[p])
    ensures Openers(items, n + 1) == Openers(items, n)
    ensures NodesUpTo(items, n + 1)
         == NodesUpTo(items, n)[p := Absorb(NodesUpTo(items, n)[p], items[n])]
  {
  }

  /** Every owner among the first `n` items has a position among the nodes. */
  lemma {:induction false} OpenerPosition(items: seq<Item>, n: nat, i: nat) returns (p: nat)
    requires i < n <= |items| && Owner(items, i) == Some(i)
    ensures p < |Openers(items, n)| && Openers(items, n)[p] == i
  {
    if n == i + 1 {
      p := OpenerLast(items, i);
    } else {
      p := OpenerPosition(items, n - 1, i);
      OpenerStays(items, n - 1, i, p);
    }
  }

  lemma {:induction false} OpenerLast(items: seq<Item>, i: nat) returns (p: nat)
    requires i < |items| && Owner(items, i) == Some(i)
    ensures p < |Openers(items, i + 1)| && Openers(items, i + 1)[p] == i
  {
    p := |Openers(items, i)|;
  }

  lemma {:induction false} OpenerStays(items: seq<Item>, n: nat, i: nat, p: nat)
    requires n < |items| && p < |Openers(items, n)| && Openers(items, n)[p] == i
    ensures p < |Openers(items, n + 1)| && Openers(items, n + 1)[p] == i
  {
    OpenersGrow(items, n);
  }

  lemma {:induction false} OpenersGrow(items: seq<Item>, n: nat)
    requires n < |items|
    ensures Openers(items, n) <= Openers(items, n + 1)
  {
  }

  lemma {:induction false} NodeAtItem(items: seq<Item>, i: nat, n: nat)
    requires i < n <= |items|
    ensures NodeAt(items, i, n).item == items[i]
    ensures IsMessage(items[i]) <==> NodeAt(items, i, n).MessageNode?
    ensures items[i].kind == ToolCall <==> NodeAt(items, i, n).ToolNode?
    decreases n
  {
    if n != i + 1 {
      NodeAtItem(items, i, n - 1);
    }
  }

  /** Among results that follow a sole call, the first one is attached to it. */
  lemma {:induction false} FirstResultPairs(items: seq<Item>, i: nat, r: nat) returns (j: nat)
    requires i < r < |items|
    requires IsResultWith(items[r], CallKeyOf(items[r])) && SoleCall(items, i, CallKeyOf(items[r]))
    ensures j <= r && Pairs(items, i, j) && CallKeyOf(items[j]) == CallKeyOf(items[r])
    decreases r
  {
    if k: nat :| i < k < r && IsResultWith(items[k], CallKeyOf(items[r])) {
      j := FirstResultPairs(items, i, k);
    } else {
      j := r;
    }
  }

  // ---------------------------------------------------------------------
  // The two passes of the projection.

  /** Some call among the first `n` items carries `key`. */
  predicate Called(items: seq<Item>, n: nat, key: CallKey)
    requires n <= |items|
  {
    n != 0 && (Called(items, n - 1, key) || IsCallWith(items[n - 1], key))
  }

  /** Two different calls among the first `n` items carry `key`. */
  predicate Reused(items: seq<Item>, n: nat, key: CallKey)
    requires n <= |items|
  {
    n != 0 && (Reused(items, n - 1, key) || (Called(items, n - 1, key) && IsCallWith(items[n - 1], key)))
  }

  lemma {:induction false} CalledAt(items: seq<Item>, n: nat, key: CallKey)
    requires n <= |items|
    ensures Called(items, n, key) <==> exists i | 0 <= i < n :: IsCallWith(items[i], key)
  {
    if n != 0 {
      CalledAt(items, n - 1, key);
    }
  }

  /** A call is the sole carrier of its key exactly if no two calls carry it. */
  lemma {:induction false} ReusedOrSole(items: seq<Item>, i: nat, key: CallKey)
    requires i < |items| && IsCallWith(items[i], key)
    ensures SoleCall(items, i, key) <==> !Reused(items, |items|, key)
  {
    ReusedBeyond(items, i, |items|, key);
  }

  lemma {:induction false} ReusedBeyond(items: seq<Item>, i: nat, n: nat, key: CallKey)
    requires i < n <= |items| && IsCallWith(items[i], key)
    ensures Reused(items, n, key) <==> exists k | 0 <= k < n && k != i :: IsCallWith(items[k], key)
  {
    CalledAt(items, n - 1, key);
    if i < n - 1 {
      ReusedBeyond(items, i, n - 1, key);
    } else {
      if Reused(items, i, key) {
        ReusedIsCalled(items, i, key);
      }
    }
  }

  lemma {:induction false} ReusedIsCalled(items: seq<Item>, n: nat, key: CallKey)
    requires n <= |items| && Reused(items, n, key)
    ensures Called(items, n, key)
  {
    if Reused(items, n - 1, key) {
      ReusedIsCalled(items, n - 1, key);
    }
  }

  predicate OlderId(items: seq<Item>, n: nat, id: string)
    requires n <= |items|
  {
    id != "" && forall k | n <= k < |items| :: items[k].id != id
  }

  /** The first pass: call ids that do not identify one call are never guessed about. */
  method AmbiguousCalls(items: seq<Item>) returns (ambiguous: set<CallKey>)
    requires DistinctIds(items)
    ensures forall key :: key in ambiguous <==> Reused(items, |items|, key)
  {
    var callOwners: map<CallKey, string> := map[];
    ambiguous := {};
    for n := 0 to |items|
      invariant forall key :: key in callOwners <==> Called(items, n, key)
      invariant forall key :: key in callOwners ==> OlderId(items, n, callOwners[key])
      invariant forall key :: key in ambiguous <==> Reused(items, n, key)
    {
      var item := items[n];
      if item.kind == ToolCall && item.callId != "" {
        var key := CallKeyOf(item);
        if key in callOwners && callOwners[key] != "" && callOwners[key] != item.id {
          ambiguous := ambiguous + {key};
        } else {
          callOwners := callOwners[key := item.id];
        }
      }
    }
  }

  /** `q` is the latest of the first `n` items with this message identity. */
  ghost predicate Latest(items: seq<Item>, q: nat, n: nat, key: MessageKey) {
    && q < n <= |items|
    && HasKey(items[q], key)
    && forall r | q < r < n :: !HasKey(items[r], key)
  }

  predicate HasKey(item: Item, key: MessageKey) {
    IsMessage(item) && item.nativeEventId != "" && MessageKeyOf(item) == key
  }

  function LatestIndex(items: seq<Item>, n: nat, key: MessageKey): (o: Option<nat>)
    requires n <= |items|
    ensures o.Some? ==> Latest(items, o.value, n, key)
    ensures o.None? ==> forall q | 0 <= q < n :: !HasKey(items[q], key)
  {
    if n == 0 then None
    else if HasKey(items[n - 1], key) then Some(n - 1)
    else LatestIndex(items, n - 1, key)
  }

  /** Every message identity seen so far is mapped to the node that shows its latest message. */
  ghost predicate MessageTable(items: seq<Item>, n: nat, table: map<MessageKey, nat>)
    requires n <= |items|
  {
    forall key ::
      && (key in table <==> LatestIndex(items, n, key).Some?)
      && (key in table ==> Shows(items, n, table[key], LatestIndex(items, n, key).value))
  }

  /** The node at position `p` shows item `q`. */
  ghost predicate Shows(items: seq<Item>, n: nat, p: nat, q: nat)
    requires n <= |items|
  {
    q < n && p < |Openers(items, n)| && Owner(items, q) == Some(Openers(items, n)[p])
  }

  ghost predicate CallTable(items: seq<Item>, n: nat, table: map<CallKey, nat>)
    requires n <= |items|
  {
    && (forall key :: key in table ==>
          table[key] < |Openers(items, n)| && SoleCall(items, Openers(items, n)[table[key]], key))
    && (forall i: nat, key :: i < n && SoleCall(items, i, key) ==> key in table)
  }

  ghost predicate SettledTable(items: seq<Item>, n: nat, settled: set<string>)
    requires n <= |items|
  {
    && (forall i: nat, j: nat :: j < n && Pairs(items, i, j) ==> items[i].id in settled)
    && (forall id :: id in settled ==> exists i: nat, j: nat :: j < n && Pairs(items, i, j) && items[i].id == id)
  }

  lemma {:induction false} ShowsLater(items: seq<Item>, n: nat, p: nat, q: nat)
    requires n < |items| && Shows(items, n, p, q)
    ensures Shows(items, n + 1, p, q)
  {
  }

  lemma {:induction false} RepeatIsLatest(items: seq<Item>, n: nat, q: nat)
    requires n < |items| && IsMessage(items[n]) && items[n].nativeEventId != ""
    ensures LatestIndex(items, n, MessageKeyOf(items[n])) == Some(q) <==> PreviousTwin(items, q, n)
  {
    var key := MessageKeyOf(items[n]);
    forall r | 0 <= r < n ensures SameNativeMessage(items[r], items[n]) <==> HasKey(items[r], key) {
    }
    if PreviousTwin(items, q, n) {
      assert HasKey(items[q], key);
      assert Latest(items, q, n, key);
    }
  }

  /** The table lookup of the second pass decides exactly whether a message is a repeat. */
  lemma {:induction false} MessageLookup(items: seq<Item>, n: nat, table: map<MessageKey, nat>)
    requires n < |items| && IsMessage(items[n]) && MessageTable(items, n, table)
    ensures var key := MessageKeyOf(items[n]);
      if items[n].nativeEventId != "" && key in table && SameContent(items[Openers(items, n)[table[key]]], items[n])
      then Owner(items, n) == Some(Openers(items, n)[table[key]])
      else Owner(items, n) == Some(n)
  {
    var key := MessageKeyOf(items[n]);
    if items[n].nativeEventId != "" && key in table {
      var q := LatestIndex(items, n, key).value;
      assert Shows(items, n, table[key], q);
      RepeatIsLatest(items, n, q);
      OwnerOfMessage(items, q);
      if SameContent(items[q], items[n]) {
        OwnerOfRepeat(items, q, n);
      } else {
        assert forall k: nat :: PreviousTwin(items, k, n) ==> k == q;
        OwnerOfOther(items, n);
      }
    } else {
      forall q: nat ensures !Repeats(items, q, n) {
        if Repeats(items, q, n) {
          RepeatIsLatest(items, n, q);
        }
      }
      OwnerOfOther(items, n);
    }
  }

  lemma {:induction false} MessageTableOther(items: seq<Item>, n: nat, table: map<MessageKey, nat>)
    requires n < |items| && MessageTable(items, n, table)
    requires !IsMessage(items[n]) || items[n].nativeEventId == ""
    ensures MessageTable(items, n + 1, table)
  {
    forall key | key in table ensures Shows(items, n + 1, table[key], LatestIndex(items, n + 1, key).value) {
      ShowsLater(items, n, table[key], LatestIndex(items, n, key).value);
    }
  }

  lemma {:induction false} MessageTableRecord(items: seq<Item>, n: nat, table: map<MessageKey, nat>, p: nat)
    requires n < |items| && MessageTable(items, n, table)
    requires IsMessage(items[n]) && items[n].nativeEventId != ""
    requires p < |Openers(items, n + 1)| && Owner(items, n) == Some(Openers(items, n + 1)[p])
    ensures MessageTable(items, n + 1, table[MessageKeyOf(items[n]) := p])
  {
    var table' := table[MessageKeyOf(items[n]) := p];
    forall key | key in table'
      ensures LatestIndex(items, n + 1, key).Some?
      ensures Shows(items, n + 1, table'[key], LatestIndex(items, n + 1, key).value)
    {
      if key != MessageKeyOf(items[n]) {
        ShowsLater(items, n, table[key], LatestIndex(items, n, key).value);
      }
    }
  }

  lemma {:induction false} CallTableOther(items: seq<Item>, n: nat, table: map<CallKey, nat>)
    requires n < |items| && CallTable(items, n, table)
    requires forall key :: !SoleCall(items, n, key)
    ensures CallTable(items, n + 1, table)
  {
  }

  lemma {:induction false} CallTableRecord(items: seq<Item>, n: nat, table: map<CallKey, nat>)
    requires n < |items| && CallTable(items, n, table)
    requires SoleCall(items, n, CallKeyOf(items[n])) && Owner(items, n) == Some(n)
    ensures CallTable(items, n + 1, table[CallKeyOf(items[n]) := |Openers(items, n)|])
  {
    StepOpen(items, n);
  }

  lemma {:induction false} SettledOther(items: seq<Item>, n: nat, settled: set<string>)
    requires n < |items| && SettledTable(items, n, settled)
    requires forall i: nat :: !Pairs(items, i, n)
    ensures SettledTable(items, n + 1, settled)
  {
    forall id | id in settled
      ensures exists i: nat, j: nat :: j < n + 1 && Pairs(items, i, j) && items[i].id == id
    {
      var i: nat, j: nat :| j < n && Pairs(items, i, j) && items[i].id == id;
      assert j < n + 1;
    }
  }

  lemma {:induction false} SettledRecord(items: seq<Item>, n: nat, settled: set<string>, i: nat)
    requires n < |items| && SettledTable(items, n, settled) && Pairs(items, i, n)
    ensures SettledTable(items, n + 1, settled + {items[i].id})
  {
    forall k: nat, j: nat | j < n + 1 && Pairs(items, k, j) ensures items[k].id in settled + {items[i].id} {
      if j == n {
        SoleCallUnique(items, i, k, CallKeyOf(items[n]));
      }
    }
    forall id | id in settled + {items[i].id}
      ensures exists i: nat, j: nat :: j < n + 1 && Pairs(items, i, j) && items[i].id == id
    {
      if id in settled {
        var i: nat, j: nat :| j < n && Pairs(items, i, j) && items[i].id == id;
        assert j < n + 1;
      }
    }
  }

  /** The table lookup of the second pass decides exactly whether a result is attached. */
  lemma {:induction false} ResultLookup(items: seq<Item>, n: nat, table: map<CallKey, nat>, settled: set<string>)
    requires DistinctIds(items) && n < |items|
    requires CallTable(items, n, table) && SettledTable(items, n, settled)
    requires items[n].kind == ToolResult
    ensures var key := CallKeyOf(items[n]);
      if items[n].callId != "" && key in table && items[Openers(items, n)[table[key]]].id !in settled
      then Pairs(items, Openers(items, n)[table[key]], n)
      else forall i: nat :: !Pairs(items, i, n)
  {
    var key := CallKeyOf(items[n]);
    if items[n].callId != "" && key in table {
      var i := Openers(items, n)[table[key]];
      if items[i].id in settled {
        var k: nat, j: nat :| j < n && Pairs(items, k, j) && items[k].id == items[i].id;
        assert k == i;
        forall c: nat ensures !Pairs(items, c, n) {
          if Pairs(items, c, n) {
            SoleCallUnique(items, c, i, key);
          }
        }
      } else {
        forall r | i < r < n ensures !IsResultWith(items[r], key) {
          if IsResultWith(items[r], key) {
            var j := FirstResultPairs(items, i, r);
          }
        }
      }
    }
  }

  /** What the second pass knows after `n` items. */
  ghost predicate Built(items: seq<Item>, n: nat, nodes: seq<Node>,
      messages: map<MessageKey, nat>, tools: map<CallKey, nat>, settled: set<string>)
  {
    && n <= |items|
    && nodes == NodesUpTo(items, n)
    && MessageTable(items, n, messages)
    && CallTable(items, n, tools)
    && SettledTable(items, n, settled)
  }

  lemma {:induction false} BuiltItems(items: seq<Item>, n: nat, nodes: seq<Node>,
      messages: map<MessageKey, nat>, tools: map<CallKey, nat>, settled: set<string>)
    requires Built(items, n, nodes, messages, tools, settled)
    ensures |nodes| == |Openers(items, n)|
    ensures forall p | 0 <= p < |nodes| :: nodes[p].item == items[Openers(items, n)[p]]
  {
    forall p | 0 <= p < |nodes| ensures nodes[p].item == items[Openers(items, n)[p]] {
      NodeAtItem(items, Openers(items, n)[p], n);
    }
  }

  /** A message either joins the node of its latest twin or opens a node of its own. */
  lemma {:induction false} AfterAbsorbed(items: seq<Item>, n: nat, messages: map<MessageKey, nat>, p: nat)
    requires n < |items| && IsMessage(items[n]) && items[n].nativeEventId != "" && MessageTable(items, n, messages)
    requires MessageKeyOf(items[n]) in messages && messages[MessageKeyOf(items[n])] == p
    requires p < |Openers(items, n)| && Owner(items, n) == Some(Openers(items, n)[p])
    ensures NodesUpTo(items, n + 1) == NodesUpTo(items, n)[p := Absorb(NodesUpTo(items, n)[p], items[n])]
    ensures MessageTable(items, n + 1, messages)
  {
    StepAbsorb(items, n, p);
    MessageTableRecord(items, n, messages, p);
    assert messages == messages[MessageKeyOf(items[n]) := p];
  }

  lemma {:induction false} AfterMessage(items: seq<Item>, n: nat, nodes: seq<Node>,
      messages: map<MessageKey, nat>, tools: map<CallKey, nat>, settled: set<string>)
    requires Built(items, n, nodes, messages, tools, settled) && n < |items|
    requires IsMessage(items[n])
    ensures var item := items[n]; var key := MessageKeyOf(item);
      if item.nativeEventId != "" && key in messages && messages[key] < |nodes|
          && SameContent(nodes[messages[key]].item, item)
      then Built(items, n + 1, nodes[messages[key] := Absorb(nodes[messages[key]], item)], messages, tools, settled)
      else Built(items, n + 1, nodes + [Open(item)],
             if item.nativeEventId != "" then messages[key := |nodes|] else messages, tools, settled)
  {
    var item := items[n];
    var key := MessageKeyOf(item);
    BuiltItems(items, n, nodes, messages, tools, settled);
    MessageLookup(items, n, messages);
    CallTableOther(items, n, tools);
    SettledOther(items, n, settled);
    if item.nativeEventId != "" && key in messages && SameContent(nodes[messages[key]].item, item) {
      AfterAbsorbed(items, n, messages, messages[key]);
    } else {
      StepOpen(items, n);
      if item.nativeEventId != "" {
        MessageTableRecord(items, n, messages, |nodes|);
      } else {
        MessageTableOther(items, n, messages);
      }
    }
  }

  lemma {:induction false} AfterRegistration(items: seq<Item>, n: nat, nodes: seq<Node>,
      messages: map<MessageKey, nat>, tools: map<CallKey, nat>, settled: set<string>)
    requires Built(items, n, nodes, messages, tools, settled) && n < |items|
    requires items[n].kind == ToolRegistration
    ensures Built(items, n + 1, nodes, messages, tools, settled)
  {
    MessageTableOther(items, n, messages);
    StepSkip(items, n);
    CallTableOther(items, n, tools);
    SettledOther(items, n, settled);
  }

  lemma {:induction false} AfterCall(items: seq<Item>, n: nat, nodes: seq<Node>,
      messages: map<MessageKey, nat>, tools: map<CallKey, nat>, settled: set<string>)
    requires Built(items, n, nodes, messages, tools, settled) && n < |items|
    requires items[n].kind == ToolCall
    ensures var key := CallKeyOf(items[n]);
      Built(items, n + 1, nodes + [Open(items[n])], messages,
        if items[n].callId != "" && !Reused(items, |items|, key) then tools[key := |nodes|] else tools, settled)
  {
    MessageTableOther(items, n, messages);
    OwnerOfOther(items, n);
    StepOpen(items, n);
    SettledOther(items, n, settled);
    if items[n].callId != "" {
      ReusedOrSole(items, n, CallKeyOf(items[n]));
    }
    if items[n].callId != "" && !Reused(items, |items|, CallKeyOf(items[n])) {
      CallTableRecord(items, n, tools);
    } else {
      CallTableOther(items, n, tools);
    }
  }

  /** A result settles its call once; every other result stays an event. */
  lemma {:induction false} AfterResult(items: seq<Item>, n: nat, nodes: seq<Node>,
      messages: map<MessageKey, nat>, tools: map<CallKey, nat>, settled: set<string>)
    requires DistinctIds(items)
    requires Built(items, n, nodes, messages, tools, settled) && n < |items|
    requires items[n].kind == ToolResult
    ensures var item := items[n]; var key := CallKeyOf(item);
      if item.callId != "" && !Reused(items, |items|, key) && key in tools && tools[key] < |nodes|
          && nodes[tools[key]].item.id !in settled
      then Built(items, n + 1, nodes[tools[key] := Absorb(nodes[tools[key]], item)], messages, tools,
             settled + {nodes[tools[key]].item.id})
      else Built(items, n + 1, nodes + [Open(item)], messages, tools, settled)
  {
    var item := items[n];
    var key := CallKeyOf(item);
    MessageTableOther(items, n, messages);
    CallTableOther(items, n, tools);
    BuiltItems(items, n, nodes, messages, tools, settled);
    ResultLookup(items, n, tools, settled);
    if item.callId != "" && key in tools {
      ReusedOrSole(items, Openers(items, n)[tools[key]], key);
    }
    if item.callId != "" && key in tools && nodes[tools[key]].item.id !in settled {
      OwnerOfPair(items, Openers(items, n)[tools[key]], n);
      StepAbsorb(items, n, tools[key]);
      SettledRecord(items, n, settled, Openers(items, n)[tools[key]]);
    } else {
      OwnerOfOther(items, n);
      StepOpen(items, n);
      SettledOther(items, n, settled);
    }
  }

  lemma {:induction false} AfterEvent(items: seq<Item>, n: nat, nodes: seq<Node>,
      messages: map<MessageKey, nat>, tools: map<CallKey, nat>, settled: set<string>)
    requires Built(items, n, nodes, messages, tools, settled) && n < |items|
    requires !IsMessage(items[n]) && items[n].kind !in {ToolRegistration, ToolCall, ToolResult}
    ensures Built(items, n + 1, nodes + [Open(items[n])], messages, tools, settled)
  {
    MessageTableOther(items, n, messages);
    CallTableOther(items, n, tools);
    OwnerOfOther(items, n);
    StepOpen(items, n);
    SettledOther(items, n, settled);
  }

  /** The message branch of the second pass. */
  method AddMessage(ghost items: seq<Item>, item: Item, ghost n: nat, nodes: seq<Node>,
      messages: map<MessageKey, nat>, ghost tools: map<CallKey, nat>, ghost settled: set<string>)
    returns (nodes': seq<Node>, messages': map<MessageKey, nat>)
    requires Built(items, n, nodes, messages, tools, settled) && n < |items| && item == items[n]
    requires IsMessage(item)
    ensures Built(items, n + 1, nodes', messages', tools, settled)
  {
    AfterMessage(items, n, nodes, messages, tools, settled);
    var key := MessageKeyOf(item);
    if item.nativeEventId != "" && key in messages && SameContent(nodes[messages[key]].item, item) {
      var p := messages[key];
      return nodes[p := Absorb(nodes[p], item)], messages;
    }
    nodes' := nodes + [Open(item)];
    messages' := if item.nativeEventId != "" then messages[key := |nodes|] else messages;
  }

  /** The tool result branch of the second pass. */
  method AddResult(ghost items: seq<Item>, item: Item, ghost n: nat, nodes: seq<Node>, ambiguous: set<CallKey>,
      ghost messages: map<MessageKey, nat>, tools: map<CallKey, nat>, settled: set<string>)
    returns (nodes': seq<Node>, settled': set<string>)
    requires DistinctIds(items) && Built(items, n, nodes, messages, tools, settled) && n < |items| && item == items[n]
    requires item.kind == ToolResult
    requires forall key :: key in ambiguous <==> Reused(items, |items|, key)
    ensures Built(items, n + 1, nodes', messages, tools, settled')
  {
    AfterResult(items, n, nodes, messages, tools, settled);
    var key := CallKeyOf(item);
    if item.callId != "" && key !in ambiguous && key in tools && nodes[tools[key]].item.id !in settled {
      var p := tools[key];
      return nodes[p := Absorb(nodes[p], item)], settled + {nodes[p].item.id};
    }
    return nodes + [Open(item)], settled;
  }

  /** The second pass, over mutable tables from native identities to node positions. */
  method BuildNodes(items: seq<Item>) returns (nodes: seq<Node>)
    requires DistinctIds(items)
    ensures nodes == Nodes(items)
  {
    var ambiguous := AmbiguousCalls(items);
    nodes := [];
    var messagesByNativeId: map<MessageKey, nat> := map[];
    var toolsByCallId: map<CallKey, nat> := map[];
    var settledToolIds: set<string> := {};
    for n := 0 to |items|
      invariant Built(items, n, nodes, messagesByNativeId, toolsByCallId, settledToolIds)
    {
      var item := items[n];
      if IsMessage(item) {
        nodes, messagesByNativeId :=
          AddMessage(items, item, n, nodes, messagesByNativeId, toolsByCallId, settledToolIds);
      } else if item.kind == ToolRegistration {
        AfterRegistration(items, n, nodes, messagesByNativeId, toolsByCallId, settledToolIds);
      } else if item.kind == ToolCall {
        AfterCall(items, n, nodes, messagesByNativeId, toolsByCallId, settledToolIds);
        if item.callId != "" && CallKeyOf(item) !in ambiguous {
          toolsByCallId := toolsByCallId[CallKeyOf(item) := |nodes|];
        }
        nodes := nodes + [Open(item)];
      } else if item.kind == ToolResult {
        nodes, settledToolIds :=
          AddResult(items, item, n, nodes, ambiguous, messagesByNativeId, toolsByCallId, settledToolIds);
      } else {
        AfterEvent(items, n, nodes, messagesByNativeId, toolsByCallId, settledToolIds);
        nodes := nodes + [Open(item)];
      }
    }
  }

  // ---------------------------------------------------------------------
  // What the nodes say.

  /** The node of an opener, among all nodes. */
  lemma {:induction false} NodeOfOpener(items: seq<Item>, i: nat) returns (p: nat)
    requires i < |items| && Owner(items, i) == Some(i)
    ensures p < |Nodes(items)| && Nodes(items)[p] == NodeAt(items, i, |items|)
  {
    p := OpenerPosition(items, |items|, i);
  }

  lemma {:induction false} ResultAt(items: seq<Item>, i: nat, n: nat)
    requires i < n <= |items| && items[i].kind == ToolCall
    ensures NodeAt(items, i, n).ToolNode?
    ensures forall j: nat :: j < n && Pairs(items, i, j) ==> NodeAt(items, i, n).result == Some(items[j])
    ensures NodeAt(items, i, n).result.Some? ==>
      exists j: nat :: j < n && Pairs(items, i, j) && NodeAt(items, i, n).result == Some(items[j])
    decreases n
  {
    if n != i + 1 {
      ResultAt(items, i, n - 1);
      var j := n - 1;
      if Pairs(items, i, j) {
        OwnerOfPair(items, i, j);
        forall k: nat | k < n && Pairs(items, i, k) ensures k == j {
          assert CallKeyOf(items[k]) == CallKeyOf(items[j]);
        }
      } else if Owner(items, j) == Some(i) {
        OnlyPairsJoinCalls(items, i, j);
      }
    }
  }

  lemma {:induction false} OnlyPairsJoinCalls(items: seq<Item>, i: nat, j: nat)
    requires i < j < |items| && items[i].kind == ToolCall && Owner(items, j) == Some(i)
    ensures Pairs(items, i, j)
  {
    if IsMessage(items[j]) {
      OwnerOfMessage(items, j);
    } else if k: nat :| Pairs(items, k, j) {
      OwnerOfPair(items, k, j);
    } else {
      OwnerOfOther(items, j);
    }
  }

  /**
   * Tool pairing: the row of the call at `i` carries the result at `j` exactly
   * if that call is the only one with the key, it comes first, and no other
   * result with the key lies between them.
   */
  lemma {:induction false} PairingExact(items: seq<Item>, i: nat, j: nat)
    requires DistinctIds(items) && i < |items| && j < |items| && items[i].kind == ToolCall
    ensures exists p | 0 <= p < |Nodes(items)| ::
      (&& Nodes(items)[p].ToolNode?
       && Nodes(items)[p].item == items[i]
       && (Nodes(items)[p].result == Some(items[j]) <==> Pairs(items, i, j)))
  {
    OwnerOfOther(items, i);
    var p := NodeOfOpener(items, i);
    NodeAtItem(items, i, |items|);
    ResultAt(items, i, |items|);
    if Nodes(items)[p].result == Some(items[j]) {
      var k: nat :| k < |items| && Pairs(items, i, k) && items[k] == items[j];
      assert items[k].id == items[j].id;
      assert k == j;
    }
  }

  lemma {:induction false} EventStaysAlone(items: seq<Item>, j: nat, n: nat)
    requires j < n <= |items| && !IsMessage(items[j]) && items[j].kind != ToolCall
    ensures NodeAt(items, j, n) == Open(items[j])
    decreases n
  {
    if n != j + 1 {
      EventStaysAlone(items, j, n - 1);
    }
  }

  /** A result that belongs to no call is an event of its own, with its own evidence. */
  lemma {:induction false} UnpairedResultIsEvent(items: seq<Item>, j: nat)
    requires DistinctIds(items) && j < |items| && items[j].kind == ToolResult
    requires forall i: nat :: !Pairs(items, i, j)
    ensures EventNode(items[j], items[j].evidence, [items[j].id]) in Nodes(items)
  {
    OwnerOfOther(items, j);
    var p := NodeOfOpener(items, j);
    EventStaysAlone(items, j, |items|);
  }

  /** Every message of the identity of `j` from `i` to `j` has the text of `j` and no attachment. */
  ghost predicate UnbrokenRun(items: seq<Item>, i: nat, j: nat) {
    && i < j < |items|
    && SameNativeMessage(items[i], items[j])
    && forall r | i <= r <= j && SameNativeMessage(items[r], items[j]) :: SameContent(items[r], items[j])
  }

  lemma {:induction false} UnbrokenRunRepeats(items: seq<Item>, i: nat, j: nat) returns (q: nat)
    requires UnbrokenRun(items, i, j)
    ensures i <= q && Repeats(items, q, j)
  {
    var key := MessageKeyOf(items[j]);
    assert HasKey(items[i], key);
    q := LatestIndex(items, j, key).value;
    RepeatIsLatest(items, j, q);
    assert SameNativeMessage(items[q], items[j]);
  }

  lemma {:induction false} UnbrokenRunStep(items: seq<Item>, i: nat, q: nat, j: nat)
    requires i < q && Repeats(items, q, j)
    ensures UnbrokenRun(items, i, j) <==> UnbrokenRun(items, i, q)
  {
    forall r | i <= r <= q ensures SameNativeMessage(items[r], items[q]) <==> SameNativeMessage(items[r], items[j]) {
    }
    forall r | i <= r <= q ensures SameContent(items[r], items[q]) <==> SameContent(items[r], items[j]) {
    }
  }

  /** A message between a repeat and the one it repeats has another identity. */
  lemma {:induction false} BehindRepeat(items: seq<Item>, q: nat, i: nat, j: nat)
    requires q < i < j < |items| && Repeats(items, q, j) && IsMessage(items[i]) && IsMessage(items[j])
    ensures Owner(items, i) != Owner(items, q) && !UnbrokenRun(items, i, j)
  {
    OwnerOfMessage(items, i);
    OwnerOfMessage(items, q);
    var a := Owner(items, i).value;
    assert a == i || SameNativeMessage(items[a], items[i]);
  }

  lemma {:induction false} RepeatIsMessage(items: seq<Item>, q: nat, j: nat)
    requires Repeats(items, q, j)
    ensures q < j < |items| && IsMessage(items[q])
  {
  }

  lemma {:induction false} AtRepeat(items: seq<Item>, q: nat, j: nat)
    requires Repeats(items, q, j)
    ensures UnbrokenRun(items, q, j)
  {
  }

  lemma {:induction false} BehindOpener(items: seq<Item>, i: nat, j: nat)
    requires i < j < |items| && IsMessage(items[i]) && IsMessage(items[j]) && forall q: nat :: !Repeats(items, q, j)
    ensures Owner(items, i) != Owner(items, j) && !UnbrokenRun(items, i, j)
  {
    OwnerOfMessage(items, i);
    OwnerOfMessage(items, j);
    OwnerOfOther(items, j);
    if UnbrokenRun(items, i, j) {
      var q := UnbrokenRunRepeats(items, i, j);
    }
  }

  /** Merging: two messages share a node exactly if nothing of their identity between them differs. */
  lemma {:induction false} MergeExact(items: seq<Item>, i: nat, j: nat)
    requires i < j < |items| && IsMessage(items[i]) && IsMessage(items[j])
    ensures Owner(items, i) == Owner(items, j) <==> UnbrokenRun(items, i, j)
    decreases j
  {
    if q: nat :| Repeats(items, q, j) {
      OwnerOfRepeat(items, q, j);
      RepeatIsMessage(items, q, j);
      if i < q {
        MergeExact(items, i, q);
        UnbrokenRunStep(items, i, q, j);
      } else if i > q {
        BehindRepeat(items, q, i, j);
      } else {
        AtRepeat(items, q, j);
      }
    } else {
      BehindOpener(items, i, j);
    }
  }

  // ---------------------------------------------------------------------
  // Conservation.

  function ObservationLists(nodes: seq<Node>): (lists: seq<seq<string>>)
    ensures |lists| == |nodes|
    ensures forall p | 0 <= p < |nodes| :: lists[p] == nodes[p].observationIds
  {
    seq(|nodes|, p requires 0 <= p < |nodes| => nodes[p].observationIds)
  }

  /** All observation ids of a list of nodes, node by node. */
  function Observations(nodes: seq<Node>): seq<string> {
    Flatten(ObservationLists(nodes))
  }

  /** The ids of the items that must be shown. */
  function ShownIds(items: seq<Item>): seq<string> {
    if items == [] then [] else
      var last := items[|items| - 1];
      ShownIds(items[..|items| - 1]) + (if last.kind == ToolRegistration then [] else [last.id])
  }

  lemma {:induction false} ObservationsSnoc(nodes: seq<Node>, node: Node)
    ensures Observations(nodes + [node]) == Observations(nodes) + node.observationIds
  {
    FlattenSnoc(ObservationLists(nodes), node.observationIds);
    assert ObservationLists(nodes + [node]) == ObservationLists(nodes) + [node.observationIds];
  }

  lemma {:induction false} ObservationsAbsorb(nodes: seq<Node>, p: nat, item: Item)
    requires p < |nodes| && !nodes[p].EventNode?
    ensures multiset(Observations(nodes[p := Absorb(nodes[p], item)]))
         == multiset(Observations(nodes)) + multiset{item.id}
  {
    var lists := ObservationLists(nodes);
    FlattenGrow(lists, p, [item.id]);
    assert ObservationLists(nodes[p := Absorb(nodes[p], item)]) == lists[p := lists[p] + [item.id]];
  }

  lemma {:induction false} OwnerAbsorbs(items: seq<Item>, n: nat)
    requires n < |items| && Owner(items, n).Some? && Owner(items, n) != Some(n)
    ensures IsMessage(items[Owner(items, n).value]) || items[Owner(items, n).value].kind == ToolCall
    ensures Owner(items, Owner(items, n).value) == Owner(items, n)
  {
    OwnerOwnsItself(items, n);
    if IsMessage(items[n]) {
      OwnerOfMessage(items, n);
    } else if i: nat :| Pairs(items, i, n) {
      OwnerOfPair(items, i, n);
    } else {
      OwnerOfOther(items, n);
    }
  }

  /** The nodes of the first `n` items show what must be shown of them. */
  ghost predicate ConservedUpTo(items: seq<Item>, n: nat)
    requires n <= |items|
  {
    multiset(Observations(NodesUpTo(items, n))) == multiset(ShownIds(items[..n]))
  }

  lemma {:induction false} NodesConserveUpTo(items: seq<Item>, n: nat)
    requires n <= |items|
    ensures ConservedUpTo(items, n)
  {
    if n != 0 {
      NodesConserveUpTo(items, n - 1);
      ConservedNext(items, n - 1);
    }
  }

  lemma {:induction false} ConservedNext(items: seq<Item>, m: nat)
    requires m < |items| && ConservedUpTo(items, m)
    ensures ConservedUpTo(items, m + 1)
  {
    OneMoreShown(items, m);
    ShownNext(items, m);
  }

  lemma {:induction false} ShownNext(items: seq<Item>, m: nat)
    requires m < |items|
    ensures multiset(ShownIds(items[..m + 1]))
      == multiset(ShownIds(items[..m]))
         + if items[m].kind == ToolRegistration then multiset{} else multiset{items[m].id}
  {
    assert items[..m + 1][..m] == items[..m];
  }

  /** One more item adds its id to what the nodes show, unless it is a registration. */
  lemma {:induction false} OneMoreShown(items: seq<Item>, m: nat)
    requires m < |items|
    ensures multiset(Observations(NodesUpTo(items, m + 1)))
      == multiset(Observations(NodesUpTo(items, m)))
         + if items[m].kind == ToolRegistration then multiset{} else multiset{items[m].id}
  {
    if items[m].kind == ToolRegistration {
      StepSkip(items, m);
    } else if Owner(items, m) == Some(m) {
      StepOpen(items, m);
      ObservationsSnoc(NodesUpTo(items, m), Open(items[m]));
    } else {
      OwnerOwned(items, m);
      OwnerAbsorbs(items, m);
      var i := Owner(items, m).value;
      var p := OpenerPosition(items, m, i);
      StepAbsorb(items, m, p);
      NodeAtItem(items, i, m);
      ObservationsAbsorb(NodesUpTo(items, m), p, items[m]);
    }
  }

  lemma {:induction false} OwnerOwned(items: seq<Item>, n: nat)
    requires n < |items| && items[n].kind != ToolRegistration
    ensures Owner(items, n).Some?
  {
    if IsMessage(items[n]) {
      OwnerOfMessage(items, n);
    } else if i: nat :| Pairs(items, i, n) {
      OwnerOfPair(items, i, n);
    } else {
      OwnerOfOther(items, n);
    }
  }

  /** Every item except registrations is shown by exactly one node, exactly once. */
  lemma {:induction false} NodesConserve(items: seq<Item>)
    ensures multiset(Observations(Nodes(items))) == multiset(ShownIds(items))
  {
    NodesConserveUpTo(items, |items|);
    assert items[..|items|] == items;
  }

  function EvidenceIds(entries: seq<Evidence>): set<string> {
    set e | e in entries :: e.id
  }

  lemma {:induction false} EvidenceIdsAppend(a: seq<Evidence>, b: seq<Evidence>)
    ensures EvidenceIds(a + b) == EvidenceIds(a) + EvidenceIds(b)
  {
    assert forall e :: e in a + b <==> e in a || e in b;
  }

  lemma {:induction false} PutIds(entries: seq<Evidence>, entry: Evidence)
    ensures EvidenceIds(Put(entries, entry)) == EvidenceIds(entries) + {entry.id}
  {
    if entries == [] {
      assert Put(entries, entry) == [entry];
    } else {
      var rest := entries[1..];
      assert entries == [entries[0]] + rest;
      EvidenceIdsAppend([entries[0]], rest);
      if entries[0].id == entry.id {
        EvidenceIdsAppend([entry], rest);
      } else {
        PutIds(rest, entry);
        EvidenceIdsAppend([entries[0]], Put(rest, entry));
      }
    }
  }

  lemma {:induction false} DedupIds(entries: seq<Evidence>)
    ensures EvidenceIds(Dedup(entries)) == EvidenceIds(entries)
  {
    if entries != [] {
      var front, last := entries[..|entries| - 1], entries[|entries| - 1];
      DedupIds(front);
      PutIds(Dedup(front), last);
      EvidenceIdsAppend(front, [last]);
      assert entries == front + [last];
    }
  }

  /** The evidence ids of the first `n` items that the node of `i` shows. */
  ghost function EvidenceShown(items: seq<Item>, i: nat, n: nat): set<string>
    requires n <= |items|
  {
    if n == 0 then {} else
      EvidenceShown(items, i, n - 1)
      + (if Owner(items, n - 1) == Some(i) then EvidenceIds(items[n - 1].evidence) else {})
      + (if n - 1 == i && items[i].kind == ToolCall then EvidenceIds(items[i].registered) else {})
  }

  lemma {:induction false} NothingShownBefore(items: seq<Item>, i: nat, n: nat)
    requires n <= i < |items|
    ensures EvidenceShown(items, i, n) == {}
  {
    if n != 0 {
      NothingShownBefore(items, i, n - 1);
    }
  }

  lemma {:induction false} EvidenceOpens(items: seq<Item>, i: nat)
    requires i < |items| && Owner(items, i) == Some(i)
    ensures EvidenceIds(NodeAt(items, i, i + 1).evidence) == EvidenceShown(items, i, i + 1)
  {
    NothingShownBefore(items, i, i);
    EvidenceIdsAppend(items[i].evidence, items[i].registered);
  }

  lemma {:induction false} EvidenceGrows(items: seq<Item>, i: nat, n: nat)
    requires i < n < |items| && Owner(items, i) == Some(i)
    ensures EvidenceIds(NodeAt(items, i, n + 1).evidence)
      == EvidenceIds(NodeAt(items, i, n).evidence)
         + if Owner(items, n) == Some(i) then EvidenceIds(items[n].evidence) else {}
  {
    if Owner(items, n) == Some(i) {
      OwnerAbsorbs(items, n);
      NodeAtItem(items, i, n);
      var node := NodeAt(items, i, n);
      EvidenceIdsAppend(node.evidence, items[n].evidence);
      DedupIds(node.evidence + items[n].evidence);
    }
  }

  lemma {:induction false} EvidenceShownNext(items: seq<Item>, i: nat, n: nat)
    requires i < n < |items|
    ensures EvidenceShown(items, i, n + 1)
      == EvidenceShown(items, i, n) + if Owner(items, n) == Some(i) then EvidenceIds(items[n].evidence) else {}
  {
  }

  /** No evidence is lost and none is invented: a node lists the evidence of exactly the items it shows. */
  lemma {:induction false} EvidenceExact(items: seq<Item>, i: nat, n: nat)
    requires i < n <= |items| && Owner(items, i) == Some(i)
    ensures EvidenceIds(NodeAt(items, i, n).evidence) == EvidenceShown(items, i, n)
    decreases n
  {
    if n == i + 1 {
      EvidenceOpens(items, i);
    } else {
      EvidenceExact(items, i, n - 1);
      EvidenceNext(items, i, n - 1);
    }
  }

  lemma {:induction false} EvidenceNext(items: seq<Item>, i: nat, n: nat)
    requires i < n < |items| && Owner(items, i) == Some(i)
    requires EvidenceIds(NodeAt(items, i, n).evidence) == EvidenceShown(items, i, n)
    ensures EvidenceIds(NodeAt(items, i, n + 1).evidence) == EvidenceShown(items, i, n + 1)
  {
    EvidenceGrows(items, i, n);
    EvidenceShownNext(items, i, n);
  }
}
