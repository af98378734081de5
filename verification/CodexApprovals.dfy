/** The approval queue of a live Codex session: one request is shown at a time. */
module CodexApprovals {
  import opened Prelude
  import opened Texts
  import opened OrderedMaps
  import R = CodexRpc

  datatype Request = Request(id: R.RpcId, detail: string)

  datatype Answer = Answer(id: R.RpcId, accepted: bool)

  datatype ApprovalError = UnknownSession | NotActive | Unavailable

  /** Request ids are strings in the queue, so the number 1 and the text "1" are the same key. */
  function Key(id: R.RpcId): (key: string)
    ensures id.Number? && id.n >= 0 ==> IsDecimal(key) && DecimalValue(key) == id.n
    ensures id.Number? && id.n < 0 ==>
      key != "" && key[0] == '-' && IsDecimal(key[1..]) && DecimalValue(key[1..]) == -id.n
    ensures id.Text? ==> key == id.s
  {
    match id
    case Number(n) =>
      DecimalRoundTrip(if n < 0 then -n else n);
      if n < 0 then "-" + Decimal(-n) else Decimal(n)
    case Text(s) => s
  }

  datatype State = State(
    open: bool,
    approvals: OrderedMap<R.RpcId>,
    shown: OrderedMap<Request>,
    queued: OrderedMap<Request>,
    published: seq<Request>,
    answered: seq<Answer>,
    rejected: seq<R.RpcId>,
    streaming: bool,
    activeTurn: string,
    lastCompletedTurn: string)

  const START := State(true, [], [], [], [], [], [], false, "", "")

  // ---------------------------------------------------------------------
  // What each message does to the state.

  function PublishNext(st: State): State {
    if st.shown != [] || st.queued == [] then st
    else st.(shown := [st.queued[0]], queued := st.queued[1..], published := st.published + [st.queued[0].value])
  }

  function Received(st: State, request: Request): State {
    PublishNext(st.(
      approvals := Put(st.approvals, Key(request.id), request.id),
      queued := Put(st.queued, Key(request.id), request)))
  }

  function Responded(st: State, key: string, accepted: bool): State
    requires Has(st.approvals, key)
  {
    PublishNext(st.(
      answered := st.answered + [Answer(Get(st.approvals, key), accepted)],
      approvals := Drop(st.approvals, key),
      shown := Drop(st.shown, key)))
  }

  function Cleared(st: State): State {
    st.(approvals := [], shown := [], queued := [], streaming := false, activeTurn := "")
  }

  /** A completion that was seen before, or is for another turn than the active one. */
  predicate IsStale(st: State, turn: string) {
    turn != "" && (turn == st.lastCompletedTurn || (st.activeTurn != "" && turn != st.activeTurn))
  }

  function Completed(st: State, turn: string): State {
    if IsStale(st, turn) then st
    else Cleared(if turn != "" then st.(lastCompletedTurn := turn) else st)
  }

  function Declines(approvals: OrderedMap<R.RpcId>, n: nat): (r: seq<Answer>)
    requires n <= |approvals|
    ensures |r| == n && forall i | 0 <= i < n :: r[i] == Answer(approvals[i].value, false)
  {
    seq(n, i requires 0 <= i < n => Answer(approvals[i].value, false))
  }

  function Terminated(st: State): State {
    st.(open := false, answered := st.answered + Declines(st.approvals, |st.approvals|),
        approvals := [], shown := [], queued := [])
  }

  // ---------------------------------------------------------------------
  // The session object.

  class Session {
    var open: bool
    var approvals: OrderedMap<R.RpcId>
    var approvalEvents: OrderedMap<Request>
    var queuedApprovals: OrderedMap<Request>
    var published: seq<Request>
    var answered: seq<Answer>
    var rejected: seq<R.RpcId>
    var streaming: bool
    var activeTurn: string
    var lastCompletedTurn: string

    constructor ()
      ensures View() == START
      ensures open && approvals == [] && approvalEvents == [] && queuedApprovals == [] && published == []
      ensures answered == [] && rejected == [] && !streaming && activeTurn == "" && lastCompletedTurn == ""
    {
      open, approvals, approvalEvents, queuedApprovals := true, [], [], [];
      published, answered, rejected := [], [], [];
      streaming, activeTurn, lastCompletedTurn := false, "", "";
    }

    function View(): State
      reads this
    {
      State(open, approvals, approvalEvents, queuedApprovals, published, answered, rejected,
            streaming, activeTurn, lastCompletedTurn)
    }

    method PublishNextApproval()
      modifies this`approvalEvents, this`queuedApprovals, this`published
      ensures View() == PublishNext(old(View()))
    {
      if |approvalEvents| > 0 || |queuedApprovals| == 0 {
        return;
      }
      var next := queuedApprovals[0];
      queuedApprovals := Drop(queuedApprovals, next.key);
      published := published + [next.value];
      var none: OrderedMap<Request> := [];
      assert Put(none, next.key, next.value) == [next];
      approvalEvents := Put(approvalEvents, next.key, next.value);
    }

    /** A request from the App Server: queued when the session knows how to approve it. */
    method Receive(request: Request, isApproval: bool)
      modifies this`approvals, this`approvalEvents, this`queuedApprovals, this`published, this`rejected
      ensures View() ==
        if old(open) && isApproval then Received(old(View()), request)
        else old(View()).(rejected := old(rejected) + [request.id])
    {
      if !open || !isApproval {
        rejected := rejected + [request.id];
        return;
      }
      var key := Key(request.id);
      approvals := Put(approvals, key, request.id);
      queuedApprovals := Put(queuedApprovals, key, request);
      PublishNextApproval();
    }

    /** The user's answer to the shown request. */
    method RespondToExtension(key: string, confirmed: bool, connected: bool) returns (result: Result<(), ApprovalError>)
      modifies this`approvals, this`approvalEvents, this`queuedApprovals, this`published, this`answered
      ensures result.Ok? <==> open && connected && Has(old(approvals), key) && Has(old(approvalEvents), key)
      ensures result.Ok? ==> answered == old(answered) + [Answer(Get(old(approvals), key), confirmed)]
      ensures View() == if result.Ok? then Responded(old(View()), key, confirmed) else old(View())
    {
      if !open {
        return Err(UnknownSession);
      }
      if !Has(approvals, key) || !Has(approvalEvents, key) {
        return Err(NotActive);
      }
      if !connected {
        return Err(Unavailable);
      }
      answered := answered + [Answer(Get(approvals, key), confirmed)];
      approvals := Drop(approvals, key);
      approvalEvents := Drop(approvalEvents, key);
      PublishNextApproval();
      result := Ok(());
    }

    method TurnStarted(turn: string)
      modifies this`streaming, this`activeTurn
      ensures streaming && activeTurn == if turn != "" then turn else old(activeTurn)
    {
      streaming, activeTurn := true, if turn != "" then turn else activeTurn;
    }

    method Clear()
      modifies this`approvals, this`approvalEvents, this`queuedApprovals, this`streaming, this`activeTurn
      ensures View() == Cleared(old(View()))
      ensures approvals == [] && approvalEvents == [] && queuedApprovals == [] && !streaming && activeTurn == ""
    {
      streaming, activeTurn := false, "";
      approvals, approvalEvents, queuedApprovals := [], [], [];
    }

    method TurnCompleted(turn: string)
      modifies this`approvals, this`approvalEvents, this`queuedApprovals, this`streaming, this`activeTurn,
        this`lastCompletedTurn
      ensures View() == Completed(old(View()), turn)
    {
      if turn != "" && turn == lastCompletedTurn {
        return;
      }
      if activeTurn != "" && turn != "" && turn != activeTurn {
        return;
      }
      if turn != "" {
        lastCompletedTurn := turn;
      }
      Clear();
    }

    /** Declines everything that is still open, oldest first. */
    method Terminate(connected: bool) returns (result: Result<(), ApprovalError>)
      modifies this`open, this`approvals, this`approvalEvents, this`queuedApprovals, this`answered
      ensures result.Ok? <==> old(open) && (connected || old(approvals) == [])
      ensures View() == if result.Ok? then Terminated(old(View())) else old(View())
    {
      if !open {
        return Err(UnknownSession);
      }
      for i := 0 to |approvals|
        invariant open && approvals == old(approvals) && answered == old(answered) + Declines(approvals, i)
        invariant approvalEvents == old(approvalEvents) && queuedApprovals == old(queuedApprovals)
        invariant connected || i == 0
      {
        if !connected {
          assert answered == old(answered);
          return Err(Unavailable);
        }
        assert Declines(approvals, i + 1) == Declines(approvals, i) + [Answer(approvals[i].value, false)];
        answered := answered + [Answer(approvals[i].value, false)];
      }
      approvals, approvalEvents, queuedApprovals := [], [], [];
      open := false;
      result := Ok(());
    }
  }

  // ---------------------------------------------------------------------
  // The queue invariant.

  /** The requests that can still be answered, in arrival order. */
  function Waiting(st: State): OrderedMap<Request> {
    st.shown + st.queued
  }

  function IdsOf(m: OrderedMap<Request>): (r: OrderedMap<R.RpcId>)
    ensures |r| == |m| && forall i | 0 <= i < |m| :: r[i] == Entry(m[i].key, m[i].value.id)
  {
    seq(|m|, i requires 0 <= i < |m| => Entry(m[i].key, m[i].value.id))
  }

  /**
   * The answerable requests are the shown one followed by the queued ones, under
   * distinct keys, and one is shown whenever any is open.
   */
  ghost predicate Orderly(st: State) {
    && st.approvals == IdsOf(Waiting(st))
    && Distinct(Keys(st.approvals))
    && |st.shown| <= 1
    && (st.shown == [] ==> st.queued == [])
  }

  lemma {:induction false} OneIsShown(st: State)
    requires Orderly(st)
    ensures st.approvals != [] <==> |st.shown| == 1
    ensures forall key :: Has(st.approvals, key) <==> Has(st.shown, key) || Has(st.queued, key)
    ensures forall key :: !(Has(st.shown, key) && Has(st.queued, key))
  {
    forall key: string
      ensures Has(st.approvals, key) <==> Has(st.shown, key) || Has(st.queued, key)
      ensures !(Has(st.shown, key) && Has(st.queued, key))
    {
      FindWaiting(st, key);
    }
  }

  lemma {:induction false} DistinctAt<T>(s: seq<T>, i: nat, j: nat)
    requires Distinct(s) && i < j < |s|
    ensures s[i] != s[j]
  {
  }

  /** Where a key stands among the waiting requests. */
  lemma {:induction false} FindWaiting(st: State, key: string)
    requires Orderly(st)
    ensures Find(st.approvals, key) ==
      if Has(st.shown, key) then Find(st.shown, key) else |st.shown| + Find(st.queued, key)
    ensures !(Has(st.shown, key) && Has(st.queued, key))
  {
    var i, j, waiting := Find(st.shown, key), Find(st.queued, key), Waiting(st);
    assert forall k | 0 <= k < |waiting| :: Keys(st.approvals)[k] == st.approvals[k].key == waiting[k].key;
    if i < |st.shown| {
      FindUnique(st.approvals, key, i);
      if j < |st.queued| {
        DistinctAt(Keys(st.approvals), i, |st.shown| + j);
      }
    } else {
      FindUnique(st.approvals, key, |st.shown| + j);
    }
  }

  lemma {:induction false} IdsOfPut(m: OrderedMap<Request>, key: string, request: Request)
    ensures IdsOf(Put(m, key, request)) == Put(IdsOf(m), key, request.id)
  {
    FindUnique(IdsOf(m), key, Find(m, key));
  }

  /** A key that is not shown is put into the queue and into the answerable requests alike. */
  lemma {:induction false} PutWaiting(st: State, request: Request)
    requires Orderly(st) && !Has(st.shown, Key(request.id))
    ensures Put(st.approvals, Key(request.id), request.id)
      == IdsOf(st.shown + Put(st.queued, Key(request.id), request))
  {
    var key := Key(request.id);
    PutBehind(st.shown, st.queued, key, request);
    IdsOfPut(Waiting(st), key, request);
  }

  /** What is not in front is put behind. */
  lemma {:induction false} PutBehind<V>(front: OrderedMap<V>, rest: OrderedMap<V>, key: string, value: V)
    requires !Has(front, key)
    ensures Put(front + rest, key, value) == front + Put(rest, key, value)
  {
    FindUnique(front + rest, key, |front| + Find(rest, key));
  }

  lemma {:induction false} PutDistinct<V>(m: OrderedMap<V>, key: string, value: V)
    requires Distinct(Keys(m))
    ensures Distinct(Keys(Put(m, key, value)))
  {
    HasKey(m, key);
  }

  lemma {:induction false} PublishOrderly(st: State)
    requires st.approvals == IdsOf(Waiting(st)) && Distinct(Keys(st.approvals)) && |st.shown| <= 1
    ensures Orderly(PublishNext(st))
  {
    if st.shown == [] && st.queued != [] {
      assert [st.queued[0]] + st.queued[1..] == Waiting(st);
    }
  }

  /** Exactly a request under the key of the shown one breaks the queue. */
  lemma {:induction false} ReceivedOrderly(st: State, request: Request)
    requires Orderly(st)
    ensures Orderly(Received(st, request)) <==> !Has(st.shown, Key(request.id))
  {
    var key := Key(request.id);
    FindWaiting(st, key);
    PutDistinct(st.approvals, key, request.id);
    if !Has(st.shown, key) {
      PutWaiting(st, request);
      PublishOrderly(st.(approvals := Put(st.approvals, key, request.id), queued := Put(st.queued, key, request)));
    } else {
      assert |Waiting(Received(st, request))| == |st.approvals| + 1;
    }
  }

  lemma {:induction false} QueueAlone(st: State, answered: seq<Answer>)
    requires st.approvals == IdsOf(st.queued) && Distinct(Keys(st.approvals)) && st.shown == []
    ensures Orderly(PublishNext(st.(answered := answered)))
  {
    assert st.shown + st.queued == st.queued;
    PublishOrderly(st.(answered := answered));
  }

  lemma {:induction false} RespondedOrderly(st: State, key: string, accepted: bool)
    requires Orderly(st) && Has(st.shown, key)
    ensures Orderly(Responded(st, key, accepted))
  {
    QueueAlone(st.(approvals := st.approvals[1..], shown := []),
      st.answered + [Answer(st.shown[0].value.id, accepted)]);
  }

  // ---------------------------------------------------------------------
  // Order and conservation.

  function Values<V>(m: OrderedMap<V>): (r: seq<V>)
    ensures |r| == |m| && forall i | 0 <= i < |m| :: r[i] == m[i].value
  {
    seq(|m|, i requires 0 <= i < |m| => m[i].value)
  }

  /** The requests shown so far, followed by those still in the queue. */
  function Line(st: State): seq<Request> {
    st.published + Values(st.queued)
  }

  lemma {:induction false} PublishLine(st: State)
    ensures Line(PublishNext(st)) == Line(st)
  {
    if st.shown == [] && st.queued != [] {
      assert Values(st.queued) == [st.queued[0].value] + Values(st.queued[1..]);
    }
  }

  lemma {:induction false} ReceivedLine(st: State, request: Request)
    requires !Has(st.queued, Key(request.id))
    ensures Line(Received(st, request)) == Line(st) + [request]
  {
    PublishLine(st.(approvals := Put(st.approvals, Key(request.id), request.id),
      queued := Put(st.queued, Key(request.id), request)));
    assert Values(Put(st.queued, Key(request.id), request)) == Values(st.queued) + [request];
  }

  function AnsweredIds(answered: seq<Answer>): (r: seq<R.RpcId>)
    ensures |r| == |answered| && forall i | 0 <= i < |r| :: r[i] == answered[i].id
  {
    seq(|answered|, i requires 0 <= i < |answered| => answered[i].id)
  }

  /** The native requests that were answered or can still be. */
  function Handled(st: State): multiset<R.RpcId> {
    multiset(AnsweredIds(st.answered)) + multiset(Values(st.approvals))
  }

  lemma {:induction false} ValuesPut<V>(m: OrderedMap<V>, key: string, value: V)
    ensures multiset(Values(Put(m, key, value))) <= multiset(Values(m)) + multiset{value}
    ensures !Has(m, key) ==> multiset(Values(Put(m, key, value))) == multiset(Values(m)) + multiset{value}
  {
    var n := Find(m, key);
    if n < |m| {
      assert Values(Put(m, key, value)) == Values(m)[n := value];
    } else {
      assert Values(Put(m, key, value)) == Values(m) + [value];
    }
  }

  lemma {:induction false} WithoutOne<T>(s: seq<T>, n: nat)
    requires n < |s|
    ensures multiset(s) == multiset(s[..n] + s[n + 1..]) + multiset{s[n]}
  {
    assert s == s[..n] + ([s[n]] + s[n + 1..]);
  }

  lemma {:induction false} ValuesDrop<V>(m: OrderedMap<V>, key: string)
    requires Has(m, key)
    ensures multiset(Values(m)) == multiset(Values(Drop(m, key))) + multiset{Get(m, key)}
  {
    var n := Find(m, key);
    ValuesWithout(m, n);
    WithoutOne(Values(m), n);
  }

  lemma {:induction false} ValuesWithout<V>(m: OrderedMap<V>, n: nat)
    requires n < |m|
    ensures Values(m[..n] + m[n + 1..]) == Values(m)[..n] + Values(m)[n + 1..]
  {
    var rest, values := m[..n] + m[n + 1..], Values(m);
    forall i | 0 <= i < |rest| ensures rest[i].value == (values[..n] + values[n + 1..])[i] {
      assert rest[i] == m[if i < n then i else i + 1];
    }
  }

  lemma {:induction false} AnsweredSnoc(answered: seq<Answer>, answer: Answer)
    ensures AnsweredIds(answered + [answer]) == AnsweredIds(answered) + [answer.id]
  {
  }

  lemma {:induction false} RespondedHandled(st: State, key: string, accepted: bool)
    requires Has(st.approvals, key)
    ensures Handled(Responded(st, key, accepted)) == Handled(st)
  {
    ValuesDrop(st.approvals, key);
    AnsweredSnoc(st.answered, Answer(Get(st.approvals, key), accepted));
  }

  lemma {:induction false} TerminatedHandled(st: State)
    ensures Handled(Terminated(st)) == Handled(st) && Terminated(st).approvals == []
  {
    assert AnsweredIds(Terminated(st).answered) == AnsweredIds(st.answered) + Values(st.approvals);
  }

  // ---------------------------------------------------------------------
  // Whole runs.

  datatype Act =
    | Arrive(request: Request, isApproval: bool)
    | Respond(key: string, accepted: bool, connected: bool)
    | StartTurn(turn: string)
    | CompleteTurn(turn: string)
    | Disconnect
    | Terminate(connected: bool)

  function Do(st: State, act: Act): State {
    match act
    case Arrive(request, isApproval) =>
      if st.open && isApproval then Received(st, request) else st.(rejected := st.rejected + [request.id])
    case Respond(key, accepted, connected) =>
      if st.open && connected && Has(st.approvals, key) && Has(st.shown, key) then Responded(st, key, accepted) else st
    case StartTurn(turn) => st.(streaming := true, activeTurn := if turn != "" then turn else st.activeTurn)
    case CompleteTurn(turn) => Completed(st, turn)
    case Disconnect => Cleared(st)
    case Terminate(connected) => if st.open && (connected || st.approvals == []) then Terminated(st) else st
  }

  function DoAll(st: State, acts: seq<Act>): State {
    if acts == [] then st else Do(DoAll(st, acts[..|acts| - 1]), acts[|acts| - 1])
  }

  predicate Accepts(st: State, act: Act) {
    act.Arrive? && act.isApproval && st.open
  }

  /** No request arrives under the key of one that is still open. */
  predicate KeysDiffer(st: State, acts: seq<Act>) {
    acts == [] ||
    var front, last := acts[..|acts| - 1], acts[|acts| - 1];
    && KeysDiffer(st, front)
    && (Accepts(DoAll(st, front), last) ==> !Has(DoAll(st, front).approvals, Key(last.request.id)))
  }

  /** The requests a run puts into the queue, in order. */
  function Arrivals(st: State, acts: seq<Act>): seq<Request> {
    if acts == [] then [] else
      var front, last := acts[..|acts| - 1], acts[|acts| - 1];
      if Accepts(DoAll(st, front), last) then Arrivals(st, front) + [last.request] else Arrivals(st, front)
  }

  /** On every run whose open requests have distinct keys, the queue is in order at all times. */
  lemma {:induction false} QueueStaysOrderly(st: State, acts: seq<Act>)
    requires Orderly(st) && KeysDiffer(st, acts)
    ensures Orderly(DoAll(st, acts))
  {
    if acts != [] {
      var front, last := acts[..|acts| - 1], acts[|acts| - 1];
      QueueStaysOrderly(st, front);
      var before := DoAll(st, front);
      if Accepts(before, last) {
        OneIsShown(before);
        ReceivedOrderly(before, last.request);
      } else if last.Respond? && Has(before.shown, last.key) {
        RespondedOrderly(before, last.key, last.accepted);
      }
    }
  }

  predicate Drops(st: State, act: Act) {
    || act.Disconnect?
    || (act.Terminate? && st.open && (act.connected || st.approvals == []))
    || (act.CompleteTurn? && !IsStale(st, act.turn))
  }

  predicate NothingDropped(st: State, acts: seq<Act>) {
    acts == [] || (NothingDropped(st, acts[..|acts| - 1]) && !Drops(DoAll(st, acts[..|acts| - 1]), acts[|acts| - 1]))
  }

  /** While nothing is dropped, requests are shown exactly in arrival order, and the rest waits in that order. */
  lemma {:induction false} ShownInArrivalOrder(st: State, acts: seq<Act>)
    requires Orderly(st) && KeysDiffer(st, acts) && NothingDropped(st, acts)
    ensures Line(DoAll(st, acts)) == Line(st) + Arrivals(st, acts)
  {
    if acts == [] {
      assert Line(st) + [] == Line(st);
    } else {
      var front, last := acts[..|acts| - 1], acts[|acts| - 1];
      ShownInArrivalOrder(st, front);
      QueueStaysOrderly(st, front);
      var before := DoAll(st, front);
      if Accepts(before, last) {
        OneIsShown(before);
        ReceivedLine(before, last.request);
        assert Line(st) + Arrivals(st, front) + [last.request] == Line(st) + Arrivals(st, acts);
      } else if last.Respond? && Has(before.approvals, last.key) {
        PublishLine(before.(
          answered := before.answered + [Answer(Get(before.approvals, last.key), last.accepted)],
          approvals := Drop(before.approvals, last.key), shown := Drop(before.shown, last.key)));
      }
    }
  }

  /** The native ids that a run puts into the queue. */
  function ArrivedIds(st: State, acts: seq<Act>): multiset<R.RpcId> {
    if acts == [] then multiset{} else
      var front, last := acts[..|acts| - 1], acts[|acts| - 1];
      ArrivedIds(st, front) + (if Accepts(DoAll(st, front), last) then multiset{last.request.id} else multiset{})
  }

  lemma {:induction false} ReceivedHandled(st: State, request: Request)
    ensures Handled(Received(st, request)) <= Handled(st) + multiset{request.id}
    ensures !Has(st.approvals, Key(request.id)) ==> Handled(Received(st, request)) == Handled(st) + multiset{request.id}
  {
    ValuesPut(st.approvals, Key(request.id), request.id);
  }

  lemma {:induction false} ActHandled(st: State, act: Act)
    ensures Handled(Do(st, act)) <= Handled(st) + if Accepts(st, act) then multiset{act.request.id} else multiset{}
    ensures !act.Disconnect? && !act.CompleteTurn? && (Accepts(st, act) ==> !Has(st.approvals, Key(act.request.id))) ==>
      Handled(Do(st, act)) == Handled(st) + if Accepts(st, act) then multiset{act.request.id} else multiset{}
  {
    match act {
      case Arrive(request, _) => ReceivedHandled(st, request);
      case Respond(key, accepted, _) =>
        if Has(st.approvals, key) {
          RespondedHandled(st, key, accepted);
        }
      case Terminate(_) => TerminatedHandled(st);
      case _ =>
    }
  }

  /** On every run, answers and open requests together never exceed what arrived: no request is answered twice. */
  lemma {:induction false} AnsweredAtMostOnce(st: State, acts: seq<Act>)
    ensures Handled(DoAll(st, acts)) <= Handled(st) + ArrivedIds(st, acts)
  {
    if acts != [] {
      AnsweredAtMostOnce(st, acts[..|acts| - 1]);
      ActHandled(DoAll(st, acts[..|acts| - 1]), acts[|acts| - 1]);
    }
  }

  /** With distinct keys, only an ended turn or connection drops requests: else each is answered or still open. */
  lemma {:induction false} NoRequestLost(st: State, acts: seq<Act>)
    requires KeysDiffer(st, acts) && forall act | act in acts :: !act.Disconnect? && !act.CompleteTurn?
    ensures Handled(DoAll(st, acts)) == Handled(st) + ArrivedIds(st, acts)
  {
    if acts != [] {
      NoRequestLost(st, acts[..|acts| - 1]);
      ActHandled(DoAll(st, acts[..|acts| - 1]), acts[|acts| - 1]);
    }
  }

  // ---------------------------------------------------------------------
  // Equal keys.

  /** The request under `key` waits, but nothing can answer it. */
  predicate Blocked(st: State, key: string) {
    |st.shown| == 1 && Has(Waiting(st), key) && !Has(st.approvals, key)
  }

  /** How many requests stand before the one under `key`; none when it is the shown one. */
  function Place(st: State, key: string): nat {
    Find(Waiting(st), key)
  }

  predicate Reissues(st: State, act: Act, key: string) {
    Accepts(st, act) && Key(act.request.id) == key
  }

  /** Nothing is dropped, and no request arrives under `key`. */
  predicate Undisturbed(st: State, acts: seq<Act>, key: string) {
    acts == [] ||
    var front, last := acts[..|acts| - 1], acts[|acts| - 1];
    && Undisturbed(st, front, key)
    && !Drops(DoAll(st, front), last)
    && !Reissues(DoAll(st, front), last, key)
  }

  lemma {:induction false} DropAt<V>(m: OrderedMap<V>, key: string, i: nat)
    requires Has(m, key) && i < |m| - 1
    ensures |Drop(m, key)| == |m| - 1 && Drop(m, key)[i] == m[if i < Find(m, key) then i else i + 1]
  {
    WithoutAt(m, Find(m, key), i);
  }

  lemma {:induction false} WithoutAt<T>(s: seq<T>, n: nat, i: nat)
    requires n < |s| && i < |s| - 1
    ensures (s[..n] + s[n + 1..])[i] == s[if i < n then i else i + 1]
  {
  }

  lemma {:induction false} DropDistinct<V>(m: OrderedMap<V>, key: string)
    requires Distinct(Keys(m)) && Has(m, key)
    ensures Distinct(Keys(Drop(m, key))) && !Has(Drop(m, key), key)
  {
    var n, rest := Find(m, key), Drop(m, key);
    forall i, j | 0 <= i < j < |rest| ensures Keys(rest)[i] != Keys(rest)[j] {
      DropAt(m, key, i);
      DropAt(m, key, j);
      DistinctAt(Keys(m), if i < n then i else i + 1, if j < n then j else j + 1);
    }
    forall i | 0 <= i < |rest| ensures rest[i].key != key {
      DropAt(m, key, i);
      DistinctAt(Keys(m), if i < n then i else n, if i < n then n else i + 1);
    }
    FindUnique(rest, key, |rest|);
  }

  /** On every run, equal keys or not, a key stands for one answerable request. */
  lemma {:induction false} KeysStayDistinct(st: State, acts: seq<Act>)
    requires Distinct(Keys(st.approvals))
    ensures Distinct(Keys(DoAll(st, acts).approvals))
  {
    if acts != [] {
      var front, last := acts[..|acts| - 1], acts[|acts| - 1];
      KeysStayDistinct(st, front);
      var before := DoAll(st, front);
      if Accepts(before, last) {
        PutDistinct(before.approvals, Key(last.request.id), last.request.id);
      } else if last.Respond? && Has(before.approvals, last.key) {
        DropDistinct(before.approvals, last.key);
      }
    }
  }

  /** Answering the shown request blocks the queue exactly when another request took its key. */
  lemma {:induction false} EqualKeyBlocks(st: State, key: string, accepted: bool)
    requires Distinct(Keys(st.approvals)) && Has(st.approvals, key) && |st.shown| == 1 && Has(st.shown, key)
    ensures var next := Responded(st, key, accepted);
      && (Blocked(next, key) <==> Has(st.queued, key))
      && (Blocked(next, key) ==> Place(next, key) == Find(st.queued, key))
  {
    DropDistinct(st.approvals, key);
    var next := Responded(st, key, accepted);
    assert Drop(st.shown, key) == [];
    assert Waiting(next) == st.queued;
  }

  /** A second request under the key of the shown one goes to the end of an orderly queue. */
  lemma {:induction false} EqualKeyArrives(st: State, request: Request)
    requires Orderly(st) && Has(st.shown, Key(request.id))
    ensures var next := Received(st, request); var key := Key(request.id);
      && Distinct(Keys(next.approvals)) && Has(next.approvals, key) && next.shown == st.shown
      && Has(next.queued, key) && Find(next.queued, key) == |st.queued|
  {
    var key := Key(request.id);
    FindWaiting(st, key);
    PutDistinct(st.approvals, key, request.id);
    HasKey(Put(st.approvals, key, request.id), key);
    assert Keys(Put(st.approvals, key, request.id))[Find(st.approvals, key)] == key;
    FindUnique(Put(st.queued, key, request), key, |st.queued|);
  }

  lemma {:induction false} PutKeepsPlace<V>(m: OrderedMap<V>, key: string, value: V, other: string)
    requires key != other
    ensures Has(Put(m, key, value), other) <==> Has(m, other)
    ensures Has(m, other) ==> Find(Put(m, key, value), other) == Find(m, other)
  {
    if Has(m, other) {
      FindUnique(Put(m, key, value), other, Find(m, other));
    } else {
      FindUnique(Put(m, key, value), other, |Put(m, key, value)|);
    }
  }

  lemma {:induction false} PutOneKeepsPlace(one: OrderedMap<Request>, m: OrderedMap<Request>, key: string,
      value: Request, other: string)
    requires key != other && Has(one + m, other)
    ensures Has(one + Put(m, key, value), other) && Find(one + Put(m, key, value), other) == Find(one + m, other)
  {
    var after := one + Put(m, key, value);
    forall i | 0 <= i < |one + m| ensures after[i].key == (one + m)[i].key {
    }
    FindUnique(after, other, Find(one + m, other));
  }

  lemma {:induction false} FindTail<V>(m: OrderedMap<V>, key: string)
    requires m != [] && Has(m, key) && m[0].key != key
    ensures Has(m[1..], key) && Find(m[1..], key) == Find(m, key) - 1
  {
  }

  lemma {:induction false} DropKeepsAbsent<V>(m: OrderedMap<V>, key: string, other: string)
    requires !Has(m, other)
    ensures !Has(Drop(m, key), other)
  {
    var n, rest := Find(m, key), Drop(m, key);
    forall i | 0 <= i < |rest| ensures rest[i].key != other {
      assert rest[i] == m[i] || rest[i] == m[i + 1];
    }
    FindUnique(rest, other, |rest|);
  }

  lemma {:induction false} BlockedAnswer(st: State, key: string, answered: string, accepted: bool)
    requires Blocked(st, key) && Has(st.approvals, answered) && Has(st.shown, answered)
    ensures var next := Responded(st, answered, accepted);
      Blocked(next, key) && |next.published| == |st.published| + 1 && Place(next, key) == Place(st, key) - 1
  {
    DropKeepsAbsent(st.approvals, answered, key);
    FindTail(Waiting(st), key);
    assert Drop(st.shown, answered) == [];
    assert Waiting(st)[1..] == st.queued;
    assert Waiting(Responded(st, answered, accepted)) == st.queued;
  }

  /** One step at a blocked queue: each answer takes the blocked request one place nearer to the front. */
  lemma {:induction false} BlockedStep(st: State, act: Act, key: string)
    requires Blocked(st, key) && !Drops(st, act) && !Reissues(st, act, key)
    ensures var next := Do(st, act);
      && Blocked(next, key)
      && |next.published| + Place(next, key) == |st.published| + Place(st, key)
      && |next.answered| + Place(next, key) == |st.answered| + Place(st, key)
  {
    if Accepts(st, act) {
      var k := Key(act.request.id);
      PutKeepsPlace(st.approvals, k, act.request.id, key);
      PutOneKeepsPlace(st.shown, st.queued, k, act.request, key);
    } else if act.Respond? && Has(st.approvals, act.key) && Has(st.shown, act.key) {
      BlockedAnswer(st, key, act.key, act.accepted);
    }
  }

  /** Only an ended turn or connection, or a new request under the same key, releases a blocked request. */
  lemma {:induction false} BlockedExact(st: State, act: Act, key: string)
    requires Blocked(st, key)
    ensures Blocked(Do(st, act), key) <==> !Drops(st, act) && !Reissues(st, act, key)
  {
    if Reissues(st, act, key) {
      FindUnique(Put(st.approvals, key, act.request.id), key, Find(st.approvals, key));
    } else if !Drops(st, act) {
      BlockedStep(st, act, key);
    }
  }

  /**
   * However long a run is, a blocked queue shows and answers exactly the requests
   * before the blocked one, and nothing at all once that one is shown.
   */
  lemma {:induction false} BlockedForGood(st: State, acts: seq<Act>, key: string)
    requires Blocked(st, key) && Undisturbed(st, acts, key)
    ensures var after := DoAll(st, acts);
      && Blocked(after, key)
      && |after.published| + Place(after, key) == |st.published| + Place(st, key)
      && |after.answered| + Place(after, key) == |st.answered| + Place(st, key)
  {
    if acts != [] {
      var front, last := acts[..|acts| - 1], acts[|acts| - 1];
      BlockedForGood(st, front, key);
      BlockedStep(DoAll(st, front), last, key);
    }
  }

  /** The number 1 and the text "1" are different request ids with the same key. */
  lemma {:induction false} NumberAndTextClash()
    ensures R.Number(1) != R.RpcId.Text("1") && Key(R.Number(1)) == Key(R.RpcId.Text("1"))
  {
  }
}
