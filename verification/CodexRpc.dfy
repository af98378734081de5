/** The line-framed JSON-RPC transport to the Codex App Server. */
module CodexRpc {
  import opened Prelude
  import opened Texts

  // ---------------------------------------------------------------------
  // Line framing.

  datatype Split = Split(lines: seq<string>, rest: string)

  /** All terminated lines of a text, and the unterminated rest. */
  function SplitLines(s: string): Split
    decreases |s|
  {
    var end := IndexOf(s, '\n', 0);
    if end == |s| then Split([], s) else
      var tail := SplitLines(s[end + 1..]);
      Split([s[..end]] + tail.lines, tail.rest)
  }

  function AfterLine(s: string): string
    requires IndexOf(s, '\n', 0) < |s|
  {
    s[IndexOf(s, '\n', 0) + 1..]
  }

  lemma {:induction false} SplitNone(s: string)
    requires IndexOf(s, '\n', 0) == |s|
    ensures SplitLines(s) == Split([], s)
  {
  }

  lemma {:induction false} FirstLineStable(s: string, t: string)
    requires IndexOf(s, '\n', 0) < |s|
    ensures IndexOf(s + t, '\n', 0) == IndexOf(s, '\n', 0) && AfterLine(s + t) == AfterLine(s) + t
    ensures (s + t)[..IndexOf(s, '\n', 0)] == s[..IndexOf(s, '\n', 0)]
  {
    FirstIndex(s + t, '\n', IndexOf(s, '\n', 0));
  }

  /** Framing may be interrupted anywhere: the rest and the later input give the later lines. */
  lemma {:induction false} SplitAppend(s: string, t: string)
    ensures SplitLines(s + t).lines == SplitLines(s).lines + SplitLines(SplitLines(s).rest + t).lines
    ensures SplitLines(s + t).rest == SplitLines(SplitLines(s).rest + t).rest
    decreases |s|
  {
    if IndexOf(s, '\n', 0) == |s| {
      SplitNone(s);
      var none: seq<string> := [];
      assert none + SplitLines(s + t).lines == SplitLines(s + t).lines;
    } else {
      FirstLineStable(s, t);
      SplitAppend(AfterLine(s), t);
      ConsAppend(s[..IndexOf(s, '\n', 0)], SplitLines(AfterLine(s)).lines, SplitLines(SplitLines(s).rest + t).lines);
    }
  }

  lemma {:induction false} RestHasNoLine(s: string)
    ensures var rest := SplitLines(s).rest;
      IndexOf(rest, '\n', 0) == |rest| && |rest| <= |s| && rest == s[|s| - |rest|..]
    decreases |s|
  {
    if IndexOf(s, '\n', 0) == |s| {
      SplitNone(s);
    } else {
      RestHasNoLine(AfterLine(s));
    }
  }

  // ---------------------------------------------------------------------
  // Messages and requests.

  datatype RpcId = Number(n: int) | Text(s: string)

  /** One line as the transport reads it. A reply id that is no whole number settles nothing. */
  datatype Frame =
    | Reply(replyTo: Option<nat>, failed: bool, payload: string)
    | Message(name: string, params: string, id: Option<RpcId>)
    | Ignored

  type Parser = string -> Frame

  datatype Outcome = Resolved(payload: string) | Refused(reason: string)

  datatype Settlement = Settlement(id: nat, outcome: Outcome)

  datatype State = State(
    sequence: nat,
    pending: map<nat, string>,
    settled: seq<Settlement>,
    delivered: seq<Frame>,
    rejected: seq<RpcId>)

  /** A request leaves the pending table when it is settled. */
  function Settle(st: State, id: nat, outcome: Outcome): State {
    if id in st.pending then st.(pending := st.pending - {id}, settled := st.settled + [Settlement(id, outcome)])
      else st
  }

  function HandleFrame(st: State, frame: Frame, listening: bool): State {
    match frame
    case Reply(None, _, _) => st
    case Reply(Some(id), failed, payload) => Settle(st, id, if failed then Refused(payload) else Resolved(payload))
    case Message(_, _, id) =>
      if listening then st.(delivered := st.delivered + [frame])
      else if id.Some? then st.(rejected := st.rejected + [id.value])
      else st
    case Ignored => st
  }

  function HandleLines(parse: Parser, st: State, lines: seq<string>, listening: bool): State {
    if lines == [] then st
    else HandleFrame(HandleLines(parse, st, lines[..|lines| - 1], listening), parse(lines[|lines| - 1]), listening)
  }

  lemma {:induction false} HandleAppend(parse: Parser, st: State, a: seq<string>, b: seq<string>, listening: bool)
    ensures HandleLines(parse, st, a + b, listening)
      == HandleLines(parse, HandleLines(parse, st, a, listening), b, listening)
  {
    if b == [] {
      assert a + b == a;
    } else {
      assert (a + b)[..|a + b| - 1] == a + b[..|b| - 1];
      HandleAppend(parse, st, a, b[..|b| - 1], listening);
    }
  }

  lemma {:induction false} HandleFirst(parse: Parser, st: State, line: string, rest: seq<string>, listening: bool)
    ensures HandleLines(parse, st, [line] + rest, listening)
      == HandleLines(parse, HandleFrame(st, parse(line), listening), rest, listening)
  {
    HandleAppend(parse, st, [line], rest, listening);
    assert [line][..0] == [];
  }

  // ---------------------------------------------------------------------
  // The size guard.

  const LIMIT: nat := 4 * 1024 * 1024

  /** The UTF-8 length. */
  function Bytes(s: string): nat {
    if s == "" then 0 else Bytes(s[..|s| - 1]) + Width(s[|s| - 1])
  }

  function Width(c: char): (w: nat)
    ensures 1 <= w <= 4 && (w == 1 <==> c as int <= 0x7F) && (w <= 2 <==> c as int <= 0x7FF)
    ensures w <= 3 <==> c as int <= 0xFFFF
  {
    if c < '\U{0080}' then 1 else if c < '\U{0800}' then 2 else if c < '\U{10000}' then 3 else 4
  }

  predicate Overflows(buffer: string) {
    Bytes(buffer) > LIMIT && '\n' !in buffer
  }

  lemma {:induction false} BytesAppend(a: string, b: string)
    ensures Bytes(a + b) == Bytes(a) + Bytes(b)
  {
    if b == "" {
      assert a + b == a;
    } else {
      assert (a + b)[..|a + b| - 1] == a + b[..|b| - 1];
      BytesAppend(a, b[..|b| - 1]);
    }
  }

  // ---------------------------------------------------------------------
  // The transport object.

  ghost predicate Drains(parse: Parser, now: State, buffer: string, listening: bool, goal: State, rest: string) {
    HandleLines(parse, now, SplitLines(buffer).lines, listening) == goal && SplitLines(buffer).rest == rest
  }

  lemma {:induction false} DrainOne(parse: Parser, now: State, buffer: string, listening: bool, goal: State,
      rest: string)
    requires Drains(parse, now, buffer, listening, goal, rest) && IndexOf(buffer, '\n', 0) < |buffer|
    ensures Drains(parse, HandleFrame(now, parse(buffer[..IndexOf(buffer, '\n', 0)]), listening), AfterLine(buffer),
      listening, goal, rest)
  {
    HandleFirst(parse, now, buffer[..IndexOf(buffer, '\n', 0)], SplitLines(AfterLine(buffer)).lines, listening);
  }

  class CodexRpc {
    var sequence: nat
    var pending: map<nat, string>
    var settled: seq<Settlement>
    var delivered: seq<Frame>
    var rejected: seq<RpcId>
    var buffer: string
    var listening: bool
    var connected: bool
    var closing: bool
    var killed: bool

    constructor ()
      ensures View() == State(0, map[], [], [], []) && buffer == "" && !connected && !closing && !killed
    {
      sequence, pending, settled, delivered, rejected := 0, map[], [], [], [];
      buffer, listening, connected, closing, killed := "", false, false, false, false;
    }

    function View(): State
      reads this
    {
      State(sequence, pending, settled, delivered, rejected)
    }

    /** A new child process starts with an empty buffer. */
    method Open()
      modifies this`buffer, this`connected, this`closing, this`killed
      ensures buffer == "" && connected && !closing && !killed
    {
      connected, closing, killed, buffer := true, false, false, "";
    }

    /** A request is registered before it is written, and refused at once when it cannot be written. */
    method Send(name: string, written: bool) returns (id: nat)
      modifies this`sequence, this`pending, this`settled
      ensures id == old(sequence) + 1
      ensures View() == Sent(old(View()), name, connected && written)
      ensures connected && written ==> pending == old(pending)[id := name] && settled == old(settled)
      ensures !connected || !written ==>
        pending == old(pending) - {id} && settled == old(settled) + [Settlement(id, Refused("unavailable"))]
    {
      sequence := sequence + 1;
      id := sequence;
      pending := pending[id := name];
      if !connected || !written {
        pending := pending - {id};
        settled := settled + [Settlement(id, Refused("unavailable"))];
      }
    }

    method Timeout(id: nat)
      modifies this`pending, this`settled
      ensures View() == Settle(old(View()), id, Refused("timeout"))
      ensures id in old(pending) ==>
        pending == old(pending) - {id} && settled == old(settled) + [Settlement(id, Refused("timeout"))]
      ensures id !in old(pending) ==> pending == old(pending) && settled == old(settled)
    {
      if id in pending {
        pending := pending - {id};
        settled := settled + [Settlement(id, Refused("timeout"))];
      }
    }

    method Handle(frame: Frame)
      modifies this`pending, this`settled, this`delivered, this`rejected
      ensures View() == HandleFrame(old(View()), frame, listening)
      ensures frame.Reply? && frame.replyTo.Some? && frame.replyTo.value in old(pending) ==>
        && pending == old(pending) - {frame.replyTo.value}
        && settled == old(settled) + [Settlement(frame.replyTo.value,
             if frame.failed then Refused(frame.payload) else Resolved(frame.payload))]
      ensures !(frame.Reply? && frame.replyTo.Some? && frame.replyTo.value in old(pending)) ==>
        pending == old(pending) && settled == old(settled)
      ensures delivered == old(delivered) + if frame.Message? && listening then [frame] else []
      ensures rejected == old(rejected)
        + if frame.Message? && !listening && frame.id.Some? then [frame.id.value] else []
    {
      match frame {
        case Reply(replyTo, failed, payload) =>
          if replyTo.Some? && replyTo.value in pending {
            pending := pending - {replyTo.value};
            settled := settled + [Settlement(replyTo.value, if failed then Refused(payload) else Resolved(payload))];
          }
        case Message(_, _, id) =>
          if id.Some? && !listening {
            rejected := rejected + [id.value];
          }
          if listening {
            delivered := delivered + [frame];
          }
        case Ignored =>
      }
    }

    method TakeLine() returns (line: string)
      requires IndexOf(buffer, '\n', 0) < |buffer|
      modifies this`buffer
      ensures line == old(buffer[..IndexOf(buffer, '\n', 0)]) && buffer == AfterLine(old(buffer))
        && |buffer| < |old(buffer)|
    {
      var index := IndexOf(buffer, '\n', 0);
      line := buffer[..index];
      buffer := buffer[index + 1..];
    }

    method HandleLine(parse: Parser, ghost goal: State, ghost rest: string)
      requires IndexOf(buffer, '\n', 0) < |buffer| && Drains(parse, View(), buffer, listening, goal, rest)
      modifies this`pending, this`settled, this`delivered, this`rejected, this`buffer
      ensures Drains(parse, View(), buffer, listening, goal, rest) && |buffer| < |old(buffer)|
    {
      DrainOne(parse, View(), buffer, listening, goal, rest);
      var line := TakeLine();
      Handle(parse(line));
    }

    /**
     * Handles every line that the chunk completes. The size guard only ends the process:
     * it never changes what is read.
     */
    method Consume(parse: Parser, chunk: string)
      modifies this`pending, this`settled, this`delivered, this`rejected, this`buffer, this`killed
      ensures View() == HandleLines(parse, old(View()), SplitLines(old(buffer) + chunk).lines, listening)
      ensures buffer == SplitLines(old(buffer) + chunk).rest
      ensures killed <==>
        old(killed) || ('\n' !in old(buffer) + chunk && Bytes(old(buffer) + chunk) > 4 * 1024 * 1024)
    {
      ghost var goal := HandleLines(parse, View(), SplitLines(buffer + chunk).lines, listening);
      ghost var rest := SplitLines(buffer + chunk).rest;
      buffer := buffer + chunk;
      if Bytes(buffer) > LIMIT && '\n' !in buffer {
        killed := true;
        FirstIndex(buffer, '\n', |buffer|);
        SplitNone(buffer);
        return;
      }
      while IndexOf(buffer, '\n', 0) < |buffer|
        invariant Drains(parse, View(), buffer, listening, goal, rest) && killed == old(killed)
        decreases |buffer|
      {
        HandleLine(parse, goal, rest);
      }
      SplitNone(buffer);
    }

    /** The end of the process refuses everything that is still pending, oldest first. */
    method Close(reason: string)
      requires forall id | id in pending :: 1 <= id <= sequence
      modifies this`pending, this`settled, this`closing, this`connected
      ensures View() == if old(closing) then old(View()) else Closed(old(View()), reason)
      ensures closing
    {
      if closing {
        return;
      }
      closing, connected := true, false;
      for id: nat := 0 to sequence
        invariant settled == old(settled) + Refusals(pending, id, reason)
        invariant pending == old(pending) && closing
      {
        if id + 1 in pending {
          settled := settled + [Settlement(id + 1, Refused(reason))];
        }
      }
      pending := map[];
    }
  }

  // ---------------------------------------------------------------------
  // Chunks.

  /** The transport state and buffer after several chunks. */
  function ConsumeAll(parse: Parser, st: State, buffer: string, chunks: seq<string>, listening: bool): (State, string)
    decreases |chunks|
  {
    if chunks == [] then (st, buffer) else
      var split := SplitLines(buffer + chunks[0]);
      ConsumeAll(parse, HandleLines(parse, st, split.lines, listening), split.rest, chunks[1..], listening)
  }

  lemma {:induction false} ConsumeStep(parse: Parser, st: State, buffer: string, chunk: string, more: string,
      listening: bool)
    ensures var split, all := SplitLines(buffer + chunk), SplitLines(buffer + (chunk + more));
      && HandleLines(parse, HandleLines(parse, st, split.lines, listening), SplitLines(split.rest + more).lines,
        listening)
        == HandleLines(parse, st, all.lines, listening)
      && SplitLines(split.rest + more).rest == all.rest
  {
    assert buffer + (chunk + more) == (buffer + chunk) + more;
    SplitAppend(buffer + chunk, more);
    var split := SplitLines(buffer + chunk);
    HandleAppend(parse, st, split.lines, SplitLines(split.rest + more).lines, listening);
  }

  /** What is read from the pipe does not depend on how it is cut into chunks. */
  lemma {:induction false} ChunksDoNotMatter(parse: Parser, st: State, buffer: string, chunks: seq<string>,
      listening: bool)
    requires IndexOf(buffer, '\n', 0) == |buffer|
    ensures var all := SplitLines(buffer + Flatten(chunks));
      ConsumeAll(parse, st, buffer, chunks, listening) == (HandleLines(parse, st, all.lines, listening), all.rest)
    decreases |chunks|
  {
    if chunks == [] {
      assert buffer + Flatten(chunks) == buffer;
      SplitNone(buffer);
    } else {
      var split := SplitLines(buffer + chunks[0]);
      RestHasNoLine(buffer + chunks[0]);
      ChunksDoNotMatter(parse, HandleLines(parse, st, split.lines, listening), split.rest, chunks[1..], listening);
      ConsumeStep(parse, st, buffer, chunks[0], Flatten(chunks[1..]), listening);
    }
  }

  /** Whether the size guard ends the process while these chunks arrive. */
  predicate Kills(buffer: string, chunks: seq<string>)
    decreases |chunks|
  {
    chunks != [] && (Overflows(buffer + chunks[0]) || Kills(SplitLines(buffer + chunks[0]).rest, chunks[1..]))
  }

  predicate ShortLines(s: string) {
    var split := SplitLines(s);
    Bytes(split.rest) <= 4 * 1024 * 1024 && forall line | line in split.lines :: Bytes(line) <= 4 * 1024 * 1024
  }

  /** An unfinished line is the beginning of some line of the whole text. */
  lemma {:induction false} UnfinishedIsShort(s: string, t: string)
    requires '\n' !in s && ShortLines(s + t)
    ensures Bytes(s) <= LIMIT
  {
    var n := IndexOf(s + t, '\n', 0);
    if n == |s + t| {
      SplitNone(s + t);
      BytesAppend(s, t);
    } else {
      assert n >= |s|;
      var line := (s + t)[..n];
      assert line == s + t[..n - |s|];
      BytesAppend(s, t[..n - |s|]);
      assert SplitLines(s + t).lines[0] == line;
    }
  }

  lemma {:induction false} ShortLater(s: string, t: string)
    requires ShortLines(s + t)
    ensures ShortLines(SplitLines(s).rest + t)
  {
    SplitAppend(s, t);
    var later := SplitLines(SplitLines(s).rest + t).lines;
    forall line | line in later ensures Bytes(line) <= LIMIT {
      assert line in SplitLines(s).lines + later;
    }
  }

  /** The guard never ends a process whose lines all fit the limit, however they arrive. */
  lemma {:induction false} GuardSparesShortLines(buffer: string, chunks: seq<string>)
    requires ShortLines(buffer + Flatten(chunks))
    ensures !Kills(buffer, chunks)
    decreases |chunks|
  {
    if chunks != [] {
      var now, later := buffer + chunks[0], Flatten(chunks[1..]);
      assert buffer + Flatten(chunks) == now + later;
      if '\n' !in now {
        UnfinishedIsShort(now, later);
      }
      ShortLater(now, later);
      GuardSparesShortLines(SplitLines(now).rest, chunks[1..]);
    }
  }

  // ---------------------------------------------------------------------
  // Requests over whole runs.

  function Registered(st: State, name: string): State {
    st.(sequence := st.sequence + 1, pending := st.pending[st.sequence + 1 := name])
  }

  function Sent(st: State, name: string, written: bool): State {
    if written then Registered(st, name) else Settle(Registered(st, name), st.sequence + 1, Refused("unavailable"))
  }

  /** Refusals of the pending requests numbered up to `n`. */
  function Refusals(pending: map<nat, string>, n: nat, reason: string): seq<Settlement> {
    if n == 0 then []
    else if n in pending then Refusals(pending, n - 1, reason) + [Settlement(n, Refused(reason))]
    else Refusals(pending, n - 1, reason)
  }

  function Closed(st: State, reason: string): State {
    st.(pending := map[], settled := st.settled + Refusals(st.pending, st.sequence, reason))
  }

  datatype Act =
    | SendAct(name: string, written: bool)
    | TimeoutAct(id: nat)
    | LinesAct(lines: seq<string>, listening: bool)
    | CloseAct(reason: string)

  function Do(parse: Parser, st: State, act: Act): State {
    match act
    case SendAct(name, written) => Sent(st, name, written)
    case TimeoutAct(id) => Settle(st, id, Refused("timeout"))
    case LinesAct(lines, listening) => HandleLines(parse, st, lines, listening)
    case CloseAct(reason) => Closed(st, reason)
  }

  function DoAll(parse: Parser, st: State, acts: seq<Act>): State {
    if acts == [] then st else Do(parse, DoAll(parse, st, acts[..|acts| - 1]), acts[|acts| - 1])
  }

  predicate IsSettled(settled: seq<Settlement>, id: nat) {
    exists k | 0 <= k < |settled| :: settled[k].id == id
  }

  predicate SettledOnce(settled: seq<Settlement>) {
    forall j, k | 0 <= j < k < |settled| :: settled[j].id != settled[k].id
  }

  /** Every issued request is pending or settled, not both, and settled at most once. */
  ghost predicate Accounted(st: State) {
    && SettledOnce(st.settled)
    && (forall id | id in st.pending :: 1 <= id <= st.sequence && !IsSettled(st.settled, id))
    && (forall k | 0 <= k < |st.settled| :: 1 <= st.settled[k].id <= st.sequence)
    && (forall id: nat | 1 <= id <= st.sequence :: id in st.pending || IsSettled(st.settled, id))
  }

  lemma {:induction false} SettledSnoc(settled: seq<Settlement>, one: Settlement, id: nat)
    ensures IsSettled(settled + [one], id) <==> IsSettled(settled, id) || one.id == id
  {
    var more := settled + [one];
    if IsSettled(settled, id) {
      var k :| 0 <= k < |settled| && settled[k].id == id;
      assert more[k].id == id;
    } else if one.id == id {
      assert more[|settled|].id == id;
    }
  }

  lemma {:induction false} SettleKeeps(st: State, id: nat, outcome: Outcome)
    requires Accounted(st)
    ensures Accounted(Settle(st, id, outcome))
  {
    forall other: nat | true
      ensures IsSettled(st.settled + [Settlement(id, outcome)], other) <==> IsSettled(st.settled, other) || id == other
    {
      SettledSnoc(st.settled, Settlement(id, outcome), other);
    }
  }

  lemma {:induction false} SentKeeps(st: State, name: string, written: bool)
    requires Accounted(st)
    ensures Accounted(Sent(st, name, written))
  {
    SettleKeeps(Registered(st, name), st.sequence + 1, Refused("unavailable"));
  }

  lemma {:induction false} HandleLinesKeeps(parse: Parser, st: State, lines: seq<string>, listening: bool)
    requires Accounted(st)
    ensures Accounted(HandleLines(parse, st, lines, listening))
  {
    if lines != [] {
      HandleLinesKeeps(parse, st, lines[..|lines| - 1], listening);
      var before, frame := HandleLines(parse, st, lines[..|lines| - 1], listening), parse(lines[|lines| - 1]);
      if frame.Reply? && frame.replyTo.Some? {
        SettleKeeps(before, frame.replyTo.value,
          if frame.failed then Refused(frame.payload) else Resolved(frame.payload));
      }
    }
  }

  /** The state in which the oldest `n` requests have been refused. */
  function ClosedUpTo(st: State, n: nat, reason: string): State {
    if n == 0 then st else Settle(ClosedUpTo(st, n - 1, reason), n, Refused(reason))
  }

  lemma {:induction false} ClosedStepwise(st: State, n: nat, reason: string)
    requires n <= st.sequence
    ensures var closed := ClosedUpTo(st, n, reason);
      && closed.settled == st.settled + Refusals(st.pending, n, reason)
      && (forall id: nat :: id in closed.pending <==> id in st.pending && !(1 <= id <= n))
  {
    if n > 0 {
      ClosedStepwise(st, n - 1, reason);
    }
  }

  lemma {:induction false} ClosedUpToKeeps(st: State, n: nat, reason: string)
    requires Accounted(st) && n <= st.sequence
    ensures Accounted(ClosedUpTo(st, n, reason)) && ClosedUpTo(st, n, reason) == Closed(st, reason).(
      pending := ClosedUpTo(st, n, reason).pending, settled := ClosedUpTo(st, n, reason).settled)
  {
    if n > 0 {
      ClosedUpToKeeps(st, n - 1, reason);
      SettleKeeps(ClosedUpTo(st, n - 1, reason), n, Refused(reason));
    }
  }

  lemma {:induction false} ClosedKeeps(st: State, reason: string)
    requires Accounted(st)
    ensures Accounted(Closed(st, reason))
  {
    ClosedStepwise(st, st.sequence, reason);
    ClosedUpToKeeps(st, st.sequence, reason);
    assert ClosedUpTo(st, st.sequence, reason).pending == map[];
  }

  /** Over every run each request is settled at most once, and none is forgotten. */
  lemma {:induction false} RequestsAccounted(parse: Parser, acts: seq<Act>)
    ensures Accounted(DoAll(parse, State(0, map[], [], [], []), acts))
  {
    if acts != [] {
      var front, last := acts[..|acts| - 1], acts[|acts| - 1];
      RequestsAccounted(parse, front);
      var before := DoAll(parse, State(0, map[], [], [], []), front);
      match last {
        case SendAct(name, written) => SentKeeps(before, name, written);
        case TimeoutAct(id) => SettleKeeps(before, id, Refused("timeout"));
        case LinesAct(lines, listening) => HandleLinesKeeps(parse, before, lines, listening);
        case CloseAct(reason) => ClosedKeeps(before, reason);
      }
    }
  }

  /** After a close every request ever sent has been settled exactly once. */
  lemma {:induction false} CloseSettlesAll(parse: Parser, acts: seq<Act>, reason: string, id: nat)
    requires 1 <= id <= DoAll(parse, State(0, map[], [], [], []), acts).sequence
    ensures var settled := DoAll(parse, State(0, map[], [], [], []), acts + [CloseAct(reason)]).settled;
      SettledOnce(settled) && IsSettled(settled, id)
  {
    RequestsAccounted(parse, acts + [CloseAct(reason)]);
    assert (acts + [CloseAct(reason)])[..|acts|] == acts;
  }
}
