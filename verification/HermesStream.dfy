/**
 * The server-sent event stream of a Hermes run: framing, sequence numbers and
 * reconnects.
 */
module HermesStream {
  import opened Prelude
  import opened Texts

  // ---------------------------------------------------------------------
  // Framing.

  /** The length of the line end at `i`, or 0. */
  function LineEndAt(s: string, i: nat): (n: nat)
    ensures n > 0 ==> i + n <= |s|
  {
    if i < |s| && s[i] == '\n' then 1
    else if i + 1 < |s| && s[i] == '\r' && s[i + 1] == '\n' then 2
    else 0
  }

  /** The length of the frame separator at `i`: two line ends in a row, or 0. */
  function SeparatorAt(s: string, i: nat): (n: nat)
    ensures n > 0 ==> i + n <= |s|
  {
    var first := LineEndAt(s, i);
    if first == 0 || LineEndAt(s, i + first) == 0 then 0 else first + LineEndAt(s, i + first)
  }

  /** Frames are separated by two line ends in a row, each with or without a return character. */
  lemma {:induction false} SeparatorExact(s: string, i: nat)
    ensures SeparatorAt(s, i) == 2 <==> i + 1 < |s| && s[i] == '\n' && s[i + 1] == '\n'
    ensures SeparatorAt(s, i) == 3 <==>
      && i + 2 < |s| && s[i + 2] == '\n'
      && ((s[i] == '\n' && s[i + 1] == '\r') || (s[i] == '\r' && s[i + 1] == '\n'))
    ensures SeparatorAt(s, i) == 4 <==>
      && i + 3 < |s| && s[i] == '\r' && s[i + 1] == '\n' && s[i + 2] == '\r' && s[i + 3] == '\n'
    ensures SeparatorAt(s, i) in {0, 2, 3, 4}
  {
  }

  /** The leftmost separator from `from` on, or the length. */
  function Search(s: string, from: nat): (n: nat)
    requires from <= |s|
    ensures from <= n <= |s|
    ensures n < |s| ==> SeparatorAt(s, n) > 0
    ensures forall k | from <= k < n :: SeparatorAt(s, k) == 0
    decreases |s| - from
  {
    if from == |s| || SeparatorAt(s, from) > 0 then from else Search(s, from + 1)
  }

  datatype Split = Split(frames: seq<string>, rest: string)

  /** All terminated frames of a text, and the unterminated rest. */
  function Frames(s: string): Split
    decreases |s|
  {
    var boundary := Search(s, 0);
    if boundary == |s| then Split([], s) else
      var tail := Frames(s[boundary + SeparatorAt(s, boundary)..]);
      Split([s[..boundary]] + tail.frames, tail.rest)
  }

  lemma {:induction false} SearchUnique(s: string, n: nat)
    requires n < |s| && SeparatorAt(s, n) > 0
    requires forall k: nat | k < n :: SeparatorAt(s, k) == 0
    ensures Search(s, 0) == n
  {
  }

  /** More input never completes a separator to the left of a complete one. */
  lemma {:induction false} NoEarlierSeparator(s: string, t: string, i: nat, k: nat)
    requires k < i && SeparatorAt(s, i) > 0 && SeparatorAt(s, k) == 0
    ensures SeparatorAt(s + t, k) == 0
  {
  }

  lemma {:induction false} SearchStable(s: string, t: string)
    requires Search(s, 0) < |s|
    ensures Search(s + t, 0) == Search(s, 0)
    ensures SeparatorAt(s + t, Search(s, 0)) == SeparatorAt(s, Search(s, 0))
  {
    var boundary := Search(s, 0);
    forall k: nat | k < boundary ensures SeparatorAt(s + t, k) == 0 {
      NoEarlierSeparator(s, t, boundary, k);
    }
    SearchUnique(s + t, boundary);
  }

  /** The text after the first separator. */
  function AfterFirst(s: string): string
    requires Search(s, 0) < |s|
  {
    s[Search(s, 0) + SeparatorAt(s, Search(s, 0))..]
  }

  lemma {:induction false} FramesNone(s: string)
    requires Search(s, 0) == |s|
    ensures Frames(s) == Split([], s)
  {
  }

  lemma {:induction false} FirstStable(s: string, t: string)
    requires Search(s, 0) < |s|
    ensures Search(s + t, 0) < |s + t| && AfterFirst(s + t) == AfterFirst(s) + t
    ensures (s + t)[..Search(s + t, 0)] == s[..Search(s, 0)]
  {
    SearchStable(s, t);
  }

  /** Framing may be interrupted anywhere: the rest and the later input give the later frames. */
  lemma {:induction false} FramesAppend(s: string, t: string)
    ensures Frames(s + t).frames == Frames(s).frames + Frames(Frames(s).rest + t).frames
    ensures Frames(s + t).rest == Frames(Frames(s).rest + t).rest
    decreases |s|
  {
    if Search(s, 0) == |s| {
      FramesNone(s);
      var none: seq<string> := [];
      assert none + Frames(s + t).frames == Frames(s + t).frames;
    } else {
      FirstStable(s, t);
      FramesAppend(AfterFirst(s), t);
      ConsAppend(s[..Search(s, 0)], Frames(AfterFirst(s)).frames, Frames(Frames(s).rest + t).frames);
    }
  }

  // ---------------------------------------------------------------------
  // One frame.

  datatype Parsed = Parsed(event: string, sequence: Option<int>, data: string)

  const TRUNCATED := "replay.truncated"
  const UNPARSED := "transport.unparsed"

  predicate IsTerminal(parsed: Parsed) {
    parsed.event in {"run.completed", "run.failed", "run.cancelled", "run.interrupted"}
  }

  /** The values of the data lines. */
  function DataLines(lines: seq<string>): seq<string> {
    if lines == [] then []
    else if "data:" <= lines[0] then [TrimStart(lines[0][5..])] + DataLines(lines[1..])
    else DataLines(lines[1..])
  }

  function Joined(lines: seq<string>): string {
    if lines == [] then "" else if |lines| == 1 then lines[0] else lines[0] + "\n" + Joined(lines[1..])
  }

  function Data(frame: string): string {
    Trim(Joined(DataLines(Lines(frame))))
  }

  /** A frame without data is skipped; data that is no JSON object is reported as such. */
  function ParseSseFrame(json: string -> Option<Parsed>, frame: string): Option<Parsed> {
    var data := Data(frame);
    if data == "" then None
    else match json(data)
      case Some(parsed) => Some(parsed)
      case None => Some(Parsed(UNPARSED, None, data))
  }

  lemma {:induction false} NoDataLines(lines: seq<string>)
    requires forall k | 0 <= k < |lines| :: !("data:" <= lines[k])
    ensures DataLines(lines) == []
  {
    if lines != [] {
      NoDataLines(lines[1..]);
    }
  }

  /** A frame without a data line, such as a comment that keeps the connection open, is no event. */
  lemma {:induction false} CommentSkipped(json: string -> Option<Parsed>, frame: string)
    requires forall k | 0 <= k < |Lines(frame)| :: !("data:" <= Lines(frame)[k])
    ensures ParseSseFrame(json, frame) == None
  {
    NoDataLines(Lines(frame));
  }

  /** The values of data lines are joined so that they can be told apart. */
  lemma {:induction false} JoinedApart(lines: seq<string>)
    requires lines != [] && forall k | 0 <= k < |lines| :: IsOneLine(lines[k])
    ensures Lines(Joined(lines)) == lines
  {
    if |lines| == 1 {
      FirstIndex(lines[0], '\n', |lines[0]|);
    } else {
      JoinedApart(lines[1..]);
      FirstLine(lines[0], Joined(lines[1..]));
      assert lines == [lines[0]] + lines[1..];
    }
  }

  lemma {:induction false} FirstLine(line: string, rest: string)
    requires IsOneLine(line)
    ensures Lines(line + "\n" + rest) == [line] + Lines(rest)
  {
    var text := line + "\n" + rest;
    FirstIndex(text, '\n', |line|);
    assert text[..|line|] == line && text[|line| + 1..] == rest;
  }

  predicate IsOneLine(line: string) {
    '\n' !in line && (line != "" ==> line[|line| - 1] != '\r')
  }

  // ---------------------------------------------------------------------
  // A connection.

  /** What one frame holds, as `ParseSseFrame` reads it. */
  type Parser = string -> Option<Parsed>

  datatype Ending = Closed | Broken | Aborted

  datatype Connection = Connection(chunks: seq<string>, ending: Ending)

  function Text(chunks: seq<string>): string {
    if chunks == [] then "" else Text(chunks[..|chunks| - 1]) + chunks[|chunks| - 1]
  }

  /** What the generator has yielded, the last sequence number it saw, and whether it has returned. */
  datatype Progress = Progress(last: int, yielded: seq<Parsed>, done: bool)

  const FRESH := Progress(-1, [], false)

  function OfferNumbered(p: Progress, parsed: Parsed): Progress {
    if parsed.sequence.Some? && parsed.sequence.value <= p.last then p
    else Progress(
      if parsed.sequence.Some? then parsed.sequence.value else p.last,
      p.yielded + [parsed],
      IsTerminal(parsed))
  }

  function Offer(p: Progress, parsed: Option<Parsed>): Progress {
    if p.done || parsed == None then p
    else if parsed.value.event == TRUNCATED then p.(yielded := p.yielded + [parsed.value])
    else OfferNumbered(p, parsed.value)
  }

  /** The unterminated tail of a closed body is parsed too, without the exception for notices. */
  function OfferTail(p: Progress, parsed: Option<Parsed>): Progress {
    if p.done || parsed == None then p else OfferNumbered(p, parsed.value)
  }

  function OfferFrames(parse: Parser, p: Progress, frames: seq<string>): Progress {
    if frames == [] then p
    else Offer(OfferFrames(parse, p, frames[..|frames| - 1]), parse(frames[|frames| - 1]))
  }

  /** The effect of one connection depends on its text only. */
  function Read(parse: Parser, p: Progress, text: string, ending: Ending): Progress {
    var split := Frames(text);
    OfferTail(OfferFrames(parse, p, split.frames), if ending == Closed then parse(split.rest) else None)
  }

  lemma {:induction false} OfferFramesAppend(parse: Parser, p: Progress, a: seq<string>, b: seq<string>)
    ensures OfferFrames(parse, p, a + b) == OfferFrames(parse, OfferFrames(parse, p, a), b)
  {
    if b == [] {
      assert a + b == a;
    } else {
      assert (a + b)[..|a + b| - 1] == a + b[..|b| - 1];
      OfferFramesAppend(parse, p, a, b[..|b| - 1]);
    }
  }

  lemma {:induction false} DoneStays(parse: Parser, p: Progress, frames: seq<string>)
    requires p.done
    ensures OfferFrames(parse, p, frames) == p
  {
    if frames != [] {
      DoneStays(parse, p, frames[..|frames| - 1]);
    }
  }

  lemma {:induction false} OfferFirst(parse: Parser, p: Progress, frame: string, rest: seq<string>)
    ensures OfferFrames(parse, p, [frame] + rest) == OfferFrames(parse, Offer(p, parse(frame)), rest)
  {
    OfferFramesAppend(parse, p, [frame], rest);
    assert [frame][..0] == [];
  }

  /** What is still in the buffer takes the stream to `goal` and leaves `rest`. */
  ghost predicate Drains(parse: Parser, now: Progress, buffer: string, goal: Progress, rest: string) {
    OfferFrames(parse, now, Frames(buffer).frames) == goal && Frames(buffer).rest == rest
  }

  lemma {:induction false} DrainOne(parse: Parser, now: Progress, buffer: string, goal: Progress, rest: string)
    requires Drains(parse, now, buffer, goal, rest) && Search(buffer, 0) < |buffer|
    ensures Drains(parse, Offer(now, parse(buffer[..Search(buffer, 0)])), AfterFirst(buffer), goal, rest)
  {
    OfferFirst(parse, now, buffer[..Search(buffer, 0)], Frames(AfterFirst(buffer)).frames);
  }

  lemma {:induction false} DrainedAll(parse: Parser, now: Progress, buffer: string, goal: Progress, rest: string)
    requires Drains(parse, now, buffer, goal, rest) && (now.done || Search(buffer, 0) == |buffer|)
    ensures now == goal && (!now.done ==> buffer == rest)
  {
    if now.done {
      DoneStays(parse, now, Frames(buffer).frames);
    } else {
      FramesNone(buffer);
    }
  }

  /** The text has been read up to an unfinished frame, which is in the buffer. */
  ghost predicate HasRead(parse: Parser, start: Progress, text: string, now: Progress, buffer: string) {
    now == OfferFrames(parse, start, Frames(text).frames) && (!now.done ==> buffer == Frames(text).rest)
  }

  lemma {:induction false} NothingRead(parse: Parser, start: Progress)
    ensures HasRead(parse, start, "", start, "")
  {
    FramesNone("");
  }

  // ---------------------------------------------------------------------
  // The generator.

  datatype Outcome = Finished | Cancelled | Threw(failure: bool)

  const RETRIES := 3

  /** A server answers a connection attempt, given the last sequence number seen if any. */
  type Server = (nat, Option<int>) -> Connection

  function LastEventId(last: int): Option<int> {
    if last >= 0 then Some(last) else None
  }

  function AfterConnection(parse: Parser, server: Server, p: Progress, attempts: nat): Progress {
    var connection := server(attempts, LastEventId(p.last));
    Read(parse, p, Text(connection.chunks), connection.ending)
  }

  function RunFrom(parse: Parser, server: Server, p: Progress, attempts: nat): (Progress, Outcome)
    requires attempts <= RETRIES
    decreases RETRIES - attempts
  {
    var ending := server(attempts, LastEventId(p.last)).ending;
    var after := AfterConnection(parse, server, p, attempts);
    if after.done then (after, Finished)
    else if ending == Aborted then (after, Cancelled)
    else if attempts == RETRIES then (after, Threw(ending == Broken))
    else RunFrom(parse, server, after, attempts + 1)
  }

  /** What the connections of a run are asked to continue after. */
  function AskedFrom(parse: Parser, server: Server, p: Progress, attempts: nat): seq<Option<int>>
    requires attempts <= RETRIES
    decreases RETRIES - attempts
  {
    var after := AfterConnection(parse, server, p, attempts);
    if after.done || server(attempts, LastEventId(p.last)).ending == Aborted || attempts == RETRIES
    then [LastEventId(p.last)]
    else [LastEventId(p.last)] + AskedFrom(parse, server, after, attempts + 1)
  }

  predicate GoesOn(parse: Parser, server: Server, p: Progress, attempts: nat) {
    && !AfterConnection(parse, server, p, attempts).done
    && server(attempts, LastEventId(p.last)).ending != Aborted && attempts < RETRIES
  }

  lemma {:induction false} RunGoesOn(parse: Parser, server: Server, p: Progress, attempts: nat)
    requires GoesOn(parse, server, p, attempts)
    ensures var after := AfterConnection(parse, server, p, attempts);
      && RunFrom(parse, server, p, attempts) == RunFrom(parse, server, after, attempts + 1)
      && AskedFrom(parse, server, p, attempts)
         == [LastEventId(p.last)] + AskedFrom(parse, server, after, attempts + 1)
  {
  }

  lemma {:induction false} RunStops(parse: Parser, server: Server, p: Progress, attempts: nat)
    requires attempts <= RETRIES && !GoesOn(parse, server, p, attempts)
    ensures var after := AfterConnection(parse, server, p, attempts);
      var ending := server(attempts, LastEventId(p.last)).ending;
      && RunFrom(parse, server, p, attempts)
         == (after, if after.done then Finished else if ending == Aborted then Cancelled else Threw(ending == Broken))
      && AskedFrom(parse, server, p, attempts) == [LastEventId(p.last)]
  {
  }

  /** The four events that end a run. */
  predicate EndsRun(parsed: Parsed) {
    || parsed.event == "run.completed" || parsed.event == "run.failed"
    || parsed.event == "run.cancelled" || parsed.event == "run.interrupted"
  }

  predicate EndsWith(yielded: seq<Parsed>) {
    yielded != [] && EndsRun(yielded[|yielded| - 1])
  }

  /** Nothing follows an event that ends a run. */
  predicate NothingAfterEnd(yielded: seq<Parsed>) {
    forall i | 0 <= i < |yielded| - 1 :: !EndsRun(yielded[i])
  }

  /** The number is that of an event, or -1 when no event had one. */
  ghost predicate LastSeen(yielded: seq<Parsed>, last: int) {
    && (last == -1 || (last >= 0 && exists i | 0 <= i < |yielded| :: yielded[i].sequence == Some(last)))
    && (forall i | 0 <= i < |yielded| && yielded[i].sequence.Some? && yielded[i].event != "replay.truncated" ::
          yielded[i].sequence.value <= last)
  }

  /**
   * A run is finished exactly when its last event says so, which no event before does. Else
   * it is cancelled exactly when its last connection was aborted, and fails after four.
   */
  ghost predicate EndsWhenTold(server: Server, yielded: seq<Parsed>, outcome: Outcome, asked: seq<Option<int>>) {
    && 1 <= |asked| <= 4
    && NothingAfterEnd(yielded)
    && (outcome == Finished <==> EndsWith(yielded))
    && (forall k | 0 <= k < |asked| - 1 :: server(k, asked[k]).ending != Aborted)
    && var ending := server(|asked| - 1, asked[|asked| - 1]).ending;
       && (outcome == Cancelled <==> !EndsWith(yielded) && ending == Aborted)
       && (outcome.Threw? ==> |asked| == 4 && (outcome.failure <==> ending == Broken))
  }

  /** What has been yielded tells whether the run has ended, and after which number. */
  ghost predicate Told(p: Progress) {
    NothingAfterEnd(p.yielded) && (p.done <==> EndsWith(p.yielded)) && LastSeen(p.yielded, p.last)
  }

  lemma {:induction false} LastSeenSnoc(yielded: seq<Parsed>, last: int, parsed: Parsed, after: int)
    requires LastSeen(yielded, last)
    requires parsed.sequence.Some? && parsed.event != TRUNCATED ==> parsed.sequence.value <= after
    requires after == last || (last < after && parsed.sequence == Some(after))
    ensures LastSeen(yielded + [parsed], after)
  {
    var more := yielded + [parsed];
    assert more[|yielded|] == parsed;
    if after == last && last != -1 {
      var i :| 0 <= i < |yielded| && yielded[i].sequence == Some(last);
      assert more[i].sequence == Some(last);
    }
  }

  lemma {:induction false} OfferNumberedTold(p: Progress, parsed: Parsed)
    requires Told(p) && !p.done
    ensures Told(OfferNumbered(p, parsed))
  {
    var q := OfferNumbered(p, parsed);
    if q != p {
      LastSeenSnoc(p.yielded, p.last, parsed, q.last);
    }
  }

  lemma {:induction false} OfferTold(p: Progress, parsed: Option<Parsed>)
    requires Told(p)
    ensures Told(Offer(p, parsed))
  {
    if !p.done && parsed.Some? {
      if parsed.value.event == TRUNCATED {
        LastSeenSnoc(p.yielded, p.last, parsed.value, p.last);
      } else {
        OfferNumberedTold(p, parsed.value);
      }
    }
  }

  lemma {:induction false} OfferFramesTold(parse: Parser, p: Progress, frames: seq<string>)
    requires Told(p)
    ensures Told(OfferFrames(parse, p, frames))
  {
    if frames != [] {
      OfferFramesTold(parse, p, frames[..|frames| - 1]);
      OfferTold(OfferFrames(parse, p, frames[..|frames| - 1]), parse(frames[|frames| - 1]));
    }
  }

  lemma {:induction false} ConnectionTold(parse: Parser, server: Server, p: Progress, attempts: nat)
    requires Told(p)
    ensures Told(AfterConnection(parse, server, p, attempts))
  {
    var text := Text(server(attempts, LastEventId(p.last)).chunks);
    OfferFramesTold(parse, p, Frames(text).frames);
    var after, tail := OfferFrames(parse, p, Frames(text).frames), parse(Frames(text).rest);
    if !after.done && tail.Some? {
      OfferNumberedTold(after, tail.value);
    }
  }

  ghost predicate RunTold(server: Server, result: (Progress, Outcome), asked: seq<Option<int>>) {
    EndsWhenTold(server, result.0.yielded, result.1, asked) && LastSeen(result.0.yielded, result.0.last)
  }

  /** `before` is what the earlier connections were asked. */
  lemma {:induction false} RunEndsWhenTold(parse: Parser, server: Server, p: Progress, attempts: nat,
      before: seq<Option<int>>)
    requires attempts <= RETRIES && Told(p) && !p.done && |before| == attempts
    requires forall k | 0 <= k < attempts :: server(k, before[k]).ending != Aborted
    ensures RunTold(server, RunFrom(parse, server, p, attempts), before + AskedFrom(parse, server, p, attempts))
    decreases RETRIES - attempts
  {
    var after, now := AfterConnection(parse, server, p, attempts), before + [LastEventId(p.last)];
    ConnectionTold(parse, server, p, attempts);
    if GoesOn(parse, server, p, attempts) {
      RunEndsWhenTold(parse, server, after, attempts + 1, now);
      RunGoesOn(parse, server, p, attempts);
      Regroup(before, [LastEventId(p.last)], AskedFrom(parse, server, after, attempts + 1));
    } else {
      RunStops(parse, server, p, attempts);
      LastConnection(server, after, attempts, before, LastEventId(p.last));
    }
  }

  /** The connection after which a run ends. */
  lemma {:induction false} LastConnection(server: Server, after: Progress, attempts: nat, before: seq<Option<int>>,
      last: Option<int>)
    requires attempts <= RETRIES && Told(after) && |before| == attempts
    requires forall k | 0 <= k < attempts :: server(k, before[k]).ending != Aborted
    requires after.done || server(attempts, last).ending == Aborted || attempts == RETRIES
    ensures var ending := server(attempts, last).ending;
      RunTold(server,
        (after, if after.done then Finished else if ending == Aborted then Cancelled else Threw(ending == Broken)),
        before + [last])
  {
    var asked := before + [last];
    assert forall k | 0 <= k < attempts :: asked[k] == before[k];
  }

  lemma {:induction false} FreshRun(parse: Parser, server: Server)
    ensures RunTold(server, RunFrom(parse, server, FRESH, 0), AskedFrom(parse, server, FRESH, 0))
  {
    RunEndsWhenTold(parse, server, FRESH, 0, []);
    assert [] + AskedFrom(parse, server, FRESH, 0) == AskedFrom(parse, server, FRESH, 0);
  }

  /** What holds before a run and is kept by every connection holds after the run. */
  lemma {:induction false} RunKeeps(parse: Parser, server: Server, p: Progress, attempts: nat, inv: Progress -> bool)
    requires attempts <= RETRIES && inv(p) && !p.done
    requires forall q: Progress, a: nat | inv(q) && !q.done :: inv(AfterConnection(parse, server, q, a))
    ensures inv(RunFrom(parse, server, p, attempts).0)
    decreases RETRIES - attempts
  {
    var after := AfterConnection(parse, server, p, attempts);
    if !after.done && server(attempts, LastEventId(p.last)).ending != Aborted && attempts < RETRIES {
      RunKeeps(parse, server, after, attempts + 1, inv);
    }
  }

  class RunEvents {
    var lastSequence: int
    var attempts: nat
    var yielded: seq<Parsed>
    var done: bool

    constructor ()
      ensures View() == FRESH && attempts == 0
    {
      lastSequence, attempts, yielded, done := -1, 0, [], false;
    }

    function View(): Progress
      reads this
    {
      Progress(lastSequence, yielded, done)
    }

    method Accept(parsed: Parsed)
      modifies this`lastSequence, this`yielded, this`done
      ensures View() == if old(done) then old(View()) else OfferNumbered(old(View()), parsed)
    {
      if !done && (parsed.sequence.None? || parsed.sequence.value > lastSequence) {
        if parsed.sequence.Some? {
          lastSequence := parsed.sequence.value;
        }
        yielded := yielded + [parsed];
        done := IsTerminal(parsed);
      }
    }

    method AcceptFrame(parse: Parser, frame: string)
      requires !done
      modifies this`lastSequence, this`yielded, this`done
      ensures View() == Offer(old(View()), parse(frame))
    {
      var parsed := parse(frame);
      if parsed.Some? {
        if parsed.value.event == TRUNCATED {
          yielded := yielded + [parsed.value];
        } else {
          Accept(parsed.value);
        }
      }
    }

    /** Takes the first complete frame off the buffer. */
    method DrainFrame(parse: Parser, buffer: string, boundary: nat, ghost goal: Progress, ghost last: string)
      returns (rest: string)
      requires !done && boundary == Search(buffer, 0) && boundary < |buffer|
      requires Drains(parse, View(), buffer, goal, last)
      modifies this`lastSequence, this`yielded, this`done
      ensures Drains(parse, View(), rest, goal, last) && |rest| < |buffer|
    {
      var frame := buffer[..boundary];
      rest := buffer[boundary + SeparatorAt(buffer, boundary)..];
      DrainOne(parse, View(), buffer, goal, last);
      ghost var next := Offer(View(), parse(frame));
      assert Drains(parse, next, rest, goal, last);
      AcceptFrame(parse, frame);
      assert View() == next;
    }

    /** Takes every complete frame off the buffer, unless a terminal event ends the stream first. */
    method Drain(parse: Parser, buffered: string) returns (buffer: string)
      requires !done
      modifies this`lastSequence, this`yielded, this`done
      ensures View() == OfferFrames(parse, old(View()), Frames(buffered).frames)
      ensures !done ==> buffer == Frames(buffered).rest
    {
      ghost var goal, last := OfferFrames(parse, View(), Frames(buffered).frames), Frames(buffered).rest;
      buffer := buffered;
      var boundary := Search(buffer, 0);
      while boundary < |buffer| && !done
        invariant boundary == Search(buffer, 0)
        invariant Drains(parse, View(), buffer, goal, last)
        decreases |buffer|
      {
        buffer := DrainFrame(parse, buffer, boundary, goal, last);
        boundary := Search(buffer, 0);
      }
      DrainedAll(parse, View(), buffer, goal, last);
    }

    method ReadChunk(parse: Parser, buffered: string, chunk: string, ghost start: Progress, ghost front: string)
      returns (buffer: string)
      requires !done && HasRead(parse, start, front, View(), buffered)
      modifies this`lastSequence, this`yielded, this`done
      ensures HasRead(parse, start, front + chunk, View(), buffer)
    {
      FramesAppend(front, chunk);
      OfferFramesAppend(parse, start, Frames(front).frames, Frames(buffered + chunk).frames);
      buffer := Drain(parse, buffered + chunk);
    }

    method ReadTail(parse: Parser, buffer: string, ending: Ending, ghost start: Progress, ghost text: string)
      requires !done && HasRead(parse, start, text, View(), buffer)
      modifies this`lastSequence, this`yielded, this`done
      ensures View() == Read(parse, start, text, ending)
    {
      if ending == Closed {
        var tail := parse(buffer);
        if tail.Some? {
          Accept(tail.value);
        }
      }
    }

    method ReadNext(parse: Parser, chunks: seq<string>, k: nat, buffered: string, ghost start: Progress)
      returns (buffer: string)
      requires !done && k < |chunks| && HasRead(parse, start, Text(chunks[..k]), View(), buffered)
      modifies this`lastSequence, this`yielded, this`done
      ensures HasRead(parse, start, Text(chunks[..k + 1]), View(), buffer)
    {
      TextNext(chunks, k);
      buffer := ReadChunk(parse, buffered, chunks[k], start, Text(chunks[..k]));
    }

    /** However the body is cut into chunks, only its text matters. */
    method ReadBody(parse: Parser, connection: Connection)
      requires !done
      modifies this`lastSequence, this`yielded, this`done
      ensures View() == Read(parse, old(View()), Text(connection.chunks), connection.ending)
    {
      var buffer := "";
      var k := 0;
      ghost var start := View();
      NothingRead(parse, start);
      while k < |connection.chunks| && !done
        invariant k <= |connection.chunks|
        invariant HasRead(parse, start, Text(connection.chunks[..k]), View(), buffer)
      {
        buffer := ReadNext(parse, connection.chunks, k, buffer, start);
        k := k + 1;
      }
      if done {
        RestIgnored(parse, start, connection.chunks, k, View(), buffer, connection.ending);
      } else {
        assert connection.chunks[..k] == connection.chunks;
        ReadTail(parse, buffer, connection.ending, start, Text(connection.chunks));
      }
    }

    method Connect(parse: Parser, server: Server) returns (ending: Ending)
      requires !done
      modifies this`lastSequence, this`yielded, this`done
      ensures View() == AfterConnection(parse, server, old(View()), attempts)
      ensures ending == server(attempts, if old(lastSequence) < 0 then None else Some(old(lastSequence))).ending
    {
      var connection := server(attempts, LastEventId(lastSequence));
      ReadBody(parse, connection);
      ending := connection.ending;
    }

    /**
     * Reads events until a terminal one, reconnecting after the last sequence number seen;
     * `asked` is what each connection was asked to continue after.
     */
    method Run(parse: Parser, server: Server) returns (outcome: Outcome, ghost asked: seq<Option<int>>)
      requires View() == FRESH && attempts == 0
      modifies this
      ensures (View(), outcome) == RunFrom(parse, server, FRESH, 0)
      ensures asked == AskedFrom(parse, server, FRESH, 0)
      ensures EndsWhenTold(server, yielded, outcome, asked)
      ensures LastSeen(yielded, lastSequence)
      ensures forall log: seq<Parsed> :: FinishesReplay(parse, server, log, yielded, outcome, asked)
    {
      ghost var goal := RunFrom(parse, server, FRESH, 0);
      asked := AskedFrom(parse, server, FRESH, 0);
      FreshRun(parse, server);
      forall log: seq<Parsed> ensures FinishesReplay(parse, server, log, goal.0.yielded, goal.1, asked) {
        ReplayFinishes(parse, server, log);
      }
      while true
        invariant attempts <= RETRIES && !done
        invariant goal == RunFrom(parse, server, View(), attempts)
        decreases RETRIES - attempts
      {
        var ending := Connect(parse, server);
        if done {
          outcome := Finished;
          return;
        }
        if ending == Aborted {
          outcome := Cancelled;
          return;
        }
        attempts := attempts + 1;
        if attempts > RETRIES {
          outcome := Threw(ending == Broken);
          return;
        }
      }
    }
  }

  lemma {:induction false} TextNext(chunks: seq<string>, k: nat)
    requires k < |chunks|
    ensures Text(chunks[..k + 1]) == Text(chunks[..k]) + chunks[k]
  {
    assert chunks[..k + 1][..k] == chunks[..k];
  }

  lemma {:induction false} TextAppend(a: seq<string>, b: seq<string>)
    ensures Text(a + b) == Text(a) + Text(b)
  {
    if b == [] {
      assert a + b == a;
    } else {
      assert (a + b)[..|a + b| - 1] == a + b[..|b| - 1];
      TextAppend(a, b[..|b| - 1]);
      Regroup(Text(a), Text(b[..|b| - 1]), b[|b| - 1]);
    }
  }

  /** Nothing after a terminal event is looked at. */
  lemma {:induction false} RestIgnored(parse: Parser, start: Progress, chunks: seq<string>, k: nat, now: Progress,
      buffer: string, ending: Ending)
    requires k <= |chunks| && HasRead(parse, start, Text(chunks[..k]), now, buffer) && now.done
    ensures now == Read(parse, start, Text(chunks), ending)
  {
    var front, later := Text(chunks[..k]), Text(chunks[k..]);
    assert chunks == chunks[..k] + chunks[k..];
    TextAppend(chunks[..k], chunks[k..]);
    FramesAppend(front, later);
    var rest := Frames(Frames(front).rest + later).frames;
    OfferFramesAppend(parse, start, Frames(front).frames, rest);
    DoneStays(parse, now, rest);
  }

  // ---------------------------------------------------------------------
  // Sequence numbers.

  /** Events that take part in the numbering. */
  predicate IsNumbered(parsed: Parsed) {
    parsed.sequence.Some? && parsed.event != TRUNCATED
  }

  function NumberedOf(events: seq<Parsed>): (r: seq<Parsed>)
    ensures forall e | e in r :: IsNumbered(e)
  {
    if events == [] then []
    else if IsNumbered(events[|events| - 1]) then NumberedOf(events[..|events| - 1]) + [events[|events| - 1]]
    else NumberedOf(events[..|events| - 1])
  }

  lemma {:induction false} NumberedSnoc(events: seq<Parsed>, parsed: Parsed)
    ensures NumberedOf(events + [parsed])
      == if IsNumbered(parsed) then NumberedOf(events) + [parsed] else NumberedOf(events)
  {
    assert (events + [parsed])[..|events|] == events;
  }

  /** Sequence numbers increase, and the last one seen bounds them all. */
  ghost predicate Increasing(events: seq<Parsed>, last: int) {
    && (forall i | 0 <= i < |events| :: IsNumbered(events[i]) && events[i].sequence.value <= last)
    && (forall i, j | 0 <= i < j < |events| :: events[i].sequence.value < events[j].sequence.value)
  }

  lemma {:induction false} IncreasingSnoc(events: seq<Parsed>, last: int, parsed: Parsed)
    requires Increasing(events, last) && IsNumbered(parsed) && last < parsed.sequence.value
    ensures Increasing(events + [parsed], parsed.sequence.value)
  {
  }

  lemma {:induction false} OfferNumberedIncreasing(p: Progress, parsed: Parsed)
    requires Increasing(NumberedOf(p.yielded), p.last)
    ensures var q := OfferNumbered(p, parsed); Increasing(NumberedOf(q.yielded), q.last)
  {
    NumberedSnoc(p.yielded, parsed);
    if IsNumbered(parsed) && p.last < parsed.sequence.value {
      IncreasingSnoc(NumberedOf(p.yielded), p.last, parsed);
    }
  }

  lemma {:induction false} OfferIncreasing(p: Progress, parsed: Option<Parsed>)
    requires Increasing(NumberedOf(p.yielded), p.last)
    ensures var q := Offer(p, parsed); Increasing(NumberedOf(q.yielded), q.last)
  {
    if parsed.Some? {
      NumberedSnoc(p.yielded, parsed.value);
      OfferNumberedIncreasing(p, parsed.value);
    }
  }

  lemma {:induction false} OfferFramesIncreasing(parse: Parser, p: Progress, frames: seq<string>)
    requires Increasing(NumberedOf(p.yielded), p.last)
    ensures var q := OfferFrames(parse, p, frames); Increasing(NumberedOf(q.yielded), q.last)
  {
    if frames != [] {
      var front := frames[..|frames| - 1];
      OfferFramesIncreasing(parse, p, front);
      OfferIncreasing(OfferFrames(parse, p, front), parse(frames[|frames| - 1]));
    }
  }

  lemma {:induction false} ReadIncreasing(parse: Parser, p: Progress, text: string, ending: Ending)
    requires Increasing(NumberedOf(p.yielded), p.last)
    ensures var q := Read(parse, p, text, ending); Increasing(NumberedOf(q.yielded), q.last)
  {
    var split := Frames(text);
    OfferFramesIncreasing(parse, p, split.frames);
    var after := OfferFrames(parse, p, split.frames);
    var tail := parse(split.rest);
    if tail.Some? {
      OfferNumberedIncreasing(after, tail.value);
    }
  }

  /** Whatever servers send, over all reconnects the yielded sequence numbers strictly increase. */
  lemma {:induction false} SequencesIncrease(parse: Parser, server: Server)
    ensures var p := RunFrom(parse, server, FRESH, 0).0; Increasing(NumberedOf(p.yielded), p.last)
  {
    forall q: Progress, a: nat | Increasing(NumberedOf(q.yielded), q.last) && !q.done
      ensures var r := AfterConnection(parse, server, q, a); Increasing(NumberedOf(r.yielded), r.last)
    {
      var connection := server(a, LastEventId(q.last));
      ReadIncreasing(parse, q, Text(connection.chunks), connection.ending);
    }
    RunKeeps(parse, server, FRESH, 0, (q: Progress) => Increasing(NumberedOf(q.yielded), q.last));
  }

  // ---------------------------------------------------------------------
  // Replay.

  /** An event log: numbered events with increasing sequence numbers from 0 on. */
  ghost predicate IsLog(log: seq<Parsed>) {
    && (forall i | 0 <= i < |log| :: IsNumbered(log[i]) && log[i].sequence.value >= 0)
    && (forall i, j | 0 <= i < j < |log| :: log[i].sequence.value < log[j].sequence.value)
  }

  function LastOf(log: seq<Parsed>, n: nat): int
    requires n <= |log| && (forall i | 0 <= i < |log| :: log[i].sequence.Some?)
  {
    if n == 0 then -1 else log[n - 1].sequence.value
  }

  /** The first `n` events of the log have been yielded, each once and in order. */
  ghost predicate Caught(log: seq<Parsed>, p: Progress, n: nat)
    requires IsLog(log)
  {
    n <= |log| && NumberedOf(p.yielded) == log[..n] && p.last == LastOf(log, n)
  }

  /** The numbered frames of a text, in order. */
  function Offered(parse: Parser, frames: seq<string>): seq<Parsed> {
    if frames == [] then [] else
      var front := Offered(parse, frames[..|frames| - 1]);
      match parse(frames[|frames| - 1])
      case Some(parsed) => if IsNumbered(parsed) then front + [parsed] else front
      case None => front
  }

  predicate IsNext(log: seq<Parsed>, i: nat, parsed: Parsed) {
    i < |log| && parsed == log[i]
  }

  /** A connection replays a stretch of the log that starts no later than the first event not yet yielded. */
  ghost predicate Replays(parse: Parser, log: seq<Parsed>, connection: Connection, n: nat, i: nat)
    requires n <= |log|
  {
    var split := Frames(Text(connection.chunks));
    i <= n && ReplaysFrom(parse, log, split.frames, parse(split.rest), i)
  }

  /** The frames offer the stretch of the log from `i` on, and a numbered tail is the event after it. */
  ghost predicate ReplaysFrom(parse: Parser, log: seq<Parsed>, frames: seq<string>, tail: Option<Parsed>, i: nat) {
    && OffersFrom(parse, frames, log, i)
    && (tail.Some? ==> tail.value.sequence.None? || IsNext(log, i + |Offered(parse, frames)|, tail.value))
  }

  /** A reader of the first `n` events of the log asks for what comes after the last of them. */
  function AskAfter(log: seq<Parsed>, n: nat): Option<int>
    requires n <= |log| && (forall i | 0 <= i < |log| :: log[i].sequence.Some?)
  {
    if n == 0 then None else Some(log[n - 1].sequence.value)
  }

  /** For each last sequence number the server replays from there or from before. */
  ghost predicate Faithful(parse: Parser, log: seq<Parsed>, server: Server)
    requires IsLog(log)
  {
    forall attempt: nat, n: nat | n <= |log| ::
      exists i: nat :: Replays(parse, log, server(attempt, AskAfter(log, n)), n, i)
  }

  /** The next event of a replay that has reached position `i` of the log. */
  lemma {:induction false} OfferNumberedCaught(log: seq<Parsed>, p: Progress, n: nat, i: nat) returns (m: nat)
    requires IsLog(log) && Caught(log, p, n) && i <= n && i < |log|
    ensures Caught(log, OfferNumbered(p, log[i]), m) && n <= m && i < m
  {
    NumberedSnoc(p.yielded, log[i]);
    m := if i < n then n else n + 1;
    if i == n {
      assert log[..n + 1] == log[..n] + [log[n]];
    }
  }

  lemma {:induction false} OfferSilentCaught(log: seq<Parsed>, p: Progress, n: nat, parsed: Parsed)
    requires IsLog(log) && Caught(log, p, n) && !IsNumbered(parsed)
      && (parsed.sequence.None? || parsed.event == TRUNCATED)
    ensures Caught(log, Offer(p, Some(parsed)), n)
  {
    NumberedSnoc(p.yielded, parsed);
  }

  lemma {:induction false} OfferOneCaught(log: seq<Parsed>, p: Progress, n: nat, i: nat, parsed: Option<Parsed>)
    returns (m: nat)
    requires IsLog(log) && Caught(log, p, n) && i <= |log| && (!p.done ==> i <= n)
    requires parsed.Some? && IsNumbered(parsed.value) ==> i < |log| && parsed.value == log[i]
    requires parsed.Some? && !IsNumbered(parsed.value)
      ==> parsed.value.sequence.None? || parsed.value.event == TRUNCATED
    ensures Caught(log, Offer(p, parsed), m) && n <= m
    ensures !Offer(p, parsed).done && parsed.Some? && IsNumbered(parsed.value) ==> i < m
  {
    m := n;
    if !p.done && parsed.Some? {
      if IsNumbered(parsed.value) {
        m := OfferNumberedCaught(log, p, n, i);
      } else {
        OfferSilentCaught(log, p, n, parsed.value);
      }
    }
  }

  /** The frames offer the stretch of the log from `i` on. */
  ghost predicate OffersFrom(parse: Parser, frames: seq<string>, log: seq<Parsed>, i: nat) {
    i + |Offered(parse, frames)| <= |log| && Offered(parse, frames) == log[i..i + |Offered(parse, frames)|]
  }

  lemma {:induction false} OffersFront(parse: Parser, front: seq<string>, frame: string, log: seq<Parsed>, i: nat)
    requires OffersFrom(parse, front + [frame], log, i)
    ensures OffersFrom(parse, front, log, i)
    ensures var k := i + |Offered(parse, front)|;
      match parse(frame)
      case Some(parsed) => if IsNumbered(parsed)
        then k < |log| && parsed == log[k] && i + |Offered(parse, front + [frame])| == k + 1
                           else i + |Offered(parse, front + [frame])| == k
      case None => i + |Offered(parse, front + [frame])| == k
  {
    var all, k := Offered(parse, front + [frame]), |Offered(parse, front)|;
    assert all[..k] == Offered(parse, front);
    assert log[i..i + |all|][..k] == log[i..i + k];
    if |all| == k + 1 {
      assert all[k] == log[i..i + |all|][k];
    }
  }

  lemma {:induction false} OfferFramesCaught(parse: Parser, log: seq<Parsed>, p: Progress, n: nat,
                                              frames: seq<string>, i: nat)
    returns (m: nat)
    requires IsLog(log) && Caught(log, p, n) && i <= n && !p.done && OffersFrom(parse, frames, log, i)
    ensures Caught(log, OfferFrames(parse, p, frames), m)
    ensures !OfferFrames(parse, p, frames).done ==> i + |Offered(parse, frames)| <= m
  {
    if frames == [] {
      m := n;
    } else {
      var front, frame := frames[..|frames| - 1], frames[|frames| - 1];
      assert frames == front + [frame];
      OffersFront(parse, front, frame, log, i);
      m := OfferFramesCaught(parse, log, p, n, front, i);
      m := OfferOneCaught(log, OfferFrames(parse, p, front), m, i + |Offered(parse, front)|, parse(frame));
    }
  }

  lemma {:induction false} OfferTailCaught(log: seq<Parsed>, p: Progress, n: nat, i: nat, parsed: Option<Parsed>)
    returns (m: nat)
    requires IsLog(log) && Caught(log, p, n) && (!p.done ==> i <= n)
    requires parsed.Some? ==> parsed.value.sequence.None? || IsNext(log, i, parsed.value)
    ensures Caught(log, OfferTail(p, parsed), m) && n <= m
    ensures !p.done && parsed.Some? && IsNumbered(parsed.value) ==> i < m
  {
    m := n;
    if !p.done && parsed.Some? {
      if parsed.value.sequence.None? {
        NumberedSnoc(p.yielded, parsed.value);
      } else {
        m := OfferNumberedCaught(log, p, n, i);
      }
    }
  }

  lemma {:induction false} ReadCaught(parse: Parser, log: seq<Parsed>, p: Progress, n: nat,
                                       connection: Connection, i: nat)
    returns (m: nat)
    requires IsLog(log) && Caught(log, p, n) && !p.done && Replays(parse, log, connection, n, i)
    ensures Caught(log, Read(parse, p, Text(connection.chunks), connection.ending), m)
    ensures ReachesTo(parse, p, connection, i, m)
  {
    var split := Frames(Text(connection.chunks));
    var tail := if connection.ending == Closed then parse(split.rest) else None;
    m := PartsCaught(parse, log, p, n, split.frames, i, tail);
  }

  lemma {:induction false} PartsCaught(parse: Parser, log: seq<Parsed>, p: Progress, n: nat, frames: seq<string>,
      i: nat, tail: Option<Parsed>)
    returns (m: nat)
    requires IsLog(log) && Caught(log, p, n) && i <= n && !p.done && ReplaysFrom(parse, log, frames, tail, i)
    ensures Caught(log, OfferTail(OfferFrames(parse, p, frames), tail), m)
    ensures ReachesFrom(parse, p, frames, tail, i, m)
  {
    m := OfferFramesCaught(parse, log, p, n, frames, i);
    m := OfferTailCaught(log, OfferFrames(parse, p, frames), m, i + |Offered(parse, frames)|, tail);
  }

  /** Unless the run ends before, all of the stretch that starts at `i` is among the first `m` events. */
  ghost predicate ReachesTo(parse: Parser, p: Progress, connection: Connection, i: nat, m: nat) {
    var split := Frames(Text(connection.chunks));
    ReachesFrom(parse, p, split.frames, if connection.ending == Closed then parse(split.rest) else None, i, m)
  }

  ghost predicate ReachesFrom(parse: Parser, p: Progress, frames: seq<string>, tail: Option<Parsed>, i: nat, m: nat) {
    var k := i + |Offered(parse, frames)|;
    !OfferFrames(parse, p, frames).done ==> k <= m && (tail.Some? && IsNumbered(tail.value) ==> k < m)
  }

  ghost predicate InPrefix(log: seq<Parsed>, p: Progress)
    requires IsLog(log)
  {
    exists n: nat :: Caught(log, p, n)
  }

  lemma {:induction false} ConnectionKeepsPrefix(parse: Parser, log: seq<Parsed>, server: Server, p: Progress,
      attempts: nat)
    requires IsLog(log) && Faithful(parse, log, server) && InPrefix(log, p) && !p.done
    ensures InPrefix(log, AfterConnection(parse, server, p, attempts))
  {
    var n: nat :| Caught(log, p, n);
    var connection := server(attempts, AskAfter(log, n));
    var i: nat :| Replays(parse, log, connection, n, i);
    var m := ReadCaught(parse, log, p, n, connection, i);
  }

  /**
   * Against a server that replays its log after the last sequence number, the numbered
   * events yielded over all connections are a gap-free prefix of the log.
   */
  lemma {:induction false} ReplayIsPrefix(parse: Parser, log: seq<Parsed>, server: Server)
    requires IsLog(log) && Faithful(parse, log, server)
    ensures NumberedOf(RunFrom(parse, server, FRESH, 0).0.yielded) <= log
  {
    forall q: Progress, a: nat | InPrefix(log, q) && !q.done
      ensures InPrefix(log, AfterConnection(parse, server, q, a)) {
      ConnectionKeepsPrefix(parse, log, server, q, a);
    }
    assert Caught(log, FRESH, 0);
    RunKeeps(parse, server, FRESH, 0, (q: Progress) requires IsLog(log) => InPrefix(log, q));
  }

  // ---------------------------------------------------------------------
  // The end of a replayed run.

  /** The body holds the event in one of its frames, or in its tail when it is closed. */
  ghost predicate Delivers(parse: Parser, connection: Connection, event: Parsed) {
    var split := Frames(Text(connection.chunks));
    || (exists k | 0 <= k < |split.frames| :: parse(split.frames[k]) == Some(event))
    || (connection.ending == Closed && parse(split.rest) == Some(event))
  }

  /** The log of a run that has ended: its last event, and no other one, ends the run. */
  ghost predicate HasEnd(log: seq<Parsed>) {
    EndsWith(log) && NothingAfterEnd(log)
  }

  /** Only events of the log end a run. */
  ghost predicate EndsByLog(parse: Parser, log: seq<Parsed>, server: Server) {
    forall attempt: nat, last: Option<int>, event: Parsed |
      Delivers(parse, server(attempt, last), event) && EndsRun(event) :: IsNumbered(event)
  }

  /** One of the connections holds the event. */
  ghost predicate Delivered(parse: Parser, server: Server, attempts: nat, asked: seq<Option<int>>, event: Parsed)
    decreases |asked|
  {
    asked != [] && (|| Delivers(parse, server(attempts, asked[0]), event)
                    || Delivered(parse, server, attempts + 1, asked[1..], event))
  }

  /**
   * A run against a server that replays a log with an end is finished exactly when one of
   * its connections holds that end, and then the numbered events are the whole log.
   */
  ghost predicate FinishesReplay(parse: Parser, server: Server, log: seq<Parsed>, yielded: seq<Parsed>,
                                 outcome: Outcome, asked: seq<Option<int>>)
  {
    IsLog(log) && HasEnd(log) && Faithful(parse, log, server) && EndsByLog(parse, log, server)
    ==>
      && (outcome == Finished <==> Delivered(parse, server, 0, asked, log[|log| - 1]))
      && (outcome == Finished <==> NumberedOf(yielded) == log)
  }

  /** What is new after some frames was in one of them. */
  lemma {:induction false} NewInFrames(parse: Parser, p: Progress, frames: seq<string>, event: Parsed)
    requires event in OfferFrames(parse, p, frames).yielded && event !in p.yielded
    ensures exists k | 0 <= k < |frames| :: parse(frames[k]) == Some(event)
  {
    if frames != [] {
      var front := frames[..|frames| - 1];
      if event in OfferFrames(parse, p, front).yielded {
        NewInFrames(parse, p, front, event);
        var k :| 0 <= k < |front| && parse(front[k]) == Some(event);
        assert parse(frames[k]) == Some(event);
      } else {
        assert parse(frames[|frames| - 1]) == Some(event);
      }
    }
  }

  lemma {:induction false} NewDelivered(parse: Parser, p: Progress, connection: Connection, event: Parsed)
    requires event in Read(parse, p, Text(connection.chunks), connection.ending).yielded && event !in p.yielded
    ensures Delivers(parse, connection, event)
  {
    var split := Frames(Text(connection.chunks));
    if event in OfferFrames(parse, p, split.frames).yielded {
      NewInFrames(parse, p, split.frames, event);
    }
  }

  lemma {:induction false} InNumbered(events: seq<Parsed>, event: Parsed)
    ensures event in NumberedOf(events) <==> event in events && IsNumbered(event)
  {
    if events != [] {
      InNumbered(events[..|events| - 1], event);
      assert events == events[..|events| - 1] + [events[|events| - 1]];
    }
  }

  lemma {:induction false} OfferedAll(parse: Parser, frames: seq<string>, event: Parsed)
    requires IsNumbered(event) && exists k | 0 <= k < |frames| :: parse(frames[k]) == Some(event)
    ensures event in Offered(parse, frames)
  {
    var front, last := frames[..|frames| - 1], parse(frames[|frames| - 1]);
    if last == Some(event) {
      assert Offered(parse, frames)[|Offered(parse, front)|] == event;
    } else {
      var k :| 0 <= k < |frames| && parse(frames[k]) == Some(event);
      assert parse(front[k]) == Some(event);
      OfferedAll(parse, front, event);
    }
  }

  /** How far a reader of the log is: it is at the end exactly when the run has ended. */
  ghost predicate Reading(log: seq<Parsed>, p: Progress, n: nat)
    requires IsLog(log)
  {
    && Caught(log, p, n) && Told(p)
    && (forall event | event in p.yielded && EndsRun(event) :: IsNumbered(event))
  }

  lemma {:induction false} EndRead(log: seq<Parsed>, p: Progress, n: nat)
    requires IsLog(log) && HasEnd(log) && Reading(log, p, n)
    ensures p.done <==> n == |log|
    ensures p.done <==> log[|log| - 1] in p.yielded
  {
    var end := log[|log| - 1];
    InNumbered(p.yielded, end);
    if end in p.yielded {
      var i :| 0 <= i < |p.yielded| && p.yielded[i] == end;
      var j :| 0 <= j < n && log[..n][j] == end;
      assert log[j].sequence == end.sequence;
    }
    if n == |log| {
      assert log[..n][n - 1] == end;
    }
    if p.done {
      var last := p.yielded[|p.yielded| - 1];
      assert p.yielded == p.yielded[..|p.yielded| - 1] + [last];
      NumberedSnoc(p.yielded[..|p.yielded| - 1], last);
      assert last == log[..n][n - 1] == log[n - 1];
    }
  }
  /** An event of a log stands at one place only. */
  lemma {:induction false} OncePlaced(log: seq<Parsed>, i: nat, j: nat)
    requires IsLog(log) && i < |log| && j < |log|
    ensures log[i] == log[j] ==> i == j
  {
    if i < j {
      assert log[i].sequence.value < log[j].sequence.value;
    } else if j < i {
      assert log[j].sequence.value < log[i].sequence.value;
    }
  }

  /** A replay that holds the end of the log reads up to it. */
  lemma {:induction false} EndReached(parse: Parser, log: seq<Parsed>, p: Progress, n: nat, connection: Connection,
      i: nat, m: nat)
    requires IsLog(log) && log != [] && Delivers(parse, connection, log[|log| - 1]) && m <= |log|
    requires n <= |log| && Replays(parse, log, connection, n, i) && ReachesTo(parse, p, connection, i, m)
    requires !OfferFrames(parse, p, Frames(Text(connection.chunks)).frames).done
    ensures m == |log|
  {
    var split, end := Frames(Text(connection.chunks)), log[|log| - 1];
    var offered := Offered(parse, split.frames);
    if exists k | 0 <= k < |split.frames| :: parse(split.frames[k]) == Some(end) {
      OfferedAll(parse, split.frames, end);
      var j :| 0 <= j < |offered| && offered[j] == end;
      assert log[i..i + |offered|][j] == log[i + j];
      OncePlaced(log, i + j, |log| - 1);
    } else {
      OncePlaced(log, i + |offered|, |log| - 1);
    }
  }

  /** One connection: the run ends with it exactly when it holds the end of the log. */
  lemma {:induction false} ConnectionReads(parse: Parser, log: seq<Parsed>, server: Server, p: Progress, n: nat,
      attempts: nat)
    returns (m: nat)
    requires IsLog(log) && HasEnd(log) && Faithful(parse, log, server) && EndsByLog(parse, log, server)
    requires Reading(log, p, n) && !p.done
    ensures Reading(log, AfterConnection(parse, server, p, attempts), m)
    ensures AfterConnection(parse, server, p, attempts).done
      <==> Delivers(parse, server(attempts, LastEventId(p.last)), log[|log| - 1])
  {
    var connection, end := server(attempts, LastEventId(p.last)), log[|log| - 1];
    assert LastEventId(p.last) == AskAfter(log, n);
    var i: nat :| Replays(parse, log, connection, n, i);
    m := ReadCaught(parse, log, p, n, connection, i);
    var after := AfterConnection(parse, server, p, attempts);
    ConnectionTold(parse, server, p, attempts);
    forall event | event in after.yielded && EndsRun(event) ensures IsNumbered(event) {
      if event !in p.yielded {
        NewDelivered(parse, p, connection, event);
      }
    }
    EndRead(log, p, n);
    EndRead(log, after, m);
    if after.done {
      NewDelivered(parse, p, connection, end);
    } else if Delivers(parse, connection, end) {
      EndReached(parse, log, p, n, connection, i, m);
    }
  }

  lemma {:induction false} DeliveredCons(parse: Parser, server: Server, attempts: nat, first: Option<int>,
      rest: seq<Option<int>>, event: Parsed)
    ensures Delivered(parse, server, attempts, [first] + rest, event)
      <==> Delivers(parse, server(attempts, first), event) || Delivered(parse, server, attempts + 1, rest, event)
  {
    assert ([first] + rest)[1..] == rest;
  }

  lemma {:induction false} RunReads(parse: Parser, log: seq<Parsed>, server: Server, p: Progress, n: nat, attempts: nat)
    requires IsLog(log) && HasEnd(log) && Faithful(parse, log, server) && EndsByLog(parse, log, server)
    requires attempts <= RETRIES && Reading(log, p, n) && !p.done
    ensures ReadsAll(parse, server, log, attempts, RunFrom(parse, server, p, attempts),
              AskedFrom(parse, server, p, attempts))
    decreases RETRIES - attempts
  {
    var after, last := AfterConnection(parse, server, p, attempts), LastEventId(p.last);
    var m := ConnectionReads(parse, log, server, p, n, attempts);
    if GoesOn(parse, server, p, attempts) {
      RunReads(parse, log, server, after, m, attempts + 1);
      ReadsLater(parse, server, log, attempts, RunFrom(parse, server, after, attempts + 1), last,
        AskedFrom(parse, server, after, attempts + 1));
      RunGoesOn(parse, server, p, attempts);
    } else {
      RunStops(parse, server, p, attempts);
      EndRead(log, after, m);
      DeliveredCons(parse, server, attempts, last, [], log[|log| - 1]);
      assert [last] + [] == [last];
    }
  }

  ghost predicate ReadsAll(parse: Parser, server: Server, log: seq<Parsed>, attempts: nat,
                           result: (Progress, Outcome), asked: seq<Option<int>>)
    requires log != []
  {
    && (result.1 == Finished <==> Delivered(parse, server, attempts, asked, log[|log| - 1]))
    && (result.1 == Finished <==> NumberedOf(result.0.yielded) == log)
  }

  /** A connection without the end of the log comes before. */
  lemma {:induction false} ReadsLater(parse: Parser, server: Server, log: seq<Parsed>, attempts: nat,
      result: (Progress, Outcome), first: Option<int>, asked: seq<Option<int>>)
    requires log != [] && ReadsAll(parse, server, log, attempts + 1, result, asked)
    requires !Delivers(parse, server(attempts, first), log[|log| - 1])
    ensures ReadsAll(parse, server, log, attempts, result, [first] + asked)
  {
    DeliveredCons(parse, server, attempts, first, asked, log[|log| - 1]);
  }

  lemma {:induction false} ReplayFinishes(parse: Parser, server: Server, log: seq<Parsed>)
    ensures var (after, outcome) := RunFrom(parse, server, FRESH, 0);
      FinishesReplay(parse, server, log, after.yielded, outcome, AskedFrom(parse, server, FRESH, 0))
  {
    if IsLog(log) && HasEnd(log) && Faithful(parse, log, server) && EndsByLog(parse, log, server) {
      assert Reading(log, FRESH, 0);
      RunReads(parse, log, server, FRESH, 0, 0);
    }
  }

  // ---------------------------------------------------------------------
  // Encoding and decoding.

  /** A payload that fits one data line and is not changed by trimming. */
  predicate IsPayload(text: string) {
    && text != "" && !IsSpace(text[0]) && !IsSpace(text[|text| - 1])
    && forall k | 0 <= k < |text| :: text[k] != '\n'
  }

  function EncodedFrame(text: string): string {
    "data: " + text
  }

  function Encoded(texts: seq<string>): string {
    if texts == [] then "" else EncodedFrame(texts[0]) + "\n\n" + Encoded(texts[1..])
  }

  lemma {:induction false} DataOfEncoded(text: string)
    requires IsPayload(text)
    ensures Data(EncodedFrame(text)) == text
  {
    var frame := EncodedFrame(text);
    assert forall k | 0 <= k < |frame| :: frame[k] != '\n';
    assert Lines(frame) == [frame];
    assert frame[5..] == [' '] + text;
    assert frame[5..][1..] == text;
    assert TrimStart(frame[5..]) == TrimStart(text) == text;
    var lines := [frame];
    assert DataLines(lines) == [text] by {
      assert lines[1..] == [];
      assert "data:" == frame[..5];
    }
  }

  lemma {:induction false} FirstEncoded(text: string, rest: string)
    requires IsPayload(text)
    ensures Search(EncodedFrame(text) + "\n\n" + rest, 0) == |EncodedFrame(text)|
    ensures AfterFirst(EncodedFrame(text) + "\n\n" + rest) == rest
  {
    var frame := EncodedFrame(text);
    var all := frame + "\n\n" + rest;
    assert frame[|frame| - 1] == text[|text| - 1];
    assert forall k | 0 <= k < |frame| :: all[k] == frame[k] != '\n';
    assert all[|frame|] == '\n' && all[|frame| + 1] == '\n';
    SearchUnique(all, |frame|);
  }

  lemma {:induction false} EncodedCons(text: string, rest: string)
    requires IsPayload(text)
    ensures var split := Frames(EncodedFrame(text) + "\n\n" + rest);
      split.frames == [EncodedFrame(text)] + Frames(rest).frames && split.rest == Frames(rest).rest
  {
    var all := EncodedFrame(text) + "\n\n" + rest;
    FirstEncoded(text, rest);
    assert all[..|EncodedFrame(text)|] == EncodedFrame(text);
  }

  /** Decoding an encoded sequence of payloads gives back exactly these payloads. */
  lemma {:induction false} DecodeEncoded(texts: seq<string>)
    requires forall k | 0 <= k < |texts| :: IsPayload(texts[k])
    ensures var split := Frames(Encoded(texts));
      && split.rest == "" && |split.frames| == |texts|
      && forall k | 0 <= k < |texts| :: Data(split.frames[k]) == texts[k]
  {
    if texts == [] {
      FramesNone("");
    } else {
      EncodedCons(texts[0], Encoded(texts[1..]));
      DecodeEncoded(texts[1..]);
      DataOfEncoded(texts[0]);
    }
  }

  // ---------------------------------------------------------------------
  // The unterminated tail.

  /** An event that a stream shows in this position: it has no number, or a new one. */
  predicate IsNews(p: Progress, parsed: Option<Parsed>) {
    parsed.Some? && (parsed.value.sequence.None? || parsed.value.sequence.value > p.last)
  }

  lemma {:induction false} TailOffered(p: Progress, parsed: Option<Parsed>)
    ensures OfferTail(p, parsed).yielded
      == if !p.done && IsNews(p, parsed) then p.yielded + [parsed.value] else p.yielded
  {
  }

  /**
   * A body that is closed instead of broken off shows one more event, its unterminated
   * tail, exactly when no terminal event came before and the tail parses to an event
   * that has no number or a new one.
   */
  lemma {:induction false} TailExact(parse: Parser, p: Progress, text: string)
    ensures var broken, closed, tail :=
      Read(parse, p, text, Broken), Read(parse, p, text, Closed), parse(Frames(text).rest);
      && (closed.yielded != broken.yielded <==> !broken.done && IsNews(broken, tail))
      && (closed.yielded != broken.yielded ==> closed.yielded == broken.yielded + [tail.value])
  {
    TailOffered(Read(parse, p, text, Broken), parse(Frames(text).rest));
  }

  function FrameParser(json: string -> Option<Parsed>): Parser {
    (frame: string) => ParseSseFrame(json, frame)
  }

  lemma {:induction false} OneLineUnframed(text: string)
    requires IsPayload(text)
    ensures Frames(EncodedFrame(text)) == Split([], EncodedFrame(text))
  {
    var frame := EncodedFrame(text);
    assert forall k | 0 <= k < |frame| :: frame[k] != '\n';
    assert forall k: nat | k < |frame| :: SeparatorAt(frame, k) == 0;
    FramesNone(frame);
  }

  /** Such a tail: a data line that was cut off before its object was complete. */
  lemma {:induction false} CutFrameReported(json: string -> Option<Parsed>, text: string, p: Progress)
    requires IsPayload(text) && json(text) == None && !p.done
    ensures Read(FrameParser(json), p, EncodedFrame(text), Broken) == p
    ensures Read(FrameParser(json), p, EncodedFrame(text), Closed)
      == p.(yielded := p.yielded + [Parsed(UNPARSED, None, text)])
  {
    OneLineUnframed(text);
    DataOfEncoded(text);
  }

  /** A server that closes every connection in the middle of its first event. */
  function CuttingServer(text: string): Server {
    (attempt: nat, last: Option<int>) => Connection([EncodedFrame(text)], Closed)
  }

  lemma {:induction false} CutConnection(json: string -> Option<Parsed>, text: string, p: Progress, attempts: nat)
    requires IsPayload(text) && json(text) == None && !p.done
    ensures AfterConnection(FrameParser(json), CuttingServer(text), p, attempts) == Reported(p, text, 1)
  {
    OneChunk(EncodedFrame(text));
    CutFrameReported(json, text, p);
  }

  /** `n` reports of the same unparsed text. */
  function Reported(p: Progress, text: string, n: nat): Progress {
    if n == 0 then p else
      var before := Reported(p, text, n - 1);
      before.(yielded := before.yielded + [Parsed("transport.unparsed", None, text)])
  }

  lemma {:induction false} ReportedFirst(p: Progress, text: string, n: nat)
    ensures Reported(Reported(p, text, 1), text, n) == Reported(p, text, n + 1)
    ensures Reported(p, text, n).done == p.done
  {
    if n > 0 {
      ReportedFirst(p, text, n - 1);
    }
  }

  /** On each of the four connections the cut event is reported, and then the run fails. */
  lemma {:induction false} CutOnEveryConnection(json: string -> Option<Parsed>, text: string, p: Progress,
      attempts: nat)
    requires IsPayload(text) && json(text) == None && !p.done && attempts <= RETRIES
    ensures RunFrom(FrameParser(json), CuttingServer(text), p, attempts)
      == (Reported(p, text, RETRIES + 1 - attempts), Threw(false))
    decreases RETRIES - attempts
  {
    CutConnection(json, text, p, attempts);
    ReportedFirst(p, text, 0);
    if attempts < RETRIES {
      CutOnEveryConnection(json, text, Reported(p, text, 1), attempts + 1);
      ReportedFirst(p, text, RETRIES - attempts);
    }
  }

  lemma {:induction false} OneChunk(chunk: string)
    ensures Text([chunk]) == chunk
  {
    assert [chunk][..0] == [];
    assert "" + chunk == chunk;
  }
}
