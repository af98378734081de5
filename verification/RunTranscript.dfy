/** The events of one Hermes run become messages with stable ids. */
module RunTranscript {
  import opened Prelude
  import opened Texts

  datatype Name =
    | ReasoningDelta
    | ThinkingDelta
    | ReasoningAvailable
    | ToolProgress
    | MessageStarted
    | MessageDelta
    | AssistantDelta
    | MessageInterim
    | AssistantCommentary
    | ToolStarted
    | ToolCompleted
    | ToolFailed
    | AssistantCompleted
    | RunCompleted
    | RunFailed
    | RunInterrupted
    | RunCancelled
    | ReplyFinal
    | ReplyInterimText
    | ReplyPromote
    | ReasoningVerified
    | OtherEvent(name: string)

  /** Ids are native, or minted for the run from a counter. */
  datatype Id =
    | NoId
    | NativeId(text: string)
    | SegmentId(segment: nat)
    | ReasoningId(segment: nat)
    | ToolId(sequence: nat)
    | OrphanToolId(sequence: nat)

  /** A run event. Absent texts that the code treats like empty ones are empty. */
  datatype Event = Event(
    name: Name,
    messageId: Id,
    role: string,
    startedId: Id,
    delta: string,
    text: Option<string>,
    content: Option<string>,
    preview: string,
    output: string,
    tool: Option<string>,
    toolName: Option<string>,
    toolCallId: Id,
    callId: Id,
    deferred: bool,
    derivedFrom: Option<Name>)

  datatype Interim = Interim(id: Id, text: string)

  datatype ActiveTool = ActiveTool(id: Id, name: string)

  datatype State = State(
    segment: nat,
    activeId: Id,
    segmentText: string,
    lastInterim: Option<Interim>,
    pendingReasoning: seq<Event>,
    reasoningSegment: nat,
    toolSequence: nat,
    activeTools: seq<ActiveTool>)

  const START := State(0, NoId, "", None, [], 0, 0, [])

  function Derived(name: Name, id: Id, from: Name): Event {
    Event(name, id, "", NoId, "", None, None, "", "", None, None, NoId, NoId, false, Some(from))
  }

  function OrEmpty(text: Option<string>): string {
    if text.Some? then text.value else ""
  }

  // ---------------------------------------------------------------------
  // One event, as a function of the state before it.

  function ActiveMessage(st: State): Id {
    if st.activeId != NoId then st.activeId else SegmentId(st.segment)
  }

  function Advanced(st: State): State {
    st.(segment := st.segment + 1, activeId := NoId, segmentText := "")
  }

  function PreviewOf(event: Event): string {
    if event.text.Some? then event.text.value else event.preview
  }

  /** The preview repeats the visible reply, in full or cut off after at least 490 characters. */
  predicate RepeatsVisible(preview: string, visibleText: string) {
    var thinking, visible := Trim(preview), Trim(visibleText);
    visible != "" && thinking != "" && (visible == thinking || (|thinking| >= 490 && thinking <= visible))
  }

  function Verified(event: Event, segment: nat): Event {
    event.(name := ReasoningVerified,
      messageId := if event.messageId != NoId then event.messageId else ReasoningId(segment),
      derivedFrom := Some(event.name),
      text := Some(PreviewOf(event)))
  }

  /** What becomes of the first `n` pending previews: all but the repeats are released, in order. */
  function ReleasedUpTo(pending: seq<Event>, n: nat, segment: nat, visibleText: string): seq<Event>
    requires n <= |pending|
  {
    if n == 0 then []
    else if RepeatsVisible(PreviewOf(pending[n - 1]), visibleText)
      then ReleasedUpTo(pending, n - 1, segment, visibleText)
    else ReleasedUpTo(pending, n - 1, segment, visibleText) + [Verified(pending[n - 1], segment)]
  }

  function Released(pending: seq<Event>, segment: nat, visibleText: string): seq<Event> {
    ReleasedUpTo(pending, |pending|, segment, visibleText)
  }

  function AfterRelease(st: State): State {
    st.(pendingReasoning := [], reasoningSegment := st.reasoningSegment + 1)
  }

  function ToolOf(event: Event): string {
    if event.tool.Some? then event.tool.value else if event.toolName.Some? then event.toolName.value else "tool"
  }

  function NativeCall(event: Event): Id {
    if event.toolCallId != NoId then event.toolCallId else event.callId
  }

  function FindTool(tools: seq<ActiveTool>, nativeId: Id, name: string): (n: nat)
    ensures n <= |tools|
    ensures n < |tools| ==> if nativeId != NoId then tools[n].id == nativeId else tools[n].name == name
    ensures forall k | 0 <= k < n :: if nativeId != NoId then tools[k].id != nativeId else tools[k].name != name
  {
    if tools == [] then 0
    else if (if nativeId != NoId then tools[0].id == nativeId else tools[0].name == name) then 0
    else 1 + FindTool(tools[1..], nativeId, name)
  }

  function StartTool(st: State, event: Event): (State, Event) {
    var native := NativeCall(event);
    var sequence := if native != NoId then st.toolSequence else st.toolSequence + 1;
    var id := if native != NoId then native else ToolId(sequence);
    (st.(toolSequence := sequence, activeTools := st.activeTools + [ActiveTool(id, ToolOf(event))]),
     event.(toolCallId := id))
  }

  function EndTool(st: State, event: Event): (State, Event) {
    var native := NativeCall(event);
    var n := FindTool(st.activeTools, native, ToolOf(event));
    if n < |st.activeTools| then
      (st.(activeTools := st.activeTools[..n] + st.activeTools[n + 1..]),
       event.(toolCallId := if native != NoId then native else st.activeTools[n].id))
    else if native != NoId then (st, event.(toolCallId := native))
    else (st.(toolSequence := st.toolSequence + 1), event.(toolCallId := OrphanToolId(st.toolSequence + 1)))
  }

  function StepDelta(st: State, event: Event): (State, seq<Event>) {
    if event.delta == "" then (st, [event]) else
      var id := if event.messageId != NoId then event.messageId else ActiveMessage(st);
      (st.(activeId := id, segmentText := st.segmentText + event.delta), [event.(messageId := id)])
  }

  function StepInterim(st: State, event: Event): (State, seq<Event>) {
    var id := ActiveMessage(st);
    var value := if event.text.Some? then event.text.value else OrEmpty(event.content);
    var shown := if value != "" then value else st.segmentText;
    (Advanced(AfterRelease(st).(lastInterim := Some(Interim(id, shown)))),
     Released(st.pendingReasoning, st.reasoningSegment, shown)
     + (if value != "" && value != st.segmentText
        then [Derived(ReplyInterimText, id, event.name).(content := Some(value)), event.(messageId := id)]
        else [event.(messageId := id)]))
  }

  function StepToolStarted(st: State, event: Event): (State, seq<Event>) {
    var (started, toolEvent) := StartTool(st, event);
    var reasoning := Released(st.pendingReasoning, st.reasoningSegment, st.segmentText);
    var released := AfterRelease(started);
    if st.segmentText == "" then (released, reasoning + [toolEvent]) else
      var id := ActiveMessage(st);
      (Advanced(released.(lastInterim := Some(Interim(id, st.segmentText)))),
       reasoning + [Derived(MessageInterim, id, ToolStarted).(text := Some(st.segmentText)), toolEvent])
  }

  function StepAssistantCompleted(st: State, event: Event): (State, seq<Event>) {
    var id := if event.messageId != NoId then event.messageId else ActiveMessage(st);
    var text := if event.content.Some? then event.content.value else st.segmentText;
    (AfterRelease(st.(activeId := id, segmentText := text)),
     Released(st.pendingReasoning, st.reasoningSegment, text) + [event.(messageId := id)])
  }

  function StepRunCompleted(st: State, event: Event): (State, seq<Event>) {
    var reasoning := Released(st.pendingReasoning, st.reasoningSegment, event.output);
    var released := AfterRelease(st);
    if event.output == "" then (released, reasoning + [event])
    else if st.segmentText == "" && st.lastInterim.Some? && st.lastInterim.value.text == event.output then
      (released, reasoning + [Derived(ReplyPromote, st.lastInterim.value.id, RunCompleted), event])
    else
      (released.(activeId := ActiveMessage(st)),
       reasoning + [Derived(ReplyFinal, ActiveMessage(st), RunCompleted).(content := Some(event.output)), event])
  }

  function StepFailure(st: State, event: Event): (State, seq<Event>) {
    (AfterRelease(st), Released(st.pendingReasoning, st.reasoningSegment, "") + [event])
  }

  predicate IsPreview(event: Event) {
    event.name.ReasoningAvailable? || (event.name.ToolProgress? && event.toolName == Some("_thinking"))
  }

  function Step(st: State, event: Event): (State, seq<Event>) {
    if event.name.ReasoningDelta? || event.name.ThinkingDelta? then
      (st, [event.(messageId := if event.messageId != NoId then event.messageId else ReasoningId(st.reasoningSegment))])
    else if IsPreview(event) then
      (st.(pendingReasoning := st.pendingReasoning + [event]), [event.(deferred := true)])
    else match event.name
      case MessageStarted =>
        if event.role != "assistant" then (st, [event]) else
          var id := if event.startedId != NoId then event.startedId else ActiveMessage(st);
          (st.(activeId := id), [event.(messageId := id)])
      case MessageDelta => StepDelta(st, event)
      case AssistantDelta => StepDelta(st, event)
      case MessageInterim => StepInterim(st, event)
      case AssistantCommentary => StepInterim(st, event)
      case ToolStarted => StepToolStarted(st, event)
      case ToolCompleted => var (st', e) := EndTool(st, event); (st', [e])
      case ToolFailed => var (st', e) := EndTool(st, event); (st', [e])
      case AssistantCompleted => StepAssistantCompleted(st, event)
      case RunCompleted => StepRunCompleted(st, event)
      case RunFailed => StepFailure(st, event)
      case RunInterrupted => StepFailure(st, event)
      case RunCancelled => StepFailure(st, event)
      case _ => (st, [event])
  }

  // ---------------------------------------------------------------------
  // What is published for an event, in terms of its fields.

  /** A preview of the model's thoughts, which is only verified later. */
  predicate IsThought(event: Event) {
    event.name == ReasoningAvailable || (event.name == ToolProgress && event.toolName == Some("_thinking"))
  }

  predicate IsOwnElse(id: Id, own: Id, other: Id) {
    id == if own == NoId then other else own
  }

  /** The message that a source event is shown in: its own, or the current one. */
  predicate HasMessageId(before: State, event: Event, id: Id) {
    var current := if before.activeId == NoId then SegmentId(before.segment) else before.activeId;
    match event.name
    case ReasoningDelta => IsOwnElse(id, event.messageId, ReasoningId(before.reasoningSegment))
    case ThinkingDelta => IsOwnElse(id, event.messageId, ReasoningId(before.reasoningSegment))
    case MessageStarted => if event.role == "assistant" then IsOwnElse(id, event.startedId, current)
                           else id == event.messageId
    case MessageDelta => if event.delta == "" then id == event.messageId else IsOwnElse(id, event.messageId, current)
    case AssistantDelta => if event.delta == "" then id == event.messageId else IsOwnElse(id, event.messageId, current)
    case AssistantCompleted => IsOwnElse(id, event.messageId, current)
    case MessageInterim => id == current
    case AssistantCommentary => id == current
    case _ => id == event.messageId
  }

  /** The name of a tool, as events without an id are matched by it. */
  predicate IsToolName(event: Event, name: string) {
    if event.tool != None then event.tool == Some(name)
    else if event.toolName != None then event.toolName == Some(name)
    else name == "tool"
  }

  /** Tool `k` is the one that was opened first among those with the name of the event. */
  predicate IsOldestNamed(tools: seq<ActiveTool>, event: Event, k: nat) {
    k < |tools| && IsToolName(event, tools[k].name) && forall j | 0 <= j < k :: !IsToolName(event, tools[j].name)
  }

  /**
   * The call of a source event: a tool event has an own id, of its two fields the first
   * that is given. Else a start gets a new one, and an end that of the oldest open tool of
   * the same name or, if there is none, a new one of another kind.
   */
  ghost predicate HasCallId(before: State, event: Event, id: Id) {
    var own := if event.toolCallId == NoId then event.callId else event.toolCallId;
    match event.name
    case ToolStarted => IsOwnElse(id, own, ToolId(before.toolSequence + 1))
    case ToolCompleted => EndsCall(before, event, own, id)
    case ToolFailed => EndsCall(before, event, own, id)
    case _ => id == event.toolCallId
  }

  ghost predicate EndsCall(before: State, event: Event, own: Id, id: Id) {
    if own != NoId then id == own
    else if exists k: nat :: IsOldestNamed(before.activeTools, event, k)
    then exists k: nat :: IsOldestNamed(before.activeTools, event, k) && id == before.activeTools[k].id
    else id == OrphanToolId(before.toolSequence + 1)
  }

  /** The source event comes last, with ids and a mark for thoughts, and is as it was otherwise. */
  ghost predicate SourceKept(before: State, event: Event, last: Event) {
    && last == event.(messageId := last.messageId, toolCallId := last.toolCallId, deferred := last.deferred)
    && last.deferred == (event.deferred || IsThought(event))
    && HasMessageId(before, event, last.messageId) && HasCallId(before, event, last.toolCallId)
  }

  /** The text that is visible when the event settles the thoughts so far; other events settle none. */
  function SettlingText(before: State, event: Event): Option<string> {
    match event.name
    case MessageInterim => Some(InterimText(before, event))
    case AssistantCommentary => Some(InterimText(before, event))
    case ToolStarted => Some(before.segmentText)
    case AssistantCompleted => if event.content == None then Some(before.segmentText) else event.content
    case RunCompleted => Some(event.output)
    case RunFailed => Some("")
    case RunInterrupted => Some("")
    case RunCancelled => Some("")
    case _ => None
  }

  /** The text of an interim event, or what was streamed when it has none. */
  function InterimText(before: State, event: Event): string {
    if event.text != None then (if event.text == Some("") then before.segmentText else event.text.value)
    else if event.content == None || event.content == Some("") then before.segmentText
    else event.content.value
  }

  /** The preview is a prefix of the visible text, and the whole of it or long. */
  predicate IsRepeated(preview: string, visibleText: string) {
    var text, visible := Trim(preview), Trim(visibleText);
    text != "" && text <= visible && (|text| >= 490 || |text| == |visible|)
  }

  /** The thoughts that do not repeat the visible text, verified and in order. */
  function VerifiedThoughts(thoughts: seq<Event>, segment: nat, visibleText: string): seq<Event> {
    if thoughts == [] then [] else
      var before := VerifiedThoughts(thoughts[..|thoughts| - 1], segment, visibleText);
      var thought := thoughts[|thoughts| - 1];
      var text := if thought.text == None then thought.preview else thought.text.value;
      if IsRepeated(text, visibleText) then before
      else before + [thought.(name := ReasoningVerified,
                              messageId := if thought.messageId == NoId then ReasoningId(segment)
                                           else thought.messageId,
                              derivedFrom := Some(thought.name), text := Some(text))]
  }

  /** A reply event has a name, a message, its origin and perhaps a text, and nothing else. */
  predicate IsReply(reply: Event, name: Name, id: Id, text: Option<string>, content: Option<string>, origin: Name) {
    && reply.name == name && reply.messageId == id && reply.text == text && reply.content == content
    && reply.derivedFrom == Some(origin) && !reply.deferred
    && reply.role == "" && reply.startedId == NoId && reply.delta == "" && reply.preview == "" && reply.output == ""
    && reply.tool == None && reply.toolName == None && reply.toolCallId == NoId && reply.callId == NoId
  }

  /** The reply event that goes with an event, if any: a boundary, a text that was not streamed, or the final reply. */
  predicate RepliesTold(before: State, event: Event, replies: seq<Event>) {
    var current := if before.activeId == NoId then SegmentId(before.segment) else before.activeId;
    if event.name in {MessageInterim, AssistantCommentary} && InterimText(before, event) != before.segmentText then
      && |replies| == 1
      && IsReply(replies[0], ReplyInterimText, current, None, Some(InterimText(before, event)), event.name)
    else if event.name == ToolStarted && before.segmentText != "" then
      |replies| == 1 && IsReply(replies[0], MessageInterim, current, Some(before.segmentText), None, ToolStarted)
    else if event.name == RunCompleted && event.output != "" then
      && |replies| == 1
      && if before.segmentText == "" && before.lastInterim.Some? && before.lastInterim.value.text == event.output
         then IsReply(replies[0], ReplyPromote, before.lastInterim.value.id, None, None, RunCompleted)
         else IsReply(replies[0], ReplyFinal, current, None, Some(event.output), RunCompleted)
    else replies == []
  }

  /** Verified thoughts, then at most one reply event, then the source event. */
  ghost predicate Published(before: State, event: Event, published: seq<Event>) {
    && published != [] && SourceKept(before, event, published[|published| - 1])
    && var text := SettlingText(before, event);
       var thoughts := if text == None then []
                       else VerifiedThoughts(before.pendingReasoning, before.reasoningSegment, text.value);
       && thoughts <= published[..|published| - 1]
       && RepliesTold(before, event, published[|thoughts|..|published| - 1])
  }

  /** Thoughts are kept until an event settles them, and a new segment of them begins then. */
  predicate ThoughtsKept(before: State, event: Event, after: State) {
    if SettlingText(before, event) == None then
      && after.pendingReasoning == before.pendingReasoning + (if IsThought(event) then [event] else [])
      && after.reasoningSegment == before.reasoningSegment
    else after.pendingReasoning == [] && after.reasoningSegment == before.reasoningSegment + 1
  }

  lemma {:induction false} RepeatsExact(preview: string, visibleText: string)
    ensures RepeatsVisible(preview, visibleText) <==> IsRepeated(preview, visibleText)
  {
    var text, visible := Trim(preview), Trim(visibleText);
    if text <= visible && |text| == |visible| {
      assert text == visible;
    }
  }

  lemma {:induction false} ReleasedVerified(thoughts: seq<Event>, n: nat, segment: nat, visibleText: string)
    requires n <= |thoughts|
    ensures ReleasedUpTo(thoughts, n, segment, visibleText) == VerifiedThoughts(thoughts[..n], segment, visibleText)
  {
    if n != 0 {
      ReleasedVerified(thoughts, n - 1, segment, visibleText);
      RepeatsExact(PreviewOf(thoughts[n - 1]), visibleText);
      assert thoughts[..n][..n - 1] == thoughts[..n - 1];
    }
  }

  lemma {:induction false} ReleasedAll(thoughts: seq<Event>, segment: nat, visibleText: string)
    ensures Released(thoughts, segment, visibleText) == VerifiedThoughts(thoughts, segment, visibleText)
  {
    ReleasedVerified(thoughts, |thoughts|, segment, visibleText);
    assert thoughts[..|thoughts|] == thoughts;
  }

  lemma {:induction false} ToolNamed(event: Event, name: string)
    ensures IsToolName(event, name) <==> name == ToolOf(event)
  {
  }

  lemma {:induction false} EndsCallTold(before: State, event: Event, own: Id)
    requires own == NativeCall(event)
    ensures EndsCall(before, event, own, EndTool(before, event).1.toolCallId)
  {
    var n := FindTool(before.activeTools, own, ToolOf(event));
    forall k: nat | k < |before.activeTools|
      ensures IsToolName(event, before.activeTools[k].name) <==> before.activeTools[k].name == ToolOf(event)
    {
      ToolNamed(event, before.activeTools[k].name);
    }
    if own == NoId && n < |before.activeTools| {
      assert IsOldestNamed(before.activeTools, event, n);
    }
  }

  /** The parts of what is published, put together. */
  lemma {:induction false} PublishedParts(before: State, event: Event, thoughts: seq<Event>, replies: seq<Event>,
      last: Event)
    requires SourceKept(before, event, last) && RepliesTold(before, event, replies)
    requires thoughts == if SettlingText(before, event) == None then []
      else VerifiedThoughts(before.pendingReasoning, before.reasoningSegment, SettlingText(before, event).value)
    ensures Published(before, event, thoughts + replies + [last])
  {
    var published := thoughts + replies + [last];
    assert published[..|published| - 1] == thoughts + replies;
    assert published[|thoughts|..|published| - 1] == replies;
  }

  /** What is promised of one step of the assembler. */
  ghost predicate StepTold(before: State, event: Event, step: (State, seq<Event>)) {
    Published(before, event, step.1) && ThoughtsKept(before, event, step.0)
  }

  lemma {:induction false} NothingSettled(before: State, event: Event, step: (State, seq<Event>), last: Event)
    requires SettlingText(before, event) == None && step.1 == [last] && SourceKept(before, event, last)
    requires ThoughtsKept(before, event, step.0)
    ensures StepTold(before, event, step)
  {
    PublishedParts(before, event, [], [], last);
    assert [] + [] + [last] == [last];
  }

  lemma {:induction false} Settled(before: State, event: Event, step: (State, seq<Event>), text: string,
      replies: seq<Event>, last: Event)
    requires SettlingText(before, event) == Some(text) && ThoughtsKept(before, event, step.0)
    requires step.1 == Released(before.pendingReasoning, before.reasoningSegment, text) + (replies + [last])
    requires SourceKept(before, event, last) && RepliesTold(before, event, replies)
    ensures StepTold(before, event, step)
  {
    ReleasedAll(before.pendingReasoning, before.reasoningSegment, text);
    var thoughts := VerifiedThoughts(before.pendingReasoning, before.reasoningSegment, text);
    PublishedParts(before, event, thoughts, replies, last);
    Regroup(thoughts, replies, [last]);
  }

  lemma {:induction false} InterimTold(before: State, event: Event)
    requires event.name in {MessageInterim, AssistantCommentary}
    ensures StepTold(before, event, StepInterim(before, event))
  {
    var step := StepInterim(before, event);
    var last, shown := step.1[|step.1| - 1], InterimText(before, event);
    var id := ActiveMessage(before);
    assert last == event.(messageId := id);
    if shown == before.segmentText {
      assert [] + [last] == [last];
      Settled(before, event, step, shown, [], last);
    } else {
      var reply := Derived(ReplyInterimText, id, event.name).(content := Some(shown));
      assert [reply] + [last] == [reply, last];
      Settled(before, event, step, shown, [reply], last);
    }
  }

  lemma {:induction false} ToolStartedTold(before: State, event: Event)
    requires event.name.ToolStarted?
    ensures StepTold(before, event, StepToolStarted(before, event))
  {
    var step := StepToolStarted(before, event);
    var last := StartTool(before, event).1;
    if before.segmentText == "" {
      assert [] + [last] == [last];
      Settled(before, event, step, before.segmentText, [], last);
    } else {
      var reply := Derived(MessageInterim, ActiveMessage(before), ToolStarted).(text := Some(before.segmentText));
      assert [reply] + [last] == [reply, last];
      Settled(before, event, step, before.segmentText, [reply], last);
    }
  }

  lemma {:induction false} AssistantCompletedTold(before: State, event: Event)
    requires event.name.AssistantCompleted?
    ensures StepTold(before, event, StepAssistantCompleted(before, event))
  {
    var step := StepAssistantCompleted(before, event);
    var last := event.(messageId := if event.messageId != NoId then event.messageId else ActiveMessage(before));
    assert [] + [last] == [last];
    Settled(before, event, step, if event.content.Some? then event.content.value else before.segmentText, [], last);
  }

  lemma {:induction false} RunCompletedTold(before: State, event: Event)
    requires event.name.RunCompleted?
    ensures StepTold(before, event, StepRunCompleted(before, event))
  {
    var step := StepRunCompleted(before, event);
    if event.output == "" {
      assert [] + [event] == [event];
      Settled(before, event, step, event.output, [], event);
    } else {
      var promotes := before.segmentText == "" && before.lastInterim.Some?
        && before.lastInterim.value.text == event.output;
      var reply := if promotes then Derived(ReplyPromote, before.lastInterim.value.id, RunCompleted)
        else Derived(ReplyFinal, ActiveMessage(before), RunCompleted).(content := Some(event.output));
      assert [reply] + [event] == [reply, event];
      Settled(before, event, step, event.output, [reply], event);
    }
  }

  lemma {:induction false} FailureTold(before: State, event: Event)
    requires event.name in {RunFailed, RunInterrupted, RunCancelled}
    ensures StepTold(before, event, StepFailure(before, event))
  {
    assert [] + [event] == [event];
    Settled(before, event, StepFailure(before, event), "", [], event);
  }

  lemma {:induction false} ToolEndTold(before: State, event: Event)
    requires event.name.ToolCompleted? || event.name.ToolFailed?
    ensures StepTold(before, event, Step(before, event))
  {
    EndsCallTold(before, event, NativeCall(event));
    NothingSettled(before, event, Step(before, event), EndTool(before, event).1);
  }

  lemma {:induction false} OtherTold(before: State, event: Event)
    requires SettlingText(before, event) == None && !event.name.ToolCompleted? && !event.name.ToolFailed?
    ensures StepTold(before, event, Step(before, event))
  {
    var step := Step(before, event);
    NothingSettled(before, event, step, step.1[0]);
  }

  lemma {:induction false} StepPublished(before: State, event: Event)
    ensures StepTold(before, event, Step(before, event))
  {
    match event.name {
      case MessageInterim => InterimTold(before, event);
      case AssistantCommentary => InterimTold(before, event);
      case ToolStarted => ToolStartedTold(before, event);
      case ToolCompleted => ToolEndTold(before, event);
      case ToolFailed => ToolEndTold(before, event);
      case AssistantCompleted => AssistantCompletedTold(before, event);
      case RunCompleted => RunCompletedTold(before, event);
      case RunFailed => FailureTold(before, event);
      case RunInterrupted => FailureTold(before, event);
      case RunCancelled => FailureTold(before, event);
      case _ => OtherTold(before, event);
    }
  }

  // ---------------------------------------------------------------------
  // The assembler object.

  class HermesRunTranscriptAssembler {
    var segment: nat
    var activeId: Id
    var segmentText: string
    var lastInterim: Option<Interim>
    var pendingReasoning: seq<Event>
    var reasoningSegment: nat
    var toolSequence: nat
    var activeTools: seq<ActiveTool>

    constructor ()
      ensures View() == START
    {
      segment, activeId, segmentText, lastInterim := 0, NoId, "", None;
      pendingReasoning, reasoningSegment, toolSequence, activeTools := [], 0, 0, [];
    }

    function View(): State
      reads this
    {
      State(segment, activeId, segmentText, lastInterim, pendingReasoning, reasoningSegment, toolSequence, activeTools)
    }

    method MessageId() returns (id: Id)
      modifies this`activeId
      ensures id == ActiveMessage(old(View())) && View() == old(View()).(activeId := id)
    {
      if activeId == NoId {
        activeId := SegmentId(segment);
      }
      id := activeId;
    }

    method Advance()
      modifies this`segment, this`activeId, this`segmentText
      ensures View() == Advanced(old(View()))
    {
      segment := segment + 1;
      activeId := NoId;
      segmentText := "";
    }

    method ReleaseReasoning(visibleText: string) returns (result: seq<Event>)
      modifies this`pendingReasoning, this`reasoningSegment
      ensures View() == AfterRelease(old(View()))
      ensures result == Released(old(pendingReasoning), old(reasoningSegment), visibleText)
    {
      result := [];
      for k := 0 to |pendingReasoning|
        invariant unchanged(this)
        invariant result == ReleasedUpTo(pendingReasoning, k, reasoningSegment, visibleText)
      {
        var event := pendingReasoning[k];
        if !RepeatsVisible(PreviewOf(event), visibleText) {
          result := result + [Verified(event, reasoningSegment)];
        }
      }
      pendingReasoning := [];
      reasoningSegment := reasoningSegment + 1;
    }

    method ToolEvent(event: Event) returns (result: Event)
      modifies this`toolSequence, this`activeTools
      ensures (View(), result)
        == if event.name.ToolStarted? then StartTool(old(View()), event) else EndTool(old(View()), event)
    {
      var native := NativeCall(event);
      if event.name.ToolStarted? {
        if native == NoId {
          toolSequence := toolSequence + 1;
        }
        var id := if native != NoId then native else ToolId(toolSequence);
        activeTools := activeTools + [ActiveTool(id, ToolOf(event))];
        return event.(toolCallId := id);
      }
      var n := FindTool(activeTools, native, ToolOf(event));
      var id := native;
      if n < |activeTools| {
        if native == NoId {
          id := activeTools[n].id;
        }
        activeTools := activeTools[..n] + activeTools[n + 1..];
      } else if native == NoId {
        toolSequence := toolSequence + 1;
        id := OrphanToolId(toolSequence);
      }
      return event.(toolCallId := id);
    }

    method IngestInterim(event: Event) returns (result: seq<Event>)
      modifies this
      ensures (View(), result) == StepInterim(old(View()), event)
    {
      var id := MessageId();
      var value := if event.text.Some? then event.text.value else OrEmpty(event.content);
      var events := [event.(messageId := id)];
      if value != "" && value != segmentText {
        events := [Derived(ReplyInterimText, id, event.name).(content := Some(value)), event.(messageId := id)];
      }
      var shown := if value != "" then value else segmentText;
      var reasoning := ReleaseReasoning(shown);
      lastInterim := Some(Interim(id, shown));
      Advance();
      result := reasoning + events;
    }

    method IngestToolStarted(event: Event) returns (result: seq<Event>)
      requires event.name.ToolStarted?
      modifies this
      ensures (View(), result) == StepToolStarted(old(View()), event)
    {
      var toolEvent := ToolEvent(event);
      var reasoning := ReleaseReasoning(segmentText);
      if segmentText == "" {
        return reasoning + [toolEvent];
      }
      var id := MessageId();
      var boundary := Derived(MessageInterim, id, ToolStarted).(text := Some(segmentText));
      lastInterim := Some(Interim(id, segmentText));
      Advance();
      return reasoning + [boundary, toolEvent];
    }

    method IngestRunCompleted(event: Event) returns (result: seq<Event>)
      modifies this
      ensures (View(), result) == StepRunCompleted(old(View()), event)
    {
      var reasoning := ReleaseReasoning(event.output);
      if event.output == "" {
        return reasoning + [event];
      }
      if segmentText == "" && lastInterim.Some? && lastInterim.value.text == event.output {
        return reasoning + [Derived(ReplyPromote, lastInterim.value.id, RunCompleted), event];
      }
      var id := MessageId();
      return reasoning + [Derived(ReplyFinal, id, RunCompleted).(content := Some(event.output)), event];
    }

    /** Takes the next event of the run and returns the events to publish for it. */
    method Ingest(event: Event) returns (result: seq<Event>)
      modifies this
      ensures (View(), result) == Step(old(View()), event)
      ensures StepTold(old(View()), event, (View(), result))
    {
      StepPublished(View(), event);
      result := Dispatch(event);
    }

    method Dispatch(event: Event) returns (result: seq<Event>)
      modifies this
      ensures (View(), result) == Step(old(View()), event)
    {
      if event.name.ReasoningDelta? || event.name.ThinkingDelta? {
        var id := if event.messageId != NoId then event.messageId else ReasoningId(reasoningSegment);
        return [event.(messageId := id)];
      }
      if IsPreview(event) {
        pendingReasoning := pendingReasoning + [event];
        return [event.(deferred := true)];
      }
      match event.name {
        case MessageStarted =>
          if event.role == "assistant" {
            if event.startedId != NoId {
              activeId := event.startedId;
            } else {
              var id := MessageId();
              activeId := id;
            }
            return [event.(messageId := activeId)];
          }
          return [event];
        case MessageDelta | AssistantDelta =>
          if event.delta == "" {
            return [event];
          }
          var id := event.messageId;
          if id == NoId {
            id := MessageId();
          }
          activeId := id;
          segmentText := segmentText + event.delta;
          return [event.(messageId := id)];
        case MessageInterim | AssistantCommentary =>
          result := IngestInterim(event);
        case ToolStarted =>
          result := IngestToolStarted(event);
        case ToolCompleted | ToolFailed =>
          var toolEvent := ToolEvent(event);
          return [toolEvent];
        case AssistantCompleted =>
          var id := event.messageId;
          if id == NoId {
            id := MessageId();
          }
          activeId := id;
          if event.content.Some? {
            segmentText := event.content.value;
          }
          var reasoning := ReleaseReasoning(segmentText);
          return reasoning + [event.(messageId := id)];
        case RunCompleted =>
          result := IngestRunCompleted(event);
        case RunFailed | RunInterrupted | RunCancelled =>
          var reasoning := ReleaseReasoning("");
          return reasoning + [event];
        case _ =>
          return [event];
      }
    }
  }

  // ---------------------------------------------------------------------
  // Whole runs.

  function Run(st: State, events: seq<Event>): (State, seq<Event>) {
    if events == [] then (st, []) else
      var (before, published) := Run(st, events[..|events| - 1]);
      var (after, more) := Step(before, events[|events| - 1]);
      (after, published + more)
  }

  /** The published events as a transcript reader sees them: assistant messages by id. */
  datatype Message = Message(text: string, commentary: bool)

  type Transcript = map<Id, Message>

  function MessageOf(t: Transcript, id: Id): Message {
    if id in t then t[id] else Message("", false)
  }

  /** What one published event does to the assistant messages. */
  datatype Effect =
    | Unseen
    | Opens(id: Id)
    | Appends(id: Id, text: string)
    | Replaces(id: Id, text: string)
    | Marks(id: Id, commentary: bool)

  function EffectOf(event: Event): Effect {
    if event.deferred then Unseen else
      match event.name
      case MessageStarted =>
        if event.role != "assistant" then Unseen
        else Opens(if event.startedId != NoId then event.startedId else event.messageId)
      case MessageDelta => if event.delta == "" then Unseen else Appends(event.messageId, event.delta)
      case AssistantDelta => if event.delta == "" then Unseen else Appends(event.messageId, event.delta)
      case AssistantCompleted => Replaces(event.messageId, OrEmpty(event.content))
      case ReplyFinal => Replaces(event.messageId, OrEmpty(event.content))
      case ReplyInterimText => Replaces(event.messageId, OrEmpty(event.content))
      case MessageInterim => Marks(event.messageId, true)
      case AssistantCommentary => Marks(event.messageId, true)
      case ReplyPromote => if event.messageId == NoId then Unseen else Marks(event.messageId, false)
      case _ => Unseen
  }

  function Apply(t: Transcript, effect: Effect): Transcript {
    match effect
    case Unseen => t
    case Opens(id) => t[id := MessageOf(t, id)]
    case Appends(id, text) => t[id := MessageOf(t, id).(text := MessageOf(t, id).text + text)]
    case Replaces(id, text) => t[id := MessageOf(t, id).(text := text)]
    case Marks(id, commentary) => t[id := MessageOf(t, id).(commentary := commentary)]
  }

  function ShowAll(t: Transcript, events: seq<Event>): Transcript {
    if events == [] then t else Apply(ShowAll(t, events[..|events| - 1]), EffectOf(events[|events| - 1]))
  }

  lemma {:induction false} ShowAllAppend(t: Transcript, a: seq<Event>, b: seq<Event>)
    ensures ShowAll(t, a + b) == ShowAll(ShowAll(t, a), b)
  {
    if b == [] {
      assert a + b == a;
    } else {
      assert (a + b)[..|a + b| - 1] == a + b[..|b| - 1];
      ShowAllAppend(t, a, b[..|b| - 1]);
    }
  }

  lemma {:induction false} ShowSnoc(t: Transcript, events: seq<Event>, event: Event)
    ensures ShowAll(t, events + [event]) == Apply(ShowAll(t, events), EffectOf(event))
  {
    assert (events + [event])[..|events|] == events;
  }

  lemma {:induction false} ShowTwo(t: Transcript, a: Event, b: Event)
    ensures ShowAll(t, [a, b]) == Apply(Apply(t, EffectOf(a)), EffectOf(b))
  {
    assert [a, b] == [a] + [b];
    ShowSnoc(t, [a], b);
  }

  lemma {:induction false} VerifiedUnseen(event: Event, segment: nat)
    ensures EffectOf(Verified(event, segment)) == Unseen
  {
  }

  lemma {:induction false} UnseenLast(t: Transcript, events: seq<Event>, event: Event, segment: nat)
    ensures ShowAll(t, events + [Verified(event, segment)]) == ShowAll(t, events)
  {
    VerifiedUnseen(event, segment);
    ShowSnoc(t, events, Verified(event, segment));
  }

  lemma {:induction false} ReasoningInvisible(t: Transcript, pending: seq<Event>, n: nat, segment: nat,
      visibleText: string)
    requires n <= |pending|
    ensures ShowAll(t, ReleasedUpTo(pending, n, segment, visibleText)) == t
  {
    if n != 0 {
      ReasoningInvisible(t, pending, n - 1, segment, visibleText);
      UnseenLast(t, ReleasedUpTo(pending, n - 1, segment, visibleText), pending[n - 1], segment);
    }
  }

  /** Released previews change nothing in front of whatever is published with them. */
  lemma {:induction false} ShowAfterReasoning(t: Transcript, st: State, visibleText: string, events: seq<Event>)
    ensures ShowAll(t, Released(st.pendingReasoning, st.reasoningSegment, visibleText) + events) == ShowAll(t, events)
  {
    ShowAllAppend(t, Released(st.pendingReasoning, st.reasoningSegment, visibleText), events);
    ReasoningInvisible(t, st.pendingReasoning, |st.pendingReasoning|, st.reasoningSegment, visibleText);
  }

  /** A source event of a run that names no messages itself and states its texts. */
  predicate Plain(event: Event) {
    && event.messageId == NoId && event.startedId == NoId
    && event.derivedFrom == None && !event.deferred
    && !event.name.ReplyFinal? && !event.name.ReplyInterimText? && !event.name.ReplyPromote?
      && !event.name.ReasoningVerified?
    && (event.name.AssistantCompleted? ==> event.content.Some?)
  }

  /** How the assembler and the transcript agree while the run is going on. */
  predicate InStep(st: State, t: Transcript) {
    && (st.activeId == NoId || st.activeId == SegmentId(st.segment))
    && (forall id | id in t :: id.SegmentId? && id.segment <= st.segment)
    && (forall id | id in t && id.segment < st.segment :: t[id].commentary)
    && MessageOf(t, SegmentId(st.segment)) == Message(st.segmentText, false)
    && (st.lastInterim.Some? ==> InterimShown(st, t, st.lastInterim.value))
  }

  predicate InterimShown(st: State, t: Transcript, interim: Interim) {
    && interim.id.SegmentId? && interim.id.segment < st.segment
    && interim.id in t && t[interim.id] == Message(interim.text, true)
  }

  /** The open segment is rewritten in the transcript and in the assembler alike. */
  lemma {:induction false} WriteSegment(st: State, t: Transcript, st': State, shown: string)
    requires InStep(st, t)
    requires st'.segment == st.segment && st'.activeId == SegmentId(st.segment)
    requires st'.segmentText == shown && st'.lastInterim == st.lastInterim
    ensures InStep(st', t[SegmentId(st.segment) := Message(shown, false)])
  {
  }

  /** The open segment is closed as commentary. */
  lemma {:induction false} CloseSegment(st: State, t: Transcript, st': State, shown: string)
    requires InStep(st, t)
    requires st'.segment == st.segment + 1 && st'.activeId == NoId && st'.segmentText == ""
    requires st'.lastInterim == Some(Interim(SegmentId(st.segment), shown))
    ensures InStep(st', t[SegmentId(st.segment) := Message(shown, true)])
  {
  }

  lemma {:induction false} BoundaryEffect(event: Event, id: Id)
    requires (event.name.MessageInterim? || event.name.AssistantCommentary?) && !event.deferred
    ensures EffectOf(event.(messageId := id)) == Marks(id, true)
  {
  }

  lemma {:induction false} NoteEffect(id: Id, from: Name, text: string)
    ensures EffectOf(Derived(ReplyInterimText, id, from).(content := Some(text))) == Replaces(id, text)
  {
  }

  lemma {:induction false} ReplaceAndMark(st: State, t: Transcript, text: string)
    requires InStep(st, t)
    ensures var id := SegmentId(st.segment);
      && Apply(Apply(t, Replaces(id, text)), Marks(id, true)) == t[id := Message(text, true)]
      && Apply(t, Marks(id, true)) == t[id := Message(st.segmentText, true)]
  {
  }

  /** Only a text that was not streamed already is published in front of the boundary. */
  lemma {:induction false} InterimShows(st: State, t: Transcript, event: Event)
    requires InStep(st, t) && Plain(event) && (event.name.MessageInterim? || event.name.AssistantCommentary?)
    ensures ShowAll(t, StepInterim(st, event).1)
      == t[SegmentId(st.segment) := Message(StepInterim(st, event).0.lastInterim.value.text, true)]
  {
    var id := SegmentId(st.segment);
    var value := if event.text.Some? then event.text.value else OrEmpty(event.content);
    var boundary := event.(messageId := id);
    BoundaryEffect(event, id);
    ReplaceAndMark(st, t, value);
    if value != "" && value != st.segmentText {
      var note := Derived(ReplyInterimText, id, event.name).(content := Some(value));
      NoteEffect(id, event.name, value);
      ShowAfterReasoning(t, st, value, [note, boundary]);
      ShowTwo(t, note, boundary);
    } else {
      ShowAfterReasoning(t, st, if value != "" then value else st.segmentText, [boundary]);
    }
  }

  lemma {:induction false} InterimInStep(st: State, t: Transcript, event: Event)
    requires InStep(st, t) && Plain(event) && (event.name.MessageInterim? || event.name.AssistantCommentary?)
    ensures var (st', events) := StepInterim(st, event); InStep(st', ShowAll(t, events))
  {
    InterimShows(st, t, event);
    var st' := StepInterim(st, event).0;
    CloseSegment(st, t, st', st'.lastInterim.value.text);
  }

  lemma {:induction false} ToolUnseen(st: State, event: Event)
    requires event.name.ToolStarted?
    ensures EffectOf(StartTool(st, event).1) == Unseen
  {
  }

  lemma {:induction false} ToolStartedInStep(st: State, t: Transcript, event: Event)
    requires InStep(st, t) && Plain(event) && event.name.ToolStarted?
    ensures var (st', events) := StepToolStarted(st, event); InStep(st', ShowAll(t, events))
  {
    var toolEvent := StartTool(st, event).1;
    ToolUnseen(st, event);
    if st.segmentText == "" {
      ShowAfterReasoning(t, st, st.segmentText, [toolEvent]);
    } else {
      var id := SegmentId(st.segment);
      var boundary := Derived(MessageInterim, id, ToolStarted).(text := Some(st.segmentText));
      assert EffectOf(boundary) == Marks(id, true);
      ShowAfterReasoning(t, st, st.segmentText, [boundary, toolEvent]);
      ShowTwo(t, boundary, toolEvent);
      CloseSegment(st, t, StepToolStarted(st, event).0, st.segmentText);
    }
  }

  lemma {:induction false} DeltaInStep(st: State, t: Transcript, event: Event)
    requires InStep(st, t) && Plain(event) && (event.name.MessageDelta? || event.name.AssistantDelta?)
    ensures var (st', events) := StepDelta(st, event); InStep(st', ShowAll(t, events))
  {
    var (st', events) := StepDelta(st, event);
    assert events == [events[0]];
    if event.delta != "" {
      assert EffectOf(events[0]) == Appends(SegmentId(st.segment), event.delta);
      WriteSegment(st, t, st', st.segmentText + event.delta);
    }
  }

  lemma {:induction false} AssistantCompletedInStep(st: State, t: Transcript, event: Event)
    requires InStep(st, t) && Plain(event) && event.name.AssistantCompleted?
    ensures var (st', events) := StepAssistantCompleted(st, event); InStep(st', ShowAll(t, events))
  {
    var id := SegmentId(st.segment);
    var shown := event.(messageId := id);
    assert EffectOf(shown) == Replaces(id, event.content.value);
    ShowAfterReasoning(t, st, event.content.value, [shown]);
    WriteSegment(st, t, StepAssistantCompleted(st, event).0, event.content.value);
  }

  /** A completed message without content empties the shown text but not the assembler's. */
  lemma {:induction false} MissingContent(st: State, t: Transcript, event: Event)
    requires InStep(st, t) && event.name.AssistantCompleted? && event.messageId == NoId
    requires !event.deferred && event.content == None
    ensures var (st', events) := StepAssistantCompleted(st, event);
      && (InStep(st', ShowAll(t, events)) <==> st.segmentText == "")
      && MessageOf(ShowAll(t, events), SegmentId(st.segment)) == Message("", false)
      && st'.segmentText == st.segmentText
  {
    var id := SegmentId(st.segment);
    var shown := event.(messageId := id);
    assert EffectOf(shown) == Replaces(id, "");
    ShowAfterReasoning(t, st, st.segmentText, [shown]);
    if st.segmentText == "" {
      WriteSegment(st, t, StepAssistantCompleted(st, event).0, "");
    }
  }

  lemma {:induction false} ShownNext(events: seq<Event>, event: Event)
    ensures var (before, published) := Run(START, events);
      && Run(START, events + [event]).0 == Step(before, event).0
      && ShowAll(map[], Run(START, events + [event]).1) == ShowAll(ShowAll(map[], published), Step(before, event).1)
  {
    assert (events + [event])[..|events|] == events;
    ShowAllAppend(map[], Run(START, events).1, Step(Run(START, events).0, event).1);
  }

  lemma {:induction false} ShownFirst(event: Event)
    ensures Run(START, [event]).0 == Step(START, event).0
    ensures ShowAll(map[], Run(START, [event]).1) == ShowAll(map[], Step(START, event).1)
  {
    var none: seq<Event> := [];
    ShownNext(none, event);
    assert none + [event] == [event];
  }

  lemma {:induction false} ShowOne(t: Transcript, event: Event)
    ensures ShowAll(t, [event]) == Apply(t, EffectOf(event))
  {
  }

  lemma {:induction false} DeltaEffect(delta: Event, id: Id)
    requires delta.name.MessageDelta? && delta.delta != "" && !delta.deferred
    ensures EffectOf(delta.(messageId := id)) == Appends(id, delta.delta)
  {
  }

  lemma {:induction false} CompletedEffect(completed: Event, id: Id)
    requires completed.name.AssistantCompleted? && !completed.deferred
    ensures EffectOf(completed.(messageId := id)) == Replaces(id, OrEmpty(completed.content))
  {
  }

  lemma {:induction false} FirstDelta(delta: Event)
    requires Plain(delta) && delta.name.MessageDelta? && delta.delta != ""
    ensures StepDelta(START, delta)
      == (START.(activeId := SegmentId(0), segmentText := delta.delta), [delta.(messageId := SegmentId(0))])
  {
    assert "" + delta.delta == delta.delta;
  }

  lemma {:induction false} FirstDeltaShows(delta: Event)
    requires Plain(delta) && delta.name.MessageDelta? && delta.delta != ""
    ensures ShowAll(map[], StepDelta(START, delta).1) == map[SegmentId(0) := Message(delta.delta, false)]
  {
    FirstDelta(delta);
    ShowOne(map[], delta.(messageId := SegmentId(0)));
    DeltaEffect(delta, SegmentId(0));
    assert "" + delta.delta == delta.delta;
  }

  lemma {:induction false} CompletedShowsNothing(st: State, t: Transcript, completed: Event)
    requires completed.name.AssistantCompleted? && completed.messageId == NoId && !completed.deferred
      && completed.content == None
    requires st.activeId == SegmentId(st.segment) && t == map[SegmentId(st.segment) := Message(st.segmentText, false)]
    ensures StepAssistantCompleted(st, completed).0 == AfterRelease(st)
    ensures ShowAll(t, StepAssistantCompleted(st, completed).1) == map[SegmentId(st.segment) := Message("", false)]
  {
    var id := SegmentId(st.segment);
    ShowAfterReasoning(t, st, st.segmentText, [completed.(messageId := id)]);
    ShowOne(t, completed.(messageId := id));
    CompletedEffect(completed, id);
  }

  lemma {:induction false} ToolMarks(st: State, t: Transcript, tool: Event)
    requires Plain(tool) && tool.name.ToolStarted? && st.segmentText != "" && st.activeId == SegmentId(st.segment)
    requires t == map[SegmentId(st.segment) := Message("", false)]
    ensures var after := StepToolStarted(st, tool).0;
      after.segmentText == "" && after.lastInterim == Some(Interim(SegmentId(st.segment), st.segmentText))
    ensures ShowAll(t, StepToolStarted(st, tool).1) == map[SegmentId(st.segment) := Message("", true)]
  {
    var id, toolEvent := SegmentId(st.segment), StartTool(st, tool).1;
    var boundary := Derived(MessageInterim, id, ToolStarted).(text := Some(st.segmentText));
    ToolUnseen(st, tool);
    ShowAfterReasoning(t, st, st.segmentText, [boundary, toolEvent]);
    ShowTwo(t, boundary, toolEvent);
  }

  lemma {:induction false} DeltaStep(st: State, event: Event)
    requires event.name.MessageDelta?
    ensures Step(st, event) == StepDelta(st, event)
  {
  }

  lemma {:induction false} AssistantCompletedStep(st: State, event: Event)
    requires event.name.AssistantCompleted?
    ensures Step(st, event) == StepAssistantCompleted(st, event)
  {
  }

  lemma {:induction false} ToolStartedStep(st: State, event: Event)
    requires event.name.ToolStarted?
    ensures Step(st, event) == StepToolStarted(st, event)
  {
  }

  /**
   * What a reader sees of it: a streamed reply, completed without content, and then a
   * tool. When the run's output repeats that reply, an empty message becomes the final one.
   */
  lemma {:induction false} EmptyReplyPromoted(delta: Event, completed: Event, tool: Event, done: Event)
    requires Plain(delta) && delta.name.MessageDelta? && delta.delta != ""
    requires completed.name.AssistantCompleted? && completed.messageId == NoId && !completed.deferred
      && completed.content == None
    requires Plain(tool) && tool.name.ToolStarted?
    requires done.name.RunCompleted? && done.output == delta.delta
    ensures var shown := ShowAll(map[], Run(START, [delta] + [completed] + [tool] + [done]).1);
      shown == map[SegmentId(0) := Message("", false)] && !ShowsOnly(shown, done.output)
  {
    var s1 := StepDelta(START, delta).0;
    var s2 := StepAssistantCompleted(s1, completed).0;
    ShownFirst(delta);
    DeltaStep(START, delta);
    FirstDelta(delta);
    FirstDeltaShows(delta);
    ShownNext([delta], completed);
    AssistantCompletedStep(s1, completed);
    CompletedShowsNothing(s1, map[SegmentId(0) := Message(delta.delta, false)], completed);
    ShownNext([delta] + [completed], tool);
    ToolStartedStep(s2, tool);
    ToolMarks(s2, map[SegmentId(0) := Message("", false)], tool);
    ShownNext([delta] + [completed] + [tool], done);
    PromotesEmpty(StepToolStarted(s2, tool).0, done);
  }

  lemma {:induction false} PromotesEmpty(st: State, done: Event)
    requires done.name.RunCompleted? && done.output != "" && st.segmentText == ""
    requires st.lastInterim == Some(Interim(SegmentId(0), done.output))
    ensures ShowAll(map[SegmentId(0) := Message("", true)], Step(st, done).1) == map[SegmentId(0) := Message("", false)]
  {
    CompletionEffect(st, map[SegmentId(0) := Message("", true)], done);
  }

  lemma {:induction false} StartedInStep(st: State, t: Transcript, event: Event)
    requires InStep(st, t) && Plain(event) && event.name.MessageStarted?
    ensures var (st', events) := Step(st, event); InStep(st', ShowAll(t, events))
  {
    var (st', events) := Step(st, event);
    assert events == [events[0]];
    if event.role == "assistant" {
      assert EffectOf(events[0]) == Opens(SegmentId(st.segment));
      WriteSegment(st, t, st', st.segmentText);
    }
  }

  predicate IsFailure(name: Name) {
    name.RunFailed? || name.RunInterrupted? || name.RunCancelled?
  }

  lemma {:induction false} FailureInStep(st: State, t: Transcript, event: Event)
    requires InStep(st, t) && IsFailure(event.name)
    ensures var (st', events) := StepFailure(st, event); InStep(st', ShowAll(t, events))
  {
    assert EffectOf(event) == Unseen;
    ShowAfterReasoning(t, st, "", [event]);
  }

  predicate IsQuiet(event: Event) {
    || event.name.ReasoningDelta? || event.name.ThinkingDelta? || event.name.ReasoningAvailable?
    || event.name.ToolProgress? || event.name.ToolCompleted? || event.name.ToolFailed? || event.name.OtherEvent?
  }

  lemma {:induction false} QuietStep(st: State, event: Event)
    requires IsQuiet(event)
    ensures var (st', events) := Step(st, event);
      && |events| == 1 && EffectOf(events[0]) == Unseen
      && st'.segment == st.segment && st'.activeId == st.activeId && st'.segmentText == st.segmentText
      && st'.lastInterim == st.lastInterim
  {
  }

  lemma {:induction false} QuietInStep(st: State, t: Transcript, event: Event)
    requires InStep(st, t) && IsQuiet(event)
    ensures var (st', events) := Step(st, event); InStep(st', ShowAll(t, events))
  {
    var (st', events) := Step(st, event);
    QuietStep(st, event);
    assert events == [events[0]];
  }

  lemma {:induction false} StepInStep(st: State, t: Transcript, event: Event)
    requires InStep(st, t) && Plain(event) && !event.name.RunCompleted?
    ensures var (st', events) := Step(st, event); InStep(st', ShowAll(t, events))
  {
    if IsQuiet(event) {
      QuietInStep(st, t, event);
    } else if event.name.MessageStarted? {
      StartedInStep(st, t, event);
    } else if event.name.MessageDelta? || event.name.AssistantDelta? {
      DeltaInStep(st, t, event);
    } else if event.name.MessageInterim? || event.name.AssistantCommentary? {
      InterimInStep(st, t, event);
    } else if event.name.ToolStarted? {
      ToolStartedInStep(st, t, event);
    } else if event.name.AssistantCompleted? {
      AssistantCompletedInStep(st, t, event);
    } else {
      FailureInStep(st, t, event);
    }
  }

  lemma {:induction false} RunInStep(events: seq<Event>)
    requires forall k | 0 <= k < |events| :: Plain(events[k]) && !events[k].name.RunCompleted?
    ensures var (st, published) := Run(START, events); InStep(st, ShowAll(map[], published))
  {
    if events != [] {
      var front, last := events[..|events| - 1], events[|events| - 1];
      RunInStep(front);
      var (before, published) := Run(START, front);
      StepInStep(before, ShowAll(map[], published), last);
      ShowAllAppend(map[], published, Step(before, last).1);
    }
  }

  /** The transcript shows `output` as its only final text. */
  ghost predicate ShowsOnly(t: Transcript, output: string) {
    exists id | id in t :: IsOnlyReply(t, id, output)
  }

  predicate IsOnlyReply(t: Transcript, id: Id, output: string) {
    && id in t && t[id] == Message(output, false)
    && forall other | other in t && other != id :: t[other].commentary || t[other].text == ""
  }

  /** What a completion with output adds in front of itself. */
  function ReplyNote(st: State, output: string): Event {
    if st.segmentText == "" && st.lastInterim.Some? && st.lastInterim.value.text == output
    then Derived(ReplyPromote, st.lastInterim.value.id, RunCompleted)
    else Derived(ReplyFinal, ActiveMessage(st), RunCompleted).(content := Some(output))
  }

  lemma {:induction false} RunCompletedStep(st: State, event: Event)
    requires event.name.RunCompleted?
    ensures Step(st, event) == StepRunCompleted(st, event)
  {
  }

  lemma {:induction false} NoteThenEvent(st: State, event: Event)
    requires event.name.RunCompleted? && event.output != ""
    ensures Step(st, event).1
      == Released(st.pendingReasoning, st.reasoningSegment, event.output) + [ReplyNote(st, event.output), event]
  {
    RunCompletedStep(st, event);
  }

  lemma {:induction false} CompletionEffect(st: State, t: Transcript, event: Event)
    requires event.name.RunCompleted? && event.output != ""
    ensures ShowAll(t, Step(st, event).1) == Apply(t, EffectOf(ReplyNote(st, event.output)))
  {
    var note := ReplyNote(st, event.output);
    assert EffectOf(event).Unseen?;
    NoteThenEvent(st, event);
    ShowAfterReasoning(t, st, event.output, [note, event]);
    ShowTwo(t, note, event);
  }

  /** The message that takes the final reply: the last interim when it is repeated, or the open segment. */
  lemma {:induction false} ReplyMessage(st: State, t: Transcript, output: string) returns (id: Id)
    requires InStep(st, t)
    ensures Apply(t, EffectOf(ReplyNote(st, output))) == t[id := Message(output, false)]
    ensures (id.SegmentId? && id.segment < st.segment && st.segmentText == "") || id == SegmentId(st.segment)
  {
    if st.segmentText == "" && st.lastInterim.Some? && st.lastInterim.value.text == output {
      id := st.lastInterim.value.id;
      assert EffectOf(ReplyNote(st, output)) == Marks(id, false);
    } else {
      id := SegmentId(st.segment);
      assert EffectOf(ReplyNote(st, output)) == Replaces(id, output);
    }
  }

  lemma {:induction false} OnlyReply(st: State, t: Transcript, id: Id, output: string)
    requires InStep(st, t)
    requires (id.SegmentId? && id.segment < st.segment && st.segmentText == "") || id == SegmentId(st.segment)
    ensures IsOnlyReply(t[id := Message(output, false)], id, output)
  {
  }

  lemma {:induction false} CompletionShows(st: State, t: Transcript, event: Event)
    requires InStep(st, t) && event.name.RunCompleted? && event.output != ""
    ensures ShowsOnly(ShowAll(t, Step(st, event).1), event.output)
  {
    CompletionEffect(st, t, event);
    var id := ReplyMessage(st, t, event.output);
    OnlyReply(st, t, id, event.output);
  }

  /**
   * A run that ends with its only completion, with some output, leaves exactly one
   * final message with text, and its text is that output.
   */
  lemma {:induction false} TranscriptCorrect(events: seq<Event>, completed: Event)
    requires forall k | 0 <= k < |events| :: Plain(events[k]) && !events[k].name.RunCompleted?
    requires Plain(completed) && completed.name.RunCompleted? && completed.output != ""
    ensures ShowsOnly(ShowAll(map[], Run(START, events + [completed]).1), completed.output)
  {
    var (st, published) := Run(START, events);
    RunInStep(events);
    assert (events + [completed])[..|events|] == events;
    CompletionShows(st, ShowAll(map[], published), completed);
    ShowAllAppend(map[], published, Step(st, completed).1);
  }

  lemma {:induction false} SameNote(st: State, event: Event)
    requires event.name.RunCompleted? && event.output != ""
    ensures ReplyNote(Step(st, event).0, event.output) == ReplyNote(st, event.output)
  {
    RunCompletedStep(st, event);
    var after := StepRunCompleted(st, event).0;
    assert ActiveMessage(after) == ActiveMessage(st) && after.segmentText == st.segmentText
      && after.lastInterim == st.lastInterim;
  }

  lemma {:induction false} ReplyTwice(t: Transcript, st: State, output: string)
    ensures var effect := EffectOf(ReplyNote(st, output)); Apply(Apply(t, effect), effect) == Apply(t, effect)
  {
    var effect := EffectOf(ReplyNote(st, output));
    assert effect.Unseen? || effect.Marks? || effect.Replaces?;
  }

  /** A repeated completion publishes nothing that changes the transcript. */
  lemma {:induction false} RepeatedCompletion(st: State, t: Transcript, event: Event)
    requires event.name.RunCompleted?
    ensures var (once, events) := Step(st, event);
      var shown := ShowAll(t, events);
      ShowAll(shown, Step(once, event).1) == shown
  {
    var (once, events) := Step(st, event);
    var shown := ShowAll(t, events);
    if event.output == "" {
      assert EffectOf(event) == Unseen;
      ShowAfterReasoning(shown, once, event.output, [event]);
    } else {
      CompletionEffect(st, t, event);
      CompletionEffect(once, shown, event);
      SameNote(st, event);
      ReplyTwice(t, st, event.output);
    }
  }

  // ---------------------------------------------------------------------
  // Nothing of the source is lost.

  /** A source event without the ids that the assembler may attach. */
  function Core(event: Event): Event {
    event.(messageId := NoId, toolCallId := NoId, deferred := false)
  }

  function Erased(events: seq<Event>): seq<Event> {
    if events == [] then []
    else if events[|events| - 1].derivedFrom.Some? then Erased(events[..|events| - 1])
    else Erased(events[..|events| - 1]) + [Core(events[|events| - 1])]
  }

  function Cores(events: seq<Event>): seq<Event> {
    if events == [] then [] else Cores(events[..|events| - 1]) + [Core(events[|events| - 1])]
  }

  lemma {:induction false} ErasedAppend(a: seq<Event>, b: seq<Event>)
    ensures Erased(a + b) == Erased(a) + Erased(b)
  {
    if b == [] {
      assert a + b == a;
    } else {
      assert (a + b)[..|a + b| - 1] == a + b[..|b| - 1];
      ErasedAppend(a, b[..|b| - 1]);
    }
  }

  lemma {:induction false} DerivedLast(events: seq<Event>, last: Event)
    requires last.derivedFrom.Some? && AllErased(events)
    ensures AllErased(events + [last])
  {
    assert (events + [last])[..|events|] == events;
  }

  lemma {:induction false} ReasoningErased(pending: seq<Event>, n: nat, segment: nat, visibleText: string)
    requires n <= |pending|
    ensures AllErased(ReleasedUpTo(pending, n, segment, visibleText))
  {
    if n != 0 {
      ReasoningErased(pending, n - 1, segment, visibleText);
      ReleasedNext(pending, n, segment, visibleText);
      DerivedLast(ReleasedUpTo(pending, n - 1, segment, visibleText), Verified(pending[n - 1], segment));
    }
  }

  predicate AllErased(events: seq<Event>) {
    Erased(events) == []
  }

  lemma {:induction false} ReleasedNext(pending: seq<Event>, n: nat, segment: nat, visibleText: string)
    requires 0 < n <= |pending|
    ensures ReleasedUpTo(pending, n, segment, visibleText) == ReleasedUpTo(pending, n - 1, segment, visibleText)
      || ReleasedUpTo(pending, n, segment, visibleText)
         == ReleasedUpTo(pending, n - 1, segment, visibleText) + [Verified(pending[n - 1], segment)]
  {
  }

  lemma {:induction false} ErasedOne(event: Event)
    ensures Erased([event]) == if event.derivedFrom.Some? then [] else [Core(event)]
  {
    assert [event][..0] == [];
  }

  /** Behind released previews stands at most one derived event and then the source event itself. */
  lemma {:induction false} ErasedTail(st: State, visibleText: string, note: seq<Event>, event: Event)
    requires |note| <= 1 && (forall e | e in note :: e.derivedFrom.Some?) && event.derivedFrom == None
    ensures Erased(Released(st.pendingReasoning, st.reasoningSegment, visibleText) + (note + [event])) == [Core(event)]
  {
    ReasoningErased(st.pendingReasoning, |st.pendingReasoning|, st.reasoningSegment, visibleText);
    ErasedAppend(Released(st.pendingReasoning, st.reasoningSegment, visibleText), note + [event]);
    ErasedNote(note, event);
  }

  lemma {:induction false} ErasedNote(note: seq<Event>, event: Event)
    requires |note| <= 1 && (forall e | e in note :: e.derivedFrom.Some?) && event.derivedFrom == None
    ensures Erased(note + [event]) == [Core(event)]
  {
    ErasedAppend(note, [event]);
    ErasedOne(event);
    if note != [] {
      ErasedOne(note[0]);
      assert note == [note[0]];
    }
  }

  lemma {:induction false} InterimErased(st: State, event: Event)
    requires event.derivedFrom == None
    ensures Erased(StepInterim(st, event).1) == [Core(event)]
  {
    var id := ActiveMessage(st);
    var value := if event.text.Some? then event.text.value else OrEmpty(event.content);
    var shown := if value != "" then value else st.segmentText;
    var boundary := event.(messageId := id);
    if value != "" && value != st.segmentText {
      var note := Derived(ReplyInterimText, id, event.name).(content := Some(value));
      ErasedTail(st, shown, [note], boundary);
      assert [note] + [boundary] == [note, boundary];
    } else {
      ErasedTail(st, shown, [], boundary);
      assert [] + [boundary] == [boundary];
    }
  }

  lemma {:induction false} ToolStartedErased(st: State, event: Event)
    requires event.derivedFrom == None
    ensures Erased(StepToolStarted(st, event).1) == [Core(event)]
  {
    var toolEvent := StartTool(st, event).1;
    if st.segmentText == "" {
      ErasedTail(st, st.segmentText, [], toolEvent);
      assert [] + [toolEvent] == [toolEvent];
    } else {
      var note := Derived(MessageInterim, ActiveMessage(st), ToolStarted).(text := Some(st.segmentText));
      ErasedTail(st, st.segmentText, [note], toolEvent);
      assert [note] + [toolEvent] == [note, toolEvent];
    }
  }

  lemma {:induction false} AssistantCompletedErased(st: State, event: Event)
    requires event.derivedFrom == None
    ensures Erased(StepAssistantCompleted(st, event).1) == [Core(event)]
  {
    var shown := event.(messageId := if event.messageId != NoId then event.messageId else ActiveMessage(st));
    ErasedTail(st, if event.content.Some? then event.content.value else st.segmentText, [], shown);
    assert [] + [shown] == [shown];
  }

  lemma {:induction false} RunCompletedErased(st: State, event: Event)
    requires event.derivedFrom == None
    ensures Erased(StepRunCompleted(st, event).1) == [Core(event)]
  {
    if event.output == "" {
      ErasedTail(st, event.output, [], event);
      assert [] + [event] == [event];
    } else {
      var note := ReplyNote(st, event.output);
      ErasedTail(st, event.output, [note], event);
      assert [note] + [event] == [note, event];
    }
  }

  /** Events that publish only themselves. */
  predicate IsSingle(event: Event) {
    IsQuiet(event) || event.name.MessageStarted? || event.name.MessageDelta? || event.name.AssistantDelta?
    || event.name.ReplyFinal? || event.name.ReplyInterimText? || event.name.ReplyPromote?
      || event.name.ReasoningVerified?
  }

  lemma {:induction false} SingleCore(st: State, event: Event)
    requires event.derivedFrom == None && IsSingle(event)
    ensures var events := Step(st, event).1;
      |events| == 1 && events[0].derivedFrom == None && Core(events[0]) == Core(event)
  {
    if IsToolEnd(event.name) {
      assert Step(st, event).1 == [EndTool(st, event).1];
    }
  }

  lemma {:induction false} SingleErased(st: State, event: Event)
    requires event.derivedFrom == None && IsSingle(event)
    ensures Erased(Step(st, event).1) == [Core(event)]
  {
    var events := Step(st, event).1;
    SingleCore(st, event);
    assert events == [events[0]];
    ErasedOne(events[0]);
  }

  lemma {:induction false} StepErased(st: State, event: Event)
    requires event.derivedFrom == None
    ensures Erased(Step(st, event).1) == [Core(event)]
  {
    if IsSingle(event) {
      SingleErased(st, event);
    } else if event.name.MessageInterim? || event.name.AssistantCommentary? {
      InterimErased(st, event);
    } else if event.name.ToolStarted? {
      ToolStartedErased(st, event);
    } else if event.name.AssistantCompleted? {
      AssistantCompletedErased(st, event);
    } else if event.name.RunCompleted? {
      RunCompletedErased(st, event);
    } else {
      ErasedTail(st, "", [], event);
      assert [] + [event] == [event];
    }
  }

  /** Without the derived events, the published events are the source events in order. */
  lemma {:induction false} RunErased(st: State, events: seq<Event>)
    requires forall k | 0 <= k < |events| :: events[k].derivedFrom == None
    ensures Erased(Run(st, events).1) == Cores(events)
  {
    if events != [] {
      var front, last := events[..|events| - 1], events[|events| - 1];
      RunErased(st, front);
      var (before, published) := Run(st, front);
      StepErased(before, last);
      ErasedAppend(published, Step(before, last).1);
    }
  }

  /** Every pending preview is released, unless it repeats the visible text. */
  lemma {:induction false} ReleasedOrRepeated(pending: seq<Event>, n: nat, segment: nat, visibleText: string, k: nat)
    requires k < n <= |pending|
    ensures RepeatsVisible(PreviewOf(pending[k]), visibleText)
      || Verified(pending[k], segment) in ReleasedUpTo(pending, n, segment, visibleText)
  {
    var before := ReleasedUpTo(pending, n - 1, segment, visibleText);
    if k < n - 1 {
      ReleasedOrRepeated(pending, n - 1, segment, visibleText, k);
      InPrefix(before, ReleasedUpTo(pending, n, segment, visibleText), Verified(pending[k], segment));
    } else if !RepeatsVisible(PreviewOf(pending[k]), visibleText) {
      assert ReleasedUpTo(pending, n, segment, visibleText)[|before|] == Verified(pending[k], segment);
    }
  }

  /** What a terminal event publishes starts with the previews it releases, and none is left. */
  lemma {:induction false} TerminalReleases(st: State, event: Event)
    requires event.name.RunCompleted? || IsFailure(event.name)
    ensures var visibleText := if event.name.RunCompleted? then event.output else "";
      && Released(st.pendingReasoning, st.reasoningSegment, visibleText) <= Step(st, event).1
      && Step(st, event).0.pendingReasoning == []
  {
  }

  /** After a terminal event no preview waits, and each earlier one was released or repeated the output. */
  lemma {:induction false} NothingPends(st: State, event: Event, k: nat)
    requires (event.name.RunCompleted? || IsFailure(event.name)) && k < |st.pendingReasoning|
    ensures Step(st, event).0.pendingReasoning == []
    ensures RepeatsVisible(PreviewOf(st.pendingReasoning[k]), if event.name.RunCompleted? then event.output else "")
      || Verified(st.pendingReasoning[k], st.reasoningSegment) in Step(st, event).1
  {
    var visibleText := if event.name.RunCompleted? then event.output else "";
    TerminalReleases(st, event);
    ReleasedOrRepeated(st.pendingReasoning, |st.pendingReasoning|, st.reasoningSegment, visibleText, k);
    InPrefix(Released(st.pendingReasoning, st.reasoningSegment, visibleText), Step(st, event).1,
      Verified(st.pendingReasoning[k], st.reasoningSegment));
  }

  lemma {:induction false} InPrefix<T>(front: seq<T>, all: seq<T>, x: T)
    requires front <= all
    ensures x in front ==> x in all
  {
  }

  // ---------------------------------------------------------------------
  // Tools.

  predicate IsToolEnd(name: Name) {
    name.ToolCompleted? || name.ToolFailed?
  }

  /** The id of a published start of a tool. */
  function StartOf(tool: string): Event -> seq<Id> {
    (e: Event) => if e.name.ToolStarted? && ToolOf(e) == tool then [e.toolCallId] else []
  }

  /** The id of a published end of a tool, when it ends a start. */
  function EndOf(tool: string): Event -> seq<Id> {
    (e: Event) => if IsToolEnd(e.name) && ToolOf(e) == tool && e.toolCallId.ToolId? then [e.toolCallId] else []
  }

  /** The ids of the open starts of a tool, oldest first. */
  function OpenIds(tools: seq<ActiveTool>, tool: string): seq<Id> {
    if tools == [] then []
    else if tools[0].name == tool then [tools[0].id] + OpenIds(tools[1..], tool)
    else OpenIds(tools[1..], tool)
  }

  /** The number of an id that was minted for the event. */
  function MintedBy(): Event -> seq<nat> {
    (e: Event) =>
      if e.name.ToolStarted? && e.toolCallId.ToolId? then [e.toolCallId.sequence]
      else if IsToolEnd(e.name) && e.toolCallId.OrphanToolId? then [e.toolCallId.sequence]
      else []
  }

  ghost predicate OnlyOfTools<R>(f: Event -> seq<R>) {
    forall e: Event :: !e.name.ToolStarted? && !IsToolEnd(e.name) ==> f(e) == []
  }

  function ToolPart<R>(st: State, event: Event, f: Event -> seq<R>): seq<R> {
    if event.name.ToolStarted? then f(StartTool(st, event).1)
    else if IsToolEnd(event.name) then f(EndTool(st, event).1)
    else []
  }

  lemma {:induction false} NoToolsReleased<R>(f: Event -> seq<R>, st: State, visibleText: string, events: seq<Event>)
    requires OnlyOfTools(f)
    ensures FlatMap(f, Released(st.pendingReasoning, st.reasoningSegment, visibleText) + events) == FlatMap(f, events)
  {
    NoToolsIn(f, st.pendingReasoning, |st.pendingReasoning|, st.reasoningSegment, visibleText);
    FlatMapAppend(f, Released(st.pendingReasoning, st.reasoningSegment, visibleText), events);
    assert [] + FlatMap(f, events) == FlatMap(f, events);
  }

  predicate GivesNothing<R(==)>(f: Event -> seq<R>, events: seq<Event>) {
    FlatMap(f, events) == []
  }

  lemma {:induction false} NoToolLast<R>(f: Event -> seq<R>, events: seq<Event>, event: Event, segment: nat)
    requires OnlyOfTools(f) && GivesNothing(f, events)
    ensures GivesNothing(f, events + [Verified(event, segment)])
  {
    var released := Verified(event, segment);
    assert released.name.ReasoningVerified?;
    assert f(released) == [];
    FlatMapSnoc(f, events, released);
  }

  lemma {:induction false} NoToolsIn<R>(f: Event -> seq<R>, pending: seq<Event>, n: nat, segment: nat,
      visibleText: string)
    requires OnlyOfTools(f) && n <= |pending|
    ensures GivesNothing(f, ReleasedUpTo(pending, n, segment, visibleText))
  {
    if n != 0 {
      NoToolsIn(f, pending, n - 1, segment, visibleText);
      ReleasedNext(pending, n, segment, visibleText);
      NoToolNext(f, ReleasedUpTo(pending, n - 1, segment, visibleText), ReleasedUpTo(pending, n, segment, visibleText),
                 pending[n - 1], segment);
    }
  }

  lemma {:induction false} NoToolNext<R>(f: Event -> seq<R>, events: seq<Event>, more: seq<Event>, event: Event,
      segment: nat)
    requires OnlyOfTools(f) && GivesNothing(f, events)
    requires more == events || more == events + [Verified(event, segment)]
    ensures GivesNothing(f, more)
  {
    NoToolLast(f, events, event, segment);
  }

  lemma {:induction false} TwoImages<T, R>(f: T -> seq<R>, a: T, b: T)
    ensures FlatMap(f, [a, b]) == f(a) + f(b)
  {
    assert [a, b] == [a] + [b];
    FlatMapOne(f, a);
    FlatMapSnoc(f, [a], b);
  }

  lemma {:induction false} ToolStartedPart<R>(st: State, event: Event, f: Event -> seq<R>)
    requires OnlyOfTools(f) && event.name.ToolStarted?
    ensures FlatMap(f, StepToolStarted(st, event).1) == f(StartTool(st, event).1)
  {
    var toolEvent := StartTool(st, event).1;
    if st.segmentText == "" {
      NoToolsReleased(f, st, st.segmentText, [toolEvent]);
      FlatMapOne(f, toolEvent);
    } else {
      var boundary := Derived(MessageInterim, ActiveMessage(st), ToolStarted).(text := Some(st.segmentText));
      NoToolsReleased(f, st, st.segmentText, [boundary, toolEvent]);
      TwoImages(f, boundary, toolEvent);
    }
  }

  predicate OfTools(name: Name) {
    name.ToolStarted? || IsToolEnd(name)
  }

  lemma {:induction false} ReasoningPart<R>(st: State, visibleText: string, event: Event, f: Event -> seq<R>)
    requires OnlyOfTools(f) && !OfTools(event.name)
    ensures FlatMap(f, Released(st.pendingReasoning, st.reasoningSegment, visibleText) + [event]) == []
  {
    NoToolsReleased(f, st, visibleText, [event]);
    FlatMapOne(f, event);
  }

  lemma {:induction false} NotePart<R>(st: State, visibleText: string, note: Event, event: Event, f: Event -> seq<R>)
    requires OnlyOfTools(f) && !OfTools(note.name) && !OfTools(event.name)
    ensures FlatMap(f, Released(st.pendingReasoning, st.reasoningSegment, visibleText) + [note, event]) == []
  {
    NoToolsReleased(f, st, visibleText, [note, event]);
    TwoImages(f, note, event);
  }

  lemma {:induction false} InterimPart<R>(st: State, event: Event, f: Event -> seq<R>)
    requires OnlyOfTools(f) && (event.name.MessageInterim? || event.name.AssistantCommentary?)
    ensures FlatMap(f, StepInterim(st, event).1) == []
  {
    var id := ActiveMessage(st);
    var value := if event.text.Some? then event.text.value else OrEmpty(event.content);
    if value != "" && value != st.segmentText {
      NotePart(st, value, Derived(ReplyInterimText, id, event.name).(content := Some(value)), event.(messageId := id),
        f);
    } else {
      ReasoningPart(st, if value != "" then value else st.segmentText, event.(messageId := id), f);
    }
  }

  lemma {:induction false} CompletedPart<R>(st: State, event: Event, f: Event -> seq<R>)
    requires OnlyOfTools(f) && event.name.RunCompleted?
    ensures FlatMap(f, StepRunCompleted(st, event).1) == []
  {
    if event.output == "" {
      ReasoningPart(st, event.output, event, f);
    } else {
      NotePart(st, event.output, ReplyNote(st, event.output), event, f);
    }
  }

  lemma {:induction false} SinglePart<R>(st: State, event: Event, f: Event -> seq<R>)
    requires OnlyOfTools(f) && IsSingle(event)
    ensures FlatMap(f, Step(st, event).1) == ToolPart(st, event, f)
  {
    var events := Step(st, event).1;
    assert |events| == 1;
    FlatMapOne(f, events[0]);
    assert events == [events[0]];
  }

  /** Of the events that a step publishes, only the tool event itself speaks of tools. */
  lemma {:induction false} StepToolPart<R>(st: State, event: Event, f: Event -> seq<R>)
    requires OnlyOfTools(f)
    ensures FlatMap(f, Step(st, event).1) == ToolPart(st, event, f)
  {
    if IsSingle(event) {
      SinglePart(st, event, f);
    } else if event.name.ToolStarted? {
      ToolStartedPart(st, event, f);
    } else if event.name.MessageInterim? || event.name.AssistantCommentary? {
      InterimPart(st, event, f);
    } else if event.name.RunCompleted? {
      CompletedPart(st, event, f);
    } else if event.name.AssistantCompleted? {
      var id := if event.messageId != NoId then event.messageId else ActiveMessage(st);
      ReasoningPart(st, if event.content.Some? then event.content.value
        else st.segmentText, event.(messageId := id), f);
    } else {
      ReasoningPart(st, "", event, f);
    }
  }

  lemma {:induction false} StepToolState(st: State, event: Event)
    ensures var after, tools := Step(st, event).0,
        if event.name.ToolStarted? then StartTool(st, event).0 else if IsToolEnd(event.name) then EndTool(st, event).0
          else st;
      after.toolSequence == tools.toolSequence && after.activeTools == tools.activeTools
  {
  }

  /** No tool event of the source carries an id of the minted kinds. */
  predicate NativeIds(event: Event) {
    NativeCall(event) == NoId || NativeCall(event).NativeId?
  }

  ghost predicate Increasing(numbers: seq<nat>, last: nat) {
    (forall i, j | 0 <= i < j < |numbers| :: numbers[i] < numbers[j])
      && forall i | 0 <= i < |numbers| :: numbers[i] <= last
  }

  ghost predicate NoOrphanOpen(st: State) {
    forall k | 0 <= k < |st.activeTools| :: !st.activeTools[k].id.OrphanToolId?
  }

  /** The minted numbers go on from the counter. */
  ghost predicate Mints(st: State, after: State, numbers: seq<nat>) {
    && (numbers == [] || numbers == [st.toolSequence + 1])
    && after.toolSequence == st.toolSequence + |numbers|
    && NoOrphanOpen(after)
  }

  lemma {:induction false} StaysIncreasing(numbers: seq<nat>, last: nat, more: seq<nat>)
    requires Increasing(numbers, last) && (more == [] || more == [last + 1])
    ensures Increasing(numbers + more, last + |more|)
  {
  }

  lemma {:induction false} StepMints(st: State, event: Event)
    requires NativeIds(event) && NoOrphanOpen(st)
    ensures Mints(st, Step(st, event).0, ToolPart(st, event, MintedBy()))
  {
    StepToolState(st, event);
    if event.name.ToolStarted? {
      StartMints(st, event);
    } else if IsToolEnd(event.name) {
      EndMints(st, event);
    }
  }

  lemma {:induction false} StartMints(st: State, event: Event)
    requires event.name.ToolStarted? && NativeIds(event) && NoOrphanOpen(st)
    ensures Mints(st, StartTool(st, event).0, MintedBy()(StartTool(st, event).1))
  {
  }

  lemma {:induction false} EndMints(st: State, event: Event)
    requires IsToolEnd(event.name) && NativeIds(event) && NoOrphanOpen(st)
    ensures Mints(st, EndTool(st, event).0, MintedBy()(EndTool(st, event).1))
  {
  }

  lemma {:induction false} StepMinted(st: State, event: Event)
    requires NativeIds(event) && NoOrphanOpen(st)
    ensures var (after, more) := Step(st, event); Mints(st, after, FlatMap(MintedBy(), more))
  {
    StepMints(st, event);
    StepToolPart(st, event, MintedBy());
  }

  lemma {:induction false} MintedNext(st: State, published: seq<Event>, after: State, more: seq<Event>)
    requires Increasing(FlatMap(MintedBy(), published), st.toolSequence) && Mints(st, after, FlatMap(MintedBy(), more))
    ensures Increasing(FlatMap(MintedBy(), published + more), after.toolSequence)
  {
    FlatMapAppend(MintedBy(), published, more);
    StaysIncreasing(FlatMap(MintedBy(), published), st.toolSequence, FlatMap(MintedBy(), more));
  }

  /** On every run, the numbers of the tool ids that are minted increase: no minted id is given twice. */
  lemma {:induction false} MintedToolIds(events: seq<Event>)
    requires forall k | 0 <= k < |events| :: NativeIds(events[k])
    ensures var (st, published) := Run(START, events);
      Increasing(FlatMap(MintedBy(), published), st.toolSequence) && NoOrphanOpen(st)
  {
    if events != [] {
      var front := events[..|events| - 1];
      MintedToolIds(front);
      var (before, published) := Run(START, front);
      var (after, more) := Step(before, events[|events| - 1]);
      StepMinted(before, events[|events| - 1]);
      MintedNext(before, published, after, more);
    }
  }

  /** The ids of the first start, when it is one of that tool. */
  function OpenId(first: ActiveTool, tool: string): seq<Id> {
    if first.name == tool then [first.id] else []
  }

  lemma {:induction false} OpenFirst(first: ActiveTool, rest: seq<ActiveTool>, tool: string)
    ensures OpenIds([first] + rest, tool) == OpenId(first, tool) + OpenIds(rest, tool)
  {
    assert ([first] + rest)[1..] == rest;
  }

  lemma {:induction false} OpenAppend(a: seq<ActiveTool>, b: seq<ActiveTool>, tool: string)
    ensures OpenIds(a + b, tool) == OpenIds(a, tool) + OpenIds(b, tool)
  {
    if a == [] {
      assert a + b == b;
    } else {
      var rest := a[1..];
      assert a == [a[0]] + rest && a + b == [a[0]] + (rest + b);
      OpenFirst(a[0], rest + b, tool);
      OpenFirst(a[0], rest, tool);
      OpenAppend(rest, b, tool);
    }
  }

  lemma {:induction false} NoneOpen(tools: seq<ActiveTool>, tool: string)
    requires forall k | 0 <= k < |tools| :: tools[k].name != tool
    ensures OpenIds(tools, tool) == []
  {
    if tools != [] {
      NoneOpen(tools[1..], tool);
    }
  }

  /** The open starts without the oldest of one name. */
  lemma {:induction false} OpenWithout(tools: seq<ActiveTool>, name: string, tool: string)
    requires FindTool(tools, NoId, name) < |tools|
    ensures var n := FindTool(tools, NoId, name);
      OpenIds(tools, tool) == OpenId(tools[n], tool) + OpenIds(tools[..n] + tools[n + 1..], tool)
  {
    var n := FindTool(tools, NoId, name);
    var front, rest := tools[..n], tools[n + 1..];
    assert tools == front + ([tools[n]] + rest);
    OpenAppend(front, [tools[n]] + rest, tool);
    OpenFirst(tools[n], rest, tool);
    OpenAppend(front, rest, tool);
    if name == tool {
      NoneOpen(front, tool);
    }
  }

  /** Starts are ended in the order in which they came: those that ended, then those that are open. */
  ghost predicate InTurn(st: State, published: seq<Event>, tool: string) {
    FlatMap(StartOf(tool), published) == FlatMap(EndOf(tool), published) + OpenIds(st.activeTools, tool)
  }

  ghost predicate MintedOpen(st: State) {
    forall k | 0 <= k < |st.activeTools| :: st.activeTools[k].id.ToolId?
  }

  /** What one tool event adds to the starts and to the ends of a tool, and what it leaves open. */
  lemma {:induction false} ToolTurn(st: State, event: Event, tool: string)
    requires MintedOpen(st) && NativeCall(event) == NoId
    ensures var after := Step(st, event).0;
      && MintedOpen(after)
      && OpenIds(st.activeTools, tool) + ToolPart(st, event, StartOf(tool))
         == ToolPart(st, event, EndOf(tool)) + OpenIds(after.activeTools, tool)
  {
    StepToolState(st, event);
    var open := OpenIds(st.activeTools, tool);
    if event.name.ToolStarted? {
      var started := ActiveTool(ToolId(st.toolSequence + 1), ToolOf(event));
      OpenAppend(st.activeTools, [started], tool);
      OpenFirst(started, [], tool);
      assert [started] + [] == [started];
      assert ToolPart(st, event, EndOf(tool)) == [];
    } else if IsToolEnd(event.name) {
      assert open + [] == open;
      EndTurn(st, event, tool);
    } else {
      assert open + [] == [] + open;
    }
  }

  lemma {:induction false} EndTurn(st: State, event: Event, tool: string)
    requires MintedOpen(st) && NativeCall(event) == NoId && IsToolEnd(event.name)
    ensures MintedOpen(EndTool(st, event).0)
    ensures OpenIds(st.activeTools, tool)
      == EndOf(tool)(EndTool(st, event).1) + OpenIds(EndTool(st, event).0.activeTools, tool)
  {
    var n := FindTool(st.activeTools, NoId, ToolOf(event));
    var open := OpenIds(st.activeTools, tool);
    if n < |st.activeTools| {
      OpenWithout(st.activeTools, ToolOf(event), tool);
    } else {
      assert [] + open == open;
    }
  }

  lemma {:induction false} TurnNext(st: State, published: seq<Event>, event: Event, tool: string)
    requires MintedOpen(st) && InTurn(st, published, tool) && NativeCall(event) == NoId
    ensures var (after, more) := Step(st, event); MintedOpen(after) && InTurn(after, published + more, tool)
  {
    var (after, more) := Step(st, event);
    ToolTurn(st, event, tool);
    StepToolPart(st, event, StartOf(tool));
    StepToolPart(st, event, EndOf(tool));
    FlatMapAppend(StartOf(tool), published, more);
    FlatMapAppend(EndOf(tool), published, more);
    var ended := FlatMap(EndOf(tool), published);
    Regroup(ended, OpenIds(st.activeTools, tool), ToolPart(st, event, StartOf(tool)));
    Regroup(ended, ToolPart(st, event, EndOf(tool)), OpenIds(after.activeTools, tool));
  }

  /**
   * On every run without native call ids, an end of a tool gets the id of the oldest
   * start of that tool that has not ended: in order, the starts are those that ended,
   * followed by those that are open.
   */
  lemma {:induction false} ToolsEndInTurn(events: seq<Event>, tool: string)
    requires forall k | 0 <= k < |events| :: NativeCall(events[k]) == NoId
    ensures var (st, published) := Run(START, events); MintedOpen(st) && InTurn(st, published, tool)
  {
    if events != [] {
      var front := events[..|events| - 1];
      ToolsEndInTurn(front, tool);
      var (before, published) := Run(START, front);
      TurnNext(before, published, events[|events| - 1], tool);
    }
  }
}
