# Agent Lens: verified models of its protocols and stores

This project models the parts of Agent Lens in which a loop, a state machine or a
recursion carries a promise, and proves what the promise says. Every method is proved
against a specification function or states its whole effect, and the lemmas prove the
promises about these functions: over every input, every run and every crash point.

`dafny verify dfyconfig.toml` checks the whole project.

## What is modelled

**Review projection.** `ReviewNodes` turns observations into nodes in two passes over
mutable tables: tool calls are paired with results, and repeated messages share a node.
`ReviewGroups` splits observations into interactions under their user messages.
`HookOverlay` and `HookProjection` put archived Hook events into finished turns, and
`HookWindow` says what such a window shows by the observations and the turns alone.
Identifying records are hashed by a function that tells different records apart, and
timestamps are integers; the times of a turn are absent when they do not parse.

**Hermes live protocol.** `HermesPaging` has a server whose message log grows before
each read, and between the pages, by an arbitrary amount; the client locates a boundary
row, reads beside it and checks it again. `HermesEarliest` walks the log by offsets from
its oldest row. `HermesHistory` has the text cursors. `HermesStream` decodes
server-sent events from chunks, and reconnects after the last sequence number seen;
URI encoding, JSON parsing and the server are functions with stated properties.
`RunTranscript` assembles run events into messages, and has a small reducer that shows
what a reader of the published events sees.

**Codex live protocol.** `CodexTurns` pages through native turn pages and into them.
`CodexPolling` follows a thread that grows between the polls of a client, with the loop
that reads all pages behind an anchor; a native server is a function from page requests
to pages, with the thread that it serves and the places of its cursors.
`CodexApprovals` shows approval requests one at a time, and `CodexApprovalRuns` plays
whole runs of a session. `CodexRpc` frames lines and keeps the table of pending requests.

**Backup vault.** `BackupVault` specifies the blob store, snapshots, export and import
over maps, with uninterpreted hashes; `BackupService` has the service's methods,
`BackupScope` what a created snapshot must hold for its scope, and `BackupTransfer` what it
takes to verify, export and import one. A file
is looked at twice, once for its state and once for its content, and may change in
between. `BackupIndex` specifies the index and its refresh by source, and `BackupRefresh`
the background refresh. `BackupHistory` runs creations, imports, refreshes and rebuilds
against changing files, and proves what the cached hashes are worth at every point.
`PortablePath` normalises archive paths.

**Package installer.** `Installer` records every state of the disk during an
installation, since a crash may leave any of them, and runs the program again and again
from what a crash left. `PackageOperations` keeps the list
of operations short.

**Capture policy.** `Sanitizer` walks object graphs, cyclic ones included.
`PayloadBound` truncates payloads to a byte budget. `CapturePolicy` joins the two, and
`ToolFragments` redacts single fragments of tool arguments.

**Hook configuration.** `HookConfig` takes own handlers out of nested lists and puts
them in again. `TrustState` rewrites sections of a configuration text line by line.

`Prelude`, `Texts`, `Grouping`, `StableSorting`, `SortedSlices`, `OrderedMaps` and
`JsonValues` hold the vocabulary shared by these modules.

## Where a promise does not hold as it stands

Each entry says when the promise fails, and names the lemmas that prove it; most of them
give the exact condition and an input.

* An earlier page is announced although there is none exactly when a full page ends with
  the oldest row and a row is appended before the probe (`HermesPaging.AnnouncementExact`,
  `HermesPaging.SpuriousAnnouncement`).
* A completed message without content empties the shown text but not the assembler's
  (`RunTranscript.MissingContent`); an empty message can then become the final reply
  (`RunTranscript.EmptyReplyPromoted`).
* An anchor that is taken while the newest Codex turn has no items is not found by the
  next poll, exactly then (`CodexPolling.PollAfterLatest`). Until that turn has items no
  poll moves the anchor, so the next one shows the same items again
  (`CodexPolling.EmptyTurnKeepsAnchor`).
* Two approval requests whose ids are equal as strings, such as 1 and "1"
  (`CodexApprovals.NumberAndTextClash`): answering the first one blocks the queue as soon as
  the second gets to its front, exactly when the second waits then
  (`CodexApprovals.EqualKeyBlocks`), and it stays blocked until the turn or the connection
  ends or a third request has the same key (`CodexApprovals.BlockedExact`,
  `CodexApprovals.BlockedForGood`).
* A user message whose id reads like the background key of an item before it goes to the
  group of that item (`ReviewGroups.RootlessItemStandsAlone`), and what named it earlier as
  a parent is left in a group without a user message (`ReviewGroups.GroupOfRooted`,
  `ReviewGroups.UserGoesElsewhere`).
* Overlaying the same Hook events twice inserts more than once exactly when a refused event
  is adopted by an inserted one that it names as its parent (`HookOverlay.OverlayTwiceExact`,
  `HookOverlay.OverlayTwiceCanInsertMore`).
* A cached hash skips the secret scan when the kinds of a file have changed since it was
  hashed (`BackupVault.CachedExact`, `BackupVault.SkipsSecretScan`). An edit between the two
  looks at a file leaves a hash in the index that never went with the indexed state
  (`BackupVault.RememberedTrue`, `BackupVault.EditedBetween`).
* An exported snapshot cannot be imported again when the bundle is larger than the import
  accepts, or an archive path is not in checked form (`BackupVault.ExportImport`).
* Refreshing sources one at a time keeps every source's part as in a full rebuild, but
  entries of different sources with the same place in the order stand as the refreshes came
  (`BackupIndex.IncrementalBySource`, `SortedSlices.TiesShowOrder`).
* An installation is not safe against a crash exactly when it replaces a verified package
  of the same version by a different one (`Installer.InstallCrashSafe`). With the service's
  state as on disk this needs an installed package of that version with another interface,
  since a compatible one is left alone (`Installer.ServiceCrashSafe`,
  `Installer.IncompatibleReplaced`); without one, any number of crashes and restarts is
  safe (`Installer.RestartsExact`).
* A property called `__proto__` is lost by sanitization without being reported
  (`Sanitizer.ProtoIsLost`). The payload that is kept of a tool that is not captured has no
  byte bound when a kept property holds an object: lists that hold a list twice double it
  at each level, and seventeen levels exceed 96 KiB (`CapturePolicy.OffPayloadUnbounded`,
  `CapturePolicy.SeventeenLevels`). It has one when they all hold primitives
  (`CapturePolicy.OffPrimitivesFit`).
* Installing hooks twice adds a second handler when the command does not contain the
  marker (`HookConfig.InstallTwice`), and moves an event that held null
  (`HookConfig.InstallTwiceInPlace`, `HookConfig.NullMoves`). Uninstalling does not undo
  the installation of a command without the marker (`HookConfig.UnrecognisedStays`) and
  does not give such a null value back (`HookConfig.NullIsLost`); in all other cases it
  undoes the installation (`HookConfig.UninstallUndoesInstall`).
* Rewriting the trust state twice differs from once when a line that stays ends with a
  stray return character (`TrustState.RewriteTwice`, `TrustState.StrayReturnIsLost`).
* The event stream decoder also parses the unterminated tail of a closed body, where
  section 9.2.6 of the WHATWG HTML Standard discards it. This shows one more event exactly
  when the tail parses to an event without a number or with a new one
  (`HermesStream.TailExact`); a data line that is cut off is reported on every connection
  (`HermesStream.CutOnEveryConnection`).

## Model

| member | source | states |
|---|---|---|
| ReviewNodes.AmbiguousCalls | packages/projection-review/src/nodes.ts:152-165 | the first pass finds exactly the call keys that two different calls carry |
| ReviewNodes.AddMessage | packages/projection-review/src/nodes.ts:168-211 | the message branch extends the nodes as the specification does: it joins the latest twin or opens a node |
| ReviewNodes.AddResult | packages/projection-review/src/nodes.ts:246-277 | the result branch settles its sole call once, and otherwise adds an event |
| ReviewNodes.BuildNodes | packages/projection-review/src/nodes.ts:145-295 | the two passes over mutable tables compute the declarative list of nodes |
| ReviewNodes.PairingExact | packages/projection-review/src/nodes.ts:215-277 | a result is attached to a call exactly when the call is the only one with its scoped key, comes first, and no earlier result with the key lies between |
| ReviewNodes.UnpairedResultIsEvent | packages/projection-review/src/nodes.ts:246-293 | every other result stays an event of its own with its own evidence |
| ReviewNodes.MergeExact | packages/projection-review/src/nodes.ts:193-211 | two messages share a node exactly when nothing of their identity between them differs |
| ReviewNodes.NodesConserve | packages/projection-review/src/nodes.ts:145-295 | every item except registrations is shown by exactly one node, once |
| ReviewNodes.EvidenceExact | packages/projection-review/src/nodes.ts:203-274 | a node lists the evidence of exactly the items it shows |
| ReviewGroups.RootUser | packages/projection-review/src/nodes.ts:303-314 | the search for the user message above an item finds it, and ends on cyclic parent links |
| ReviewGroups.SplitInteractionGroups | packages/projection-review/src/nodes.ts:297-336 | the grouping loop over a mutable table computes the declarative groups, also when a user message has the background key of an item as its id |
| ReviewGroups.RootedGroupHasOneUser | packages/projection-review/src/nodes.ts:316-334 | the group of a user message contains exactly that user message |
| ReviewGroups.GroupOfRooted | packages/projection-review/src/nodes.ts:316-334 | the group of an item under a user message has exactly that user message, unless that comes later and an item in between has taken its id as background key; then it has none |
| ReviewGroups.UserGoesElsewhere | packages/projection-review/src/nodes.ts:320-333 | an input where that happens |
| ReviewGroups.RootlessItemStandsAlone | packages/projection-review/src/nodes.ts:320-326 | an item without a user message is an interaction of its own exactly when no user message has its background key as id |
| ReviewGroups.BuildInteractionGroups | packages/projection-review/src/nodes.ts:342-356 | each group becomes one interaction with its nodes, numbered in order: it starts with its first item, and ends at the time of its last item that is no session rename, or of its first item when all are |
| ReviewGroups.BuildInteractions | packages/projection-review/src/nodes.ts:358-360 | grouping and projecting compose: each group is described by one interaction with its times, trigger, first and last item and nodes, and together they show every keyed item once |
| ReviewGroups.InteractionsConserve | packages/projection-review/src/nodes.ts:297-360 | every item except registrations and rootless lifecycle items is shown by exactly one node of exactly one interaction |
| HookOverlay.ExplicitOwners | packages/projection-review/src/native-window.ts:329-343 | the table of identities names exactly the user turns that carry them |
| HookOverlay.OwnerOfKeys | packages/projection-review/src/native-window.ts:353-361 | identities give a turn exactly when each of them names that user turn alone |
| HookOverlay.OnlyCoveringTurn | packages/projection-review/src/native-window.ts:362-374 | without identities, a turn is given exactly when it is the only user turn that covers the time |
| HookOverlay.PlaceOf | packages/projection-review/src/native-window.ts:348-383 | the place of a candidate is the one turn it may go to, or none |
| HookOverlay.PlaceCandidate | packages/projection-review/src/native-window.ts:345-388 | one candidate is inserted exactly when it is new and has a place |
| HookOverlay.OverlayEvents | packages/projection-review/src/native-window.ts:318-411 | the loops compute the specified window |
| HookOverlay.NativeNodesKept | packages/projection-review/src/native-window.ts:391-402 | a turn keeps its nodes as a multiset and gains exactly its new events |
| HookOverlay.NativeOrderKept | packages/projection-review/src/native-window.ts:394-402 | native nodes that are in time order stay in that order |
| HookOverlay.NativeFirstAtTies | packages/projection-review/src/native-window.ts:396-400 | at equal times native nodes come first, then the new events in their own order |
| HookOverlay.ExtendedInOrder | packages/projection-review/src/native-window.ts:396-402 | a turn that gained events is in time order |
| HookOverlay.InsertionSound | packages/projection-review/src/native-window.ts:345-388 | an inserted event comes from the candidates, is new, and lies in the interval of the one user turn that owns all its identities |
| HookOverlay.CountGrowsWithNodes | packages/projection-review/src/native-window.ts:390-406 | the observation count grows by exactly the number of nodes added |
| HookOverlay.OverlayTwiceExact | packages/projection-review/src/native-window.ts:318-411 | overlaying twice is overlaying once exactly when no refused event is adopted: one that names a parent which no user turn had, and which was inserted into the one user turn that covers the event and alone has its call |
| HookOverlay.OverlayIdempotent | packages/projection-review/src/native-window.ts:318-411 | so overlaying twice is overlaying once, when no event names another one as its parent |
| HookOverlay.OverlayTwiceCanInsertMore | packages/projection-review/src/native-window.ts:329-388 | an input where the second overlay inserts another event: a child before its parent |
| HookProjection.ItemsDistinct | packages/projection-review/src/native-window.ts:78-88 | observation ids are distinct even for observations that share a record and all native fields |
| HookProjection.HookEventsStandAlone | packages/projection-review/src/native-window.ts:309-319 | projected Hook events each form a group of their own |
| HookWindow.OverlayNativeHookEvents | packages/projection-review/src/native-window.ts:265-411 | the overlay is refused exactly for an incomplete window or missing records; else each turn gains exactly the events of the observations shown in it, is in time order then, and keeps all else |
| HookWindow.OverlayShowsHooks | packages/projection-review/src/native-window.ts:265-411 | these are the observations of six kinds with a native time of their own that belong to one user turn and whose id and fact are not there yet, whatever their order and their records |
| HookWindow.PlacedExact | packages/projection-review/src/native-window.ts:348-383 | an event is placed in a turn exactly when that user turn is around its time, holds the parent and the tool call it names, and no other user turn holds one of them or, when it names none, is around its time |
| HookProjection.OverlayTwice | packages/projection-review/src/native-window.ts:265-411 | overlaying the same archive twice is overlaying it once, unless one Hook names another as its parent |
| HermesHistory.CursorRoundTrip | packages/live-hermes/src/history-page.ts:18-38 | decoding undoes encoding exactly for safe offsets and anchors of at most 400 characters |
| HermesHistory.DecodedExact | packages/live-hermes/src/history-page.ts:14-34 | a text is read as a cursor exactly when it is the prefix, an order, the one decimal text of a safe offset and, if at all, a colon and an encoded id of at most 400 characters on one line |
| HermesHistory.WindowRefused | packages/live-hermes/src/history-page.ts:41-68 | a window is refused exactly for two cursors, for one that goes around a row, and for one that cannot be read; without a cursor it asks for the newest or the oldest rows |
| HermesPaging.HermesServer.Read | packages/live-hermes/src/client.ts:209-227 | a read returns a slice of the log as it is then, after rows were appended, with numeric ids as texts |
| HermesPaging.Locate | packages/live-hermes/src/client.ts:234-249 | the chunked search finds the row, or the row is out of reach of twenty chunks |
| HermesPaging.AnnouncementExact | packages/live-hermes/src/client.ts:271-274 | when an earlier page is announced although there is none |
| HermesPaging.SpuriousAnnouncement | packages/live-hermes/src/client.ts:271-274 | an input where that happens |
| HermesPaging.ReadAccepted | packages/live-hermes/src/client.ts:260-275 | an accepted page is exactly the rows beside the anchor in the log as it was when the anchor was located |
| HermesPaging.ReachableExact | packages/live-hermes/src/client.ts:234-249 | the search for a boundary row finds it exactly when it lies in one of twenty chunks from 120 rows before its old place |
| HermesPaging.ReadAnchored | packages/live-hermes/src/client.ts:228-275 | an anchored page is unavailable only when the anchor is not in the log or drifted out of reach, and has changed only when rows were appended during the call |
| HermesPaging.ReadPlain | packages/live-hermes/src/client.ts:260-275 | a page without anchor is a page of the log at some point of the call, with the exact texts of its links: counted from the newest row, or from the oldest one |
| HermesPaging.SessionMessagesPage | packages/live-hermes/src/client.ts:202-276 | a page in either order and direction, from the window to the texts of its two links, its first and its last row |
| HermesPaging.WalkBack | packages/live-hermes/src/client.ts:202-276 | following the earlier link lists every row present at the first read exactly once and in order, whatever is appended, and ends; it completes when nothing is appended during a call and fewer than 2280 rows between two calls |
| HermesPaging.WalkAhead | packages/live-hermes/src/client.ts:202-276 | following the later link lists every row behind the first page, up to the newest row of the last read, exactly once and in order, and ends; it completes under the same conditions |
| HermesEarliest.WalkFromEarliest | packages/live-hermes/src/client.ts:202-276 | from the earliest window on, following the later link lists every row up to the newest one of the last read exactly once and in order, and ends; no page is refused, whatever is appended |
| HermesEarliest.WalkOnward | packages/live-hermes/src/history-page.ts:58-67 | the same from any page that counts from the oldest row |
| HermesEarliest.WalkBackward | packages/live-hermes/src/history-page.ts:50-57 | following the earlier link of such a page goes back to the first row and lists every row before the page exactly once and in order |
| HermesEarliest.BackwardQuery | packages/live-hermes/src/history-page.ts:50-57 | the earlier link asks for the rows up to the start of the page, and not for more than there are |
| HermesStream.FramesAppend | packages/live-hermes/src/client.ts:346-374 | framing may be interrupted anywhere: the frames depend on the concatenated text only |
| HermesStream.SeparatorExact | packages/live-hermes/src/client.ts:347-351 | frames are separated by two line ends in a row, each with or without a return character |
| HermesStream.JoinedApart | packages/live-hermes/src/client.ts:408-412 | the values of several data lines are joined so that they can be told apart |
| HermesStream.CommentSkipped | packages/live-hermes/src/client.ts:408-414 | a frame without a data line is no event |
| HermesStream.RunEvents.Drain | packages/live-hermes/src/client.ts:347-374 | the buffer loop offers exactly the complete frames, and keeps the rest |
| HermesStream.RunEvents.ReadBody | packages/live-hermes/src/client.ts:338-388 | a body has the same effect however it is cut into chunks |
| HermesStream.RunEvents.Run | packages/live-hermes/src/client.ts:321-406 | a run is finished exactly when its last event is one of the four that end it, which no earlier event is; else it is cancelled exactly when its last connection was aborted, and fails after four connections; against a server that replays a log with an end it is finished exactly when a connection holds that end, and then has the whole log |
| HermesStream.SequencesIncrease | packages/live-hermes/src/client.ts:364-367 | whatever servers send, the yielded sequence numbers strictly increase over all reconnects |
| HermesStream.ReplayIsPrefix | packages/live-hermes/src/client.ts:327-406 | against a server that replays its log, the numbered events are a gap-free prefix of the log |
| HermesStream.TailExact | packages/live-hermes/src/client.ts:375-388 | closing a body shows one more event than breaking it off exactly when its unterminated tail parses to an event without a number or with a new one |
| HermesStream.CutOnEveryConnection | packages/live-hermes/src/client.ts:327-421 | a data line that is cut off on every connection is reported four times, and then the run fails |
| HermesStream.DecodeEncoded | packages/live-hermes/src/client.ts:408-421 | decoding an encoded sequence of one-line payloads gives back exactly these payloads |
| RunTranscript.HermesRunTranscriptAssembler.Ingest | packages/live-hermes/src/run-events.ts:77-186 | one event publishes, in this order, the pending previews that do not repeat the visible text, at most one reply event, and itself with its ids, and has no other effect on the previews; the ids and the fields of all of them are stated by the fields of the event, for every event name |
| RunTranscript.MintedToolIds | packages/live-hermes/src/run-events.ts:24-45 | on every run the numbers of minted tool ids increase, so none is given twice |
| RunTranscript.ToolsEndInTurn | packages/live-hermes/src/run-events.ts:24-45 | on every run without native ids, the starts of a tool are, in order, those that ended and those that are open: an end takes the oldest open start |
| RunTranscript.HermesRunTranscriptAssembler.ReleaseReasoning | packages/live-hermes/src/run-events.ts:57-75 | pending previews are released in order, except those that repeat the visible reply |
| RunTranscript.RunInStep | packages/live-hermes/src/run-events.ts:77-186 | on every run without completion, the assembler and the shown messages agree, and all closed segments are commentary |
| RunTranscript.TranscriptCorrect | packages/live-hermes/src/run-events.ts:160-180 | a run that ends with one completion with output leaves exactly one final message with text, equal to the output |
| RunTranscript.RepeatedCompletion | packages/live-hermes/src/run-events.ts:160-180 | a repeated completion changes nothing that is shown |
| RunTranscript.MissingContent | packages/live-hermes/src/run-events.ts:152-158 | a completed message without content empties the shown text and keeps the assembler's, so both agree exactly when the segment was empty |
| RunTranscript.EmptyReplyPromoted | packages/live-hermes/src/run-events.ts:101-180 | an input where a reader then sees an empty final reply |
| RunTranscript.NothingPends | packages/live-hermes/src/run-events.ts:57-75 | after a terminal event no preview is pending; each was released or repeated the output |
| RunTranscript.RunErased | packages/live-hermes/src/run-events.ts:77-186 | without the derived events, the published events are the source events in order |
| CodexTurns.CodexSnapshotEntries | packages/live-codex/src/events.ts:90-126 | the nested loops give the last entries of all items, and say whether there were more |
| CodexTurns.AllEntriesExact | packages/live-codex/src/events.ts:92-123 | the entries are exactly those that show an item: a message by its role and text, a summary, a tool call, and the result of a tool that is not in progress |
| CodexTurns.ResultBehindCall | packages/live-codex/src/events.ts:109-121 | an item has no entry twice, and the result of a tool comes right behind its call |
| CodexTurns.TwoEntriesAnItem | packages/live-codex/src/events.ts:92-123 | each native item gives at most two entries |
| CodexTurns.CursorRoundTrip | packages/live-codex/src/turn-history.ts:18-44 | a cursor survives encoding and decoding exactly when it is valid |
| CodexTurns.CursorTexts | packages/live-codex/src/turn-history.ts:18-44 | which texts are written for a cursor and which are read as one, by their prefix, length and fields |
| CodexTurns.SelectorExact | packages/live-codex/src/turn-history.ts:57-61 | of the three texts that can be given, the first one that is decides, if it looks like a cursor |
| CodexTurns.LinksExact | packages/live-codex/src/turn-history.ts:103-143 | what a snapshot says about the other direction: a page that was asked for by a cursor links back over itself where it can turn round; its anchor names its newest row, confirmed by another look at the newest turn when it was read towards it, or is the anchor of the poll |
| CodexTurns.NothingCut | packages/live-codex/src/turn-history.ts:99-102 | the budget of a page never lets the cut to the last entries drop one |
| CodexTurns.SnapshotIsWalkStep | packages/live-codex/src/turn-history.ts:50-143 | a snapshot shows exactly one page of the walk and links to exactly the next one; it fails exactly when one of the cursors it hands out is too long |
| CodexTurns.WalkShowsRest | packages/live-codex/src/turn-history.ts:100-107 | from any cursor, the walk shows every remaining item exactly once |
| CodexTurns.WalkShowsEverything | packages/live-codex/src/turn-history.ts:50-143 | the walk from the latest page back, or from the earliest on, shows every item of the thread exactly once and ends |
| CodexTurns.ReadThread | packages/live-codex/src/turn-history.ts:50-143 | following the text of the earlier link from the latest page, or of the later link from the earliest, shows the entries of every item exactly once and in order, and ends; it succeeds exactly when no page on the way hands out a cursor that is too long |
| CodexTurns.AnchorResumes | packages/live-codex/src/turn-history.ts:50-143 | polling from an anchor shows the rows right behind its row, as many as fit, and says whether there are more; it fails exactly when a cursor is too long |
| CodexTurns.AnchorLost | packages/live-codex/src/turn-history.ts:90-98 | an anchor whose row is not on its page is an error |
| CodexPolling.LoadBehind | packages/web/src/features/live-task-history-window.ts:147-181 | the loop loads exactly the entries behind the row of an anchor, and the anchor of its last page; it succeeds exactly when that row is on the first page, no cursor is too long and there are at most 1000 pages, and no link is ever missing or repeated |
| CodexPolling.AnchorHolds | packages/live-codex/src/turn-history.ts:61-98 | in a thread that has grown, the row of an anchor is found exactly if the newest turn had items when the anchor was made |
| CodexPolling.PollAfterLatest | packages/live-codex/src/turn-history.ts:50-143 | so a poll with the anchor of the latest snapshot fails for a missing row exactly when the newest turn had none |
| CodexPolling.EmptyTurnKeepsAnchor | packages/live-codex/src/turn-history.ts:109-128 | while the newest turn has no items, a poll leaves the client with the anchor it had |
| CodexPolling.FollowThread | packages/web/src/features/use-live-task-runtime.ts:373-445 | a client that polls a growing thread, and keeps its anchor when a poll fails, is shown every appended item exactly once and in order, up to the newest row of the last poll that moved the anchor |
| CodexPolling.CaughtUp | packages/web/src/features/use-live-task-runtime.ts:373-445 | after every poll that goes through, that is every row of the thread as it was then |
| CodexApprovals.Session.Receive | packages/live-codex/src/index.ts:621-632 | a request joins the queue, or is rejected when it is no approval or the session is gone |
| CodexApprovals.Session.RespondToExtension | packages/live-codex/src/index.ts:545-556 | an answer is accepted exactly for the shown open request, is sent once with the user's own decision, and shows the next one |
| CodexApprovalRuns.Play | packages/live-codex/src/index.ts:545-686 | on every run, the answers are in order one for each response that took effect, to the id that arrived last under its key and with its own decision, and at the end of the session one decline for each open request; each other act takes effect exactly when what happened before allows it, a response only for an open request |
| CodexApprovals.Session.TurnCompleted | packages/live-codex/src/index.ts:675-686 | a stale completion changes nothing; any other one clears the queue |
| CodexApprovals.Session.Terminate | packages/live-codex/src/index.ts:558-576 | termination declines every open request, oldest first |
| CodexApprovals.OneIsShown | packages/live-codex/src/index.ts:578-603 | one request is shown exactly when any is open, and the open ones are the shown and the queued ones, disjointly |
| CodexApprovals.ReceivedOrderly | packages/live-codex/src/index.ts:627-631 | a new request keeps the queue in order exactly when its key is not that of the shown one |
| CodexApprovals.EqualKeyArrives | packages/live-codex/src/index.ts:621-632 | a second request under the key of the shown one goes to the end of the queue, and the shown one stays |
| CodexApprovals.QueueStaysOrderly | packages/live-codex/src/index.ts:545-686 | on every run whose open requests have distinct keys the queue is in order at all times |
| CodexApprovals.ShownInArrivalOrder | packages/live-codex/src/index.ts:578-603 | requests are shown in arrival order, and the rest waits in that order |
| CodexApprovals.AnsweredAtMostOnce | packages/live-codex/src/index.ts:545-556 | on every run no native request is answered more often than it arrived |
| CodexApprovals.NoRequestLost | packages/live-codex/src/index.ts:545-632 | with distinct keys, a request is answered or still open until its turn or connection ends |
| CodexApprovals.KeysStayDistinct | packages/live-codex/src/index.ts:545-686 | on every run, equal keys or not, a key stands for one answerable request |
| CodexApprovals.EqualKeyBlocks | packages/live-codex/src/index.ts:545-631 | answering the shown request blocks the queue exactly when another request with its key waits |
| CodexApprovals.NumberAndTextClash | packages/live-codex/src/index.ts:621-631 | the number 1 and the text "1" are different ids with the same key |
| CodexApprovals.BlockedExact | packages/live-codex/src/index.ts:545-686 | only an ended turn or connection, or a new request under the same key, ends a block |
| CodexApprovals.BlockedForGood | packages/live-codex/src/index.ts:545-686 | on every run without these, the requests before the blocked one are shown and answered, and nothing after it |
| CodexRpc.SplitAppend | packages/live-codex/src/transport.ts:133-143 | line framing may be interrupted anywhere |
| CodexRpc.CodexRpc.Consume | packages/live-codex/src/transport.ts:133-172 | every line completed by a chunk is handled once and in order, whether or not the size guard ends the process |
| CodexRpc.CodexRpc.Send | packages/live-codex/src/transport.ts:102-118 | a request is registered under a new number, and refused at once when it cannot be written |
| CodexRpc.CodexRpc.Timeout | packages/live-codex/src/transport.ts:105-110 | a request that times out is refused once, and only while it is pending |
| CodexRpc.CodexRpc.Close | packages/live-codex/src/transport.ts:174-189 | closing refuses every pending request, oldest first, and only once |
| CodexRpc.ChunksDoNotMatter | packages/live-codex/src/transport.ts:133-172 | what is read does not depend on how the input is cut |
| CodexRpc.GuardSparesShortLines | packages/live-codex/src/transport.ts:135-138 | the size guard never ends a process whose lines all fit 4 MiB, however they arrive |
| CodexRpc.RequestsAccounted | packages/live-codex/src/transport.ts:102-189 | on every run each request is pending or settled, never both, and settled at most once |
| CodexRpc.CloseSettlesAll | packages/live-codex/src/transport.ts:174-189 | after a close every request ever sent has been settled exactly once |
| BackupService.LocalBackupService.StoreBlob | packages/backup-local/src/service.ts:919-943 | content is stored under its hash, and damage is repaired only when allowed |
| BackupService.LocalBackupService.ApplyHashUpdates | packages/backup-local/src/service.ts:954-967 | fresh hashes go exactly to the index entries that are still about the same state |
| BackupService.LocalBackupService.CreateSnapshot | packages/backup-local/src/service.ts:969-1084 | a snapshot is taken file by file while sources may change, also between the two looks at one file, and committed under a new id with what its scope asks for; every error has its condition, and none changes the snapshots or the index |
| BackupScope.CreatedSnapshot | packages/backup-local/src/service.ts:968-1084 | so each file and exclusion of the index that the scope asks for, and nothing else, is in the snapshot exactly once, as an entry with the hash and size or as an exclusion with the reason that a look at the file gave, in order |
| BackupService.LocalBackupService.VerifySnapshot | packages/backup-local/src/service.ts:1086-1117 | a snapshot is valid exactly when each of its files has content with its size and hash; the missing and the mismatched files are listed in order, and a manifest is refused exactly when it cannot be read |
| BackupService.LocalBackupService.ExportSnapshot | packages/backup-local/src/service.ts:1119-1131 | a snapshot is packed, file by file with its content, exactly when it is there, readable and all there; each error has its condition |
| BackupService.LocalBackupService.ImportSnapshot | packages/backup-local/src/service.ts:1133-1197 | a bundle within both limits, whose manifest is readable and whose files pair up with its entries by checked path, size and hash, is added under a new id, or repairs the snapshot with the same digest and fails only if that is not all there then; anything else is refused and changes nothing |
| BackupVault.StoreAllBacks | packages/backup-local/src/service.ts:1175-1189 | storing verified contents succeeds over any blobs, keeps all sound ones and backs every file |
| BackupVault.CreatedHealthy | packages/backup-local/src/service.ts:969-1084 | creating keeps every snapshot valid, and the new one verifies |
| BackupVault.SnapshotsStayValid | packages/backup-local/src/service.ts:910-1197 | after any sequence of creations, imports and refreshes, with sources changing, every committed snapshot verifies |
| BackupVault.TakeFilesNoted | packages/backup-local/src/service.ts:995-1065 | every hash that a creation remembers comes from a look at the file: the state asked first with the content read then |
| BackupVault.RememberedTrue | packages/backup-local/src/service.ts:995-1055 | the remembered pair was true at one of the two moments exactly when the content was the same at the first or the state the same at the second |
| BackupVault.EditedBetween | packages/backup-local/src/service.ts:995-1055 | an input where it never was |
| BackupVault.CachedExact | packages/backup-local/src/service.ts:1009-1043 | the cached hash gives the entry of rehashing exactly when the content is not sensitive under the present kinds |
| BackupVault.SkipsSecretScan | packages/backup-local/src/service.ts:1009-1043 | an input where sensitive content is taken by its hash |
| BackupHistory.FreshIsTrustworthy | packages/backup-local/src/service.ts:577-1197 | the runs may start with any snapshots that verify and any index without cached hashes |
| BackupHistory.RunsStayTrustworthy | packages/backup-local/src/service.ts:577-1197 | on every run of creations, imports, refreshes and rebuilds, each cached hash goes back to content that went with the indexed state |
| BackupHistory.CachedAsRehashed | packages/backup-local/src/service.ts:1009-1065 | a cached hash that goes back to a true look gives the entry of rehashing |
| BackupHistory.ReachableAsRehashed | packages/backup-local/src/service.ts:577-1197 | so after every run, a creation with cached hashes writes the same snapshot and blobs as one that reads every file again |
| BackupVault.AdoptedVerifies | packages/backup-local/src/service.ts:1165-1192 | after an import the snapshot verifies even over corrupt blobs, whether it was added or repaired |
| BackupVault.ExportImport | packages/backup-local/src/service.ts:1119-1197 | an exported snapshot can be imported exactly when the bundle is within both size limits and its archive paths are in checked form and distinct; it then has the same manifest and verifies |
| BackupVault.PortablePathsReliable | packages/backup-local/src/service.ts:177-184 | the check of archive paths is as the vault needs it: what it accepts, it accepts unchanged |
| BackupIndex.RefreshedFiles | packages/backup-local/src/service.ts:693-753 | a partial refresh replaces exactly the slice of its source |
| BackupIndex.KindsCounted | packages/backup-local/src/service.ts:679-685 | a row counts how often each kind is given to one of its files |
| BackupIndex.IncrementalBySource | packages/backup-local/src/service.ts:577-813 | refreshing the sources one at a time, in any order that reaches all, gives every source the rows, files and exclusions of a full rebuild |
| BackupIndex.IncrementalIsFull | packages/backup-local/src/service.ts:577-813 | the whole lists are those of a full rebuild when entries of different sources never tie in the order |
| SortedSlices.TiesShowOrder | packages/backup-local/src/service.ts:693-753 | an input where entries tie and the lists differ |
| BackupRefresh.CarriedRemembered | packages/backup-local/src/service.ts:694-720 | a hash that is carried over still belongs to the present metadata |
| BackupRefresh.OverviewIsRow | packages/backup-local/src/service.ts:815-857 | the overview of a source right after its refresh is its row in the plan |
| BackupRefresh.StaleWhileRevalidate.MergeSourceOverview | packages/backup-local/src/stale-while-revalidate.ts:106-119 | the rows stay sorted, the source and every other source among the new rows have exactly their new rows in order, and the remaining sources keep theirs |
| BackupRefresh.RebuiltOverview | packages/backup-local/src/service.ts:815-857 | the overview of a rebuilt index shows the rows that the rebuild counted |
| BackupRefresh.StaleWhileRevalidate.BeginRefresh | packages/backup-local/src/stale-while-revalidate.ts:139-175 | each source that can be scanned is refreshed in turn, a failing one keeps its old part, and the index is stale exactly when one failed; without an order everything is rebuilt at once, and a failure leaves the old rows marked stale |
| BackupRefresh.ShownBySource | packages/backup-local/src/stale-while-revalidate.ts:106-175 | when every source was reached, each shows the rows that a full rebuild gives it |
| BackupRefresh.ShownAsRebuilt | packages/backup-local/src/stale-while-revalidate.ts:106-175 | the rows shown are then those of a full rebuild when rows of different sources never tie |
| PortablePath.SafeTwice | packages/backup-local/src/service.ts:177-184 | an accepted path is accepted again as it is |
| PortablePath.SafeStaysInside | packages/backup-local/src/service.ts:177-184 | an accepted path is not absolute and has no part that leads up |
| Installer.StateExact | packages/integration-packages/src/service.ts:636-728 | a restart finds a verified version exactly when it is the one on record as installed, its manifest has the trusted hash, identity and version, and its files are those listed, with their sizes and hashes |
| Installer.IntegrationPackage.InstallAvailable | packages/integration-packages/src/service.ts:509-576 | an installation goes through exactly the specified states of the disk, and ends with a pointer to the bundle's manifest and files, with every other version as before |
| Installer.IntegrationPackage.Update | packages/integration-packages/src/service.ts:464-479 | an update is refused without an installation, does nothing when the bundle's version is verified and compatible, and else installs the bundle; that is refused exactly for another interface or a bad file, and then changes nothing |
| Installer.IntegrationPackage.Remove | packages/integration-packages/src/service.ts:481-507 | a removal is one rename of the whole root, or nothing when it is blocked |
| Installer.PlacedVerified | packages/integration-packages/src/service.ts:535-563 | what stands in the version's place before the pointer moves is the bundle's package |
| Installer.InstallCrashSafe | packages/integration-packages/src/service.ts:509-576 | after a crash at any point a restart finds the old or the new installation, exactly when no verified package of the same version is replaced |
| Installer.ServiceCrashSafe | packages/integration-packages/src/service.ts:447-576 | with the state as on disk, installing and updating are safe exactly when no incompatible package of the same version is replaced |
| Installer.IncompatibleReplaced | packages/integration-packages/src/service.ts:509-576 | an installation where that happens |
| Installer.UpdateCrashAtomic | packages/integration-packages/src/service.ts:464-576 | during an update of a verified installation a restart finds the old version before the last step and the new one after it |
| Installer.RestartsExact | packages/integration-packages/src/service.ts:322-576 | however often the program crashes in an installation or update and starts again, it finds the old or the new installation, exactly when it did not find an incompatible package of its own version at first |
| Installer.UndisturbedInstalls | packages/integration-packages/src/service.ts:322-576 | whatever the crashes left, an installation that is not interrupted leaves a verified and compatible package |
| PackageOperations.Operations.PruneOperations | packages/integration-packages/src/service.ts:830-840 | only finished operations are dropped, oldest first, down to the limit where that is possible |
| PayloadBound.TruncateToBytes | packages/capture-policy/src/service.ts:215-225 | a text that does not fit is cut to the longest marked prefix that fits, among those whose share of the text is not more than the budget's share of its bytes |
| PayloadBound.CutTextKeeps | packages/capture-policy/src/service.ts:215-225 | a text that is cut still keeps about an eighth of its budget |
| PayloadBound.BoundPersistedPayload | packages/capture-policy/src/service.ts:227-249 | the recursive loops compute the specified truncation |
| PayloadBound.BoundFits | packages/capture-policy/src/service.ts:227-249 | every payload fits its budget |
| PayloadBound.BoundTruncates | packages/capture-policy/src/service.ts:227-249 | what is kept is a prefix at every level, and nothing else |
| PayloadBound.ArrayTight | packages/capture-policy/src/service.ts:230-238 | an array drops an item only when what it keeps is within 258 bytes of the budget |
| PayloadBound.ObjectTight | packages/capture-policy/src/service.ts:239-247 | an object keeps its keys up to the first dropped one, and drops that only within 264 bytes and the key of the budget |
| Sanitizer.Walk.SanitizeValue | packages/capture-policy/src/service.ts:122-169 | the walk that marks and unmarks objects ends on every graph and gives the specified value |
| Sanitizer.SlotClean | packages/capture-policy/src/service.ts:145-168 | at any depth a sensitive key carries only the marker, and no list or object has more than 100 entries |
| Sanitizer.UnchangedSlot | packages/capture-policy/src/service.ts:122-169 | a value reported as unchanged is the input, apart from properties called `__proto__` |
| Sanitizer.ChangedExact | packages/capture-policy/src/service.ts:122-169 | a value is reported as changed exactly when there is something in it to cut, redact, replace or drop |
| Sanitizer.ProtoIsLost | packages/capture-policy/src/service.ts:155-168 | a property called `__proto__` is lost without a report |
| Sanitizer.PathReads | packages/capture-policy/src/service.ts:122-169 | reading a path in a sanitized graph gives the marker when a key on it is sensitive, and the sanitized leaf otherwise |
| CapturePolicy.CapturedFits | packages/capture-policy/src/service.ts:301-330 | every captured payload fits 96 KiB |
| CapturePolicy.OffPrimitivesFit | packages/capture-policy/src/service.ts:190-198 | the payload kept of a tool that is not captured fits 96 KiB when every kept property holds a primitive and redaction keeps a text of 512 units within 4600 bytes |
| CapturePolicy.OffPayloadUnbounded | packages/capture-policy/src/service.ts:190-198 | with an object in a kept property each further level of lists that hold the one before twice doubles it, so it exceeds any size |
| CapturePolicy.SeventeenLevels | packages/capture-policy/src/service.ts:122-198 | seventeen such levels exceed 96 KiB |
| ToolFragments.ReadFragment | packages/core-services/src/native-session-reader.ts:521-570 | a fragment is hidden, replaced by the marker, or shown sanitized, with the right flags in each case |
| ToolFragments.AgreesWithWholeObject | packages/core-services/src/native-session-reader.ts:545-563 | redacting a fragment alone gives what sanitizing the whole object and reading the path gives |
| HookConfig.OwnExact | packages/hook-manager/src/index.ts:125-127 | a handler is an own one exactly when the marker is somewhere in its command |
| HookConfig.Configuration.StripAgentLensHandlers | packages/hook-manager/src/index.ts:129-149 | stripping reports exactly the coordinates of the own handlers and leaves the specified configuration |
| HookConfig.Configuration.Install | packages/hook-manager/src/index.ts:260-274 | installing strips and adds, or fails when an event holds no list |
| HookConfig.Configuration.Uninstall | packages/hook-manager/src/index.ts:276-284 | uninstalling strips, and reports what it removed |
| HookConfig.StripKeepsForeign | packages/hook-manager/src/index.ts:129-149 | stripping keeps every foreign handler under its event and matcher, and every value that is no list, in order; it drops groups and events without handlers, and is done after one time |
| HookConfig.StripRemovesOwn | packages/hook-manager/src/index.ts:129-171 | after stripping no own handler has a coordinate |
| HookConfig.InstalledOnce | packages/hook-manager/src/index.ts:260-274 | after installing each event has exactly the own handlers that were added to it, whatever was there before |
| HookConfig.InstallTwice | packages/hook-manager/src/index.ts:260-274 | whenever installing works, whatever the configuration holds, installing twice gives the same events with the same values as installing once exactly when the command is recognised as an own one |
| HookConfig.InstallTwiceInPlace | packages/hook-manager/src/index.ts:260-274 | without null values the order of events is the same too |
| HookConfig.NullMoves | packages/hook-manager/src/index.ts:260-274 | an input where a null value moves an event |
| HookConfig.UninstallUndoesInstall | packages/hook-manager/src/index.ts:260-284 | uninstalling after installing is stripping, exactly when every installed command is recognised as an own one and no event that gets a handler held null |
| HookConfig.UnrecognisedStays | packages/hook-manager/src/index.ts:260-284 | with an installed command that is not recognised, uninstalling does not give the stripped configuration |
| HookConfig.NullIsLost | packages/hook-manager/src/index.ts:260-284 | an input where a null value is lost |
| TrustState.HeaderExact | packages/hook-manager/src/index.ts:205-223 | a line is a section header exactly when it is a text in brackets that is not empty and has no line end |
| TrustState.RewriteTrustState | packages/hook-manager/src/index.ts:205-223 | the loop with its flag keeps exactly the lines outside the removed sections and adds the new ones |
| TrustState.RewriteTwice | packages/hook-manager/src/index.ts:205-234 | rewriting twice, the second time removing the sections just added and any of those removed before, is rewriting once exactly when no line that stays ends with a return character |
| TrustState.StrayReturnIsLost | packages/hook-manager/src/index.ts:205-223 | an input where a line does |
| TrustState.RewriteTrusts | packages/hook-manager/src/index.ts:205-254 | a rewriting that adds every current handler leaves the status trusted |

## Left out

- Files, processes, SQLite, HTTP and timers: their contract only (maps for disks, an append-only log, chunks with an ending); disk-full and permission errors are not modelled, except where a step may fail in the code's own logic.
- SHA-256, gzip, base64url, URI encoding, JSON text, TOML and locale collation: functions with the stated inverse, order or injectivity.
- The text redaction patterns, the secret scan and the choice of sensitive keys: functions of their input.
- Extraction of texts and attachments from message payloads, and the registry of tools: an item carries its text, its keys and its evidence.
- HookWindow.OverlayNativeHookEvents: the projection fields that are only copied are not modelled.
- ReviewGroups.SplitInteractionGroups: observation ids are distinct and not empty.
- HermesStream.RunEvents.Run: waiting between attempts is not modelled, so an abort comes with a connection; a server is a function of the attempt and the last sequence number; UTF-8 decoding of split characters is left to the decoder.
- HermesStream.DecodeEncoded: payloads on several data lines are not part of the round trip.
- RunTranscript.TranscriptCorrect: minted message ids are different from each other by construction; lengths count characters, where the code counts UTF-16 units.
- CodexTurns.ReadThread: a thread has no more rows than there are safe integers in JavaScript.
- CodexPolling.FollowThread: items are only added behind all others and stay as they are; at each poll the newest turn has items and a cursor to turn round by, which leads to it (packages/live-codex/src/history-cursor.ts:5), and no link leads behind it (without the first the anchor stays, see above). Polls of a turn that is still streaming, which keep the anchor, and merging the entries into the view are not modelled.
- CodexPolling.LoadBehind: the text of a cursor has no white space around it.
- CapturePolicy.OffPrimitivesFit: the names of the 21 kept keys are a parameter; their number and length are fixed.
- HermesPaging.HermesServer.Read: a row id is a text or a safe integer; rows without such an id, and numbers beyond, are not modelled.
- HookOverlay.OverlayEvents: the time of a node always parses.
- CodexRpc.CodexRpc.Consume: a listener that throws in the middle of a message, and the reaction of the child process to being ended, are not part of this model.
- CodexApprovals.Session.Terminate: the interrupt request that precedes it has no effect on the queue and is left out, as are recovery records and tool output previews.
- BackupService.LocalBackupService.StoreBlob: a write is complete or fails; a blob that is cut off by a crash is only found by the next import or verification.
- BackupIndex.IncrementalIsFull: paths are taken as resolved, and calls that join a refresh in flight are not modelled.
- Scanning of directories, detection of installations, restore previews and attachment accounting: their results are inputs of the index.
- Installer.IntegrationPackage.InstallAvailable: one integration at a time; parsing of catalogues and path checks are functions, and the queue of operations is not modelled beyond its list.
- PayloadBound.TruncateToBytes: the start of the search is computed with exact integers, where the code divides floating-point numbers.
- Sanitizer.Walk.SanitizeValue: getters and objects with their own JSON conversion are not modelled.
- HookConfig.Configuration.Install: the order of keys that look like integers, which JavaScript moves to the front, is not modelled.
- TrustState.RewriteTrustState: keys and hashes of handlers are functions; keys with line ends in them are excluded where two rewritings are compared.
- The migration and audit scripts, command line, daemon composition, catalogues of integrations, workspace readers and diff parsers: mostly field copying, tables and conjunctions of flags.
