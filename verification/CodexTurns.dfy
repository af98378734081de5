/** Codex history: bounded snapshots over native turn pages, and cursors into them. */
module CodexTurns {
  import opened Prelude

  // ---------------------------------------------------------------------
  // Native items and shared entries.

  datatype Kind =
    | UserMessage(text: string)
    | AgentMessage(text: string)
    | Reasoning(summary: string)
    | Tool(inProgress: bool)
    | OtherKind

  datatype Item = Item(id: string, kind: Kind)

  datatype Entry =
    | MessageEntry(id: string, role: string, text: string)
    | ReasoningEntry(id: string, text: string)
    | ToolCallEntry(id: string)
    | ToolResultEntry(id: string)

  function EntriesOf(item: Item): (r: seq<Entry>)
    ensures |r| <= 2
  {
    match item.kind
    case UserMessage(text) => if text != "" then [MessageEntry(item.id, "user", text)] else []
    case AgentMessage(text) => if text != "" then [MessageEntry(item.id, "assistant", text)] else []
    case Reasoning(summary) => if summary != "" then [ReasoningEntry(item.id, summary)] else []
    case Tool(inProgress) =>
      if inProgress then [ToolCallEntry(item.id)] else [ToolCallEntry(item.id), ToolResultEntry(item.id)]
    case OtherKind => []
  }

  /** The entry shows the item, or a part of it. */
  predicate ShowsItem(entry: Entry, item: Item) {
    match entry
    case MessageEntry(id, role, text) =>
      && id == item.id && text != ""
      && (|| (role == "user" && item.kind == UserMessage(text))
          || (role == "assistant" && item.kind == AgentMessage(text)))
    case ReasoningEntry(id, text) => id == item.id && text != "" && item.kind == Reasoning(text)
    case ToolCallEntry(id) => id == item.id && item.kind.Tool?
    case ToolResultEntry(id) => id == item.id && item.kind == Tool(false)
  }

  /** An item has exactly the entries that show it. */
  lemma {:induction false} EntriesExact(item: Item, entry: Entry)
    ensures entry in EntriesOf(item) <==> ShowsItem(entry, item)
  {
    match item.kind {
      case UserMessage(text) =>
      case AgentMessage(text) =>
      case Reasoning(summary) =>
      case Tool(inProgress) =>
      case OtherKind =>
    }
  }

  /** No entry is repeated, and the result of a tool comes right behind its call. */
  lemma {:induction false} ResultBehindCall(item: Item)
    ensures if item.kind == Tool(false) then EntriesOf(item) == [ToolCallEntry(item.id), ToolResultEntry(item.id)]
            else |EntriesOf(item)| <= 1
  {
  }

  /** The entries of a list of items are exactly those that show one of them. */
  lemma {:induction false} AllEntriesExact(items: seq<Item>, entry: Entry)
    ensures entry in AllEntries(items) <==> exists item | item in items :: ShowsItem(entry, item)
  {
    if items != [] {
      var front, last := items[..|items| - 1], items[|items| - 1];
      assert items == front + [last];
      AllEntriesExact(front, entry);
      EntriesExact(last, entry);
      assert last in items;
    }
  }

  function AllEntries(items: seq<Item>): seq<Entry> {
    FlatMap(EntriesOf, items)
  }

  lemma {:induction false} TwoEntriesAnItem(items: seq<Item>)
    ensures |AllEntries(items)| <= 2 * |items|
  {
    if items != [] {
      TwoEntriesAnItem(items[..|items| - 1]);
    }
  }

  function Clamp(low: int, high: int, x: int): int {
    if x > high then (if high > low then high else low) else if x > low then x else low
  }

  lemma {:induction false} OneMoreItem(before: seq<Item>, items: seq<Item>, i: nat)
    requires i < |items|
    ensures AllEntries(before + items[..i + 1]) == AllEntries(before + items[..i]) + EntriesOf(items[i])
  {
    FlatMapSnoc(EntriesOf, before + items[..i], items[i]);
    assert before + items[..i + 1] == (before + items[..i]) + [items[i]];
  }

  method AddTurn(entries: seq<Entry>, items: seq<Item>, ghost before: seq<Item>) returns (result: seq<Entry>)
    requires entries == AllEntries(before)
    ensures result == AllEntries(before + items)
  {
    result := entries;
    assert before + items[..0] == before;
    for i := 0 to |items|
      invariant result == AllEntries(before + items[..i])
    {
      OneMoreItem(before, items, i);
      result := result + EntriesOf(items[i]);
    }
    assert items[..|items|] == items;
  }

  /** The last entries of the turns, at most as many as the limit allows. */
  method CodexSnapshotEntries(turns: seq<seq<Item>>, limit: int) returns (entries: seq<Entry>, hasEarlier: bool)
    ensures entries == LastEntries(Flatten(turns), limit)
    ensures hasEarlier <==> |AllEntries(Flatten(turns))| > |entries|
    ensures hasEarlier ==> |entries| == (if limit < 1 then 1 else if limit > 500 then 500 else limit)
    ensures forall entry | entry in entries :: exists item | item in Flatten(turns) :: ShowsItem(entry, item)
    ensures !hasEarlier ==>
      forall item, entry | item in Flatten(turns) && ShowsItem(entry, item) :: entry in entries
  {
    entries := [];
    for t := 0 to |turns|
      invariant entries == AllEntries(Flatten(turns[..t]))
    {
      FlattenSnoc(turns[..t], turns[t]);
      assert turns[..t + 1] == turns[..t] + [turns[t]];
      entries := AddTurn(entries, turns[t], Flatten(turns[..t]));
    }
    assert turns[..|turns|] == turns;
    var max := Clamp(1, 500, limit);
    hasEarlier := |entries| > max;
    if hasEarlier {
      entries := entries[|entries| - max..];
    }
    assert forall entry | entry in entries :: entry in AllEntries(Flatten(turns));
    forall entry ensures entry in AllEntries(Flatten(turns))
      <==> exists item | item in Flatten(turns) :: ShowsItem(entry, item)
    {
      AllEntriesExact(Flatten(turns), entry);
    }
  }

  // ---------------------------------------------------------------------
  // Cursors.

  datatype Direction = Asc | Desc

  /** A missing native cursor is empty. */
  datatype TurnCursor =
    | PageCursor(direction: Direction, cursor: string, skip: nat)
    | AnchorCursor(turnId: string, itemId: string, backwardsCursor: string)

  datatype HistoryError = InvalidCursor | CursorTooLong | NoPageData | NoTurnItems | AnchorUnavailable

  const PREFIX := "codex-turn-history:"
  const MAX_CURSOR_LENGTH := 8192
  const MAX_SAFE_INTEGER: nat := 0x1F_FFFF_FFFF_FFFF

  /** JSON text in base64url, and what is known about it. */
  datatype Codec = Codec(text: TurnCursor -> string, parse: string -> Option<TurnCursor>)

  ghost predicate Faithful(codec: Codec) {
    forall c :: codec.parse(codec.text(c)) == Some(c)
  }

  predicate IsCodexTurnHistoryCursor(value: string) {
    PREFIX <= value
  }

  predicate IsValid(c: TurnCursor) {
    match c
    case PageCursor(_, _, skip) => skip <= MAX_SAFE_INTEGER
    case AnchorCursor(turnId, itemId, backwardsCursor) => turnId != "" && itemId != "" && backwardsCursor != ""
  }

  function EncodeCursor(codec: Codec, c: TurnCursor): Result<string, HistoryError> {
    var encoded := PREFIX + codec.text(c);
    if |encoded| > MAX_CURSOR_LENGTH then Err(CursorTooLong) else Ok(encoded)
  }

  function DecodeCursor(codec: Codec, value: string): Result<TurnCursor, HistoryError> {
    if !IsCodexTurnHistoryCursor(value) || |value| > MAX_CURSOR_LENGTH then Err(InvalidCursor)
    else match codec.parse(value[|PREFIX|..])
      case Some(c) => if IsValid(c) then Ok(c) else Err(InvalidCursor)
      case None => Err(InvalidCursor)
  }

  /** What cursors are written and read, in terms of their text. */
  lemma {:induction false} CursorTexts(codec: Codec, c: TurnCursor, value: string)
    ensures EncodeCursor(codec, c)
      == if 19 + |codec.text(c)| > 8192 then Err(CursorTooLong) else Ok("codex-turn-history:" + codec.text(c))
    ensures DecodeCursor(codec, value) == Ok(c) <==>
      && "codex-turn-history:" <= value && |value| <= 8192 && codec.parse(value[19..]) == Some(c)
      && (c.PageCursor? ==> c.skip <= MAX_SAFE_INTEGER)
      && (c.AnchorCursor? ==> c.turnId != "" && c.itemId != "" && c.backwardsCursor != "")
    ensures DecodeCursor(codec, value).Err? ==> DecodeCursor(codec, value) == Err(InvalidCursor)
  {
  }

  /** A cursor survives encoding exactly when it is valid. */
  lemma {:induction false} CursorRoundTrip(codec: Codec, c: TurnCursor)
    requires Faithful(codec) && EncodeCursor(codec, c).Ok?
    ensures IsCodexTurnHistoryCursor(EncodeCursor(codec, c).value)
    ensures DecodeCursor(codec, EncodeCursor(codec, c).value) == if IsValid(c) then Ok(c) else Err(InvalidCursor)
  {
    assert (PREFIX + codec.text(c))[|PREFIX|..] == codec.text(c);
  }

  // ---------------------------------------------------------------------
  // The native server.

  datatype NativeTurn = NativeTurn(id: string, items: Option<seq<Item>>)

  datatype NativePage = NativePage(data: Option<seq<NativeTurn>>, nextCursor: string, backwardsCursor: string)

  /** A page request: limit, direction and cursor, where an empty cursor starts at the end of the direction. */
  type TurnsList = (nat, Direction, string) -> NativePage

  datatype Turn = Turn(id: string, items: seq<Item>)

  function Reversed<T>(s: seq<T>): (r: seq<T>)
    ensures |r| == |s| && forall i | 0 <= i < |s| :: r[i] == s[|s| - 1 - i]
  {
    seq(|s|, i requires 0 <= i < |s| => s[|s| - 1 - i])
  }

  /** In the order of reading. */
  function Ordered<T>(direction: Direction, s: seq<T>): (r: seq<T>)
    ensures |r| == |s|
  {
    if direction.Desc? then Reversed(s) else s
  }

  predicate SameTurns(data: seq<NativeTurn>, turns: seq<Turn>) {
    |data| == |turns| && forall i | 0 <= i < |data| :: data[i] == NativeTurn(turns[i].id, Some(turns[i].items))
  }

  /** Which cursors a server has issued, and how many turns of their direction lie before them. */
  datatype Positions = Positions(knows: (Direction, string) -> bool, at: (Direction, string) -> nat)

  /** An unchanging thread served page by page; only the last page of a direction has no next cursor. */
  ghost predicate Serves(list: TurnsList, thread: seq<Turn>, p: Positions) {
    && (forall d: Direction :: p.knows(d, "") && p.at(d, "") == 0)
    && (forall limit: nat, d: Direction, cursor: string | limit > 0 && p.knows(d, cursor) ::
         ServesPage(list(limit, d, cursor), thread, p, d, cursor))
  }

  ghost predicate ServesPage(page: NativePage, thread: seq<Turn>, p: Positions, d: Direction, cursor: string) {
    && page.data.Some?
    && var from, size := p.at(d, cursor), |page.data.value|;
    && from + size <= |thread|
    && SameTurns(page.data.value, Ordered(d, thread)[from..from + size])
    && (page.nextCursor == "" ==> from + size == |thread|)
    && (page.nextCursor != "" ==> size > 0 && p.knows(d, page.nextCursor) && p.at(d, page.nextCursor) == from + size)
  }

  // ---------------------------------------------------------------------
  // One snapshot.

  datatype Row = Row(turnId: string, item: Item)

  datatype SnapshotWindow = SnapshotWindow(
    limit: Option<real>,
    before: Option<string>,
    after: Option<string>,
    earliest: bool)

  datatype PageInfo = PageInfo(hasEarlier: bool, before: Option<string>, hasLater: bool, after: Option<string>)

  datatype Snapshot = Snapshot(entries: seq<Entry>, leafId: Option<string>, page: PageInfo)

  function Limit(limit: Option<real>): (n: nat)
    ensures 1 <= n <= 500 && (limit == None ==> n == 120)
    ensures limit.Some? && limit.value >= 1.0 ==>
      n as real <= limit.value && (n == 500 || limit.value < n as real + 1.0)
    ensures limit.Some? && limit.value < 1.0 ==> n == 1
  {
    Clamp(1, 500, if limit.Some? then limit.value.Floor else 120)
  }

  /** A third of the limit, rounded up, but from 1 to 32 turns. */
  function NativeLimit(limit: nat): (n: nat)
    ensures 1 <= n <= 32 && (n == 32 || limit <= 3 * n) && (n == 1 || limit > 3 * (n - 1))
  {
    Clamp(1, 32, (limit + 2) / 3)
  }

  /** Half of the limit, rounded down, but at least one row. */
  function Budget(limit: nat): (n: nat)
    ensures 1 <= n && (limit >= 2 ==> 2 * n <= limit <= 2 * n + 1) && (limit < 2 ==> n == 1)
  {
    if limit / 2 > 1 then limit / 2 else 1
  }

  function TagRows(turnId: string, items: seq<Item>): (r: seq<Row>)
    ensures |r| == |items| && forall i | 0 <= i < |r| :: r[i] == Row(turnId, items[i])
  {
    seq(|items|, i requires 0 <= i < |items| => Row(turnId, items[i]))
  }

  /** The rows of full turns, in the order of reading. */
  function Rows(direction: Direction, turns: seq<Turn>): seq<Row> {
    FlatMap((turn: Turn) => TagRows(turn.id, Ordered(direction, turn.items)), turns)
  }

  /** The turns of a page that holds all its items. */
  function FullTurns(data: seq<NativeTurn>): (r: seq<Turn>)
    requires forall turn | turn in data :: turn.items.Some?
    ensures SameTurns(data, r)
  {
    seq(|data|, i requires 0 <= i < |data| => Turn(data[i].id, data[i].items.value))
  }

  function Slice<T>(s: seq<T>, from: nat, size: nat): (r: seq<T>)
    ensures |r| <= size
  {
    if from >= |s| then [] else if from + size > |s| then s[from..] else s[from..from + size]
  }

  /** The position after a row, in a page request of the given cursor. */
  function Next(c: TurnCursor, page: NativePage, rows: seq<Row>, end: nat): Option<TurnCursor>
    requires c.PageCursor?
  {
    if end < |rows| then Some(PageCursor(c.direction, c.cursor, end))
    else if page.nextCursor != "" then Some(PageCursor(c.direction, page.nextCursor, 0))
    else None
  }

  function FindRow(rows: seq<Row>, turnId: string, itemId: string): (n: nat)
    ensures n <= |rows|
    ensures n < |rows| ==> rows[n].turnId == turnId && rows[n].item.id == itemId
    ensures forall k | 0 <= k < n :: rows[k].turnId != turnId || rows[k].item.id != itemId
  {
    if rows == [] || (rows[0].turnId == turnId && rows[0].item.id == itemId) then 0
    else 1 + FindRow(rows[1..], turnId, itemId)
  }

  function ItemsOf(rows: seq<Row>): (r: seq<Item>)
    ensures |r| == |rows| && forall i | 0 <= i < |r| :: r[i] == rows[i].item
  {
    seq(|rows|, i requires 0 <= i < |rows| => rows[i].item)
  }

  function LastEntries(items: seq<Item>, limit: int): seq<Entry> {
    var all, max := AllEntries(items), Clamp(1, 500, limit);
    if |all| > max then all[|all| - max..] else all
  }

  function EncodeSome(codec: Codec, c: Option<TurnCursor>): Result<Option<string>, HistoryError> {
    if c.None? then Ok(None) else
      var text :- EncodeCursor(codec, c.value);
      Ok(Some(text))
  }

  /** The newest row of a thread, when a later request for it agrees. */
  function LatestAnchor(latest: NativePage, last: Row): Option<TurnCursor> {
    if latest.data.Some? && latest.data.value != [] && latest.data.value[0].items.Some?
      && latest.data.value[0].items.value != [] then
      var first := latest.data.value[0];
      var actual := first.items.value[|first.items.value| - 1];
      if first.id == last.turnId && actual.id == last.item.id && latest.backwardsCursor != "" then
        Some(AnchorCursor(last.turnId, last.item.id, latest.backwardsCursor))
      else None
    else None
  }

  function Selector(codec: Codec, since: Option<string>,
      window: SnapshotWindow): Result<Option<TurnCursor>, HistoryError>
  {
    var requested := if since.Some? then since else if window.after.Some? then window.after else window.before;
    if requested.Some? && IsCodexTurnHistoryCursor(requested.value) then
      var c :- DecodeCursor(codec, requested.value);
      Ok(Some(c))
    else Ok(None)
  }

  /** The page request that a selector asks for. */
  function Position(selector: Option<TurnCursor>, earliest: bool): (c: TurnCursor)
    ensures c.PageCursor?
  {
    match selector
    case Some(AnchorCursor(_, _, backwardsCursor)) => PageCursor(Asc, backwardsCursor, 0)
    case Some(PageCursor(direction, cursor, skip)) => PageCursor(direction, cursor, skip)
    case None => PageCursor(if earliest then Asc else Desc, "", 0)
  }

  function RowsOf(c: TurnCursor, page: NativePage): Result<seq<Row>, HistoryError>
    requires c.PageCursor?
  {
    if page.data.None? then Err(NoPageData)
    else if exists turn | turn in page.data.value :: turn.items.None? then Err(NoTurnItems)
    else Ok(Rows(c.direction, FullTurns(page.data.value)))
  }

  function Offset(selector: Option<TurnCursor>, rows: seq<Row>): Result<nat, HistoryError> {
    match selector
    case None => Ok(0)
    case Some(PageCursor(_, _, skip)) => Ok(skip)
    case Some(AnchorCursor(turnId, itemId, _)) =>
      var found := FindRow(rows, turnId, itemId);
      if found == |rows| then Err(AnchorUnavailable) else Ok(found + 1)
  }

  predicate Given(text: Option<string>) {
    text.Some? && text.value != ""
  }

  /** The page was asked for by its cursor, in the direction of reading. */
  predicate Turned(selector: Option<TurnCursor>, c: TurnCursor, window: SnapshotWindow)
    requires c.PageCursor?
  {
    if c.direction.Asc? then selector.Some? else Given(window.before)
  }

  /** The cursor that turns round and leads back over the page. */
  function BackOf(c: TurnCursor, page: NativePage, turned: bool): Option<TurnCursor>
    requires c.PageCursor?
  {
    if turned && page.backwardsCursor != "" then
      Some(PageCursor(if c.direction.Asc? then Desc else Asc, page.backwardsCursor, 0))
    else None
  }

  /** The newest row shown, for polling from it. */
  function LeafOf(list: TurnsList, c: TurnCursor, page: NativePage, chronological: seq<Row>, next: Option<TurnCursor>,
                  turned: bool): Option<TurnCursor>
    requires c.PageCursor?
  {
    if chronological == [] then None else
      var last := chronological[|chronological| - 1];
      if last.turnId == "" || last.item.id == "" then None
      else if c.direction.Desc? then
        if !turned && page.backwardsCursor != "" then
          Some(AnchorCursor(last.turnId, last.item.id, page.backwardsCursor))
        else None
      else if next.None? then LatestAnchor(list(1, Desc, ""), last)
      else None
  }

  /** The leaf of a snapshot: its own, or that of the anchor it was asked with. */
  function LeafId(selector: Option<TurnCursor>, since: Option<string>, leaf: Option<string>): Option<string> {
    if leaf.None? && selector.Some? && selector.value.AnchorCursor? && since.Some? then since else leaf
  }

  /** The snapshot with these entries, when its cursors can be written. */
  function SnapshotWith(codec: Codec, entries: seq<Entry>, since: Option<string>, window: SnapshotWindow,
                        selector: Option<TurnCursor>, c: TurnCursor, next: Option<TurnCursor>,
                        leaf: Option<TurnCursor>, back: Option<TurnCursor>): Result<Snapshot, HistoryError>
    requires c.PageCursor?
  {
    var nextText :- EncodeSome(codec, next);
    var leafText :- EncodeSome(codec, leaf);
    var backText :- EncodeSome(codec, back);
    Ok(Snapshot(
      entries,
      LeafId(selector, since, leafText),
      if c.direction.Asc? then PageInfo(selector.Some?, backText, next.Some?, nextText)
      else PageInfo(next.Some?, nextText, Given(window.before), backText)))
  }

  /** The snapshot of a page, given its rows and the first of them to show. */
  function SnapshotOf(list: TurnsList, codec: Codec, since: Option<string>, window: SnapshotWindow,
                      selector: Option<TurnCursor>, c: TurnCursor, page: NativePage, rows: seq<Row>, offset: nat)
    : Result<Snapshot, HistoryError>
    requires c.PageCursor?
  {
    var limit := Limit(window.limit);
    var selected := Slice(rows, offset, Budget(limit));
    var chronological := Ordered(c.direction, selected);
    var next := Next(c, page, rows, offset + |selected|);
    SnapshotWith(
      codec, LastEntries(ItemsOf(chronological), if limit > 2 then limit else 2), since, window, selector, c, next,
      LeafOf(list, c, page, chronological, next, Turned(selector, c, window)),
      BackOf(c, page, Turned(selector, c, window)))
  }

  function SnapshotCodexTurnHistory(list: TurnsList, codec: Codec, since: Option<string>, window: SnapshotWindow)
    : Result<Snapshot, HistoryError>
  {
    var selector :- Selector(codec, since, window);
    var c := Position(selector, window.earliest);
    var page := list(NativeLimit(Limit(window.limit)), c.direction, c.cursor);
    var rows :- RowsOf(c, page);
    var offset :- Offset(selector, rows);
    SnapshotOf(list, codec, since, window, selector, c, page, rows, offset)
  }

  /** Which text is read as a cursor: of the three that can be given, the first one that is, if it looks like one. */
  lemma {:induction false} SelectorExact(codec: Codec, since: Option<string>, window: SnapshotWindow)
    ensures var (asked, selector) := (if since != None then since else if window.after != None then window.after
                                      else window.before, Selector(codec, since, window));
      if asked.Some? && "codex-turn-history:" <= asked.value
      then selector == (match DecodeCursor(codec, asked.value)
                        case Ok(c) => Ok(Some(c))
                        case Err(_) => Err(InvalidCursor))
      else selector == Ok(None)
  {
  }

  /** The newest turn that a page begins with ends with this row. */
  predicate BeginsWithNewest(page: NativePage, row: Row) {
    && page.data.Some? && page.data.value != [] && page.data.value[0].id == row.turnId
    && page.data.value[0].items.Some? && page.data.value[0].items.value != []
    && var items := page.data.value[0].items.value; items[|items| - 1].id == row.item.id
  }

  /**
   * The anchor of a snapshot names its newest row. A page that was read from the newest row
   * on gives it with its own cursor; one that was read towards it does only if it is the
   * last one, and if another look at the newest turn finds that row at its end.
   */
  predicate IsLeaf(list: TurnsList, c: TurnCursor, page: NativePage, shown: seq<Row>, hasNext: bool, turned: bool,
                   leaf: Option<TurnCursor>)
    requires c.PageCursor?
  {
    if shown == [] then leaf == None else
      var newest := if c.direction == Asc then shown[|shown| - 1] else shown[0];
      var other := if c.direction == Asc then list(1, Desc, "") else page;
      if newest.turnId != "" && newest.item.id != "" && other.backwardsCursor != ""
         && (if c.direction == Asc then !hasNext && BeginsWithNewest(other, newest) else !turned)
      then leaf == Some(AnchorCursor(newest.turnId, newest.item.id, other.backwardsCursor))
      else leaf == None
  }

  lemma {:induction false} LeafExact(list: TurnsList, c: TurnCursor, page: NativePage, shown: seq<Row>,
                                     next: Option<TurnCursor>, turned: bool)
    requires c.PageCursor?
    ensures IsLeaf(list, c, page, shown, next.Some?, turned,
      LeafOf(list, c, page, Ordered(c.direction, shown), next, turned))
  {
  }

  /** The text of a cursor, if there is one. */
  function TextOf(codec: Codec, c: Option<TurnCursor>): Option<string> {
    if c == None then None else Some("codex-turn-history:" + codec.text(c.value))
  }

  /**
   * The other direction of a page: a page that was asked for by a cursor, in its direction
   * of reading, says that there is more behind, and links there when it can turn round. The
   * anchor of the snapshot is its own or, for a poll that has none, the one it was asked with.
   */
  ghost predicate LinksTold(list: TurnsList, codec: Codec, since: Option<string>, window: SnapshotWindow,
                            selector: Option<TurnCursor>, c: TurnCursor, page: NativePage, shown: seq<Row>,
                            next: Option<TurnCursor>, leaf: Option<TurnCursor>, s: Snapshot)
    requires c.PageCursor?
  {
    var turned := if c.direction == Asc then selector != None
        else window.before != None && window.before != Some("");
    var back := if !turned || page.backwardsCursor == "" then None
      else Some(PageCursor(if c.direction == Asc then Desc else Asc, page.backwardsCursor, 0));
    && IsLeaf(list, c, page, shown, next != None, turned, leaf)
    && InfoTold(codec, since, selector, c.direction, turned, next, leaf, back, s)
  }

  predicate InfoTold(codec: Codec, since: Option<string>, selector: Option<TurnCursor>, direction: Direction,
                     turned: bool, next: Option<TurnCursor>, leaf: Option<TurnCursor>, back: Option<TurnCursor>,
                     s: Snapshot)
  {
    && s.page == (if direction == Asc then PageInfo(turned, TextOf(codec, back), next != None, TextOf(codec, next))
                  else PageInfo(next != None, TextOf(codec, next), turned, TextOf(codec, back)))
    && s.leafId == (if leaf == None && selector.Some? && selector.value.AnchorCursor? then since
                    else TextOf(codec, leaf))
  }

  lemma {:induction false} LinksWith(codec: Codec, entries: seq<Entry>, since: Option<string>, window: SnapshotWindow,
                                     selector: Option<TurnCursor>, c: TurnCursor, next: Option<TurnCursor>,
                                     leaf: Option<TurnCursor>, back: Option<TurnCursor>)
    requires c.PageCursor?
    requires SnapshotWith(codec, entries, since, window, selector, c, next, leaf, back).Ok?
    ensures var turned := if c.direction == Asc then selector != None
        else window.before != None && window.before != Some("");
      InfoTold(codec, since, selector, c.direction, turned, next, leaf, back,
        SnapshotWith(codec, entries, since, window, selector, c, next, leaf, back).value)
  {
    EncodedText(codec, next);
    EncodedText(codec, leaf);
    EncodedText(codec, back);
    assert Given(window.before) <==> window.before != None && window.before != Some("");
  }

  lemma {:induction false} EncodedText(codec: Codec, c: Option<TurnCursor>)
    ensures EncodeSome(codec, c).Ok? ==> EncodeSome(codec, c).value == TextOf(codec, c)
  {
    if c.Some? {
      CursorTexts(codec, c.value, "");
    }
  }

  lemma {:induction false} TurnsBack(selector: Option<TurnCursor>, c: TurnCursor, page: NativePage,
      window: SnapshotWindow)
    requires c.PageCursor?
    ensures Turned(selector, c, window)
      == (if c.direction == Asc then selector != None else window.before != None && window.before != Some(""))
    ensures BackOf(c, page, Turned(selector, c, window))
      == if !Turned(selector, c, window) || page.backwardsCursor == "" then None
         else Some(PageCursor(if c.direction == Asc then Desc else Asc, page.backwardsCursor, 0))
  {
  }

  /** What a snapshot says about the other direction and about its newest row. */
  lemma {:induction false} LinksExact(list: TurnsList, codec: Codec, since: Option<string>, window: SnapshotWindow,
      selector: Option<TurnCursor>, c: TurnCursor, page: NativePage, rows: seq<Row>, offset: nat, shown: seq<Row>,
      next: Option<TurnCursor>, s: Snapshot)
    returns (leaf: Option<TurnCursor>)
    requires c.PageCursor? && shown == Slice(rows, offset, Budget(Limit(window.limit)))
    requires next == Next(c, page, rows, offset + |shown|)
    requires SnapshotOf(list, codec, since, window, selector, c, page, rows, offset) == Ok(s)
    ensures LinksTold(list, codec, since, window, selector, c, page, shown, next, leaf, s)
  {
    var limit, turned := Limit(window.limit), Turned(selector, c, window);
    var chronological, back := Ordered(c.direction, shown), BackOf(c, page, turned);
    leaf := LeafOf(list, c, page, chronological, next, turned);
    LeafExact(list, c, page, shown, next, turned);
    TurnsBack(selector, c, page, window);
    LinksWith(codec, LastEntries(ItemsOf(chronological), if limit > 2 then limit else 2), since, window, selector, c,
      next, leaf, back);
  }

  /** The budget leaves room for two entries an item, so no entry of a page is ever cut off. */
  lemma {:induction false} NothingCut(rows: seq<Row>, offset: nat, limit: nat, direction: Direction)
    requires 1 <= limit <= 500
    ensures var items := ItemsOf(Ordered(direction, Slice(rows, offset, Budget(limit))));
      LastEntries(items, if limit > 2 then limit else 2) == AllEntries(items)
  {
    TwoEntriesAnItem(ItemsOf(Ordered(direction, Slice(rows, offset, Budget(limit)))));
  }

  // ---------------------------------------------------------------------
  // Walking the pages.

  ghost predicate Issued(list: TurnsList, thread: seq<Turn>, p: Positions, c: TurnCursor) {
    Serves(list, thread, p) && c.PageCursor? && p.knows(c.direction, c.cursor)
  }

  ghost function PageAt(list: TurnsList, thread: seq<Turn>, p: Positions, c: TurnCursor, limit: nat): (page: NativePage)
    requires Issued(list, thread, p, c) && 1 <= limit <= 500
    ensures ServesPage(page, thread, p, c.direction, c.cursor)
  {
    list(NativeLimit(limit), c.direction, c.cursor)
  }

  /** The turns of a page lie in the thread, in the order of reading. */
  ghost function TurnsAt(list: TurnsList, thread: seq<Turn>, p: Positions, c: TurnCursor,
      limit: nat): (turns: seq<Turn>)
    requires Issued(list, thread, p, c) && 1 <= limit <= 500
    ensures var from := p.at(c.direction, c.cursor);
      from + |turns| <= |thread| && turns == Ordered(c.direction, thread)[from..from + |turns|]
    ensures |turns| == |PageAt(list, thread, p, c, limit).data.value|
  {
    FullTurns(PageAt(list, thread, p, c, limit).data.value)
  }

  ghost function RowsAt(list: TurnsList, thread: seq<Turn>, p: Positions, c: TurnCursor, limit: nat): seq<Row>
    requires Issued(list, thread, p, c) && 1 <= limit <= 500
  {
    Rows(c.direction, TurnsAt(list, thread, p, c, limit))
  }

  /** What one page shows from a row on, and where the next page starts. */
  function PageParts(c: TurnCursor, page: NativePage, rows: seq<Row>, offset: nat, limit: nat)
    : (seq<Row>, Option<TurnCursor>)
    requires c.PageCursor?
  {
    var shown := Slice(rows, offset, Budget(limit));
    (shown, Next(c, page, rows, offset + |shown|))
  }

  /** What the page at a cursor shows, and where the next one starts. */
  ghost function ShownAt(list: TurnsList, thread: seq<Turn>, p: Positions, c: TurnCursor,
      limit: nat): (seq<Row>, Option<TurnCursor>)
    requires Issued(list, thread, p, c) && 1 <= limit <= 500
  {
    PageParts(c, PageAt(list, thread, p, c, limit), RowsAt(list, thread, p, c, limit), c.skip, limit)
  }

  ghost function Left(rows: seq<Row>, skip: nat): nat {
    if skip < |rows| then |rows| - skip else 0
  }

  /** All rows that following the next-page cursors shows. That it is defined says that the walk ends. */
  ghost function Walk(list: TurnsList, thread: seq<Turn>, p: Positions, c: TurnCursor, limit: nat): seq<Row>
    requires Issued(list, thread, p, c) && 1 <= limit <= 500
    decreases |thread| - p.at(c.direction, c.cursor), Left(RowsAt(list, thread, p, c, limit), c.skip)
  {
    var (shown, next) := ShownAt(list, thread, p, c, limit);
    match next
    case None => shown
    case Some(n) =>
      shown + Walk(list, thread, p, n, limit)
  }

  lemma {:induction false} RowsAppend(direction: Direction, a: seq<Turn>, b: seq<Turn>)
    ensures Rows(direction, a + b) == Rows(direction, a) + Rows(direction, b)
  {
    FlatMapAppend((turn: Turn) => TagRows(turn.id, Ordered(direction, turn.items)), a, b);
  }

  /** The rows from a page request on: its own, and those of the later turns. */
  lemma {:induction false} RowsFrom(list: TurnsList, thread: seq<Turn>, p: Positions, c: TurnCursor, limit: nat)
    requires Issued(list, thread, p, c) && 1 <= limit <= 500
    ensures var d, from := c.direction, p.at(c.direction, c.cursor);
      var size := |TurnsAt(list, thread, p, c, limit)|;
      from + size <= |thread|
      && Rows(d, Ordered(d, thread)[from..])
        == RowsAt(list, thread, p, c, limit) + Rows(d, Ordered(d, thread)[from + size..])
  {
    var d, from := c.direction, p.at(c.direction, c.cursor);
    var turns := TurnsAt(list, thread, p, c, limit);
    assert Ordered(d, thread)[from..] == turns + Ordered(d, thread)[from + |turns|..];
    RowsAppend(d, turns, Ordered(d, thread)[from + |turns|..]);
  }

  lemma {:induction false} SliceRest<T>(rows: seq<T>, later: seq<T>, skip: nat, size: nat)
    requires skip <= |rows|
    ensures var shown := Slice(rows, skip, size);
      && skip + |shown| <= |rows| && (size > 0 && skip < |rows| ==> |shown| > 0)
      && (rows + later)[skip..] == shown + (rows + later)[skip + |shown|..]
  {
  }

  /** The rows of the thread from a native cursor on, in the order of reading. */
  ghost function RestFrom(thread: seq<Turn>, p: Positions, c: TurnCursor): seq<Row>
    requires c.PageCursor? && p.at(c.direction, c.cursor) <= |thread|
  {
    Rows(c.direction, Ordered(c.direction, thread)[p.at(c.direction, c.cursor)..])
  }

  /** The page of a cursor is the first part of what is left from it on. */
  lemma {:induction false} PageSplitsRest(list: TurnsList, thread: seq<Turn>, p: Positions, c: TurnCursor, limit: nat)
    returns (later: seq<Row>)
    requires Issued(list, thread, p, c) && 1 <= limit <= 500
    requires c.skip <= |RowsAt(list, thread, p, c, limit)| && p.at(c.direction, c.cursor) <= |thread|
    ensures var from, size := p.at(c.direction, c.cursor), |TurnsAt(list, thread, p, c, limit)|;
      from + size <= |thread| && later == Rows(c.direction, Ordered(c.direction, thread)[from + size..])
    ensures RestFrom(thread, p, c) == RowsAt(list, thread, p, c, limit) + later
    ensures var shown := ShownAt(list, thread, p, c, limit).0;
      c.skip + |shown| <= |RowsAt(list, thread, p, c, limit)|
      && RestFrom(thread, p, c)[c.skip..] == shown + RestFrom(thread, p, c)[c.skip + |shown|..]
  {
    var d, from := c.direction, p.at(c.direction, c.cursor);
    RowsFrom(list, thread, p, c, limit);
    later := Rows(d, Ordered(d, thread)[from + |TurnsAt(list, thread, p, c, limit)|..]);
    SliceRest(RowsAt(list, thread, p, c, limit), later, c.skip, Budget(limit));
  }

  /** The last page shows all that is left. */
  lemma {:induction false} LastPage(list: TurnsList, thread: seq<Turn>, p: Positions, c: TurnCursor, limit: nat)
    requires Issued(list, thread, p, c) && 1 <= limit <= 500 && ShownAt(list, thread, p, c, limit).1 == None
    requires c.skip <= |RowsAt(list, thread, p, c, limit)| && p.at(c.direction, c.cursor) <= |thread|
    ensures c.skip <= |RestFrom(thread, p, c)|
      && ShownAt(list, thread, p, c, limit).0 == RestFrom(thread, p, c)[c.skip..]
  {
    var later := PageSplitsRest(list, thread, p, c, limit);
    assert Ordered(c.direction, thread)[|thread|..] == [];
    var shown := ShownAt(list, thread, p, c, limit).0;
    assert shown + later == shown;
  }

  /** Where the next page starts when this one has shown all its rows. */
  lemma {:induction false} NextPageRest(list: TurnsList, thread: seq<Turn>, p: Positions, c: TurnCursor, limit: nat,
      later: seq<Row>)
    requires Issued(list, thread, p, c) && 1 <= limit <= 500 && p.at(c.direction, c.cursor) <= |thread|
    requires PageAt(list, thread, p, c, limit).nextCursor != ""
    requires var from, size := p.at(c.direction, c.cursor), |TurnsAt(list, thread, p, c, limit)|;
      from + size <= |thread| && later == Rows(c.direction, Ordered(c.direction, thread)[from + size..])
    ensures var n := PageCursor(c.direction, PageAt(list, thread, p, c, limit).nextCursor, 0);
      p.at(n.direction, n.cursor) <= |thread| && RestFrom(thread, p, n) == later
  {
  }

  /** The next cursor points into the same page. */
  lemma {:induction false} SameCursorRest(thread: seq<Turn>, p: Positions, c: TurnCursor, shown: seq<Row>,
      n: TurnCursor, rows: seq<Row>, later: seq<Row>)
    requires c.PageCursor? && p.at(c.direction, c.cursor) <= |thread| && n == c.(skip := c.skip + |shown|)
    requires RestFrom(thread, p, c) == rows + later && n.skip < |rows|
    requires RestFrom(thread, p, c)[c.skip..] == shown + RestFrom(thread, p, c)[n.skip..]
    ensures c.skip <= |RestFrom(thread, p, c)| && LeavesRest(thread, p, c, shown, n)
  {
    assert RestFrom(thread, p, n) == RestFrom(thread, p, c);
  }

  /** The next cursor points behind the page. */
  lemma {:induction false} NextCursorRest(thread: seq<Turn>, p: Positions, c: TurnCursor, shown: seq<Row>,
      n: TurnCursor, rows: seq<Row>, later: seq<Row>)
    requires c.PageCursor? && p.at(c.direction, c.cursor) <= |thread|
    requires n.PageCursor? && p.at(n.direction, n.cursor) <= |thread| && n.skip == 0
    requires RestFrom(thread, p, c) == rows + later && RestFrom(thread, p, n) == later && c.skip + |shown| == |rows|
    requires RestFrom(thread, p, c)[c.skip..] == shown + RestFrom(thread, p, c)[|rows|..]
    ensures LeavesRest(thread, p, c, shown, n)
  {
  }

  lemma {:induction false} StaysInPage(list: TurnsList, thread: seq<Turn>, p: Positions, c: TurnCursor, limit: nat,
      shown: seq<Row>, next: TurnCursor, rows: seq<Row>)
    requires Issued(list, thread, p, c) && 1 <= limit <= 500
    requires ShownAt(list, thread, p, c, limit) == (shown, Some(next)) && rows == RowsAt(list, thread, p, c, limit)
    requires c.skip + |shown| < |rows|
    ensures next == c.(skip := c.skip + |shown|)
  {
  }

  /** Every other page leaves exactly what its next cursor starts with. */
  lemma {:induction false} MiddlePage(list: TurnsList, thread: seq<Turn>, p: Positions, c: TurnCursor, limit: nat)
    requires Issued(list, thread, p, c) && 1 <= limit <= 500 && ShownAt(list, thread, p, c, limit).1.Some?
    requires c.skip <= |RowsAt(list, thread, p, c, limit)| && p.at(c.direction, c.cursor) <= |thread|
    ensures c.skip <= |RestFrom(thread, p, c)|
    ensures var (shown, next) := ShownAt(list, thread, p, c, limit); LeavesRest(thread, p, c, shown, next.value)
  {
    var later := PageSplitsRest(list, thread, p, c, limit);
    var (shown, next) := ShownAt(list, thread, p, c, limit);
    var rows := RowsAt(list, thread, p, c, limit);
    if c.skip + |shown| == |rows| {
      PageEnds(list, thread, p, c, limit, later);
    } else {
      StaysInPage(list, thread, p, c, limit, shown, next.value, rows);
      SameCursorRest(thread, p, c, shown, next.value, rows, later);
    }
  }

  /** A page whose rows are all shown leaves what the next native page starts with. */
  lemma {:induction false} PageEnds(list: TurnsList, thread: seq<Turn>, p: Positions, c: TurnCursor, limit: nat,
      later: seq<Row>)
    requires Issued(list, thread, p, c) && 1 <= limit <= 500 && ShownAt(list, thread, p, c, limit).1.Some?
    requires p.at(c.direction, c.cursor) <= |thread|
    requires var from, size := p.at(c.direction, c.cursor), |TurnsAt(list, thread, p, c, limit)|;
      from + size <= |thread| && later == Rows(c.direction, Ordered(c.direction, thread)[from + size..])
    requires var shown, rows := ShownAt(list, thread, p, c, limit).0, RowsAt(list, thread, p, c, limit);
      && RestFrom(thread, p, c) == rows + later && c.skip + |shown| == |rows|
      && RestFrom(thread, p, c)[c.skip..] == shown + RestFrom(thread, p, c)[|rows|..]
    ensures var (shown, next) := ShownAt(list, thread, p, c, limit);
      c.skip <= |RestFrom(thread, p, c)| && LeavesRest(thread, p, c, shown, next.value)
  {
    var rows := RowsAt(list, thread, p, c, limit);
    var (shown, next) := ShownAt(list, thread, p, c, limit);
    NextPageRest(list, thread, p, c, limit, later);
    NextCursorRest(thread, p, c, shown, next.value, rows, later);
  }

  ghost predicate LeavesRest(thread: seq<Turn>, p: Positions, c: TurnCursor, shown: seq<Row>, n: TurnCursor)
    requires c.PageCursor? && p.at(c.direction, c.cursor) <= |thread| && c.skip <= |RestFrom(thread, p, c)|
  {
    && n.PageCursor? && p.at(n.direction, n.cursor) <= |thread| && n.skip <= |RestFrom(thread, p, n)|
    && RestFrom(thread, p, c)[c.skip..] == shown + RestFrom(thread, p, n)[n.skip..]
  }

  /** From any cursor, the walk shows every remaining row exactly once, in the order of reading. */
  lemma {:induction false} WalkShowsRest(list: TurnsList, thread: seq<Turn>, p: Positions, c: TurnCursor, limit: nat)
    requires Issued(list, thread, p, c) && 1 <= limit <= 500
    requires c.skip <= |RowsAt(list, thread, p, c, limit)| && p.at(c.direction, c.cursor) <= |thread|
    ensures c.skip <= |RestFrom(thread, p, c)|
    ensures Walk(list, thread, p, c, limit) == RestFrom(thread, p, c)[c.skip..]
    decreases |thread| - p.at(c.direction, c.cursor), Left(RowsAt(list, thread, p, c, limit), c.skip)
  {
    var next := ShownAt(list, thread, p, c, limit).1;
    if next.None? {
      LastPage(list, thread, p, c, limit);
    } else {
      MiddlePage(list, thread, p, c, limit);
      WalkShowsRest(list, thread, p, next.value, limit);
    }
  }

  lemma {:induction false} ReversedAppend<T>(a: seq<T>, b: seq<T>)
    ensures Reversed(a + b) == Reversed(b) + Reversed(a)
  {
  }

  lemma {:induction false} TagReversed(turnId: string, items: seq<Item>)
    ensures TagRows(turnId, Reversed(items)) == Reversed(TagRows(turnId, items))
  {
  }

  /** Reading backwards is reading forwards backwards, down to the items. */
  lemma {:induction false} RowsReversed(thread: seq<Turn>)
    ensures Rows(Desc, Reversed(thread)) == Reversed(Rows(Asc, thread))
  {
    if thread != [] {
      var front, last := thread[..|thread| - 1], thread[|thread| - 1];
      assert thread == front + [last];
      RowsReversed(front);
      ReversedAppend(front, [last]);
      var lastOnly := [last];
      assert Reversed(lastOnly) == lastOnly;
      RowsAppend(Desc, lastOnly, Reversed(front));
      RowsAppend(Asc, front, lastOnly);
      RowsOne(Desc, last);
      RowsOne(Asc, last);
      TagReversed(last.id, last.items);
      ReversedAppend(Rows(Asc, front), TagRows(last.id, last.items));
    }
  }

  lemma {:induction false} RowsOne(direction: Direction, turn: Turn)
    ensures Rows(direction, [turn]) == TagRows(turn.id, Ordered(direction, turn.items))
  {
    FlatMapSnoc((t: Turn) => TagRows(t.id, Ordered(direction, t.items)), [], turn);
    var none: seq<Turn> := [];
    assert none + [turn] == [turn];
  }

  /** The walk from the latest page back, or from the earliest page on, shows every item exactly once. */
  lemma {:induction false} WalkShowsEverything(list: TurnsList, thread: seq<Turn>, p: Positions, direction: Direction,
      limit: nat)
    requires Serves(list, thread, p) && 1 <= limit <= 500
    ensures Walk(list, thread, p, PageCursor(direction, "", 0), limit) == Ordered(direction, Rows(Asc, thread))
  {
    var c := PageCursor(direction, "", 0);
    WalkShowsRest(list, thread, p, c, limit);
    assert Ordered(direction, thread)[0..] == Ordered(direction, thread);
    if direction.Desc? {
      RowsReversed(thread);
    }
  }

  function LinkOf(direction: Direction, snapshot: Snapshot): Option<string> {
    if direction.Desc? then snapshot.page.before else snapshot.page.after
  }

  /** The entries of rows that were read in the given direction, in chronological order. */
  function EntriesRead(direction: Direction, rows: seq<Row>): seq<Entry> {
    AllEntries(ItemsOf(Ordered(direction, rows)))
  }

  /** What a snapshot says about its page: the entries shown, and the text of the cursor behind them. */
  predicate Tells(codec: Codec, direction: Direction, snapshot: Snapshot, shown: seq<Row>, next: Option<TurnCursor>) {
    && snapshot.entries == EntriesRead(direction, shown)
    && (next.None? ==> LinkOf(direction, snapshot).None?)
    && (next.Some? ==> EncodeCursor(codec, next.value).Ok?)
    && (next.Some? ==> LinkOf(direction, snapshot) == Some(EncodeCursor(codec, next.value).value))
    && (next.Some? <==> if direction.Asc? then snapshot.page.hasLater else snapshot.page.hasEarlier)
  }

  predicate TellsOf(codec: Codec, direction: Direction, snapshot: Snapshot, page: (seq<Row>, Option<TurnCursor>)) {
    Tells(codec, direction, snapshot, page.0, page.1)
  }

  /** There is such a cursor, and its text is too long. */
  predicate IsTooLong(codec: Codec, c: Option<TurnCursor>) {
    c.Some? && |PREFIX + codec.text(c.value)| > MAX_CURSOR_LENGTH
  }

  /** One of the cursors that a page hands out is too long: to go on, to go back, or to poll from. */
  predicate Overlong(list: TurnsList, codec: Codec, limit: nat, c: TurnCursor, page: NativePage, rows: seq<Row>,
                     offset: nat, turned: bool)
    requires c.PageCursor?
  {
    var shown := Slice(rows, offset, Budget(limit));
    var next := Next(c, page, rows, offset + |shown|);
    || IsTooLong(codec, next)
    || IsTooLong(codec, LeafOf(list, c, page, Ordered(c.direction, shown), next, turned))
    || IsTooLong(codec, BackOf(c, page, turned))
  }

  /**
   * What a snapshot shows is the slice of rows of its page, without cutting an entry, and
   * the link behind it. It fails exactly when one of its cursors is too long.
   */
  predicate ShowsSlice(list: TurnsList, codec: Codec, limit: nat, c: TurnCursor, page: NativePage, rows: seq<Row>,
                       offset: nat, turned: bool, result: Result<Snapshot, HistoryError>)
    requires c.PageCursor?
  {
    && (result.Err? <==> Overlong(list, codec, limit, c, page, rows, offset, turned))
    && (result.Err? ==> result.error.CursorTooLong?)
    && (result.Ok? ==> TellsOf(codec, c.direction, result.value, PageParts(c, page, rows, offset, limit)))
  }

  /** A snapshot fails exactly when one of its cursors is too long. */
  lemma {:induction false} FailsWith(codec: Codec, entries: seq<Entry>, since: Option<string>, window: SnapshotWindow,
                                     selector: Option<TurnCursor>, c: TurnCursor, next: Option<TurnCursor>,
                                     leaf: Option<TurnCursor>, back: Option<TurnCursor>)
    requires c.PageCursor?
    ensures var result := SnapshotWith(codec, entries, since, window, selector, c, next, leaf, back);
      && (result.Err? <==> IsTooLong(codec, next) || IsTooLong(codec, leaf) || IsTooLong(codec, back))
      && (result.Err? ==> result.error.CursorTooLong?)
  {
  }

  lemma {:induction false} SnapshotFails(list: TurnsList, codec: Codec, since: Option<string>, window: SnapshotWindow,
                                         selector: Option<TurnCursor>, c: TurnCursor, page: NativePage,
                                         rows: seq<Row>, offset: nat)
    requires c.PageCursor?
    ensures var result := SnapshotOf(list, codec, since, window, selector, c, page, rows, offset);
      && (result.Err? <==> Overlong(list, codec, Limit(window.limit), c, page, rows, offset,
        Turned(selector, c, window)))
      && (result.Err? ==> result.error.CursorTooLong?)
  {
    var limit := Limit(window.limit);
    var shown := Ordered(c.direction, Slice(rows, offset, Budget(limit)));
    var next := Next(c, page, rows, offset + |shown|);
    FailsWith(codec, LastEntries(ItemsOf(shown), if limit > 2 then limit else 2), since, window, selector, c, next,
              LeafOf(list, c, page, shown, next, Turned(selector, c, window)),
              BackOf(c, page, Turned(selector, c, window)));
  }

  lemma {:induction false} SnapshotShowsSlice(list: TurnsList, codec: Codec, since: Option<string>,
                                              window: SnapshotWindow, selector: Option<TurnCursor>, c: TurnCursor,
                                              page: NativePage, rows: seq<Row>, offset: nat)
    requires c.PageCursor?
    ensures ShowsSlice(list, codec, Limit(window.limit), c, page, rows, offset, Turned(selector, c, window),
                       SnapshotOf(list, codec, since, window, selector, c, page, rows, offset))
  {
    SnapshotFails(list, codec, since, window, selector, c, page, rows, offset);
    if SnapshotOf(list, codec, since, window, selector, c, page, rows, offset).Ok? {
      SnapshotTells(list, codec, since, window, selector, c, page, rows, offset);
    }
  }

  lemma {:induction false} SnapshotTells(list: TurnsList, codec: Codec, since: Option<string>, window: SnapshotWindow,
                                         selector: Option<TurnCursor>, c: TurnCursor, page: NativePage,
                                         rows: seq<Row>, offset: nat)
    requires c.PageCursor? && SnapshotOf(list, codec, since, window, selector, c, page, rows, offset).Ok?
    ensures var shown := Slice(rows, offset, Budget(Limit(window.limit)));
      Tells(codec, c.direction, SnapshotOf(list, codec, since, window, selector, c, page, rows, offset).value, shown,
            Next(c, page, rows, offset + |shown|))
  {
    NothingCut(rows, offset, Limit(window.limit), c.direction);
  }

  /** The page at the cursor hands out a cursor that is too long. */
  ghost predicate OverlongAt(list: TurnsList, codec: Codec, thread: seq<Turn>, p: Positions, c: TurnCursor, limit: nat,
                             turned: bool)
    requires Issued(list, thread, p, c) && 1 <= limit <= 500
  {
    Overlong(list, codec, limit, c, PageAt(list, thread, p, c, limit), RowsAt(list, thread, p, c, limit), c.skip,
      turned)
  }

  /** What a snapshot tells of the page at a cursor, unless one of its cursors is too long. */
  ghost predicate TellsPage(list: TurnsList, codec: Codec, thread: seq<Turn>, p: Positions, c: TurnCursor, limit: nat,
                            turned: bool, result: Result<Snapshot, HistoryError>)
    requires Issued(list, thread, p, c) && 1 <= limit <= 500
  {
    ShowsSlice(list, codec, limit, c, PageAt(list, thread, p, c, limit), RowsAt(list, thread, p, c, limit), c.skip,
               turned, result)
  }

  /**
   * The snapshot for a page cursor, or without a cursor, shows exactly the page of the
   * walk and links to exactly the next one. It fails exactly when one of the cursors
   * that it hands out is too long.
   */
  lemma {:induction false} SnapshotIsWalkStep(list: TurnsList, codec: Codec, thread: seq<Turn>, p: Positions,
      c: TurnCursor, selector: Option<TurnCursor>, window: SnapshotWindow)
    requires Issued(list, thread, p, c)
    requires Selector(codec, None, window) == Ok(selector)
    requires selector == Some(c) || (selector == None && c == Position(None, window.earliest))
    ensures TellsPage(list, codec, thread, p, c, Limit(window.limit), Turned(selector, c, window),
                      SnapshotCodexTurnHistory(list, codec, None, window))
  {
    var limit := Limit(window.limit);
    var page, rows := PageAt(list, thread, p, c, limit), RowsAt(list, thread, p, c, limit);
    SnapshotShowsSlice(list, codec, None, window, selector, c, page, rows, c.skip);
  }

  // ---------------------------------------------------------------------
  // Following the links.

  function FirstWindow(direction: Direction, limit: Option<real>): SnapshotWindow {
    SnapshotWindow(limit, None, None, direction.Asc?)
  }

  function FollowingWindow(direction: Direction, limit: Option<real>, text: string): SnapshotWindow {
    if direction.Desc? then SnapshotWindow(limit, Some(text), None, false)
      else SnapshotWindow(limit, None, Some(text), false)
  }

  function Joined(direction: Direction, collected: seq<Entry>, entries: seq<Entry>): seq<Entry> {
    if direction.Desc? then entries + collected else collected + entries
  }

  lemma {:induction false} EntriesReadAppend(direction: Direction, a: seq<Row>, b: seq<Row>)
    ensures EntriesRead(direction, a + b) == Joined(direction, EntriesRead(direction, a), EntriesRead(direction, b))
  {
    var x, y := Ordered(direction, a), Ordered(direction, b);
    if direction.Desc? {
      ReversedAppend(a, b);
      assert ItemsOf(y + x) == ItemsOf(y) + ItemsOf(x);
      FlatMapAppend(EntriesOf, ItemsOf(y), ItemsOf(x));
    } else {
      assert ItemsOf(x + y) == ItemsOf(x) + ItemsOf(y);
      FlatMapAppend(EntriesOf, ItemsOf(x), ItemsOf(y));
    }
  }

  lemma {:induction false} EntriesOfThread(direction: Direction, rows: seq<Row>)
    ensures EntriesRead(direction, Ordered(direction, rows)) == AllEntries(ItemsOf(rows))
  {
    assert Reversed(Reversed(rows)) == rows;
  }

  /** A link leads back to the cursor it was made from. */
  lemma {:induction false} LinkLeadsOn(codec: Codec, direction: Direction, limit: Option<real>, next: TurnCursor)
    requires Faithful(codec) && IsValid(next) && EncodeCursor(codec, next).Ok?
    ensures Selector(codec, None, FollowingWindow(direction, limit, EncodeCursor(codec, next).value)) == Ok(Some(next))
  {
    CursorRoundTrip(codec, next);
  }

  /** The window asks for the page at the cursor. */
  predicate AsksFor(codec: Codec, window: SnapshotWindow, c: TurnCursor) {
    var selector := Selector(codec, None, window);
    selector == Ok(Some(c)) || (selector == Ok(None) && c == Position(None, window.earliest))
  }

  /** Some rows have been read, and the cursor stands at all the others. */
  ghost predicate StandsAt(list: TurnsList, thread: seq<Turn>, p: Positions, c: TurnCursor, limit: nat,
      read: seq<Row>)
  {
    && Issued(list, thread, p, c) && 1 <= limit <= 500
    && p.at(c.direction, c.cursor) <= |thread|
    && c.skip <= |RowsAt(list, thread, p, c, limit)| && c.skip <= |RestFrom(thread, p, c)|
    && read + RestFrom(thread, p, c)[c.skip..] == Ordered(c.direction, Rows(Asc, thread))
  }

  lemma {:induction false} StandsAtStart(list: TurnsList, thread: seq<Turn>, p: Positions, direction: Direction,
      limit: nat)
    requires Serves(list, thread, p) && 1 <= limit <= 500
    ensures StandsAt(list, thread, p, PageCursor(direction, "", 0), limit, [])
  {
    var c := PageCursor(direction, "", 0);
    assert Ordered(direction, thread)[0..] == Ordered(direction, thread);
    if direction.Desc? {
      RowsReversed(thread);
    }
    assert [] + RestFrom(thread, p, c)[0..] == RestFrom(thread, p, c);
  }

  lemma {:induction false} StandsFurther(list: TurnsList, thread: seq<Turn>, p: Positions, c: TurnCursor, limit: nat,
      read: seq<Row>)
    requires StandsAt(list, thread, p, c, limit, read)
    ensures var (shown, next) := ShownAt(list, thread, p, c, limit);
      && (next.None? ==> read + shown == Ordered(c.direction, Rows(Asc, thread)))
      && (next.Some? ==> StandsAt(list, thread, p, next.value, limit, read + shown))
      && (next.Some? ==> next.value.direction == c.direction)
  {
    var (shown, next) := ShownAt(list, thread, p, c, limit);
    if next.None? {
      LastPage(list, thread, p, c, limit);
    } else {
      MiddlePage(list, thread, p, c, limit);
      assert c.skip <= |RowsAt(list, thread, p, c, limit)|;
      Regroup(read, shown, RestFrom(thread, p, next.value)[next.value.skip..]);
    }
  }

  /** A cursor inside a thread of safe size is valid. */
  lemma {:induction false} StandsValid(list: TurnsList, thread: seq<Turn>, p: Positions, c: TurnCursor, limit: nat,
      read: seq<Row>)
    requires StandsAt(list, thread, p, c, limit, read) && |Rows(Asc, thread)| <= MAX_SAFE_INTEGER
    ensures IsValid(c)
  {
    RestIsPart(thread, p, c);
  }

  lemma {:induction false} RestIsPart(thread: seq<Turn>, p: Positions, c: TurnCursor)
    requires c.PageCursor? && p.at(c.direction, c.cursor) <= |thread|
    ensures |RestFrom(thread, p, c)| <= |Rows(Asc, thread)|
  {
    var d, from := c.direction, p.at(c.direction, c.cursor);
    var whole := Ordered(d, thread);
    assert whole == whole[..from] + whole[from..];
    RowsAppend(d, whole[..from], whole[from..]);
    if d.Desc? {
      RowsReversed(thread);
    }
  }

  /** The window asks for its page with the cursor. */
  predicate TurnedBy(codec: Codec, window: SnapshotWindow, c: TurnCursor)
    requires AsksFor(codec, window, c) && c.PageCursor?
  {
    Turned(Selector(codec, None, window).value, c, window)
  }

  /** One page of the thread. */
  method ReadPage(list: TurnsList, codec: Codec, window: SnapshotWindow,
                  ghost thread: seq<Turn>, ghost p: Positions, ghost c: TurnCursor)
    returns (result: Result<Snapshot, HistoryError>)
    requires Issued(list, thread, p, c) && AsksFor(codec, window, c)
    ensures result == SnapshotCodexTurnHistory(list, codec, None, window)
    ensures result.Err? <==> OverlongAt(list, codec, thread, p, c, Limit(window.limit), TurnedBy(codec, window, c))
    ensures result.Err? ==> result.error.CursorTooLong?
    ensures result.Ok? ==> TellsShown(list, codec, thread, p, c, Limit(window.limit), result.value)
  {
    PageTells(list, codec, window, thread, p, c);
    result := SnapshotCodexTurnHistory(list, codec, None, window);
    if result.Ok? {
      ToldShown(list, codec, thread, p, c, Limit(window.limit), TurnedBy(codec, window, c), result);
    }
  }

  ghost predicate TellsShown(list: TurnsList, codec: Codec, thread: seq<Turn>, p: Positions, c: TurnCursor, limit: nat,
                             snapshot: Snapshot)
    requires Issued(list, thread, p, c) && 1 <= limit <= 500
  {
    TellsOf(codec, c.direction, snapshot, ShownAt(list, thread, p, c, limit))
  }

  lemma {:induction false} ToldShown(list: TurnsList, codec: Codec, thread: seq<Turn>, p: Positions, c: TurnCursor,
                                     limit: nat, turned: bool, result: Result<Snapshot, HistoryError>)
    requires Issued(list, thread, p, c) && 1 <= limit <= 500
    requires TellsPage(list, codec, thread, p, c, limit, turned, result) && result.Ok?
    ensures TellsShown(list, codec, thread, p, c, limit, result.value)
  {
  }

  lemma {:induction false} PageTells(list: TurnsList, codec: Codec, window: SnapshotWindow, thread: seq<Turn>,
                                     p: Positions, c: TurnCursor)
    requires Issued(list, thread, p, c) && AsksFor(codec, window, c)
    ensures TellsPage(list, codec, thread, p, c, Limit(window.limit), TurnedBy(codec, window, c),
                      SnapshotCodexTurnHistory(list, codec, None, window))
  {
    SnapshotIsWalkStep(list, codec, thread, p, c, Selector(codec, None, window).value, window);
  }

  /** The link of a page asks for the page behind it. */
  lemma {:induction false} LinkAsks(list: TurnsList, codec: Codec, thread: seq<Turn>, p: Positions, next: TurnCursor,
      limit: Option<real>, read: seq<Row>)
    requires Faithful(codec) && |Rows(Asc, thread)| <= MAX_SAFE_INTEGER && EncodeCursor(codec, next).Ok?
    requires StandsAt(list, thread, p, next, Limit(limit), read)
    ensures var window := FollowingWindow(next.direction, limit, EncodeCursor(codec, next).value);
      AsksFor(codec, window, next) && TurnedBy(codec, window, next)
  {
    StandsValid(list, thread, p, next, Limit(limit), read);
    LinkLeadsOn(codec, next.direction, limit, next);
  }

  /** No page of the walk from the cursor hands out a cursor that is too long. */
  ghost predicate WalkFits(list: TurnsList, codec: Codec, thread: seq<Turn>, p: Positions, c: TurnCursor, limit: nat,
                           turned: bool)
    requires Issued(list, thread, p, c) && 1 <= limit <= 500
    decreases |thread| - p.at(c.direction, c.cursor), Left(RowsAt(list, thread, p, c, limit), c.skip)
  {
    var next := ShownAt(list, thread, p, c, limit).1;
    && !OverlongAt(list, codec, thread, p, c, limit, turned)
    && match next
       case None => true
       case Some(n) => WalkFits(list, codec, thread, p, n, limit, true)
  }

  /** How many pages there are from the cursor on. */
  ghost function PagesFrom(list: TurnsList, thread: seq<Turn>, p: Positions, c: TurnCursor, limit: nat): (n: nat)
    requires Issued(list, thread, p, c) && 1 <= limit <= 500
    ensures n > 0
    decreases |thread| - p.at(c.direction, c.cursor), Left(RowsAt(list, thread, p, c, limit), c.skip)
  {
    match ShownAt(list, thread, p, c, limit).1
    case None => 1
    case Some(n) => 1 + PagesFrom(list, thread, p, n, limit)
  }

  /** The rows read so far are collected; `fits` says whether the rest can be read, and `left` how many pages it has. */
  ghost predicate OnTheWay(list: TurnsList, codec: Codec, thread: seq<Turn>, p: Positions, direction: Direction,
                           limit: Option<real>, window: SnapshotWindow, c: TurnCursor, turned: bool, read: seq<Row>,
                           collected: seq<Entry>, fits: bool, left: nat)
  {
    && StandsAt(list, thread, p, c, Limit(limit), read) && c.direction == direction
    && window.limit == limit && AsksFor(codec, window, c) && TurnedBy(codec, window, c) == turned
    && collected == EntriesRead(direction, read)
    && WalkFits(list, codec, thread, p, c, Limit(limit), turned) == fits
    && PagesFrom(list, thread, p, c, Limit(limit)) == left
  }

  /** Reads the page that the window asks for, and goes on behind it. */
  method ReadFurther(list: TurnsList, codec: Codec, limit: Option<real>, window: SnapshotWindow, direction: Direction,
                     collected: seq<Entry>, ghost thread: seq<Turn>, ghost p: Positions, ghost c: TurnCursor,
                     ghost turned: bool, ghost read: seq<Row>, ghost fits: bool, ghost left: nat)
    returns (result: Result<Snapshot, HistoryError>, ghost n: TurnCursor, ghost read': seq<Row>)
    requires Faithful(codec) && |Rows(Asc, thread)| <= MAX_SAFE_INTEGER
    requires OnTheWay(list, codec, thread, p, direction, limit, window, c, turned, read, collected, fits, left)
    ensures result.Err? ==> result.error.CursorTooLong? && !fits
    ensures result.Ok? && LinkOf(direction, result.value).None? ==>
      && Joined(direction, collected, result.value.entries) == AllEntries(ItemsOf(Rows(Asc, thread)))
      && fits
    ensures result.Ok? && LinkOf(direction, result.value).Some? ==>
      && left > 0
      && OnTheWay(list, codec, thread, p, direction, limit,
                  FollowingWindow(direction, limit, LinkOf(direction, result.value).value), n, true, read',
                  Joined(direction, collected, result.value.entries), fits, left - 1)
  {
    ghost var (shown, next) := ShownAt(list, thread, p, c, Limit(limit));
    n, read' := c, read + shown;
    result := ReadPage(list, codec, window, thread, p, c);
    if result.Err? {
      return;
    }
    StandsFurther(list, thread, p, c, Limit(limit), read);
    EntriesReadAppend(direction, read, shown);
    if next.Some? {
      n := next.value;
      LinkAsks(list, codec, thread, p, n, limit, read');
    } else {
      EntriesOfThread(direction, Rows(Asc, thread));
    }
  }

  /**
   * Following the text of the earlier link from the latest page, or of the later link
   * from the earliest page, shows the entries of every native item exactly once and in
   * order, and ends. It fails exactly when a page on the way hands out a cursor that is
   * too long.
   */
  method ReadThread(list: TurnsList, codec: Codec, direction: Direction, limit: Option<real>,
                    ghost thread: seq<Turn>, ghost p: Positions) returns (result: Result<seq<Entry>, HistoryError>)
    requires Serves(list, thread, p) && Faithful(codec) && |Rows(Asc, thread)| <= MAX_SAFE_INTEGER
    ensures result.Ok? <==> WalkFits(list, codec, thread, p, PageCursor(direction, "", 0), Limit(limit), false)
    ensures result.Ok? ==> result.value == AllEntries(ItemsOf(Rows(Asc, thread)))
    ensures result.Err? ==> result.error.CursorTooLong?
  {
    var collected: seq<Entry>, window := [], FirstWindow(direction, limit);
    ghost var c, turned, read: seq<Row> := PageCursor(direction, "", 0), false, [];
    ghost var fits := WalkFits(list, codec, thread, p, c, Limit(limit), turned);
    ghost var left := PagesFrom(list, thread, p, c, Limit(limit));
    StandsAtStart(list, thread, p, direction, Limit(limit));
    while true
      invariant OnTheWay(list, codec, thread, p, direction, limit, window, c, turned, read, collected, fits, left)
      decreases left
    {
      var page;
      page, c, read :=
        ReadFurther(list, codec, limit, window, direction, collected, thread, p, c, turned, read, fits, left);
      if page.Err? {
        return Err(page.error);
      }
      collected := Joined(direction, collected, page.value.entries);
      var link := LinkOf(direction, page.value);
      if link.None? {
        return Ok(collected);
      }
      window, turned, left := FollowingWindow(direction, limit, link.value), true, left - 1;
    }
  }

  lemma {:induction false} SliceFrom<T>(rows: seq<T>, from: nat, size: nat)
    requires from <= |rows|
    ensures Slice(rows, from, size) == Slice(rows[from..], 0, size)
  {
  }

  /**
   * Polling with an anchor shows the rows after it, as many as fit, and links to the
   * others; an anchor that is not on the page is an error.
   */
  lemma {:induction false} AnchorResumes(list: TurnsList, codec: Codec, since: string, window: SnapshotWindow,
      anchor: TurnCursor, rows: seq<Row>, before: seq<Row>, item: Item, later: seq<Row>)
    requires IsCodexTurnHistoryCursor(since) && DecodeCursor(codec, since) == Ok(anchor)
    requires anchor.AnchorCursor? && item.id == anchor.itemId
    requires RowsOf(Position(Some(anchor), false), list(NativeLimit(Limit(window.limit)), Asc, anchor.backwardsCursor))
      == Ok(rows)
    requires rows == before + [Row(anchor.turnId, item)] + later
    requires forall row | row in before :: row.turnId != anchor.turnId || row.item.id != anchor.itemId
    ensures var shown, result :=
        Slice(later, 0, Budget(Limit(window.limit))), SnapshotCodexTurnHistory(list, codec, Some(since), window);
      var c := Position(Some(anchor), window.earliest);
      var page := list(NativeLimit(Limit(window.limit)), Asc, anchor.backwardsCursor);
      && (result.Err? <==> Overlong(list, codec, Limit(window.limit), c, page, rows, |before| + 1, true))
      && (result.Err? ==> result.error.CursorTooLong?)
      && (result.Ok? ==> result.value.entries == AllEntries(ItemsOf(shown)))
      && (result.Ok? ==> (result.value.page.hasLater <==> |shown| < |later| || page.nextCursor != ""))
  {
    var c := Position(Some(anchor), window.earliest);
    var page := list(NativeLimit(Limit(window.limit)), Asc, anchor.backwardsCursor);
    var found := |before| + 1;
    AnchorFound(rows, anchor, before, item, later);
    SliceFrom(rows, found, Budget(Limit(window.limit)));
    SnapshotShowsSlice(list, codec, Some(since), window, Some(anchor), c, page, rows, found);
  }

  lemma {:induction false} AnchorFound(rows: seq<Row>, anchor: TurnCursor, before: seq<Row>, item: Item,
      later: seq<Row>)
    requires anchor.AnchorCursor? && item.id == anchor.itemId
    requires rows == before + [Row(anchor.turnId, item)] + later
    requires forall row | row in before :: row.turnId != anchor.turnId || row.item.id != anchor.itemId
    ensures Offset(Some(anchor), rows) == Ok(|before| + 1) && rows[|before| + 1..] == later
  {
    assert rows[|before|] == Row(anchor.turnId, item);
  }

  lemma {:induction false} AnchorLost(list: TurnsList, codec: Codec, since: string, window: SnapshotWindow,
      anchor: TurnCursor, rows: seq<Row>)
    requires IsCodexTurnHistoryCursor(since) && DecodeCursor(codec, since) == Ok(anchor) && anchor.AnchorCursor?
    requires RowsOf(Position(Some(anchor), false), list(NativeLimit(Limit(window.limit)), Asc, anchor.backwardsCursor))
      == Ok(rows)
    requires forall row | row in rows :: row.turnId != anchor.turnId || row.item.id != anchor.itemId
    ensures SnapshotCodexTurnHistory(list, codec, Some(since), window) == Err(AnchorUnavailable)
  {
  }
}
