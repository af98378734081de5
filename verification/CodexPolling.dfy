/** Polling a Codex thread that grows: the loop that follows the links from an anchor. */
module CodexPolling {
  import opened Prelude
  import opened CodexTurns
  import Texts

  const PAGE_LIMIT: nat := 1000

  datatype RecoveryError = Refused(error: HistoryError) | TooManyPages | BadCursor

  datatype Recovery = Recovery(entries: seq<Entry>, leafId: Option<string>)

  /** The window of each request; what is asked for is in `since`. */
  function Poll(limit: Option<real>): SnapshotWindow {
    SnapshotWindow(limit, None, None, false)
  }

  /** The text of a cursor has no white space around it. */
  ghost predicate Unspaced(codec: Codec) {
    forall c :: Texts.Trim(PREFIX + codec.text(c)) == PREFIX + codec.text(c)
  }

  // ---------------------------------------------------------------------
  // Where the row of an anchor is.

  predicate Names(anchor: TurnCursor, row: Row)
    requires anchor.AnchorCursor?
  {
    row.turnId == anchor.turnId && row.item.id == anchor.itemId
  }

  predicate DistinctRows(rows: seq<Row>) {
    forall i, j | 0 <= i < j < |rows| :: rows[i].turnId != rows[j].turnId || rows[i].item.id != rows[j].item.id
  }

  /** The first `m` rows of the thread end with the row of the anchor. */
  predicate Marks(thread: seq<Turn>, anchor: TurnCursor, m: nat) {
    anchor.AnchorCursor? && 0 < m <= |Rows(Asc, thread)| && Names(anchor, Rows(Asc, thread)[m - 1])
  }

  function AnchorPage(anchor: TurnCursor): (c: TurnCursor)
    requires anchor.AnchorCursor?
    ensures c.PageCursor?
  {
    PageCursor(Asc, anchor.backwardsCursor, 0)
  }

  /** How many rows lie before the page of the anchor. */
  ghost function Start(thread: seq<Turn>, p: Positions, anchor: TurnCursor): nat
    requires anchor.AnchorCursor? && p.at(Asc, anchor.backwardsCursor) <= |thread|
  {
    |Rows(Asc, thread[..p.at(Asc, anchor.backwardsCursor)])|
  }

  ghost predicate Asks(list: TurnsList, thread: seq<Turn>, p: Positions, anchor: TurnCursor) {
    && anchor.AnchorCursor? && Issued(list, thread, p, AnchorPage(anchor))
    && p.at(Asc, anchor.backwardsCursor) <= |thread|
  }

  /** Row `m - 1` is on the first page that the anchor asks for. */
  ghost predicate OnPage(list: TurnsList, thread: seq<Turn>, p: Positions, anchor: TurnCursor, m: nat, limit: nat)
    requires Asks(list, thread, p, anchor) && 1 <= limit <= 500
  {
    var start := Start(thread, p, anchor);
    start < m <= start + |RowsAt(list, thread, p, AnchorPage(anchor), limit)|
  }

  predicate Lies<T(==)>(part: seq<T>, whole: seq<T>, start: nat) {
    start + |part| <= |whole| && whole[start..start + |part|] == part
  }

  /** The rows of the page, between those before and those behind it. */
  lemma {:induction false} PageInThread(list: TurnsList, thread: seq<Turn>, p: Positions, c: TurnCursor, limit: nat)
    requires Issued(list, thread, p, c) && c.direction.Asc? && 1 <= limit <= 500
    requires p.at(Asc, c.cursor) <= |thread|
    ensures var start, rows := |Rows(Asc, thread[..p.at(Asc, c.cursor)])|, RowsAt(list, thread, p, c, limit);
      Lies(rows, Rows(Asc, thread), start) && Rows(Asc, thread)[start..] == RestFrom(thread, p, c)
  {
    var from := p.at(Asc, c.cursor);
    assert thread == thread[..from] + thread[from..];
    RowsAppend(Asc, thread[..from], thread[from..]);
    RowsFrom(list, thread, p, c, limit);
    var rows := RowsAt(list, thread, p, c, limit);
    MiddlePart(Rows(Asc, thread), Rows(Asc, thread[..from]), rows, Rows(Asc, thread[from..])[|rows|..]);
  }

  lemma {:induction false} MiddlePart<T>(whole: seq<T>, a: seq<T>, b: seq<T>, c: seq<T>)
    requires whole == a + (b + c)
    ensures Lies(b, whole, |a|) && whole[|a|..] == b + c
  {
  }

  /** The row is found where it is, or not at all. */
  lemma {:induction false} FoundOnPage(whole: seq<Row>, start: nat, rows: seq<Row>, anchor: TurnCursor, m: nat)
    requires Lies(rows, whole, start)
    requires anchor.AnchorCursor? && 0 < m <= |whole| && Names(anchor, whole[m - 1]) && DistinctRows(whole)
    ensures Offset(Some(anchor), rows)
      == if start < m <= start + |rows| then Ok(m - start) else Err(AnchorUnavailable)
  {
    if start < m <= start + |rows| {
      assert rows[m - 1 - start] == whole[m - 1];
    }
    var found := FindRow(rows, anchor.turnId, anchor.itemId);
    if found < |rows| {
      assert rows[found] == whole[start + found];
    }
  }

  lemma {:induction false} AnchorPlace(list: TurnsList, thread: seq<Turn>, p: Positions, anchor: TurnCursor, m: nat,
                                       limit: nat)
    requires Asks(list, thread, p, anchor) && 1 <= limit <= 500
    requires Marks(thread, anchor, m) && DistinctRows(Rows(Asc, thread))
    ensures Offset(Some(anchor), RowsAt(list, thread, p, AnchorPage(anchor), limit))
      == if OnPage(list, thread, p, anchor, m, limit) then Ok(m - Start(thread, p, anchor)) else Err(AnchorUnavailable)
  {
    var start, rows := Start(thread, p, anchor), RowsAt(list, thread, p, AnchorPage(anchor), limit);
    PageInThread(list, thread, p, AnchorPage(anchor), limit);
    FoundOnPage(Rows(Asc, thread), start, rows, anchor, m);
  }

  lemma {:induction false} RowsOfPage(list: TurnsList, thread: seq<Turn>, p: Positions, c: TurnCursor, limit: nat)
    requires Issued(list, thread, p, c) && 1 <= limit <= 500
    ensures RowsOf(c, PageAt(list, thread, p, c, limit)) == Ok(RowsAt(list, thread, p, c, limit))
  {
  }

  lemma {:induction false} SnapshotFrom(list: TurnsList, codec: Codec, since: string, anchor: TurnCursor,
                                        limit: Option<real>, page: NativePage, rows: seq<Row>)
    requires DecodeCursor(codec, since) == Ok(anchor) && anchor.AnchorCursor?
    requires page == list(NativeLimit(Limit(limit)), Asc, anchor.backwardsCursor)
    requires RowsOf(AnchorPage(anchor), page) == Ok(rows)
    ensures SnapshotCodexTurnHistory(list, codec, Some(since), Poll(limit)) == match Offset(Some(anchor), rows)
      case Ok(offset) =>
        SnapshotOf(list, codec, Some(since), Poll(limit), Some(anchor), AnchorPage(anchor), page, rows, offset)
      case Err(error) => Err(error)
  {
  }

  /** The snapshot that a poll with the anchor takes. */
  lemma {:induction false} AnchorSnapshot(list: TurnsList, codec: Codec, thread: seq<Turn>, p: Positions,
                                          since: string, anchor: TurnCursor, m: nat, limit: Option<real>)
    requires Asks(list, thread, p, anchor) && Marks(thread, anchor, m) && DistinctRows(Rows(Asc, thread))
    requires DecodeCursor(codec, since) == Ok(anchor) && OnPage(list, thread, p, anchor, m, Limit(limit))
    ensures var c := AnchorPage(anchor);
      SnapshotCodexTurnHistory(list, codec, Some(since), Poll(limit))
      == SnapshotOf(list, codec, Some(since), Poll(limit), Some(anchor), c, PageAt(list, thread, p, c, Limit(limit)),
                    RowsAt(list, thread, p, c, Limit(limit)), m - Start(thread, p, anchor))
  {
    var c := AnchorPage(anchor);
    RowsOfPage(list, thread, p, c, Limit(limit));
    AnchorPlace(list, thread, p, anchor, m, Limit(limit));
    SnapshotFrom(list, codec, since, anchor, limit, PageAt(list, thread, p, c, Limit(limit)),
                 RowsAt(list, thread, p, c, Limit(limit)));
  }

  lemma {:induction false} AnchorMissing(list: TurnsList, codec: Codec, thread: seq<Turn>, p: Positions,
                                         since: string, anchor: TurnCursor, m: nat, limit: Option<real>)
    requires Asks(list, thread, p, anchor) && Marks(thread, anchor, m) && DistinctRows(Rows(Asc, thread))
    requires DecodeCursor(codec, since) == Ok(anchor) && !OnPage(list, thread, p, anchor, m, Limit(limit))
    ensures SnapshotCodexTurnHistory(list, codec, Some(since), Poll(limit)) == Err(AnchorUnavailable)
  {
    var c := AnchorPage(anchor);
    RowsOfPage(list, thread, p, c, Limit(limit));
    AnchorPlace(list, thread, p, anchor, m, Limit(limit));
    SnapshotFrom(list, codec, since, anchor, limit, PageAt(list, thread, p, c, Limit(limit)),
                 RowsAt(list, thread, p, c, Limit(limit)));
  }

  // ---------------------------------------------------------------------
  // What a poll is told.

  /** Where the poll starts in the page of the anchor. */
  ghost function FirstAfter(thread: seq<Turn>, p: Positions, anchor: TurnCursor, m: nat): (c: TurnCursor)
    requires anchor.AnchorCursor? && p.at(Asc, anchor.backwardsCursor) <= |thread| && Start(thread, p, anchor) <= m
    ensures c.PageCursor? && c.direction.Asc?
  {
    PageCursor(Asc, anchor.backwardsCursor, m - Start(thread, p, anchor))
  }

  lemma {:induction false} SkipIgnored(list: TurnsList, codec: Codec, limit: nat, c: TurnCursor, skip: nat,
                                       page: NativePage, rows: seq<Row>, turned: bool,
                                       result: Result<Snapshot, HistoryError>)
    requires c.PageCursor? && ShowsSlice(list, codec, limit, c, page, rows, skip, turned, result)
    ensures ShowsSlice(list, codec, limit, c.(skip := skip), page, rows, skip, turned, result)
  {
  }

  /** A poll with the anchor shows the page from behind its row. */
  lemma {:induction false} AnchorTells(list: TurnsList, codec: Codec, thread: seq<Turn>, p: Positions, since: string,
                                       anchor: TurnCursor, m: nat, limit: Option<real>,
                                       result: Result<Snapshot, HistoryError>)
    requires Asks(list, thread, p, anchor) && Marks(thread, anchor, m) && DistinctRows(Rows(Asc, thread))
    requires DecodeCursor(codec, since) == Ok(anchor) && OnPage(list, thread, p, anchor, m, Limit(limit))
    requires result == SnapshotCodexTurnHistory(list, codec, Some(since), Poll(limit))
    ensures TellsPage(list, codec, thread, p, FirstAfter(thread, p, anchor, m), Limit(limit), true, result)
  {
    AnchorSnapshot(list, codec, thread, p, since, anchor, m, limit);
    AnchorShows(list, codec, thread, p, since, anchor, m, limit, result);
  }

  lemma {:induction false} AnchorShows(list: TurnsList, codec: Codec, thread: seq<Turn>, p: Positions, since: string,
                                       anchor: TurnCursor, m: nat, limit: Option<real>,
                                       result: Result<Snapshot, HistoryError>)
    requires Asks(list, thread, p, anchor) && Start(thread, p, anchor) <= m
    requires var c := AnchorPage(anchor);
      result == SnapshotOf(list, codec, Some(since), Poll(limit), Some(anchor), c,
                           PageAt(list, thread, p, c, Limit(limit)), RowsAt(list, thread, p, c, Limit(limit)),
                           m - Start(thread, p, anchor))
    ensures TellsPage(list, codec, thread, p, FirstAfter(thread, p, anchor, m), Limit(limit), true, result)
  {
    var c, offset := AnchorPage(anchor), m - Start(thread, p, anchor);
    var page, rows := PageAt(list, thread, p, c, Limit(limit)), RowsAt(list, thread, p, c, Limit(limit));
    SnapshotShowsSlice(list, codec, Some(since), Poll(limit), Some(anchor), c, page, rows, offset);
    SkipIgnored(list, codec, Limit(limit), c, offset, page, rows, true, result);
    TellsFrom(list, codec, thread, p, c, offset, Limit(limit), result);
  }

  lemma {:induction false} TellsFrom(list: TurnsList, codec: Codec, thread: seq<Turn>, p: Positions, c: TurnCursor,
                                     skip: nat, limit: nat, result: Result<Snapshot, HistoryError>)
    requires Issued(list, thread, p, c) && 1 <= limit <= 500
    requires ShowsSlice(list, codec, limit, c.(skip := skip), PageAt(list, thread, p, c, limit),
                        RowsAt(list, thread, p, c, limit), skip, true, result)
    ensures TellsPage(list, codec, thread, p, c.(skip := skip), limit, true, result)
  {
  }

  /** A poll with the text of a page cursor shows that page. */
  lemma {:induction false} LinkTells(list: TurnsList, codec: Codec, thread: seq<Turn>, p: Positions, text: string,
                                     c: TurnCursor, limit: Option<real>)
    requires Issued(list, thread, p, c) && c.direction.Asc? && DecodeCursor(codec, text) == Ok(c)
    ensures TellsPage(list, codec, thread, p, c, Limit(limit), true,
                      SnapshotCodexTurnHistory(list, codec, Some(text), Poll(limit)))
  {
    var page, rows := PageAt(list, thread, p, c, Limit(limit)), RowsAt(list, thread, p, c, Limit(limit));
    SnapshotShowsSlice(list, codec, Some(text), Poll(limit), Some(c), c, page, rows, c.skip);
  }

  /** The anchor that a snapshot hands out: a new one, else what it falls back to. */
  function LeafText(codec: Codec, leaf: Option<TurnCursor>, fallback: Option<string>): Option<string> {
    if leaf.Some? then Some(PREFIX + codec.text(leaf.value)) else fallback
  }

  /** The new anchor of the page at a cursor, if it has one. */
  ghost function LeafAt(list: TurnsList, thread: seq<Turn>, p: Positions, c: TurnCursor, limit: nat): Option<TurnCursor>
    requires Issued(list, thread, p, c) && 1 <= limit <= 500
  {
    var (shown, next) := ShownAt(list, thread, p, c, limit);
    LeafOf(list, c, PageAt(list, thread, p, c, limit), Ordered(c.direction, shown), next, true)
  }

  lemma {:induction false} SnapshotLeafId(list: TurnsList, codec: Codec, since: Option<string>, window: SnapshotWindow,
                                          selector: Option<TurnCursor>, c: TurnCursor, page: NativePage,
                                          rows: seq<Row>, offset: nat, leaf: Option<TurnCursor>, snapshot: Snapshot)
    requires c.PageCursor? && SnapshotOf(list, codec, since, window, selector, c, page, rows, offset) == Ok(snapshot)
    requires var shown := Slice(rows, offset, Budget(Limit(window.limit)));
      leaf == LeafOf(list, c, page, Ordered(c.direction, shown), Next(c, page, rows, offset + |shown|),
                     Turned(selector, c, window))
    ensures EncodeSome(codec, leaf).Ok?
    ensures var text := EncodeSome(codec, leaf).value;
      snapshot.leafId == LeafId(selector, since, text)
  {
    var limit := Limit(window.limit);
    var shown := Slice(rows, offset, Budget(limit));
    LeafIdWith(codec, LastEntries(ItemsOf(Ordered(c.direction, shown)), if limit > 2 then limit else 2), since, window,
               selector, c, Next(c, page, rows, offset + |shown|), leaf, BackOf(c, page, Turned(selector, c, window)),
               snapshot);
  }

  lemma {:induction false} LeafIdWith(codec: Codec, entries: seq<Entry>, since: Option<string>, window: SnapshotWindow,
                                      selector: Option<TurnCursor>, c: TurnCursor, next: Option<TurnCursor>,
                                      leaf: Option<TurnCursor>, back: Option<TurnCursor>, snapshot: Snapshot)
    requires c.PageCursor?
    requires SnapshotWith(codec, entries, since, window, selector, c, next, leaf, back) == Ok(snapshot)
    ensures EncodeSome(codec, leaf).Ok? && snapshot.leafId == LeafId(selector, since, EncodeSome(codec, leaf).value)
  {
  }

  lemma {:induction false} EncodedSome(codec: Codec, c: Option<TurnCursor>)
    requires EncodeSome(codec, c).Ok?
    ensures EncodeSome(codec, c).value == LeafText(codec, c, None)
  {
  }

  lemma {:induction false} SnapshotLeaf(list: TurnsList, codec: Codec, since: Option<string>, window: SnapshotWindow,
                                        selector: Option<TurnCursor>, c: TurnCursor, page: NativePage,
                                        rows: seq<Row>, offset: nat, leaf: Option<TurnCursor>, snapshot: Snapshot)
    requires c.PageCursor? && SnapshotOf(list, codec, since, window, selector, c, page, rows, offset) == Ok(snapshot)
    requires var shown := Slice(rows, offset, Budget(Limit(window.limit)));
      leaf == LeafOf(list, c, page, Ordered(c.direction, shown), Next(c, page, rows, offset + |shown|),
                     Turned(selector, c, window))
    ensures snapshot.leafId
      == LeafText(codec, leaf, if selector.Some? && selector.value.AnchorCursor? then since else None)
  {
    SnapshotLeafId(list, codec, since, window, selector, c, page, rows, offset, leaf, snapshot);
    EncodedSome(codec, leaf);
  }

  lemma {:induction false} LeafSkip(list: TurnsList, thread: seq<Turn>, p: Positions, c: TurnCursor, skip: nat,
                                    limit: nat)
    requires Issued(list, thread, p, c) && 1 <= limit <= 500
    ensures var page, rows := PageAt(list, thread, p, c, limit), RowsAt(list, thread, p, c, limit);
      var shown := Slice(rows, skip, Budget(limit));
      LeafAt(list, thread, p, c.(skip := skip), limit)
        == LeafOf(list, c, page, Ordered(c.direction, shown), Next(c, page, rows, skip + |shown|), true)
  {
  }

  lemma {:induction false} AnchorLeaf(list: TurnsList, codec: Codec, thread: seq<Turn>, p: Positions, since: string,
                                      anchor: TurnCursor, m: nat, limit: Option<real>, snapshot: Snapshot)
    requires Asks(list, thread, p, anchor) && Marks(thread, anchor, m) && DistinctRows(Rows(Asc, thread))
    requires DecodeCursor(codec, since) == Ok(anchor) && OnPage(list, thread, p, anchor, m, Limit(limit))
    requires SnapshotCodexTurnHistory(list, codec, Some(since), Poll(limit)) == Ok(snapshot)
    ensures snapshot.leafId
      == LeafText(codec, LeafAt(list, thread, p, FirstAfter(thread, p, anchor, m), Limit(limit)), Some(since))
  {
    AnchorSnapshot(list, codec, thread, p, since, anchor, m, limit);
    AnchorLeafAt(list, codec, thread, p, since, anchor, m, limit, snapshot);
  }

  lemma {:induction false} AnchorLeafAt(list: TurnsList, codec: Codec, thread: seq<Turn>, p: Positions, since: string,
                                        anchor: TurnCursor, m: nat, limit: Option<real>, snapshot: Snapshot)
    requires Asks(list, thread, p, anchor) && Start(thread, p, anchor) <= m
    requires var c := AnchorPage(anchor);
      SnapshotOf(list, codec, Some(since), Poll(limit), Some(anchor), c, PageAt(list, thread, p, c, Limit(limit)),
                 RowsAt(list, thread, p, c, Limit(limit)), m - Start(thread, p, anchor)) == Ok(snapshot)
    ensures snapshot.leafId
      == LeafText(codec, LeafAt(list, thread, p, FirstAfter(thread, p, anchor, m), Limit(limit)), Some(since))
  {
    var c, offset := AnchorPage(anchor), m - Start(thread, p, anchor);
    var leaf := LeafAt(list, thread, p, FirstAfter(thread, p, anchor, m), Limit(limit));
    assert Turned(Some(anchor), c, Poll(limit)) && FirstAfter(thread, p, anchor, m) == c.(skip := offset);
    LeafSkip(list, thread, p, c, offset, Limit(limit));
    SnapshotLeaf(list, codec, Some(since), Poll(limit), Some(anchor), c, PageAt(list, thread, p, c, Limit(limit)),
                 RowsAt(list, thread, p, c, Limit(limit)), offset, leaf, snapshot);
  }

  lemma {:induction false} LinkLeaf(list: TurnsList, codec: Codec, thread: seq<Turn>, p: Positions, text: string,
                                    c: TurnCursor, limit: Option<real>, snapshot: Snapshot)
    requires Issued(list, thread, p, c) && c.direction.Asc? && DecodeCursor(codec, text) == Ok(c)
    requires SnapshotCodexTurnHistory(list, codec, Some(text), Poll(limit)) == Ok(snapshot)
    ensures snapshot.leafId == LeafText(codec, LeafAt(list, thread, p, c, Limit(limit)), None)
  {
    RowsOfPage(list, thread, p, c, Limit(limit));
    LeafSkip(list, thread, p, c, c.skip, Limit(limit));
    SnapshotLeaf(list, codec, Some(text), Poll(limit), Some(c), c, PageAt(list, thread, p, c, Limit(limit)),
                 RowsAt(list, thread, p, c, Limit(limit)), c.skip, LeafAt(list, thread, p, c, Limit(limit)), snapshot);
  }

  // ---------------------------------------------------------------------
  // Following the links.

  /** The cursor of the last page. */
  ghost function EndOf(list: TurnsList, thread: seq<Turn>, p: Positions, c: TurnCursor, limit: nat): (e: TurnCursor)
    requires Issued(list, thread, p, c) && 1 <= limit <= 500
    ensures Issued(list, thread, p, e)
    decreases |thread| - p.at(c.direction, c.cursor), Left(RowsAt(list, thread, p, c, limit), c.skip)
  {
    match ShownAt(list, thread, p, c, limit).1
    case None => c
    case Some(n) => EndOf(list, thread, p, n, limit)
  }

  /** Behind some rows stands the cursor; its page is told, and everything from row `m` to its end is collected. */
  ghost predicate Polled(list: TurnsList, codec: Codec, thread: seq<Turn>, p: Positions, limit: nat, m: nat,
                         c: TurnCursor, read: seq<Row>, snapshot: Snapshot, entries: seq<Entry>)
  {
    && StandsAt(list, thread, p, c, limit, read) && c.direction.Asc?
    && TellsShown(list, codec, thread, p, c, limit, snapshot) && !OverlongAt(list, codec, thread, p, c, limit, true)
    && m <= |read|
    && entries == AllEntries(ItemsOf((read + ShownAt(list, thread, p, c, limit).0)[m..]))
  }

  /** What is known of the whole walk before it has ended. */
  datatype Outlook = Outlook(fits: bool, pages: nat, end: TurnCursor)

  ghost predicate LooksTo(list: TurnsList, codec: Codec, thread: seq<Turn>, p: Positions, limit: nat, c: TurnCursor,
                          pages: nat, outlook: Outlook)
    requires Issued(list, thread, p, c) && 1 <= limit <= 500
  {
    && WalkFits(list, codec, thread, p, c, limit, true) == outlook.fits
    && pages + PagesFrom(list, thread, p, c, limit) == outlook.pages + 1
    && EndOf(list, thread, p, c, limit) == outlook.end
  }

  lemma {:induction false} StandsBehind(list: TurnsList, thread: seq<Turn>, p: Positions, anchor: TurnCursor, m: nat,
                                        limit: nat)
    requires Asks(list, thread, p, anchor) && 1 <= limit <= 500 && OnPage(list, thread, p, anchor, m, limit)
    requires m <= |Rows(Asc, thread)|
    ensures StandsAt(list, thread, p, FirstAfter(thread, p, anchor, m), limit, Rows(Asc, thread)[..m])
  {
    PageInThread(list, thread, p, AnchorPage(anchor), limit);
    RestBehind(Rows(Asc, thread), Start(thread, p, anchor), m);
  }

  lemma {:induction false} RestBehind<T>(whole: seq<T>, start: nat, m: nat)
    requires start <= m <= |whole|
    ensures whole[..m] + whole[start..][m - start..] == whole
  {
  }

  lemma {:induction false} EntriesMore(a: seq<Row>, b: seq<Row>)
    ensures AllEntries(ItemsOf(a + b)) == AllEntries(ItemsOf(a)) + AllEntries(ItemsOf(b))
  {
    ItemsMore(a, b);
    FlatMapAppend(EntriesOf, ItemsOf(a), ItemsOf(b));
  }

  lemma {:induction false} ItemsMore(a: seq<Row>, b: seq<Row>)
    ensures ItemsOf(a + b) == ItemsOf(a) + ItemsOf(b)
  {
  }

  lemma {:induction false} PolledFirst(list: TurnsList, codec: Codec, thread: seq<Turn>, p: Positions, limit: nat,
                                       m: nat, c: TurnCursor, snapshot: Snapshot)
    requires m <= |Rows(Asc, thread)| && StandsAt(list, thread, p, c, limit, Rows(Asc, thread)[..m])
    requires c.direction.Asc? && TellsPage(list, codec, thread, p, c, limit, true, Ok(snapshot))
    ensures Polled(list, codec, thread, p, limit, m, c, Rows(Asc, thread)[..m], snapshot, snapshot.entries)
  {
    ToldShown(list, codec, thread, p, c, limit, true, Ok(snapshot));
    var shown := ShownAt(list, thread, p, c, limit).0;
    assert (Rows(Asc, thread)[..m] + shown)[m..] == shown;
  }

  lemma {:induction false} PolledNext(list: TurnsList, codec: Codec, thread: seq<Turn>, p: Positions, limit: nat,
                                      m: nat, c: TurnCursor, read: seq<Row>, snapshot: Snapshot, entries: seq<Entry>,
                                      later: Snapshot)
    requires Polled(list, codec, thread, p, limit, m, c, read, snapshot, entries)
    requires ShownAt(list, thread, p, c, limit).1.Some?
    requires var n := ShownAt(list, thread, p, c, limit).1.value;
      Issued(list, thread, p, n) && TellsPage(list, codec, thread, p, n, limit, true, Ok(later))
    ensures var (shown, next) := ShownAt(list, thread, p, c, limit);
      Polled(list, codec, thread, p, limit, m, next.value, read + shown, later, entries + later.entries)
  {
    var (shown, next) := ShownAt(list, thread, p, c, limit);
    StandsFurther(list, thread, p, c, limit, read);
    ToldShown(list, codec, thread, p, next.value, limit, true, Ok(later));
    var behind := ShownAt(list, thread, p, next.value, limit).0;
    EntriesNext(read + shown, m, behind);
  }

  lemma {:induction false} EntriesNext(read: seq<Row>, m: nat, behind: seq<Row>)
    requires m <= |read|
    ensures AllEntries(ItemsOf((read + behind)[m..]))
      == AllEntries(ItemsOf(read[m..])) + AllEntries(ItemsOf(behind))
  {
    assert (read + behind)[m..] == read[m..] + behind;
    EntriesMore(read[m..], behind);
  }

  lemma {:induction false} LooksFurther(list: TurnsList, codec: Codec, thread: seq<Turn>, p: Positions, limit: nat,
                                        c: TurnCursor, pages: nat, outlook: Outlook)
    requires Issued(list, thread, p, c) && 1 <= limit <= 500 && !OverlongAt(list, codec, thread, p, c, limit, true)
    requires LooksTo(list, codec, thread, p, limit, c, pages, outlook)
    ensures match ShownAt(list, thread, p, c, limit).1
      case None => outlook == Outlook(true, pages, c)
      case Some(n) =>
        && Issued(list, thread, p, n) && pages < outlook.pages
        && LooksTo(list, codec, thread, p, limit, n, pages + 1, outlook)
  {
  }

  lemma {:induction false} LastPolled(list: TurnsList, codec: Codec, thread: seq<Turn>, p: Positions, limit: nat,
                                      m: nat, c: TurnCursor, read: seq<Row>, snapshot: Snapshot, entries: seq<Entry>)
    requires Polled(list, codec, thread, p, limit, m, c, read, snapshot, entries)
    requires ShownAt(list, thread, p, c, limit).1.None? && m <= |Rows(Asc, thread)|
    ensures entries == AllEntries(ItemsOf(Rows(Asc, thread)[m..]))
  {
    StandsFurther(list, thread, p, c, limit, read);
  }

  // ---------------------------------------------------------------------
  // No text is asked for twice.

  /** The text asked for a page at or before the cursor. */
  ghost predicate NotBeyond(codec: Codec, p: Positions, text: string, c: TurnCursor)
    requires c.PageCursor?
  {
    match DecodeCursor(codec, text)
    case Ok(PageCursor(Asc, cursor, skip)) =>
      p.at(Asc, cursor) < p.at(Asc, c.cursor) || (p.at(Asc, cursor) == p.at(Asc, c.cursor) && skip <= c.skip)
    case _ => false
  }

  lemma {:induction false} NextIsBeyond(list: TurnsList, thread: seq<Turn>, p: Positions, c: TurnCursor, limit: nat)
    requires Issued(list, thread, p, c) && c.direction.Asc? && 1 <= limit <= 500
    requires ShownAt(list, thread, p, c, limit).1.Some? && c.skip <= |RowsAt(list, thread, p, c, limit)|
    ensures var n := ShownAt(list, thread, p, c, limit).1.value;
      n.PageCursor? && n.direction.Asc? && (p.at(Asc, c.cursor) < p.at(Asc, n.cursor)
        || (p.at(Asc, c.cursor) == p.at(Asc, n.cursor) && c.skip < n.skip))
  {
  }

  lemma {:induction false} NotVisited(codec: Codec, p: Positions, visited: set<string>, text: string, c: TurnCursor,
                                      n: TurnCursor)
    requires c.PageCursor? && n.PageCursor? && n.direction.Asc? && DecodeCursor(codec, text) == Ok(n)
    requires p.at(Asc, c.cursor) < p.at(Asc, n.cursor)
      || (p.at(Asc, c.cursor) == p.at(Asc, n.cursor) && c.skip < n.skip)
    requires forall t | t in visited :: NotBeyond(codec, p, t, c)
    ensures text !in visited
    ensures forall t | t in visited + {text} :: NotBeyond(codec, p, t, n)
  {
  }

  // ---------------------------------------------------------------------
  // The loop.

  /** The text names an anchor for row `m - 1` of the thread. */
  ghost predicate Polls(list: TurnsList, codec: Codec, thread: seq<Turn>, p: Positions, since: string,
                        anchor: TurnCursor, m: nat)
  {
    && DecodeCursor(codec, since) == Ok(anchor) && Asks(list, thread, p, anchor) && Marks(thread, anchor, m)
    && DistinctRows(Rows(Asc, thread)) && |Rows(Asc, thread)| <= MAX_SAFE_INTEGER
  }

  /** What the loop has done when it has taken so many pages. */
  ghost predicate Loaded(list: TurnsList, codec: Codec, thread: seq<Turn>, p: Positions, since: string, m: nat,
                         limit: nat, outlook: Outlook, c: TurnCursor, read: seq<Row>, snapshot: Snapshot,
                         entries: seq<Entry>, pages: nat, visited: set<string>)
  {
    && Polled(list, codec, thread, p, limit, m, c, read, snapshot, entries)
    && LooksTo(list, codec, thread, p, limit, c, pages, outlook) && pages > 0
    && snapshot.leafId
       == LeafText(codec, LeafAt(list, thread, p, c, limit), if pages == 1 then Some(since) else None)
    && forall t | t in visited :: NotBeyond(codec, p, t, c)
  }

  /**
   * Exactly the entries behind the row are loaded, if that row is on the first page, if no
   * cursor is too long, and if there are not too many pages. The anchor for the next poll
   * is the one of the last page.
   */
  ghost predicate Recovers(list: TurnsList, codec: Codec, thread: seq<Turn>, p: Positions, since: string,
                           anchor: TurnCursor, m: nat, limit: nat, result: Result<Recovery, RecoveryError>)
    requires Polls(list, codec, thread, p, since, anchor, m) && 1 <= limit <= 500
  {
    if !OnPage(list, thread, p, anchor, m, limit) then result == Err(Refused(AnchorUnavailable)) else
      var c := FirstAfter(thread, p, anchor, m);
      var pages := PagesFrom(list, thread, p, c, limit);
      && (result.Ok? <==> WalkFits(list, codec, thread, p, c, limit, true) && pages <= 1000)
      && (result.Err? ==> result.error in {Refused(CursorTooLong), TooManyPages})
      && (result.Ok? ==> result.value == Recovery(
            AllEntries(ItemsOf(Rows(Asc, thread)[m..])),
            LeafText(codec, LeafAt(list, thread, p, EndOf(list, thread, p, c, limit), limit),
                     if pages == 1 then Some(since) else None)))
  }

  lemma {:induction false} FirstLoaded(list: TurnsList, codec: Codec, thread: seq<Turn>, p: Positions, since: string,
                                       anchor: TurnCursor, m: nat, limit: Option<real>)
    requires Polls(list, codec, thread, p, since, anchor, m) && OnPage(list, thread, p, anchor, m, Limit(limit))
    ensures var c := FirstAfter(thread, p, anchor, m);
      match SnapshotCodexTurnHistory(list, codec, Some(since), Poll(limit))
      case Ok(snapshot) =>
        Loaded(list, codec, thread, p, since, m, Limit(limit), OutlookFrom(list, codec, thread, p, Limit(limit), c), c,
               Rows(Asc, thread)[..m], snapshot, snapshot.entries, 1, {})
      case Err(error) => error.CursorTooLong? && !WalkFits(list, codec, thread, p, c, Limit(limit), true)
  {
    var c, result := FirstAfter(thread, p, anchor, m), SnapshotCodexTurnHistory(list, codec, Some(since), Poll(limit));
    AnchorTells(list, codec, thread, p, since, anchor, m, limit, result);
    StandsBehind(list, thread, p, anchor, m, Limit(limit));
    if result.Ok? {
      PolledFirst(list, codec, thread, p, Limit(limit), m, c, result.value);
      AnchorLeaf(list, codec, thread, p, since, anchor, m, limit, result.value);
    }
  }

  ghost function OutlookFrom(list: TurnsList, codec: Codec, thread: seq<Turn>, p: Positions, limit: nat, c: TurnCursor)
    : Outlook
    requires Issued(list, thread, p, c) && 1 <= limit <= 500
  {
    Outlook(WalkFits(list, codec, thread, p, c, limit, true), PagesFrom(list, thread, p, c, limit),
            EndOf(list, thread, p, c, limit))
  }

  /** The link of a page is a text that was not asked for, and leads to the next page. */
  lemma {:induction false} LinkIsNew(list: TurnsList, codec: Codec, thread: seq<Turn>, p: Positions, limit: nat,
                                     m: nat, c: TurnCursor, read: seq<Row>, snapshot: Snapshot, entries: seq<Entry>,
                                     visited: set<string>)
    requires Faithful(codec) && Unspaced(codec) && |Rows(Asc, thread)| <= MAX_SAFE_INTEGER
    requires Polled(list, codec, thread, p, limit, m, c, read, snapshot, entries) && snapshot.page.hasLater
    requires forall t | t in visited :: NotBeyond(codec, p, t, c)
    ensures snapshot.page.after.Some? && ShownAt(list, thread, p, c, limit).1.Some?
    ensures var n, text := ShownAt(list, thread, p, c, limit).1.value, Texts.Trim(snapshot.page.after.value);
      && DecodeCursor(codec, text) == Ok(n) && text != "" && text !in visited
      && Issued(list, thread, p, n) && n.direction.Asc?
      && forall t | t in visited + {text} :: NotBeyond(codec, p, t, n)
  {
    StandsFurther(list, thread, p, c, limit, read);
    var (shown, next) := ShownAt(list, thread, p, c, limit);
    var n, text := next.value, snapshot.page.after.value;
    StandsValid(list, thread, p, n, limit, read + shown);
    CursorRoundTrip(codec, n);
    NextIsBeyond(list, thread, p, c, limit);
    NotVisited(codec, p, visited, text, c, n);
  }

  lemma {:induction false} NextLoaded(list: TurnsList, codec: Codec, thread: seq<Turn>, p: Positions, since: string,
                                      m: nat, limit: Option<real>, outlook: Outlook, c: TurnCursor, read: seq<Row>,
                                      snapshot: Snapshot, entries: seq<Entry>, pages: nat, visited: set<string>,
                                      text: string)
    requires Loaded(list, codec, thread, p, since, m, Limit(limit), outlook, c, read, snapshot, entries, pages, visited)
    requires ShownAt(list, thread, p, c, Limit(limit)).1.Some?
    requires var n := ShownAt(list, thread, p, c, Limit(limit)).1.value;
      && DecodeCursor(codec, text) == Ok(n) && Issued(list, thread, p, n) && n.direction.Asc?
      && forall t | t in visited + {text} :: NotBeyond(codec, p, t, n)
    ensures var (shown, next) := ShownAt(list, thread, p, c, Limit(limit));
      match SnapshotCodexTurnHistory(list, codec, Some(text), Poll(limit))
      case Ok(later) =>
        Loaded(list, codec, thread, p, since, m, Limit(limit), outlook, next.value, read + shown, later,
               entries + later.entries, pages + 1, visited + {text})
      case Err(error) => error.CursorTooLong? && !outlook.fits
  {
    var (shown, next) := ShownAt(list, thread, p, c, Limit(limit));
    var n, result := next.value, SnapshotCodexTurnHistory(list, codec, Some(text), Poll(limit));
    LinkTells(list, codec, thread, p, text, n, limit);
    LooksFurther(list, codec, thread, p, Limit(limit), c, pages, outlook);
    if result.Ok? {
      PolledNext(list, codec, thread, p, Limit(limit), m, c, read, snapshot, entries, result.value);
      LinkLeaf(list, codec, thread, p, text, n, limit, result.value);
    }
  }

  /** Asks for the next page by the text of its link. */
  method NextPage(list: TurnsList, codec: Codec, limit: Option<real>, snapshot: Snapshot, entries: seq<Entry>,
                  pages: nat, visited: set<string>, ghost thread: seq<Turn>, ghost p: Positions, ghost since: string,
                  ghost m: nat, ghost outlook: Outlook, ghost c: TurnCursor, ghost read: seq<Row>)
    returns (result: Result<Snapshot, RecoveryError>, text: string, ghost n: TurnCursor, ghost read': seq<Row>)
    requires Faithful(codec) && Unspaced(codec) && |Rows(Asc, thread)| <= MAX_SAFE_INTEGER
    requires Loaded(list, codec, thread, p, since, m, Limit(limit), outlook, c, read, snapshot, entries, pages, visited)
    requires snapshot.page.hasLater
    ensures result.Err? ==> result.error == Refused(CursorTooLong) && !outlook.fits
    ensures result.Ok? ==>
      Loaded(list, codec, thread, p, since, m, Limit(limit), outlook, n, read', result.value,
             entries + result.value.entries, pages + 1, visited + {text})
  {
    LinkIsNew(list, codec, thread, p, Limit(limit), m, c, read, snapshot, entries, visited);
    text := Texts.Trim(if snapshot.page.after.Some? then snapshot.page.after.value else "");
    n, read' := c, read;
    if text == "" || text in visited {
      result := Err(BadCursor);
    } else {
      NextLoaded(list, codec, thread, p, since, m, limit, outlook, c, read, snapshot, entries, pages, visited, text);
      ghost var (shown, next) := ShownAt(list, thread, p, c, Limit(limit));
      n, read' := next.value, read + shown;
      var later := SnapshotCodexTurnHistory(list, codec, Some(text), Poll(limit));
      result := if later.Ok? then Ok(later.value) else Err(Refused(later.error));
    }
  }

  lemma {:induction false} AllLoaded(list: TurnsList, codec: Codec, thread: seq<Turn>, p: Positions, since: string,
                                     m: nat, limit: nat, outlook: Outlook, c: TurnCursor, read: seq<Row>,
                                     snapshot: Snapshot, entries: seq<Entry>, pages: nat, visited: set<string>)
    requires Loaded(list, codec, thread, p, since, m, limit, outlook, c, read, snapshot, entries, pages, visited)
    requires m <= |Rows(Asc, thread)|
    ensures if snapshot.page.hasLater then pages < outlook.pages else
      && outlook == Outlook(true, pages, c) && entries == AllEntries(ItemsOf(Rows(Asc, thread)[m..]))
  {
    LooksFurther(list, codec, thread, p, limit, c, pages, outlook);
    if !snapshot.page.hasLater {
      LastPolled(list, codec, thread, p, limit, m, c, read, snapshot, entries);
    }
  }

  lemma {:induction false} FirstTold(list: TurnsList, codec: Codec, thread: seq<Turn>, p: Positions, since: string,
                                     anchor: TurnCursor, m: nat, limit: Option<real>,
                                     first: Result<Snapshot, HistoryError>)
    requires Polls(list, codec, thread, p, since, anchor, m)
    requires first == SnapshotCodexTurnHistory(list, codec, Some(since), Poll(limit))
    ensures first.Err? ==> Recovers(list, codec, thread, p, since, anchor, m, Limit(limit), Err(Refused(first.error)))
    ensures first.Ok? ==>
      && OnPage(list, thread, p, anchor, m, Limit(limit))
      && var c := FirstAfter(thread, p, anchor, m);
         Loaded(list, codec, thread, p, since, m, Limit(limit), OutlookFrom(list, codec, thread, p, Limit(limit), c), c,
                Rows(Asc, thread)[..m], first.value, first.value.entries, 1, {})
  {
    if OnPage(list, thread, p, anchor, m, Limit(limit)) {
      FirstLoaded(list, codec, thread, p, since, anchor, m, limit);
    } else {
      AnchorMissing(list, codec, thread, p, since, anchor, m, limit);
    }
  }

  /** The recovery loop, from the text of an anchor. */
  method LoadBehind(list: TurnsList, codec: Codec, since: string, limit: Option<real>, ghost thread: seq<Turn>,
                    ghost p: Positions, ghost anchor: TurnCursor, ghost m: nat)
    returns (result: Result<Recovery, RecoveryError>)
    requires Faithful(codec) && Unspaced(codec) && Polls(list, codec, thread, p, since, anchor, m)
    ensures Recovers(list, codec, thread, p, since, anchor, m, Limit(limit), result)
  {
    var first := SnapshotCodexTurnHistory(list, codec, Some(since), Poll(limit));
    FirstTold(list, codec, thread, p, since, anchor, m, limit, first);
    if first.Err? {
      return Err(Refused(first.error));
    }
    var snapshot, entries, pages, visited := first.value, first.value.entries, 1, {};
    ghost var c, read := FirstAfter(thread, p, anchor, m), Rows(Asc, thread)[..m];
    ghost var outlook := OutlookFrom(list, codec, thread, p, Limit(limit), c);
    while snapshot.page.hasLater
      invariant pages <= PAGE_LIMIT
      invariant Loaded(list, codec, thread, p, since, m, Limit(limit), outlook, c, read, snapshot, entries, pages,
                       visited)
      decreases PAGE_LIMIT - pages
    {
      if pages >= PAGE_LIMIT {
        AllLoaded(list, codec, thread, p, since, m, Limit(limit), outlook, c, read, snapshot, entries, pages, visited);
        return Err(TooManyPages);
      }
      var later, text;
      later, text, c, read :=
        NextPage(list, codec, limit, snapshot, entries, pages, visited, thread, p, since, m, outlook, c, read);
      if later.Err? {
        return Err(later.error);
      }
      snapshot, entries, pages, visited := later.value, entries + later.value.entries, pages + 1, visited + {text};
    }
    AllLoaded(list, codec, thread, p, since, m, Limit(limit), outlook, c, read, snapshot, entries, pages, visited);
    result := Ok(Recovery(entries, snapshot.leafId));
  }

  // ---------------------------------------------------------------------
  // A thread that grows.

  /** A native server at one moment: what it answers, the thread it serves, and where its cursors point. */
  datatype Native = Native(list: TurnsList, thread: seq<Turn>, p: Positions)

  ghost function AllRows(n: Native): seq<Row> {
    Rows(Asc, n.thread)
  }

  /** Items are added behind all others: to the newest turn, or in turns behind it. */
  predicate Grows(thread: seq<Turn>, more: seq<Turn>) {
    thread != [] ==>
      var last := |thread| - 1;
      && last < |more| && more[..last] == thread[..last]
      && more[last].id == thread[last].id && thread[last].items <= more[last].items
  }

  /** Cursors in reading direction keep pointing where they pointed. */
  ghost predicate GrewTo(before: Native, after: Native) {
    && Grows(before.thread, after.thread)
    && forall cursor: string | before.p.knows(Asc, cursor) ::
         after.p.knows(Asc, cursor) && after.p.at(Asc, cursor) == before.p.at(Asc, cursor)
  }

  /** The cursor that turns the newest page round leads to the newest turn. */
  ghost predicate TurnsBack(n: Native) {
    forall limit: nat | limit > 0 ::
      var back := n.list(limit, Desc, "").backwardsCursor;
      back != "" && n.thread != [] ==> n.p.knows(Asc, back) && n.p.at(Asc, back) == |n.thread| - 1
  }

  ghost predicate Sound(n: Native) {
    && Serves(n.list, n.thread, n.p) && TurnsBack(n)
    && DistinctRows(AllRows(n)) && |AllRows(n)| <= MAX_SAFE_INTEGER
    && forall row | row in AllRows(n) :: row.turnId != "" && row.item.id != ""
  }

  /** The anchor names the newest row, and its cursor leads to the newest turn. */
  ghost predicate IsNewest(n: Native, anchor: TurnCursor) {
    && Marks(n.thread, anchor, |AllRows(n)|) && n.thread != []
    && n.p.knows(Asc, anchor.backwardsCursor) && n.p.at(Asc, anchor.backwardsCursor) == |n.thread| - 1
  }

  lemma {:induction false} LastTurn(thread: seq<Turn>)
    requires thread != []
    ensures var last := |thread| - 1;
      Rows(Asc, thread) == Rows(Asc, thread[..last]) + TagRows(thread[last].id, thread[last].items)
  {
    var last := |thread| - 1;
    assert thread == thread[..last] + [thread[last]];
    RowsAppend(Asc, thread[..last], [thread[last]]);
    RowsOne(Asc, thread[last]);
  }

  lemma {:induction false} TurnInside(thread: seq<Turn>, k: nat)
    requires k < |thread|
    ensures Rows(Asc, thread)
      == Rows(Asc, thread[..k]) + (TagRows(thread[k].id, thread[k].items) + Rows(Asc, thread[k + 1..]))
  {
    assert thread == thread[..k] + ([thread[k]] + thread[k + 1..]);
    RowsAppend(Asc, thread[..k], [thread[k]] + thread[k + 1..]);
    RowsAppend(Asc, [thread[k]], thread[k + 1..]);
    RowsOne(Asc, thread[k]);
  }

  lemma {:induction false} TagMore(id: string, items: seq<Item>, more: seq<Item>)
    requires items <= more
    ensures TagRows(id, items) <= TagRows(id, more)
  {
  }

  lemma {:induction false} PrefixMore<T>(front: seq<T>, a: seq<T>, b: seq<T>, behind: seq<T>)
    requires a <= b
    ensures front + a <= front + (b + behind)
  {
    assert b == a + b[|a|..];
    assert front + (b + behind) == (front + a) + (b[|a|..] + behind);
  }

  lemma {:induction false} RowsGrow(thread: seq<Turn>, more: seq<Turn>)
    requires Grows(thread, more)
    ensures Rows(Asc, thread) <= Rows(Asc, more)
  {
    if thread != [] {
      var last := |thread| - 1;
      LastTurn(thread);
      TurnInside(more, last);
      TagMore(thread[last].id, thread[last].items, more[last].items);
      PrefixMore(Rows(Asc, thread[..last]), TagRows(thread[last].id, thread[last].items),
                 TagRows(more[last].id, more[last].items), Rows(Asc, more[last + 1..]));
    }
  }

  /** A page from a turn on holds the rows of that turn. */
  lemma {:induction false} PageHasTurn(list: TurnsList, thread: seq<Turn>, p: Positions, c: TurnCursor, limit: nat)
    requires Issued(list, thread, p, c) && c.direction.Asc? && 1 <= limit <= 500 && p.at(Asc, c.cursor) < |thread|
    ensures |RowsAt(list, thread, p, c, limit)| >= |thread[p.at(Asc, c.cursor)].items|
  {
    var from, turns := p.at(Asc, c.cursor), TurnsAt(list, thread, p, c, limit);
    assert turns[0] == thread[from];
    assert turns == [turns[0]] + turns[1..];
    RowsAppend(Asc, [turns[0]], turns[1..]);
    RowsOne(Asc, turns[0]);
  }

  /**
   * In a thread that has grown, the row of an anchor is found exactly if the newest turn
   * had items when the anchor was made.
   */
  lemma {:induction false} AnchorHolds(before: Native, after: Native, anchor: TurnCursor, limit: nat)
    requires Sound(before) && Sound(after) && GrewTo(before, after) && IsNewest(before, anchor) && 1 <= limit <= 500
    ensures Asks(after.list, after.thread, after.p, anchor)
    ensures Marks(after.thread, anchor, |AllRows(before)|)
    ensures OnPage(after.list, after.thread, after.p, anchor, |AllRows(before)|, limit)
      <==> before.thread[|before.thread| - 1].items != []
  {
    var last := |before.thread| - 1;
    RowsGrow(before.thread, after.thread);
    LastTurn(before.thread);
    PageHasTurn(after.list, after.thread, after.p, AnchorPage(anchor), limit);
  }

  // ---------------------------------------------------------------------
  // The anchor of the latest snapshot.

  lemma {:induction false} LatestPage(n: Native, limit: nat)
    requires Sound(n) && 1 <= limit <= 500
    ensures var c := PageCursor(Desc, "", 0);
      Issued(n.list, n.thread, n.p, c) && RowsAt(n.list, n.thread, n.p, c, limit) <= Reversed(AllRows(n))
  {
    var c := PageCursor(Desc, "", 0);
    RowsFrom(n.list, n.thread, n.p, c, limit);
    assert Ordered(Desc, n.thread)[0..] == Reversed(n.thread);
    RowsReversed(n.thread);
  }

  lemma {:induction false} NewestFirst(rows: seq<Row>, whole: seq<Row>, size: nat)
    requires rows <= Reversed(whole) && Slice(rows, 0, size) != []
    ensures whole != [] && var shown := Reversed(Slice(rows, 0, size)); shown[|shown| - 1] == whole[|whole| - 1]
  {
    assert rows[0] == Reversed(whole)[0];
  }

  lemma {:induction false} ThreadOfRows(thread: seq<Turn>)
    requires Rows(Asc, thread) != []
    ensures thread != []
  {
  }

  /** The anchor that the latest snapshot hands out names the newest row. */
  lemma {:induction false} LatestAnchored(n: Native, codec: Codec, limit: Option<real>, snapshot: Snapshot)
    returns (anchor: TurnCursor)
    requires Sound(n) && SnapshotCodexTurnHistory(n.list, codec, None, Poll(limit)) == Ok(snapshot)
    requires snapshot.leafId.Some?
    ensures snapshot.leafId == Some(PREFIX + codec.text(anchor)) && |snapshot.leafId.value| <= MAX_CURSOR_LENGTH
    ensures IsNewest(n, anchor) && IsValid(anchor)
  {
    var c := PageCursor(Desc, "", 0);
    LatestPage(n, Limit(limit));
    var page, rows := PageAt(n.list, n.thread, n.p, c, Limit(limit)), RowsAt(n.list, n.thread, n.p, c, Limit(limit));
    var shown := Slice(rows, 0, Budget(Limit(limit)));
    RowsOfPage(n.list, n.thread, n.p, c, Limit(limit));
    var leaf := LeafOf(n.list, c, page, Ordered(Desc, shown), Next(c, page, rows, |shown|), false);
    SnapshotLeaf(n.list, codec, None, Poll(limit), None, c, page, rows, 0, leaf, snapshot);
    SnapshotLeafId(n.list, codec, None, Poll(limit), None, c, page, rows, 0, leaf, snapshot);
    anchor := leaf.value;
    LeafNewest(n, Limit(limit), page, rows, Next(c, page, rows, |shown|), anchor);
  }

  lemma {:induction false} LeafNewest(n: Native, limit: nat, page: NativePage, rows: seq<Row>, next: Option<TurnCursor>,
                                      anchor: TurnCursor)
    requires Sound(n) && 1 <= limit <= 500 && page == n.list(NativeLimit(limit), Desc, "")
    requires rows <= Reversed(AllRows(n))
    requires LeafOf(n.list, PageCursor(Desc, "", 0), page, Reversed(Slice(rows, 0, Budget(limit))), next, false)
      == Some(anchor)
    ensures IsNewest(n, anchor) && IsValid(anchor)
  {
    NewestFirst(rows, AllRows(n), Budget(limit));
    ThreadOfRows(n.thread);
  }

  /**
   * A poll with the anchor of the latest snapshot finds its row in the thread as it has
   * grown since, exactly if the newest turn had items when the snapshot was taken.
   */
  lemma {:induction false} PollAfterLatest(before: Native, after: Native, codec: Codec, limit: Option<real>,
                                           snapshot: Snapshot)
    requires Faithful(codec) && Sound(before) && Sound(after) && GrewTo(before, after)
    requires SnapshotCodexTurnHistory(before.list, codec, None, Poll(limit)) == Ok(snapshot) && snapshot.leafId.Some?
    ensures before.thread != []
    ensures SnapshotCodexTurnHistory(after.list, codec, snapshot.leafId, Poll(limit)) == Err(AnchorUnavailable)
      <==> before.thread[|before.thread| - 1].items == []
  {
    var anchor := LatestAnchored(before, codec, limit, snapshot);
    var since := snapshot.leafId.value;
    CursorRoundTrip(codec, anchor);
    AnchorHolds(before, after, anchor, Limit(limit));
    if before.thread[|before.thread| - 1].items == [] {
      AnchorMissing(after.list, codec, after.thread, after.p, since, anchor, |AllRows(before)|, limit);
    } else {
      AnchorTells(after.list, codec, after.thread, after.p, since, anchor, |AllRows(before)|, limit,
                  SnapshotCodexTurnHistory(after.list, codec, snapshot.leafId, Poll(limit)));
    }
  }

  // ---------------------------------------------------------------------
  // The anchor of the last page of a poll.

  /** The newest turn has items and a cursor to turn round by, and no link leads behind the newest turn. */
  ghost predicate Settled(n: Native) {
    && n.thread != [] && n.thread[|n.thread| - 1].items != []
    && n.list(1, Desc, "").backwardsCursor != ""
    && forall limit: nat, cursor: string | limit > 0 && n.p.knows(Asc, cursor) ::
         var next := n.list(limit, Asc, cursor).nextCursor;
         next != "" ==> n.p.at(Asc, next) < |n.thread|
  }

  lemma {:induction false} RestRemains(n: Native, c: TurnCursor)
    requires Settled(n) && c.PageCursor? && c.direction.Asc? && n.p.at(Asc, c.cursor) < |n.thread|
    ensures RestFrom(n.thread, n.p, c) != []
  {
    LastTurn(n.thread[n.p.at(Asc, c.cursor)..]);
  }

  lemma {:induction false} PageInRest(n: Native, c: TurnCursor, limit: nat)
    requires Sound(n) && Issued(n.list, n.thread, n.p, c) && 1 <= limit <= 500
    requires n.p.at(c.direction, c.cursor) <= |n.thread|
    ensures |RowsAt(n.list, n.thread, n.p, c, limit)| <= |RestFrom(n.thread, n.p, c)|
  {
    RowsFrom(n.list, n.thread, n.p, c, limit);
  }

  /** What the next cursor points at is there. */
  lemma {:induction false} NextRemains(n: Native, c: TurnCursor, limit: nat)
    requires Sound(n) && Settled(n) && Issued(n.list, n.thread, n.p, c) && c.direction.Asc? && 1 <= limit <= 500
    requires ShownAt(n.list, n.thread, n.p, c, limit).1.Some?
    ensures var next := ShownAt(n.list, n.thread, n.p, c, limit).1.value;
      && next.PageCursor? && next.direction.Asc? && Issued(n.list, n.thread, n.p, next)
      && n.p.at(Asc, next.cursor) <= |n.thread| && next.skip < |RestFrom(n.thread, n.p, next)|
  {
    var next := ShownAt(n.list, n.thread, n.p, c, limit).1.value;
    if next.cursor == c.cursor && next.skip > 0 {
      PageInRest(n, c, limit);
      assert RestFrom(n.thread, n.p, next) == RestFrom(n.thread, n.p, c);
    } else {
      RestRemains(n, next);
    }
  }

  /** The walk ends at a page that shows the last rows, and it shows some if any were left. */
  lemma {:induction false} EndShows(n: Native, c: TurnCursor, limit: nat, read: seq<Row>) returns (all: seq<Row>)
    requires Sound(n) && Settled(n) && c.PageCursor? && c.direction.Asc?
    requires StandsAt(n.list, n.thread, n.p, c, limit, read)
    ensures var (shown, next) := ShownAt(n.list, n.thread, n.p, EndOf(n.list, n.thread, n.p, c, limit), limit);
      && next.None? && all + shown == AllRows(n)
      && (c.skip < |RestFrom(n.thread, n.p, c)| ==> shown != [])
    ensures EndOf(n.list, n.thread, n.p, c, limit).direction.Asc?
    decreases PagesFrom(n.list, n.thread, n.p, c, limit)
  {
    var (shown, next) := ShownAt(n.list, n.thread, n.p, c, limit);
    StandsFurther(n.list, n.thread, n.p, c, limit, read);
    if next.None? {
      all := read;
      LastPage(n.list, n.thread, n.p, c, limit);
    } else {
      NextRemains(n, c, limit);
      all := EndShows(n, next.value, limit, read + shown);
    }
  }

  lemma {:induction false} LatestIsNewest(n: Native, last: Row)
    requires Sound(n) && Settled(n) && AllRows(n) != [] && last == AllRows(n)[|AllRows(n)| - 1]
    ensures var anchor := LatestAnchor(n.list(1, Desc, ""), last);
      anchor.Some? && IsNewest(n, anchor.value) && IsValid(anchor.value)
  {
    LatestTurn(n);
    LastRow(n.thread);
    assert last in AllRows(n);
  }

  lemma {:induction false} LatestTurn(n: Native)
    requires Sound(n) && n.thread != []
    ensures var latest, newest := n.list(1, Desc, ""), n.thread[|n.thread| - 1];
      && latest.data.Some? && latest.data.value != []
      && latest.data.value[0] == NativeTurn(newest.id, Some(newest.items))
  {
    assert ServesPage(n.list(1, Desc, ""), n.thread, n.p, Desc, "");
    assert Ordered(Desc, n.thread)[0] == n.thread[|n.thread| - 1];
  }

  lemma {:induction false} LastRow(thread: seq<Turn>)
    requires thread != [] && thread[|thread| - 1].items != []
    ensures var newest := thread[|thread| - 1];
      && Rows(Asc, thread) != []
      && Rows(Asc, thread)[|Rows(Asc, thread)| - 1] == Row(newest.id, newest.items[|newest.items| - 1])
  {
    LastTurn(thread);
  }

  /** The last page of a poll hands out an anchor for the newest row, if the poll shows anything. */
  lemma {:induction false} EndLeaf(n: Native, c: TurnCursor, limit: nat, read: seq<Row>)
    requires Sound(n) && Settled(n) && c.PageCursor? && c.direction.Asc?
    requires StandsAt(n.list, n.thread, n.p, c, limit, read) && |read| < |AllRows(n)|
    ensures LeafAt(n.list, n.thread, n.p, EndOf(n.list, n.thread, n.p, c, limit), limit)
      == LatestAnchor(n.list(1, Desc, ""), AllRows(n)[|AllRows(n)| - 1])
  {
    var all := EndShows(n, c, limit, read);
    var e := EndOf(n.list, n.thread, n.p, c, limit);
    var shown := ShownAt(n.list, n.thread, n.p, e, limit).0;
    LastOfAll(all, shown, AllRows(n));
    LeafAtEnd(n, e, limit, shown);
  }

  lemma {:induction false} LastOfAll<T>(all: seq<T>, shown: seq<T>, whole: seq<T>)
    requires all + shown == whole && shown != []
    ensures whole != [] && shown[|shown| - 1] == whole[|whole| - 1]
  {
  }

  lemma {:induction false} LeafAtEnd(n: Native, e: TurnCursor, limit: nat, shown: seq<Row>)
    requires Sound(n) && Issued(n.list, n.thread, n.p, e) && e.direction.Asc? && 1 <= limit <= 500
    requires ShownAt(n.list, n.thread, n.p, e, limit) == (shown, None) && shown != []
    requires AllRows(n) != [] && shown[|shown| - 1] == AllRows(n)[|AllRows(n)| - 1]
    ensures LeafAt(n.list, n.thread, n.p, e, limit)
      == LatestAnchor(n.list(1, Desc, ""), AllRows(n)[|AllRows(n)| - 1])
  {
    assert AllRows(n)[|AllRows(n)| - 1] in AllRows(n);
    EndsWithLatest(n.list, e, PageAt(n.list, n.thread, n.p, e, limit), shown);
  }

  lemma {:induction false} EndsWithLatest(list: TurnsList, c: TurnCursor, page: NativePage, shown: seq<Row>)
    requires c.PageCursor? && c.direction.Asc? && shown != []
    requires shown[|shown| - 1].turnId != "" && shown[|shown| - 1].item.id != ""
    ensures LeafOf(list, c, page, Ordered(c.direction, shown), None, true)
      == LatestAnchor(list(1, Desc, ""), shown[|shown| - 1])
  {
  }

  /** A poll that finds nothing new takes one page. */
  lemma {:induction false} NothingNew(n: Native, c: TurnCursor, limit: nat, read: seq<Row>)
    requires Sound(n) && Settled(n) && c.PageCursor? && c.direction.Asc?
    requires StandsAt(n.list, n.thread, n.p, c, limit, read) && |read| == |AllRows(n)|
    ensures PagesFrom(n.list, n.thread, n.p, c, limit) == 1
    ensures LeafAt(n.list, n.thread, n.p, EndOf(n.list, n.thread, n.p, c, limit), limit) == None
  {
    var (shown, next) := ShownAt(n.list, n.thread, n.p, c, limit);
    PageInRest(n, c, limit);
    if next.Some? {
      NextRemains(n, c, limit);
      MiddlePage(n.list, n.thread, n.p, c, limit);
      assert false;
    }
  }

  lemma {:induction false} EndAscends(list: TurnsList, thread: seq<Turn>, p: Positions, c: TurnCursor, limit: nat)
    requires Issued(list, thread, p, c) && c.direction.Asc? && 1 <= limit <= 500
    ensures EndOf(list, thread, p, c, limit).direction.Asc?
    decreases |thread| - p.at(c.direction, c.cursor), Left(RowsAt(list, thread, p, c, limit), c.skip)
  {
    var next := ShownAt(list, thread, p, c, limit).1;
    if next.Some? {
      EndAscends(list, thread, p, next.value, limit);
    }
  }

  lemma {:induction false} NoLatestAnchor(n: Native, last: Row)
    requires Sound(n) && n.thread != [] && n.thread[|n.thread| - 1].items == []
    ensures LatestAnchor(n.list(1, Desc, ""), last) == None
  {
    LatestTurn(n);
  }

  lemma {:induction false} NoLeafAt(n: Native, c: TurnCursor, limit: nat)
    requires Sound(n) && n.thread != [] && n.thread[|n.thread| - 1].items == []
    requires Issued(n.list, n.thread, n.p, c) && c.direction.Asc? && 1 <= limit <= 500
    ensures LeafAt(n.list, n.thread, n.p, c, limit) == None
  {
    var (shown, next) := ShownAt(n.list, n.thread, n.p, c, limit);
    if shown != [] {
      NoLatestAnchor(n, shown[|shown| - 1]);
    }
    NoLeaf(n.list, c, PageAt(n.list, n.thread, n.p, c, limit), shown, next);
  }

  lemma {:induction false} NoLeaf(list: TurnsList, c: TurnCursor, page: NativePage, shown: seq<Row>,
                                  next: Option<TurnCursor>)
    requires c.PageCursor? && c.direction.Asc?
    requires shown != [] ==> LatestAnchor(list(1, Desc, ""), shown[|shown| - 1]) == None
    ensures LeafOf(list, c, page, Ordered(c.direction, shown), next, true) == None
  {
  }

  // ---------------------------------------------------------------------
  // Polling again and again.

  /** The same thread at moments that follow each other. */
  ghost predicate Moments(natives: seq<Native>) {
    && (forall k | 0 <= k < |natives| :: SettledAt(natives, k))
    && forall i, k | 0 <= i < k < |natives| :: GrownBetween(natives, i, k)
  }

  ghost predicate SettledAt(natives: seq<Native>, k: nat)
    requires k < |natives|
  {
    Sound(natives[k]) && Settled(natives[k])
  }

  ghost predicate GrownBetween(natives: seq<Native>, i: nat, k: nat)
    requires i < |natives| && k < |natives|
  {
    GrewTo(natives[i], natives[k])
  }

  /** The thread has grown since the moment at which the anchor named its newest row. */
  ghost predicate CanPoll(before: Native, after: Native, anchor: TurnCursor) {
    Sound(before) && Settled(before) && Sound(after) && Settled(after) && GrewTo(before, after)
    && IsNewest(before, anchor)
  }

  /** A poll that goes through: no cursor is too long, and there are not too many pages. */
  ghost predicate GoesThrough(before: Native, after: Native, codec: Codec, limit: nat, anchor: TurnCursor)
    requires 1 <= limit <= 500
  {
    && CanPoll(before, after, anchor)
    && (AnchorHolds(before, after, anchor, limit);
        var c := FirstAfter(after.thread, after.p, anchor, |AllRows(before)|);
        && WalkFits(after.list, codec, after.thread, after.p, c, limit, true)
        && PagesFrom(after.list, after.thread, after.p, c, limit) <= 1000)
  }

  /** A poll moves the anchor if it goes through and finds something. */
  ghost predicate Moves(before: Native, after: Native, codec: Codec, limit: nat, anchor: TurnCursor)
    requires 1 <= limit <= 500
  {
    GoesThrough(before, after, codec, limit, anchor) && |AllRows(before)| < |AllRows(after)|
  }

  ghost function NewestOf(n: Native): (anchor: TurnCursor)
    requires Sound(n) && Settled(n) && AllRows(n) != []
    ensures IsNewest(n, anchor) && IsValid(anchor)
  {
    LatestIsNewest(n, AllRows(n)[|AllRows(n)| - 1]);
    LatestAnchor(n.list(1, Desc, ""), AllRows(n)[|AllRows(n)| - 1]).value
  }

  /** The anchor kept by a client, and the moment at which it was made. */
  datatype Follower = Follower(at: nat, anchor: TurnCursor)

  /** What a poll at moment `k` leaves: the anchor of the newest row if it moves the anchor, else the one before. */
  ghost predicate Leaves(before: Native, after: Native, codec: Codec, limit: nat, k: nat, f: Follower, g: Follower)
    requires 1 <= limit <= 500
  {
    if Moves(before, after, codec, limit, f.anchor) then g == Follower(k, NewestOf(after)) else g == f
  }

  /** The anchor kept after poll `k`: the one at the start, or what the poll leaves of the one before. */
  ghost predicate Keeps(natives: seq<Native>, codec: Codec, limit: nat, anchor: TurnCursor, fs: seq<Follower>, k: nat)
    requires 1 <= limit <= 500
  {
    && k < |fs| && k < |natives| && fs[k].at <= k
    && if k == 0 then fs[0] == Follower(0, anchor)
       else fs[k - 1].at < k && Leaves(natives[fs[k - 1].at], natives[k], codec, limit, k, fs[k - 1], fs[k])
  }

  /** The anchors kept over all polls. */
  ghost predicate KeepsAll(natives: seq<Native>, codec: Codec, limit: nat, anchor: TurnCursor, fs: seq<Follower>)
    requires 1 <= limit <= 500
  {
    forall k | 0 <= k < |fs| :: Keeps(natives, codec, limit, anchor, fs, k)
  }

  lemma {:induction false} KeepsMore(natives: seq<Native>, codec: Codec, limit: nat, anchor: TurnCursor,
                                     fs: seq<Follower>, more: seq<Follower>)
    requires 1 <= limit <= 500 && KeepsAll(natives, codec, limit, anchor, fs) && |more| == |fs| + 1 && fs <= more
    requires Keeps(natives, codec, limit, anchor, more, |fs|)
    ensures KeepsAll(natives, codec, limit, anchor, more)
  {
    forall k | 0 <= k < |fs| ensures Keeps(natives, codec, limit, anchor, more, k) {
      KeepsOld(natives, codec, limit, anchor, fs, more, k);
    }
  }

  lemma {:induction false} KeepsOld(natives: seq<Native>, codec: Codec, limit: nat, anchor: TurnCursor,
                                    fs: seq<Follower>, more: seq<Follower>, k: nat)
    requires 1 <= limit <= 500 && k < |fs| && KeepsAll(natives, codec, limit, anchor, fs) && fs <= more
    ensures Keeps(natives, codec, limit, anchor, more, k)
  {
    assert Keeps(natives, codec, limit, anchor, fs, k);
    assert more[k] == fs[k] && more[0] == fs[0];
    assert k > 0 ==> more[k - 1] == fs[k - 1];
  }

  lemma {:induction false} KeepsNew(natives: seq<Native>, codec: Codec, limit: nat, anchor: TurnCursor,
                                    fs: seq<Follower>, f: Follower, g: Follower)
    requires 1 <= limit <= 500 && 0 < |fs| < |natives| && f == fs[|fs| - 1] && f.at < |fs| && g.at <= |fs|
    requires Leaves(natives[f.at], natives[|fs|], codec, limit, |fs|, f, g)
    ensures Keeps(natives, codec, limit, anchor, fs + [g], |fs|)
  {
    assert (fs + [g])[|fs| - 1] == fs[|fs| - 1] && (fs + [g])[|fs|] == g;
  }

  lemma {:induction false} EndFits(list: TurnsList, codec: Codec, thread: seq<Turn>, p: Positions, c: TurnCursor,
                                   limit: nat)
    requires Issued(list, thread, p, c) && 1 <= limit <= 500 && WalkFits(list, codec, thread, p, c, limit, true)
    ensures !IsTooLong(codec, LeafAt(list, thread, p, EndOf(list, thread, p, c, limit), limit))
    decreases |thread| - p.at(c.direction, c.cursor), Left(RowsAt(list, thread, p, c, limit), c.skip)
  {
    var next := ShownAt(list, thread, p, c, limit).1;
    if next.Some? {
      EndFits(list, codec, thread, p, next.value, limit);
    }
  }

  /** What the client keeps of a poll. */
  function Kept(leaf: string, result: Result<Recovery, RecoveryError>): string {
    if result.Ok? && result.value.leafId.Some? then result.value.leafId.value else leaf
  }

  /** If anything is new, the anchor moves to the newest row. */
  lemma {:induction false} AnchorMoves(n: Native, codec: Codec, c: TurnCursor, limit: nat, read: seq<Row>)
    requires Faithful(codec) && Sound(n) && Settled(n) && c.PageCursor? && c.direction.Asc?
    requires StandsAt(n.list, n.thread, n.p, c, limit, read) && |read| < |AllRows(n)|
    requires WalkFits(n.list, codec, n.thread, n.p, c, limit, true)
    ensures var leaf := LeafAt(n.list, n.thread, n.p, EndOf(n.list, n.thread, n.p, c, limit), limit);
      leaf.Some? && DecodeCursor(codec, PREFIX + codec.text(leaf.value)) == Ok(NewestOf(n))
  {
    EndLeaf(n, c, limit, read);
    NewestIs(n);
    EndFits(n.list, codec, n.thread, n.p, c, limit);
    LeafDecodes(codec, LeafAt(n.list, n.thread, n.p, EndOf(n.list, n.thread, n.p, c, limit), limit), NewestOf(n));
  }

  lemma {:induction false} NewestIs(n: Native)
    requires Sound(n) && Settled(n) && AllRows(n) != []
    ensures LatestAnchor(n.list(1, Desc, ""), AllRows(n)[|AllRows(n)| - 1]) == Some(NewestOf(n))
  {
    LatestIsNewest(n, AllRows(n)[|AllRows(n)| - 1]);
  }

  lemma {:induction false} LeafDecodes(codec: Codec, leaf: Option<TurnCursor>, anchor: TurnCursor)
    requires Faithful(codec) && leaf == Some(anchor) && !IsTooLong(codec, leaf) && IsValid(anchor)
    ensures DecodeCursor(codec, PREFIX + codec.text(leaf.value)) == Ok(anchor)
  {
    CursorRoundTrip(codec, anchor);
  }

  /** The client holds the text of an anchor for the newest row of an earlier moment. */
  ghost predicate Resumes(before: Native, after: Native, codec: Codec, leaf: string, anchor: TurnCursor) {
    CanPoll(before, after, anchor) && DecodeCursor(codec, leaf) == Ok(anchor)
  }

  lemma {:induction false} ResumesPolls(before: Native, after: Native, codec: Codec, leaf: string, anchor: TurnCursor,
                                        limit: nat)
    requires Resumes(before, after, codec, leaf, anchor) && 1 <= limit <= 500
    ensures Polls(after.list, codec, after.thread, after.p, leaf, anchor, |AllRows(before)|)
    ensures OnPage(after.list, after.thread, after.p, anchor, |AllRows(before)|, limit)
    ensures var c, m := FirstAfter(after.thread, after.p, anchor, |AllRows(before)|), |AllRows(before)|;
      m <= |AllRows(after)| && StandsAt(after.list, after.thread, after.p, c, limit, AllRows(after)[..m])
  {
    AnchorHolds(before, after, anchor, limit);
    StandsBehind(after.list, after.thread, after.p, anchor, |AllRows(before)|, limit);
  }

  /** What is known of a poll that finds its row. */
  lemma {:induction false} Recovered(list: TurnsList, codec: Codec, thread: seq<Turn>, p: Positions, since: string,
                                     anchor: TurnCursor, m: nat, limit: nat, result: Result<Recovery, RecoveryError>)
    requires Polls(list, codec, thread, p, since, anchor, m) && 1 <= limit <= 500
    requires OnPage(list, thread, p, anchor, m, limit)
    requires Recovers(list, codec, thread, p, since, anchor, m, limit, result)
    ensures var c := FirstAfter(thread, p, anchor, m);
      && (result.Ok? <==>
            WalkFits(list, codec, thread, p, c, limit, true) && PagesFrom(list, thread, p, c, limit) <= 1000)
      && (result.Ok? ==> result.value.entries == AllEntries(ItemsOf(Rows(Asc, thread)[m..])))
      && (result.Ok? ==>
            result.value.leafId
            == LeafText(codec, LeafAt(list, thread, p, EndOf(list, thread, p, c, limit), limit),
                        if PagesFrom(list, thread, p, c, limit) == 1 then Some(since) else None))
  {
  }

  /** The client keeps the text of an anchor for the newest row. */
  lemma {:induction false} LeafKept(n: Native, codec: Codec, c: TurnCursor, limit: nat, m: nat, leaf: string,
                                    leafId: Option<string>)
    requires Faithful(codec) && Sound(n) && Settled(n) && c.PageCursor? && c.direction.Asc? && m <= |AllRows(n)|
    requires StandsAt(n.list, n.thread, n.p, c, limit, AllRows(n)[..m])
    requires WalkFits(n.list, codec, n.thread, n.p, c, limit, true)
    requires leafId == LeafText(codec, LeafAt(n.list, n.thread, n.p, EndOf(n.list, n.thread, n.p, c, limit), limit),
                                if PagesFrom(n.list, n.thread, n.p, c, limit) == 1 then Some(leaf) else None)
    ensures m < |AllRows(n)| ==> leafId.Some? && DecodeCursor(codec, leafId.value) == Ok(NewestOf(n))
    ensures m == |AllRows(n)| ==> leafId == Some(leaf)
  {
    if m < |AllRows(n)| {
      AnchorMoves(n, codec, c, limit, AllRows(n)[..m]);
    } else {
      NothingNew(n, c, limit, AllRows(n)[..m]);
    }
  }

  /**
   * While the newest turn has no items, no poll moves the anchor: what it shows is shown
   * again by the next one.
   */
  lemma {:induction false} EmptyTurnKeepsAnchor(n: Native, codec: Codec, since: string, anchor: TurnCursor, m: nat,
                                                limit: nat, result: Result<Recovery, RecoveryError>)
    requires Sound(n) && n.thread != [] && n.thread[|n.thread| - 1].items == [] && 1 <= limit <= 500
    requires Polls(n.list, codec, n.thread, n.p, since, anchor, m)
    requires Recovers(n.list, codec, n.thread, n.p, since, anchor, m, limit, result)
    ensures Kept(since, result) == since
  {
    if OnPage(n.list, n.thread, n.p, anchor, m, limit) {
      var c := FirstAfter(n.thread, n.p, anchor, m);
      Recovered(n.list, codec, n.thread, n.p, since, anchor, m, limit, result);
      EndAscends(n.list, n.thread, n.p, c, limit);
      NoLeafAt(n, EndOf(n.list, n.thread, n.p, c, limit), limit);
    }
  }

  lemma {:induction false} ThroughExact(before: Native, after: Native, codec: Codec, leaf: string, anchor: TurnCursor,
                                        limit: nat, result: Result<Recovery, RecoveryError>)
    requires Resumes(before, after, codec, leaf, anchor) && 1 <= limit <= 500
    requires Polls(after.list, codec, after.thread, after.p, leaf, anchor, |AllRows(before)|)
    requires Recovers(after.list, codec, after.thread, after.p, leaf, anchor, |AllRows(before)|, limit, result)
    ensures result.Ok? <==> GoesThrough(before, after, codec, limit, anchor)
  {
    ResumesPolls(before, after, codec, leaf, anchor, limit);
    Recovered(after.list, codec, after.thread, after.p, leaf, anchor, |AllRows(before)|, limit, result);
  }

  /** A poll of a thread that has grown shows exactly what is new. */
  lemma {:induction false} PollShows(before: Native, after: Native, codec: Codec, leaf: string, anchor: TurnCursor,
                                     limit: nat, result: Result<Recovery, RecoveryError>)
    requires Resumes(before, after, codec, leaf, anchor) && 1 <= limit <= 500
    requires Polls(after.list, codec, after.thread, after.p, leaf, anchor, |AllRows(before)|)
    requires Recovers(after.list, codec, after.thread, after.p, leaf, anchor, |AllRows(before)|, limit, result)
    ensures |AllRows(before)| <= |AllRows(after)|
    ensures result.Ok? ==> result.value.entries == AllEntries(ItemsOf(AllRows(after)[|AllRows(before)|..]))
  {
    ResumesPolls(before, after, codec, leaf, anchor, limit);
    Recovered(after.list, codec, after.thread, after.p, leaf, anchor, |AllRows(before)|, limit, result);
  }

  /** A poll leaves the text of an anchor for the newest row, or of the same anchor if there is nothing new. */
  lemma {:induction false} PollLeaf(before: Native, after: Native, codec: Codec, leaf: string, anchor: TurnCursor,
                                    limit: nat, recovery: Recovery)
    requires Faithful(codec) && Resumes(before, after, codec, leaf, anchor) && 1 <= limit <= 500
    requires Polls(after.list, codec, after.thread, after.p, leaf, anchor, |AllRows(before)|)
    requires Recovers(after.list, codec, after.thread, after.p, leaf, anchor, |AllRows(before)|, limit, Ok(recovery))
    ensures |AllRows(before)| < |AllRows(after)| ==>
      recovery.leafId.Some? && DecodeCursor(codec, recovery.leafId.value) == Ok(NewestOf(after))
    ensures |AllRows(before)| == |AllRows(after)| ==> recovery.leafId == Some(leaf)
  {
    var m := |AllRows(before)|;
    ResumesPolls(before, after, codec, leaf, anchor, limit);
    Recovered(after.list, codec, after.thread, after.p, leaf, anchor, m, limit, Ok(recovery));
    LeafKept(after, codec, FirstAfter(after.thread, after.p, anchor, m), limit, m, leaf, recovery.leafId);
  }

  /** What has been shown: the rows of the thread from the given one on. */
  ghost predicate ShownFrom(n: Native, from: nat, entries: seq<Entry>) {
    from <= |AllRows(n)| && entries == AllEntries(ItemsOf(AllRows(n)[from..]))
  }

  lemma {:induction false} EntriesBetween(whole: seq<Row>, front: seq<Row>, from: nat)
    requires from <= |front| && front <= whole
    ensures AllEntries(ItemsOf(whole[from..]))
      == AllEntries(ItemsOf(front[from..])) + AllEntries(ItemsOf(whole[|front|..]))
  {
    assert whole[from..] == front[from..] + whole[|front|..];
    EntriesMore(front[from..], whole[|front|..]);
  }

  lemma {:induction false} NothingBehind(rows: seq<Row>)
    ensures AllEntries(ItemsOf(rows[|rows|..])) == []
  {
  }

  /** A poll that goes through shows what is missing up to its moment. */
  lemma {:induction false} ShownFurther(before: Native, after: Native, from: nat, entries: seq<Entry>,
                                        more: seq<Entry>)
    requires Grows(before.thread, after.thread) && ShownFrom(before, from, entries)
    requires |AllRows(before)| <= |AllRows(after)|
    requires more == AllEntries(ItemsOf(AllRows(after)[|AllRows(before)|..]))
    ensures ShownFrom(after, from, entries + more)
    ensures |AllRows(before)| == |AllRows(after)| ==> ShownFrom(before, from, entries + more)
  {
    RowsGrow(before.thread, after.thread);
    EntriesBetween(AllRows(after), AllRows(before), from);
    if |AllRows(before)| == |AllRows(after)| {
      NothingBehind(AllRows(after));
    }
  }

  lemma {:induction false} PollDone(before: Native, after: Native, codec: Codec, leaf: string, limit: nat,
                                    anchor: TurnCursor, from: nat, entries: seq<Entry>,
                                    result: Result<Recovery, RecoveryError>)
    requires Faithful(codec) && Resumes(before, after, codec, leaf, anchor) && 1 <= limit <= 500
    requires Polls(after.list, codec, after.thread, after.p, leaf, anchor, |AllRows(before)|)
    requires Recovers(after.list, codec, after.thread, after.p, leaf, anchor, |AllRows(before)|, limit, result)
    requires ShownFrom(before, from, entries)
    ensures DecodeCursor(codec, Kept(leaf, result))
      == Ok(if Moves(before, after, codec, limit, anchor) then NewestOf(after) else anchor)
    ensures ShownFrom(if Moves(before, after, codec, limit, anchor) then after else before, from,
                      if result.Ok? then entries + result.value.entries else entries)
  {
    ThroughExact(before, after, codec, leaf, anchor, limit, result);
    PollShows(before, after, codec, leaf, anchor, limit, result);
    if result.Ok? {
      PollLeaf(before, after, codec, leaf, anchor, limit, result.value);
      ShownFurther(before, after, from, entries, result.value.entries);
    }
  }

  /** The client holds the text of an anchor for the newest row of a moment, and has been shown the rows up to it. */
  ghost predicate UpTo(n: Native, codec: Codec, leaf: string, anchor: TurnCursor, from: nat, entries: seq<Entry>) {
    IsNewest(n, anchor) && DecodeCursor(codec, leaf) == Ok(anchor) && ShownFrom(n, from, entries)
  }

  /** The client has polled so many times, and kept these anchors. */
  ghost predicate Following(natives: seq<Native>, codec: Codec, k: nat, limit: nat, anchor: TurnCursor, leaf: string,
                            fs: seq<Follower>, entries: seq<Entry>)
    requires 1 <= limit <= 500 && k < |natives|
  {
    && |fs| == k + 1 && KeepsAll(natives, codec, limit, anchor, fs) && fs[k].at <= k
    && UpTo(natives[fs[k].at], codec, leaf, fs[k].anchor, |AllRows(natives[0])|, entries)
  }

  lemma {:induction false} FollowingStarts(natives: seq<Native>, codec: Codec, limit: nat, anchor: TurnCursor,
                                           since: string)
    requires natives != [] && 1 <= limit <= 500
    requires IsNewest(natives[0], anchor) && DecodeCursor(codec, since) == Ok(anchor)
    ensures Following(natives, codec, 0, limit, anchor, since, [Follower(0, anchor)], [])
  {
    NothingBehind(AllRows(natives[0]));
  }

  /**
   * A client that polls a growing thread, and keeps its anchor when a poll fails, is shown
   * every appended item exactly once and in order, up to the last poll that went through.
   */
  method FollowThread(natives: seq<Native>, codec: Codec, since: string, limit: Option<real>, ghost anchor: TurnCursor)
    returns (entries: seq<Entry>, leaf: string, ghost fs: seq<Follower>)
    requires Faithful(codec) && Unspaced(codec) && natives != [] && Moments(natives)
    requires IsNewest(natives[0], anchor) && DecodeCursor(codec, since) == Ok(anchor)
    ensures exists k | 0 <= k < |natives| :: ShownFrom(natives[k], |AllRows(natives[0])|, entries)
    ensures Following(natives, codec, |natives| - 1, Limit(limit), anchor, leaf, fs, entries)
  {
    FollowingStarts(natives, codec, Limit(limit), anchor, since);
    entries, leaf, fs := PollAll(natives, codec, since, limit, anchor, [Follower(0, anchor)]);
    FollowingShows(natives, codec, |natives| - 1, Limit(limit), anchor, leaf, fs, entries);
  }

  lemma {:induction false} FollowingShows(natives: seq<Native>, codec: Codec, k: nat, limit: nat, anchor: TurnCursor,
                                          leaf: string, fs: seq<Follower>, entries: seq<Entry>)
    requires 1 <= limit <= 500 && k < |natives|
    requires Following(natives, codec, k, limit, anchor, leaf, fs, entries)
    ensures exists i | 0 <= i < |natives| :: ShownFrom(natives[i], |AllRows(natives[0])|, entries)
  {
    assert ShownFrom(natives[fs[k].at], |AllRows(natives[0])|, entries);
  }

  method PollAll(natives: seq<Native>, codec: Codec, since: string, limit: Option<real>, ghost anchor: TurnCursor,
                 ghost start: seq<Follower>)
    returns (entries: seq<Entry>, leaf: string, ghost fs: seq<Follower>)
    requires Faithful(codec) && Unspaced(codec) && natives != [] && Moments(natives)
    requires Following(natives, codec, 0, Limit(limit), anchor, since, start, [])
    ensures Following(natives, codec, |natives| - 1, Limit(limit), anchor, leaf, fs, entries)
  {
    entries, leaf, fs := [], since, start;
    for k := 1 to |natives|
      invariant Following(natives, codec, k - 1, Limit(limit), anchor, leaf, fs, entries)
    {
      entries, leaf, fs := PollNext(natives, codec, leaf, limit, k, anchor, fs, entries);
    }
  }

  method PollNext(natives: seq<Native>, codec: Codec, leaf: string, limit: Option<real>, k: nat,
                  ghost anchor: TurnCursor, ghost fs: seq<Follower>, entries: seq<Entry>)
    returns (entries': seq<Entry>, leaf': string, ghost fs': seq<Follower>)
    requires Faithful(codec) && Unspaced(codec) && Moments(natives) && 0 < k < |natives|
    requires Following(natives, codec, k - 1, Limit(limit), anchor, leaf, fs, entries)
    ensures Following(natives, codec, k, Limit(limit), anchor, leaf', fs', entries')
  {
    ghost var f := fs[k - 1];
    ghost var g;
    CanPollAt(natives, f.at, k, f.anchor);
    entries', leaf', g :=
      PollOnce(natives[k], codec, leaf, limit, entries, natives[f.at], k, f, |AllRows(natives[0])|);
    FollowingNext(natives, codec, k, Limit(limit), anchor, leaf', fs, g, entries');
    fs' := fs + [g];
  }

  lemma {:induction false} FollowingNext(natives: seq<Native>, codec: Codec, k: nat, limit: nat, anchor: TurnCursor,
                                         leaf: string, fs: seq<Follower>, g: Follower, entries: seq<Entry>)
    requires 1 <= limit <= 500 && 0 < k < |natives| && |fs| == k && KeepsAll(natives, codec, limit, anchor, fs)
    requires fs[k - 1].at < k && g.at <= k
    requires Leaves(natives[fs[k - 1].at], natives[k], codec, limit, k, fs[k - 1], g)
    requires UpTo(natives[g.at], codec, leaf, g.anchor, |AllRows(natives[0])|, entries)
    ensures Following(natives, codec, k, limit, anchor, leaf, fs + [g], entries)
  {
    KeepsNew(natives, codec, limit, anchor, fs, fs[k - 1], g);
    KeepsMore(natives, codec, limit, anchor, fs, fs + [g]);
  }

  lemma {:induction false} CanPollAt(natives: seq<Native>, i: nat, k: nat, anchor: TurnCursor)
    requires Moments(natives) && i < k < |natives| && IsNewest(natives[i], anchor)
    ensures CanPoll(natives[i], natives[k], anchor)
  {
    assert SettledAt(natives, i) && SettledAt(natives, k) && GrownBetween(natives, i, k);
  }

  /** One poll, by a client that keeps its anchor when the poll fails. */
  method PollOnce(after: Native, codec: Codec, leaf: string, limit: Option<real>, entries: seq<Entry>,
                  ghost before: Native, ghost k: nat, ghost f: Follower, ghost from: nat)
    returns (entries': seq<Entry>, leaf': string, ghost g: Follower)
    requires Faithful(codec) && Unspaced(codec) && CanPoll(before, after, f.anchor)
    requires UpTo(before, codec, leaf, f.anchor, from, entries)
    ensures Leaves(before, after, codec, Limit(limit), k, f, g)
    ensures || (g.at == k && UpTo(after, codec, leaf', g.anchor, from, entries'))
            || (g == f && UpTo(before, codec, leaf', g.anchor, from, entries'))
  {
    g := if Moves(before, after, codec, Limit(limit), f.anchor) then Follower(k, NewestOf(after)) else f;
    ResumesPolls(before, after, codec, leaf, f.anchor, Limit(limit));
    var result := LoadBehind(after.list, codec, leaf, limit, after.thread, after.p, f.anchor, |AllRows(before)|);
    PollDone(before, after, codec, leaf, Limit(limit), f.anchor, from, entries, result);
    entries', leaf' := if result.Ok? then entries + result.value.entries else entries, Kept(leaf, result);
  }

  lemma {:induction false} SameRows(before: Native, after: Native)
    requires Grows(before.thread, after.thread) && |AllRows(before)| >= |AllRows(after)|
    ensures AllRows(before) == AllRows(after)
  {
    RowsGrow(before.thread, after.thread);
  }

  lemma {:induction false} CaughtUpOnce(before: Native, after: Native, codec: Codec, limit: nat, k: nat, f: Follower,
                                        g: Follower)
    requires 1 <= limit <= 500 && GoesThrough(before, after, codec, limit, f.anchor)
    requires Leaves(before, after, codec, limit, k, f, g)
    ensures g.at == k || (g == f && AllRows(before) == AllRows(after))
  {
    if |AllRows(before)| >= |AllRows(after)| {
      SameRows(before, after);
    }
  }

  /** After a poll that went through, everything has been shown. */
  lemma {:induction false} CaughtUp(natives: seq<Native>, codec: Codec, limit: nat, anchor: TurnCursor,
                                    fs: seq<Follower>, k: nat)
    requires 1 <= limit <= 500 && k > 0 && Keeps(natives, codec, limit, anchor, fs, k)
    requires GoesThrough(natives[fs[k - 1].at], natives[k], codec, limit, fs[k - 1].anchor)
    ensures AllRows(natives[fs[k].at]) == AllRows(natives[k])
  {
    CaughtUpOnce(natives[fs[k - 1].at], natives[k], codec, limit, k, fs[k - 1], fs[k]);
  }
}
