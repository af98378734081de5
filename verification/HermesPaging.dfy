/**
 * Bidirectional paging through a message log that grows while it is read: the row at
 * the boundary of a page is searched, the page is read beside it, and the row is
 * looked up once more.
 */
module HermesPaging {
  import opened Prelude
  import opened Texts
  import opened HermesHistory

  const SEARCH_CHUNK: nat := 120
  const SEARCH_ATTEMPTS: nat := 20

  datatype PagingError = BadWindow(reason: HistoryError) | BoundaryUnavailable | ChangedWhilePaging

  /** Rows at offsets `offset .. offset + limit` counted from the newest row, oldest first. */
  function LatestSlice<T>(log: seq<T>, offset: nat, limit: nat): seq<T> {
    var hi := Max(0, |log| - offset);
    log[Max(0, hi - limit)..hi]
  }

  function OldestSlice<T>(log: seq<T>, offset: nat, limit: nat): seq<T> {
    log[Min(offset, |log|)..Min(offset + limit, |log|)]
  }

  function Slice<T>(log: seq<T>, order: Order, offset: nat, limit: nat): seq<T> {
    if order == Latest then LatestSlice(log, offset, limit) else OldestSlice(log, offset, limit)
  }

  predicate ProperRows(rows: seq<Row>) {
    && (forall i | 0 <= i < |rows| :: 0 < |rows[i].id| <= MAX_ANCHOR)
    && (forall i, j | 0 <= i < j < |rows| :: rows[i].id != rows[j].id)
    && |rows| <= MAX_SAFE_INTEGER
  }

  /** The id of a native row: a text, or a safe integer. */
  datatype NativeId = TextId(text: string) | NumberId(number: int)

  datatype NativeRow = NativeRow(id: NativeId)

  /** A numeric id is read as its decimal text. */
  function IdText(id: NativeId): (text: string)
    ensures id.NumberId? && id.number >= 0 ==> IsDecimal(text) && DecimalValue(text) == id.number
    ensures id.NumberId? && id.number < 0 ==>
      text != "" && text[0] == '-' && IsDecimal(text[1..]) && DecimalValue(text[1..]) == -id.number
  {
    match id
    case TextId(text) => text
    case NumberId(number) =>
      DecimalRoundTrip(if number < 0 then -number else number);
      if number < 0 then "-" + Decimal(-number) else Decimal(number)
  }

  function Named(rows: seq<NativeRow>): (r: seq<Row>)
    ensures NamedAs(rows, r)
  {
    seq(|rows|, k requires 0 <= k < |rows| => Row(IdText(rows[k].id)))
  }

  predicate NamedAs(native: seq<NativeRow>, rows: seq<Row>) {
    |rows| == |native| && forall k {:trigger native[k]} | 0 <= k < |native| :: rows[k] == Row(IdText(native[k].id))
  }

  lemma {:induction false} NamedSlice(native: seq<NativeRow>, rows: seq<Row>, length: nat, order: Order, offset: nat,
      limit: nat)
    requires NamedAs(native, rows) && length <= |rows|
    ensures Named(Slice(native[..length], order, offset, limit)) == Slice(rows[..length], order, offset, limit)
  {
    var from, to := SliceStart(length, order, offset, limit), SliceEnd(length, order, offset, limit);
    SliceBounds(native, length, order, offset, limit);
    SliceBounds(rows, length, order, offset, limit);
    NamedCut(native, rows, from, to);
  }

  lemma {:induction false} NamedCut(native: seq<NativeRow>, rows: seq<Row>, from: nat, to: nat)
    requires NamedAs(native, rows) && from <= to <= |rows|
    ensures Named(native[from..to]) == rows[from..to]
  {
    var part := Named(native[from..to]);
    forall k | 0 <= k < |part| ensures part[k] == rows[from..to][k] {
      assert native[from..to][k] == native[from + k];
    }
  }

  function SliceStart(length: nat, order: Order, offset: nat, limit: nat): nat {
    if order == Latest then Max(0, Max(0, length - offset) - limit) else Min(offset, length)
  }

  function SliceEnd(length: nat, order: Order, offset: nat, limit: nat): nat {
    if order == Latest then Max(0, length - offset) else Min(offset + limit, length)
  }

  lemma {:induction false} SliceBounds<T>(log: seq<T>, length: nat, order: Order, offset: nat, limit: nat)
    requires length <= |log|
    ensures SliceStart(length, order, offset, limit) <= SliceEnd(length, order, offset, limit) <= length
    ensures Slice(log[..length], order, offset, limit)
      == log[SliceStart(length, order, offset, limit)..SliceEnd(length, order, offset, limit)]
  {
    var from, to := SliceStart(length, order, offset, limit), SliceEnd(length, order, offset, limit);
    assert |log[..length]| == length;
    assert log[..length][from..to] == log[from..to];
  }

  /**
   * The message log of one session. `native` is everything that will ever be
   * appended, `length` how much of it has been appended, and `growth` how many
   * rows arrive before each of the coming reads; `history` are its rows as they are read.
   */
  class HermesServer {
    const native: seq<NativeRow>
    const history: seq<Row>
    var length: nat
    var growth: seq<nat>

    constructor (native: seq<NativeRow>, length: nat, growth: seq<nat>)
      requires length <= |native|
      ensures Valid() && this.native == native && this.length == length && this.growth == growth
    {
      this.native, this.history, this.length, this.growth := native, Named(native), length, growth;
    }

    ghost predicate Valid()
      reads this
    {
      length <= |history| && NamedAs(native, history)
    }

    function Log(): seq<Row>
      reads this
      requires length <= |history|
    {
      history[..length]
    }

    /** Rows that arrive while nobody reads. */
    method Append(count: nat)
      requires Valid()
      modifies this`length
      ensures Valid() && length == Min(|history|, old(length) + count)
    {
      length := Min(|history|, length + count);
    }

    method Read(order: Order, offset: nat, limit: nat) returns (rows: seq<Row>)
      requires Valid()
      modifies this
      ensures Valid() && old(length) <= length
      ensures growth == if old(growth) == [] then [] else old(growth)[1..]
      ensures old(growth) == [] ==> length == old(length)
      ensures rows == Slice(Log(), order, offset, limit)
    {
      if growth != [] {
        length := Min(|history|, length + growth[0]);
        growth := growth[1..];
      }
      rows := Named(Slice(native[..length], order, offset, limit));
      NamedSlice(native, history, length, order, offset, limit);
    }
  }

  /** Position of the first row with this id, or the number of rows. */
  function FindRow(rows: seq<Row>, id: string): (n: nat)
    ensures n <= |rows|
    ensures n < |rows| ==> rows[n].id == id
    ensures n == |rows| ==> forall i | 0 <= i < |rows| :: rows[i].id != id
  {
    if rows == [] then 0 else if rows[0].id == id then 0 else 1 + FindRow(rows[1..], id)
  }

  /** The row `offset` below the newest of the first `length` rows has this id. */
  predicate RowAt(history: seq<Row>, length: nat, offset: nat, id: string) {
    offset < length <= |history| && history[length - 1 - offset].id == id
  }

  /** Row `i` was visible among `before` rows at offset `start` or more, and still is, at `reach` or more. */
  predicate Drifted(history: seq<Row>, before: nat, length: nat, id: string, start: nat, reach: nat) {
    forall i: nat | i < before && i < |history| && history[i].id == id && before - 1 - i >= start ::
      length - 1 - i >= reach
  }

  /** A row missing from a chunk lies above it, below it, or not in the log at all. */
  lemma {:induction false} ChunkMiss(history: seq<Row>, before: nat, length: nat, id: string, start: nat, offset: nat)
    requires before <= length <= |history| && Drifted(history, before, length, id, start, offset)
    requires forall k | 0 <= k < |LatestSlice(history[..length], offset, SEARCH_CHUNK)| ::
      LatestSlice(history[..length], offset, SEARCH_CHUNK)[k].id != id
    ensures Drifted(history, before, length, id, start, offset + SEARCH_CHUNK)
  {
    var hi := Max(0, length - offset);
    var lo := Max(0, hi - SEARCH_CHUNK);
    var chunk := LatestSlice(history[..length], offset, SEARCH_CHUNK);
    forall i | lo <= i < hi ensures history[i].id != id {
      assert chunk[i - lo] == history[i];
    }
  }

  /** A chunk that is not full has reached the oldest row. */
  lemma {:induction false} ShortChunk(history: seq<Row>, before: nat, length: nat, id: string, start: nat, offset: nat,
      reach: nat)
    requires before <= length <= |history|
    requires |LatestSlice(history[..length], offset, SEARCH_CHUNK)| < SEARCH_CHUNK
    requires Drifted(history, before, length, id, start, offset + SEARCH_CHUNK)
    ensures Drifted(history, before, length, id, start, reach)
  {
  }

  const SEARCH_REACH: nat := SEARCH_CHUNK * SEARCH_ATTEMPTS

  /** Reads one chunk of the search; a short chunk without the row ends the search. */
  method SearchChunk(server: HermesServer, target: string, ghost before: nat, ghost start: nat, offset: nat)
    returns (located: Option<nat>, size: nat)
    requires server.Valid() && before <= server.length && start <= offset
    requires Drifted(server.history, before, server.length, target, start, offset)
    modifies server
    ensures server.Valid() && old(server.length) <= server.length
    ensures old(server.growth) == [] ==> server.growth == [] && server.length == old(server.length)
    ensures size <= SEARCH_CHUNK
    ensures located.Some? ==> offset <= located.value < offset + SEARCH_CHUNK
    ensures located.Some? ==> RowAt(server.history, server.length, located.value, target)
    ensures located.None? ==> Drifted(server.history, before, server.length, target, start, offset + SEARCH_CHUNK)
    ensures located.None? && size < SEARCH_CHUNK ==>
      Drifted(server.history, before, server.length, target, start, start + SEARCH_REACH)
  {
    var chunk := server.Read(Latest, offset, SEARCH_CHUNK);
    size := |chunk|;
    var found := FindRow(chunk, target);
    if found < |chunk| {
      return Some(offset + |chunk| - found - 1), size;
    }
    ChunkMiss(server.history, before, server.length, target, start, offset);
    if |chunk| < SEARCH_CHUNK {
      ShortChunk(server.history, before, server.length, target, start, offset, start + SEARCH_REACH);
    }
    return None, size;
  }

  /**
   * Walks towards older rows in chunks until the row is met. A row that was there
   * when the walk began is missed only if it is now beyond the reach of the walk.
   */
  method Locate(server: HermesServer, target: string, start: nat) returns (located: Option<nat>)
    requires server.Valid()
    modifies server
    ensures server.Valid() && old(server.length) <= server.length
    ensures old(server.growth) == [] ==> server.growth == [] && server.length == old(server.length)
    ensures located.Some? ==> start <= located.value < start + 2400
    ensures located.Some? ==> RowAt(server.history, server.length, located.value, target)
    ensures located.None? ==>
      Drifted(server.history, old(server.length), server.length, target, start, start + 2400)
  {
    var searchOffset := start;
    for attempt := 0 to SEARCH_ATTEMPTS
      invariant server.Valid() && old(server.length) <= server.length
      invariant old(server.growth) == [] ==> server.growth == [] && server.length == old(server.length)
      invariant searchOffset == start + 120 * attempt
      invariant Drifted(server.history, old(server.length), server.length, target, start, searchOffset)
    {
      var size;
      located, size := SearchChunk(server, target, old(server.length), start, searchOffset);
      if located.Some? || size < SEARCH_CHUNK {
        return;
      }
      searchOffset := searchOffset + size;
    }
    return None;
  }

  datatype PageRead = PageRead(entries: seq<Row>, page: Page)

  /** The cursor of the next older page: the first row read, at its offset in a log of `m` rows. */
  ghost predicate LinksEarlier(uri: UriCodec, e: nat, m: nat, read: PageRead) {
    read.page.hasEarlier ==>
      read.entries != [] && e <= m && read.page.before == Encoded(uri, Latest, m - e, read.entries[0].id)
  }

  /** The cursor of the next newer page: the last row read, row `n - 1` in a log of `m` rows, and the offset above
   * it. */
  ghost predicate LinksLater(uri: UriCodec, n: nat, m: nat, read: PageRead) {
    read.page.hasLater ==>
      read.entries != [] && n < m && read.page.after
        == Encoded(uri, Latest, m - 1 - n, read.entries[|read.entries| - 1].id)
  }

  /**
   * In a log of `m` rows, the page holds exactly the rows just below position `e`:
   * `limit` of them, or all there are. It announces earlier rows whenever there are any,
   * and later ones exactly when there are any.
   */
  ghost predicate EndsAt(uri: UriCodec, history: seq<Row>, e: nat, m: nat, limit: nat, read: PageRead) {
    && e <= m <= |history|
    && read.entries == history[Max(0, e - limit)..e]
    && (e > limit ==> read.page.hasEarlier)
    && (read.page.hasEarlier ==> e >= limit)
    && LinksEarlier(uri, Max(0, e - limit), m, read)
    && (read.page.hasLater <==> read.entries != [] && e < m)
    && LinksLater(uri, e, m, read)
  }

  /** The page holds exactly the rows just above position `i`, up to the newest of `m` rows. */
  ghost predicate StartsAfter(uri: UriCodec, history: seq<Row>, i: nat, m: nat, limit: nat, read: PageRead) {
    && i < m <= |history|
    && read.entries == history[i + 1..Min(i + 1 + limit, m)]
    && (read.page.hasLater <==> i + 1 + limit < m)
    && LinksLater(uri, Min(i + 1 + limit, m), m, read)
    && read.page.hasEarlier && (read.entries != [] ==> LinksEarlier(uri, i + 1, m, read))
  }

  /** Offset of the row that an anchored page must touch. */
  function BoundaryOffset(query: Query, anchor: Anchor): nat
    requires anchor.direction == Before ==> query.offset > 0
  {
    if anchor.direction == Before then query.offset - 1 else query.offset + query.limit
  }

  lemma {:induction false} BoundaryRow(history: seq<Row>, length: nat, offset: nat, id: string)
    requires length <= |history|
    ensures var rows := LatestSlice(history[..length], offset, 1);
      RowAt(history, length, offset, id) <==> rows != [] && rows[0].id == id
  {
  }

  /** Reads a page and then the row it must touch; nothing is returned if that row has moved. */
  method ReadAdjacent(server: HermesServer, query: Query, anchor: Anchor)
    returns (entries: Option<seq<Row>>)
    requires server.Valid() && query.order == Latest
    requires anchor.direction == Before ==> query.offset > 0
    modifies server
    ensures server.Valid() && old(server.length) <= server.length
    ensures old(server.growth) == [] ==> server.growth == [] && server.length == old(server.length)
    ensures entries.Some? ==> RowAt(server.history, server.length, BoundaryOffset(query, anchor), anchor.id)
    ensures entries.Some? ==> exists m | old(server.length) <= m <= server.length ::
      entries.value == LatestSlice(server.history[..m], query.offset, query.limit)
    ensures entries.None? ==> !RowAt(server.history, server.length, BoundaryOffset(query, anchor), anchor.id)
  {
    var rows := server.Read(Latest, query.offset, query.limit);
    ghost var m := server.length;
    var boundary := server.Read(Latest, BoundaryOffset(query, anchor), 1);
    BoundaryRow(server.history, server.length, BoundaryOffset(query, anchor), anchor.id);
    if boundary == [] || boundary[0].id != anchor.id {
      return None;
    }
    assert rows == LatestSlice(server.history[..m], query.offset, query.limit);
    return Some(rows);
  }

  method Probe(server: HermesServer, query: Query, count: nat) returns (more: bool)
    requires server.Valid()
    modifies server
    ensures server.Valid() && old(server.length) <= server.length
    ensures old(server.growth) == [] ==> server.growth == [] && server.length == old(server.length)
    ensures ProbeSays(server.history[..server.length], query, count, more)
  {
    if count != query.limit {
      return false;
    }
    var rows := server.Read(query.order, query.offset + count, 1);
    return |rows| > 0;
  }

  /** The one-row probe: rows exist beyond a full page. */
  predicate ProbeSays(log: seq<Row>, query: Query, count: nat, more: bool) {
    more <==> count == query.limit && |Slice(log, query.order, query.offset + count, 1)| > 0
  }

  lemma {:induction false} SliceOfLog(history: seq<Row>, m: nat, offset: nat, limit: nat)
    requires m <= |history|
    ensures var hi := Max(0, m - offset);
      LatestSlice(history[..m], offset, limit) == history[Max(0, hi - limit)..hi]
  {
    var hi := Max(0, m - offset);
    SliceOfPrefix(history, m, Max(0, hi - limit), hi);
  }

  lemma {:induction false} SliceOfPrefix<T>(s: seq<T>, m: nat, lo: nat, hi: nat)
    requires lo <= hi <= m <= |s|
    ensures s[..m][lo..hi] == s[lo..hi]
  {
  }

  lemma {:induction false} ProbeOlder(history: seq<Row>, length: nat, query: Query, count: nat, more: bool)
    requires length <= |history| && query.order == Latest && ProbeSays(history[..length], query, count, more)
    ensures more <==> count == query.limit && query.offset + count < length
  {
    SliceOfLog(history, length, query.offset + count, 1);
  }

  /** What a page of the latest order says about its neighbours. */
  ghost predicate Says(uri: UriCodec, offset: nat, entries: seq<Row>, more: bool, page: Page) {
    && (page.hasEarlier <==> entries != [] && more)
    && (page.hasEarlier ==> page.before == Encoded(uri, Latest, offset + |entries|, entries[0].id))
    && (page.hasLater <==> entries != [] && offset > 0)
    && (page.hasLater ==> page.after == Encoded(uri, Latest, offset - 1, entries[|entries| - 1].id))
  }

  lemma {:induction false} HistoryPageSays(uri: UriCodec, query: Query, entries: seq<Row>, more: bool)
    requires query.order == Latest
    ensures Says(uri, query.offset, entries, more, HistoryPage(uri, query, entries, more))
  {
  }

  lemma {:induction false} SliceSize(history: seq<Row>, e: nat, limit: nat)
    requires e <= |history|
    ensures Max(0, e - limit) + |history[Max(0, e - limit)..e]| == e
    ensures |history[Max(0, e - limit)..e]| == limit <==> e >= limit
  {
  }

  lemma {:induction false} OlderPage(uri: UriCodec, history: seq<Row>, m: nat, length: nat, query: Query,
      entries: seq<Row>, more: bool)
    requires query.order == Latest && query.offset <= m <= length <= |history| && query.limit > 0
    requires entries == LatestSlice(history[..m], query.offset, query.limit)
    requires ProbeSays(history[..length], query, |entries|, more)
    ensures EndsAt(uri, history, m - query.offset, m, query.limit,
      PageRead(entries, HistoryPage(uri, query, entries, more)))
  {
    SliceOfLog(history, m, query.offset, query.limit);
    ProbeOlder(history, length, query, |entries|, more);
    HistoryPageSays(uri, query, entries, more);
    OlderSays(uri, history, m - query.offset, m, length, query.limit, entries, more,
      HistoryPage(uri, query, entries, more));
  }

  lemma {:induction false} OlderSays(uri: UriCodec, history: seq<Row>, e: nat, m: nat, length: nat, limit: nat,
      entries: seq<Row>, more: bool, page: Page)
    requires e <= m <= length <= |history| && limit > 0 && entries == history[Max(0, e - limit)..e]
    requires (more <==> |entries| == limit && m - e + |entries| < length) && Says(uri, m - e, entries, more, page)
    ensures EndsAt(uri, history, e, m, limit, PageRead(entries, page))
  {
    SliceSize(history, e, limit);
    assert m - e + |entries| == m - Max(0, e - limit);
  }

  /**
   * When earlier rows are announced although there are none: exactly if the page
   * ends with the oldest row, is full, and a row was appended before the probe.
   */
  lemma {:induction false} AnnouncementExact(uri: UriCodec, history: seq<Row>, m: nat, length: nat, query: Query,
      entries: seq<Row>, more: bool)
    requires query.order == Latest && query.offset <= m <= length <= |history| && query.limit > 0
    requires entries == LatestSlice(history[..m], query.offset, query.limit)
    requires ProbeSays(history[..length], query, |entries|, more)
    ensures var e := m - query.offset;
      HistoryPage(uri, query, entries, more).hasEarlier <==> e > query.limit || (e == query.limit && length > m)
  {
    SliceOfLog(history, m, query.offset, query.limit);
    ProbeOlder(history, length, query, |entries|, more);
  }

  lemma {:induction false} OneRowSlices(history: seq<Row>)
    requires |history| == 2
    ensures LatestSlice(history[..1], 0, 1) == [history[0]]
      && ProbeSays(history[..2], Query(Latest, 0, 1, None), 1, true)
  {
    SliceOfLog(history, 1, 0, 1);
    SliceOfLog(history, 2, 1, 1);
  }

  /** One row, read by a page of one row, and another row that arrives before the probe. */
  lemma {:induction false} SpuriousAnnouncement(uri: UriCodec, history: seq<Row>)
    requires |history| == 2
    ensures var query := Query(Latest, 0, 1, None);
      && LatestSlice(history[..1], 0, 1) == history[..1]
      && ProbeSays(history[..2], query, 1, true)
      && HistoryPage(uri, query, history[..1], true).hasEarlier
  {
    OneRowSlices(history);
    assert history[..1] == [history[0]];
  }

  lemma {:induction false} NewerPage(uri: UriCodec, history: seq<Row>, m: nat, length: nat, located: nat, limit: nat,
      query: Query, entries: seq<Row>, more: bool)
    requires 0 < located < m <= length <= |history| && limit > 0
    requires query.order == Latest && query.limit == Min(limit, located) && query.offset == located - query.limit
    requires entries == LatestSlice(history[..m], query.offset, query.limit)
    requires ProbeSays(history[..length], query, |entries|, more)
    ensures StartsAfter(uri, history, m - 1 - located, m, limit,
      PageRead(entries, HistoryPage(uri, query, entries, more)))
  {
    NewerSlice(history, m, located, query);
    ProbeOlder(history, length, query, |entries|, more);
    HistoryPageSays(uri, query, entries, more);
    NewerRead(uri, history, m, length, located, limit, query, entries, more, HistoryPage(uri, query, entries, more));
  }

  lemma {:induction false} NewerRead(uri: UriCodec, history: seq<Row>, m: nat, length: nat, located: nat, limit: nat,
      query: Query, entries: seq<Row>, more: bool, page: Page)
    requires 0 < located < m <= length <= |history| && limit > 0
    requires query.limit == Min(limit, located) && query.offset == located - query.limit
    requires entries == history[m - located..m - query.offset] && Says(uri, query.offset, entries, more, page)
    requires more <==> |entries| == query.limit && query.offset + |entries| < length
    ensures StartsAfter(uri, history, m - 1 - located, m, limit, PageRead(entries, page))
  {
    var i: nat, n: nat := m - 1 - located, m - query.offset;
    NewerBounds(m, located, limit, query, i, n);
    NewerSays(uri, history, i, n, m, length, limit, entries, more, page);
  }

  lemma {:induction false} NewerBounds(m: nat, located: nat, limit: nat, query: Query, i: nat, n: nat)
    requires 0 < located < m && limit > 0 && query.limit == Min(limit, located) && query.offset == located - query.limit
    requires i == m - 1 - located && n == m - query.offset
    ensures i + 1 < n == Min(i + 1 + limit, m) <= m && n - i - 1 == query.limit && m - n == query.offset
      && m - located == i + 1
  {
  }

  lemma {:induction false} NewerSays(uri: UriCodec, history: seq<Row>, i: nat, n: nat, m: nat, length: nat, limit: nat,
      entries: seq<Row>, more: bool, page: Page)
    requires i + 1 < n == Min(i + 1 + limit, m) <= m <= length <= |history| && entries == history[i + 1..n]
    requires (more <==> m - n + |entries| < length) && Says(uri, m - n, entries, more, page)
    ensures StartsAfter(uri, history, i, m, limit, PageRead(entries, page))
  {
    assert m - n + |entries| == m - i - 1;
  }

  lemma {:induction false} NewerSlice(history: seq<Row>, m: nat, located: nat, query: Query)
    requires query.limit <= located < m <= |history| && query.offset == located - query.limit
    ensures LatestSlice(history[..m], query.offset, query.limit) == history[m - located..m - query.offset]
  {
    SliceOfLog(history, m, query.offset, query.limit);
  }

  /** Offset at which the search for the anchor starts. */
  function SearchStart(anchor: Anchor): nat {
    Max(0, (if anchor.direction == Before then anchor.offset - 1 else anchor.offset + 1) - SEARCH_CHUNK)
  }

  /** The anchor is within the reach of the search, on a log of this length. */
  ghost predicate Reachable(history: seq<Row>, length: nat, anchor: Anchor) {
    exists offset | SearchStart(anchor) <= offset < SearchStart(anchor) + SEARCH_REACH ::
      RowAt(history, length, offset, anchor.id)
  }

  /** The page holds the rows next to row `i`, as they were at some point of the call. */
  ghost predicate Beside(uri: UriCodec, history: seq<Row>, before: nat, length: nat, direction: Direction, limit: nat,
      read: PageRead, i: nat)
  {
    if direction == Before then exists m | before <= m <= length :: EndsAt(uri, history, i, m, limit, read)
    else exists m | before <= m <= length :: StartsAfter(uri, history, i, m, limit, read)
  }

  /** What an accepted page next to an anchor row holds. */
  ghost predicate Adjacent(uri: UriCodec, history: seq<Row>, before: nat, length: nat, anchor: Anchor, limit: nat,
      read: PageRead)
  {
    exists i | 0 <= i < length && i < |history| && history[i].id == anchor.id ::
      Beside(uri, history, before, length, anchor.direction, limit, read, i)
  }

  /** Every row with the anchor's id that was in the reach of the search has been pushed beyond it. */
  predicate Lost(history: seq<Row>, before: nat, length: nat, anchor: Anchor) {
    Drifted(history, before, length, anchor.id, SearchStart(anchor), SearchStart(anchor) + SEARCH_REACH)
  }

  lemma {:induction false} DriftedMeansUnreachable(history: seq<Row>, length: nat, anchor: Anchor)
    requires length <= |history|
    requires Lost(history, length, length, anchor)
    ensures !Reachable(history, length, anchor)
  {
    forall offset: nat | SearchStart(anchor) <= offset < SearchStart(anchor) + SEARCH_REACH
      ensures !RowAt(history, length, offset, anchor.id)
    {
      if offset < length {
        var i := length - 1 - offset;
        assert history[i].id != anchor.id;
      }
    }
  }

  lemma {:induction false} AdjacentBelow(uri: UriCodec, history: seq<Row>, n: nat, length: nat, anchor: Anchor,
      located: nat, query: Query, entries: seq<Row>, more: bool)
    requires anchor.direction == Before && n <= length <= |history| && RowAt(history, n, located, anchor.id)
    requires query.order == Latest && query.limit > 0 && query.offset == located + 1
    requires entries == LatestSlice(history[..n], query.offset, query.limit)
    requires ProbeSays(history[..length], query, |entries|, more)
    ensures Adjacent(uri, history, n, length, anchor, query.limit,
      PageRead(entries, HistoryPage(uri, query, entries, more)))
  {
    OlderPage(uri, history, n, length, query, entries, more);
    assert Beside(uri, history, n, length, Before, query.limit,
      PageRead(entries, HistoryPage(uri, query, entries, more)), n - 1 - located);
  }

  lemma {:induction false} AdjacentAbove(uri: UriCodec, history: seq<Row>, n: nat, length: nat, anchor: Anchor,
      located: nat, limit: nat, query: Query, entries: seq<Row>, more: bool)
    requires anchor.direction == After && n <= length <= |history| && RowAt(history, n, located, anchor.id)
    requires limit > 0 && located > 0
    requires query.order == Latest && query.limit == Min(limit, located) && query.offset == located - query.limit
    requires entries == LatestSlice(history[..n], query.offset, query.limit)
    requires ProbeSays(history[..length], query, |entries|, more)
    ensures Adjacent(uri, history, n, length, anchor, limit,
      PageRead(entries, HistoryPage(uri, query, entries, more)))
  {
    NewerPage(uri, history, n, length, located, limit, query, entries, more);
    assert Beside(uri, history, n, length, After, limit,
      PageRead(entries, HistoryPage(uri, query, entries, more)), n - 1 - located);
  }

  lemma {:induction false} NothingNewer(uri: UriCodec, history: seq<Row>, n: nat, anchor: Anchor, limit: nat)
    requires anchor.direction == After && RowAt(history, n, 0, anchor.id)
    ensures Adjacent(uri, history, n, n, anchor, limit, PageRead([], Page(true, "", "", "", false, "")))
  {
    assert StartsAfter(uri, history, n - 1, n, limit, PageRead([], Page(true, "", "", "", false, "")));
    assert Beside(uri, history, n, n, After, limit, PageRead([], Page(true, "", "", "", false, "")), n - 1);
  }

  /** The query for the rows next to a located row. */
  function Targeted(query: Query, direction: Direction, located: nat): Query
    requires direction == After ==> located > 0
  {
    if direction == Before then query.(offset := located + 1)
    else query.(offset := located - Min(query.limit, located), limit := Min(query.limit, located))
  }

  /** The located row together with its neighbours on one side, if nothing moved meanwhile. */
  method ReadBeside(uri: UriCodec, server: HermesServer, query: Query, anchor: Anchor, located: nat)
    returns (read: Option<PageRead>)
    requires server.Valid() && ProperRows(server.history) && query.order == Latest && query.limit > 0
    requires RowAt(server.history, server.length, located, anchor.id)
    modifies server
    ensures server.Valid() && old(server.length) <= server.length
    ensures read.Some? ==>
      Adjacent(uri, server.history, old(server.length), server.length, anchor, query.limit, read.value)
    ensures read.Some? ==> Marked(read.value)
    ensures read.None? ==> server.length != old(server.length)
    ensures old(server.growth) == [] ==> server.growth == [] && server.length == old(server.length)
  {
    if anchor.direction == After && located == 0 {
      NothingNewer(uri, server.history, server.length, anchor, query.limit);
      return Some(PageRead([], Page(true, "", "", "", false, "")));
    }
    var target := Targeted(query, anchor.direction, located);
    var entries, more := ReadAccepted(server, target, anchor, located);
    if entries.None? {
      return None;
    }
    if anchor.direction == Before {
      AdjacentBelow(uri, server.history, old(server.length), server.length, anchor, located, target, entries.value,
        more);
    } else {
      AdjacentAbove(uri, server.history, old(server.length), server.length, anchor, located, query.limit, target,
        entries.value, more);
    }
    HistoryPageMarks(uri, target, entries.value, more);
    return Some(PageRead(entries.value, HistoryPage(uri, target, entries.value, more)));
  }

  /** An accepted page shows the log as it was when the row was located. */
  method ReadAccepted(server: HermesServer, target: Query, anchor: Anchor, located: nat)
    returns (entries: Option<seq<Row>>, more: bool)
    requires server.Valid() && ProperRows(server.history) && target.order == Latest
    requires RowAt(server.history, server.length, located, anchor.id)
    requires anchor.direction == Before ==> target.offset > 0
    requires located == BoundaryOffset(target, anchor)
    modifies server
    ensures server.Valid() && old(server.length) <= server.length
    ensures entries.Some? ==>
      entries.value == LatestSlice(server.history[..old(server.length)], target.offset, target.limit)
    ensures entries.Some? ==> ProbeSays(server.history[..server.length], target, |entries.value|, more)
    ensures entries.None? ==> server.length != old(server.length)
    ensures old(server.growth) == [] ==> server.growth == [] && server.length == old(server.length)
  {
    entries := ReadAdjacent(server, target, anchor);
    if entries.None? {
      return entries, false;
    }
    more := Probe(server, target, |entries.value|);
  }

  /**
   * An anchored page. It fails only if the anchor has been pushed out of reach, or if
   * rows were appended during the call; without appends it succeeds exactly if the
   * anchor is in reach.
   */
  method ReadAnchored(uri: UriCodec, server: HermesServer, query: Query, anchor: Anchor)
    returns (result: Result<PageRead, PagingError>)
    requires server.Valid() && ProperRows(server.history) && query.order == Latest && query.limit > 0
    modifies server
    ensures server.Valid() && old(server.length) <= server.length
    ensures result.Ok? ==>
      Adjacent(uri, server.history, old(server.length), server.length, anchor, query.limit, result.value)
    ensures result.Ok? ==> Marked(result.value)
    ensures result == Err(ChangedWhilePaging) ==> server.length > old(server.length)
    ensures result.Err? && result.error != ChangedWhilePaging ==> result.error == BoundaryUnavailable
    ensures result == Err(BoundaryUnavailable) ==> Lost(server.history, old(server.length), server.length, anchor)
    ensures old(server.growth) == [] ==> server.growth == [] && server.length == old(server.length)
    ensures old(server.growth) == [] ==> (result.Ok? <==> Reachable(server.history, server.length, anchor))
  {
    var located := Locate(server, anchor.id, SearchStart(anchor));
    if located.None? {
      if old(server.growth) == [] {
        DriftedMeansUnreachable(server.history, server.length, anchor);
      }
      return Err(BoundaryUnavailable);
    }
    ghost var length := server.length;
    var read := ReadBeside(uri, server, query, anchor, located.value);
    if read.None? {
      return Err(ChangedWhilePaging);
    }
    return Ok(read.value);
  }

  /** The newest page, or a page at a bare offset: whatever the log held at some point of the call. */
  method ReadPlain(uri: UriCodec, server: HermesServer, query: Query) returns (read: PageRead)
    requires server.Valid() && query.limit > 0
    modifies server
    ensures server.Valid() && old(server.length) <= server.length
    ensures old(server.growth) == [] ==> server.growth == [] && server.length == old(server.length)
    ensures Marked(read) && ShowsOnce(uri, server.history, old(server.length), server.length, query, read)
  {
    var entries := server.Read(query.order, query.offset, query.limit);
    ghost var m := server.length;
    var more := Probe(server, query, |entries|);
    read := PageRead(entries, HistoryPage(uri, query, entries, more));
    if query.order == Oldest {
      OldestPage(uri, server.history, m, server.length, query, entries, more);
    } else if query.offset <= m {
      OlderPage(uri, server.history, m, server.length, query, entries, more);
    }
    HistoryPageMarks(uri, query, entries, more);
    assert Shows(uri, server.history, query, read, m, server.length);
  }

  /** The page read shows the log as it was when it held `m` rows, and `p` when it was probed. */
  ghost predicate Shows(uri: UriCodec, history: seq<Row>, query: Query, read: PageRead, m: nat, p: nat) {
    && m <= p <= |history|
    && if query.order == Oldest then StartsAt(history, query.offset, query.limit, m, p, read)
       else if query.offset <= m then EndsAt(uri, history, m - query.offset, m, query.limit, read)
       else read.entries == [] && !read.page.hasEarlier && !read.page.hasLater
  }

  /** At some point of the call the log was as the page shows it, and later it was probed. */
  ghost predicate ShowsOnce(uri: UriCodec, history: seq<Row>, before: nat, length: nat, query: Query, read: PageRead) {
    exists m, p | before <= m <= p <= length :: Shows(uri, history, query, read, m, p)
  }

  lemma {:induction false} ShownAt(uri: UriCodec, history: seq<Row>, before: nat, length: nat, query: Query,
      read: PageRead) returns (m: nat, p: nat)
    requires ShowsOnce(uri, history, before, length, query, read)
    ensures before <= m <= p <= length && Shows(uri, history, query, read, m, p)
  {
    m, p :| before <= m <= p <= length && Shows(uri, history, query, read, m, p);
  }

  /** The text of a cursor that counts from the oldest row. */
  function FromOldest(offset: nat): string {
    "hermes-history:oldest:" + Decimal(offset)
  }

  /**
   * In a log of `m` rows, the page holds exactly the rows from position `offset` on,
   * `limit` of them or all there are. It announces earlier rows whenever it shows any from
   * a later position than the first, and later ones exactly when it is full and there was
   * a row behind it when the log had `p` rows; the links count from the oldest row.
   */
  ghost predicate StartsAt(history: seq<Row>, offset: nat, limit: nat, m: nat, p: nat, read: PageRead) {
    && m <= p <= |history|
    && read.entries == history[Min(offset, m)..Min(offset + limit, m)]
    && (read.page.hasEarlier <==> offset > 0 && read.entries != [])
    && (read.page.hasEarlier ==> read.page.before == FromOldest(offset - 1))
    && (read.page.hasLater <==> |read.entries| == limit && offset + limit < p)
    && (read.page.hasLater ==> read.page.after == FromOldest(offset + limit))
  }

  /** A page names its first and last row, and has no cursor where it announces nothing. */
  predicate Marked(read: PageRead) {
    && (if read.entries == [] then read.page.first == "" && read.page.last == ""
        else read.page.first == read.entries[0].id && read.page.last == read.entries[|read.entries| - 1].id)
    && (!read.page.hasEarlier ==> read.page.before == "") && (!read.page.hasLater ==> read.page.after == "")
  }

  lemma {:induction false} HistoryPageMarks(uri: UriCodec, query: Query, entries: seq<Row>, more: bool)
    ensures Marked(PageRead(entries, HistoryPage(uri, query, entries, more)))
  {
  }

  lemma {:induction false} OldestText(uri: UriCodec, offset: nat)
    ensures Encoded(uri, Oldest, offset, "") == FromOldest(offset)
  {
    assert PREFIX + OrderText(Oldest) == "hermes-history:oldest:";
    assert FromOldest(offset) + "" == FromOldest(offset);
  }

  lemma {:induction false} OldestPage(uri: UriCodec, history: seq<Row>, m: nat, p: nat, query: Query,
      entries: seq<Row>, more: bool)
    requires query.order == Oldest && query.limit > 0 && m <= p <= |history|
    requires entries == OldestSlice(history[..m], query.offset, query.limit)
    requires ProbeSays(history[..p], query, |entries|, more)
    ensures StartsAt(history, query.offset, query.limit, m, p,
      PageRead(entries, HistoryPage(uri, query, entries, more)))
  {
    SliceOfPrefix(history, m, Min(query.offset, m), Min(query.offset + query.limit, m));
    ProbeNewer(history, p, query, |entries|, more);
    OldestLinks(uri, query, entries, more);
  }

  lemma {:induction false} ProbeNewer(history: seq<Row>, p: nat, query: Query, count: nat, more: bool)
    requires p <= |history| && query.order == Oldest && ProbeSays(history[..p], query, count, more)
    ensures more <==> count == query.limit && query.offset + count < p
  {
    SliceOfPrefix(history, p, Min(query.offset + count, p), Min(query.offset + count + 1, p));
  }

  lemma {:induction false} OldestLinks(uri: UriCodec, query: Query, entries: seq<Row>, more: bool)
    requires query.order == Oldest
    ensures var page := HistoryPage(uri, query, entries, more);
      && (page.hasEarlier <==> query.offset > 0 && entries != [])
      && (page.hasEarlier ==> page.before == FromOldest(query.offset - 1))
      && (page.hasLater <==> entries != [] && more)
      && (page.hasLater ==> page.after == FromOldest(query.offset + |entries|))
  {
    OldestText(uri, query.offset + |entries|);
    if query.offset > 0 {
      OldestText(uri, query.offset - 1);
    }
  }

  /** One page of the session history, in either direction. */
  method SessionMessagesPage(uri: UriCodec, server: HermesServer, window: SnapshotWindow)
    returns (result: Result<PageRead, PagingError>)
    requires server.Valid() && ProperRows(server.history)
    modifies server
    ensures server.Valid() && old(server.length) <= server.length
    ensures HistoryQuery(uri, window).Err? ==> result == Err(BadWindow(HistoryQuery(uri, window).error))
    ensures HistoryQuery(uri, window).Ok? ==> Answers(uri, server.history, old(server.length), server.length,
      old(server.growth) == [], HistoryQuery(uri, window).value, result)
    ensures old(server.growth) == [] ==> server.growth == []
  {
    var parsed := HistoryQuery(uri, window);
    if parsed.Err? {
      return Err(BadWindow(parsed.error));
    }
    var query := parsed.value;
    if query.anchor.Some? {
      result := ReadAnchored(uri, server, query, query.anchor.value);
    } else {
      var read := ReadPlain(uri, server, query);
      result := Ok(read);
    }
  }

  /** What a call answers, for a well-formed window. `quiet` says that nothing is appended during the call. */
  ghost predicate Answers(uri: UriCodec, history: seq<Row>, before: nat, length: nat, quiet: bool, query: Query,
      result: Result<PageRead, PagingError>)
  {
    match query.anchor
    case None =>
      && result.Ok? && Marked(result.value) && (quiet ==> length == before)
      && ShowsOnce(uri, history, before, length, query, result.value)
    case Some(anchor) =>
      && (result.Ok? ==> Adjacent(uri, history, before, length, anchor, query.limit, result.value))
      && (result.Ok? ==> Marked(result.value))
      && (result == Err(ChangedWhilePaging) ==> length > before)
      && (result.Err? && result.error != ChangedWhilePaging ==> result.error == BoundaryUnavailable)
      && (result == Err(BoundaryUnavailable) ==> Lost(history, before, length, anchor))
      && (quiet ==> length == before && (result.Ok? <==> Reachable(history, length, anchor)))
  }

  // ---------------------------------------------------------------------
  // Walking the whole history.

  function Newest(limit: Option<real>): SnapshotWindow {
    SnapshotWindow(limit, "", "", "", false)
  }

  function Earlier(cursor: string, limit: Option<real>): SnapshotWindow {
    SnapshotWindow(limit, cursor, "", "", false)
  }

  /** How far the rows read last may be pushed down before the search misses them. */
  const SEARCH_SLACK: nat := SEARCH_REACH - SEARCH_CHUNK

  /** Row `e` as the anchor of an older page, in a cursor made when the log had `r` rows. */
  function AnchorAt(history: seq<Row>, e: nat, r: nat): Anchor
    requires e < r <= |history|
  {
    Anchor(history[e].id, r - e, Before)
  }

  /** The search finds row `e` exactly while it is within 2400 rows of the start of the search. */
  predicate InReach(e: nat, r: nat, length: nat) {
    length - 1 - e < Max(0, r - 1 - e - 120) + 2400
  }

  lemma {:induction false} ReachableExact(history: seq<Row>, e: nat, r: nat, length: nat)
    requires ProperRows(history) && e < r <= length <= |history|
    ensures Reachable(history, length, AnchorAt(history, e, r)) <==> InReach(e, r, length)
  {
    var anchor := AnchorAt(history, e, r);
    assert RowAt(history, length, length - 1 - e, anchor.id);
    if offset :|
      SearchStart(anchor) <= offset < SearchStart(anchor) + SEARCH_REACH && RowAt(history, length, offset, anchor.id)
    {
      assert length - 1 - offset == e;
    }
  }

  lemma {:induction false} LostExact(history: seq<Row>, e: nat, r: nat, before: nat, length: nat)
    requires ProperRows(history) && e < r <= before <= length <= |history|
    requires Lost(history, before, length, AnchorAt(history, e, r))
    ensures !InReach(e, r, length)
  {
    assert history[e].id == AnchorAt(history, e, r).id;
  }

  lemma {:induction false} SlackSuffices(e: nat, r: nat, length: nat)
    requires e < r <= length < r + SEARCH_SLACK
    ensures InReach(e, r, length)
  {
  }

  /** The cursor of the next older page is anchored at the oldest row already read. */
  lemma {:induction false} EarlierQuery(uri: UriCodec, history: seq<Row>, e: nat, r: nat, read: PageRead,
      limit: Option<real>)
    requires Faithful(uri) && ProperRows(history) && e < r <= |history|
    requires read.page.hasEarlier && LinksEarlier(uri, e, r, read) && read.entries[0] == history[e]
    ensures HistoryQuery(uri, Earlier(read.page.before, limit))
      == Ok(Query(Latest, r - e, Limit(limit), Some(AnchorAt(history, e, r))))
  {
    CursorRoundTrip(uri, Latest, r - e, read.entries[0].id);
    assert read.page.before != "";
  }

  /** The walk has read rows `e` to `m`, and stands at the page with the oldest of them, read from `r` rows. */
  ghost predicate Reached(uri: UriCodec, history: seq<Row>, collected: seq<Row>, e: nat, m: nat, r: nat,
      read: PageRead)
  {
    && e <= m <= r <= |history|
    && collected == history[e..m]
    && LinksEarlier(uri, e, r, read)
    && (if read.page.hasEarlier then e < m && read.entries[0] == history[e] else e == 0)
  }

  lemma {:induction false} ReachedFurther(uri: UriCodec, history: seq<Row>, collected: seq<Row>, e: nat, m: nat, r: nat,
      limit: nat, read: PageRead)
    requires e <= m <= r <= |history| && collected == history[e..m] && limit > 0
    requires EndsAt(uri, history, e, r, limit, read)
    ensures Reached(uri, history, read.entries + collected, Max(0, e - limit), m, r, read)
  {
    var e' := Max(0, e - limit);
    SlicesJoin(history, e', e, m);
  }

  lemma {:induction false} SlicesJoin<T>(s: seq<T>, a: nat, b: nat, c: nat)
    requires a <= b <= c <= |s|
    ensures s[a..b] + s[b..c] == s[a..c]
  {
  }

  method ReadNewest(uri: UriCodec, server: HermesServer, limit: Option<real>) returns (read: PageRead, ghost m: nat)
    requires server.Valid() && ProperRows(server.history)
    modifies server
    ensures server.Valid() && old(server.length) <= m <= server.length
    ensures EndsAt(uri, server.history, m, m, Limit(limit), read)
    ensures old(server.growth) == [] ==> server.growth == [] && server.length == old(server.length)
  {
    var result := SessionMessagesPage(uri, server, Newest(limit));
    NewestQuery(uri, limit);
    m := NewestShown(uri, server.history, old(server.length), server.length, old(server.growth) == [], Limit(limit),
                     result);
    read := result.value;
  }

  lemma {:induction false} NewestQuery(uri: UriCodec, limit: Option<real>)
    ensures HistoryQuery(uri, Newest(limit)) == Ok(Query(Latest, 0, Limit(limit), None))
  {
  }

  lemma {:induction false} NewestShown(uri: UriCodec, history: seq<Row>, before: nat, length: nat, quiet: bool,
      limit: nat, result: Result<PageRead, PagingError>)
    returns (m: nat)
    requires limit > 0
    requires Answers(uri, history, before, length, quiet, Query(Latest, 0, limit, None), result)
    ensures result.Ok? && before <= m <= length && (quiet ==> length == before)
    ensures m <= |history| && EndsAt(uri, history, m, m, limit, result.value)
  {
    var p: nat;
    m, p := ShownAt(uri, history, before, length, Query(Latest, 0, limit, None), result.value);
  }

  /**
   * The page below row `e`, asked for with a cursor made when the log had `r` rows.
   * It is refused only if rows were appended during the call or if row `e` was pushed
   * out of reach; without appends during the call, exactly in the latter case.
   */
  method ReadEarlier(uri: UriCodec, server: HermesServer, limit: Option<real>, read: PageRead, ghost e: nat,
      ghost r: nat)
    returns (next: Option<PageRead>, ghost r': nat)
    requires server.Valid() && ProperRows(server.history) && Faithful(uri)
    requires e < r <= server.length && read.page.hasEarlier
    requires LinksEarlier(uri, e, r, read) && read.entries[0] == server.history[e]
    modifies server
    ensures server.Valid() && old(server.length) <= r' <= server.length
    ensures next.Some? ==> EndsAt(uri, server.history, e, r', Limit(limit), next.value)
    ensures next.None? ==> server.length > old(server.length) || !InReach(e, r, server.length)
    ensures old(server.growth) == [] ==> server.growth == [] && server.length == old(server.length)
    ensures old(server.growth) == [] ==> (next.Some? <==> InReach(e, r, server.length))
  {
    r' := server.length;
    EarlierQuery(uri, server.history, e, r, read, limit);
    var result := SessionMessagesPage(uri, server, Earlier(read.page.before, limit));
    ReachableExact(server.history, e, r, server.length);
    if result.Err? {
      if result.error == BoundaryUnavailable {
        LostExact(server.history, e, r, r', server.length);
      }
      return None, r';
    }
    r' := BelowRow(uri, server.history, r', server.length, e, r, Limit(limit), result.value);
    return Some(result.value), r';
  }

  lemma {:induction false} BelowRow(uri: UriCodec, history: seq<Row>, before: nat, length: nat, e: nat, r: nat,
      limit: nat, read: PageRead) returns (m: nat)
    requires ProperRows(history) && e < r <= before <= length <= |history|
    requires Adjacent(uri, history, before, length, AnchorAt(history, e, r), limit, read)
    ensures before <= m <= length && EndsAt(uri, history, e, m, limit, read)
  {
    var i :| 0 <= i < length && history[i].id == history[e].id
      && Beside(uri, history, before, length, Before, limit, read, i);
    assert i == e;
    m :| before <= m <= length && EndsAt(uri, history, e, m, limit, read);
  }

  /**
   * Following `before` until a page has no earlier rows, while `arrivals` rows are
   * appended between the pages. The walk ends, and if no page is refused, the pages
   * together list every row of the log at the first read, each exactly once and in
   * order, whatever was appended in the meantime. No page is refused if nothing is
   * appended during the calls and fewer than 2280 rows between any two of them.
   */
  method WalkBack(uri: UriCodec, server: HermesServer, limit: Option<real>, arrivals: seq<nat>)
    returns (collected: seq<Row>, complete: bool)
    requires server.Valid() && ProperRows(server.history) && Faithful(uri)
    modifies server
    ensures server.Valid()
    ensures complete ==> exists m | old(server.length) <= m <= server.length :: collected == server.history[..m]
    ensures !complete ==> server.length > old(server.length)
    ensures old(server.growth) == [] && (forall k | 0 <= k < |arrivals| :: arrivals[k] < 2280) ==> complete
  {
    var read;
    ghost var m;
    read, m := ReadNewest(uri, server, limit);
    ghost var e: nat, r: nat := Max(0, m - Limit(limit)), m;
    collected := read.entries;
    ReachedFirst(uri, server.history, m, Limit(limit), read);
    var k := 0;
    while read.page.hasEarlier
      invariant Walking(uri, server, old(server.length), old(server.growth) == [], collected, e, m, r, read)
      decreases e, read.page.hasEarlier
    {
      var next;
      next, e, r := WalkOneBack(uri, server, limit, if k < |arrivals| then arrivals[k] else 0, collected, read,
        old(server.length), old(server.growth) == [], e, m, r);
      k := k + 1;
      if next.None? {
        return collected, false;
      }
      read := next.value;
      collected := read.entries + collected;
    }
    ReachedAll(uri, server.history, collected, e, m, r, read);
    return collected, true;
  }

  lemma {:induction false} ReachedFirst(uri: UriCodec, history: seq<Row>, m: nat, limit: nat, read: PageRead)
    requires EndsAt(uri, history, m, m, limit, read) && limit > 0
    ensures Reached(uri, history, read.entries, Max(0, m - limit), m, m, read)
  {
    ReachedFurther(uri, history, [], m, m, m, limit, read);
    assert read.entries + [] == read.entries;
  }

  lemma {:induction false} ReachedAll(uri: UriCodec, history: seq<Row>, collected: seq<Row>, e: nat, m: nat, r: nat,
      read: PageRead)
    requires Reached(uri, history, collected, e, m, r, read) && !read.page.hasEarlier
    ensures collected == history[..m]
  {
  }

  /** The walk has collected the rows from `e` to `m`, and has last read when there were `r` rows. */
  ghost predicate Walking(uri: UriCodec, server: HermesServer, start: nat, quiet: bool, collected: seq<Row>,
      e: nat, m: nat, r: nat, read: PageRead)
    reads server
  {
    && server.Valid() && start <= m <= r <= server.length
    && Reached(uri, server.history, collected, e, m, r, read)
    && (quiet ==> server.growth == [] && r == server.length)
  }

  method WalkOneBack(uri: UriCodec, server: HermesServer, limit: Option<real>, arrived: nat, ghost collected: seq<Row>,
      read: PageRead, ghost start: nat, ghost quiet: bool, ghost e: nat, ghost m: nat, ghost r: nat)
    returns (next: Option<PageRead>, ghost e': nat, ghost r': nat)
    requires server.Valid() && ProperRows(server.history) && Faithful(uri) && read.page.hasEarlier
    requires Walking(uri, server, start, quiet, collected, e, m, r, read)
    modifies server
    ensures server.Valid() && (next.None? ==> server.length > start)
    ensures next.Some? ==> Walking(uri, server, start, quiet, next.value.entries + collected, e', m, r', next.value)
    ensures next.Some? ==> e' < e || (e' == e && !next.value.page.hasEarlier)
    ensures quiet && arrived < SEARCH_SLACK ==> next.Some?
  {
    next, r' := ReadAfterArrivals(uri, server, limit, arrived, collected, read, e, m, r);
    e' := Max(0, e - Limit(limit));
  }

  /** Rows arrive, and then the walk goes one page further back. */
  method ReadAfterArrivals(uri: UriCodec, server: HermesServer, limit: Option<real>, arrived: nat,
      ghost collected: seq<Row>, read: PageRead, ghost e: nat, ghost m: nat, ghost r: nat)
    returns (next: Option<PageRead>, ghost r': nat)
    requires server.Valid() && ProperRows(server.history) && Faithful(uri)
    requires m <= r <= server.length && read.page.hasEarlier
    requires Reached(uri, server.history, collected, e, m, r, read)
    modifies server
    ensures server.Valid() && r <= r' <= server.length
    ensures next.Some? ==>
      Reached(uri, server.history, next.value.entries + collected, Max(0, e - Limit(limit)), m, r', next.value)
    ensures next.None? ==> server.length > r
    ensures old(server.growth) == [] ==> server.growth == [] && r' == server.length
    ensures old(server.growth) == [] && r == old(server.length) && arrived < SEARCH_SLACK ==> next.Some?
  {
    server.Append(arrived);
    next, r' := ReadFurther(uri, server, limit, collected, read, e, m, r);
  }

  /** One page further back; refused only if rows were appended during the call or 2280 rows before it. */
  method ReadFurther(uri: UriCodec, server: HermesServer, limit: Option<real>, ghost collected: seq<Row>,
      read: PageRead, ghost e: nat, ghost m: nat, ghost r: nat)
    returns (next: Option<PageRead>, ghost r': nat)
    requires server.Valid() && ProperRows(server.history) && Faithful(uri)
    requires m <= r <= server.length && read.page.hasEarlier
    requires Reached(uri, server.history, collected, e, m, r, read)
    modifies server
    ensures server.Valid() && old(server.length) <= r' <= server.length
    ensures next.Some? ==>
      Reached(uri, server.history, next.value.entries + collected, Max(0, e - Limit(limit)), m, r', next.value)
    ensures next.None? ==> server.length > old(server.length) || old(server.length) >= r + SEARCH_SLACK
    ensures old(server.growth) == [] ==> server.growth == [] && r' == server.length == old(server.length)
  {
    next, r' := ReadEarlier(uri, server, limit, read, e, r);
    if next.Some? {
      ReachedFurther(uri, server.history, collected, e, m, r', Limit(limit), next.value);
    } else if old(server.length) < r + SEARCH_SLACK {
      SlackSuffices(e, r, old(server.length));
    }
  }

  // ---------------------------------------------------------------------
  // Walking towards the newest row.

  function Later(cursor: string, limit: Option<real>): SnapshotWindow {
    SnapshotWindow(limit, "", cursor, "", false)
  }

  /** Row `n - 1` as the anchor of a newer page, in a cursor made when the log had `m` rows. */
  function AnchorBelow(history: seq<Row>, n: nat, m: nat): Anchor
    requires 0 < n < m <= |history|
  {
    Anchor(history[n - 1].id, m - 1 - n, After)
  }

  lemma {:induction false} ReachableBelow(history: seq<Row>, n: nat, m: nat, length: nat)
    requires ProperRows(history) && 0 < n < m <= length <= |history|
    ensures Reachable(history, length, AnchorBelow(history, n, m)) <==> InReach(n - 1, m, length)
  {
    var anchor := AnchorBelow(history, n, m);
    assert RowAt(history, length, length - n, anchor.id);
    if offset :|
      SearchStart(anchor) <= offset < SearchStart(anchor) + SEARCH_REACH && RowAt(history, length, offset, anchor.id)
    {
      assert length - 1 - offset == n - 1;
    }
  }

  lemma {:induction false} LostBelow(history: seq<Row>, n: nat, m: nat, before: nat, length: nat)
    requires ProperRows(history) && 0 < n < m <= before <= length <= |history|
    requires Lost(history, before, length, AnchorBelow(history, n, m))
    ensures !InReach(n - 1, m, length)
  {
    assert history[n - 1].id == AnchorBelow(history, n, m).id;
  }

  /** How many rows a newer page asks for: not more than there were when its cursor was made. */
  function LaterLimit(limit: Option<real>, n: nat, m: nat): nat
    requires n < m
  {
    Min(Limit(limit), m - n)
  }

  lemma {:induction false} LaterQuery(uri: UriCodec, history: seq<Row>, n: nat, m: nat, read: PageRead,
      limit: Option<real>)
    requires Faithful(uri) && ProperRows(history) && 0 < n < m <= |history|
    requires read.page.hasLater && LinksLater(uri, n, m, read) && read.entries[|read.entries| - 1] == history[n - 1]
    ensures HistoryQuery(uri, Later(read.page.after, limit))
      == Ok(Query(Latest, Max(0, m - n - Limit(limit)), LaterLimit(limit, n, m), Some(AnchorBelow(history, n, m))))
  {
    CursorRoundTrip(uri, Latest, m - 1 - n, history[n - 1].id);
    assert read.page.after != "";
    AfterQuery(uri, read.page.after, Cursor(Latest, m - 1 - n, history[n - 1].id), limit);
    BelowQuery(history[n - 1].id, n, m, limit);
  }

  lemma {:induction false} BelowQuery(id: string, n: nat, m: nat, limit: Option<real>)
    requires n < m && id != ""
    ensures QueryAfter(Cursor(Latest, m - 1 - n, id), Limit(limit))
      == Query(Latest, Max(0, m - n - Limit(limit)), LaterLimit(limit, n, m), Some(Anchor(id, m - 1 - n, After)))
  {
  }

  lemma {:induction false} AfterQuery(uri: UriCodec, text: string, cursor: Cursor, limit: Option<real>)
    requires text != "" && Decoded(uri, text) == Ok(cursor)
    ensures HistoryQuery(uri, Later(text, limit)) == Ok(QueryAfter(cursor, Limit(limit)))
  {
  }

  /** The rows from `from` to `n` have been collected, and the page with the last of them was read from `m` rows. */
  ghost predicate Ahead(uri: UriCodec, history: seq<Row>, collected: seq<Row>, from: nat, n: nat, m: nat,
      read: PageRead)
  {
    && from <= n <= m <= |history| && collected == history[from..n]
    && LinksLater(uri, n, m, read)
    && (if read.page.hasLater then 0 < n < m && read.entries[|read.entries| - 1] == history[n - 1] else n == m)
  }

  lemma {:induction false} AheadFurther(uri: UriCodec, history: seq<Row>, collected: seq<Row>, from: nat, n: nat,
      m: nat, limit: nat, read: PageRead) returns (n': nat)
    requires from <= n < m <= |history| && 0 < n && collected == history[from..n] && limit > 0
    requires StartsAfter(uri, history, n - 1, m, limit, read)
    ensures n < n' && Ahead(uri, history, collected + read.entries, from, n', m, read)
  {
    n' := Min(n + limit, m);
    assert read.entries == history[n..n'];
    SlicesJoin(history, from, n, n');
  }

  lemma {:induction false} AboveRow(uri: UriCodec, history: seq<Row>, before: nat, length: nat, n: nat, m: nat,
      limit: nat, read: PageRead) returns (m': nat)
    requires ProperRows(history) && 0 < n < m <= before <= length <= |history|
    requires Adjacent(uri, history, before, length, AnchorBelow(history, n, m), limit, read)
    ensures before <= m' <= length && StartsAfter(uri, history, n - 1, m', limit, read)
  {
    var i :| 0 <= i < length && history[i].id == history[n - 1].id
      && Beside(uri, history, before, length, After, limit, read, i);
    assert i == n - 1;
    m' :| before <= m' <= length && StartsAfter(uri, history, n - 1, m', limit, read);
  }

  /** The page above row `n - 1`; refused under the same conditions as the page below a row. */
  method ReadLater(uri: UriCodec, server: HermesServer, limit: Option<real>, read: PageRead, ghost n: nat, ghost m: nat)
    returns (next: Option<PageRead>, ghost m': nat)
    requires server.Valid() && ProperRows(server.history) && Faithful(uri)
    requires 0 < n < m <= server.length && read.page.hasLater
    requires LinksLater(uri, n, m, read) && read.entries[|read.entries| - 1] == server.history[n - 1]
    modifies server
    ensures server.Valid() && old(server.length) <= m' <= server.length
    ensures next.Some? ==> StartsAfter(uri, server.history, n - 1, m', LaterLimit(limit, n, m), next.value)
    ensures next.None? ==> server.length > old(server.length) || !InReach(n - 1, m, server.length)
    ensures old(server.growth) == [] ==> server.growth == [] && server.length == old(server.length)
    ensures old(server.growth) == [] ==> (next.Some? <==> InReach(n - 1, m, server.length))
  {
    m' := server.length;
    LaterQuery(uri, server.history, n, m, read, limit);
    var result := SessionMessagesPage(uri, server, Later(read.page.after, limit));
    ReachableBelow(server.history, n, m, server.length);
    if result.Err? {
      if result.error == BoundaryUnavailable {
        LostBelow(server.history, n, m, m', server.length);
      }
      return None, m';
    }
    m' := AboveRow(uri, server.history, m', server.length, n, m, LaterLimit(limit, n, m), result.value);
    return Some(result.value), m';
  }

  ghost predicate WalkingAhead(uri: UriCodec, server: HermesServer, start: nat, quiet: bool, collected: seq<Row>,
      from: nat, n: nat, m: nat, read: PageRead)
    reads server
  {
    && server.Valid() && start <= m <= server.length
    && Ahead(uri, server.history, collected, from, n, m, read)
    && (quiet ==> server.growth == [] && m == server.length)
  }

  /** Rows arrive, and then the walk goes one page further towards the newest row. */
  method ReadLaterAfterArrivals(uri: UriCodec, server: HermesServer, limit: Option<real>, arrived: nat,
      ghost collected: seq<Row>, read: PageRead, ghost from: nat, ghost n: nat, ghost m: nat)
    returns (next: Option<PageRead>, ghost n': nat, ghost m': nat)
    requires server.Valid() && ProperRows(server.history) && Faithful(uri)
    requires m <= server.length && read.page.hasLater && Ahead(uri, server.history, collected, from, n, m, read)
    modifies server
    ensures server.Valid() && m <= m' <= server.length
    ensures next.Some? ==> n < n' && Ahead(uri, server.history, collected + next.value.entries, from, n', m',
      next.value)
    ensures next.None? ==> server.length > m
    ensures old(server.growth) == [] ==> server.growth == [] && m' == server.length
    ensures old(server.growth) == [] && m == old(server.length) && arrived < SEARCH_SLACK ==> next.Some?
  {
    server.Append(arrived);
    ghost var length := server.length;
    next, m' := ReadLater(uri, server, limit, read, n, m);
    n' := n;
    if next.Some? {
      n' := AheadFurther(uri, server.history, collected, from, n, m', LaterLimit(limit, n, m), next.value);
    } else if length < m + SEARCH_SLACK {
      SlackSuffices(n - 1, m, length);
    }
  }

  /**
   * Following `after` from a page that ends with row `n - 1`, until a page has no later
   * rows, while `arrivals` rows are appended between the pages. The walk ends, and if no
   * page is refused, the pages together list every row behind that one up to the newest
   * row of the last read, each exactly once and in order. No page is refused under the
   * same conditions as on the way back.
   */
  method WalkAhead(uri: UriCodec, server: HermesServer, limit: Option<real>, page: PageRead, arrivals: seq<nat>,
      ghost n: nat, ghost m: nat)
    returns (collected: seq<Row>, complete: bool)
    requires server.Valid() && ProperRows(server.history) && Faithful(uri)
    requires m <= server.length && Ahead(uri, server.history, [], n, n, m, page)
    modifies server
    ensures server.Valid()
    ensures complete ==> exists k | m <= k <= server.length :: n <= k && collected == server.history[n..k]
    ensures !complete ==> server.length > m
    ensures old(server.growth) == [] && m == old(server.length)
      && (forall k | 0 <= k < |arrivals| :: arrivals[k] < 2280)
      ==> complete
  {
    var read, k := page, 0;
    ghost var n', m' := n, m;
    collected := [];
    while read.page.hasLater
      invariant WalkingAhead(uri, server, m, old(server.growth) == [] && m == old(server.length), collected, n, n', m',
        read)
      decreases |server.history| - n', read.page.hasLater
    {
      var arrived := if k < |arrivals| then arrivals[k] else 0;
      k := k + 1;
      var next;
      next, n', m' := ReadLaterAfterArrivals(uri, server, limit, arrived, collected, read, n, n', m');
      if next.None? {
        return collected, false;
      }
      read := next.value;
      collected := collected + read.entries;
    }
    return collected, true;
  }
}
