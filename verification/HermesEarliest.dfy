/** Walks through a message log by offsets from its oldest row, while it grows. */
module HermesEarliest {
  import opened Prelude
  import opened HermesHistory
  import opened HermesPaging

  function Earliest(limit: Option<real>): SnapshotWindow {
    SnapshotWindow(limit, "", "", "", true)
  }

  lemma {:induction false} EarliestQuery(uri: UriCodec, limit: Option<real>)
    ensures HistoryQuery(uri, Earliest(limit)) == Ok(Query(Oldest, 0, Limit(limit), None))
  {
  }

  lemma {:induction false} OldestDecoded(uri: UriCodec, offset: nat)
    requires Faithful(uri) && offset <= MAX_SAFE_INTEGER
    ensures FromOldest(offset) != "" && Decoded(uri, FromOldest(offset)) == Ok(Cursor(Oldest, offset, ""))
  {
    OldestText(uri, offset);
    CursorRoundTrip(uri, Oldest, offset, "");
  }

  /** The `after` link of a page asks for the rows from its end on. */
  lemma {:induction false} OnwardQuery(uri: UriCodec, offset: nat, limit: Option<real>)
    requires Faithful(uri) && offset <= MAX_SAFE_INTEGER
    ensures HistoryQuery(uri, Later(FromOldest(offset), limit)) == Ok(Query(Oldest, offset, Limit(limit), None))
  {
    OldestDecoded(uri, offset);
    AfterQuery(uri, FromOldest(offset), Cursor(Oldest, offset, ""), limit);
  }

  /** The `before` link of a page asks for the rows up to its start, but not for more than there are. */
  lemma {:induction false} BackwardQuery(uri: UriCodec, offset: nat, limit: Option<real>)
    requires Faithful(uri) && 0 < offset <= MAX_SAFE_INTEGER
    ensures HistoryQuery(uri, Earlier(FromOldest(offset - 1), limit))
      == Ok(Query(Oldest, Max(0, offset - Limit(limit)), Min(Limit(limit), offset), None))
  {
    OldestDecoded(uri, offset - 1);
  }

  /** One page that counts from the oldest row. It is never refused. */
  method ReadOldest(uri: UriCodec, server: HermesServer, window: SnapshotWindow, ghost offset: nat, ghost limit: nat)
    returns (read: PageRead, ghost m: nat, ghost p: nat)
    requires server.Valid() && ProperRows(server.history)
    requires HistoryQuery(uri, window) == Ok(Query(Oldest, offset, limit, None))
    modifies server
    ensures server.Valid() && old(server.length) <= m <= p <= server.length
    ensures StartsAt(server.history, offset, limit, m, p, read)
  {
    ghost var before, quiet := server.length, server.growth == [];
    var result := SessionMessagesPage(uri, server, window);
    assert Answers(uri, server.history, before, server.length, quiet, Query(Oldest, offset, limit, None), result);
    read := result.value;
    m, p := ShownAt(uri, server.history, before, server.length, Query(Oldest, offset, limit, None), read);
  }

  /** The page starts at row `o` of `m`, and the rows from `from` to its end have been collected. */
  ghost predicate Onward(history: seq<Row>, collected: seq<Row>, from: nat, o: nat, l: nat, m: nat, p: nat,
      read: PageRead)
  {
    && StartsAt(history, o, l, m, p, read) && o <= m && l > 0
    && from <= Min(o + l, m) && collected == history[from..Min(o + l, m)]
  }

  lemma {:induction false} OnwardFurther(history: seq<Row>, collected: seq<Row>, from: nat, o: nat, l: nat, m: nat,
      p: nat, read: PageRead, l': nat, m': nat, p': nat, next: PageRead)
    requires Onward(history, collected, from, o, l, m, p, read) && read.page.hasLater
    requires p <= m' && l' > 0 && StartsAt(history, o + l, l', m', p', next)
    ensures Onward(history, collected + next.entries, from, o + l, l', m', p', next)
  {
    SlicesJoin(history, from, o + l, Min(o + l + l', m'));
  }

  /** Rows arrive, and then the walk goes one page on. */
  method ReadOnward(uri: UriCodec, server: HermesServer, limit: Option<real>, arrived: nat, read: PageRead,
      ghost collected: seq<Row>, ghost from: nat, ghost o: nat, ghost l: nat, ghost m: nat, ghost p: nat)
    returns (next: PageRead, ghost m': nat, ghost p': nat)
    requires server.Valid() && ProperRows(server.history) && Faithful(uri)
    requires Onward(server.history, collected, from, o, l, m, p, read) && read.page.hasLater && p <= server.length
    modifies server
    ensures server.Valid() && p <= m' <= p' <= server.length
    ensures Onward(server.history, collected + next.entries, from, o + l, Limit(limit), m', p', next)
  {
    server.Append(arrived);
    OnwardQuery(uri, o + l, limit);
    next, m', p' := ReadOldest(uri, server, Later(read.page.after, limit), o + l, Limit(limit));
    OnwardFurther(server.history, collected, from, o, l, m, p, read, Limit(limit), m', p', next);
  }

  lemma {:induction false} OnwardEnds(history: seq<Row>, collected: seq<Row>, from: nat, o: nat, l: nat, m: nat,
      p: nat, read: PageRead)
    requires Onward(history, collected, from, o, l, m, p, read)
    ensures read.page.hasLater ==> o + l < |history|
    ensures !read.page.hasLater ==> from <= m && collected == history[from..m]
  {
  }

  /**
   * Following `after` from a page that counts from the oldest row, while rows are appended
   * between and during the reads. The walk ends, no page is refused, and the pages
   * together list every row behind the first page up to the newest row of the last read,
   * each exactly once and in order.
   */
  method WalkOnward(uri: UriCodec, server: HermesServer, limit: Option<real>, page: PageRead, arrivals: seq<nat>,
      ghost o: nat, ghost l: nat, ghost m: nat, ghost p: nat)
    returns (collected: seq<Row>, ghost newest: nat)
    requires server.Valid() && ProperRows(server.history) && Faithful(uri)
    requires StartsAt(server.history, o, l, m, p, page) && o <= m <= p <= server.length && l > 0
    modifies server
    ensures server.Valid() && m <= newest <= server.length
    ensures collected == server.history[Min(o + l, m)..newest]
  {
    var read, k := page, 0;
    ghost var o', l', from: nat, p' := o, l, Min(o + l, m), p;
    collected, newest := [], m;
    while read.page.hasLater
      invariant server.Valid() && m <= newest <= p' <= server.length
      invariant Onward(server.history, collected, from, o', l', newest, p', read)
      decreases |server.history| - o'
    {
      OnwardEnds(server.history, collected, from, o', l', newest, p', read);
      var next;
      next, newest, p' := ReadOnward(uri, server, limit, if k < |arrivals| then arrivals[k] else 0, read, collected,
        from, o', l', newest, p');
      collected := collected + next.entries;
      o', l' := o' + l', Limit(limit);
      read, k := next, k + 1;
    }
    OnwardEnds(server.history, collected, from, o', l', newest, p', read);
  }

  /** From the earliest window on: every row up to the newest one of the last read, each exactly once and in order. */
  method WalkFromEarliest(uri: UriCodec, server: HermesServer, limit: Option<real>, arrivals: seq<nat>)
    returns (collected: seq<Row>, ghost newest: nat)
    requires server.Valid() && ProperRows(server.history) && Faithful(uri)
    modifies server
    ensures server.Valid() && old(server.length) <= newest <= server.length
    ensures collected == server.history[..newest]
  {
    EarliestQuery(uri, limit);
    var read, rest;
    ghost var m, p;
    read, m, p := ReadOldest(uri, server, Earliest(limit), 0, Limit(limit));
    rest, newest := WalkOnward(uri, server, limit, read, arrivals, 0, Limit(limit), m, p);
    collected := read.entries + rest;
    SlicesJoin(server.history, 0, Min(Limit(limit), m), newest);
  }

  /** The page starts at row `o`, and the rows from there to `end` have been collected behind it. */
  ghost predicate Backward(history: seq<Row>, collected: seq<Row>, end: nat, o: nat, l: nat, m: nat, p: nat,
      read: PageRead)
  {
    && StartsAt(history, o, l, m, p, read) && read.entries != []
    && o <= end < |history| && o < m && collected == history[o..end]
  }

  lemma {:induction false} BackwardFurther(history: seq<Row>, collected: seq<Row>, end: nat, o: nat, l: nat, m: nat,
      p: nat, read: PageRead, limit: nat, m': nat, p': nat, next: PageRead)
    requires Backward(history, collected, end, o, l, m, p, read) && o > 0 && limit > 0 && m <= m'
    requires StartsAt(history, Max(0, o - limit), Min(limit, o), m', p', next)
    ensures Backward(history, next.entries + collected, end, Max(0, o - limit), Min(limit, o), m', p', next)
  {
    SlicesJoin(history, Max(0, o - limit), o, end);
  }

  /** Rows arrive, and then the walk goes one page back. */
  method ReadBackward(uri: UriCodec, server: HermesServer, limit: Option<real>, arrived: nat, read: PageRead,
      ghost collected: seq<Row>, ghost end: nat, ghost o: nat, ghost l: nat, ghost m: nat, ghost p: nat)
    returns (next: PageRead, ghost m': nat, ghost p': nat)
    requires server.Valid() && ProperRows(server.history) && Faithful(uri)
    requires Backward(server.history, collected, end, o, l, m, p, read) && read.page.hasEarlier && p <= server.length
    modifies server
    ensures server.Valid() && p <= m' <= p' <= server.length
    ensures Backward(server.history, next.entries + collected, end, Max(0, o - Limit(limit)), Min(Limit(limit), o), m',
      p', next)
  {
    server.Append(arrived);
    BackwardQuery(uri, o, limit);
    next, m', p' := ReadOldest(uri, server, Earlier(read.page.before, limit), Max(0, o - Limit(limit)),
      Min(Limit(limit), o));
    BackwardFurther(server.history, collected, end, o, l, m, p, read, Limit(limit), m', p', next);
  }

  /**
   * Following `before` from a page that counts from the oldest row goes back to the first
   * row: the pages together list every row before that page, each exactly once and in
   * order, whatever is appended in the meantime. No page is refused.
   */
  method WalkBackward(uri: UriCodec, server: HermesServer, limit: Option<real>, page: PageRead, arrivals: seq<nat>,
      ghost o: nat, ghost l: nat, ghost m: nat, ghost p: nat)
    returns (collected: seq<Row>)
    requires server.Valid() && ProperRows(server.history) && Faithful(uri)
    requires StartsAt(server.history, o, l, m, p, page) && page.entries != [] && m <= p <= server.length
    modifies server
    ensures server.Valid() && collected == server.history[..o]
  {
    var read, k := page, 0;
    ghost var o': nat, l': nat, m': nat, p': nat := o, l, m, p;
    collected := [];
    while read.page.hasEarlier
      invariant server.Valid() && Backward(server.history, collected, o, o', l', m', p', read) && p' <= server.length
      decreases o', read.page.hasEarlier
    {
      var next;
      next, m', p' := ReadBackward(uri, server, limit, if k < |arrivals| then arrivals[k] else 0, read, collected, o,
        o', l', m', p');
      collected := next.entries + collected;
      o', l' := Max(0, o' - Limit(limit)), Min(Limit(limit), o');
      read, k := next, k + 1;
    }
  }
}
