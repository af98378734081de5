/** Hermes history cursors and pages: text cursors, window queries and page links. */
module HermesHistory {
  import opened Prelude
  import opened Texts

  datatype Order = Latest | Oldest

  datatype Direction = Before | After

  datatype Row = Row(id: string)

  /** A decoded cursor; an empty anchor means that none was given. */
  datatype Cursor = Cursor(order: Order, offset: nat, anchorId: string)

  /** The row a page must touch, and the offset it had when the cursor was made. */
  datatype Anchor = Anchor(id: string, offset: nat, direction: Direction)

  datatype Query = Query(order: Order, offset: nat, limit: nat, anchor: Option<Anchor>)

  /** What a reader asks for. Absent cursors are empty strings. */
  datatype SnapshotWindow = SnapshotWindow(
    limit: Option<real>,
    before: string,
    after: string,
    around: string,
    earliest: bool)

  datatype Page = Page(
    hasEarlier: bool,
    before: string,
    first: string,
    last: string,
    hasLater: bool,
    after: string)

  datatype HistoryError =
    | InvalidCursor
    | InvalidAnchor
    | AnchorTooLong
    | ConflictingCursors
    | AroundUnsupported

  const DEFAULT_LIMIT: nat := 120
  const MAX_LIMIT: nat := 500
  const MAX_ANCHOR: nat := 400
  const MAX_SAFE_INTEGER: nat := 0x1F_FFFF_FFFF_FFFF

  /** URI component encoding, with what is known about it. */
  datatype UriCodec = UriCodec(encode: string -> string, decode: string -> Option<string>)

  ghost predicate Faithful(uri: UriCodec) {
    forall id: string ::
      && uri.decode(uri.encode(id)) == Some(id)
      && (id != "" ==> uri.encode(id) != "")
      && OneLine(uri.encode(id))
  }

  predicate OneLine(s: string) {
    forall i | 0 <= i < |s| :: s[i] !in {'\n', '\r', '\U{2028}', '\U{2029}'}
  }

  // ---------------------------------------------------------------------
  // Cursors.

  const PREFIX := "hermes-history:"

  function OrderText(order: Order): string {
    if order == Latest then "latest:" else "oldest:"
  }

  function AnchorTail(uri: UriCodec, id: string): string {
    if id != "" then ":" + uri.encode(id) else ""
  }

  function Encoded(uri: UriCodec, order: Order, offset: nat, id: string): string {
    PREFIX + OrderText(order) + Decimal(offset) + AnchorTail(uri, id)
  }

  /** Length of the longest prefix of `s` without a colon. */
  function ToColon(s: string): (n: nat)
    ensures n <= |s|
    ensures forall i | 0 <= i < n :: s[i] != ':'
    ensures n < |s| ==> s[n] == ':'
  {
    if s == "" || s[0] == ':' then 0 else 1 + ToColon(s[1..])
  }

  /** The cursor pattern: prefix, order, decimal offset and optional one-line anchor. */
  function Decoded(uri: UriCodec, text: string): Result<Cursor, HistoryError> {
    var head := |PREFIX| + 7;
    if |text| < head || text[..|PREFIX|] != PREFIX then Err(InvalidCursor) else
      var orderText := text[|PREFIX|..head];
      var rest := text[head..];
      var end := ToColon(rest);
      if orderText != OrderText(Latest) && orderText != OrderText(Oldest) then Err(InvalidCursor)
      else if !IsDecimal(rest[..end]) || DecimalValue(rest[..end]) > MAX_SAFE_INTEGER then Err(InvalidCursor)
      else
        var order := if orderText == OrderText(Latest) then Latest else Oldest;
        DecodedAnchor(uri, order, DecimalValue(rest[..end]), rest[end..])
  }

  /** The part of a cursor after its offset: nothing, or a colon and an encoded anchor. */
  function DecodedAnchor(uri: UriCodec, order: Order, offset: nat, tail: string): Result<Cursor, HistoryError> {
    if tail == "" then Ok(Cursor(order, offset, ""))
    else if |tail| == 1 || !OneLine(tail[1..]) then Err(InvalidCursor)
    else match uri.decode(tail[1..])
      case None => Err(InvalidAnchor)
      case Some(id) => if |id| > MAX_ANCHOR then Err(AnchorTooLong) else Ok(Cursor(order, offset, id))
  }

  lemma {:induction false} ToColonSplits(front: string, tail: string)
    requires AllDigits(front) && (tail == "" || tail[0] == ':')
    ensures ToColon(front + tail) == |front|
  {
    if front != "" {
      assert (front + tail)[1..] == front[1..] + tail;
      ToColonSplits(front[1..], tail);
    } else {
      assert front + tail == tail;
    }
  }

  lemma {:induction false} CursorParts(order: Order, number: string, tail: string)
    ensures var text, head := PREFIX + OrderText(order) + number + tail, |PREFIX| + 7;
      && |text| >= head && text[..|PREFIX|] == PREFIX
      && text[|PREFIX|..head] == OrderText(order) && text[head..] == number + tail
  {
    ThreeParts(PREFIX, OrderText(order), number, tail);
    assert |OrderText(order)| == 7;
  }

  lemma {:induction false} ThreeParts(a: string, b: string, c: string, d: string)
    ensures var text := a + b + c + d;
      && text[..|a|] == a && text[|a|..|a| + |b|] == b && text[|a| + |b|..] == c + d
  {
  }

  lemma {:induction false} NumberParts(offset: nat, tail: string)
    requires tail == "" || tail[0] == ':'
    ensures var rest := Decimal(offset) + tail; var end := ToColon(rest);
      && rest[..end] == Decimal(offset) && rest[end..] == tail
      && IsDecimal(rest[..end]) && DecimalValue(rest[..end]) == offset
  {
    DecimalRoundTrip(offset);
    ToColonSplits(Decimal(offset), tail);
    var rest := Decimal(offset) + tail;
    assert rest[..|Decimal(offset)|] == Decimal(offset);
    assert rest[|Decimal(offset)|..] == tail;
  }

  /**
   * Decoding undoes encoding exactly for safe offsets and anchors of at most 400
   * characters; every other cursor this code writes is refused when it is read.
   */
  lemma {:induction false} CursorRoundTrip(uri: UriCodec, order: Order, offset: nat, id: string)
    requires Faithful(uri)
    ensures Decoded(uri, Encoded(uri, order, offset, id)) ==
      if offset > MAX_SAFE_INTEGER then Err(InvalidCursor)
      else if |id| > MAX_ANCHOR then Err(AnchorTooLong)
      else Ok(Cursor(order, offset, id))
  {
    CursorParts(order, Decimal(offset), AnchorTail(uri, id));
    NumberParts(offset, AnchorTail(uri, id));
  }

  function HeadText(order: Order, offset: nat): string {
    "hermes-history:" + (if order == Latest then "latest:" else "oldest:") + Decimal(offset)
  }

  /** What may follow the offset: nothing, or a colon and the encoded id on one line. */
  predicate IsTail(uri: UriCodec, tail: string, id: string) {
    if tail == "" then id == "" else
      && tail[0] == ':' && |tail| > 1 && uri.decode(tail[1..]) == Some(id) && |id| <= 400
      && forall i | 0 < i < |tail| ::
           tail[i] != '\n' && tail[i] != '\r' && tail[i] != '\U{2028}' && tail[i] != '\U{2029}'
  }

  lemma {:induction false} OneLineTail(tail: string)
    requires tail != ""
    ensures OneLine(tail[1..]) <==> forall i | 0 < i < |tail| ::
      tail[i] != '\n' && tail[i] != '\r' && tail[i] != '\U{2028}' && tail[i] != '\U{2029}'
  {
    if OneLine(tail[1..]) {
      forall i | 0 < i < |tail|
        ensures tail[i] != '\n' && tail[i] != '\r' && tail[i] != '\U{2028}' && tail[i] != '\U{2029}'
      {
        assert tail[1..][i - 1] == tail[i];
      }
    }
  }

  lemma {:induction false} AnchorExact(uri: UriCodec, order: Order, offset: nat, tail: string, id: string)
    requires tail == "" || tail[0] == ':'
    ensures DecodedAnchor(uri, order, offset, tail) == Ok(Cursor(order, offset, id)) <==> IsTail(uri, tail, id)
    ensures DecodedAnchor(uri, order, offset, tail).Ok?
      ==> DecodedAnchor(uri, order, offset, tail).value == Cursor(order, offset,
            DecodedAnchor(uri, order, offset, tail).value.anchorId)
  {
    if tail != "" {
      OneLineTail(tail);
    }
  }

  /** What a text that starts like a cursor is decoded to. */
  lemma {:induction false} HeadDecoded(uri: UriCodec, order: Order, offset: nat, tail: string)
    requires tail == "" || tail[0] == ':'
    ensures Decoded(uri, HeadText(order, offset) + tail)
      == if offset > MAX_SAFE_INTEGER then Err(InvalidCursor) else DecodedAnchor(uri, order, offset, tail)
  {
    assert HeadText(order, offset) + tail == PREFIX + OrderText(order) + Decimal(offset) + tail;
    CursorParts(order, Decimal(offset), tail);
    NumberParts(offset, tail);
  }

  /** A text that is decoded starts like a cursor. */
  lemma {:induction false} DecodedHead(uri: UriCodec, text: string) returns (order: Order, offset: nat, tail: string)
    requires Decoded(uri, text).Ok?
    ensures text == HeadText(order, offset) + tail && (tail == "" || tail[0] == ':') && offset <= MAX_SAFE_INTEGER
  {
    var head := |PREFIX| + 7;
    var rest := text[head..];
    var end := ToColon(rest);
    order := if text[|PREFIX|..head] == OrderText(Latest) then Latest else Oldest;
    offset, tail := DecimalValue(rest[..end]), rest[end..];
    DecimalCanonical(rest[..end]);
    assert rest == rest[..end] + tail;
    assert text == text[..|PREFIX|] + text[|PREFIX|..head] + rest;
  }

  /** A text is read as a cursor exactly when it is one with this order, offset and anchor, in its one form. */
  lemma {:induction false} DecodedExact(uri: UriCodec, text: string, c: Cursor)
    ensures Decoded(uri, text) == Ok(c) <==>
      && c.offset <= MAX_SAFE_INTEGER && HeadText(c.order, c.offset) <= text
      && IsTail(uri, text[|HeadText(c.order, c.offset)|..], c.anchorId)
  {
    var head := HeadText(c.order, c.offset);
    if head <= text && IsTail(uri, text[|head|..], c.anchorId) {
      var tail := text[|head|..];
      assert text == head + tail;
      HeadDecoded(uri, c.order, c.offset, tail);
      AnchorExact(uri, c.order, c.offset, tail, c.anchorId);
    }
    if Decoded(uri, text) == Ok(c) {
      var order, offset, tail := DecodedHead(uri, text);
      HeadDecoded(uri, order, offset, tail);
      AnchorExact(uri, order, offset, tail, c.anchorId);
      assert text[|HeadText(order, offset)|..] == tail;
    }
  }

  // ---------------------------------------------------------------------
  // Queries and pages.

  function Min(a: int, b: int): int {
    if a < b then a else b
  }

  function Max(a: int, b: int): int {
    if a > b then a else b
  }

  function Limit(limit: Option<real>): (n: nat)
    ensures 1 <= n <= 500 && (limit == None ==> n == 120)
    ensures limit.Some? && limit.value >= 1.0 ==>
      n as real <= limit.value && (n == 500 || limit.value < n as real + 1.0)
    ensures limit.Some? && limit.value < 1.0 ==> n == 1
  {
    match limit
    case None => DEFAULT_LIMIT
    case Some(x) => Min(MAX_LIMIT, Max(1, x.Floor))
  }

  function QueryBefore(cursor: Cursor, limit: nat): Query {
    if cursor.order == Latest then
      Query(Latest, cursor.offset, limit,
        if cursor.anchorId != "" then Some(Anchor(cursor.anchorId, cursor.offset, Before)) else None)
    else
      Query(Oldest, Max(0, cursor.offset - limit + 1), Min(limit, cursor.offset + 1), None)
  }

  function QueryAfter(cursor: Cursor, limit: nat): Query {
    if cursor.order == Oldest then
      Query(Oldest, cursor.offset, limit, None)
    else
      Query(Latest, Max(0, cursor.offset - limit + 1), Min(limit, cursor.offset + 1),
        if cursor.anchorId != "" then Some(Anchor(cursor.anchorId, cursor.offset, After)) else None)
  }

  function HistoryQuery(uri: UriCodec, window: SnapshotWindow): Result<Query, HistoryError> {
    var limit := Limit(window.limit);
    if (window.before != "" && window.after != "")
      || (window.around != "" && (window.before != "" || window.after != ""))
    then Err(ConflictingCursors)
    else if window.around != "" then Err(AroundUnsupported)
    else if window.before != "" then
      match Decoded(uri, window.before)
      case Err(e) => Err(e)
      case Ok(cursor) => Ok(QueryBefore(cursor, limit))
    else if window.after != "" then
      match Decoded(uri, window.after)
      case Err(e) => Err(e)
      case Ok(cursor) => Ok(QueryAfter(cursor, limit))
    else Ok(Query(if window.earliest then Oldest else Latest, 0, limit, None))
  }

  /** A window is refused for two cursors, for one that goes around a row, and for one that cannot be read. */
  lemma {:induction false} WindowRefused(uri: UriCodec, window: SnapshotWindow)
    ensures var (before, after, around) := (window.before != "", window.after != "", window.around != "");
      && (HistoryQuery(uri, window) == Err(ConflictingCursors)
          <==> (before && after) || (before && around) || (after && around))
      && (HistoryQuery(uri, window) == Err(AroundUnsupported) <==> around && !before && !after)
      && (!before && !after && !around ==>
            HistoryQuery(uri, window)
            == Ok(Query(if window.earliest then Oldest else Latest, 0, Limit(window.limit), None)))
      && (before != after && !around ==>
            (HistoryQuery(uri, window).Ok? <==> Decoded(uri, if before then window.before else window.after).Ok?))
  {
  }

  /** The page around the rows read, with the cursors of its neighbours. */
  function HistoryPage(uri: UriCodec, query: Query, rows: seq<Row>, hasMore: bool): Page {
    var older := rows != [] && (if query.order == Latest then hasMore else query.offset > 0);
    var newer := rows != [] && (if query.order == Oldest then hasMore else query.offset > 0);
    var first := if rows == [] then "" else rows[0].id;
    var last := if rows == [] then "" else rows[|rows| - 1].id;
    Page(
      older,
      if !older then "" else if query.order == Latest then Encoded(uri, Latest, query.offset + |rows|, first)
      else Encoded(uri, Oldest, query.offset - 1, ""),
      first,
      last,
      newer,
      if !newer then "" else if query.order == Oldest then Encoded(uri, Oldest, query.offset + |rows|, "")
      else Encoded(uri, Latest, query.offset - 1, last))
  }
}
