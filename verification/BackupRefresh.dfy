/**
 * The index refresh in the background: what is shown grows source by source, and a
 * source that cannot be scanned keeps what was shown of it.
 */
module BackupRefresh {
  import opened Prelude
  import opened StableSorting
  import opened SortedSlices
  import opened BackupVault
  import opened BackupIndex

  // ---------------------------------------------------------------------
  // Remembered hashes.

  lemma {:induction false} PreviousFound(files: seq<Indexed>, key: FileKey)
    ensures var known := Previous(files, key); known.Some? ==> known.value in files && known.value.key == key
  {
    if files != [] {
      PreviousFound(files[..|files| - 1], key);
    }
  }

  /** A hash that is carried over still goes back to a look at the file in its present state. */
  lemma {:induction false} CarriedRemembered(h: Hashing, looks: seq<Look>, before: seq<Indexed>, files: seq<Indexed>)
    requires Remembered(h, looks, before) && forall c | c in files :: c.sha == None
    ensures Remembered(h, looks, Map(Carried(before), files))
  {
    var after := Map(Carried(before), files);
    forall c | c in after && c.sha.Some? ensures Supported(h, looks, c.key, c.meta, c.sha.value) {
      var k :| 0 <= k < |files| && after[k] == c;
      assert files[k] in files;
      PreviousFound(before, files[k].key);
    }
  }

  lemma {:induction false} PlannedUnhashed(scan: Scan, r: Ranking, ids: seq<string>, chosen: seq<string>)
    requires ProperScan(scan)
    ensures forall c | c in PlannedFiles(scan, r, ids, chosen) :: c.sha == None
  {
    var all := FlatMap(FilesPart(scan, ids), chosen);
    PlainParts(scan, ids, chosen);
    SortFrom(FileKeyOf(r), all);
    forall c | c in all ensures c.sha == None {
      var k :| 0 <= k < |all| && all[k] == c;
      assert PlainFiles(all)[k] == Unhashed()(all[k]);
    }
  }

  /** Refreshing a source keeps every cached hash supported. */
  lemma {:induction false} RefreshedRemembers(h: Hashing, looks: seq<Look>, scan: Scan, r: Ranking,
      sources: seq<Source>, before: Index, id: string)
    requires ProperScan(scan) && Remembered(h, looks, before.files)
    ensures Remembered(h, looks, Refreshed(scan, r, sources, before, id).files)
  {
    var planned := PlannedFiles(scan, r, Ids(sources), [id]);
    var kept, carried := Filter(NotOf(FileSource(), id), before.files), Map(Carried(before.files), planned);
    PlannedUnhashed(scan, r, Ids(sources), [id]);
    CarriedRemembered(h, looks, before.files, planned);
    FilterFrom(NotOf(FileSource(), id), before.files);
    SortFrom(FileKeyOf(r), kept + carried);
  }

  // ---------------------------------------------------------------------
  // Overviews.

  /** The row of a source, counted again from the files of the index. */
  function Recounted(index: Index): Row -> Row {
    (row: Row) =>
      var own := SliceOf(FileSource(), index.files, row.sourceId);
      row.(fileCount := |own|, excludedCount := |SliceOf(ExcludedSource(), index.excluded, row.sourceId)|,
        kinds := KindCounts(own))
  }

  /** The overview of one source. */
  function OverviewRows(r: Ranking, index: Index, id: string): seq<Row> {
    StableSort(RowKeyOf(r), Map(Recounted(index), SliceOf(RowSource(), index.sources, id)))
  }

  lemma {:induction false} CarriedCounts(before: seq<Indexed>, files: seq<Indexed>)
    ensures KindCounts(Map(Carried(before), files)) == KindCounts(files)
  {
    if files != [] {
      var front := files[..|files| - 1];
      CarriedCounts(before, front);
      assert Map(Carried(before), files)[..|files| - 1] == Map(Carried(before), front);
    }
  }

  lemma {:induction false} SortSize<T>(key: T -> int, s: seq<T>)
    ensures |StableSort(key, s)| == |s|
  {
    SortElements(key, s);
    assert |multiset(StableSort(key, s))| == |multiset(s)|;
  }

  /** The files of a source right after it was refreshed: those of the plan, with their hashes. */
  lemma {:induction false} RefreshedFileSlice(scan: Scan, r: Ranking, sources: seq<Source>, before: Index, id: string)
    requires ProperScan(scan)
    ensures SliceOf(FileSource(), Refreshed(scan, r, sources, before, id).files, id)
      == Map(Carried(before.files), PlannedFiles(scan, r, Ids(sources), [id]))
  {
    var part, key := FilesPart(scan, Ids(sources)), FileKeyOf(r);
    var planned := PlannedFiles(scan, r, Ids(sources), [id]);
    PartsOfSource(scan, r, Ids(sources));
    OnePart(part, id);
    SortFrom(key, part(id));
    var carried := Map(Carried(before.files), planned);
    forall c | c in carried ensures FileSource()(c) == id {
      var k :| 0 <= k < |planned| && carried[k] == c;
      assert planned[k] in planned;
    }
    ReplacedSlice(key, FileSource(), before.files, id, carried, id);
    MapSort(Carried(before.files), key, planned);
    SortSorted(key, part(id));
    SortOfSorted(key, planned);
  }

  /** The overview of a source right after it was refreshed is its row in the plan. */
  lemma {:induction false} OverviewIsRow(scan: Scan, r: Ranking, sources: seq<Source>, before: Index, id: string)
    requires ProperScan(scan) && DistinctIds(sources)
    ensures OverviewRows(r, Refreshed(scan, r, sources, before, id), id) == OwnRow(scan, r, sources, id)
  {
    var index, rows := Refreshed(scan, r, sources, before, id), OwnRow(scan, r, sources, id);
    RefreshedRow(scan, r, sources, before, id);
    SortAtMostOne(RowKeyOf(r), rows);
    if rows != [] {
      RowRecounted(scan, r, sources, before, id);
    }
    FixedRow(Recounted(index), rows);
  }

  lemma {:induction false} FixedRow(f: Row -> Row, rows: seq<Row>)
    requires |rows| <= 1 && (rows != [] ==> f(rows[0]) == rows[0])
    ensures Map(f, rows) == rows
  {
    assert |Map(f, rows)| == |rows|;
  }

  lemma {:induction false} RefreshedRow(scan: Scan, r: Ranking, sources: seq<Source>, before: Index, id: string)
    requires ProperScan(scan) && DistinctIds(sources)
    ensures SliceOf(RowSource(), Refreshed(scan, r, sources, before, id).sources, id) == OwnRow(scan, r, sources, id)
    ensures |OwnRow(scan, r, sources, id)| <= 1
  {
    var rows := OwnRow(scan, r, sources, id);
    OwnRowOf(scan, r, sources, id);
    SortAtMostOne(RowKeyOf(r), rows);
    ReplacedSlice(RowKeyOf(r), RowSource(), before.sources, id, rows, id);
  }

  lemma {:induction false} RowRecounted(scan: Scan, r: Ranking, sources: seq<Source>, before: Index, id: string)
    requires ProperScan(scan) && DistinctIds(sources) && OwnRow(scan, r, sources, id) != []
    ensures Recounted(Refreshed(scan, r, sources, before, id))(OwnRow(scan, r, sources, id)[0])
      == OwnRow(scan, r, sources, id)[0]
  {
    var ids := Ids(sources);
    SourceFound(sources, id);
    SlicesInPlans(scan, r, ids, id);
    RefreshedFileSlice(scan, r, sources, before, id);
    CarriedCounts(before.files, PlannedFiles(scan, r, ids, [id]));
    ExcludedCount(scan, r, sources, before, id);
  }

  lemma {:induction false} ExcludedCount(scan: Scan, r: Ranking, sources: seq<Source>, before: Index, id: string)
    requires ProperScan(scan)
    ensures |SliceOf(ExcludedSource(), Refreshed(scan, r, sources, before, id).excluded, id)|
      == |PlannedExcluded(scan, Ids(sources), [id])|
  {
    PartsOfSource(scan, r, Ids(sources));
    OnePart(ExcludedPart(scan, Ids(sources)), id);
    ReplacedSlice(ExcludedKeyOf(r), ExcludedSource(), before.excluded, id, ExcludedPart(scan, Ids(sources))(id), id);
    SortSize(ExcludedKeyOf(r), ExcludedPart(scan, Ids(sources))(id));
  }

  /** The overview of all sources. */
  function OverviewAll(r: Ranking, index: Index): seq<Row> {
    StableSort(RowKeyOf(r), Map(Recounted(index), index.sources))
  }

  lemma {:induction false} CarriedSource(before: seq<Indexed>, files: seq<Indexed>, id: string)
    ensures SliceOf(FileSource(), Map(Carried(before), files), id)
      == Map(Carried(before), SliceOf(FileSource(), files, id))
  {
    MapFilter(Carried(before), Of(FileSource(), id), files);
  }

  lemma {:induction false} RebuiltFileList(scan: Scan, r: Ranking, sources: seq<Source>, before: Index)
    ensures Rebuilt(scan, r, sources, before).files
      == Map(Carried(before.files), PlannedFiles(scan, r, Ids(sources), Ids(sources)))
  {
    var all, key := FlatMap(FilesPart(scan, Ids(sources)), Ids(sources)), FileKeyOf(r);
    MapSort(Carried(before.files), key, StableSort(key, all));
    SortSorted(key, all);
    SortOfSorted(key, StableSort(key, all));
  }

  /** The rows of a rebuilt index are already counted right. */
  lemma {:induction false} RebuiltRowCounted(scan: Scan, r: Ranking, sources: seq<Source>, before: Index,
      source: Source)
    ensures var ids := Ids(sources);
      var row := RowOf(source, scan(source.id).detected, PlannedFiles(scan, r, ids, ids),
        PlannedExcluded(scan, ids, ids));
      Recounted(Rebuilt(scan, r, sources, before))(row) == row
  {
    var ids := Ids(sources);
    var files, excluded := PlannedFiles(scan, r, ids, ids), PlannedExcluded(scan, ids, ids);
    RebuiltFileList(scan, r, sources, before);
    CarriedSource(before.files, files, source.id);
    CarriedCounts(before.files, SliceOf(FileSource(), files, source.id));
    FilterSort(ExcludedKeyOf(r), Of(ExcludedSource(), source.id), excluded);
    SortSize(ExcludedKeyOf(r), SliceOf(ExcludedSource(), excluded, source.id));
  }

  lemma {:induction false} RebuiltRowsCounted(scan: Scan, r: Ranking, sources: seq<Source>, before: Index,
      chosen: seq<string>)
    ensures var ids := Ids(sources);
      var rows := FlatMap(RowPart(scan, sources, PlannedFiles(scan, r, ids, ids), PlannedExcluded(scan, ids, ids)),
        chosen);
      forall row | row in rows :: Recounted(Rebuilt(scan, r, sources, before))(row) == row
  {
    if chosen != [] {
      var last := chosen[|chosen| - 1];
      RebuiltRowsCounted(scan, r, sources, before, chosen[..|chosen| - 1]);
      SourceFound(sources, last);
      if SourceOf(sources, last).Some? {
        RebuiltRowCounted(scan, r, sources, before, SourceOf(sources, last).value);
      }
    }
  }

  /** The overview of a rebuilt index shows its rows. */
  lemma {:induction false} RebuiltOverview(scan: Scan, r: Ranking, sources: seq<Source>, before: Index)
    ensures OverviewAll(r, Rebuilt(scan, r, sources, before)) == Rebuilt(scan, r, sources, before).sources
  {
    var ids, key, index := Ids(sources), RowKeyOf(r), Rebuilt(scan, r, sources, before);
    var rows := FlatMap(RowPart(scan, sources, PlannedFiles(scan, r, ids, ids), PlannedExcluded(scan, ids, ids)), ids);
    RebuiltRowsCounted(scan, r, sources, before, ids);
    SortFrom(key, rows);
    SortFrom(key, StableSort(key, rows));
    assert forall k | 0 <= k < |index.sources| :: index.sources[k] in index.sources;
    assert Map(Recounted(index), index.sources) == index.sources;
    SortSorted(key, StableSort(key, rows));
    SortOfSorted(key, index.sources);
  }

  // ---------------------------------------------------------------------
  // The services.

  datatype Overview = Overview(rows: seq<Row>, stale: bool)

  /** The index of the local backup service. */
  class LocalIndex {
    const scan: Scan
    const r: Ranking
    const sources: seq<Source>
    var inventory: Index

    constructor (scan: Scan, r: Ranking, sources: seq<Source>, inventory: Index)
      ensures this.scan == scan && this.r == r && this.sources == sources && this.inventory == inventory
    {
      this.scan, this.r, this.sources, this.inventory := scan, r, sources, inventory;
    }

    /** Scans one source and replaces its part of the index. */
    method RefreshIndex(id: string) returns (rows: seq<Row>)
      modifies this
      ensures inventory == Refreshed(scan, r, sources, old(inventory), id)
      ensures rows == OverviewRows(r, inventory, id)
    {
      inventory := Refreshed(scan, r, sources, inventory, id);
      rows := OverviewRows(r, inventory, id);
    }

    /** Scans everything. */
    method RebuildIndex() returns (rows: seq<Row>)
      modifies this
      ensures inventory == Rebuilt(scan, r, sources, old(inventory)) && rows == inventory.sources
    {
      RebuiltOverview(scan, r, sources, inventory);
      inventory := Rebuilt(scan, r, sources, inventory);
      rows := OverviewAll(r, inventory);
    }
  }

  /** The sources of an order that could be scanned. */
  function Reached(order: seq<string>, fails: nat -> bool): seq<string> {
    if order == [] then []
    else if fails(|order| - 1) then Reached(order[..|order| - 1], fails)
    else Reached(order[..|order| - 1], fails) + [order[|order| - 1]]
  }

  function RowsBefore(current: Option<Overview>): seq<Row> {
    if current.Some? then current.value.rows else []
  }

  function SourceIds(rows: seq<Row>): set<string> {
    set row | row in rows :: row.sourceId
  }

  /** Rows that a merge keeps: those of other sources, unless new rows of theirs came too. */
  function Untouched(id: string, ids: set<string>): Row -> bool {
    (row: Row) => row.sourceId != id && row.sourceId !in ids
  }

  function Merged(key: Row -> int, before: seq<Row>, id: string, next: seq<Row>): seq<Row> {
    StableSort(key, Filter(Untouched(id, SourceIds(next)), before) + next)
  }

  /**
   * The rows after a merge: they are in order, the source and all others that came with
   * it have exactly their new rows, and every other source keeps its rows.
   */
  ghost predicate MergedInto(key: Row -> int, before: seq<Row>, id: string, next: seq<Row>, after: seq<Row>) {
    && Sorted(key, after)
    && forall s: string ::
         SliceOf(RowSource(), after, s)
           == StableSort(key, SliceOf(RowSource(), if s == id || s in SourceIds(next) then next else before, s))
  }

  lemma {:induction false} UntouchedSlice(before: seq<Row>, id: string, ids: set<string>, s: string)
    ensures SliceOf(RowSource(), Filter(Untouched(id, ids), before), s)
      == if s == id || s in ids then [] else SliceOf(RowSource(), before, s)
  {
    if before != [] {
      var front, last := before[..|before| - 1], before[|before| - 1];
      assert before == front + [last];
      UntouchedSlice(front, id, ids, s);
      FilterSnoc(Untouched(id, ids), front, last);
      FilterSnoc(Of(RowSource(), s), front, last);
      FilterSnoc(Of(RowSource(), s), Filter(Untouched(id, ids), front), last);
    }
  }

  lemma {:induction false} NoneOfSource(rows: seq<Row>, s: string)
    requires s !in SourceIds(rows)
    ensures SliceOf(RowSource(), rows, s) == []
  {
    FilterNone(Of(RowSource(), s), rows);
  }

  lemma {:induction false} MergedSlices(key: Row -> int, before: seq<Row>, id: string, next: seq<Row>)
    ensures MergedInto(key, before, id, next, Merged(key, before, id, next))
  {
    var kept := Filter(Untouched(id, SourceIds(next)), before);
    SortSorted(key, kept + next);
    forall s: string ensures SliceOf(RowSource(), Merged(key, before, id, next), s)
      == StableSort(key, SliceOf(RowSource(), if s == id || s in SourceIds(next) then next else before, s))
    {
      MergedSlice(key, before, id, next, s);
    }
  }

  lemma {:induction false} MergedSlice(key: Row -> int, before: seq<Row>, id: string, next: seq<Row>, s: string)
    ensures SliceOf(RowSource(), Merged(key, before, id, next), s)
      == StableSort(key, SliceOf(RowSource(), if s == id || s in SourceIds(next) then next else before, s))
  {
    var kept := Filter(Untouched(id, SourceIds(next)), before);
    FilterSort(key, Of(RowSource(), s), kept + next);
    FilterAppend(Of(RowSource(), s), kept, next);
    UntouchedSlice(before, id, SourceIds(next), s);
    if s == id || s in SourceIds(next) {
      assert [] + SliceOf(RowSource(), next, s) == SliceOf(RowSource(), next, s);
    } else {
      NoneOfSource(next, s);
      assert SliceOf(RowSource(), before, s) + [] == SliceOf(RowSource(), before, s);
    }
  }

  /** When only rows of the source come, a merge replaces its slice. */
  lemma {:induction false} MergedOwn(key: Row -> int, before: seq<Row>, id: string, next: seq<Row>)
    requires AllOf(RowSource(), next, id)
    ensures Merged(key, before, id, next) == Replaced(key, RowSource(), before, id, next)
  {
    FilterAlike(before, id, SourceIds(next));
  }

  lemma {:induction false} FilterAlike(before: seq<Row>, id: string, ids: set<string>)
    requires ids <= {id}
    ensures Filter(Untouched(id, ids), before) == Filter(NotOf(RowSource(), id), before)
  {
    if before != [] {
      FilterAlike(before[..|before| - 1], id, ids);
    }
  }

  class StaleWhileRevalidate {
    const base: LocalIndex
    var current: Option<Overview>

    constructor (base: LocalIndex, current: Option<Overview>)
      ensures this.base == base && this.current == current
    {
      this.base, this.current := base, current;
    }

    /** Puts the rows of a source in the place of its old ones. */
    method MergeSourceOverview(id: string, next: seq<Row>)
      modifies this`current
      ensures current == Some(Overview(Merged(RowKeyOf(base.r), RowsBefore(old(current)), id, next), true))
      ensures MergedInto(RowKeyOf(base.r), RowsBefore(old(current)), id, next, RowsBefore(current))
    {
      var previous := RowsBefore(current);
      MergedSlices(RowKeyOf(base.r), previous, id, next);
      var kept := Filter(Untouched(id, SourceIds(next)), previous);
      current := Some(Overview(StableSort(RowKeyOf(base.r), kept + next), true));
    }

    /** Refreshes one source, and shows what was found. */
    method RefreshSource(id: string)
      requires ProperScan(base.scan) && DistinctIds(base.sources)
      modifies this, base
      ensures base.inventory == Refreshed(base.scan, base.r, base.sources, old(base.inventory), id)
      ensures current == Some(Overview(
        Replaced(RowKeyOf(base.r), RowSource(), RowsBefore(old(current)), id,
          OwnRow(base.scan, base.r, base.sources, id)), true))
    {
      ghost var before := base.inventory;
      var rows := base.RefreshIndex(id);
      OverviewIsRow(base.scan, base.r, base.sources, before, id);
      OwnRowOf(base.scan, base.r, base.sources, id);
      MergedOwn(RowKeyOf(base.r), RowsBefore(current), id, rows);
      MergeSourceOverview(id, rows);
    }

    method RefreshNext(id: string, ghost before: Index, ghost shown: seq<Row>, ghost reached: seq<string>)
      requires ProperScan(base.scan) && DistinctIds(base.sources)
      requires RefreshedSoFar(base.scan, base.r, base.sources, before, shown, reached, base.inventory,
        RowsBefore(current))
      modifies this, base
      ensures RefreshedSoFar(base.scan, base.r, base.sources, before, shown, reached + [id], base.inventory,
        RowsBefore(current))
      ensures current.Some?
    {
      RefreshSource(id);
    }

    /** Without an order everything is scanned at once; otherwise one source after the other. */
    method BeginRefresh(order: seq<string>, fails: nat -> bool)
      requires ProperScan(base.scan) && DistinctIds(base.sources)
      modifies this, base
      ensures order == [] && !fails(0) ==>
        && base.inventory == Rebuilt(base.scan, base.r, base.sources, old(base.inventory))
        && current == Some(Overview(base.inventory.sources, false))
      ensures order == [] && fails(0)
        ==> base.inventory == old(base.inventory) && RowsBefore(current) == RowsBefore(old(current))
      ensures order == [] && fails(0)
        ==> (current.Some? <==> old(current).Some?) && (current.Some? ==> current.value.stale)
      ensures order != [] ==> RefreshedSoFar(base.scan, base.r, base.sources, old(base.inventory),
        RowsBefore(old(current)),
                                             Reached(order, fails), base.inventory, RowsBefore(current))
      ensures order != [] && current.Some? ==> (current.value.stale <==> |Reached(order, fails)| < |order|)
    {
      if |order| > 0 {
        RefreshInTurn(order, fails);
        return;
      }
      if !fails(0) {
        var rows := base.RebuildIndex();
        current := Some(Overview(rows, false));
      } else if current.Some? {
        current := Some(Overview(current.value.rows, true));
      }
    }

    /** Refreshes the sources one after the other; what fails keeps its old part and leaves the index stale. */
    method RefreshInTurn(order: seq<string>, fails: nat -> bool)
      requires ProperScan(base.scan) && DistinctIds(base.sources)
      modifies this, base
      ensures RefreshedSoFar(base.scan, base.r, base.sources, old(base.inventory), RowsBefore(old(current)),
                             Reached(order, fails), base.inventory, RowsBefore(current))
      ensures current.Some? <==> old(current).Some? || Reached(order, fails) != []
      ensures current.Some? ==> (current.value.stale <==> |Reached(order, fails)| < |order|)
    {
      ghost var before, shown, reached: seq<string> := base.inventory, current, [];
      var failed := false;
      for i := 0 to |order|
        invariant Turns(order, fails, i, failed, before, shown, reached)
      {
        failed, reached := TakeTurn(order, fails, i, failed, before, shown, reached);
      }
      assert order[..|order|] == order;
      if current.Some? {
        current := Some(Overview(current.value.rows, failed));
      }
    }

    /** The first `i` sources of the order have had their turn. */
    ghost predicate Turns(order: seq<string>, fails: nat -> bool, i: nat, failed: bool,
                          before: Index, shown: Option<Overview>, reached: seq<string>)
      reads this, base
    {
      && i <= |order| && reached == Reached(order[..i], fails) && |reached| <= i && (failed <==> |reached| < i)
      && RefreshedSoFar(base.scan, base.r, base.sources, before, RowsBefore(shown), reached, base.inventory,
        RowsBefore(current))
      && (current.Some? <==> shown.Some? || reached != [])
    }

    method TakeTurn(order: seq<string>, fails: nat -> bool, i: nat, failed: bool,
                    ghost before: Index, ghost shown: Option<Overview>, ghost reached: seq<string>)
      returns (failed': bool, ghost reached': seq<string>)
      requires ProperScan(base.scan) && DistinctIds(base.sources)
      requires i < |order| && Turns(order, fails, i, failed, before, shown, reached)
      modifies this, base
      ensures Turns(order, fails, i + 1, failed', before, shown, reached')
    {
      ReachedNext(order, fails, i);
      if fails(i) {
        return true, reached;
      }
      RefreshNext(order[i], before, RowsBefore(shown), reached);
      return failed, reached + [order[i]];
    }
  }

  lemma {:induction false} ReachedNext(order: seq<string>, fails: nat -> bool, i: nat)
    requires i < |order|
    ensures Reached(order[..i + 1], fails)
      == if fails(i) then Reached(order[..i], fails) else Reached(order[..i], fails) + [order[i]]
  {
    assert order[..i + 1][..i] == order[..i];
  }

  /** The index and the rows after some sources were refreshed in turn. */
  ghost predicate RefreshedSoFar(scan: Scan, r: Ranking, sources: seq<Source>, before: Index, shown: seq<Row>,
                                 reached: seq<string>, index: Index, rows: seq<Row>)
  {
    && index == RefreshedAll(scan, r, sources, before, reached)
    && rows == ReplacedAll(RowKeyOf(r), RowSource(), shown, reached, OwnRowPart(scan, r, sources))
  }

  /** When every registered source was reached, each source shows the row that a full rebuild gives it. */
  lemma {:induction false} ShownBySource(scan: Scan, r: Ranking, sources: seq<Source>, before: Index, shown: seq<Row>,
      order: seq<string>)
    requires ProperScan(scan) && DistinctIds(sources)
    requires (forall id | id in Ids(sources) :: id in order)
      && (forall row | row in shown :: row.sourceId in Ids(sources))
    ensures SameSlices(RowKeyOf(r), RowSource(),
      ReplacedAll(RowKeyOf(r), RowSource(), shown, order, OwnRowPart(scan, r, sources)),
      Rebuilt(scan, r, sources, before).sources)
  {
    OwnRows(scan, r, sources);
    RebuiltRows(scan, r, sources, before);
    SlicesOneAtATime(RowKeyOf(r), RowSource(), shown, order, OwnRowPart(scan, r, sources), Ids(sources));
  }

  /** When the sources also have different places in the order, the rows shown are those of a full rebuild. */
  lemma {:induction false} ShownAsRebuilt(scan: Scan, r: Ranking, sources: seq<Source>, before: Index, shown: seq<Row>,
      order: seq<string>)
    requires ProperScan(scan) && DistinctIds(sources) && RanksSources(r, sources)
    requires (forall id | id in Ids(sources) :: id in order)
      && (forall row | row in shown :: row.sourceId in Ids(sources))
    ensures ReplacedAll(RowKeyOf(r), RowSource(), shown, order, OwnRowPart(scan, r, sources))
      == Rebuilt(scan, r, sources, before).sources
  {
    ShownBySource(scan, r, sources, before, shown, order);
    RebuiltRows(scan, r, sources, before);
    RowsTellApart(scan, r, sources);
    TiesOfSorted(RowKeyOf(r), RowSource(), FlatMap(OwnRowPart(scan, r, sources), Ids(sources)));
    SlicesDetermine(RowKeyOf(r), RowSource(), Rebuilt(scan, r, sources, before).sources,
      ReplacedAll(RowKeyOf(r), RowSource(), shown, order, OwnRowPart(scan, r, sources)));
  }
}
