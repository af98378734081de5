/** The backup index: rebuilt as a whole, or one source at a time. */
module BackupIndex {
  import opened Prelude
  import opened StableSorting
  import opened SortedSlices
  import opened BackupVault

  /** A registered source. */
  datatype Source = Source(id: string, productId: string, displayName: string)

  /** What a scan finds for a source: whether it is installed, its files, and what is left out. */
  datatype Found = Found(detected: bool, files: seq<Indexed>, excluded: seq<Excluded>)

  type Scan = string -> Found

  /** What is shown of one source. */
  datatype Row = Row(
    sourceId: string,
    productId: string,
    displayName: string,
    detected: bool,
    fileCount: nat,
    excludedCount: nat,
    kinds: map<string, nat>)

  datatype Index = Index(sources: seq<Row>, files: seq<Indexed>, excluded: seq<Excluded>)

  /** The orders that the lists are sorted by. */
  datatype Ranking = Ranking(source: string -> int, file: string -> int, excluded: (string, string) -> int)

  // ---------------------------------------------------------------------
  // Orders and owners of the three lists.

  function FileKeyOf(r: Ranking): Indexed -> int {
    (c: Indexed) => r.file(c.archivePath)
  }

  function ExcludedKeyOf(r: Ranking): Excluded -> int {
    (e: Excluded) => r.excluded(e.sourceId, e.path)
  }

  function RowKeyOf(r: Ranking): Row -> int {
    (row: Row) => r.source(row.sourceId)
  }

  function FileSource(): Indexed -> string {
    (c: Indexed) => c.key.sourceId
  }

  function ExcludedSource(): Excluded -> string {
    (e: Excluded) => e.sourceId
  }

  function RowSource(): Row -> string {
    (row: Row) => row.sourceId
  }

  // ---------------------------------------------------------------------
  // Planning and counting.

  function Ids(sources: seq<Source>): (r: seq<string>)
    ensures |r| == |sources| && forall k | 0 <= k < |r| :: r[k] == sources[k].id
  {
    seq(|sources|, k requires 0 <= k < |sources| => sources[k].id)
  }

  function FilesPart(scan: Scan, ids: seq<string>): string -> seq<Indexed> {
    id => if id in ids then scan(id).files else []
  }

  function ExcludedPart(scan: Scan, ids: seq<string>): string -> seq<Excluded> {
    id => if id in ids then scan(id).excluded else []
  }

  /** The plan for some sources: files in archive order, exclusions as they come. */
  function PlannedFiles(scan: Scan, r: Ranking, ids: seq<string>, chosen: seq<string>): seq<Indexed> {
    StableSort(FileKeyOf(r), FlatMap(FilesPart(scan, ids), chosen))
  }

  function PlannedExcluded(scan: Scan, ids: seq<string>, chosen: seq<string>): seq<Excluded> {
    FlatMap(ExcludedPart(scan, ids), chosen)
  }

  function CountKinds(counts: map<string, nat>, kinds: seq<string>): map<string, nat> {
    if kinds == [] then counts else
      var kind, front := kinds[|kinds| - 1], CountKinds(counts, kinds[..|kinds| - 1]);
      front[kind := (if kind in front then front[kind] else 0) + 1]
  }

  function KindCounts(files: seq<Indexed>): map<string, nat> {
    if files == [] then map[] else CountKinds(KindCounts(files[..|files| - 1]), files[|files| - 1].kinds)
  }

  /** How often a kind is given to one of the files. */
  function KindsOf(files: seq<Indexed>, kind: string): nat {
    if files == [] then 0
    else KindsOf(files[..|files| - 1], kind) + multiset(files[|files| - 1].kinds)[kind]
  }

  lemma {:induction false} KindsCount(counts: map<string, nat>, kinds: seq<string>, kind: string)
    ensures var after := CountKinds(counts, kinds);
      && (kind in after <==> kind in counts || kind in kinds)
      && (kind in after ==> after[kind] == (if kind in counts then counts[kind] else 0) + multiset(kinds)[kind])
  {
    if kinds != [] {
      var front, last := kinds[..|kinds| - 1], kinds[|kinds| - 1];
      KindsCount(counts, front, kind);
      assert kinds == front + [last];
    }
  }

  /** A row counts each kind of its files, and no other one. */
  lemma {:induction false} KindsCounted(files: seq<Indexed>, kind: string)
    ensures kind in KindCounts(files) <==> KindsOf(files, kind) > 0
    ensures kind in KindCounts(files) ==> KindCounts(files)[kind] == KindsOf(files, kind)
  {
    if files != [] {
      var front, last := files[..|files| - 1], files[|files| - 1];
      KindsCounted(front, kind);
      KindsCount(KindCounts(front), last.kinds, kind);
    }
  }

  function RowOf(source: Source, detected: bool, files: seq<Indexed>, excluded: seq<Excluded>): Row {
    var own, left := SliceOf(FileSource(), files, source.id), SliceOf(ExcludedSource(), excluded, source.id);
    Row(source.id, source.productId, source.displayName, detected, |own|, |left|, KindCounts(own))
  }

  function SourceOf(sources: seq<Source>, id: string): Option<Source> {
    if sources == [] then None
    else if sources[|sources| - 1].id == id then Some(sources[|sources| - 1])
    else SourceOf(sources[..|sources| - 1], id)
  }

  /** The row of a source in a plan. */
  function PlannedRow(scan: Scan, sources: seq<Source>, files: seq<Indexed>, excluded: seq<Excluded>,
      id: string): (r: seq<Row>)
    ensures |r| <= 1
  {
    match SourceOf(sources, id)
    case None => []
    case Some(source) => [RowOf(source, scan(id).detected, files, excluded)]
  }

  function RowPart(scan: Scan, sources: seq<Source>, files: seq<Indexed>, excluded: seq<Excluded>): string -> seq<Row> {
    id => PlannedRow(scan, sources, files, excluded, id)
  }

  // ---------------------------------------------------------------------
  // Building the index.

  /** The last file of the old index with this key. */
  function Previous(files: seq<Indexed>, key: FileKey): Option<Indexed> {
    if files == [] then None
    else if files[|files| - 1].key == key then Some(files[|files| - 1])
    else Previous(files[..|files| - 1], key)
  }

  /** The hash of an unchanged file is carried over. */
  function Carried(before: seq<Indexed>): Indexed -> Indexed {
    (c: Indexed) =>
      var known := Previous(before, c.key);
      if known.Some? && known.value.sha.Some? && known.value.meta == c.meta then c.(sha := known.value.sha) else c
  }

  /** Everything is scanned. */
  function Rebuilt(scan: Scan, r: Ranking, sources: seq<Source>, before: Index): Index {
    var ids := Ids(sources);
    var files, excluded := PlannedFiles(scan, r, ids, ids), PlannedExcluded(scan, ids, ids);
    var rows := FlatMap(RowPart(scan, sources, files, excluded), ids);
    Index(StableSort(RowKeyOf(r), StableSort(RowKeyOf(r), rows)),
          StableSort(FileKeyOf(r), Map(Carried(before.files), files)),
          StableSort(ExcludedKeyOf(r), excluded))
  }

  /** One source is scanned, and only its part of the index is replaced. */
  function Refreshed(scan: Scan, r: Ranking, sources: seq<Source>, before: Index, id: string): Index {
    var ids := Ids(sources);
    var files, excluded := PlannedFiles(scan, r, ids, [id]), PlannedExcluded(scan, ids, [id]);
    var rows := PlannedRow(scan, sources, files, excluded, id);
    Index(Replaced(RowKeyOf(r), RowSource(), before.sources, id, StableSort(RowKeyOf(r), rows)),
          Replaced(FileKeyOf(r), FileSource(), before.files, id, Map(Carried(before.files), files)),
          Replaced(ExcludedKeyOf(r), ExcludedSource(), before.excluded, id, excluded))
  }

  function RefreshedAll(scan: Scan, r: Ranking, sources: seq<Source>, before: Index, order: seq<string>): Index {
    if order == [] then before
    else Refreshed(scan, r, sources, RefreshedAll(scan, r, sources, before, order[..|order| - 1]), order[|order| - 1])
  }

  // ---------------------------------------------------------------------
  // What is compared: everything but the remembered hashes.

  function Unhashed(): Indexed -> Indexed {
    (c: Indexed) => c.(sha := None)
  }

  function PlainFiles(files: seq<Indexed>): seq<Indexed> {
    Map(Unhashed(), files)
  }

  /** A scan reports its own files only, without hashes. */
  ghost predicate ProperScan(scan: Scan) {
    forall id :: AllOf(FileSource(), scan(id).files, id) && AllOf(ExcludedSource(), scan(id).excluded, id)
      && PlainFiles(scan(id).files) == scan(id).files
  }

  ghost predicate DistinctIds(sources: seq<Source>) {
    forall i, j | 0 <= i < j < |sources| :: sources[i].id != sources[j].id
  }

  lemma {:induction false} PlainCarried(before: seq<Indexed>, files: seq<Indexed>)
    ensures PlainFiles(Map(Carried(before), files)) == PlainFiles(files)
  {
  }

  lemma {:induction false} PlainSort(r: Ranking, files: seq<Indexed>)
    ensures PlainFiles(StableSort(FileKeyOf(r), files)) == StableSort(FileKeyOf(r), PlainFiles(files))
  {
    MapSort(Unhashed(), FileKeyOf(r), files);
  }

  lemma {:induction false} OnePart<T>(part: string -> seq<T>, id: string)
    ensures FlatMap(part, [id]) == part(id)
  {
    FlatMapOne(part, id);
  }

  lemma {:induction false} PlainParts(scan: Scan, ids: seq<string>, chosen: seq<string>)
    requires ProperScan(scan)
    ensures PlainFiles(FlatMap(FilesPart(scan, ids), chosen)) == FlatMap(FilesPart(scan, ids), chosen)
  {
    if chosen != [] {
      var front, last := chosen[..|chosen| - 1], chosen[|chosen| - 1];
      PlainParts(scan, ids, front);
      var a, b := FlatMap(FilesPart(scan, ids), front), FilesPart(scan, ids)(last);
      assert PlainFiles(a + b) == PlainFiles(a) + PlainFiles(b);
    }
  }

  /** Without hashes, the refreshed files are the old files with one slice replaced by the sorted scan. */
  lemma {:induction false} RefreshedFiles(scan: Scan, r: Ranking, sources: seq<Source>, before: Index, id: string)
    requires ProperScan(scan)
    ensures PlainFiles(Refreshed(scan, r, sources, before, id).files)
      == Replaced(FileKeyOf(r), FileSource(), PlainFiles(before.files), id,
        StableSort(FileKeyOf(r), FilesPart(scan, Ids(sources))(id)))
  {
    var files := PlannedFiles(scan, r, Ids(sources), [id]);
    OnePart(FilesPart(scan, Ids(sources)), id);
    MapReplaced(Unhashed(), FileKeyOf(r), FileSource(), before.files, id, Map(Carried(before.files), files));
    PlainCarried(before.files, files);
    PlainSort(r, FilesPart(scan, Ids(sources))(id));
  }

  // ---------------------------------------------------------------------
  // Files and exclusions, one source at a time.

  function SortedFilesPart(scan: Scan, r: Ranking, ids: seq<string>): string -> seq<Indexed> {
    id => StableSort(FileKeyOf(r), FilesPart(scan, ids)(id))
  }

  lemma {:induction false} FilesStepwise(scan: Scan, r: Ranking, sources: seq<Source>, before: Index,
      order: seq<string>)
    requires ProperScan(scan)
    ensures PlainFiles(RefreshedAll(scan, r, sources, before, order).files)
      == ReplacedAll(FileKeyOf(r), FileSource(), PlainFiles(before.files), order,
        SortedFilesPart(scan, r, Ids(sources)))
  {
    if order != [] {
      var front, last := order[..|order| - 1], order[|order| - 1];
      FilesStepwise(scan, r, sources, before, front);
      RefreshedFiles(scan, r, sources, RefreshedAll(scan, r, sources, before, front), last);
    }
  }

  lemma {:induction false} ExcludedStepwise(scan: Scan, r: Ranking, sources: seq<Source>, before: Index,
      order: seq<string>)
    ensures RefreshedAll(scan, r, sources, before, order).excluded
      == ReplacedAll(ExcludedKeyOf(r), ExcludedSource(), before.excluded, order, ExcludedPart(scan, Ids(sources)))
  {
    if order != [] {
      var front, last := order[..|order| - 1], order[|order| - 1];
      ExcludedStepwise(scan, r, sources, before, front);
      OnePart(ExcludedPart(scan, Ids(sources)), last);
    }
  }

  /** The sources themselves have different places. */
  ghost predicate RanksSources(r: Ranking, sources: seq<Source>) {
    forall i, j | 0 <= i < j < |sources| :: r.source(sources[i].id) != r.source(sources[j].id)
  }

  /** The orders tell the files, the exclusions and the rows of different sources apart. */
  ghost predicate TellsApart(scan: Scan, r: Ranking, sources: seq<Source>) {
    && NoCrossTies(FileKeyOf(r), FileSource(), FlatMap(FilesPart(scan, Ids(sources)), Ids(sources)))
    && NoCrossTies(ExcludedKeyOf(r), ExcludedSource(), FlatMap(ExcludedPart(scan, Ids(sources)), Ids(sources)))
    && RanksSources(r, sources)
  }

  lemma {:induction false} PartsOfSource(scan: Scan, r: Ranking, ids: seq<string>)
    requires ProperScan(scan)
    ensures forall id :: AllOf(FileSource(), FilesPart(scan, ids)(id), id)
    ensures forall id :: AllOf(FileSource(), SortedFilesPart(scan, r, ids)(id), id)
    ensures forall id :: AllOf(ExcludedSource(), ExcludedPart(scan, ids)(id), id)
  {
    forall id ensures AllOf(FileSource(), SortedFilesPart(scan, r, ids)(id), id) {
      SortFrom(FileKeyOf(r), FilesPart(scan, ids)(id));
    }
  }

  lemma {:induction false} SortedNothing(scan: Scan, r: Ranking, ids: seq<string>)
    ensures forall id | id !in ids :: SortedFilesPart(scan, r, ids)(id) == []
  {
    forall id: string | id !in ids ensures SortedFilesPart(scan, r, ids)(id) == [] {
      assert FilesPart(scan, ids)(id) == [];
    }
  }

  lemma {:induction false} FileSlices(scan: Scan, r: Ranking, sources: seq<Source>, before: Index, order: seq<string>)
    requires ProperScan(scan) && DistinctIds(sources)
    requires (forall id | id in Ids(sources) :: id in order)
      && (forall c | c in before.files :: c.key.sourceId in Ids(sources))
    ensures var a, b := PlainFiles(RefreshedAll(scan, r, sources, before, order).files),
      PlainFiles(Rebuilt(scan, r, sources, before).files);
      SameSlices(FileKeyOf(r), FileSource(), a, b)
  {
    var ids, key := Ids(sources), FileKeyOf(r);
    var part, sorted := FilesPart(scan, ids), SortedFilesPart(scan, r, ids);
    FilesStepwise(scan, r, sources, before, order);
    PartsOfSource(scan, r, ids);
    SortedNothing(scan, r, ids);
    SlicesOneAtATime(key, FileSource(), PlainFiles(before.files), order, sorted, ids);
    RebuiltFiles(scan, r, sources, before);
    SortSorted(key, FlatMap(part, ids));
    SortedParts(key, FileSource(), part, sorted, ids);
  }

  /** Both lists are in order, and every source has the same part in both: they differ at most in the order of ties. */
  ghost predicate SameSlices<T(!new)>(key: T -> int, src: T -> string, a: seq<T>, b: seq<T>) {
    Sorted(key, a) && Sorted(key, b) && forall s: string :: SliceOf(src, a, s) == SliceOf(src, b, s)
  }

  lemma {:induction false} RebuiltFiles(scan: Scan, r: Ranking, sources: seq<Source>, before: Index)
    requires ProperScan(scan)
    ensures PlainFiles(Rebuilt(scan, r, sources, before).files)
      == StableSort(FileKeyOf(r), FlatMap(FilesPart(scan, Ids(sources)), Ids(sources)))
  {
    var ids := Ids(sources);
    var all := FlatMap(FilesPart(scan, ids), ids);
    PlainSort(r, Map(Carried(before.files), StableSort(FileKeyOf(r), all)));
    PlainCarried(before.files, StableSort(FileKeyOf(r), all));
    PlainSort(r, all);
    PlainParts(scan, ids, ids);
    SortSorted(FileKeyOf(r), all);
    SortOfSorted(FileKeyOf(r), StableSort(FileKeyOf(r), all));
  }

  lemma {:induction false} ExcludedSlices(scan: Scan, r: Ranking, sources: seq<Source>, before: Index,
      order: seq<string>)
    requires ProperScan(scan) && DistinctIds(sources)
    requires (forall id | id in Ids(sources) :: id in order)
      && (forall e | e in before.excluded :: e.sourceId in Ids(sources))
    ensures SameSlices(ExcludedKeyOf(r), ExcludedSource(), RefreshedAll(scan, r, sources, before, order).excluded,
      Rebuilt(scan, r, sources, before).excluded)
  {
    var ids := Ids(sources);
    ExcludedStepwise(scan, r, sources, before, order);
    PartsOfSource(scan, r, ids);
    SlicesOneAtATime(ExcludedKeyOf(r), ExcludedSource(), before.excluded, order, ExcludedPart(scan, ids), ids);
  }

  // ---------------------------------------------------------------------
  // Rows, one source at a time.

  /** The row of a source when only that source is planned. */
  function OwnRow(scan: Scan, r: Ranking, sources: seq<Source>, id: string): (rows: seq<Row>)
    ensures |rows| <= 1
  {
    PlannedRow(scan, sources, PlannedFiles(scan, r, Ids(sources), [id]), PlannedExcluded(scan, Ids(sources), [id]), id)
  }

  function OwnRowPart(scan: Scan, r: Ranking, sources: seq<Source>): string -> seq<Row> {
    id => OwnRow(scan, r, sources, id)
  }

  lemma {:induction false} SourceFound(sources: seq<Source>, id: string)
    ensures SourceOf(sources, id).Some? <==> id in Ids(sources)
    ensures SourceOf(sources, id).Some? ==> SourceOf(sources, id).value.id == id
  {
    if sources != [] {
      var front, last := sources[..|sources| - 1], sources[|sources| - 1];
      SourceFound(front, id);
      assert Ids(sources) == Ids(front) + [last.id];
    }
  }

  /** A source has the same slices in every plan that it is part of. */
  lemma {:induction false} SlicesInPlans(scan: Scan, r: Ranking, ids: seq<string>, id: string)
    requires ProperScan(scan) && id in ids && forall i, j | 0 <= i < j < |ids| :: ids[i] != ids[j]
    ensures SliceOf(FileSource(), PlannedFiles(scan, r, ids, ids), id) == PlannedFiles(scan, r, ids, [id])
    ensures SliceOf(FileSource(), PlannedFiles(scan, r, ids, [id]), id) == PlannedFiles(scan, r, ids, [id])
    ensures SliceOf(ExcludedSource(), PlannedExcluded(scan, ids, ids), id) == PlannedExcluded(scan, ids, [id])
    ensures SliceOf(ExcludedSource(), PlannedExcluded(scan, ids, [id]), id) == PlannedExcluded(scan, ids, [id])
  {
    PartsOfSource(scan, r, ids);
    FullSlice(FileKeyOf(r), FileSource(), FilesPart(scan, ids), ids, id);
    FullSlice(FileKeyOf(r), FileSource(), FilesPart(scan, ids), [id], id);
    SliceOfParts(ExcludedSource(), ExcludedPart(scan, ids), ids, id);
    SliceOfParts(ExcludedSource(), ExcludedPart(scan, ids), [id], id);
    OnePart(FilesPart(scan, ids), id);
    OnePart(ExcludedPart(scan, ids), id);
  }

  lemma {:induction false} SameRowInPlans(scan: Scan, r: Ranking, sources: seq<Source>, id: string)
    requires ProperScan(scan) && DistinctIds(sources)
    ensures var ids := Ids(sources);
      PlannedRow(scan, sources, PlannedFiles(scan, r, ids, ids), PlannedExcluded(scan, ids, ids), id)
        == OwnRow(scan, r, sources, id)
  {
    SourceFound(sources, id);
    if id in Ids(sources) {
      SlicesInPlans(scan, r, Ids(sources), id);
    }
  }

  lemma {:induction false} SortAtMostOne<T>(key: T -> int, s: seq<T>)
    requires |s| <= 1
    ensures StableSort(key, s) == s
  {
    SortOfSorted(key, s);
  }

  lemma {:induction false} RowsStepwise(scan: Scan, r: Ranking, sources: seq<Source>, before: Index, order: seq<string>)
    ensures RefreshedAll(scan, r, sources, before, order).sources
      == ReplacedAll(RowKeyOf(r), RowSource(), before.sources, order, OwnRowPart(scan, r, sources))
  {
    if order != [] {
      var front, last := order[..|order| - 1], order[|order| - 1];
      RowsStepwise(scan, r, sources, before, front);
      SortAtMostOne(RowKeyOf(r), OwnRow(scan, r, sources, last));
    }
  }

  lemma {:induction false} OwnRowOf(scan: Scan, r: Ranking, sources: seq<Source>, id: string)
    ensures forall row | row in OwnRow(scan, r, sources, id) :: row.sourceId == id
    ensures id !in Ids(sources) ==> OwnRow(scan, r, sources, id) == []
  {
    SourceFound(sources, id);
  }

  lemma {:induction false} OwnRows(scan: Scan, r: Ranking, sources: seq<Source>)
    ensures forall id :: AllOf(RowSource(), OwnRowPart(scan, r, sources)(id), id)
    ensures forall id | id !in Ids(sources) :: OwnRowPart(scan, r, sources)(id) == []
  {
    forall id: string
      ensures AllOf(RowSource(), OwnRowPart(scan, r, sources)(id), id)
      ensures id !in Ids(sources) ==> OwnRowPart(scan, r, sources)(id) == []
    {
      OwnRowOf(scan, r, sources, id);
      assert OwnRowPart(scan, r, sources)(id) == OwnRow(scan, r, sources, id);
    }
  }

  lemma {:induction false} RowsFrom(scan: Scan, r: Ranking, sources: seq<Source>, chosen: seq<string>)
    ensures forall row | row in FlatMap(OwnRowPart(scan, r, sources), chosen) :: row.sourceId in Ids(sources)
  {
    if chosen != [] {
      var front, last := chosen[..|chosen| - 1], chosen[|chosen| - 1];
      RowsFrom(scan, r, sources, front);
      OwnRowOf(scan, r, sources, last);
      assert OwnRowPart(scan, r, sources)(last) == OwnRow(scan, r, sources, last);
    }
  }

  lemma {:induction false} RowsTellApart(scan: Scan, r: Ranking, sources: seq<Source>)
    requires RanksSources(r, sources)
    ensures NoCrossTies(RowKeyOf(r), RowSource(), FlatMap(OwnRowPart(scan, r, sources), Ids(sources)))
  {
    var rows := FlatMap(OwnRowPart(scan, r, sources), Ids(sources));
    RowsFrom(scan, r, sources, Ids(sources));
    forall x, y | x in rows && y in rows && RowSource()(x) != RowSource()(y) ensures RowKeyOf(r)(x) != RowKeyOf(r)(y) {
      var i :| 0 <= i < |sources| && Ids(sources)[i] == x.sourceId;
      var j :| 0 <= j < |sources| && Ids(sources)[j] == y.sourceId;
      assert i != j;
    }
  }

  lemma {:induction false} RebuiltRows(scan: Scan, r: Ranking, sources: seq<Source>, before: Index)
    requires ProperScan(scan) && DistinctIds(sources)
    ensures Rebuilt(scan, r, sources, before).sources
      == StableSort(RowKeyOf(r), FlatMap(OwnRowPart(scan, r, sources), Ids(sources)))
  {
    var ids, key, own := Ids(sources), RowKeyOf(r), OwnRowPart(scan, r, sources);
    var all := RowPart(scan, sources, PlannedFiles(scan, r, ids, ids), PlannedExcluded(scan, ids, ids));
    forall k | 0 <= k < |ids| ensures all(ids[k]) == own(ids[k]) {
      SameRowInPlans(scan, r, sources, ids[k]);
    }
    FlatMapSame(all, own, ids);
    SortSorted(key, FlatMap(all, ids));
    SortOfSorted(key, StableSort(key, FlatMap(all, ids)));
  }

  lemma {:induction false} RowSlices(scan: Scan, r: Ranking, sources: seq<Source>, before: Index, order: seq<string>)
    requires ProperScan(scan) && DistinctIds(sources)
    requires (forall id | id in Ids(sources) :: id in order)
      && (forall row | row in before.sources :: row.sourceId in Ids(sources))
    ensures SameSlices(RowKeyOf(r), RowSource(), RefreshedAll(scan, r, sources, before, order).sources,
      Rebuilt(scan, r, sources, before).sources)
  {
    RowsStepwise(scan, r, sources, before, order);
    OwnRows(scan, r, sources);
    RebuiltRows(scan, r, sources, before);
    SlicesOneAtATime(RowKeyOf(r), RowSource(), before.sources, order, OwnRowPart(scan, r, sources), Ids(sources));
  }

  /** An index over the registered sources only. */
  predicate Over(index: Index, ids: seq<string>) {
    && (forall row | row in index.sources :: row.sourceId in ids)
    && (forall c | c in index.files :: c.key.sourceId in ids)
    && (forall e | e in index.excluded :: e.sourceId in ids)
  }

  /**
   * Over a file system that does not change, refreshing the sources one at a time, in
   * any order that reaches all of them and from any index over them, gives every source
   * the same row, files and exclusions as scanning everything at once.
   */
  lemma {:induction false} IncrementalBySource(scan: Scan, r: Ranking, sources: seq<Source>, before: Index,
      order: seq<string>)
    requires ProperScan(scan) && DistinctIds(sources) && Over(before, Ids(sources))
    requires forall id | id in Ids(sources) :: id in order
    ensures var refreshed, rebuilt := RefreshedAll(scan, r, sources, before, order), Rebuilt(scan, r, sources, before);
      && SameSlices(RowKeyOf(r), RowSource(), refreshed.sources, rebuilt.sources)
      && SameSlices(FileKeyOf(r), FileSource(), PlainFiles(refreshed.files), PlainFiles(rebuilt.files))
      && SameSlices(ExcludedKeyOf(r), ExcludedSource(), refreshed.excluded, rebuilt.excluded)
  {
    FileSlices(scan, r, sources, before, order);
    ExcludedSlices(scan, r, sources, before, order);
    RowSlices(scan, r, sources, before, order);
  }

  lemma {:induction false} TiesOfRebuilt(scan: Scan, r: Ranking, sources: seq<Source>, before: Index)
    requires ProperScan(scan) && DistinctIds(sources) && TellsApart(scan, r, sources)
    ensures var rebuilt := Rebuilt(scan, r, sources, before);
      && NoCrossTies(RowKeyOf(r), RowSource(), rebuilt.sources)
      && NoCrossTies(FileKeyOf(r), FileSource(), PlainFiles(rebuilt.files))
      && NoCrossTies(ExcludedKeyOf(r), ExcludedSource(), rebuilt.excluded)
  {
    var ids := Ids(sources);
    RebuiltRows(scan, r, sources, before);
    RowsTellApart(scan, r, sources);
    TiesOfSorted(RowKeyOf(r), RowSource(), FlatMap(OwnRowPart(scan, r, sources), ids));
    RebuiltFiles(scan, r, sources, before);
    TiesOfSorted(FileKeyOf(r), FileSource(), FlatMap(FilesPart(scan, ids), ids));
    TiesOfSorted(ExcludedKeyOf(r), ExcludedSource(), FlatMap(ExcludedPart(scan, ids), ids));
  }

  /** When the orders tell the sources apart, the index itself is the same, but for remembered hashes. */
  lemma {:induction false} IncrementalIsFull(scan: Scan, r: Ranking, sources: seq<Source>, before: Index,
      order: seq<string>)
    requires ProperScan(scan) && DistinctIds(sources) && TellsApart(scan, r, sources) && Over(before, Ids(sources))
    requires forall id | id in Ids(sources) :: id in order
    ensures var refreshed, rebuilt := RefreshedAll(scan, r, sources, before, order), Rebuilt(scan, r, sources, before);
      && refreshed.sources == rebuilt.sources
      && PlainFiles(refreshed.files) == PlainFiles(rebuilt.files)
      && refreshed.excluded == rebuilt.excluded
  {
    var refreshed, rebuilt := RefreshedAll(scan, r, sources, before, order), Rebuilt(scan, r, sources, before);
    IncrementalBySource(scan, r, sources, before, order);
    TiesOfRebuilt(scan, r, sources, before);
    SlicesDetermine(RowKeyOf(r), RowSource(), rebuilt.sources, refreshed.sources);
    SlicesDetermine(FileKeyOf(r), FileSource(), PlainFiles(rebuilt.files), PlainFiles(refreshed.files));
    SlicesDetermine(ExcludedKeyOf(r), ExcludedSource(), rebuilt.excluded, refreshed.excluded);
  }
}
