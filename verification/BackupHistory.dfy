/** Whole runs of the backup service: what cached hashes are worth. */
module BackupHistory {
  import opened Prelude
  import opened StableSorting
  import opened SortedSlices
  import opened BackupVault
  import opened BackupIndex
  import opened BackupRefresh

  datatype State = State(vault: Vault, index: Index)

  datatype Deed =
    | Create(scope: Scope, id: string, createdAt: string, glances: nat -> Glance)
    | Import(upload: Upload)
    | Refresh(scan: Scan, sources: seq<Source>, id: string)
    | Rebuild(scan: Scan, sources: seq<Source>)

  function StoreOf(st: State): Store {
    Store(st.vault, Inventory(st.index.files, st.index.excluded))
  }

  function Step(h: Hashing, rank: Rank, r: Ranking, st: State, deed: Deed): State {
    match deed
    case Create(scope, id, createdAt, glances) =>
      var after := Created(h, rank, StoreOf(st), scope, id, createdAt, glances).0;
      State(after.vault, st.index.(files := after.inventory.files))
    case Import(upload) => st.(vault := Imported(h, st.vault, upload).0)
    case Refresh(scan, sources, id) => st.(index := Refreshed(scan, r, sources, st.index, id))
    case Rebuild(scan, sources) => st.(index := Rebuilt(scan, r, sources, st.index))
  }

  function Run(h: Hashing, rank: Rank, r: Ranking, st: State, deeds: seq<Deed>): State {
    if deeds == [] then st else Step(h, rank, r, Run(h, rank, r, st, deeds[..|deeds| - 1]), deeds[|deeds| - 1])
  }

  // ---------------------------------------------------------------------
  // What is assumed of the files.

  /** The content that goes with a state of a file, and the kinds of each file, which never change. */
  datatype World = World(content: (string, Meta) -> Bytes, kinds: FileKey -> seq<string>)

  /** Size and times determine the content. */
  predicate TrueDisk(w: World, disk: Disk) {
    forall path | path in disk && disk[path].FileNode? && disk[path].content.Some? ::
      disk[path].content.value == w.content(path, disk[path].meta) && |disk[path].content.value| == disk[path].meta.size
  }

  /** Both disks are true, and no file is edited between the two looks at it. */
  ghost predicate TrueGlance(w: World, g: Glance) {
    TrueDisk(w, g.read) && forall path :: Steady(g, path)
  }

  predicate TrueKinds(w: World, files: seq<Indexed>) {
    forall k | 0 <= k < |files| :: files[k].kinds == w.kinds(files[k].key)
  }

  /** A scan reports its own files, without hashes, with their kinds and under acceptable archive paths. */
  ghost predicate TrueScan(h: Hashing, w: World, scan: Scan) {
    ProperScan(scan) && forall id :: TrueKinds(w, scan(id).files) && SafeIndex(h, scan(id).files)
  }

  ghost predicate TrueDeed(h: Hashing, w: World, deed: Deed) {
    match deed
    case Create(_, _, _, glances) => forall i: nat :: TrueGlance(w, glances(i))
    case Import(_) => true
    case Refresh(scan, _, _) => TrueScan(h, w, scan)
    case Rebuild(scan, _) => TrueScan(h, w, scan)
  }

  predicate TrueLook(w: World, look: Look) {
    && look.bytes == w.content(look.key.path, look.meta) && |look.bytes| == look.meta.size
    && look.kinds == w.kinds(look.key)
  }

  ghost predicate TrueLooks(w: World, looks: seq<Look>) {
    forall look | look in looks :: TrueLook(w, look)
  }

  /** Snapshots verify, and every cached hash is that of the content that goes with the indexed state. */
  ghost predicate Trustworthy(h: Hashing, w: World, st: State, looks: seq<Look>) {
    && Healthy(h, st.vault)
    && SafeIndex(h, st.index.files)
    && TrueKinds(w, st.index.files)
    && TrueLooks(w, looks)
    && Remembered(h, looks, st.index.files)
  }

  // ---------------------------------------------------------------------
  // Every step keeps that.

  lemma {:induction false} LookIsTrue(w: World, g: Glance, look: Look)
    requires TrueGlance(w, g) && SeenIn(g, look) && look.kinds == w.kinds(look.key)
    ensures TrueLook(w, look)
  {
    assert Steady(g, look.key.path);
  }

  lemma {:induction false} KindsFrom(w: World, files: seq<Indexed>, from: seq<Indexed>)
    requires TrueKinds(w, from) && forall c | c in files :: c in from
    ensures TrueKinds(w, files)
  {
    forall k | 0 <= k < |files| ensures files[k].kinds == w.kinds(files[k].key) {
      assert files[k] in from;
    }
  }

  lemma {:induction false} RememberedFrom(h: Hashing, looks: seq<Look>, files: seq<Indexed>, more: seq<Look>)
    requires Remembered(h, looks, files)
    ensures Remembered(h, looks + more, files)
  {
    forall c | c in files && c.sha.Some? ensures Supported(h, looks + more, c.key, c.meta, c.sha.value) {
      MoreLooks(h, looks, more, c.key, c.meta, c.sha.value);
    }
  }

  lemma {:induction false} LooksAreTrue(w: World, glances: nat -> Glance, files: seq<Indexed>, more: seq<Look>)
    requires TrueKinds(w, files) && forall i: nat :: TrueGlance(w, glances(i))
    requires forall look | look in more :: LookedAt(glances, files, look)
    ensures TrueLooks(w, more)
  {
    forall look | look in more ensures TrueLook(w, look) {
      var i: nat :| i < |files| && SeenIn(glances(i), look) && files[i].key == look.key && files[i].kinds == look.kinds;
      LookIsTrue(w, glances(i), look);
    }
  }

  /** The index after a creation: as before, or with the fresh hashes. */
  lemma {:induction false} CreatedFiles(h: Hashing, rank: Rank, s: Store, scope: Scope, id: string, createdAt: string,
                                         glances: nat -> Glance)
    ensures var files := Created(h, rank, s, scope, id, createdAt, glances).0.inventory.files;
      var start := Draft([], SelectedExcluded(scope, s.inventory), map[]);
      var taken := TakeFiles(h, s.vault.blobs, glances, start, SelectedFiles(scope, s.inventory)).1;
      files == s.inventory.files || (taken.Ok? && files == ApplyUpdates(taken.value.updates, s.inventory.files))
  {
  }

  lemma {:induction false} CreateRemembers(h: Hashing, rank: Rank, w: World, s: Store, looks: seq<Look>,
                                            scope: Scope, id: string, createdAt: string, glances: nat -> Glance)
    returns (more: seq<Look>)
    requires TrueKinds(w, s.inventory.files) && Remembered(h, looks, s.inventory.files)
    requires forall i: nat :: TrueGlance(w, glances(i))
    ensures var files := Created(h, rank, s, scope, id, createdAt, glances).0.inventory.files;
      TrueLooks(w, more) && TrueKinds(w, files) && Remembered(h, looks + more, files)
  {
    var files, start := SelectedFiles(scope, s.inventory), Draft([], SelectedExcluded(scope, s.inventory), map[]);
    SelectedKinds(w, scope, s.inventory);
    more := TakeFilesNoted(h, s.vault.blobs, glances, start, files, looks);
    LooksAreTrue(w, glances, files, more);
    RememberedFrom(h, looks, s.inventory.files, more);
    CreatedFiles(h, rank, s, scope, id, createdAt, glances);
    var taken := TakeFiles(h, s.vault.blobs, glances, start, files).1;
    if taken.Ok? {
      UpdatesRemembered(h, looks + more, taken.value.updates, s.inventory.files);
      UpdatesKeepKinds(w, taken.value.updates, s.inventory.files);
    }
  }

  lemma {:induction false} SelectedKinds(w: World, scope: Scope, inventory: Inventory)
    requires TrueKinds(w, inventory.files)
    ensures TrueKinds(w, SelectedFiles(scope, inventory))
  {
    FilterFrom((c: Indexed) => Selected(scope, c.key.sourceId, c.kinds), inventory.files);
    KindsFrom(w, SelectedFiles(scope, inventory), inventory.files);
  }

  lemma {:induction false} CreateKeeps(h: Hashing, rank: Rank, w: World, st: State, looks: seq<Look>,
                                        scope: Scope, id: string, createdAt: string, glances: nat -> Glance)
    returns (after: seq<Look>)
    requires Reliable(h) && Trustworthy(h, w, st, looks) && forall i: nat :: TrueGlance(w, glances(i))
    ensures var created := Created(h, rank, StoreOf(st), scope, id, createdAt, glances).0;
      Trustworthy(h, w, State(created.vault, st.index.(files := created.inventory.files)), after)
  {
    CreatedHealthy(h, rank, StoreOf(st), scope, id, createdAt, glances);
    CreatedSafe(h, rank, StoreOf(st), scope, id, createdAt, glances);
    var more := CreateRemembers(h, rank, w, StoreOf(st), looks, scope, id, createdAt, glances);
    after := looks + more;
  }

  lemma {:induction false} UpdatesKeepKinds(w: World, updates: map<FileKey, HashUpdate>, files: seq<Indexed>)
    requires TrueKinds(w, files)
    ensures TrueKinds(w, ApplyUpdates(updates, files))
  {
  }

  lemma {:induction false} PlannedTrue(h: Hashing, w: World, scan: Scan, r: Ranking, ids: seq<string>,
      chosen: seq<string>)
    requires TrueScan(h, w, scan)
    ensures TrueKinds(w, PlannedFiles(scan, r, ids, chosen)) && SafeIndex(h, PlannedFiles(scan, r, ids, chosen))
  {
    var all := FlatMap(FilesPart(scan, ids), chosen);
    PartsTrue(h, w, scan, ids, chosen);
    SortFrom(FileKeyOf(r), all);
    KindsFrom(w, PlannedFiles(scan, r, ids, chosen), all);
  }

  lemma {:induction false} PartsTrue(h: Hashing, w: World, scan: Scan, ids: seq<string>, chosen: seq<string>)
    requires TrueScan(h, w, scan)
    ensures TrueKinds(w, FlatMap(FilesPart(scan, ids), chosen)) && SafeIndex(h, FlatMap(FilesPart(scan, ids), chosen))
  {
    if chosen != [] {
      PartsTrue(h, w, scan, ids, chosen[..|chosen| - 1]);
      var last := chosen[|chosen| - 1];
      assert TrueKinds(w, scan(last).files) && SafeIndex(h, scan(last).files);
    }
  }

  lemma {:induction false} CarriedTrue(h: Hashing, w: World, before: seq<Indexed>, files: seq<Indexed>)
    requires TrueKinds(w, files) && SafeIndex(h, files)
    ensures TrueKinds(w, Map(Carried(before), files)) && SafeIndex(h, Map(Carried(before), files))
  {
    var carried := Map(Carried(before), files);
    forall c | c in carried ensures h.safe(c.archivePath).Some? {
      var k :| 0 <= k < |files| && carried[k] == c;
      assert files[k] in files;
    }
  }

  lemma {:induction false} RefreshKeeps(h: Hashing, w: World, r: Ranking, st: State, looks: seq<Look>, scan: Scan,
                                         sources: seq<Source>, id: string)
    requires Trustworthy(h, w, st, looks) && TrueScan(h, w, scan)
    ensures Trustworthy(h, w, st.(index := Refreshed(scan, r, sources, st.index, id)), looks)
  {
    var planned := PlannedFiles(scan, r, Ids(sources), [id]);
    var kept, carried := Filter(NotOf(FileSource(), id), st.index.files), Map(Carried(st.index.files), planned);
    RefreshedRemembers(h, looks, scan, r, sources, st.index, id);
    PlannedTrue(h, w, scan, r, Ids(sources), [id]);
    CarriedTrue(h, w, st.index.files, planned);
    FilterFrom(NotOf(FileSource(), id), st.index.files);
    KindsFrom(w, kept, st.index.files);
    SortFrom(FileKeyOf(r), kept + carried);
    KindsFrom(w, Refreshed(scan, r, sources, st.index, id).files, kept + carried);
  }

  lemma {:induction false} RebuildKeeps(h: Hashing, w: World, r: Ranking, st: State, looks: seq<Look>, scan: Scan,
                                         sources: seq<Source>)
    requires Trustworthy(h, w, st, looks) && TrueScan(h, w, scan)
    ensures Trustworthy(h, w, st.(index := Rebuilt(scan, r, sources, st.index)), looks)
  {
    var ids := Ids(sources);
    var planned := PlannedFiles(scan, r, ids, ids);
    var carried := Map(Carried(st.index.files), planned);
    PlannedUnhashed(scan, r, ids, ids);
    CarriedRemembered(h, looks, st.index.files, planned);
    PlannedTrue(h, w, scan, r, ids, ids);
    CarriedTrue(h, w, st.index.files, planned);
    SortFrom(FileKeyOf(r), carried);
    KindsFrom(w, Rebuilt(scan, r, sources, st.index).files, carried);
  }

  lemma {:induction false} DeedKeeps(h: Hashing, rank: Rank, r: Ranking, w: World, st: State, looks: seq<Look>,
      deed: Deed)
    returns (after: seq<Look>)
    requires Reliable(h) && Trustworthy(h, w, st, looks) && TrueDeed(h, w, deed)
    ensures Trustworthy(h, w, Step(h, rank, r, st, deed), after)
  {
    after := looks;
    match deed {
      case Create(scope, id, createdAt, glances) =>
        after := CreateKeeps(h, rank, w, st, looks, scope, id, createdAt, glances);
      case Import(upload) => ImportedHealthy(h, st.vault, upload);
      case Refresh(scan, sources, id) => RefreshKeeps(h, w, r, st, looks, scan, sources, id);
      case Rebuild(scan, sources) => RebuildKeeps(h, w, r, st, looks, scan, sources);
    }
  }

  /** What is remembered after the run is sound, by these looks. */
  ghost predicate SoundAfter(h: Hashing, rank: Rank, r: Ranking, w: World, st: State, deeds: seq<Deed>,
                             looks: seq<Look>)
  {
    Trustworthy(h, w, Run(h, rank, r, st, deeds), looks)
  }

  lemma {:induction false} SoundNext(h: Hashing, rank: Rank, r: Ranking, w: World, st: State, deeds: seq<Deed>,
      looks: seq<Look>)
    returns (after: seq<Look>)
    requires Reliable(h) && deeds != [] && TrueDeed(h, w, deeds[|deeds| - 1])
    requires SoundAfter(h, rank, r, w, st, deeds[..|deeds| - 1], looks)
    ensures SoundAfter(h, rank, r, w, st, deeds, after)
  {
    after := DeedKeeps(h, rank, r, w, Run(h, rank, r, st, deeds[..|deeds| - 1]), looks, deeds[|deeds| - 1]);
  }

  lemma {:induction false} RunsStaySound(h: Hashing, rank: Rank, r: Ranking, w: World, st: State, looks: seq<Look>,
      deeds: seq<Deed>)
    returns (after: seq<Look>)
    requires Reliable(h) && Trustworthy(h, w, st, looks) && forall k | 0 <= k < |deeds| :: TrueDeed(h, w, deeds[k])
    ensures SoundAfter(h, rank, r, w, st, deeds, after)
  {
    after := looks;
    if deeds != [] {
      after := RunsStaySound(h, rank, r, w, st, looks, deeds[..|deeds| - 1]);
      after := SoundNext(h, rank, r, w, st, deeds, after);
    }
  }

  /**
   * On every run of creations, imports, refreshes and rebuilds, each cached hash goes
   * back to a look that read the content which goes with the indexed state.
   */
  lemma {:induction false} RunsStayTrustworthy(h: Hashing, rank: Rank, r: Ranking, w: World, st: State,
      looks: seq<Look>, deeds: seq<Deed>)
    returns (after: seq<Look>)
    requires Reliable(h) && Trustworthy(h, w, st, looks) && forall k | 0 <= k < |deeds| :: TrueDeed(h, w, deeds[k])
    ensures Trustworthy(h, w, Run(h, rank, r, st, deeds), after)
  {
    after := RunsStaySound(h, rank, r, w, st, looks, deeds);
  }

  // ---------------------------------------------------------------------
  // Taking files by their cached hashes, and by reading all of them.

  /** A file whose state could be asked for can be read. */
  predicate Legible(g: Glance) {
    forall path | path in g.stat && g.stat[path].FileNode? :: ReadOf(g.read, path).Some?
  }

  predicate SameEntries(a: Result<Draft, VaultError>, b: Result<Draft, VaultError>) {
    match a
    case Err(error) => b == Err(error)
    case Ok(draft) => b.Ok? && b.value.files == draft.files && b.value.excluded == draft.excluded
  }

  lemma {:induction false} RereadAlike(h: Hashing, blobs: Blobs, g: Glance, draft: Draft, c: Indexed)
    requires !Examine(h, blobs, g, c).Reused?
    ensures var cached, reread := TakeFile(h, blobs, g, draft, c), TakeFile(h, blobs, g, draft, c.(sha := None));
      cached.0 == reread.0 && SameEntries(cached.1, reread.1)
  {
    assert Examine(h, blobs, g, c) == Examine(h, blobs, g, c.(sha := None));
  }

  lemma {:induction false} TrueContent(h: Hashing, w: World, looks: seq<Look>, g: Glance, c: Indexed)
    returns (bytes: Bytes)
    requires TrueGlance(w, g) && Legible(g) && c.key.path in g.stat && g.stat[c.key.path].FileNode?
    requires g.stat[c.key.path].meta == c.meta && c.sha.Some? && c.kinds == w.kinds(c.key)
    requires TrueLooks(w, looks) && Supported(h, looks, c.key, c.meta, c.sha.value)
    ensures ReadOf(g.read, c.key.path) == Some(bytes) && h.sha(bytes) == c.sha.value && |bytes| == c.meta.size
    ensures h.sensitive(c.key.path, c.kinds, bytes) == None
  {
    var look :| look in looks && Supports(h, look, c.key, c.meta, c.sha.value);
    assert Steady(g, c.key.path) && TrueLook(w, look);
    bytes := look.bytes;
  }

  /** A cached hash that goes back to a true look stands for rehashing the file. */
  lemma {:induction false} CachedAsRehashed(h: Hashing, w: World, looks: seq<Look>, blobs: Blobs, g: Glance,
      draft: Draft, c: Indexed)
    requires Reliable(h) && Sound(h, blobs) && TrueGlance(w, g) && Legible(g) && c.kinds == w.kinds(c.key)
    requires TrueLooks(w, looks) && (c.sha.Some? ==> Supported(h, looks, c.key, c.meta, c.sha.value))
    ensures var cached, reread := TakeFile(h, blobs, g, draft, c), TakeFile(h, blobs, g, draft, c.(sha := None));
      cached.0 == reread.0 && SameEntries(cached.1, reread.1)
  {
    if Examine(h, blobs, g, c).Reused? {
      var bytes := TrueContent(h, w, looks, g, c);
      CachedExact(h, blobs, g, draft, c, bytes);
    } else {
      RereadAlike(h, blobs, g, draft, c);
    }
  }

  lemma {:induction false} DraftsAlike(h: Hashing, blobs: Blobs, g: Glance, a: Draft, b: Draft, c: Indexed)
    requires a.files == b.files && a.excluded == b.excluded
    ensures TakeFile(h, blobs, g, a, c).0 == TakeFile(h, blobs, g, b, c).0
    ensures SameEntries(TakeFile(h, blobs, g, a, c).1, TakeFile(h, blobs, g, b, c).1)
  {
  }

  lemma {:induction false} TakeFilesSnoc(h: Hashing, blobs: Blobs, glances: nat -> Glance, start: Draft,
      front: seq<Indexed>, c: Indexed)
    ensures var (before, taken) := TakeFiles(h, blobs, glances, start, front);
      TakeFiles(h, blobs, glances, start, front + [c])
        == if taken.Err? then (before, taken) else TakeFile(h, before, glances(|front|), taken.value, c)
  {
    assert (front + [c])[..|front|] == front;
  }

  ghost predicate TrustedHash(h: Hashing, w: World, looks: seq<Look>, c: Indexed) {
    c.kinds == w.kinds(c.key) && (c.sha.Some? ==> Supported(h, looks, c.key, c.meta, c.sha.value))
  }

  ghost predicate AllTrusted(h: Hashing, w: World, looks: seq<Look>, files: seq<Indexed>) {
    forall k | 0 <= k < |files| :: TrustedHash(h, w, looks, files[k])
  }

  /** While the files are taken, none is edited between the looks at it, and all can be read. */
  ghost predicate Undisturbed(w: World, glances: nat -> Glance) {
    forall i: nat :: TrueGlance(w, glances(i)) && Legible(glances(i))
  }

  lemma {:induction false} OneMoreAlike(h: Hashing, w: World, looks: seq<Look>, blobs: Blobs, g: Glance, x: Draft,
      y: Draft, c: Indexed)
    requires Reliable(h) && Sound(h, blobs) && TrueGlance(w, g) && Legible(g)
    requires TrueLooks(w, looks) && TrustedHash(h, w, looks, c)
    requires x.files == y.files && x.excluded == y.excluded
    ensures var cached, reread := TakeFile(h, blobs, g, x, c), TakeFile(h, blobs, g, y, c.(sha := None));
      cached.0 == reread.0 && SameEntries(cached.1, reread.1)
  {
    CachedAsRehashed(h, w, looks, blobs, g, x, c);
    DraftsAlike(h, blobs, g, x, y, c.(sha := None));
  }

  predicate SameTaken(a: (Blobs, Result<Draft, VaultError>), b: (Blobs, Result<Draft, VaultError>)) {
    a.0 == b.0 && SameEntries(a.1, b.1)
  }

  lemma {:induction false} TakenNext(h: Hashing, w: World, looks: seq<Look>, blobs: Blobs, glances: nat -> Glance,
                                      start: Draft, front: seq<Indexed>, plain: seq<Indexed>, c: Indexed)
    requires Reliable(h) && Sound(h, blobs) && start.files == [] && Undisturbed(w, glances)
    requires TrueLooks(w, looks) && TrustedHash(h, w, looks, c) && |plain| == |front|
    requires SameTaken(TakeFiles(h, blobs, glances, start, front), TakeFiles(h, blobs, glances, start, plain))
    ensures SameTaken(TakeFiles(h, blobs, glances, start, front + [c]),
      TakeFiles(h, blobs, glances, start, plain + [c.(sha := None)]))
  {
    TakeFilesGrows(h, blobs, glances, start, front);
    TakeFilesSnoc(h, blobs, glances, start, front, c);
    TakeFilesSnoc(h, blobs, glances, start, plain, c.(sha := None));
    var (between, taken) := TakeFiles(h, blobs, glances, start, front);
    if taken.Ok? {
      OneMoreAlike(h, w, looks, between, glances(|front|), taken.value,
        TakeFiles(h, blobs, glances, start, plain).1.value, c);
    }
  }

  lemma {:induction false} TakenAsRehashed(h: Hashing, w: World, looks: seq<Look>, blobs: Blobs, glances: nat -> Glance,
                                            start: Draft, files: seq<Indexed>)
    requires Reliable(h) && Sound(h, blobs) && start.files == [] && Undisturbed(w, glances)
    requires TrueLooks(w, looks) && AllTrusted(h, w, looks, files)
    ensures SameTaken(TakeFiles(h, blobs, glances, start, files),
      TakeFiles(h, blobs, glances, start, PlainFiles(files)))
  {
    if files != [] {
      var n := |files| - 1;
      TakenAsRehashed(h, w, looks, blobs, glances, start, files[..n]);
      TakenNext(h, w, looks, blobs, glances, start, files[..n], PlainFiles(files[..n]), files[n]);
      LastPlain(files);
    }
  }

  lemma {:induction false} LastPlain(files: seq<Indexed>)
    requires files != []
    ensures var n := |files| - 1;
      files == files[..n] + [files[n]] && PlainFiles(files) == PlainFiles(files[..n]) + [files[n].(sha := None)]
  {
  }

  function Forgotten(st: State): State {
    st.(index := st.index.(files := PlainFiles(st.index.files)))
  }

  lemma {:induction false} SelectedPlain(scope: Scope, inventory: Inventory)
    ensures SelectedFiles(scope, inventory.(files := PlainFiles(inventory.files)))
      == PlainFiles(SelectedFiles(scope, inventory))
  {
    MapFilter(Unhashed(), (c: Indexed) => Selected(scope, c.key.sourceId, c.kinds), inventory.files);
  }

  lemma {:induction false} CommittedAlike(h: Hashing, rank: Rank, a: Store, b: Store, id: string, createdAt: string,
      x: Draft, y: Draft)
    requires a.vault == b.vault && x.files == y.files && x.excluded == y.excluded
    ensures var one, two := Committed(a, id, ManifestOf(h, rank, id, createdAt, x), x.updates),
                            Committed(b, id, ManifestOf(h, rank, id, createdAt, y), y.updates);
      one.0.vault == two.0.vault && one.1 == two.1
  {
  }

  lemma {:induction false} CreatedFromAlike(h: Hashing, rank: Rank, a: Store, b: Store, files: seq<Indexed>,
      excluded: seq<Excluded>, id: string, createdAt: string, glances: nat -> Glance)
    requires a.vault == b.vault
    requires var start := Draft([], excluded, map[]);
      SameTaken(TakeFiles(h, a.vault.blobs, glances, start, files),
        TakeFiles(h, a.vault.blobs, glances, start, PlainFiles(files)))
    ensures var cached, reread := CreatedFrom(h, rank, a, files, excluded, id, createdAt, glances),
                                  CreatedFrom(h, rank, b, PlainFiles(files), excluded, id, createdAt, glances);
      cached.0.vault == reread.0.vault && cached.1 == reread.1
  {
    var start := Draft([], excluded, map[]);
    var (blobs, taken) := TakeFiles(h, a.vault.blobs, glances, start, files);
    if taken.Ok? {
      CommittedAlike(h, rank, a.(vault := a.vault.(blobs := blobs)), b.(vault := b.vault.(blobs := blobs)), id,
        createdAt,
        taken.value, TakeFiles(h, a.vault.blobs, glances, start, PlainFiles(files)).1.value);
    }
  }

  lemma {:induction false} SelectedTrusted(h: Hashing, w: World, looks: seq<Look>, scope: Scope, inventory: Inventory)
    requires Remembered(h, looks, inventory.files) && TrueKinds(w, inventory.files)
    ensures AllTrusted(h, w, looks, SelectedFiles(scope, inventory))
  {
    var files := SelectedFiles(scope, inventory);
    FilterFrom((c: Indexed) => Selected(scope, c.key.sourceId, c.kinds), inventory.files);
    SelectedKinds(w, scope, inventory);
    forall k | 0 <= k < |files| ensures TrustedHash(h, w, looks, files[k]) {
      assert files[k] in inventory.files;
    }
  }

  /**
   * In every trustworthy state, so after every run, a creation that trusts the cached
   * hashes writes the same snapshot and the same blobs as one that reads every file again.
   */
  lemma {:induction false} SnapshotAsRehashed(h: Hashing, rank: Rank, w: World, st: State, looks: seq<Look>,
                                               scope: Scope, id: string, createdAt: string, glances: nat -> Glance)
    requires Reliable(h) && Trustworthy(h, w, st, looks) && Undisturbed(w, glances)
    ensures var cached, reread := Created(h, rank, StoreOf(st), scope, id, createdAt, glances),
                                  Created(h, rank, StoreOf(Forgotten(st)), scope, id, createdAt, glances);
      cached.0.vault == reread.0.vault && cached.1 == reread.1
  {
    var s, inventory := StoreOf(st), StoreOf(st).inventory;
    var files, excluded := SelectedFiles(scope, inventory), SelectedExcluded(scope, inventory);
    SelectedPlain(scope, inventory);
    SelectedTrusted(h, w, looks, scope, inventory);
    TakenAsRehashed(h, w, looks, st.vault.blobs, glances, Draft([], excluded, map[]), files);
    CreatedFromAlike(h, rank, s, StoreOf(Forgotten(st)), files, excluded, id, createdAt, glances);
  }

  /** A vault with snapshots that verify and an index without cached hashes is a good start. */
  lemma {:induction false} FreshIsTrustworthy(h: Hashing, w: World, st: State)
    requires Healthy(h, st.vault) && SafeIndex(h, st.index.files) && TrueKinds(w, st.index.files)
    requires forall c | c in st.index.files :: c.sha.None?
    ensures Trustworthy(h, w, st, [])
  {
  }

  /** The two together: whatever was done before, cached hashes and rehashing give the same snapshot. */
  lemma {:induction false} ReachableAsRehashed(h: Hashing, rank: Rank, r: Ranking, w: World, st: State,
      looks: seq<Look>, deeds: seq<Deed>, scope: Scope, id: string, createdAt: string, glances: nat -> Glance)
    requires Reliable(h) && Trustworthy(h, w, st, looks) && forall k | 0 <= k < |deeds| :: TrueDeed(h, w, deeds[k])
    requires Undisturbed(w, glances)
    ensures var after := Run(h, rank, r, st, deeds);
      var cached, reread := Created(h, rank, StoreOf(after), scope, id, createdAt, glances),
                            Created(h, rank, StoreOf(Forgotten(after)), scope, id, createdAt, glances);
      cached.0.vault == reread.0.vault && cached.1 == reread.1
  {
    var seen := RunsStayTrustworthy(h, rank, r, w, st, looks, deeds);
    SnapshotAsRehashed(h, rank, w, Run(h, rank, r, st, deeds), seen, scope, id, createdAt, glances);
  }
}
