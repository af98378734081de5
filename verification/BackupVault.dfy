/**
 * The content-addressed vault: blobs under their hashes, and snapshots over them. A
 * file is looked at twice while it is taken, once for its state and once for its
 * content.
 */
module BackupVault {
  import opened Prelude
  import opened PortablePath
  import opened StableSorting

  type Bytes = seq<bv8>

  /** What the file system says about a file without reading it. */
  datatype Meta = Meta(size: nat, mtime: int, ctime: int)

  /** A file of a source, by installation and resolved path. */
  datatype FileKey = FileKey(sourceId: string, installationId: string, path: string)

  /** An indexed file; `rest` stands for the fields that are only carried along. */
  datatype Indexed = Indexed(
    key: FileKey,
    archivePath: string,
    rest: string,
    kinds: seq<string>,
    meta: Meta,
    sha: Option<string>)

  datatype ManifestFile = ManifestFile(
    key: FileKey,
    archivePath: string,
    rest: string,
    kinds: seq<string>,
    size: nat,
    sha: string)

  datatype Reason = Unreadable | SymbolicLink | OutsideRoots | Sensitive(what: string)

  datatype Excluded = Excluded(sourceId: string, path: string, kinds: seq<string>, reason: Reason)

  datatype Manifest = Manifest(
    id: string,
    createdAt: string,
    files: seq<ManifestFile>,
    excluded: seq<Excluded>,
    digest: string)

  datatype VaultError =
    | CorruptBlob
    | UnknownSnapshot
    | InvalidManifest
    | EmptyScope
    | NothingFound
    | SnapshotExists
    | NotIntact
    | TooLarge
    | InvalidBundle
    | DuplicateFile
    | FileMismatch

  /** The hash of contents and of manifests, what a hash looks like, the check of archive paths, and the secret scan. */
  datatype Hashing = Hashing(
    sha: Bytes -> string,
    isHash: string -> bool,
    digest: (string, string, seq<ManifestFile>, seq<Excluded>) -> string,
    safe: string -> Option<string>,
    sensitive: (string, seq<string>, Bytes) -> Option<string>)

  /** Hashes look like hashes, contents of different lengths have different hashes, and checked paths stay as they
   * are. */
  ghost predicate Reliable(h: Hashing) {
    && (forall b: Bytes :: h.isHash(h.sha(b)))
    && (forall a: Bytes, b: Bytes :: h.sha(a) == h.sha(b) ==> |a| == |b|)
    && (forall p: string :: h.safe(p).Some? ==> h.safe(h.safe(p).value) == h.safe(p))
  }

  /** The check of archive paths that the vault uses. */
  function PortablePathOf(path: string): Option<string> {
    var safe := SafePortableRelative(path);
    if safe.Ok? then Some(safe.value) else None
  }

  /** The check of archive paths is as reliable as the vault needs it. */
  lemma {:induction false} PortablePathsReliable(h: Hashing)
    requires forall b: Bytes :: h.isHash(h.sha(b))
    requires forall a: Bytes, b: Bytes :: h.sha(a) == h.sha(b) ==> |a| == |b|
    requires forall p: string :: h.safe(p) == PortablePathOf(p)
    ensures Reliable(h)
  {
    forall p: string | h.safe(p).Some? ensures h.safe(h.safe(p).value) == h.safe(p) {
      SafeTwice(p);
    }
  }

  type Blobs = map<string, Bytes>

  /** Files of old snapshots may lie beside their manifest, by snapshot id and path. */
  datatype Vault = Vault(blobs: Blobs, snapshots: map<string, Manifest>, legacy: map<(string, string), Bytes>)

  // ---------------------------------------------------------------------
  // Blobs.

  function Stored(h: Hashing, blobs: Blobs, hash: string, bytes: Bytes, repair: bool): Result<Blobs, VaultError> {
    if hash !in blobs then Ok(blobs[hash := bytes])
    else if |blobs[hash]| == |bytes| && h.sha(blobs[hash]) == hash then Ok(blobs)
    else if repair && h.sha(bytes) == hash then Ok(blobs[hash := bytes])
    else Err(CorruptBlob)
  }

  predicate Reusable(h: Hashing, blobs: Blobs, hash: string, size: nat) {
    h.isHash(hash) && hash in blobs && |blobs[hash]| == size
  }

  /** Every blob hashes to its name. */
  predicate Sound(h: Hashing, blobs: Blobs) {
    forall hash | hash in blobs :: h.sha(blobs[hash]) == hash
  }

  /** Sound blobs are never changed or removed. */
  predicate Keeps(h: Hashing, before: Blobs, after: Blobs) {
    forall hash | hash in before && h.sha(before[hash]) == hash :: hash in after && after[hash] == before[hash]
  }

  /** A blob of this content is there. */
  predicate Holds(h: Hashing, blobs: Blobs, hash: string, size: nat) {
    hash in blobs && h.sha(blobs[hash]) == hash && |blobs[hash]| == size
  }

  /** Putting content under its hash where no sound blob is. */
  lemma {:induction false} PutKeeps(h: Hashing, blobs: Blobs, hash: string, bytes: Bytes)
    requires h.sha(bytes) == hash && (hash in blobs ==> h.sha(blobs[hash]) != hash)
    ensures var after := blobs[hash := bytes];
      Keeps(h, blobs, after) && Holds(h, after, hash, |bytes|) && (Sound(h, blobs) ==> Sound(h, after))
  {
  }

  lemma {:induction false} StoredKeeps(h: Hashing, blobs: Blobs, hash: string, bytes: Bytes, repair: bool)
    requires Reliable(h) && h.sha(bytes) == hash && Stored(h, blobs, hash, bytes, repair).Ok?
    ensures var after := Stored(h, blobs, hash, bytes, repair).value;
      && Keeps(h, blobs, after) && Holds(h, after, hash, |bytes|)
      && (Sound(h, blobs) ==> Sound(h, after))
  {
    if hash !in blobs || h.sha(blobs[hash]) != hash {
      PutKeeps(h, blobs, hash, bytes);
    }
  }

  // ---------------------------------------------------------------------
  // Snapshots.

  function ReadFile(h: Hashing, v: Vault, id: string, file: ManifestFile): Option<Bytes> {
    if !h.isHash(file.sha) then None
    else if file.sha in v.blobs then Some(v.blobs[file.sha])
    else
      var path := h.safe(file.archivePath);
      if path.Some? && (id, path.value) in v.legacy then Some(v.legacy[(id, path.value)]) else None
  }

  predicate Matches(h: Hashing, file: ManifestFile, bytes: Bytes) {
    |bytes| == file.size && h.sha(bytes) == file.sha
  }

  predicate Intact(h: Hashing, v: Vault, id: string, file: ManifestFile) {
    var bytes := ReadFile(h, v, id, file);
    bytes.Some? && Matches(h, file, bytes.value)
  }

  predicate SafePaths(h: Hashing, m: Manifest) {
    forall k | 0 <= k < |m.files| :: h.safe(m.files[k].archivePath).Some?
  }

  /** A manifest that is accepted when it is read. */
  predicate Genuine(h: Hashing, m: Manifest) {
    SafePaths(h, m) && m.digest == h.digest(m.id, m.createdAt, m.files, m.excluded)
  }

  predicate Verifies(h: Hashing, v: Vault, id: string) {
    && id in v.snapshots && Genuine(h, v.snapshots[id])
    && forall k | 0 <= k < |v.snapshots[id].files| :: Intact(h, v, id, v.snapshots[id].files[k])
  }

  /** Every blob is sound, and every snapshot verifies. */
  ghost predicate Healthy(h: Hashing, v: Vault) {
    Sound(h, v.blobs) && forall id | id in v.snapshots :: Verifies(h, v, id)
  }

  /** A file that was intact stays so while sound blobs are only added. */
  lemma {:induction false} StaysIntact(h: Hashing, v: Vault, after: Blobs, id: string, file: ManifestFile)
    requires Reliable(h) && Sound(h, after) && Keeps(h, v.blobs, after) && Intact(h, v, id, file)
    ensures Intact(h, v.(blobs := after), id, file)
  {
  }

  lemma {:induction false} GrowthKeepsHealth(h: Hashing, v: Vault, after: Blobs)
    requires Reliable(h) && Healthy(h, v) && Sound(h, after) && Keeps(h, v.blobs, after)
    ensures Healthy(h, v.(blobs := after))
  {
    var grown := v.(blobs := after);
    forall id | id in grown.snapshots ensures Verifies(h, grown, id) {
      forall k | 0 <= k < |v.snapshots[id].files| ensures Intact(h, grown, id, v.snapshots[id].files[k]) {
        StaysIntact(h, v, after, id, v.snapshots[id].files[k]);
      }
    }
  }

  // ---------------------------------------------------------------------
  // Creating a snapshot.

  /** A link leads to what reading through it gives. */
  datatype Node = FileNode(meta: Meta, content: Option<Bytes>) | LinkNode(target: Option<Bytes>) | OtherNode

  type Disk = map<string, Node>

  /** The disk when the state of a file is asked for, and when its content is read a little later. */
  datatype Glance = Glance(stat: Disk, read: Disk)

  function ReadOf(disk: Disk, path: string): Option<Bytes> {
    if path !in disk then None
    else match disk[path]
      case FileNode(_, content) => content
      case LinkNode(target) => target
      case OtherNode => None
  }

  datatype Taken = Reused(hash: string) | Rehashed(bytes: Bytes, meta: Meta) | Skipped(reason: Reason)

  /** How the code treats one file: by its cached hash, by its content, or not at all. */
  function Examine(h: Hashing, blobs: Blobs, g: Glance, c: Indexed): Taken {
    if c.key.path !in g.stat then Skipped(Unreadable)
    else match g.stat[c.key.path]
      case LinkNode(_) => Skipped(SymbolicLink)
      case OtherNode => Skipped(Unreadable)
      case FileNode(meta, _) =>
        if meta == c.meta && c.sha.Some? && Reusable(h, blobs, c.sha.value, c.meta.size) then Reused(c.sha.value)
        else Reread(h, meta, ReadOf(g.read, c.key.path), c)
  }

  function Reread(h: Hashing, meta: Meta, content: Option<Bytes>, c: Indexed): Taken {
    if content == None then Skipped(Unreadable)
    else match h.sensitive(c.key.path, c.kinds, content.value)
      case Some(what) => Skipped(Sensitive(what))
      case None => Rehashed(content.value, meta)
  }

  function EntryOf(c: Indexed, size: nat, sha: string): ManifestFile {
    ManifestFile(c.key, c.archivePath, c.rest, c.kinds, size, sha)
  }

  function ExclusionOf(c: Indexed, reason: Reason): Excluded {
    Excluded(c.key.sourceId, c.key.path, c.kinds, reason)
  }

  datatype HashUpdate = HashUpdate(meta: Meta, sha: string)

  datatype Draft = Draft(files: seq<ManifestFile>, excluded: seq<Excluded>, updates: map<FileKey, HashUpdate>)

  /** One file into the draft; the blob store changes only when the file was read. */
  function Add(h: Hashing, blobs: Blobs, draft: Draft, c: Indexed, taken: Taken): (Blobs, Result<Draft, VaultError>) {
    match taken
    case Reused(hash) => (blobs, Ok(draft.(files := draft.files + [EntryOf(c, c.meta.size, hash)])))
    case Skipped(reason) => (blobs, Ok(draft.(excluded := draft.excluded + [ExclusionOf(c, reason)])))
    case Rehashed(bytes, meta) =>
      var hash := h.sha(bytes);
      match Stored(h, blobs, hash, bytes, false)
      case Err(error) => (blobs, Err(error))
      case Ok(after) => (after, Ok(draft.(
        files := draft.files + [EntryOf(c, |bytes|, hash)],
        updates := draft.updates[c.key := HashUpdate(meta, hash)])))
  }

  function TakeFile(h: Hashing, blobs: Blobs, g: Glance, draft: Draft, c: Indexed): (Blobs, Result<Draft, VaultError>) {
    Add(h, blobs, draft, c, Examine(h, blobs, g, c))
  }

  /** The source files may change while the snapshot is taken: `glances(i)` is what the i-th look finds. */
  function TakeFiles(h: Hashing, blobs: Blobs, glances: nat -> Glance, draft: Draft, files: seq<Indexed>)
    : (Blobs, Result<Draft, VaultError>)
  {
    if files == [] then (blobs, Ok(draft)) else
      var n := |files| - 1;
      var (before, taken) := TakeFiles(h, blobs, glances, draft, files[..n]);
      if taken.Err? then (before, taken) else TakeFile(h, before, glances(n), taken.value, files[n])
  }

  /** A manifest entry that is backed by the blob store. */
  predicate Backed(h: Hashing, blobs: Blobs, file: ManifestFile) {
    Holds(h, blobs, file.sha, file.size)
  }

  predicate AllBacked(h: Hashing, blobs: Blobs, files: seq<ManifestFile>) {
    forall k | 0 <= k < |files| :: Backed(h, blobs, files[k])
  }

  /** The blob store has only grown, and is sound. */
  predicate Grows(h: Hashing, before: Blobs, after: Blobs) {
    Sound(h, after) && Keeps(h, before, after)
  }

  /** What was examined leads to an entry that the blob store backs. */
  predicate Backs(h: Hashing, blobs: Blobs, c: Indexed, taken: Taken) {
    match taken
    case Reused(hash) => Backed(h, blobs, EntryOf(c, c.meta.size, hash))
    case Skipped(_) => true
    case Rehashed(bytes, _) =>
      var stored := Stored(h, blobs, h.sha(bytes), bytes, false);
      stored.Ok? ==> Grows(h, blobs, stored.value) && Backed(h, stored.value, EntryOf(c, |bytes|, h.sha(bytes)))
  }

  lemma {:induction false} ExamineBacks(h: Hashing, blobs: Blobs, g: Glance, c: Indexed)
    requires Reliable(h) && Sound(h, blobs)
    ensures Backs(h, blobs, c, Examine(h, blobs, g, c))
  {
    var examined := Examine(h, blobs, g, c);
    if examined.Rehashed? && Stored(h, blobs, h.sha(examined.bytes), examined.bytes, false).Ok? {
      StoredKeeps(h, blobs, h.sha(examined.bytes), examined.bytes, false);
    }
  }

  predicate DraftBacked(h: Hashing, blobs: Blobs, draft: Result<Draft, VaultError>) {
    draft.Ok? ==> AllBacked(h, blobs, draft.value.files)
  }

  lemma {:induction false} AddGrows(h: Hashing, blobs: Blobs, draft: Draft, c: Indexed, taken: Taken)
    requires Sound(h, blobs) && AllBacked(h, blobs, draft.files) && Backs(h, blobs, c, taken)
    ensures var (after, added) := Add(h, blobs, draft, c, taken);
      Grows(h, blobs, after) && DraftBacked(h, after, added)
  {
  }

  lemma {:induction false} TakeFileGrows(h: Hashing, blobs: Blobs, g: Glance, draft: Draft, c: Indexed)
    requires Reliable(h) && Sound(h, blobs) && AllBacked(h, blobs, draft.files)
    ensures var (after, taken) := TakeFile(h, blobs, g, draft, c);
      Grows(h, blobs, after) && DraftBacked(h, after, taken)
  {
    ExamineBacks(h, blobs, g, c);
    AddGrows(h, blobs, draft, c, Examine(h, blobs, g, c));
  }

  /** Taking files only adds sound blobs, and backs every entry of the draft. */
  lemma {:induction false} TakeFilesGrows(h: Hashing, blobs: Blobs, glances: nat -> Glance, draft: Draft,
      files: seq<Indexed>)
    requires Reliable(h) && Sound(h, blobs) && AllBacked(h, blobs, draft.files)
    ensures var (after, taken) := TakeFiles(h, blobs, glances, draft, files);
      Grows(h, blobs, after) && DraftBacked(h, after, taken)
  {
    if files != [] {
      var n := |files| - 1;
      TakeFilesGrows(h, blobs, glances, draft, files[..n]);
      var (before, taken) := TakeFiles(h, blobs, glances, draft, files[..n]);
      if taken.Ok? {
        TakeFileGrows(h, before, glances(n), taken.value, files[n]);
      }
    }
  }

  /** Every entry of a draft comes from an indexed file, with its archive path. */
  predicate ComesFrom(entries: seq<ManifestFile>, files: seq<Indexed>) {
    forall e | e in entries :: exists c | c in files ::
      c.key == e.key && c.archivePath == e.archivePath && c.kinds == e.kinds
  }

  lemma {:induction false} TakeFilesComeFrom(h: Hashing, blobs: Blobs, glances: nat -> Glance, draft: Draft,
      files: seq<Indexed>)
    requires draft.files == []
    ensures var taken := TakeFiles(h, blobs, glances, draft, files).1; taken.Ok? ==> ComesFrom(taken.value.files, files)
  {
    if files != [] {
      var n := |files| - 1;
      TakeFilesComeFrom(h, blobs, glances, draft, files[..n]);
      var (before, taken) := TakeFiles(h, blobs, glances, draft, files[..n]);
      if taken.Ok? {
        TakeFileComesFrom(h, before, glances(n), taken.value, files[..n], files[n]);
        assert files == files[..n] + [files[n]];
      }
    }
  }

  lemma {:induction false} TakeFileComesFrom(h: Hashing, blobs: Blobs, g: Glance, draft: Draft, front: seq<Indexed>,
      c: Indexed)
    requires ComesFrom(draft.files, front)
    ensures var taken := TakeFile(h, blobs, g, draft, c).1; taken.Ok? ==> ComesFrom(taken.value.files, front + [c])
  {
    var taken := TakeFile(h, blobs, g, draft, c).1;
    if taken.Ok? {
      assert c in front + [c];
      MoreFrom(draft.files, front, front + [c]);
    }
  }

  lemma {:induction false} MoreFrom(entries: seq<ManifestFile>, files: seq<Indexed>, more: seq<Indexed>)
    requires ComesFrom(entries, files) && forall c | c in files :: c in more
    ensures ComesFrom(entries, more)
  {
  }

  // ---------------------------------------------------------------------
  // Selecting and committing.

  /** Which sources and kinds a backup is for; nothing given means all. */
  datatype Scope = Scope(sourceIds: Option<seq<string>>, kinds: Option<seq<string>>)

  predicate IsEmptyScope(scope: Scope) {
    scope.sourceIds == Some([]) || scope.kinds == Some([])
  }

  predicate Selected(scope: Scope, sourceId: string, kinds: seq<string>) {
    && (scope.sourceIds.Some? ==> sourceId in scope.sourceIds.value)
    && (scope.kinds.Some? ==> exists kind | kind in scope.kinds.value :: kind in kinds)
  }

  datatype Inventory = Inventory(files: seq<Indexed>, excluded: seq<Excluded>)

  function SelectedFiles(scope: Scope, inventory: Inventory): seq<Indexed> {
    Filter((c: Indexed) => Selected(scope, c.key.sourceId, c.kinds), inventory.files)
  }

  function SelectedExcluded(scope: Scope, inventory: Inventory): seq<Excluded> {
    Filter((e: Excluded) => Selected(scope, e.sourceId, e.kinds), inventory.excluded)
  }

  /** The order of texts that lists are sorted by. */
  type Rank = string -> int

  function ManifestOf(h: Hashing, rank: Rank, id: string, createdAt: string, draft: Draft): Manifest {
    var files := StableSort((f: ManifestFile) => rank(f.archivePath), draft.files);
    var excluded := StableSort((e: Excluded) => rank(e.sourceId),
      StableSort((e: Excluded) => rank(e.path), draft.excluded));
    Manifest(id, createdAt, files, excluded, h.digest(id, createdAt, files, excluded))
  }

  /** Fresh hashes go to the files whose index entry is still about the same state. */
  function Updated(updates: map<FileKey, HashUpdate>, c: Indexed): Indexed {
    if c.key in updates && c.meta == updates[c.key].meta then c.(sha := Some(updates[c.key].sha)) else c
  }

  function ApplyUpdates(updates: map<FileKey, HashUpdate>, files: seq<Indexed>): (r: seq<Indexed>)
    ensures |r| == |files| && forall k | 0 <= k < |r| :: r[k] == Updated(updates, files[k])
  {
    seq(|files|, k requires 0 <= k < |files| => Updated(updates, files[k]))
  }

  datatype Store = Store(vault: Vault, inventory: Inventory)

  /** Takes the files, and commits what they gave; the blobs that were stored stay in any case. */
  function CreatedFrom(h: Hashing, rank: Rank, s: Store, files: seq<Indexed>, excluded: seq<Excluded>, id: string,
                       createdAt: string, glances: nat -> Glance): (Store, Result<Manifest, VaultError>)
  {
    var (blobs, taken) := TakeFiles(h, s.vault.blobs, glances, Draft([], excluded, map[]), files);
    var grown := s.(vault := s.vault.(blobs := blobs));
    if taken.Err? then (grown, Err(taken.error))
    else Committed(grown, id, ManifestOf(h, rank, id, createdAt, taken.value), taken.value.updates)
  }

  function Created(h: Hashing, rank: Rank, s: Store, scope: Scope, id: string, createdAt: string,
      glances: nat -> Glance)
    : (Store, Result<Manifest, VaultError>)
  {
    var files, excluded := SelectedFiles(scope, s.inventory), SelectedExcluded(scope, s.inventory);
    if IsEmptyScope(scope) then (s, Err(EmptyScope))
    else if files == [] && excluded == [] then (s, Err(NothingFound))
    else CreatedFrom(h, rank, s, files, excluded, id, createdAt, glances)
  }

  /** The manifest becomes visible under its id, unless there is one already. */
  function Committed(s: Store, id: string, m: Manifest,
      updates: map<FileKey, HashUpdate>): (Store, Result<Manifest, VaultError>)
  {
    if id in s.vault.snapshots then (s, Err(SnapshotExists))
    else (Store(s.vault.(snapshots := s.vault.snapshots[id := m]),
                s.inventory.(files := ApplyUpdates(updates, s.inventory.files))), Ok(m))
  }

  // ---------------------------------------------------------------------
  // Export and import.

  datatype BundleFile = BundleFile(archivePath: string, bytes: Bytes)

  datatype Bundle = Bundle(manifest: Manifest, files: seq<BundleFile>)

  function BundleFileOf(h: Hashing, v: Vault, id: string, file: ManifestFile): (r: BundleFile)
    requires Intact(h, v, id, file)
    ensures r.archivePath == file.archivePath && Matches(h, file, r.bytes)
  {
    BundleFile(file.archivePath, ReadFile(h, v, id, file).value)
  }

  function BundleFiles(h: Hashing, v: Vault, id: string, files: seq<ManifestFile>): (r: seq<BundleFile>)
    requires forall k | 0 <= k < |files| :: Intact(h, v, id, files[k])
    ensures |r| == |files|
    ensures forall k | 0 <= k < |r| :: r[k].archivePath == files[k].archivePath && Matches(h, files[k], r[k].bytes)
    ensures forall k | 0 <= k < |r| :: Intact(h, v, id, files[k]) && r[k] == BundleFileOf(h, v, id, files[k])
  {
    seq(|files|, k requires 0 <= k < |files| && Intact(h, v, id, files[k]) => BundleFileOf(h, v, id, files[k]))
  }

  function Exported(h: Hashing, v: Vault, id: string): Result<Bundle, VaultError> {
    if id !in v.snapshots then Err(UnknownSnapshot)
    else if !Genuine(h, v.snapshots[id]) then Err(InvalidManifest)
    else if !Verifies(h, v, id) then Err(NotIntact)
    else Ok(Bundle(v.snapshots[id], BundleFiles(h, v, id, v.snapshots[id].files)))
  }

  /** The contents of a bundle under their checked paths. */
  function FileMap(h: Hashing, files: seq<BundleFile>): Result<map<string, Bytes>, VaultError> {
    if files == [] then Ok(map[]) else
      var front :- FileMap(h, files[..|files| - 1]);
      var path := h.safe(files[|files| - 1].archivePath);
      if path == None then Err(InvalidBundle)
      else if path.value in front then Err(DuplicateFile)
      else Ok(front[path.value := files[|files| - 1].bytes])
  }

  /** Every file of the manifest is there with its size and hash, and nothing else. */
  predicate Complete(h: Hashing, m: Manifest, contents: map<string, Bytes>) {
    && |contents| == |m.files|
    && forall k | 0 <= k < |m.files| ::
         m.files[k].archivePath in contents && Matches(h, m.files[k], contents[m.files[k].archivePath])
  }

  function StoreAll(h: Hashing, blobs: Blobs, files: seq<ManifestFile>,
      contents: map<string, Bytes>): Result<Blobs, VaultError>
    requires forall k | 0 <= k < |files| :: files[k].archivePath in contents
  {
    if files == [] then Ok(blobs) else
      var last := files[|files| - 1];
      var before :- StoreAll(h, blobs, files[..|files| - 1], contents);
      Stored(h, before, last.sha, contents[last.archivePath], true)
  }

  /** The largest bundle that is imported, packed and as JSON text. */
  const MAX_IMPORT_BYTES: nat := 256 * 1024 * 1024
  const MAX_BUNDLE_JSON_BYTES: nat := 768 * 1024 * 1024

  /** The size of a bundle as it is exported, packed and as JSON text. */
  datatype Packing = Packing(packed: Bundle -> nat, json: Bundle -> nat)

  predicate FitsImport(p: Packing, bundle: Bundle) {
    p.packed(bundle) <= MAX_IMPORT_BYTES && p.json(bundle) <= MAX_BUNDLE_JSON_BYTES
  }

  /** What arrives: its packed size, the size of its text, and the bundle in it, if it is one. */
  datatype Upload = Upload(packed: nat, json: nat, bundle: Option<Bundle>)

  function Packed(p: Packing, bundle: Bundle): Upload {
    Upload(p.packed(bundle), p.json(bundle), Some(bundle))
  }

  function Imported(h: Hashing, v: Vault, upload: Upload): (Vault, Result<Manifest, VaultError>) {
    if upload.packed > MAX_IMPORT_BYTES then (v, Err(TooLarge))
    else if upload.json > MAX_BUNDLE_JSON_BYTES || upload.bundle == None then (v, Err(InvalidBundle))
    else if !Genuine(h, upload.bundle.value.manifest) then (v, Err(InvalidManifest))
    else match FileMap(h, upload.bundle.value.files)
      case Err(error) => (v, Err(error))
      case Ok(contents) =>
        if !Complete(h, upload.bundle.value.manifest, contents) then (v, Err(FileMismatch))
        else Adopted(h, v, upload.bundle.value.manifest, contents)
  }

  /** A checked bundle goes into the vault, or repairs the snapshot that is already there. */
  function Adopted(h: Hashing, v: Vault, m: Manifest,
      contents: map<string, Bytes>): (Vault, Result<Manifest, VaultError>)
    requires forall k | 0 <= k < |m.files| :: m.files[k].archivePath in contents
  {
    if m.id in v.snapshots && !Genuine(h, v.snapshots[m.id]) then (v, Err(InvalidManifest))
    else if m.id in v.snapshots && v.snapshots[m.id].digest != m.digest then (v, Err(SnapshotExists))
    else match StoreAll(h, v.blobs, m.files, contents)
      case Err(error) => (v, Err(error))
      case Ok(blobs) =>
        var stored := v.(blobs := blobs);
        if m.id !in v.snapshots then (stored.(snapshots := v.snapshots[m.id := m]), Ok(m))
        else if Verifies(h, stored, m.id) then (stored, Ok(v.snapshots[m.id]))
        else (stored, Err(NotIntact))
  }

  predicate AllMatch(h: Hashing, files: seq<ManifestFile>, contents: map<string, Bytes>) {
    forall k | 0 <= k < |files| ::
      files[k].archivePath in contents && Matches(h, files[k], contents[files[k].archivePath])
  }

  /** The contents are in, and nothing sound was lost. */
  predicate AllIn(h: Hashing, blobs: Blobs, files: seq<ManifestFile>, stored: Result<Blobs, VaultError>) {
    && stored.Ok? && Keeps(h, blobs, stored.value) && AllBacked(h, stored.value, files)
    && (Sound(h, blobs) ==> Sound(h, stored.value))
  }

  /** One more verified content. */
  lemma {:induction false} OneMoreIn(h: Hashing, blobs: Blobs, before: Blobs, files: seq<ManifestFile>,
      last: ManifestFile, bytes: Bytes)
    requires Reliable(h) && Matches(h, last, bytes) && AllIn(h, blobs, files, Ok(before))
    ensures AllIn(h, blobs, files + [last], Stored(h, before, last.sha, bytes, true))
  {
    StoredKeeps(h, before, last.sha, bytes, true);
  }

  lemma {:induction false} StoreAllSnoc(h: Hashing, blobs: Blobs, front: seq<ManifestFile>, last: ManifestFile,
      contents: map<string, Bytes>)
    requires AllMatch(h, front + [last], contents)
    ensures AllMatch(h, front, contents) && last.archivePath in contents && Matches(h, last, contents[last.archivePath])
    ensures var before := StoreAll(h, blobs, front, contents);
      before.Ok?
      ==> StoreAll(h, blobs, front + [last], contents)
          == Stored(h, before.value, last.sha, contents[last.archivePath], true)
  {
    var files := front + [last];
    assert files[..|front|] == front && files[|front|] == last;
    forall k | 0 <= k < |front| ensures front[k].archivePath in contents
      && Matches(h, front[k], contents[front[k].archivePath]) {
      assert files[k] == front[k];
    }
  }

  /** Storing verified contents always succeeds, whatever is in the vault, and backs every file. */
  lemma {:induction false} StoreAllBacks(h: Hashing, blobs: Blobs, files: seq<ManifestFile>,
      contents: map<string, Bytes>)
    requires Reliable(h) && AllMatch(h, files, contents)
    ensures AllIn(h, blobs, files, StoreAll(h, blobs, files, contents))
  {
    if files != [] {
      var front, last := files[..|files| - 1], files[|files| - 1];
      assert files == front + [last];
      StoreAllSnoc(h, blobs, front, last, contents);
      StoreAllBacks(h, blobs, front, contents);
      OneMoreIn(h, blobs, StoreAll(h, blobs, front, contents).value, front, last, contents[last.archivePath]);
    }
  }

  lemma {:induction false} BackedVerifies(h: Hashing, v: Vault, id: string)
    requires Reliable(h) && id in v.snapshots && Genuine(h, v.snapshots[id])
      && AllBacked(h, v.blobs, v.snapshots[id].files)
    ensures Verifies(h, v, id)
  {
    var m := v.snapshots[id];
    forall k | 0 <= k < |m.files| ensures Intact(h, v, id, m.files[k]) {
      assert Backed(h, v.blobs, m.files[k]);
    }
  }

  /** A manifest is determined by its digest. */
  ghost predicate DigestsTell(h: Hashing) {
    forall a: Manifest, b: Manifest ::
      h.digest(a.id, a.createdAt, a.files, a.excluded) == h.digest(b.id, b.createdAt, b.files, b.excluded) ==>
        a.files == b.files && a.id == b.id && a.createdAt == b.createdAt && a.excluded == b.excluded
  }

  /** Importing a checked bundle leaves a snapshot that verifies, even over corrupt blobs: it is added, or repaired. */
  lemma {:induction false} AdoptedVerifies(h: Hashing, v: Vault, m: Manifest, contents: map<string, Bytes>)
    requires Reliable(h) && DigestsTell(h) && Genuine(h, m) && AllMatch(h, m.files, contents)
    requires m.id in v.snapshots ==> Genuine(h, v.snapshots[m.id]) && v.snapshots[m.id].digest == m.digest
    ensures var (after, result) := Adopted(h, v, m, contents);
      result == Ok(m) && Verifies(h, after, m.id) && after.snapshots == v.snapshots[m.id := m]
  {
    StoreAllBacks(h, v.blobs, m.files, contents);
    var stored := v.(blobs := StoreAll(h, v.blobs, m.files, contents).value);
    if m.id in v.snapshots {
      assert v.snapshots[m.id] == m;
      BackedVerifies(h, stored, m.id);
    } else {
      BackedVerifies(h, stored.(snapshots := v.snapshots[m.id := m]), m.id);
    }
  }

  // ---------------------------------------------------------------------
  // The round trip.

  /** Archive paths as the plan makes them: in checked form, and no two alike. */
  predicate ProperPaths(h: Hashing, files: seq<ManifestFile>) {
    && (forall k | 0 <= k < |files| :: h.safe(files[k].archivePath) == Some(files[k].archivePath))
    && (forall j, k | 0 <= j < k < |files| :: files[j].archivePath != files[k].archivePath)
  }

  /** The contents of the files under their own paths, and nothing else. */
  ghost predicate Holding(files: seq<BundleFile>, contents: map<string, Bytes>) {
    && |contents| == |files|
    && (forall k | 0 <= k < |files| ::
      files[k].archivePath in contents && contents[files[k].archivePath] == files[k].bytes)
    && (forall p | p in contents :: !Lacks(files, p))
  }

  predicate Lacks(files: seq<BundleFile>, path: string) {
    forall k | 0 <= k < |files| :: files[k].archivePath != path
  }

  lemma {:induction false} HoldingSnoc(files: seq<BundleFile>, contents: map<string, Bytes>, last: BundleFile)
    requires Holding(files, contents) && Lacks(files, last.archivePath)
    ensures last.archivePath !in contents
    ensures Holding(files + [last], contents[last.archivePath := last.bytes])
  {
    var after := contents[last.archivePath := last.bytes];
    forall p | p in after ensures !Lacks(files + [last], p) {
      if p == last.archivePath {
        assert (files + [last])[|files|].archivePath == p;
      } else {
        var k :| 0 <= k < |files| && files[k].archivePath == p;
        assert (files + [last])[k].archivePath == p;
      }
    }
  }

  ghost predicate ProperFiles(h: Hashing, files: seq<BundleFile>) {
    && (forall k | 0 <= k < |files| :: h.safe(files[k].archivePath) == Some(files[k].archivePath))
    && (forall j, k | 0 <= j < k < |files| :: files[j].archivePath != files[k].archivePath)
  }

  lemma {:induction false} ProperFront(h: Hashing, front: seq<BundleFile>, last: BundleFile)
    requires ProperFiles(h, front + [last])
    ensures ProperFiles(h, front) && Lacks(front, last.archivePath)
      && h.safe(last.archivePath) == Some(last.archivePath)
  {
    var files := front + [last];
    assert files[|front|] == last && forall k | 0 <= k < |front| :: files[k] == front[k];
  }

  lemma {:induction false} FileMapSnoc(h: Hashing, front: seq<BundleFile>, last: BundleFile)
    requires FileMap(h, front).Ok? && last.archivePath !in FileMap(h, front).value
      && h.safe(last.archivePath) == Some(last.archivePath)
    ensures FileMap(h, front + [last]) == Ok(FileMap(h, front).value[last.archivePath := last.bytes])
  {
    assert (front + [last])[..|front|] == front;
  }

  lemma {:induction false} FileMapProper(h: Hashing, files: seq<BundleFile>)
    requires ProperFiles(h, files)
    ensures FileMap(h, files).Ok? && Holding(files, FileMap(h, files).value)
  {
    if files != [] {
      var front, last := files[..|files| - 1], files[|files| - 1];
      assert files == front + [last];
      ProperFront(h, front, last);
      FileMapProper(h, front);
      HoldingSnoc(front, FileMap(h, front).value, last);
      FileMapSnoc(h, front, last);
    }
  }

  lemma {:induction false} FileMapFixed(h: Hashing, files: seq<BundleFile>, path: string)
    requires Reliable(h) && FileMap(h, files).Ok? && path in FileMap(h, files).value
    ensures h.safe(path) == Some(path)
  {
    if path in FileMap(h, files[..|files| - 1]).value {
      FileMapFixed(h, files[..|files| - 1], path);
    }
  }

  lemma {:induction false} FileMapHas(h: Hashing, files: seq<BundleFile>, k: nat)
    requires FileMap(h, files).Ok? && k < |files|
    ensures h.safe(files[k].archivePath).Some? && h.safe(files[k].archivePath).value in FileMap(h, files).value
  {
    if k < |files| - 1 {
      FileMapHas(h, files[..|files| - 1], k);
    }
  }

  lemma {:induction false} FileMapDistinct(h: Hashing, files: seq<BundleFile>, j: nat, k: nat)
    requires FileMap(h, files).Ok? && j < k < |files|
    ensures h.safe(files[j].archivePath) != h.safe(files[k].archivePath)
  {
    if k < |files| - 1 {
      FileMapDistinct(h, files[..|files| - 1], j, k);
    } else {
      FileMapHas(h, files[..k], j);
    }
  }

  lemma {:induction false} CompleteIsProper(h: Hashing, files: seq<BundleFile>, m: Manifest)
    requires Reliable(h) && FileMap(h, files).Ok? && |files| == |m.files| && Complete(h, m, FileMap(h, files).value)
    requires forall k | 0 <= k < |files| :: files[k].archivePath == m.files[k].archivePath
    ensures ProperPaths(h, m.files)
  {
    forall k | 0 <= k < |m.files| ensures h.safe(m.files[k].archivePath) == Some(m.files[k].archivePath) {
      FileMapFixed(h, files, m.files[k].archivePath);
    }
    forall j, k | 0 <= j < k < |m.files| ensures m.files[j].archivePath != m.files[k].archivePath {
      FileMapDistinct(h, files, j, k);
    }
  }

  lemma {:induction false} ProperIsComplete(h: Hashing, files: seq<BundleFile>, m: Manifest)
    requires ProperPaths(h, m.files) && |files| == |m.files|
    requires forall k | 0 <= k < |files| ::
      files[k].archivePath == m.files[k].archivePath && Matches(h, m.files[k], files[k].bytes)
    ensures FileMap(h, files).Ok? && Complete(h, m, FileMap(h, files).value)
  {
    FileMapProper(h, files);
  }

  /**
   * What was exported can be imported into any vault that does not have the snapshot,
   * or has it already, exactly when it is not too large and the archive paths are
   * proper; the vault then has the same manifest, and the snapshot verifies.
   */
  lemma {:induction false} ExportImport(h: Hashing, p: Packing, v: Vault, w: Vault, id: string)
    requires Reliable(h) && DigestsTell(h) && Exported(h, v, id).Ok?
    requires var m := v.snapshots[id]; m.id in w.snapshots ==> w.snapshots[m.id] == m
    ensures var m, bundle := v.snapshots[id], Exported(h, v, id).value;
      var (after, result) := Imported(h, w, Packed(p, bundle));
      && (result.Ok? <==> FitsImport(p, bundle) && ProperPaths(h, m.files))
      && (result.Ok? ==> result.value == m && Verifies(h, after, m.id) && after.snapshots == w.snapshots[m.id := m])
  {
    var bundle, m := Exported(h, v, id).value, v.snapshots[id];
    if FitsImport(p, bundle) {
      if ProperPaths(h, m.files) {
        ProperIsComplete(h, bundle.files, m);
        AdoptedVerifies(h, w, m, FileMap(h, bundle.files).value);
      } else if FileMap(h, bundle.files).Ok? && Complete(h, m, FileMap(h, bundle.files).value) {
        CompleteIsProper(h, bundle.files, m);
      }
    }
  }

  // ---------------------------------------------------------------------
  // Safety.

  /** An index whose archive paths are acceptable, as an index is when it is read or built. */
  predicate SafeIndex(h: Hashing, files: seq<Indexed>) {
    forall c | c in files :: h.safe(c.archivePath).Some?
  }

  lemma {:induction false} ManifestBacked(h: Hashing, rank: Rank, blobs: Blobs, id: string, createdAt: string,
      draft: Draft, files: seq<Indexed>)
    requires AllBacked(h, blobs, draft.files) && ComesFrom(draft.files, files) && SafeIndex(h, files)
    ensures var m := ManifestOf(h, rank, id, createdAt, draft); Genuine(h, m) && AllBacked(h, blobs, m.files)
  {
    var m := ManifestOf(h, rank, id, createdAt, draft);
    SortFrom((f: ManifestFile) => rank(f.archivePath), draft.files);
    forall k | 0 <= k < |m.files| ensures Backed(h, blobs, m.files[k]) && h.safe(m.files[k].archivePath).Some? {
      assert m.files[k] in draft.files;
      var j :| 0 <= j < |draft.files| && draft.files[j] == m.files[k];
      assert Backed(h, blobs, draft.files[j]);
    }
  }

  lemma {:induction false} SelectedSafe(h: Hashing, scope: Scope, inventory: Inventory)
    requires SafeIndex(h, inventory.files)
    ensures SafeIndex(h, SelectedFiles(scope, inventory))
  {
    FilterFrom((c: Indexed) => Selected(scope, c.key.sourceId, c.kinds), inventory.files);
  }

  /** The snapshot that is created from a draft verifies, and everything else still does. */
  lemma {:induction false} CommittedHealthy(h: Hashing, rank: Rank, s: Store, id: string, createdAt: string,
      draft: Draft, files: seq<Indexed>)
    requires Reliable(h) && Healthy(h, s.vault)
    requires AllBacked(h, s.vault.blobs, draft.files) && ComesFrom(draft.files, files) && SafeIndex(h, files)
    ensures var (after, result) := Committed(s, id, ManifestOf(h, rank, id, createdAt, draft), draft.updates);
      && Healthy(h, after.vault)
      && (result.Ok? ==> Verifies(h, after.vault, id) && after.vault.snapshots == s.vault.snapshots[id := result.value])
  {
    if id !in s.vault.snapshots {
      ManifestBacked(h, rank, s.vault.blobs, id, createdAt, draft, files);
      CommitHealthy(h, s.vault, id, ManifestOf(h, rank, id, createdAt, draft));
    }
  }

  lemma {:induction false} CreatedFromHealthy(h: Hashing, rank: Rank, s: Store, files: seq<Indexed>,
      excluded: seq<Excluded>, id: string, createdAt: string, glances: nat -> Glance)
    requires Reliable(h) && Healthy(h, s.vault) && SafeIndex(h, files)
    ensures var (after, result) := CreatedFrom(h, rank, s, files, excluded, id, createdAt, glances);
      && Healthy(h, after.vault)
      && (result.Ok? ==> Verifies(h, after.vault, id) && after.vault.snapshots == s.vault.snapshots[id := result.value])
  {
    var draft := Draft([], excluded, map[]);
    var (blobs, taken) := TakeFiles(h, s.vault.blobs, glances, draft, files);
    TakeFilesGrows(h, s.vault.blobs, glances, draft, files);
    TakeFilesComeFrom(h, s.vault.blobs, glances, draft, files);
    GrowthKeepsHealth(h, s.vault, blobs);
    if taken.Ok? {
      CommittedHealthy(h, rank, s.(vault := s.vault.(blobs := blobs)), id, createdAt, taken.value, files);
    }
  }

  /** Creating a snapshot keeps the vault healthy, and the new snapshot verifies. */
  lemma {:induction false} CreatedHealthy(h: Hashing, rank: Rank, s: Store, scope: Scope, id: string, createdAt: string,
      glances: nat -> Glance)
    requires Reliable(h) && Healthy(h, s.vault) && SafeIndex(h, s.inventory.files)
    ensures var (after, result) := Created(h, rank, s, scope, id, createdAt, glances);
      && Healthy(h, after.vault)
      && (result.Ok? ==> Verifies(h, after.vault, id) && after.vault.snapshots == s.vault.snapshots[id := result.value])
  {
    SelectedSafe(h, scope, s.inventory);
    CreatedFromHealthy(h, rank, s, SelectedFiles(scope, s.inventory), SelectedExcluded(scope, s.inventory), id,
      createdAt, glances);
  }

  lemma {:induction false} CommitHealthy(h: Hashing, v: Vault, id: string, m: Manifest)
    requires Reliable(h) && Healthy(h, v) && id !in v.snapshots && Genuine(h, m) && AllBacked(h, v.blobs, m.files)
    ensures var after := v.(snapshots := v.snapshots[id := m]); Healthy(h, after) && Verifies(h, after, id)
  {
    var after := v.(snapshots := v.snapshots[id := m]);
    BackedVerifies(h, after, id);
    forall other | other in after.snapshots ensures Verifies(h, after, other) {
      if other != id {
        OtherVerifies(h, v, id, m, other);
      }
    }
  }

  lemma {:induction false} OtherVerifies(h: Hashing, v: Vault, id: string, m: Manifest, other: string)
    requires Verifies(h, v, other) && other != id
    ensures Verifies(h, v.(snapshots := v.snapshots[id := m]), other)
  {
    var after := v.(snapshots := v.snapshots[id := m]);
    forall k | 0 <= k < |v.snapshots[other].files| ensures Intact(h, after, other, v.snapshots[other].files[k]) {
      assert Intact(h, v, other, v.snapshots[other].files[k]);
    }
  }

  lemma {:induction false} AdoptedHealthy(h: Hashing, v: Vault, m: Manifest, contents: map<string, Bytes>)
    requires Reliable(h) && Healthy(h, v) && Genuine(h, m) && AllMatch(h, m.files, contents)
    ensures Healthy(h, Adopted(h, v, m, contents).0)
  {
    StoreAllBacks(h, v.blobs, m.files, contents);
    var stored := v.(blobs := StoreAll(h, v.blobs, m.files, contents).value);
    GrowthKeepsHealth(h, v, stored.blobs);
    if m.id !in v.snapshots {
      CommitHealthy(h, stored, m.id, m);
    }
  }

  /** Importing anything keeps the vault healthy. */
  lemma {:induction false} ImportedHealthy(h: Hashing, v: Vault, upload: Upload)
    requires Reliable(h) && Healthy(h, v)
    ensures Healthy(h, Imported(h, v, upload).0)
  {
    if upload.bundle.Some? && Genuine(h, upload.bundle.value.manifest) && FileMap(h, upload.bundle.value.files).Ok? {
      var m, contents := upload.bundle.value.manifest, FileMap(h, upload.bundle.value.files).value;
      if Complete(h, m, contents) {
        assert AllMatch(h, m.files, contents);
        AdoptedHealthy(h, v, m, contents);
      }
    }
  }

  datatype Act =
    | CreateAct(scope: Scope, id: string, createdAt: string, glances: nat -> Glance)
    | ImportAct(upload: Upload)
    | IndexAct(inventory: Inventory)

  function Do(h: Hashing, rank: Rank, s: Store, act: Act): Store {
    match act
    case CreateAct(scope, id, createdAt, glances) => Created(h, rank, s, scope, id, createdAt, glances).0
    case ImportAct(upload) => s.(vault := Imported(h, s.vault, upload).0)
    case IndexAct(inventory) => s.(inventory := inventory)
  }

  function DoAll(h: Hashing, rank: Rank, s: Store, acts: seq<Act>): Store {
    if acts == [] then s else Do(h, rank, DoAll(h, rank, s, acts[..|acts| - 1]), acts[|acts| - 1])
  }

  lemma {:induction false} UpdatedSafe(h: Hashing, updates: map<FileKey, HashUpdate>, files: seq<Indexed>)
    requires SafeIndex(h, files)
    ensures SafeIndex(h, ApplyUpdates(updates, files))
  {
    forall c | c in ApplyUpdates(updates, files) ensures h.safe(c.archivePath).Some? {
      var k :| 0 <= k < |files| && ApplyUpdates(updates, files)[k] == c;
      assert files[k] in files;
    }
  }

  lemma {:induction false} CreatedSafe(h: Hashing, rank: Rank, s: Store, scope: Scope, id: string, createdAt: string,
      glances: nat -> Glance)
    requires SafeIndex(h, s.inventory.files)
    ensures SafeIndex(h, Created(h, rank, s, scope, id, createdAt, glances).0.inventory.files)
  {
    var taken := TakeFiles(h, s.vault.blobs, glances, Draft([], SelectedExcluded(scope, s.inventory), map[]),
      SelectedFiles(scope, s.inventory)).1;
    if taken.Ok? {
      UpdatedSafe(h, taken.value.updates, s.inventory.files);
    }
  }

  /**
   * After any sequence of creations, imports and index refreshes, with source files
   * changing at any time, every committed snapshot still verifies.
   */
  lemma {:induction false} SnapshotsStayValid(h: Hashing, rank: Rank, s: Store, acts: seq<Act>)
    requires Reliable(h) && Healthy(h, s.vault) && SafeIndex(h, s.inventory.files)
    requires forall k | 0 <= k < |acts| && acts[k].IndexAct? :: SafeIndex(h, acts[k].inventory.files)
    ensures Healthy(h, DoAll(h, rank, s, acts).vault) && SafeIndex(h, DoAll(h, rank, s, acts).inventory.files)
  {
    if acts != [] {
      var front, last := acts[..|acts| - 1], acts[|acts| - 1];
      SnapshotsStayValid(h, rank, s, front);
      var before := DoAll(h, rank, s, front);
      match last {
        case CreateAct(scope, id, createdAt, glances) =>
          CreatedHealthy(h, rank, before, scope, id, createdAt, glances);
          CreatedSafe(h, rank, before, scope, id, createdAt, glances);
        case ImportAct(upload) => ImportedHealthy(h, before.vault, upload);
        case IndexAct(_) =>
      }
    }
  }

  // ---------------------------------------------------------------------
  // Cached hashes.

  /** What the code saw when it read and hashed a file. */
  datatype Look = Look(key: FileKey, meta: Meta, kinds: seq<string>, bytes: Bytes)

  /** The file was read in this state, and was not found sensitive. */
  predicate Supports(h: Hashing, look: Look, key: FileKey, meta: Meta, sha: string) {
    && look.key == key && look.meta == meta && h.sha(look.bytes) == sha
    && h.sensitive(key.path, look.kinds, look.bytes) == None
  }

  ghost predicate Supported(h: Hashing, looks: seq<Look>, key: FileKey, meta: Meta, sha: string) {
    exists look | look in looks :: Supports(h, look, key, meta, sha)
  }

  /** Every cached hash goes back to such a look. */
  ghost predicate Remembered(h: Hashing, looks: seq<Look>, files: seq<Indexed>) {
    forall c | c in files && c.sha.Some? :: Supported(h, looks, c.key, c.meta, c.sha.value)
  }

  ghost predicate Noted(h: Hashing, looks: seq<Look>, updates: map<FileKey, HashUpdate>) {
    forall key | key in updates :: Supported(h, looks, key, updates[key].meta, updates[key].sha)
  }

  /** The state was asked for, and then the content was read, with this outcome. */
  predicate SeenIn(g: Glance, look: Look) {
    && look.key.path in g.stat && g.stat[look.key.path].FileNode? && g.stat[look.key.path].meta == look.meta
    && ReadOf(g.read, look.key.path) == Some(look.bytes)
  }

  /** A look at one of the files while it was taken. */
  ghost predicate LookedAt(glances: nat -> Glance, files: seq<Indexed>, look: Look) {
    exists i: nat | i < |files| :: SeenIn(glances(i), look) && files[i].key == look.key && files[i].kinds == look.kinds
  }

  /** The file had this state and this content at one moment. */
  predicate TrueAt(disk: Disk, look: Look) {
    look.key.path in disk && disk[look.key.path] == FileNode(look.meta, Some(look.bytes))
  }

  /** Nothing happened to the file between asking for its state and reading its content. */
  predicate Steady(g: Glance, path: string) {
    path in g.stat && g.stat[path].FileNode? && ReadOf(g.read, path).Some? ==>
      path in g.read && g.read[path].FileNode? && g.read[path].meta == g.stat[path].meta
  }

  /**
   * The pair that is remembered of a file was true at one of the two moments exactly if
   * the content was the same at the first, or the state the same at the second.
   */
  lemma {:induction false} RememberedTrue(g: Glance, look: Look)
    requires SeenIn(g, look)
    ensures TrueAt(g.stat, look) || TrueAt(g.read, look) <==>
      ReadOf(g.stat, look.key.path) == Some(look.bytes)
        || (g.read[look.key.path].FileNode? && g.read[look.key.path].meta == look.meta)
    ensures Steady(g, look.key.path) ==> TrueAt(g.read, look)
  {
  }

  /** A file that is edited in between: its old state is remembered with the hash of its new content. */
  lemma {:induction false} EditedBetween(h: Hashing, path: string, c: Indexed, first: Bytes, second: Bytes)
    returns (g: Glance, look: Look)
    requires first != second && c.sha.None? && c.key.path == path && h.sensitive(path, c.kinds, second) == None
    ensures Examine(h, map[], g, c) == Rehashed(look.bytes, look.meta)
    ensures SeenIn(g, look) && !TrueAt(g.stat, look) && !TrueAt(g.read, look)
  {
    var old', new' := Meta(|first|, 1, 1), Meta(|second|, 2, 2);
    g := Glance(map[path := FileNode(old', Some(first))], map[path := FileNode(new', Some(second))]);
    look := Look(c.key, old', c.kinds, second);
  }

  lemma {:induction false} MoreLooks(h: Hashing, looks: seq<Look>, more: seq<Look>, key: FileKey, meta: Meta,
      sha: string)
    requires Supported(h, looks, key, meta, sha)
    ensures Supported(h, looks + more, key, meta, sha) && Supported(h, more + looks, key, meta, sha)
  {
    var look :| look in looks && Supports(h, look, key, meta, sha);
    assert look in looks + more && look in more + looks;
  }

  lemma {:induction false} OneMoreNoted(h: Hashing, looks: seq<Look>, updates: map<FileKey, HashUpdate>, key: FileKey,
      look: Look)
    requires Noted(h, looks, updates) && Supports(h, look, key, look.meta, h.sha(look.bytes))
    ensures Noted(h, looks + [look], updates[key := HashUpdate(look.meta, h.sha(look.bytes))])
  {
    var after := updates[key := HashUpdate(look.meta, h.sha(look.bytes))];
    forall other | other in after ensures Supported(h, looks + [look], other, after[other].meta, after[other].sha) {
      if other == key {
        assert look in looks + [look];
      } else {
        MoreLooks(h, looks, [look], other, after[other].meta, after[other].sha);
      }
    }
  }

  lemma {:induction false} TakeFileNoted(h: Hashing, blobs: Blobs, g: Glance, draft: Draft, c: Indexed,
      looks: seq<Look>)
    returns (more: seq<Look>)
    requires Noted(h, looks, draft.updates)
    ensures var taken := TakeFile(h, blobs, g, draft, c).1; taken.Ok? ==> Noted(h, looks + more, taken.value.updates)
    ensures forall look | look in more :: SeenIn(g, look) && c.key == look.key && c.kinds == look.kinds
  {
    more := [];
    assert looks + more == looks;
    var examined := Examine(h, blobs, g, c);
    if examined.Rehashed? {
      var look := Look(c.key, examined.meta, c.kinds, examined.bytes);
      more := [look];
      OneMoreNoted(h, looks, draft.updates, c.key, look);
    }
  }

  lemma {:induction false} LookedAtLater(glances: nat -> Glance, front: seq<Indexed>, last: Indexed, look: Look)
    requires LookedAt(glances, front, look)
    ensures LookedAt(glances, front + [last], look)
  {
    var i: nat :| i < |front| && SeenIn(glances(i), look) && front[i].key == look.key && front[i].kinds == look.kinds;
    assert (front + [last])[i] == front[i];
  }

  lemma {:induction false} LookedAtNow(glances: nat -> Glance, front: seq<Indexed>, last: Indexed, look: Look)
    requires SeenIn(glances(|front|), look) && last.key == look.key && last.kinds == look.kinds
    ensures LookedAt(glances, front + [last], look)
  {
    assert (front + [last])[|front|] == last;
  }

  /** Every hash that a creation remembers comes from a look at the file, with the state it was found in. */
  lemma {:induction false} TakeFilesNoted(h: Hashing, blobs: Blobs, glances: nat -> Glance, draft: Draft,
      files: seq<Indexed>, looks: seq<Look>)
    returns (more: seq<Look>)
    requires Noted(h, looks, draft.updates)
    ensures var taken := TakeFiles(h, blobs, glances, draft, files).1;
      taken.Ok? ==> Noted(h, looks + more, taken.value.updates)
    ensures forall look | look in more :: LookedAt(glances, files, look)
  {
    more := [];
    assert looks + more == looks;
    if files != [] {
      var n := |files| - 1;
      var first := TakeFilesNoted(h, blobs, glances, draft, files[..n], looks);
      var (before, taken) := TakeFiles(h, blobs, glances, draft, files[..n]);
      if taken.Ok? {
        var second := TakeFileNoted(h, before, glances(n), taken.value, files[n], looks + first);
        more := first + second;
        Regroup(looks, first, second);
        assert files == files[..n] + [files[n]];
        forall look | look in more ensures LookedAt(glances, files, look) {
          if look in first {
            LookedAtLater(glances, files[..n], files[n], look);
          } else {
            LookedAtNow(glances, files[..n], files[n], look);
          }
        }
      }
    }
  }

  /** Applying the updates keeps every cached hash supported. */
  lemma {:induction false} UpdatesRemembered(h: Hashing, looks: seq<Look>, updates: map<FileKey, HashUpdate>,
      files: seq<Indexed>)
    requires Remembered(h, looks, files) && Noted(h, looks, updates)
    ensures Remembered(h, looks, ApplyUpdates(updates, files))
  {
    var after := ApplyUpdates(updates, files);
    forall c | c in after && c.sha.Some? ensures Supported(h, looks, c.key, c.meta, c.sha.value) {
      var k :| 0 <= k < |files| && after[k] == c;
      assert files[k] in files;
    }
  }

  /**
   * A cached hash gives the same entry as rehashing would, exactly when the content is
   * not sensitive under the kinds that the file has now.
   */
  lemma {:induction false} CachedExact(h: Hashing, blobs: Blobs, g: Glance, draft: Draft, c: Indexed, bytes: Bytes)
    requires Reliable(h) && Sound(h, blobs) && Examine(h, blobs, g, c).Reused?
    requires ReadOf(g.read, c.key.path) == Some(bytes) && h.sha(bytes) == c.sha.value && |bytes| == c.meta.size
    ensures var cached, reread := TakeFile(h, blobs, g, draft, c), TakeFile(h, blobs, g, draft, c.(sha := None));
      && cached.1.Ok? && reread.1.Ok? && cached.0 == reread.0 == blobs
      && (cached.1.value.files == reread.1.value.files <==> h.sensitive(c.key.path, c.kinds, bytes) == None)
      && (h.sensitive(c.key.path, c.kinds, bytes) == None ==> cached.1.value.excluded == reread.1.value.excluded)
  {
    var entry := EntryOf(c, c.meta.size, c.sha.value);
    assert |draft.files + [entry]| != |draft.files|;
    RereadTaken(h, blobs, g, draft, c, bytes);
  }

  /** Reading a file whose content the blob store has. */
  lemma {:induction false} RereadTaken(h: Hashing, blobs: Blobs, g: Glance, draft: Draft, c: Indexed, bytes: Bytes)
    requires Reliable(h) && Sound(h, blobs) && Examine(h, blobs, g, c).Reused?
    requires ReadOf(g.read, c.key.path) == Some(bytes) && h.sha(bytes) == c.sha.value && |bytes| == c.meta.size
    ensures var reread := TakeFile(h, blobs, g, draft, c.(sha := None));
      && reread.0 == blobs && reread.1.Ok?
      && (if h.sensitive(c.key.path, c.kinds, bytes) == None
          then reread.1.value.files == draft.files + [EntryOf(c, c.meta.size, c.sha.value)]
               && reread.1.value.excluded == draft.excluded
          else reread.1.value.files == draft.files)
  {
    RereadExamined(h, blobs, g, c, bytes);
    StoredAgain(h, blobs, h.sha(bytes), bytes);
  }

  lemma {:induction false} RereadExamined(h: Hashing, blobs: Blobs, g: Glance, c: Indexed, bytes: Bytes)
    requires Examine(h, blobs, g, c).Reused? && ReadOf(g.read, c.key.path) == Some(bytes)
    ensures c.sha.Some? && Reusable(h, blobs, c.sha.value, c.meta.size)
    ensures Examine(h, blobs, g, c.(sha := None))
      == match h.sensitive(c.key.path, c.kinds, bytes)
         case Some(what) => Skipped(Sensitive(what))
         case None => Rehashed(bytes, c.meta)
  {
  }

  lemma {:induction false} StoredAgain(h: Hashing, blobs: Blobs, hash: string, bytes: Bytes)
    requires Sound(h, blobs) && Reusable(h, blobs, hash, |bytes|)
    ensures Stored(h, blobs, hash, bytes, false) == Ok(blobs)
  {
  }

  /** A file that was hashed under other kinds is taken by its hash although it is sensitive now. */
  lemma {:induction false} SkipsSecretScan(h: Hashing, c: Indexed, bytes: Bytes) returns (blobs: Blobs, g: Glance)
    requires Reliable(h) && c.sha == Some(h.sha(bytes)) && c.meta.size == |bytes|
    requires h.sensitive(c.key.path, c.kinds, bytes).Some?
    ensures Sound(h, blobs) && Examine(h, blobs, g, c).Reused?
    ensures Examine(h, blobs, g, c.(sha := None)) == Skipped(Sensitive(h.sensitive(c.key.path, c.kinds, bytes).value))
  {
    var disk: Disk := map[c.key.path := FileNode(c.meta, Some(bytes))];
    blobs, g := map[h.sha(bytes) := bytes], Glance(disk, disk);
  }
}
