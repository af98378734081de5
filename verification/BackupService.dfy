/**
 * The local backup service over a vault on disk: creating, checking, exporting and
 * importing snapshots, as the functions of the vault specify.
 */
module BackupService {
  import opened Prelude
  import opened StableSorting
  import opened BackupVault
  import opened BackupScope
  import opened BackupTransfer

  datatype VerifyResult = VerifyResult(
    valid: bool,
    checkedFiles: nat,
    missingFiles: seq<string>,
    mismatchedFiles: seq<string>)

  /** A snapshot is valid when all its files are there; the others are listed, in order. */
  ghost predicate IsVerification(h: Hashing, v: Vault, id: string, files: seq<ManifestFile>, result: VerifyResult) {
    && (result.valid <==> AllHeld(h, v, id, files))
    && result.missingFiles == MissingPaths(h, v, id, files)
    && result.mismatchedFiles == MismatchedPaths(h, v, id, files)
    && result.checkedFiles == |files| - |result.missingFiles|
  }

  class LocalBackupService {
    const h: Hashing
    const rank: Rank
    var blobs: Blobs
    var snapshots: map<string, Manifest>
    var legacy: map<(string, string), Bytes>
    var inventory: Inventory

    constructor (h: Hashing, rank: Rank, v: Vault, inventory: Inventory)
      ensures View() == Store(v, inventory) && this.h == h && this.rank == rank
    {
      this.h, this.rank := h, rank;
      blobs, snapshots, legacy, this.inventory := v.blobs, v.snapshots, v.legacy, inventory;
    }

    function VaultView(): Vault
      reads this
    {
      Vault(blobs, snapshots, legacy)
    }

    function View(): Store
      reads this
    {
      Store(VaultView(), inventory)
    }

    /** Puts content under its hash; a damaged blob is replaced only when repair is allowed. */
    method StoreBlob(hash: string, bytes: Bytes, repairCorrupt: bool) returns (result: Result<(), VaultError>)
      modifies this`blobs
      ensures match Stored(h, old(blobs), hash, bytes, repairCorrupt)
        case Ok(after) => result.Ok? && blobs == after
        case Err(error) => result == Err(error) && blobs == old(blobs)
    {
      if hash !in blobs {
        blobs := blobs[hash := bytes];
        return Ok(());
      }
      var existing := blobs[hash];
      if |existing| != |bytes| || h.sha(existing) != hash {
        if !repairCorrupt || h.sha(bytes) != hash {
          return Err(CorruptBlob);
        }
        blobs := blobs[hash := bytes];
      }
      result := Ok(());
    }

    /** Remembers fresh hashes in the index entries that are still about the same state. */
    method ApplyHashUpdates(updates: map<FileKey, HashUpdate>)
      modifies this`inventory
      ensures inventory == old(inventory).(files := ApplyUpdates(updates, old(inventory).files))
    {
      var files := inventory.files;
      for i := 0 to |files|
        invariant |files| == |inventory.files| && inventory == old(inventory)
        invariant forall k | 0 <= k < i :: files[k] == Updated(updates, inventory.files[k])
        invariant forall k | i <= k < |files| :: files[k] == inventory.files[k]
      {
        var file := files[i];
        if file.key in updates && file.meta == updates[file.key].meta && file.sha != Some(updates[file.key].sha) {
          files := files[i := file.(sha := Some(updates[file.key].sha))];
        }
      }
      assert files == ApplyUpdates(updates, inventory.files);
      inventory := inventory.(files := files);
    }

    /** Looks at one file: what its cached hash, its content or its state lead to. */
    method TakeCandidate(g: Glance, draft: Draft, c: Indexed) returns (result: Result<Draft, VaultError>)
      modifies this`blobs
      ensures (blobs, result) == TakeFile(h, old(blobs), g, draft, c)
    {
      if c.key.path !in g.stat {
        return Ok(draft.(excluded := draft.excluded + [ExclusionOf(c, Unreadable)]));
      }
      var node := g.stat[c.key.path];
      if node.LinkNode? {
        return Ok(draft.(excluded := draft.excluded + [ExclusionOf(c, SymbolicLink)]));
      }
      if !node.FileNode? {
        return Ok(draft.(excluded := draft.excluded + [ExclusionOf(c, Unreadable)]));
      }
      if c.meta == node.meta && c.sha.Some? && Reusable(h, blobs, c.sha.value, c.meta.size) {
        return Ok(draft.(files := draft.files + [EntryOf(c, c.meta.size, c.sha.value)]));
      }
      var content := ReadOf(g.read, c.key.path);
      if content.None? {
        return Ok(draft.(excluded := draft.excluded + [ExclusionOf(c, Unreadable)]));
      }
      var bytes := content.value;
      var reason := h.sensitive(c.key.path, c.kinds, bytes);
      if reason.Some? {
        return Ok(draft.(excluded := draft.excluded + [ExclusionOf(c, Sensitive(reason.value))]));
      }
      var hash := h.sha(bytes);
      var stored := StoreBlob(hash, bytes, false);
      if stored.Err? {
        return Err(stored.error);
      }
      result := Ok(draft.(
        files := draft.files + [EntryOf(c, |bytes|, hash)],
        updates := draft.updates[c.key := HashUpdate(node.meta, hash)]));
    }

    /** Backs up what the index lists within the scope. The source files may change meanwhile. */
    method CreateSnapshot(scope: Scope, id: string, createdAt: string, glances: nat -> Glance)
      returns (result: Result<Manifest, VaultError>)
      modifies this
      ensures (View(), result) == Created(h, rank, old(View()), scope, id, createdAt, glances)
      ensures IsCreation(h, rank, scope, old(View()), id, createdAt, glances, View(), result)
    {
      CreatedSnapshot(h, rank, View(), scope, id, createdAt, glances);
      if IsEmptyScope(scope) {
        return Err(EmptyScope);
      }
      var files, excluded := SelectedFiles(scope, inventory), SelectedExcluded(scope, inventory);
      if |files| == 0 && |excluded| == 0 {
        return Err(NothingFound);
      }
      result := TakeAndCommit(files, excluded, id, createdAt, glances);
    }

    method TakeAndCommit(files: seq<Indexed>, excluded: seq<Excluded>, id: string, createdAt: string,
        glances: nat -> Glance)
      returns (result: Result<Manifest, VaultError>)
      modifies this
      ensures (View(), result) == CreatedFrom(h, rank, old(View()), files, excluded, id, createdAt, glances)
    {
      var start := Draft([], excluded, map[]);
      var taken := TakeAll(files, start, glances);
      if taken.Err? {
        return Err(taken.error);
      }
      var manifest := ManifestOf(h, rank, id, createdAt, taken.value);
      if id in snapshots {
        return Err(SnapshotExists);
      }
      snapshots := snapshots[id := manifest];
      ApplyHashUpdates(taken.value.updates);
      result := Ok(manifest);
    }

    method TakeAll(files: seq<Indexed>, start: Draft, glances: nat -> Glance) returns (taken: Result<Draft, VaultError>)
      modifies this`blobs
      ensures (blobs, taken) == TakeFiles(h, old(blobs), glances, start, files)
    {
      var draft := start;
      for i := 0 to |files|
        invariant (blobs, Ok(draft)) == TakeFiles(h, old(blobs), glances, start, files[..i])
      {
        assert files[..i + 1][..i] == files[..i];
        var next := TakeCandidate(glances(i), draft, files[i]);
        if next.Err? {
          TakeFails(h, old(blobs), glances, start, files, i + 1);
          return next;
        }
        draft := next.value;
      }
      assert files[..|files|] == files;
      taken := Ok(draft);
    }

    /** Reads every file of a snapshot again and compares its size and hash. */
    method VerifySnapshot(id: string) returns (result: Result<VerifyResult, VaultError>)
      ensures result == Err(UnknownSnapshot) <==> id !in snapshots
      ensures result == Err(InvalidManifest) <==> id in snapshots && !IsReadable(h, snapshots[id])
      ensures result.Err? ==> result.error in {UnknownSnapshot, InvalidManifest}
      ensures result.Ok? ==> (result.value.valid <==> Verifies(h, VaultView(), id))
      ensures result.Ok? ==> IsVerification(h, VaultView(), id, snapshots[id].files, result.value)
    {
      if id !in snapshots {
        return Err(UnknownSnapshot);
      }
      var manifest := snapshots[id];
      ReadableExact(h, manifest);
      if !Genuine(h, manifest) {
        return Err(InvalidManifest);
      }
      var checked, missing, mismatched := CompareFiles(id, manifest.files);
      NoPaths(h, VaultView(), id, manifest.files);
      VerifiesExact(h, VaultView(), id);
      result := Ok(VerifyResult(missing == [] && mismatched == [], checked, missing, mismatched));
    }

    method CompareFiles(id: string, files: seq<ManifestFile>)
      returns (checked: nat, missing: seq<string>, mismatched: seq<string>)
      ensures missing == MissingPaths(h, VaultView(), id, files) && checked + |missing| == |files|
      ensures mismatched == MismatchedPaths(h, VaultView(), id, files)
    {
      checked, missing, mismatched := 0, [], [];
      for i := 0 to |files|
        invariant checked + |missing| == i && missing == MissingPaths(h, VaultView(), id, files[..i])
        invariant mismatched == MismatchedPaths(h, VaultView(), id, files[..i])
      {
        assert files[..i + 1][..i] == files[..i];
        var file := files[i];
        HeldExact(h, VaultView(), id, file);
        var bytes := ReadFile(h, VaultView(), id, file);
        if bytes.None? {
          missing := missing + [file.archivePath];
        } else {
          checked := checked + 1;
          if |bytes.value| != file.size || h.sha(bytes.value) != file.sha {
            mismatched := mismatched + [file.archivePath];
          }
        }
      }
      assert files[..|files|] == files;
    }

    /** Packs a snapshot that verifies. */
    method ExportSnapshot(id: string) returns (result: Result<Bundle, VaultError>)
      ensures result == Exported(h, VaultView(), id)
      ensures IsExport(h, VaultView(), id, result)
    {
      ExportTold(h, VaultView(), id);
      if id !in snapshots {
        return Err(UnknownSnapshot);
      }
      var manifest := snapshots[id];
      if !Genuine(h, manifest) {
        return Err(InvalidManifest);
      }
      var verified := VerifySnapshot(id);
      if verified.Err? || !verified.value.valid {
        return Err(NotIntact);
      }
      ghost var all := BundleFiles(h, VaultView(), id, manifest.files);
      var files: seq<BundleFile> := [];
      for i := 0 to |manifest.files|
        invariant files == all[..i]
      {
        assert Intact(h, VaultView(), id, manifest.files[i]);
        files := files + [BundleFileOf(h, VaultView(), id, manifest.files[i])];
      }
      assert all[..|all|] == all;
      result := Ok(Bundle(manifest, files));
    }

    /** Checks the contents of a bundle against each other. */
    method ReadBundle(files: seq<BundleFile>) returns (result: Result<map<string, Bytes>, VaultError>)
      ensures result == FileMap(h, files)
    {
      var contents: map<string, Bytes> := map[];
      for i := 0 to |files|
        invariant FileMap(h, files[..i]) == Ok(contents)
      {
        assert files[..i + 1][..i] == files[..i];
        var path := h.safe(files[i].archivePath);
        if path.None? {
          FileMapFails(h, files, i + 1);
          return Err(InvalidBundle);
        }
        if path.value in contents {
          FileMapFails(h, files, i + 1);
          return Err(DuplicateFile);
        }
        contents := contents[path.value := files[i].bytes];
      }
      assert files[..|files|] == files;
      result := Ok(contents);
    }

    method StoreContents(files: seq<ManifestFile>, contents: map<string, Bytes>)
      returns (result: Result<(), VaultError>)
      requires Reliable(h) && AllMatch(h, files, contents)
      modifies this`blobs
      ensures result.Ok? && StoreAll(h, old(blobs), files, contents) == Ok(blobs)
    {
      for i := 0 to |files|
        invariant StoredSoFar(h, old(blobs), files, contents, i, blobs)
      {
        StoreNext(h, old(blobs), files, contents, i, blobs);
        var stored := StoreBlob(files[i].sha, contents[files[i].archivePath], true);
      }
      assert files[..|files|] == files;
      result := Ok(());
    }

    /** Takes a bundle in, or repairs the snapshot that it holds when the vault has it already. */
    method ImportSnapshot(upload: Upload) returns (result: Result<Manifest, VaultError>)
      requires Reliable(h)
      modifies this
      ensures (VaultView(), result) == Imported(h, old(VaultView()), upload) && inventory == old(inventory)
      ensures IsImport(h, old(VaultView()), upload, VaultView(), result)
    {
      ImportTold(h, VaultView(), upload);
      if upload.packed > MAX_IMPORT_BYTES {
        return Err(TooLarge);
      }
      if upload.json > MAX_BUNDLE_JSON_BYTES || upload.bundle.None? {
        return Err(InvalidBundle);
      }
      var manifest := upload.bundle.value.manifest;
      if !Genuine(h, manifest) {
        return Err(InvalidManifest);
      }
      var read := ReadBundle(upload.bundle.value.files);
      if read.Err? {
        return Err(read.error);
      }
      if !Complete(h, manifest, read.value) {
        return Err(FileMismatch);
      }
      result := Adopt(manifest, read.value);
    }

    method Adopt(manifest: Manifest, contents: map<string, Bytes>) returns (result: Result<Manifest, VaultError>)
      requires Reliable(h) && AllMatch(h, manifest.files, contents)
      modifies this
      ensures (VaultView(), result) == Adopted(h, old(VaultView()), manifest, contents) && inventory == old(inventory)
    {
      if manifest.id in snapshots {
        var existing := snapshots[manifest.id];
        if !Genuine(h, existing) {
          return Err(InvalidManifest);
        }
        if existing.digest != manifest.digest {
          return Err(SnapshotExists);
        }
        var repaired := StoreContents(manifest.files, contents);
        var verified := VerifySnapshot(manifest.id);
        if verified.Err? || !verified.value.valid {
          return Err(NotIntact);
        }
        return Ok(existing);
      }
      var stored := StoreContents(manifest.files, contents);
      snapshots := snapshots[manifest.id := manifest];
      result := Ok(manifest);
    }
  }

  /** A failure while taking files is the outcome of taking them all. */
  lemma {:induction false} TakeFails(h: Hashing, blobs: Blobs, glances: nat -> Glance, start: Draft,
      files: seq<Indexed>, n: nat)
    requires n <= |files| && TakeFiles(h, blobs, glances, start, files[..n]).1.Err?
    ensures TakeFiles(h, blobs, glances, start, files) == TakeFiles(h, blobs, glances, start, files[..n])
    decreases |files| - n
  {
    if n < |files| {
      assert files[..n + 1][..n] == files[..n];
      TakeFails(h, blobs, glances, start, files, n + 1);
    } else {
      assert files[..n] == files;
    }
  }

  lemma {:induction false} FileMapFails(h: Hashing, files: seq<BundleFile>, n: nat)
    requires n <= |files| && FileMap(h, files[..n]).Err?
    ensures FileMap(h, files) == FileMap(h, files[..n])
    decreases |files| - n
  {
    if n < |files| {
      assert files[..n + 1][..n] == files[..n];
      FileMapFails(h, files, n + 1);
    } else {
      assert files[..n] == files;
    }
  }

  ghost predicate StoredSoFar(h: Hashing, start: Blobs, files: seq<ManifestFile>, contents: map<string, Bytes>, i: nat,
      blobs: Blobs)
  {
    i <= |files| && AllMatch(h, files[..i], contents) && StoreAll(h, start, files[..i], contents) == Ok(blobs)
  }

  lemma {:induction false} StoreNext(h: Hashing, start: Blobs, files: seq<ManifestFile>, contents: map<string, Bytes>,
      i: nat, blobs: Blobs)
    requires i < |files| && AllMatch(h, files, contents) && StoredSoFar(h, start, files, contents, i, blobs)
    ensures files[i].archivePath in contents
    ensures var stored := Stored(h, blobs, files[i].sha, contents[files[i].archivePath], true);
      stored.Ok? && StoredSoFar(h, start, files, contents, i + 1, stored.value)
  {
    assert files[..i + 1] == files[..i] + [files[i]];
    assert Matches(h, files[i], contents[files[i].archivePath]);
    StoreAllSnoc(h, start, files[..i], files[i], contents);
  }
}
