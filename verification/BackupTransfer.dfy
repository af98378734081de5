/** What it takes to verify, export and import a snapshot, in terms of manifests, contents and paths. */
module BackupTransfer {
  import opened Prelude
  import opened BackupVault

  /** The manifest has its own digest, and every archive path passes the check. */
  predicate IsReadable(h: Hashing, m: Manifest) {
    && m.digest == h.digest(m.id, m.createdAt, m.files, m.excluded)
    && forall f | f in m.files :: h.safe(f.archivePath) != None
  }

  predicate IsContent(h: Hashing, f: ManifestFile, bytes: Bytes) {
    |bytes| == f.size && h.sha(bytes) == f.sha
  }

  /** The content that is read for a file: the blob of its hash or, without one, a file of the snapshot itself. */
  function Found(h: Hashing, v: Vault, id: string, f: ManifestFile): Option<Bytes> {
    if !h.isHash(f.sha) then None
    else if f.sha in v.blobs then Some(v.blobs[f.sha])
    else match h.safe(f.archivePath)
      case Some(path) => if (id, path) in v.legacy then Some(v.legacy[(id, path)]) else None
      case None => None
  }

  predicate IsHeld(h: Hashing, v: Vault, id: string, f: ManifestFile) {
    Found(h, v, id, f).Some? && IsContent(h, f, Found(h, v, id, f).value)
  }

  predicate AllHeld(h: Hashing, v: Vault, id: string, files: seq<ManifestFile>) {
    forall f | f in files :: IsHeld(h, v, id, f)
  }

  /** The archive paths of the files without content, in order. */
  function MissingPaths(h: Hashing, v: Vault, id: string, files: seq<ManifestFile>): seq<string> {
    if files == [] then [] else
      var before, last := MissingPaths(h, v, id, files[..|files| - 1]), files[|files| - 1];
      if Found(h, v, id, last) == None then before + [last.archivePath] else before
  }

  /** The archive paths of the files with another content than theirs, in order. */
  function MismatchedPaths(h: Hashing, v: Vault, id: string, files: seq<ManifestFile>): seq<string> {
    if files == [] then [] else
      var before, last := MismatchedPaths(h, v, id, files[..|files| - 1]), files[|files| - 1];
      if Found(h, v, id, last) != None && !IsHeld(h, v, id, last) then before + [last.archivePath] else before
  }

  /** Nothing is missing or mismatched exactly when all is there. */
  lemma {:induction false} NoPaths(h: Hashing, v: Vault, id: string, files: seq<ManifestFile>)
    ensures MissingPaths(h, v, id, files) == [] && MismatchedPaths(h, v, id, files) == []
      <==> AllHeld(h, v, id, files)
  {
    if files != [] {
      var front, last := files[..|files| - 1], files[|files| - 1];
      NoPaths(h, v, id, front);
      assert files == front + [last];
      AllHeldSnoc(h, v, id, front, last);
    }
  }

  lemma {:induction false} AllHeldSnoc(h: Hashing, v: Vault, id: string, front: seq<ManifestFile>, last: ManifestFile)
    ensures AllHeld(h, v, id, front + [last]) <==> AllHeld(h, v, id, front) && IsHeld(h, v, id, last)
  {
    assert forall f :: f in front + [last] <==> f in front || f == last;
  }

  lemma {:induction false} ReadableExact(h: Hashing, m: Manifest)
    ensures Genuine(h, m) <==> IsReadable(h, m)
  {
    if IsReadable(h, m) {
      forall k | 0 <= k < |m.files| ensures h.safe(m.files[k].archivePath).Some? {
        assert m.files[k] in m.files;
      }
    }
    if Genuine(h, m) {
      forall f | f in m.files ensures h.safe(f.archivePath) != None {
        var k :| 0 <= k < |m.files| && m.files[k] == f;
      }
    }
  }

  lemma {:induction false} HeldExact(h: Hashing, v: Vault, id: string, f: ManifestFile)
    ensures ReadFile(h, v, id, f) == Found(h, v, id, f)
    ensures Intact(h, v, id, f) <==> IsHeld(h, v, id, f)
  {
  }

  lemma {:induction false} AllHeldExact(h: Hashing, v: Vault, id: string, files: seq<ManifestFile>)
    ensures (forall k | 0 <= k < |files| :: Intact(h, v, id, files[k])) <==> AllHeld(h, v, id, files)
  {
    forall f ensures Intact(h, v, id, f) <==> IsHeld(h, v, id, f) {
      HeldExact(h, v, id, f);
    }
    if forall k | 0 <= k < |files| :: Intact(h, v, id, files[k]) {
      forall f | f in files ensures IsHeld(h, v, id, f) {
        var k :| 0 <= k < |files| && files[k] == f;
        assert Intact(h, v, id, files[k]);
      }
    }
    if AllHeld(h, v, id, files) {
      forall k | 0 <= k < |files| ensures Intact(h, v, id, files[k]) {
        assert files[k] in files;
      }
    }
  }

  lemma {:induction false} VerifiesExact(h: Hashing, v: Vault, id: string)
    ensures Verifies(h, v, id)
      <==> id in v.snapshots && IsReadable(h, v.snapshots[id]) && AllHeld(h, v, id, v.snapshots[id].files)
  {
    if id in v.snapshots {
      ReadableExact(h, v.snapshots[id]);
      AllHeldExact(h, v, id, v.snapshots[id].files);
    }
  }

  // ---------------------------------------------------------------------
  // Export.

  /** A snapshot is packed when it is there, readable and all there, with the content of each of its files. */
  ghost predicate IsExport(h: Hashing, v: Vault, id: string, result: Result<Bundle, VaultError>) {
    && (result == Err(UnknownSnapshot) <==> id !in v.snapshots)
    && (result == Err(InvalidManifest) <==> id in v.snapshots && !IsReadable(h, v.snapshots[id]))
    && (result.Ok? <==>
          id in v.snapshots && IsReadable(h, v.snapshots[id]) && AllHeld(h, v, id, v.snapshots[id].files))
    && (result.Err? ==> result.error in {UnknownSnapshot, InvalidManifest, NotIntact})
    && (result.Ok? ==>
          var m, files := result.value.manifest, result.value.files;
          && m == v.snapshots[id] && |files| == |m.files|
          && forall k | 0 <= k < |files| ::
               files[k].archivePath == m.files[k].archivePath && IsContent(h, m.files[k], files[k].bytes))
  }

  lemma {:induction false} ExportTold(h: Hashing, v: Vault, id: string)
    ensures IsExport(h, v, id, Exported(h, v, id))
  {
    VerifiesExact(h, v, id);
    if id in v.snapshots {
      ReadableExact(h, v.snapshots[id]);
      if Exported(h, v, id).Ok? {
        var m, files := v.snapshots[id], Exported(h, v, id).value.files;
        forall k | 0 <= k < |files|
          ensures files[k].archivePath == m.files[k].archivePath && IsContent(h, m.files[k], files[k].bytes)
        {
          assert Matches(h, m.files[k], files[k].bytes);
        }
      }
    }
  }

  // ---------------------------------------------------------------------
  // Import.

  /** The paths of a bundle pass the check and are distinct afterwards. */
  predicate ProperPaths(h: Hashing, files: seq<BundleFile>) {
    && (forall k | 0 <= k < |files| :: h.safe(files[k].archivePath) != None)
    && (forall i, k | 0 <= i < k < |files| :: h.safe(files[i].archivePath) != h.safe(files[k].archivePath))
  }

  /** A file of the bundle has the checked path and the content of the entry. */
  predicate Carries(h: Hashing, files: seq<BundleFile>, e: ManifestFile) {
    exists k | 0 <= k < |files| ::
      h.safe(files[k].archivePath) == Some(e.archivePath) && IsContent(h, e, files[k].bytes)
  }

  /** There are as many files as entries, and one for each entry. */
  predicate PairsUp(h: Hashing, entries: seq<ManifestFile>, files: seq<BundleFile>) {
    ProperPaths(h, files) && |files| == |entries| && forall e | e in entries :: Carries(h, files, e)
  }

  /** The contents are those of the files, by their checked paths. */
  ghost predicate AreContents(h: Hashing, files: seq<BundleFile>, contents: map<string, Bytes>) {
    && |contents| == |files|
    && (forall k | 0 <= k < |files| ::
          h.safe(files[k].archivePath).Some? && h.safe(files[k].archivePath).value in contents
          && contents[h.safe(files[k].archivePath).value] == files[k].bytes)
    && (forall path | path in contents :: exists k | 0 <= k < |files| :: h.safe(files[k].archivePath) == Some(path))
  }

  lemma {:induction false} OneMoreKey<K, V>(m: map<K, V>, key: K, value: V)
    requires key !in m
    ensures |m[key := value]| == |m| + 1
  {
    assert m[key := value].Keys == m.Keys + {key};
    assert |m.Keys| == |m| && |m[key := value].Keys| == |m[key := value]|;
  }

  lemma {:induction false} ContentsMore(h: Hashing, front: seq<BundleFile>, last: BundleFile, path: string,
      contents: map<string, Bytes>)
    requires AreContents(h, front, contents) && h.safe(last.archivePath) == Some(path) && path !in contents
    ensures AreContents(h, front + [last], contents[path := last.bytes])
  {
    var files, more := front + [last], contents[path := last.bytes];
    OneMoreKey(contents, path, last.bytes);
    forall p | p in more ensures exists k | 0 <= k < |files| :: h.safe(files[k].archivePath) == Some(p) {
      if p == path {
        assert files[|front|] == last;
      } else {
        var k :| 0 <= k < |front| && h.safe(front[k].archivePath) == Some(p);
        assert files[k] == front[k];
      }
    }
  }

  lemma {:induction false} FileMapExact(h: Hashing, files: seq<BundleFile>)
    ensures FileMap(h, files).Ok? <==> ProperPaths(h, files)
    ensures FileMap(h, files).Ok? ==> AreContents(h, files, FileMap(h, files).value)
  {
    if files != [] {
      var front, last := files[..|files| - 1], files[|files| - 1];
      FileMapExact(h, front);
      assert files == front + [last];
      var before, path := FileMap(h, front), h.safe(last.archivePath);
      if before.Ok? && path.Some? {
        LastPathNew(h, front, last, path.value, before.value);
        if path.value !in before.value {
          ContentsMore(h, front, last, path.value, before.value);
        }
      } else {
        NotProper(h, front, last);
      }
    }
  }

  lemma {:induction false} NotProper(h: Hashing, front: seq<BundleFile>, last: BundleFile)
    requires !ProperPaths(h, front) || h.safe(last.archivePath) == None
    ensures !ProperPaths(h, front + [last])
  {
    var files := front + [last];
    if ProperPaths(h, files) {
      assert h.safe(files[|front|].archivePath) != None;
      forall k | 0 <= k < |front| ensures h.safe(front[k].archivePath) != None {
        assert files[k] == front[k];
      }
      forall i, k | 0 <= i < k < |front| ensures h.safe(front[i].archivePath) != h.safe(front[k].archivePath) {
        assert files[i] == front[i] && files[k] == front[k];
      }
    }
  }

  lemma {:induction false} LastPathNew(h: Hashing, front: seq<BundleFile>, last: BundleFile, path: string,
      contents: map<string, Bytes>)
    requires ProperPaths(h, front) && AreContents(h, front, contents) && h.safe(last.archivePath) == Some(path)
    ensures ProperPaths(h, front + [last]) <==> path !in contents
  {
    var files := front + [last];
    if path in contents {
      var k :| 0 <= k < |front| && h.safe(front[k].archivePath) == Some(path);
      assert files[k] == front[k] && files[|front|] == last;
    }
  }

  lemma {:induction false} CompleteExact(h: Hashing, m: Manifest, files: seq<BundleFile>, contents: map<string, Bytes>)
    requires AreContents(h, files, contents)
    ensures Complete(h, m, contents) <==> |files| == |m.files| && forall e | e in m.files :: Carries(h, files, e)
  {
    if Complete(h, m, contents) {
      forall e | e in m.files ensures Carries(h, files, e) {
        var i :| 0 <= i < |m.files| && m.files[i] == e;
        var k :| 0 <= k < |files| && h.safe(files[k].archivePath) == Some(e.archivePath);
        assert Matches(h, m.files[i], contents[e.archivePath]);
      }
    }
    if |files| == |m.files| && forall e | e in m.files :: Carries(h, files, e) {
      forall i | 0 <= i < |m.files|
        ensures m.files[i].archivePath in contents && Matches(h, m.files[i], contents[m.files[i].archivePath])
      {
        assert m.files[i] in m.files;
        var k :| 0 <= k < |files| && h.safe(files[k].archivePath) == Some(m.files[i].archivePath)
          && IsContent(h, m.files[i], files[k].bytes);
      }
    }
  }

  /** What arrives is within both limits, and is a bundle with a readable manifest and the contents of its files. */
  predicate IsSound(h: Hashing, upload: Upload) {
    && upload.packed <= 256 * 1024 * 1024 && upload.json <= 768 * 1024 * 1024 && upload.bundle.Some?
    && IsReadable(h, upload.bundle.value.manifest)
    && PairsUp(h, upload.bundle.value.manifest.files, upload.bundle.value.files)
  }

  /** There is no snapshot of that id yet, or one with the same digest. */
  predicate IsWelcome(h: Hashing, v: Vault, m: Manifest) {
    m.id in v.snapshots ==> IsReadable(h, v.snapshots[m.id]) && v.snapshots[m.id].digest == m.digest
  }

  /**
   * A sound bundle that is welcome is added, or repairs the snapshot that is there; it fails
   * then only if that is not all there in the end. Any other upload changes nothing.
   */
  ghost predicate IsImport(h: Hashing, v: Vault, upload: Upload, after: Vault, result: Result<Manifest, VaultError>) {
    if IsSound(h, upload) then IsAdoption(h, v, upload.bundle.value.manifest, after, result)
    else result.Err? && after == v
  }

  lemma {:induction false} ImportTold(h: Hashing, v: Vault, upload: Upload)
    requires Reliable(h)
    ensures var (after, result) := Imported(h, v, upload); IsImport(h, v, upload, after, result)
  {
    if upload.packed <= MAX_IMPORT_BYTES && upload.json <= MAX_BUNDLE_JSON_BYTES && upload.bundle.Some? {
      var m, files := upload.bundle.value.manifest, upload.bundle.value.files;
      ReadableExact(h, m);
      FileMapExact(h, files);
      if Genuine(h, m) && FileMap(h, files).Ok? {
        CompleteExact(h, m, files, FileMap(h, files).value);
        if Complete(h, m, FileMap(h, files).value) {
          AdoptionTold(h, v, m, FileMap(h, files).value);
        }
      }
    }
  }

  /** What becomes of a sound bundle. */
  ghost predicate IsAdoption(h: Hashing, v: Vault, m: Manifest, after: Vault, result: Result<Manifest, VaultError>) {
    if !IsWelcome(h, v, m) then result.Err? && after == v
    else if m.id !in v.snapshots then result == Ok(m) && after.snapshots == v.snapshots[m.id := m]
    else
      && after.snapshots == v.snapshots
      && result == (if AllHeld(h, after, m.id, v.snapshots[m.id].files) then Ok(v.snapshots[m.id])
                    else Err(NotIntact))
  }

  lemma {:induction false} AdoptionTold(h: Hashing, v: Vault, m: Manifest, contents: map<string, Bytes>)
    requires Reliable(h) && AllMatch(h, m.files, contents)
    ensures var (after, result) := Adopted(h, v, m, contents); IsAdoption(h, v, m, after, result)
  {
    StoreAllBacks(h, v.blobs, m.files, contents);
    if m.id in v.snapshots {
      ReadableExact(h, v.snapshots[m.id]);
      if IsWelcome(h, v, m) {
        RepairTold(h, v, m, contents, v.(blobs := StoreAll(h, v.blobs, m.files, contents).value));
      }
    }
  }

  lemma {:induction false} RepairTold(h: Hashing, v: Vault, m: Manifest, contents: map<string, Bytes>, stored: Vault)
    requires AllMatch(h, m.files, contents) && StoreAll(h, v.blobs, m.files, contents) == Ok(stored.blobs)
    requires stored == v.(blobs := stored.blobs)
    requires m.id in v.snapshots && Genuine(h, v.snapshots[m.id]) && v.snapshots[m.id].digest == m.digest
    ensures Adopted(h, v, m, contents) == (stored,
      if AllHeld(h, stored, m.id, v.snapshots[m.id].files) then Ok(v.snapshots[m.id]) else Err(NotIntact))
  {
    ReadableExact(h, v.snapshots[m.id]);
    VerifiesExact(h, stored, m.id);
  }
}
