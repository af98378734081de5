/** What a snapshot covers: the files and exclusions of the index that the scope asks for. */
module BackupScope {
  import opened Prelude
  import opened StableSorting
  import opened BackupVault

  /** What was indexed, taken or excluded: a path of a source, with its kinds. */
  datatype Place = Place(sourceId: string, path: string, kinds: seq<string>)

  /** The source is asked for, and so is one of the kinds; nothing given asks for all. */
  predicate InScope(scope: Scope, place: Place) {
    && (scope.sourceIds == None || place.sourceId in scope.sourceIds.value)
    && (scope.kinds == None || exists k | 0 <= k < |place.kinds| :: place.kinds[k] in scope.kinds.value)
  }

  function FilePlace(c: Indexed): Place {
    Place(c.key.sourceId, c.key.path, c.kinds)
  }

  function EntryPlace(e: ManifestFile): Place {
    Place(e.key.sourceId, e.key.path, e.kinds)
  }

  function ExcludedPlace(e: Excluded): Place {
    Place(e.sourceId, e.path, e.kinds)
  }

  /** What the scope asks for, in order. */
  function Asked<T>(scope: Scope, place: T -> Place, s: seq<T>): seq<T> {
    if s == [] then []
    else if InScope(scope, place(s[|s| - 1])) then Asked(scope, place, s[..|s| - 1]) + [s[|s| - 1]]
    else Asked(scope, place, s[..|s| - 1])
  }

  function Places<T>(place: T -> Place, s: seq<T>): seq<Place> {
    FlatMap((x: T) => [place(x)], s)
  }

  /** Two lists hold together what two others do, each as often. */
  ghost predicate SameTogether(a: seq<Place>, b: seq<Place>, c: seq<Place>, d: seq<Place>) {
    multiset(a) + multiset(b) == multiset(c) + multiset(d)
  }

  /** An entry has the key, the archive path and the carried fields of an indexed file. */
  predicate IsEntryOf(e: ManifestFile, c: Indexed) {
    e.key == c.key && e.archivePath == c.archivePath && e.rest == c.rest && e.kinds == c.kinds
  }

  /**
   * An entry tells what a look at its file found: a plain file that either has the
   * indexed state, with the indexed hash, or holds content that is not sensitive.
   */
  predicate EntryAsSeen(h: Hashing, g: Glance, c: Indexed, e: ManifestFile) {
    && IsEntryOf(e, c) && c.key.path in g.stat && g.stat[c.key.path].FileNode?
    && var content := ReadOf(g.read, c.key.path);
       || (g.stat[c.key.path].meta == c.meta && c.sha == Some(e.sha) && e.size == c.meta.size)
       || (content.Some? && h.sensitive(c.key.path, c.kinds, content.value) == None
           && e.size == |content.value| && e.sha == h.sha(content.value))
  }

  /** An exclusion tells why a look at its file gave no entry. */
  predicate ExclusionAsSeen(h: Hashing, g: Glance, c: Indexed, x: Excluded) {
    && ExcludedPlace(x) == FilePlace(c)
    && var content := ReadOf(g.read, c.key.path);
       if c.key.path !in g.stat || g.stat[c.key.path].OtherNode? then x.reason == Unreadable
       else if g.stat[c.key.path].LinkNode? then x.reason == SymbolicLink
       else if content == None then x.reason == Unreadable
       else x.reason.Sensitive? && h.sensitive(c.key.path, c.kinds, content.value) == Some(x.reason.what)
  }

  /** The file is there as an entry or as an exclusion, as it was seen. */
  ghost predicate AsSeen(h: Hashing, g: Glance, c: Indexed, files: seq<ManifestFile>, excluded: seq<Excluded>) {
    || (exists e | e in files :: EntryAsSeen(h, g, c, e))
    || (exists x | x in excluded :: ExclusionAsSeen(h, g, c, x))
  }

  ghost predicate AllAsSeen(h: Hashing, glances: nat -> Glance, asked: seq<Indexed>, files: seq<ManifestFile>,
                            excluded: seq<Excluded>)
  {
    forall i | 0 <= i < |asked| :: AsSeen(h, glances(i), asked[i], files, excluded)
  }

  /** Entries come by their archive paths, exclusions by source and then by path. */
  predicate InOrder(rank: Rank, m: Manifest) {
    && (forall i, j | 0 <= i < j < |m.files| :: rank(m.files[i].archivePath) <= rank(m.files[j].archivePath))
    && (forall i, j | 0 <= i < j < |m.excluded| ::
          || rank(m.excluded[i].sourceId) < rank(m.excluded[j].sourceId)
          || (rank(m.excluded[i].sourceId) == rank(m.excluded[j].sourceId)
              && rank(m.excluded[i].path) <= rank(m.excluded[j].path)))
  }

  /**
   * The manifest names what the scope asks for and nothing else: each file and each
   * exclusion of the index exactly once, as an entry or as an exclusion.
   */
  ghost predicate Covers(scope: Scope, inventory: Inventory, m: Manifest) {
    && (forall e | e in m.files :: InScope(scope, EntryPlace(e)) && exists c | c in inventory.files :: IsEntryOf(e, c))
    && (forall x | x in m.excluded :: InScope(scope, ExcludedPlace(x)))
    && (forall x | x in inventory.excluded && InScope(scope, ExcludedPlace(x)) :: x in m.excluded)
    && SameTogether(Places(EntryPlace, m.files), Places(ExcludedPlace, m.excluded),
         Places(FilePlace, Asked(scope, FilePlace, inventory.files)),
         Places(ExcludedPlace, Asked(scope, ExcludedPlace, inventory.excluded)))
  }

  // ---------------------------------------------------------------------
  // Sorting and selecting.

  lemma {:induction false} PlacesSnoc<T>(place: T -> Place, s: seq<T>, x: T)
    ensures Places(place, s + [x]) == Places(place, s) + [place(x)]
  {
    FlatMapSnoc((y: T) => [place(y)], s, x);
  }

  lemma {:induction false} PlacesInsert<T>(place: T -> Place, key: T -> int, s: seq<T>, x: T)
    ensures multiset(Places(place, Insert(key, s, x))) == multiset(Places(place, s)) + multiset{place(x)}
  {
    if s != [] && key(s[|s| - 1]) > key(x) {
      var front, last := s[..|s| - 1], s[|s| - 1];
      PlacesInsert(place, key, front, x);
      PlacesSnoc(place, Insert(key, front, x), last);
      PlacesSnoc(place, front, last);
      assert s == front + [last];
    } else {
      PlacesSnoc(place, s, x);
    }
  }

  lemma {:induction false} PlacesSort<T>(place: T -> Place, key: T -> int, s: seq<T>)
    ensures multiset(Places(place, StableSort(key, s))) == multiset(Places(place, s))
  {
    if s != [] {
      var front, last := s[..|s| - 1], s[|s| - 1];
      PlacesSort(place, key, front);
      PlacesInsert(place, key, StableSort(key, front), last);
      PlacesSnoc(place, front, last);
      assert s == front + [last];
    }
  }

  lemma {:induction false} SortSame<T>(key: T -> int, s: seq<T>)
    ensures forall x :: x in StableSort(key, s) <==> x in s
  {
    SortElements(key, s);
    forall x ensures x in StableSort(key, s) <==> x in s {
      assert x in multiset(s) <==> x in s;
      assert x in multiset(StableSort(key, s)) <==> x in StableSort(key, s);
    }
  }

  predicate ComesFirst<T>(first: T -> int, second: T -> int, a: T, b: T) {
    first(a) < first(b) || (first(a) == first(b) && second(a) <= second(b))
  }

  /** By one key, and by a second where the first one ties. */
  predicate SortedByTwo<T>(first: T -> int, second: T -> int, s: seq<T>) {
    forall i, j | 0 <= i < j < |s| :: ComesFirst(first, second, s[i], s[j])
  }

  lemma {:induction false} FrontComesFirst<T>(first: T -> int, second: T -> int, front: seq<T>, last: T, x: T, y: T)
    requires SortedByTwo(first, second, front + [last]) && first(x) < first(last) && (y in front || y == x)
    ensures ComesFirst(first, second, y, last)
  {
    if y in front {
      var i :| 0 <= i < |front| && front[i] == y;
      assert ComesFirst(first, second, (front + [last])[i], (front + [last])[|front|]);
    }
  }

  lemma {:induction false} InsertByTwo<T>(first: T -> int, second: T -> int, s: seq<T>, x: T)
    requires SortedByTwo(first, second, s) && forall k | 0 <= k < |s| :: second(s[k]) <= second(x)
    ensures SortedByTwo(first, second, Insert(first, s, x))
  {
    if s != [] && first(s[|s| - 1]) > first(x) {
      var front, last := s[..|s| - 1], s[|s| - 1];
      InsertByTwo(first, second, front, x);
      InsertElements(first, front, x);
      var r := Insert(first, front, x);
      forall i | 0 <= i < |r| ensures ComesFirst(first, second, r[i], last) {
        assert r[i] in multiset(r);
        FrontComesFirst(first, second, front, last, x, r[i]);
      }
    }
  }

  /** Sorting by the second key and then by the first one. */
  lemma {:induction false} SortByTwo<T>(first: T -> int, second: T -> int, s: seq<T>)
    requires Sorted(second, s)
    ensures SortedByTwo(first, second, StableSort(first, s))
  {
    if s != [] {
      var front, last := s[..|s| - 1], s[|s| - 1];
      SortByTwo(first, second, front);
      SortElements(first, front);
      var r := StableSort(first, front);
      forall k | 0 <= k < |r| ensures second(r[k]) <= second(last) {
        assert r[k] in multiset(r);
        var i :| 0 <= i < |front| && front[i] == r[k];
        assert second(s[i]) <= second(s[|front|]);
      }
      InsertByTwo(first, second, r, last);
    }
  }

  lemma {:induction false} ManifestInOrder(h: Hashing, rank: Rank, id: string, createdAt: string, draft: Draft)
    ensures InOrder(rank, ManifestOf(h, rank, id, createdAt, draft))
  {
    SortSorted((f: ManifestFile) => rank(f.archivePath), draft.files);
    SortSorted((e: Excluded) => rank(e.path), draft.excluded);
    var byPath := StableSort((e: Excluded) => rank(e.path), draft.excluded);
    SortByTwo((e: Excluded) => rank(e.sourceId), (e: Excluded) => rank(e.path), byPath);
  }

  /** Selecting keeps exactly what the scope asks for. */
  lemma {:induction false} SelectedExact(scope: Scope, sourceId: string, path: string, kinds: seq<string>)
    ensures Selected(scope, sourceId, kinds) <==> InScope(scope, Place(sourceId, path, kinds))
  {
    if scope.kinds.Some? {
      if kind :| kind in scope.kinds.value && kind in kinds {
        var k :| 0 <= k < |kinds| && kinds[k] == kind;
        assert kinds[k] in scope.kinds.value;
      }
    }
  }

  lemma {:induction false} FilterAsked<T>(scope: Scope, keep: T -> bool, place: T -> Place, s: seq<T>)
    requires forall x :: keep(x) <==> InScope(scope, place(x))
    ensures Filter(keep, s) == Asked(scope, place, s)
  {
    if s != [] {
      FilterAsked(scope, keep, place, s[..|s| - 1]);
    }
  }

  lemma {:induction false} InAsked<T>(scope: Scope, place: T -> Place, s: seq<T>, x: T)
    ensures x in Asked(scope, place, s) <==> x in s && InScope(scope, place(x))
  {
    if s != [] {
      InAsked(scope, place, s[..|s| - 1], x);
      assert s == s[..|s| - 1] + [s[|s| - 1]];
    }
  }

  lemma {:induction false} FilesAsked(scope: Scope, inventory: Inventory)
    ensures SelectedFiles(scope, inventory) == Asked(scope, FilePlace, inventory.files)
  {
    forall c: Indexed
      ensures Selected(scope, c.key.sourceId, c.kinds) <==> InScope(scope, FilePlace(c))
    {
      SelectedExact(scope, c.key.sourceId, c.key.path, c.kinds);
    }
    FilterAsked(scope, (c: Indexed) => Selected(scope, c.key.sourceId, c.kinds), FilePlace, inventory.files);
  }

  lemma {:induction false} ExcludedAsked(scope: Scope, inventory: Inventory)
    ensures SelectedExcluded(scope, inventory) == Asked(scope, ExcludedPlace, inventory.excluded)
  {
    forall x: Excluded
      ensures Selected(scope, x.sourceId, x.kinds) <==> InScope(scope, ExcludedPlace(x))
    {
      SelectedExact(scope, x.sourceId, x.path, x.kinds);
    }
    FilterAsked(scope, (x: Excluded) => Selected(scope, x.sourceId, x.kinds), ExcludedPlace, inventory.excluded);
  }

  // ---------------------------------------------------------------------
  // Taking files.

  ghost predicate EntriesFrom(files: seq<Indexed>, entries: seq<ManifestFile>) {
    forall e | e in entries :: exists c | c in files :: IsEntryOf(e, c)
  }

  /** The exclusions are the ones at the start and then ones of the files. */
  ghost predicate ExcludedFrom(start: seq<Excluded>, files: seq<Indexed>, excluded: seq<Excluded>) {
    && start <= excluded
    && (forall x | x in excluded :: x in start || exists c | c in files :: ExcludedPlace(x) == FilePlace(c))
  }

  /** Each file was taken or excluded, once. */
  ghost predicate Accounts(start: seq<Excluded>, files: seq<Indexed>, draft: Draft) {
    && EntriesFrom(files, draft.files)
    && ExcludedFrom(start, files, draft.excluded)
    && SameTogether(Places(EntryPlace, draft.files), Places(ExcludedPlace, draft.excluded),
         Places(FilePlace, files), Places(ExcludedPlace, start))
  }

  ghost predicate AccountsIfOk(start: seq<Excluded>, files: seq<Indexed>, taken: Result<Draft, VaultError>) {
    taken.Ok? ==> Accounts(start, files, taken.value)
  }

  lemma {:induction false} OneMoreEntry(a: seq<Place>, b: seq<Place>, c: seq<Place>, d: seq<Place>, x: Place)
    requires SameTogether(a, b, c, d)
    ensures SameTogether(a + [x], b, c + [x], d)
  {
    assert multiset(a + [x]) == multiset(a) + multiset{x};
    assert multiset(c + [x]) == multiset(c) + multiset{x};
    assert multiset(a + [x]) + multiset(b) == (multiset(a) + multiset(b)) + multiset{x};
    assert multiset(c + [x]) + multiset(d) == (multiset(c) + multiset(d)) + multiset{x};
  }

  lemma {:induction false} OneMoreExcluded(a: seq<Place>, b: seq<Place>, c: seq<Place>, d: seq<Place>, x: Place)
    requires SameTogether(a, b, c, d)
    ensures SameTogether(a, b + [x], c + [x], d)
  {
    assert multiset(b + [x]) == multiset(b) + multiset{x};
    assert multiset(c + [x]) == multiset(c) + multiset{x};
    assert multiset(a) + multiset(b + [x]) == (multiset(a) + multiset(b)) + multiset{x};
    assert multiset(c + [x]) + multiset(d) == (multiset(c) + multiset(d)) + multiset{x};
  }

  lemma {:induction false} EntriesSnoc(files: seq<Indexed>, entries: seq<ManifestFile>, c: Indexed, e: ManifestFile)
    requires EntriesFrom(files, entries) && IsEntryOf(e, c)
    ensures EntriesFrom(files + [c], entries + [e])
  {
    assert c in files + [c];
    EntriesMore(files, entries, c);
  }

  lemma {:induction false} EntriesMore(files: seq<Indexed>, entries: seq<ManifestFile>, c: Indexed)
    requires EntriesFrom(files, entries)
    ensures EntriesFrom(files + [c], entries)
  {
    forall e | e in entries ensures exists d | d in files + [c] :: IsEntryOf(e, d) {
      var d :| d in files && IsEntryOf(e, d);
      assert d in files + [c];
    }
  }

  lemma {:induction false} ExcludedMore(start: seq<Excluded>, files: seq<Indexed>, excluded: seq<Excluded>, c: Indexed)
    requires ExcludedFrom(start, files, excluded)
    ensures ExcludedFrom(start, files + [c], excluded)
  {
    forall x | x in excluded && x !in start ensures exists d | d in files + [c] :: ExcludedPlace(x) == FilePlace(d) {
      var d :| d in files && ExcludedPlace(x) == FilePlace(d);
      assert d in files + [c];
    }
  }

  lemma {:induction false} ExcludedSnoc(start: seq<Excluded>, files: seq<Indexed>, excluded: seq<Excluded>, c: Indexed,
      x: Excluded)
    requires ExcludedFrom(start, files, excluded) && ExcludedPlace(x) == FilePlace(c)
    ensures ExcludedFrom(start, files + [c], excluded + [x])
  {
    ExcludedMore(start, files, excluded, c);
    assert c in files + [c];
  }

  lemma {:induction false} AccountsEntry(start: seq<Excluded>, files: seq<Indexed>, draft: Draft, c: Indexed,
      e: ManifestFile, updates: map<FileKey, HashUpdate>)
    requires Accounts(start, files, draft) && IsEntryOf(e, c)
    ensures Accounts(start, files + [c], Draft(draft.files + [e], draft.excluded, updates))
  {
    EntriesSnoc(files, draft.files, c, e);
    ExcludedMore(start, files, draft.excluded, c);
    PlacesSnoc(EntryPlace, draft.files, e);
    PlacesSnoc(FilePlace, files, c);
    OneMoreEntry(Places(EntryPlace, draft.files), Places(ExcludedPlace, draft.excluded), Places(FilePlace, files),
      Places(ExcludedPlace, start), EntryPlace(e));
  }

  lemma {:induction false} AccountsExcluded(start: seq<Excluded>, files: seq<Indexed>, draft: Draft, c: Indexed,
      x: Excluded)
    requires Accounts(start, files, draft) && ExcludedPlace(x) == FilePlace(c)
    ensures Accounts(start, files + [c], Draft(draft.files, draft.excluded + [x], draft.updates))
  {
    EntriesMore(files, draft.files, c);
    ExcludedSnoc(start, files, draft.excluded, c, x);
    PlacesSnoc(ExcludedPlace, draft.excluded, x);
    PlacesSnoc(FilePlace, files, c);
    OneMoreExcluded(Places(EntryPlace, draft.files), Places(ExcludedPlace, draft.excluded), Places(FilePlace, files),
      Places(ExcludedPlace, start), ExcludedPlace(x));
  }

  lemma {:induction false} AddAccounts(h: Hashing, blobs: Blobs, start: seq<Excluded>, files: seq<Indexed>,
      draft: Draft, c: Indexed, taken: Taken)
    requires Accounts(start, files, draft)
    ensures AccountsIfOk(start, files + [c], Add(h, blobs, draft, c, taken).1)
  {
    var added := Add(h, blobs, draft, c, taken).1;
    if added.Ok? {
      if taken.Skipped? {
        AccountsExcluded(start, files, draft, c, ExclusionOf(c, taken.reason));
      } else {
        var e := added.value.files[|draft.files|];
        AccountsEntry(start, files, draft, c, e, added.value.updates);
      }
    }
  }

  lemma {:induction false} TakeFileAccounts(h: Hashing, blobs: Blobs, g: Glance, start: seq<Excluded>,
      files: seq<Indexed>, draft: Draft)
    requires files != [] && Accounts(start, files[..|files| - 1], draft)
    ensures AccountsIfOk(start, files, TakeFile(h, blobs, g, draft, files[|files| - 1]).1)
  {
    var front, last := files[..|files| - 1], files[|files| - 1];
    AddAccounts(h, blobs, start, front, draft, last, Examine(h, blobs, g, last));
    assert files == front + [last];
  }

  lemma {:induction false} NothingTaken(start: seq<Excluded>)
    ensures Accounts(start, [], Draft([], start, map[]))
  {
    assert Places(EntryPlace, []) == Places(FilePlace, []);
  }

  lemma {:induction false} TakeFilesAccounts(h: Hashing, blobs: Blobs, glances: nat -> Glance, start: seq<Excluded>,
      files: seq<Indexed>)
    ensures AccountsIfOk(start, files, TakeFiles(h, blobs, glances, Draft([], start, map[]), files).1)
  {
    if files == [] {
      NothingTaken(start);
    } else {
      var n := |files| - 1;
      TakeFilesAccounts(h, blobs, glances, start, files[..n]);
      var (before, taken) := TakeFiles(h, blobs, glances, Draft([], start, map[]), files[..n]);
      if taken.Ok? {
        TakeFileAccounts(h, before, glances(n), start, files, taken.value);
      }
    }
  }

  /** What a look at a file leads to, as the entry or the exclusion tells it. */
  lemma {:induction false} AddAsSeen(h: Hashing, blobs: Blobs, g: Glance, draft: Draft, c: Indexed, taken: Taken)
    requires taken == Examine(h, blobs, g, c)
    ensures var added := Add(h, blobs, draft, c, taken).1;
      added.Ok? ==> AsSeen(h, g, c, added.value.files, added.value.excluded)
  {
    var added := Add(h, blobs, draft, c, taken).1;
    if added.Ok? {
      if taken.Skipped? {
        var x := ExclusionOf(c, taken.reason);
        assert x in added.value.excluded && ExclusionAsSeen(h, g, c, x);
      } else {
        var e := added.value.files[|draft.files|];
        assert e in added.value.files && EntryAsSeen(h, g, c, e);
      }
    }
  }

  ghost predicate KeepsDraft(draft: Draft, after: Draft) {
    && (forall e | e in draft.files :: e in after.files)
    && (forall x | x in draft.excluded :: x in after.excluded)
  }

  lemma {:induction false} StaysSeen(h: Hashing, g: Glance, c: Indexed, draft: Draft, after: Draft)
    requires AsSeen(h, g, c, draft.files, draft.excluded)
    requires KeepsDraft(draft, after)
    ensures AsSeen(h, g, c, after.files, after.excluded)
  {
  }

  lemma {:induction false} OneMoreSeen(h: Hashing, glances: nat -> Glance, files: seq<Indexed>, draft: Draft,
      after: Draft)
    requires files != [] && AllAsSeen(h, glances, files[..|files| - 1], draft.files, draft.excluded)
    requires KeepsDraft(draft, after)
    requires AsSeen(h, glances(|files| - 1), files[|files| - 1], after.files, after.excluded)
    ensures AllAsSeen(h, glances, files, after.files, after.excluded)
  {
    forall i | 0 <= i < |files| - 1 ensures AsSeen(h, glances(i), files[i], after.files, after.excluded) {
      assert AsSeen(h, glances(i), files[..|files| - 1][i], draft.files, draft.excluded);
      StaysSeen(h, glances(i), files[i], draft, after);
    }
  }

  lemma {:induction false} TakeFilesAsSeen(h: Hashing, blobs: Blobs, glances: nat -> Glance, start: Draft,
      files: seq<Indexed>)
    ensures var taken := TakeFiles(h, blobs, glances, start, files).1;
      taken.Ok? ==> AllAsSeen(h, glances, files, taken.value.files, taken.value.excluded)
  {
    if files != [] {
      var n := |files| - 1;
      TakeFilesAsSeen(h, blobs, glances, start, files[..n]);
      var (before, taken) := TakeFiles(h, blobs, glances, start, files[..n]);
      if taken.Ok? {
        var added := TakeFile(h, before, glances(n), taken.value, files[n]).1;
        AddAsSeen(h, before, glances(n), taken.value, files[n], Examine(h, before, glances(n), files[n]));
        if added.Ok? {
          OneMoreSeen(h, glances, files, taken.value, added.value);
        }
      }
    }
  }

  // ---------------------------------------------------------------------
  // The manifest.

  lemma {:induction false} ManifestPlaces(h: Hashing, rank: Rank, id: string, createdAt: string, draft: Draft)
    ensures var m := ManifestOf(h, rank, id, createdAt, draft);
      && multiset(Places(EntryPlace, m.files)) == multiset(Places(EntryPlace, draft.files))
      && multiset(Places(ExcludedPlace, m.excluded)) == multiset(Places(ExcludedPlace, draft.excluded))
      && (forall e :: e in m.files <==> e in draft.files)
      && (forall x :: x in m.excluded <==> x in draft.excluded)
  {
    var byPath := StableSort((e: Excluded) => rank(e.path), draft.excluded);
    PlacesSort(EntryPlace, (f: ManifestFile) => rank(f.archivePath), draft.files);
    PlacesSort(ExcludedPlace, (e: Excluded) => rank(e.path), draft.excluded);
    PlacesSort(ExcludedPlace, (e: Excluded) => rank(e.sourceId), byPath);
    SortSame((f: ManifestFile) => rank(f.archivePath), draft.files);
    SortSame((e: Excluded) => rank(e.path), draft.excluded);
    SortSame((e: Excluded) => rank(e.sourceId), byPath);
  }

  /** The snapshot covers exactly what its scope asks for, as it was seen and in order. */
  ghost predicate IsSnapshot(h: Hashing, rank: Rank, scope: Scope, s: Store, glances: nat -> Glance, m: Manifest) {
    && Covers(scope, s.inventory, m)
    && AllAsSeen(h, glances, Asked(scope, FilePlace, s.inventory.files), m.files, m.excluded)
    && InOrder(rank, m)
  }

  /** A creation adds one snapshot under a new id, or adds none and tells why. */
  ghost predicate IsCreation(h: Hashing, rank: Rank, scope: Scope, s: Store, id: string, createdAt: string,
                             glances: nat -> Glance, after: Store, result: Result<Manifest, VaultError>)
  {
    && (result.Ok? ==>
          && IsSnapshot(h, rank, scope, s, glances, result.value)
          && result.value.id == id && result.value.createdAt == createdAt
          && id !in s.vault.snapshots && after.vault.snapshots == s.vault.snapshots[id := result.value])
    && (result.Err? ==>
          && after.vault.snapshots == s.vault.snapshots && after.inventory == s.inventory
          && result.error in {EmptyScope, NothingFound, SnapshotExists, CorruptBlob})
    && (result == Err(EmptyScope) <==> scope.sourceIds == Some([]) || scope.kinds == Some([]))
    && (result == Err(NothingFound) <==>
          && scope.sourceIds != Some([]) && scope.kinds != Some([])
          && Asked(scope, FilePlace, s.inventory.files) == []
          && Asked(scope, ExcludedPlace, s.inventory.excluded) == [])
    && (result == Err(SnapshotExists) ==> id in s.vault.snapshots)
  }

  /** Creating a snapshot does what is promised. */
  lemma {:induction false} CreatedSnapshot(h: Hashing, rank: Rank, s: Store, scope: Scope, id: string,
      createdAt: string, glances: nat -> Glance)
    ensures var (after, result) := Created(h, rank, s, scope, id, createdAt, glances);
      IsCreation(h, rank, scope, s, id, createdAt, glances, after, result)
  {
    var files := Asked(scope, FilePlace, s.inventory.files);
    var excluded := Asked(scope, ExcludedPlace, s.inventory.excluded);
    FilesAsked(scope, s.inventory);
    ExcludedAsked(scope, s.inventory);
    TakingFails(h, s.vault.blobs, glances, Draft([], excluded, map[]), files);
    if Created(h, rank, s, scope, id, createdAt, glances).1.Ok? {
      CreatedCovers(h, rank, s, scope, id, createdAt, glances, files, excluded);
    }
  }

  lemma {:induction false} CreatedCovers(h: Hashing, rank: Rank, s: Store, scope: Scope, id: string, createdAt: string,
      glances: nat -> Glance, files: seq<Indexed>, excluded: seq<Excluded>)
    requires files == Asked(scope, FilePlace, s.inventory.files)
    requires excluded == Asked(scope, ExcludedPlace, s.inventory.excluded)
    requires CreatedFrom(h, rank, s, files, excluded, id, createdAt, glances).1.Ok?
    ensures IsSnapshot(h, rank, scope, s, glances,
              CreatedFrom(h, rank, s, files, excluded, id, createdAt, glances).1.value)
  {
    var start := Draft([], excluded, map[]);
    var draft := TakeFiles(h, s.vault.blobs, glances, start, files).1.value;
    TakeFilesAccounts(h, s.vault.blobs, glances, excluded, files);
    TakeFilesAsSeen(h, s.vault.blobs, glances, start, files);
    AccountsCover(h, rank, scope, s.inventory, id, createdAt, draft);
    ManifestInOrder(h, rank, id, createdAt, draft);
    ManifestSeen(h, rank, id, createdAt, glances, files, draft);
  }

  lemma {:induction false} TakingFails(h: Hashing, blobs: Blobs, glances: nat -> Glance, start: Draft,
      files: seq<Indexed>)
    ensures var taken := TakeFiles(h, blobs, glances, start, files).1; taken.Err? ==> taken.error == CorruptBlob
  {
    if files != [] {
      TakingFails(h, blobs, glances, start, files[..|files| - 1]);
    }
  }

  lemma {:induction false} ManifestSeen(h: Hashing, rank: Rank, id: string, createdAt: string, glances: nat -> Glance,
      files: seq<Indexed>, draft: Draft)
    requires AllAsSeen(h, glances, files, draft.files, draft.excluded)
    ensures var m := ManifestOf(h, rank, id, createdAt, draft); AllAsSeen(h, glances, files, m.files, m.excluded)
  {
    var m := ManifestOf(h, rank, id, createdAt, draft);
    ManifestPlaces(h, rank, id, createdAt, draft);
    forall i | 0 <= i < |files| ensures AsSeen(h, glances(i), files[i], m.files, m.excluded) {
      StaysSeen(h, glances(i), files[i], draft, Draft(m.files, m.excluded, map[]));
    }
  }

  lemma {:induction false} AccountsCover(h: Hashing, rank: Rank, scope: Scope, inventory: Inventory, id: string,
      createdAt: string, draft: Draft)
    requires Accounts(Asked(scope, ExcludedPlace, inventory.excluded), Asked(scope, FilePlace, inventory.files), draft)
    ensures Covers(scope, inventory, ManifestOf(h, rank, id, createdAt, draft))
  {
    var m := ManifestOf(h, rank, id, createdAt, draft);
    ManifestPlaces(h, rank, id, createdAt, draft);
    EntriesInScope(scope, inventory, draft);
    ExcludedInScope(scope, inventory, draft);
  }

  lemma {:induction false} EntriesInScope(scope: Scope, inventory: Inventory, draft: Draft)
    requires EntriesFrom(Asked(scope, FilePlace, inventory.files), draft.files)
    ensures forall e | e in draft.files ::
      InScope(scope, EntryPlace(e)) && exists c | c in inventory.files :: IsEntryOf(e, c)
  {
    forall e | e in draft.files
      ensures InScope(scope, EntryPlace(e)) && exists c | c in inventory.files :: IsEntryOf(e, c)
    {
      var c :| c in Asked(scope, FilePlace, inventory.files) && IsEntryOf(e, c);
      InAsked(scope, FilePlace, inventory.files, c);
      assert EntryPlace(e) == FilePlace(c);
    }
  }

  lemma {:induction false} ExcludedInScope(scope: Scope, inventory: Inventory, draft: Draft)
    requires ExcludedFrom(Asked(scope, ExcludedPlace, inventory.excluded), Asked(scope, FilePlace, inventory.files),
      draft.excluded)
    ensures forall x | x in draft.excluded :: InScope(scope, ExcludedPlace(x))
    ensures forall x | x in inventory.excluded && InScope(scope, ExcludedPlace(x)) :: x in draft.excluded
  {
    var start := Asked(scope, ExcludedPlace, inventory.excluded);
    forall x | x in draft.excluded ensures InScope(scope, ExcludedPlace(x)) {
      InAsked(scope, ExcludedPlace, inventory.excluded, x);
      if x !in start {
        var c :| c in Asked(scope, FilePlace, inventory.files) && ExcludedPlace(x) == FilePlace(c);
        InAsked(scope, FilePlace, inventory.files, c);
      }
    }
    forall x | x in inventory.excluded && InScope(scope, ExcludedPlace(x)) ensures x in draft.excluded {
      InAsked(scope, ExcludedPlace, inventory.excluded, x);
      var i :| 0 <= i < |start| && start[i] == x;
      assert draft.excluded[i] == x;
    }
  }
}
