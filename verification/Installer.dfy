/** Package installation in steps of which only a rename is atomic. */
module Installer {
  import opened Prelude

  type Bytes = seq<bv8>

  datatype FileEntry = FileEntry(path: string, size: nat, sha: string)

  /** A parsed package manifest; the identity stands for the integration, product and package names. */
  datatype Info = Info(identity: string, version: string, api: string, files: seq<FileEntry>)

  /** A package directory, complete or not. */
  datatype Dir = Dir(manifest: Option<string>, files: map<string, Bytes>)

  /** The file that says which version is installed; old ones do not name the manifest's hash. */
  datatype PointerFile = NoPointer | BadPointer | Pointer(version: string, manifestSha: Option<string>)

  /** What the disk holds for one integration: its root, and its staging directory. */
  datatype Disk = Disk(pointer: PointerFile, versions: map<string, Dir>, staging: Option<Dir>)

  datatype State = NotInstalled | Invalid | Verified(version: string, compatible: bool)

  /** A package that comes with the program. */
  datatype Bundle = Bundle(manifestText: string, info: Info, files: map<string, Bytes>)

  datatype InstallError = Incompatible | CorruptBundle | NotInstalledError | Blocked | NotVerified

  /** Hashes, the manifest parser, the expected identity and the supported interface. */
  datatype Env = Env(
    textSha: string -> string,
    sha: Bytes -> string,
    parse: string -> Option<Info>,
    identity: string,
    api: string)

  /** A bundle whose manifest was checked when the catalogue was read. Its files are not checked then. */
  predicate Trusted(env: Env, b: Bundle) {
    env.parse(b.manifestText) == Some(b.info) && b.info.identity == env.identity
  }

  /** Different manifests have different hashes. */
  ghost predicate ShaTellsTexts(env: Env) {
    forall s: string, t: string :: env.textSha(s) == env.textSha(t) ==> s == t
  }

  // ---------------------------------------------------------------------
  // Verification.

  predicate FileMatches(env: Env, files: map<string, Bytes>, f: FileEntry) {
    f.path in files && |files[f.path]| == f.size && env.sha(files[f.path]) == f.sha
  }

  predicate FilesMatch(env: Env, files: map<string, Bytes>, entries: seq<FileEntry>) {
    forall k | 0 <= k < |entries| :: FileMatches(env, files, entries[k])
  }

  /** A package directory against the version and manifest hash that it should have. */
  predicate IsPackage(env: Env, dir: Dir, version: string, manifestSha: string) {
    && dir.manifest.Some? && env.textSha(dir.manifest.value) == manifestSha
    && var info := env.parse(dir.manifest.value);
    && info.Some? && info.value.identity == env.identity && info.value.version == version
    && FilesMatch(env, dir.files, info.value.files)
  }

  function PackageState(env: Env, versions: map<string, Dir>, version: string, manifestSha: string): State {
    if version in versions && IsPackage(env, versions[version], version, manifestSha) then
      Verified(version, env.parse(versions[version].manifest.value).value.api == env.api)
    else Invalid
  }

  /** The hash that an installed manifest must have; an old pointer trusts the bundle of the same version. */
  function TrustedSha(env: Env, bundle: Option<Bundle>, pointer: PointerFile): Option<string>
    requires pointer.Pointer?
  {
    if pointer.manifestSha.Some? then pointer.manifestSha
    else if bundle.Some? && bundle.value.info.version == pointer.version
      then Some(env.textSha(bundle.value.manifestText))
    else None
  }

  /** What is installed, as a restart finds it. The staging directory plays no part. */
  function ReadInstalledState(env: Env, bundle: Option<Bundle>, disk: Disk): State {
    match disk.pointer
    case NoPointer => NotInstalled
    case BadPointer => Invalid
    case Pointer(version, _) =>
      var trusted := TrustedSha(env, bundle, disk.pointer);
      if trusted.None? then Invalid else PackageState(env, disk.versions, version, trusted.value)
  }

  /** The files of a package directory are those that its manifest lists, with their sizes and hashes. */
  predicate HoldsFiles(env: Env, dir: Dir, entries: seq<FileEntry>) {
    forall k | 0 <= k < |entries| ::
      var f := entries[k];
      f.path in dir.files && |dir.files[f.path]| == f.size && env.sha(dir.files[f.path]) == f.sha
  }

  /** The installed version is there, has the manifest it is trusted with, and is what that says. */
  ghost predicate IsVerifiedAs(env: Env, bundle: Option<Bundle>, disk: Disk, version: string, compatible: bool) {
    && disk.pointer.Pointer? && disk.pointer.version == version && version in disk.versions
    && disk.versions[version].manifest.Some?
    && var text := disk.versions[version].manifest.value;
    && (if disk.pointer.manifestSha != None then disk.pointer.manifestSha == Some(env.textSha(text))
        else bundle != None && bundle.value.info.version == version
             && env.textSha(text) == env.textSha(bundle.value.manifestText))
    && env.parse(text).Some?
    && var info := env.parse(text).value;
    && info.identity == env.identity && info.version == version && compatible == (info.api == env.api)
    && HoldsFiles(env, disk.versions[version], info.files)
  }

  /** What a restart finds, by what is on disk. */
  lemma {:induction false} StateExact(env: Env, bundle: Option<Bundle>, disk: Disk, version: string, compatible: bool)
    ensures ReadInstalledState(env, bundle, disk) == NotInstalled <==> disk.pointer == NoPointer
    ensures ReadInstalledState(env, bundle, disk) == Verified(version, compatible)
      <==> IsVerifiedAs(env, bundle, disk, version, compatible)
  {
    if version in disk.versions && disk.versions[version].manifest.Some? {
      var info := env.parse(disk.versions[version].manifest.value);
      if info.Some? {
        FilesExact(env, disk.versions[version], info.value.files);
      }
    }
  }

  lemma {:induction false} FilesExact(env: Env, dir: Dir, entries: seq<FileEntry>)
    ensures FilesMatch(env, dir.files, entries) <==> HoldsFiles(env, dir, entries)
  {
    if FilesMatch(env, dir.files, entries) {
      forall k | 0 <= k < |entries|
        ensures var f := entries[k];
          f.path in dir.files && |dir.files[f.path]| == f.size && env.sha(dir.files[f.path]) == f.sha
      {
        assert FileMatches(env, dir.files, entries[k]);
      }
    }
    if HoldsFiles(env, dir, entries) {
      forall k | 0 <= k < |entries| ensures FileMatches(env, dir.files, entries[k]) {
        var f := entries[k];
        assert f.path in dir.files;
      }
    }
  }

  // ---------------------------------------------------------------------
  // The steps of an installation.

  function BundleSha(env: Env, b: Bundle): string {
    env.textSha(b.manifestText)
  }

  /** The staging directory after the manifest and the first `n` files. */
  function Staged(b: Bundle, n: nat): Dir
    requires n <= |b.info.files| && forall k | 0 <= k < n :: b.info.files[k].path in b.files
  {
    if n == 0 then Dir(Some(b.manifestText), map[]) else
      var before, path := Staged(b, n - 1), b.info.files[n - 1].path;
      before.(files := before.files[path := b.files[path]])
  }

  predicate AllCopied(b: Bundle) {
    forall k | 0 <= k < |b.info.files| :: b.info.files[k].path in b.files
  }

  function FullyStaged(b: Bundle): Dir
    requires AllCopied(b)
  {
    Staged(b, |b.info.files|)
  }

  /** The disk after each copy into the staging directory. */
  function CopyTrace(disk: Disk, b: Bundle, n: nat): seq<Disk>
    requires n <= |b.info.files| && AllCopied(b)
  {
    if n == 0 then [disk.(staging := Some(Dir(None, map[]))), disk.(staging := Some(Staged(b, 0)))]
    else CopyTrace(disk, b, n - 1) + [disk.(staging := Some(Staged(b, n)))]
  }

  predicate TargetGood(env: Env, disk: Disk, b: Bundle) {
    b.info.version in disk.versions && IsPackage(env, disk.versions[b.info.version], b.info.version, BundleSha(env, b))
  }

  /** A directory of the bundle's version that is not the bundle's package is moved away. */
  function WithoutBadTarget(env: Env, disk: Disk, b: Bundle): Disk {
    if b.info.version in disk.versions && !TargetGood(env, disk, b)
      then disk.(versions := disk.versions - {b.info.version})
    else disk
  }

  /** The staged package takes its place, unless the place is taken by the same package. */
  function Placed(disk: Disk, b: Bundle, staged: Dir): Disk {
    disk.(versions := if b.info.version in disk.versions then disk.versions
      else disk.versions[b.info.version := staged],
          staging := None)
  }

  function Pointed(env: Env, disk: Disk, b: Bundle): Disk {
    disk.(pointer := Pointer(b.info.version, Some(BundleSha(env, b))))
  }

  /** Every state of the disk during an installation of a bundle whose files are all there. */
  function InstallTrace(env: Env, disk: Disk, b: Bundle): seq<Disk>
    requires AllCopied(b)
  {
    var cleared := WithoutBadTarget(env, disk, b).(staging := Some(FullyStaged(b)));
    var placed := Placed(cleared, b, FullyStaged(b));
    CopyTrace(disk, b, |b.info.files|) + [cleared, placed, Pointed(env, placed, b)]
  }

  /** What is tried, and the states of the disk on the way. */
  function Installing(env: Env, disk: Disk, b: Bundle): (seq<Disk>, Result<State, InstallError>) {
    if b.info.api != env.api then ([], Err(Incompatible))
    else if !FilesMatch(env, b.files, b.info.files) then ([], Err(CorruptBundle))
    else (InstallTrace(env, disk, b), Ok(Verified(b.info.version, true)))
  }

  /** A file that the manifest lists is missing in the bundle, or differs from what is listed. */
  predicate HasBadFile(env: Env, b: Bundle) {
    exists k | 0 <= k < |b.info.files| ::
      var f := b.info.files[k];
      f.path !in b.files || |b.files[f.path]| != f.size || env.sha(b.files[f.path]) != f.sha
  }

  /** The version of the bundle is installed as the bundle has it, and every other version is as before. */
  ghost predicate InstalledOver(env: Env, before: Disk, b: Bundle, after: Disk) {
    var version := b.info.version;
    && after.pointer == Pointer(version, Some(env.textSha(b.manifestText))) && after.staging == None
    && version in after.versions && after.versions[version].manifest == Some(b.manifestText)
    && HoldsFiles(env, after.versions[version], b.info.files)
    && (forall v | v != version :: v in after.versions <==> v in before.versions)
    && (forall v | v != version && v in before.versions :: after.versions[v] == before.versions[v])
  }

  /** An installation that was tried is refused for one of two reasons and then changes nothing, or is complete. */
  ghost predicate Attempted(env: Env, before: Disk, known: State, b: Bundle, after: Disk, state: State,
                            result: Result<(), InstallError>)
  {
    && (result == Err(Incompatible) <==> b.info.api != env.api)
    && (result == Err(CorruptBundle) <==> b.info.api == env.api && HasBadFile(env, b))
    && (result.Err? ==> result.error in {Incompatible, CorruptBundle} && after == before && state == known)
    && (result.Ok? ==> state == Verified(b.info.version, true) && InstalledOver(env, before, b, after))
  }

  // ---------------------------------------------------------------------
  // The service for one integration.

  class IntegrationPackage {
    const env: Env
    const bundle: Bundle
    var disk: Disk
    var state: State
    /** Every state that the disk went through, for a crash may leave any of them. */
    ghost var trace: seq<Disk>

    constructor (env: Env, bundle: Bundle, disk: Disk)
      ensures this.env == env && this.bundle == bundle && this.disk == disk.(staging := None) && trace == []
      ensures state == ReadInstalledState(env, Some(bundle), this.disk)
    {
      this.env, this.bundle := env, bundle;
      var cleaned := disk.(staging := None);
      this.disk, this.trace := cleaned, [];
      this.state := ReadInstalledState(env, Some(bundle), cleaned);
    }

    method Step(next: Disk)
      modifies this`disk, this`trace
      ensures disk == next && trace == old(trace) + [next]
    {
      disk := next;
      trace := trace + [next];
    }

    method CopyPackage()
      requires FilesMatch(env, bundle.files, bundle.info.files)
      modifies this`disk, this`trace
      ensures AllCopied(bundle)
      ensures disk == old(disk).(staging := Some(FullyStaged(bundle)))
      ensures trace == old(trace) + CopyTrace(old(disk), bundle, |bundle.info.files|)
    {
      assert AllCopied(bundle) by {
        assert forall k | 0 <= k < |bundle.info.files| :: FileMatches(env, bundle.files, bundle.info.files[k]);
      }
      Step(disk.(staging := Some(Dir(None, map[]))));
      Step(disk.(staging := Some(Dir(Some(bundle.manifestText), map[]))));
      for k := 0 to |bundle.info.files|
        invariant disk == old(disk).(staging := Some(Staged(bundle, k)))
        invariant trace == old(trace) + CopyTrace(old(disk), bundle, k)
      {
        var path := bundle.info.files[k].path;
        var staged := disk.staging.value;
        Step(disk.(staging := Some(staged.(files := staged.files[path := bundle.files[path]]))));
      }
    }

    /** Copies the bundle to its place, checks it there, and only then points to it. */
    method InstallAvailable() returns (result: Result<(), InstallError>)
      requires Trusted(env, bundle) && ShaTellsTexts(env)
      modifies this
      ensures trace == old(trace) + Installing(env, old(disk), bundle).0
      ensures result.Ok? <==> Installing(env, old(disk), bundle).1.Ok?
      ensures disk == LastDisk(old(disk), Installing(env, old(disk), bundle).0)
      ensures state == if result.Ok? then Installing(env, old(disk), bundle).1.value else old(state)
      ensures Attempted(env, old(disk), old(state), bundle, disk, state, result)
    {
      InstallationTold(env, disk, bundle);
      if bundle.info.api != env.api {
        return Err(Incompatible);
      }
      if !FilesMatch(env, bundle.files, bundle.info.files) {
        return Err(CorruptBundle);
      }
      CopyPackage();
      StagedIsPackage(env, bundle);
      assert IsPackage(env, disk.staging.value, bundle.info.version, BundleSha(env, bundle));
      ClearTarget(old(disk));
      PlacePackage();
      PlacedVerified(env, old(disk), bundle);
      result := Ok(());
    }

    /** Moves what stands in the version's place away, unless it is the bundle's package. */
    method ClearTarget(ghost before: Disk)
      requires AllCopied(bundle) && disk == before.(staging := Some(FullyStaged(bundle)))
      modifies this`disk, this`trace
      ensures disk == WithoutBadTarget(env, before, bundle).(staging := Some(FullyStaged(bundle)))
      ensures trace == old(trace) + [disk]
    {
      var version := bundle.info.version;
      if version in disk.versions && !IsPackage(env, disk.versions[version], version, BundleSha(env, bundle)) {
        Step(disk.(versions := disk.versions - {version}));
      } else {
        Step(disk);
      }
    }

    /** Renames the staged package to its place, checks it there, and points to it. */
    method PlacePackage()
      requires disk.staging.Some?
      modifies this
      ensures var placed := Placed(old(disk), bundle, old(disk).staging.value);
        && trace == old(trace) + [placed, Pointed(env, placed, bundle)]
        && disk == Pointed(env, placed, bundle)
        && state == PackageState(env, placed.versions, bundle.info.version, BundleSha(env, bundle))
    {
      Step(Placed(disk, bundle, disk.staging.value));
      var verified := PackageState(env, disk.versions, bundle.info.version, BundleSha(env, bundle));
      Step(Pointed(env, disk, bundle));
      state := verified;
    }

    method Install() returns (result: Result<(), InstallError>)
      requires Trusted(env, bundle) && ShaTellsTexts(env)
      modifies this
      ensures old(state).Verified? && old(state).compatible ==> result.Ok? && trace == old(trace) && disk == old(disk)
      ensures !(old(state).Verified? && old(state).compatible)
        ==> trace == old(trace) + Installing(env, old(disk), bundle).0
      ensures !(old(state).Verified? && old(state).compatible)
        ==> Attempted(env, old(disk), old(state), bundle, disk, state, result)
    {
      if state.Verified? && state.compatible {
        return Ok(());
      }
      result := InstallAvailable();
    }

    /** Installs the bundle over an installed version, unless that is the bundle's version already. */
    method Update() returns (result: Result<(), InstallError>)
      requires Trusted(env, bundle) && ShaTellsTexts(env)
      modifies this
      ensures trace == old(trace) + UpdateTrace(env, old(disk), old(state), bundle)
      ensures disk == LastDisk(old(disk), UpdateTrace(env, old(disk), old(state), bundle))
      ensures old(state).NotInstalled? ==>
        result == Err(NotInstalledError) && disk == old(disk) && state == old(state)
      ensures old(state) == Verified(bundle.info.version, true) ==>
        result.Ok? && disk == old(disk) && state == old(state)
      ensures !old(state).NotInstalled? && old(state) != Verified(bundle.info.version, true)
        ==> Attempted(env, old(disk), old(state), bundle, disk, state, result)
    {
      if state.NotInstalled? {
        return Err(NotInstalledError);
      }
      if state == Verified(bundle.info.version, true) {
        return Ok(());
      }
      result := InstallAvailable();
    }

    /** Moves the whole root away with one rename. */
    method Remove(allowed: bool) returns (result: Result<(), InstallError>)
      modifies this
      ensures result.Err? ==> disk == old(disk) && trace == old(trace) && state == old(state)
      ensures result.Ok? && !old(state).NotInstalled? ==>
        disk == Disk(NoPointer, map[], old(disk).staging) && trace == old(trace) + [disk] && state == NotInstalled
      ensures result.Ok? <==> old(state).NotInstalled? || allowed
    {
      if state.NotInstalled? {
        return Ok(());
      }
      if !allowed {
        return Err(Blocked);
      }
      Step(Disk(NoPointer, map[], disk.staging));
      state := NotInstalled;
      result := Ok(());
    }
  }

  function LastDisk(disk: Disk, trace: seq<Disk>): Disk {
    if trace == [] then disk else trace[|trace| - 1]
  }

  function UpdateTrace(env: Env, disk: Disk, state: State, b: Bundle): seq<Disk> {
    if state.NotInstalled? || state == Verified(b.info.version, true) then [] else Installing(env, disk, b).0
  }

  // ---------------------------------------------------------------------
  // Proof.

  lemma {:induction false} StagedFiles(env: Env, b: Bundle, n: nat)
    requires n <= |b.info.files| && AllCopied(b)
    ensures Staged(b, n).manifest == Some(b.manifestText)
    ensures forall k | 0 <= k < n :: b.info.files[k].path in Staged(b, n).files
    ensures forall p | p in Staged(b, n).files :: p in b.files && Staged(b, n).files[p] == b.files[p]
  {
    if n > 0 {
      StagedFiles(env, b, n - 1);
    }
  }

  /** The staged copy of a good bundle is the bundle's package. */
  lemma {:induction false} StagedIsPackage(env: Env, b: Bundle)
    requires Trusted(env, b) && FilesMatch(env, b.files, b.info.files) && AllCopied(b)
    ensures IsPackage(env, FullyStaged(b), b.info.version, BundleSha(env, b))
  {
    StagedFiles(env, b, |b.info.files|);
    forall k | 0 <= k < |b.info.files| ensures FileMatches(env, FullyStaged(b).files, b.info.files[k]) {
      assert FileMatches(env, b.files, b.info.files[k]);
    }
  }

  predicate Installable(env: Env, b: Bundle) {
    Trusted(env, b) && b.info.api == env.api && FilesMatch(env, b.files, b.info.files) && AllCopied(b)
  }

  /** The disk after the package was put in its place. */
  function AfterPlacing(env: Env, disk: Disk, b: Bundle): Disk
    requires AllCopied(b)
  {
    Placed(WithoutBadTarget(env, disk, b).(staging := Some(FullyStaged(b))), b, FullyStaged(b))
  }

  /** In its place there is the bundle's package, whether it was copied now or before. */
  lemma {:induction false} PlacedVerified(env: Env, disk: Disk, b: Bundle)
    requires Installable(env, b) && ShaTellsTexts(env)
    ensures PackageState(env, AfterPlacing(env, disk, b).versions, b.info.version, BundleSha(env, b))
      == Verified(b.info.version, true)
  {
    StagedIsPackage(env, b);
    StagedFiles(env, b, |b.info.files|);
    if TargetGood(env, disk, b) {
      assert disk.versions[b.info.version].manifest.value == b.manifestText;
    }
  }

  lemma {:induction false} PackageIsBundle(env: Env, dir: Dir, b: Bundle)
    requires Trusted(env, b) && ShaTellsTexts(env) && IsPackage(env, dir, b.info.version, BundleSha(env, b))
    ensures dir.manifest == Some(b.manifestText) && FilesMatch(env, dir.files, b.info.files)
  {
  }

  /** What is in the bundle's place afterwards, and what is beside it. */
  lemma {:induction false} PlacedOver(env: Env, disk: Disk, b: Bundle)
    requires Installable(env, b) && ShaTellsTexts(env)
    ensures InstalledOver(env, disk, b, Pointed(env, AfterPlacing(env, disk, b), b))
  {
    var placed := AfterPlacing(env, disk, b);
    StagedIsPackage(env, b);
    PackageIsBundle(env, placed.versions[b.info.version], b);
    FilesExact(env, placed.versions[b.info.version], b.info.files);
  }

  lemma {:induction false} BadFileExact(env: Env, b: Bundle)
    ensures HasBadFile(env, b) <==> !FilesMatch(env, b.files, b.info.files)
  {
    if !FilesMatch(env, b.files, b.info.files) {
      var k :| 0 <= k < |b.info.files| && !FileMatches(env, b.files, b.info.files[k]);
      var f := b.info.files[k];
      assert f.path !in b.files || |b.files[f.path]| != f.size || env.sha(b.files[f.path]) != f.sha;
    }
    if FilesMatch(env, b.files, b.info.files) {
      forall k | 0 <= k < |b.info.files| ensures FileMatches(env, b.files, b.info.files[k]) {
      }
    }
  }

  /** What an installation leads to, told by the bundle alone. */
  lemma {:induction false} InstallationTold(env: Env, disk: Disk, b: Bundle)
    requires Trusted(env, b) && ShaTellsTexts(env)
    ensures var (trace, result) := Installing(env, disk, b);
      && (result == Err(Incompatible) <==> b.info.api != env.api)
      && (result == Err(CorruptBundle) <==> b.info.api == env.api && HasBadFile(env, b))
      && (result.Err? ==> result.error in {Incompatible, CorruptBundle} && trace == [])
      && (result.Ok? ==> result.value == Verified(b.info.version, true)
                         && InstalledOver(env, disk, b, LastDisk(disk, trace)))
  {
    BadFileExact(env, b);
    if b.info.api == env.api && FilesMatch(env, b.files, b.info.files) {
      assert AllCopied(b) by {
        assert forall k | 0 <= k < |b.info.files| :: FileMatches(env, b.files, b.info.files[k]);
      }
      PlacedOver(env, disk, b);
    }
  }

  predicate SameInstalled(a: Disk, b: Disk) {
    a.pointer == b.pointer && a.versions == b.versions
  }

  /** Whatever a crash leaves in the staging directory, a restart finds the same installation. */
  lemma {:induction false} StagingIgnored(env: Env, bundle: Option<Bundle>, a: Disk, b: Disk)
    requires SameInstalled(a, b)
    ensures ReadInstalledState(env, bundle, a) == ReadInstalledState(env, bundle, b)
  {
  }

  lemma {:induction false} CopyOnlyStages(disk: Disk, b: Bundle, n: nat, k: nat)
    requires n <= |b.info.files| && AllCopied(b) && k < |CopyTrace(disk, b, n)|
    ensures SameInstalled(CopyTrace(disk, b, n)[k], disk)
  {
    if n > 0 && k < |CopyTrace(disk, b, n - 1)| {
      CopyOnlyStages(disk, b, n - 1, k);
    }
  }

  function Read(env: Env, b: Bundle, disk: Disk): State {
    ReadInstalledState(env, Some(b), disk)
  }

  lemma {:induction false} PointedVerified(env: Env, disk: Disk, b: Bundle)
    requires Installable(env, b) && ShaTellsTexts(env)
    ensures Read(env, b, Pointed(env, AfterPlacing(env, disk, b), b)) == Verified(b.info.version, true)
  {
    PlacedVerified(env, disk, b);
  }

  /** A version other than the bundle's is not touched before the pointer moves. */
  lemma {:induction false} OtherVersionStays(env: Env, disk: Disk, b: Bundle)
    requires AllCopied(b) && (disk.pointer.Pointer? ==> disk.pointer.version != b.info.version)
    ensures Read(env, b, WithoutBadTarget(env, disk, b)) == Read(env, b, disk)
    ensures Read(env, b, AfterPlacing(env, disk, b)) == Read(env, b, disk)
  {
  }

  /** The installed version is the bundle's, verifies, and is not the bundle's package. */
  predicate Replaces(env: Env, disk: Disk, b: Bundle) {
    var before := Read(env, b, disk);
    before.Verified? && before.version == b.info.version && !TargetGood(env, disk, b)
  }

  lemma {:induction false} SameVersionSafe(env: Env, disk: Disk, b: Bundle)
    requires Installable(env, b) && ShaTellsTexts(env)
    requires disk.pointer.Pointer? && disk.pointer.version == b.info.version && !Replaces(env, disk, b)
    ensures Read(env, b, WithoutBadTarget(env, disk, b)) == Read(env, b, disk)
    ensures Read(env, b, AfterPlacing(env, disk, b)) in {Read(env, b, disk), Verified(b.info.version, true)}
  {
    if !TargetGood(env, disk, b) {
      StagedFiles(env, b, |b.info.files|);
      PlacedVerified(env, disk, b);
    }
  }

  /** At every point of an installation a restart finds the old installation or the new one. */
  ghost predicate CrashSafe(env: Env, disk: Disk, b: Bundle) {
    forall k | 0 <= k < |Installing(env, disk, b).0| ::
      Read(env, b, Installing(env, disk, b).0[k]) in {Read(env, b, disk), Verified(b.info.version, true)}
  }

  /** Where the states of an installation come from. */
  lemma {:induction false} TraceParts(env: Env, disk: Disk, b: Bundle, k: nat)
    requires Installable(env, b) && k < |InstallTrace(env, disk, b)|
    ensures var trace, n := InstallTrace(env, disk, b), |CopyTrace(disk, b, |b.info.files|)|;
      && |trace| == n + 3
      && (k < n ==> SameInstalled(trace[k], disk))
      && (k == n ==> SameInstalled(trace[k], WithoutBadTarget(env, disk, b)))
      && (k == n + 1 ==> trace[k] == AfterPlacing(env, disk, b))
      && (k == n + 2 ==> trace[k] == Pointed(env, AfterPlacing(env, disk, b), b))
  {
    var n := |CopyTrace(disk, b, |b.info.files|)|;
    if k < n {
      CopyOnlyStages(disk, b, |b.info.files|, k);
    }
  }

  lemma {:induction false} InstallPointSafe(env: Env, disk: Disk, b: Bundle, k: nat)
    requires Installable(env, b) && ShaTellsTexts(env) && !Replaces(env, disk, b) && k < |InstallTrace(env, disk, b)|
    ensures Read(env, b, InstallTrace(env, disk, b)[k]) in {Read(env, b, disk), Verified(b.info.version, true)}
  {
    var trace, n := InstallTrace(env, disk, b), |CopyTrace(disk, b, |b.info.files|)|;
    TraceParts(env, disk, b, k);
    if k < n {
      StagingIgnored(env, Some(b), trace[k], disk);
    } else if k == n + 2 {
      PointedVerified(env, disk, b);
    } else {
      StagingIgnored(env, Some(b), trace[k], if k == n then WithoutBadTarget(env, disk, b) else trace[k]);
      if disk.pointer.Pointer? && disk.pointer.version == b.info.version {
        SameVersionSafe(env, disk, b);
      } else {
        OtherVersionStays(env, disk, b);
      }
    }
  }

  /**
   * An installation is safe against a crash at any point, exactly when it does not
   * replace a verified package of the very same version by a different one.
   */
  lemma {:induction false} InstallCrashSafe(env: Env, disk: Disk, b: Bundle)
    requires Trusted(env, b) && ShaTellsTexts(env) && Installing(env, disk, b).1.Ok?
    ensures CrashSafe(env, disk, b) <==> !Replaces(env, disk, b)
  {
    var trace, n := InstallTrace(env, disk, b), |CopyTrace(disk, b, |b.info.files|)|;
    if Replaces(env, disk, b) {
      TraceParts(env, disk, b, n);
      StagingIgnored(env, Some(b), trace[n], WithoutBadTarget(env, disk, b));
      assert Read(env, b, Installing(env, disk, b).0[n]) == Invalid;
    } else {
      forall k | 0 <= k < |trace|
        ensures Read(env, b, trace[k]) in {Read(env, b, disk), Verified(b.info.version, true)}
      {
        InstallPointSafe(env, disk, b, k);
      }
    }
  }

  /**
   * An update of a verified and compatible installation, with the service's state as on
   * disk: before its last step a restart finds the old version, and after it the new
   * one. So the move of the pointer is the only point where anything changes.
   */
  lemma {:induction false} UpdateCrashAtomic(env: Env, disk: Disk, b: Bundle, k: nat)
    requires Trusted(env, b) && ShaTellsTexts(env)
    requires Read(env, b, disk).Verified? && Read(env, b, disk).compatible
    requires k < |UpdateTrace(env, disk, Read(env, b, disk), b)|
    ensures var trace := UpdateTrace(env, disk, Read(env, b, disk), b);
      Read(env, b, trace[k]) == if k == |trace| - 1 then Verified(b.info.version, true) else Read(env, b, disk)
  {
    var trace, n := InstallTrace(env, disk, b), |CopyTrace(disk, b, |b.info.files|)|;
    TraceParts(env, disk, b, k);
    OtherVersionStays(env, disk, b);
    PointedVerified(env, disk, b);
    if k < n {
      StagingIgnored(env, Some(b), trace[k], disk);
    } else if k == n {
      StagingIgnored(env, Some(b), trace[k], WithoutBadTarget(env, disk, b));
    }
  }

  /** The states of the disk when an installation is asked for. */
  function InstallTraceFrom(env: Env, disk: Disk, state: State, b: Bundle): seq<Disk> {
    if state.Verified? && state.compatible then [] else Installing(env, disk, b).0
  }

  /** At every point of a trace a restart finds the installation of `disk` or the new one. */
  ghost predicate TraceSafe(env: Env, disk: Disk, b: Bundle, trace: seq<Disk>) {
    forall k | 0 <= k < |trace| :: Read(env, b, trace[k]) in {Read(env, b, disk), Verified(b.info.version, true)}
  }

  /**
   * When the service's state is as on disk, installing and updating are safe against
   * a crash exactly when no incompatible package of the same version is replaced: a
   * compatible one of that version is left as it is.
   */
  lemma {:induction false} ServiceCrashSafe(env: Env, disk: Disk, b: Bundle)
    requires Trusted(env, b) && ShaTellsTexts(env) && Installing(env, disk, b).1.Ok?
    ensures var state := Read(env, b, disk);
      && (TraceSafe(env, disk, b, InstallTraceFrom(env, disk, state, b))
        <==> !(Replaces(env, disk, b) && !state.compatible))
      && (TraceSafe(env, disk, b, UpdateTrace(env, disk, state, b)) <==> !(Replaces(env, disk, b) && !state.compatible))
  {
    InstallCrashSafe(env, disk, b);
    assert CrashSafe(env, disk, b) <==> TraceSafe(env, disk, b, Installing(env, disk, b).0);
  }

  // ---------------------------------------------------------------------
  // Crashes and restarts, any number of times.

  /** One life of the program: it starts, installs or updates, and stops after so many steps. */
  datatype Session = Session(update: bool, steps: nat)

  /** A start empties the staging directory. */
  function Started(disk: Disk): Disk {
    disk.(staging := None)
  }

  function SessionTrace(env: Env, disk: Disk, b: Bundle, s: Session): seq<Disk> {
    var state := Read(env, b, disk);
    if s.update then UpdateTrace(env, disk, state, b) else InstallTraceFrom(env, disk, state, b)
  }

  /** The disk that a session leaves behind. */
  function AfterSession(env: Env, disk: Disk, b: Bundle, s: Session): Disk {
    var trace := SessionTrace(env, Started(disk), b, s);
    if trace == [] || s.steps == 0 then Started(disk)
    else trace[(if s.steps < |trace| then s.steps else |trace|) - 1]
  }

  function AfterSessions(env: Env, disk: Disk, b: Bundle, sessions: seq<Session>): Disk {
    if sessions == [] then disk else
      AfterSession(env, AfterSessions(env, disk, b, sessions[..|sessions| - 1]), b, sessions[|sessions| - 1])
  }

  /** However often the program crashes and starts again, it finds the old installation or the new one. */
  ghost predicate RestartSafe(env: Env, disk: Disk, b: Bundle) {
    forall sessions: seq<Session> ::
      Read(env, b, AfterSessions(env, disk, b, sessions)) in {Read(env, b, disk), Verified(b.info.version, true)}
  }

  lemma {:induction false} StartIgnored(env: Env, disk: Disk, b: Bundle)
    ensures Read(env, b, Started(disk)) == Read(env, b, disk)
  {
    StagingIgnored(env, Some(b), Started(disk), disk);
  }

  lemma {:induction false} SessionSafe(env: Env, disk: Disk, b: Bundle, s: Session)
    requires Trusted(env, b) && ShaTellsTexts(env) && Read(env, b, disk) != Verified(b.info.version, false)
    ensures Read(env, b, AfterSession(env, disk, b, s)) in {Read(env, b, disk), Verified(b.info.version, true)}
  {
    StartIgnored(env, disk, b);
    if Installing(env, Started(disk), b).1.Ok? {
      ServiceCrashSafe(env, Started(disk), b);
      assert TraceSafe(env, Started(disk), b, SessionTrace(env, Started(disk), b, s));
    }
  }

  lemma {:induction false} SessionsSafe(env: Env, disk: Disk, b: Bundle, sessions: seq<Session>)
    requires Trusted(env, b) && ShaTellsTexts(env) && Read(env, b, disk) != Verified(b.info.version, false)
    ensures Read(env, b, AfterSessions(env, disk, b, sessions)) in {Read(env, b, disk), Verified(b.info.version, true)}
  {
    if sessions != [] {
      var front, last := sessions[..|sessions| - 1], sessions[|sessions| - 1];
      SessionsSafe(env, disk, b, front);
      SessionSafe(env, AfterSessions(env, disk, b, front), b, last);
    }
  }

  /** The one unsafe session: it stops when the incompatible package of the same version has been moved away. */
  lemma {:induction false} UnsafeSession(env: Env, disk: Disk, b: Bundle)
    requires Trusted(env, b) && ShaTellsTexts(env) && Installing(env, Started(disk), b).1.Ok?
    requires Read(env, b, disk) == Verified(b.info.version, false)
    ensures var s := Session(false, |CopyTrace(Started(disk), b, |b.info.files|)| + 1);
      Read(env, b, AfterSession(env, disk, b, s)) == Invalid
  {
    var start := Started(disk);
    var n := |CopyTrace(start, b, |b.info.files|)|;
    StartIgnored(env, disk, b);
    if TargetGood(env, start, b) {
      BundleIsCompatible(env, start, b);
    }
    TraceParts(env, start, b, n);
    StagingIgnored(env, Some(b), InstallTrace(env, start, b)[n], WithoutBadTarget(env, start, b));
  }

  lemma {:induction false} BundleIsCompatible(env: Env, disk: Disk, b: Bundle)
    requires Installable(env, b) && ShaTellsTexts(env) && TargetGood(env, disk, b)
    ensures Read(env, b, disk).Verified? && Read(env, b, disk).version == b.info.version
      ==> Read(env, b, disk).compatible
  {
    assert disk.versions[b.info.version].manifest.value == b.manifestText;
  }

  /**
   * Any number of crashes and restarts is safe, exactly when the program does not find an
   * incompatible package of its own version.
   */
  lemma {:induction false} RestartsExact(env: Env, disk: Disk, b: Bundle)
    requires Trusted(env, b) && ShaTellsTexts(env) && Installing(env, Started(disk), b).1.Ok?
    ensures RestartSafe(env, disk, b) <==> Read(env, b, disk) != Verified(b.info.version, false)
  {
    if Read(env, b, disk) == Verified(b.info.version, false) {
      UnsafeSession(env, disk, b);
      var unsafe := [Session(false, |CopyTrace(Started(disk), b, |b.info.files|)| + 1)];
      assert AfterSessions(env, disk, b, unsafe[..0]) == disk;
      assert Read(env, b, AfterSessions(env, disk, b, unsafe)) == Invalid;
    } else {
      forall sessions: seq<Session>
        ensures Read(env, b, AfterSessions(env, disk, b, sessions))
          in {Read(env, b, disk), Verified(b.info.version, true)}
      {
        SessionsSafe(env, disk, b, sessions);
      }
    }
  }

  /** Whatever the crashes left behind, an installation that is not interrupted leaves a package that can be used. */
  lemma {:induction false} UndisturbedInstalls(env: Env, disk: Disk, b: Bundle, steps: nat)
    requires Trusted(env, b) && ShaTellsTexts(env) && Installing(env, Started(disk), b).1.Ok?
    requires steps >= |InstallTrace(env, Started(disk), b)|
    ensures var before, after := Read(env, b, disk), Read(env, b, AfterSession(env, disk, b, Session(false, steps)));
      after == if before.Verified? && before.compatible then before else Verified(b.info.version, true)
  {
    StartIgnored(env, disk, b);
    PointedVerified(env, Started(disk), b);
    TraceParts(env, Started(disk), b, |InstallTrace(env, Started(disk), b)| - 1);
  }

  /** Interfaces "1" and "2" of one version, whose manifests have no files. */
  function TwoInterfaces(): Env {
    Env((text: string) => text, (content: Bytes) => "",
        (text: string) => Some(Info("agent-lens", "1.0.0", if text == "new" then "2" else "1", [])), "agent-lens", "2")
  }

  /** Such an installation: the program was updated to an interface that the installed package does not have. */
  lemma {:induction false} IncompatibleReplaced()
    ensures var env, b := TwoInterfaces(), Bundle("new", Info("agent-lens", "1.0.0", "2", []), map[]);
      var disk := Disk(Pointer("1.0.0", Some("old")), map["1.0.0" := Dir(Some("old"), map[])], None);
      && Trusted(env, b) && ShaTellsTexts(env) && Installing(env, disk, b).1.Ok?
      && Replaces(env, disk, b) && Read(env, b, disk) == Verified("1.0.0", false)
  {
    var env, b := TwoInterfaces(), Bundle("new", Info("agent-lens", "1.0.0", "2", []), map[]);
    var installed := Dir(Some("old"), map[]);
    assert IsPackage(env, installed, "1.0.0", "old") && !IsPackage(env, installed, "1.0.0", "new");
  }
}
