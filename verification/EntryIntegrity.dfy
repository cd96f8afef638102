/** What it takes to be a readable entry, byte by byte, and what becomes of an entry whose bytes
    were tampered with. */
module EntryIntegrity {
  import opened Wrappers
  import opened CacheContracts
  import opened CacheFiles

  /** The three files, and no other file or directory, with these contents. */
  predicate Holds(d: Directory, payload: Bytes, manifest: Bytes, marker: Bytes) {
    d == map[PayloadBin := File(payload), ManifestJson := File(manifest), CompleteJson := File(marker)]
  }

  /** The manifest is one of `id` and records this payload; the marker records both. */
  predicate Records(pf: Platform, id: CacheIdentity, payload: Bytes, manifest: Bytes, marker: Bytes) {
    && pf.parseManifest(manifest).Accepted? && pf.parseMarker(marker).Accepted?
    && (var m, k := pf.parseManifest(manifest).value, pf.parseMarker(marker).value;
        && ValidManifest(pf, m) && ValidMarker(k) && m.identity == id
        && m.payloadSha256 == pf.sha256(payload) && m.payloadSizeBytes == |payload|
        && k.payloadSha256 == pf.sha256(payload) && k.manifestSha256 == pf.sha256(manifest))
  }

  /** A directory validates exactly when it holds a payload, a manifest that records it, and a
      marker that records both. */
  lemma ValidatesIff(pf: Platform, name: string, d: Directory, id: CacheIdentity, checkName: bool)
    requires checkName ==> name == CacheKey(pf, id)
    ensures ValidateDirectory(pf, name, d, CacheKey(pf, id), id, checkName).Ok? <==>
            exists payload, manifest, marker :: Holds(d, payload, manifest, marker) && Records(pf, id, payload, manifest, marker)
  {
    if ListingComplete(d) {
      assert Holds(d, d[PayloadBin].contents, d[ManifestJson].contents, d[CompleteJson].contents);
    }
  }

  /** What a reader may rely on: the bytes in place are the ones the artifact describes, and the
      artifact is one of the identity asked for. */
  lemma ReadMeans(pf: Platform, tree: Tree, id: CacheIdentity, a: CacheArtifact)
    requires ReadValidated(pf, tree, id) == Ok(Some(a))
    ensures var p := EntryPath(CacheKey(pf, id));
            && p in tree
            && (exists payload, manifest, marker ::
                  && Holds(tree[p], payload, manifest, marker) && Records(pf, id, payload, manifest, marker)
                  && a.payloadSha256 == pf.sha256(payload) && a.payloadSizeBytes == |payload|
                  && a.producingTaskIdentity == pf.parseManifest(manifest).value.producingTaskIdentity
                  && a.createdAt == pf.parseManifest(manifest).value.createdAt.iso)
            && a.cacheKey == CacheKey(pf, id) && a.artifactKind == id.artifactKind
            && a.sourceImplementationSha256 == id.sourceImplementationSha256 && a.dependencyLockSha256 == id.dependencyLockSha256
  {
    var d := tree[EntryPath(CacheKey(pf, id))];
    assert Holds(d, d[PayloadBin].contents, d[ManifestJson].contents, d[CompleteJson].contents);
  }

  /** A read succeeds exactly when such a directory is in place. */
  lemma ReadableIff(pf: Platform, tree: Tree, id: CacheIdentity)
    ensures (exists a :: ReadValidated(pf, tree, id) == Ok(Some(a))) <==>
            (&& EntryPath(CacheKey(pf, id)) in tree
             && exists payload, manifest, marker ::
                  Holds(tree[EntryPath(CacheKey(pf, id))], payload, manifest, marker) && Records(pf, id, payload, manifest, marker))
  {
    var p := EntryPath(CacheKey(pf, id));
    if p in tree {
      ValidatesIff(pf, p.name, tree[p], id, true);
      hide ValidateDirectory, Holds, Records;
      var v := ValidateDirectory(pf, p.name, tree[p], CacheKey(pf, id), id, true);
      if v.Ok? {
        assert ReadValidated(pf, tree, id) == Ok(Some(v.value));
      }
    }
  }

  const ZERO: string := seq(64, _ => '0')

  /** No entry is ever read under an identity with a placeholder for a digest, or a negative seed. */
  lemma PlaceholderIsNeverRead(pf: Platform, tree: Tree, id: CacheIdentity, a: CacheArtifact)
    requires || id.datasetSha256 == ZERO || id.splitSha256 == ZERO || id.viewCertificateSha256 == ZERO || id.modelSpecSha256 == ZERO
             || id.modelParametersSha256 == ZERO || id.checkpointSha256 == Some(ZERO) || id.dependencyLockSha256 == ZERO
             || id.sourceImplementationSha256 == ZERO || id.seed < 0
    ensures ReadValidated(pf, tree, id) != Ok(Some(a))
  {
    assert IsPlaceholder(ZERO);
  }

  /** No entry is ever read whose manifest is not finished, not passed, of another version or
      payload file, without a UTC time or a proper task identity, or at odds with its own identity
      record; nor one whose marker is of another version. */
  lemma FlawedManifestIsNeverRead(pf: Platform, tree: Tree, id: CacheIdentity, a: CacheArtifact, manifest: Bytes, marker: Bytes)
    requires var p := EntryPath(CacheKey(pf, id));
             && p in tree && ManifestJson in tree[p] && CompleteJson in tree[p]
             && tree[p][ManifestJson] == File(manifest) && tree[p][CompleteJson] == File(marker)
    requires pf.parseManifest(manifest).Accepted? && pf.parseMarker(marker).Accepted?
    requires var m, k := pf.parseManifest(manifest).value, pf.parseMarker(marker).value;
             || m.schemaVersion != 1 || !m.completed || m.validationStatus != "PASS" || m.payloadFile != "payload.bin" || !m.createdAt.utc
             || |m.producingTaskIdentity| != 64 || m.identity != id || m.identity.schemaVersion != 1 || m.cacheKey != CacheKey(pf, id)
             || m.artifactKind != id.artifactKind || m.sourceImplementationSha256 != id.sourceImplementationSha256
             || m.dependencyLockSha256 != id.dependencyLockSha256 || k.schemaVersion != 1
    ensures ReadValidated(pf, tree, id) != Ok(Some(a))
  {
    ReadableIff(pf, tree, id);
    var p := EntryPath(CacheKey(pf, id));
    forall payload, manifest', marker' | Holds(tree[p], payload, manifest', marker')
      ensures manifest' == manifest && marker' == marker && !Records(pf, id, payload, manifest', marker')
    {
    }
  }

  // ----- tampering -----

  /** A published directory whose payload or manifest was overwritten with bytes of another
      digest, or whose marker was removed, or which was given one more file. */
  datatype Tampering = NewPayload(bytes: Bytes) | NewManifest(bytes: Bytes) | NoMarker | ExtraFile(name: string, bytes: Bytes)

  function Tampered(d: Directory, t: Tampering): Directory {
    match t
    case NewPayload(bytes) => d[PayloadBin := File(bytes)]
    case NewManifest(bytes) => d[ManifestJson := File(bytes)]
    case NoMarker => d - {CompleteJson}
    case ExtraFile(name, bytes) => d[OtherName(name) := File(bytes)]
  }

  /** The bytes written are others, by their digest. */
  predicate Changes(pf: Platform, d: Directory, t: Tampering) {
    match t
    case NewPayload(bytes) => PayloadBin in d && d[PayloadBin].File? && pf.sha256(bytes) != pf.sha256(d[PayloadBin].contents)
    case NewManifest(bytes) => ManifestJson in d && d[ManifestJson].File? && pf.sha256(bytes) != pf.sha256(d[ManifestJson].contents)
    case _ => true
  }

  /** The one tampering that does not end in an integrity error: a manifest on which the parser
      raises something unhandled. */
  predicate Unreadable(pf: Platform, t: Tampering) {
    t.NewManifest? && pf.parseManifest(t.bytes).Raised?
  }

  /** A tampered entry is never accepted, for any identity; and a read of it says so. */
  lemma TamperedEntryIsBroken(pf: Platform, tree: Tree, id: CacheIdentity, payload: Bytes, task: string, createdAt: string, t: Tampering)
    requires Faithful(pf) && ValidIdentity(id) && IsSha256(task)
    requires var d := SealedDirectory(pf, id, payload, task, createdAt);
             && Changes(pf, d, t) && EntryPath(CacheKey(pf, id)) in tree
             && tree[EntryPath(CacheKey(pf, id))] == Tampered(d, t)
    ensures ReadValidated(pf, tree, id) == Err(if Unreadable(pf, t) then UnhandledError else IntegrityError)
    ensures Discover(pf, EntryPath(CacheKey(pf, id)), Tampered(SealedDirectory(pf, id, payload, task, createdAt), t)) == None
  {
    var d := SealedDirectory(pf, id, payload, task, createdAt);
    SealedParts(pf, id, payload, task, createdAt);
    hide SealedDirectory, Faithful, ValidIdentity, MakeManifest, MakeMarker, CacheKey, ValidManifest, ValidMarker;
    var d' := Tampered(d, t);
    match t
    case NewPayload(bytes) =>
    case NewManifest(bytes) =>
    case NoMarker => assert CompleteJson !in d';
    case ExtraFile(name, bytes) => assert OtherName(name) in d';
  }

  /** A directory as some publication under `id` left it. */
  ghost predicate IsPublished(pf: Platform, id: CacheIdentity, d: Directory) {
    exists payload, task, createdAt :: IsSha256(task) && d == SealedDirectory(pf, id, payload, task, createdAt)
  }

  /** Such a directory after tampering. */
  ghost predicate IsTampered(pf: Platform, id: CacheIdentity, d: Directory) {
    exists payload, task, createdAt, t ::
      IsSha256(task) && Changes(pf, SealedDirectory(pf, id, payload, task, createdAt), t) && !Unreadable(pf, t)
      && d == Tampered(SealedDirectory(pf, id, payload, task, createdAt), t)
  }

  lemma PublishedIsReadable(pf: Platform, tree: Tree, id: CacheIdentity)
    requires Faithful(pf) && ValidIdentity(id) && EntryPath(CacheKey(pf, id)) in tree
    ensures IsPublished(pf, id, tree[EntryPath(CacheKey(pf, id))]) ==> exists a :: ReadValidated(pf, tree, id) == Ok(Some(a))
    ensures IsTampered(pf, id, tree[EntryPath(CacheKey(pf, id))]) ==> ReadValidated(pf, tree, id) == Err(IntegrityError)
  {
    hide SealedDirectory, Faithful, ValidIdentity, CacheKey, Tampered, Changes, ValidateDirectory;
    var d := tree[EntryPath(CacheKey(pf, id))];
    if IsPublished(pf, id, d) {
      var payload, task, createdAt :| IsSha256(task) && d == SealedDirectory(pf, id, payload, task, createdAt);
      SealedDirectoryValidates(pf, id, payload, task, createdAt, CacheKey(pf, id), true);
      assert ReadValidated(pf, tree, id) == Ok(Some(ArtifactOf(pf, id, payload, task, createdAt)));
    }
    if IsTampered(pf, id, d) {
      var payload, task, createdAt, t :|
        IsSha256(task) && Changes(pf, SealedDirectory(pf, id, payload, task, createdAt), t) && !Unreadable(pf, t)
        && d == Tampered(SealedDirectory(pf, id, payload, task, createdAt), t);
      TamperedEntryIsBroken(pf, tree, id, payload, task, createdAt, t);
    }
  }

  lemma SealedParts(pf: Platform, id: CacheIdentity, payload: Bytes, task: string, createdAt: string)
    requires Faithful(pf) && ValidIdentity(id) && IsSha256(task)
    ensures var d := SealedDirectory(pf, id, payload, task, createdAt);
            && ListingComplete(d) && d[PayloadBin].contents == payload
            && (var m := LoadManifest(pf, d[ManifestJson].contents);
                m.Accepted? && m.value.payloadSha256 == pf.sha256(payload) && m.value.identity == id && m.value.cacheKey == CacheKey(pf, id))
            && (var k := LoadMarker(pf, d[CompleteJson].contents);
                k.Accepted? && k.value.payloadSha256 == pf.sha256(payload) && k.value.manifestSha256 == pf.sha256(d[ManifestJson].contents))
  {
    var d := SealedDirectory(pf, id, payload, task, createdAt);
    SealedDirectoryValidates(pf, id, payload, task, createdAt, CacheKey(pf, id), true);
    hide Faithful, ValidIdentity;
  }
}
