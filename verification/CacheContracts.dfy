/** Cache identities, manifests and completion markers (`cache/contracts.py`), and the
    validity of one entry directory (`CacheStore._validate_directory`).

    Everything foreign (SHA-256, JSON) is a field of `Platform`, so every result in the
    project holds for every hash function and every JSON codec. What a result needs of
    them is a named hypothesis: `Faithful` (JSON read back gives what was written, and
    digests look like digests) or `CollisionFree` (the identities at hand do not share a
    cache key). `PlatformWitness` shows that the hypotheses can be met together. */
module CacheContracts {
  import opened Wrappers

  newtype Byte = x: int | 0 <= x < 256
  type Bytes = seq<Byte>

  predicate IsLowerHex(c: char) {
    '0' <= c <= '9' || 'a' <= c <= 'f'
  }

  predicate IsHex(s: string) {
    forall i :: 0 <= i < |s| ==> IsLowerHex(s[i])
  }

  /** `^[0-9a-f]{64}$`: task identities, digests and cache keys. */
  predicate IsSha256(s: string) {
    |s| == 64 && IsHex(s)
  }

  /** `"0" * 64`, the digest an identity may not use. */
  predicate IsPlaceholder(s: string) {
    |s| == 64 && forall i :: 0 <= i < |s| ==> s[i] == '0'
  }

  predicate IsRealDigest(s: string) {
    IsSha256(s) && !IsPlaceholder(s)
  }

  datatype DevicePolicy = Cpu | Cuda
  datatype ArtifactKind = Model | Prediction | Metric | Condition | Probe

  datatype CacheIdentity = CacheIdentity(
    schemaVersion: int,
    datasetSha256: string,
    splitSha256: string,
    viewCertificateSha256: string,
    modelSpecSha256: string,
    modelParametersSha256: string,
    checkpointSha256: Option<string>,
    dependencyLockSha256: string,
    sourceImplementationSha256: string,
    seed: int,
    devicePolicy: DevicePolicy,
    artifactKind: ArtifactKind)

  /** Field constraints of `CacheIdentity` and its placeholder check. */
  predicate ValidIdentity(id: CacheIdentity) {
    && id.schemaVersion == 1
    && IsRealDigest(id.datasetSha256)
    && IsRealDigest(id.splitSha256)
    && IsRealDigest(id.viewCertificateSha256)
    && IsRealDigest(id.modelSpecSha256)
    && IsRealDigest(id.modelParametersSha256)
    && (id.checkpointSha256.Some? ==> IsRealDigest(id.checkpointSha256.value))
    && IsRealDigest(id.dependencyLockSha256)
    && IsRealDigest(id.sourceImplementationSha256)
    && id.seed >= 0
  }

  datatype Timestamp = Timestamp(iso: string, utc: bool)

  datatype CacheArtifactManifest = CacheArtifactManifest(
    schemaVersion: int,
    identity: CacheIdentity,
    cacheKey: string,
    artifactKind: ArtifactKind,
    payloadFile: string,
    payloadSha256: string,
    payloadSizeBytes: int,
    producingTaskIdentity: string,
    createdAt: Timestamp,
    sourceImplementationSha256: string,
    dependencyLockSha256: string,
    validationStatus: string,
    completed: bool)

  datatype CompletionMarker = CompletionMarker(
    schemaVersion: int,
    manifestSha256: string,
    payloadSha256: string)

  /** How reading a text ends: a record; a rejection the callers handle (`ValueError`,
      `JSONDecodeError`, `ValidationError`); or an exception no caller handles, such as the
      `RecursionError` of `json.loads` on a deeply nested text. */
  datatype Parsed<T> = Accepted(value: T) | Rejected | Raised

  /** Foreign code the cache relies on. */
  datatype Platform = Platform(
    sha256: Bytes -> string,
    identityJson: CacheIdentity -> Bytes,
    renderManifest: CacheArtifactManifest -> Bytes,
    parseManifest: Bytes -> Parsed<CacheArtifactManifest>,
    renderMarker: CompletionMarker -> Bytes,
    parseMarker: Bytes -> Parsed<CompletionMarker>)

  function CacheKey(pf: Platform, id: CacheIdentity): string {
    pf.sha256(pf.identityJson(id))
  }

  predicate ValidManifest(pf: Platform, m: CacheArtifactManifest) {
    && m.schemaVersion == 1
    && ValidIdentity(m.identity)
    && m.payloadFile == "payload.bin"
    && IsSha256(m.cacheKey)
    && IsSha256(m.payloadSha256)
    && m.payloadSizeBytes >= 0
    && IsSha256(m.producingTaskIdentity)
    && IsSha256(m.sourceImplementationSha256)
    && IsSha256(m.dependencyLockSha256)
    && m.validationStatus == "PASS"
    && m.completed
    && m.createdAt.utc
    && m.cacheKey == CacheKey(pf, m.identity)
    && m.artifactKind == m.identity.artifactKind
    && m.sourceImplementationSha256 == m.identity.sourceImplementationSha256
    && m.dependencyLockSha256 == m.identity.dependencyLockSha256
  }

  predicate ValidMarker(k: CompletionMarker) {
    k.schemaVersion == 1 && IsSha256(k.manifestSha256) && IsSha256(k.payloadSha256)
  }

  /** Digests are 64 lowercase hex digits, and a valid record survives writing and reading. */
  ghost predicate Faithful(pf: Platform) {
    && (forall b: Bytes :: IsSha256(pf.sha256(b)))
    && (forall m: CacheArtifactManifest :: ValidManifest(pf, m) ==> pf.parseManifest(pf.renderManifest(m)) == Accepted(m))
    && (forall k: CompletionMarker :: ValidMarker(k) ==> pf.parseMarker(pf.renderMarker(k)) == Accepted(k))
  }

  /** Of these identities no two share a cache key. */
  ghost predicate CollisionFree(pf: Platform, ids: set<CacheIdentity>) {
    forall a, b {:trigger CacheKey(pf, a), CacheKey(pf, b)} ::
      a in ids && b in ids && CacheKey(pf, a) == CacheKey(pf, b) ==> a == b
  }

  /** `CacheArtifactManifest.model_validate(json.loads(...))`. */
  function LoadManifest(pf: Platform, text: Bytes): Parsed<CacheArtifactManifest> {
    match pf.parseManifest(text)
    case Accepted(m) => if ValidManifest(pf, m) then Accepted(m) else Rejected
    case other => other
  }

  function LoadMarker(pf: Platform, text: Bytes): Parsed<CompletionMarker> {
    match pf.parseMarker(text)
    case Accepted(k) => if ValidMarker(k) then Accepted(k) else Rejected
    case other => other
  }

  // ----- one entry directory -----

  datatype FileName = PayloadBin | ManifestJson | CompleteJson | OtherName(name: string)
  datatype Node = File(contents: Bytes) | Folder
  type Directory = map<FileName, Node>

  datatype CacheArtifact = CacheArtifact(
    cacheKey: string,
    artifactKind: ArtifactKind,
    payloadSha256: string,
    payloadSizeBytes: int,
    producingTaskIdentity: string,
    createdAt: string,
    sourceImplementationSha256: string,
    dependencyLockSha256: string)

  datatype CacheError =
    | IntegrityError
    | BadTaskIdentity
    | LockTimeout
    | OperatingSystemError
    | UnhandledError // any exception the code does not name, such as `RecursionError`

  type Verdict = Result<CacheArtifact, CacheError>

  /** The directory holds exactly the three expected files and no sub-directory. */
  predicate ListingComplete(d: Directory) {
    && d.Keys == {PayloadBin, ManifestJson, CompleteJson}
    && d[PayloadBin].File? && d[ManifestJson].File? && d[CompleteJson].File?
  }

  /** The comparisons of `_validate_directory` on what was read from the files. `checkName`
      is false for a transaction directory, whose name is not the key. */
  function Judge(pf: Platform, name: string, key: string, id: CacheIdentity, checkName: bool,
                 manifestText: Bytes, markerText: Bytes, size: nat, payloadHash: string, manifestHash: string): Verdict
  {
    match (LoadManifest(pf, manifestText), LoadMarker(pf, markerText))
    case (Accepted(m), Accepted(k)) =>
      if (checkName && name != key) || m.cacheKey != key then Err(IntegrityError)
      else if m.identity != id || CacheKey(pf, id) != key then Err(IntegrityError)
      else if m.validationStatus != "PASS" || !m.completed then Err(IntegrityError)
      else if size != m.payloadSizeBytes || payloadHash != m.payloadSha256 then Err(IntegrityError)
      else if k.manifestSha256 != manifestHash then Err(IntegrityError)
      else if k.payloadSha256 != payloadHash then Err(IntegrityError)
      else Ok(CacheArtifact(key, m.artifactKind, payloadHash, size, m.producingTaskIdentity,
                            m.createdAt.iso, m.sourceImplementationSha256, m.dependencyLockSha256))
    case (Raised, _) => Err(UnhandledError)
    case (Accepted(_), Raised) => Err(UnhandledError)
    case _ => Err(IntegrityError)
  }

  /** `_validate_directory` on a directory nobody else is touching. */
  function ValidateDirectory(pf: Platform, name: string, d: Directory, key: string, id: CacheIdentity, checkName: bool): Verdict
  {
    if !ListingComplete(d) then Err(IntegrityError)
    else
      var payload := d[PayloadBin].contents;
      var manifest := d[ManifestJson].contents;
      Judge(pf, name, key, id, checkName, manifest, d[CompleteJson].contents,
            |payload|, pf.sha256(payload), pf.sha256(manifest))
  }

  /** Validation ends in an exception nobody handles exactly when the three files are there and
      the manifest, or after a good manifest the marker, is such a text. */
  lemma RaisesIff(pf: Platform, name: string, d: Directory, key: string, id: CacheIdentity, checkName: bool)
    ensures var v := ValidateDirectory(pf, name, d, key, id, checkName);
            && (v.Err? ==> v.error == IntegrityError || v.error == UnhandledError)
            && (v == Err(UnhandledError) <==> Raises(pf, d))
  {
  }

  predicate Raises(pf: Platform, d: Directory) {
    ListingComplete(d) &&
    (|| LoadManifest(pf, d[ManifestJson].contents).Raised?
     || (LoadManifest(pf, d[ManifestJson].contents).Accepted? && LoadMarker(pf, d[CompleteJson].contents).Raised?))
  }

  /** What `_publish_stream` writes as the manifest. */
  function MakeManifest(pf: Platform, id: CacheIdentity, hash: string, size: int, task: string, createdAt: string): CacheArtifactManifest
  {
    CacheArtifactManifest(1, id, CacheKey(pf, id), id.artifactKind, "payload.bin", hash, size, task,
                          Timestamp(createdAt, true), id.sourceImplementationSha256, id.dependencyLockSha256, "PASS", true)
  }

  function MakeMarker(pf: Platform, manifestText: Bytes, hash: string): CompletionMarker {
    CompletionMarker(1, pf.sha256(manifestText), hash)
  }

  /** The finished transaction directory for a payload. */
  function SealedDirectory(pf: Platform, id: CacheIdentity, payload: Bytes, task: string, createdAt: string): Directory
  {
    var text := pf.renderManifest(MakeManifest(pf, id, pf.sha256(payload), |payload|, task, createdAt));
    map[PayloadBin := File(payload),
        ManifestJson := File(text),
        CompleteJson := File(pf.renderMarker(MakeMarker(pf, text, pf.sha256(payload))))]
  }

  function ArtifactOf(pf: Platform, id: CacheIdentity, payload: Bytes, task: string, createdAt: string): CacheArtifact
  {
    CacheArtifact(CacheKey(pf, id), id.artifactKind, pf.sha256(payload), |payload|, task, createdAt,
                  id.sourceImplementationSha256, id.dependencyLockSha256)
  }

  /** What publishing writes, validation accepts, both as a transaction and as an entry, and
      reports with exactly the metadata that was published. */
  lemma SealedDirectoryValidates(pf: Platform, id: CacheIdentity, payload: Bytes, task: string, createdAt: string, name: string, checkName: bool)
    requires Faithful(pf) && ValidIdentity(id) && IsSha256(task)
    requires checkName ==> name == CacheKey(pf, id)
    ensures ValidateDirectory(pf, name, SealedDirectory(pf, id, payload, task, createdAt), CacheKey(pf, id), id, checkName)
         == Ok(ArtifactOf(pf, id, payload, task, createdAt))
  {
    var m := MakeManifest(pf, id, pf.sha256(payload), |payload|, task, createdAt);
    var text := pf.renderManifest(m);
    var k := MakeMarker(pf, text, pf.sha256(payload));
    assert IsSha256(pf.sha256(payload)) && IsSha256(pf.sha256(text));
    assert IsSha256(CacheKey(pf, id));
    assert ValidManifest(pf, m) && ValidMarker(k);
    assert LoadManifest(pf, text) == Accepted(m);
    assert LoadMarker(pf, pf.renderMarker(k)) == Accepted(k);
    assert ListingComplete(SealedDirectory(pf, id, payload, task, createdAt));
  }

  /** An accepted directory fixes its own identity, payload digest and payload size: whoever
      validates it, under whatever request, is told the same artifact. */
  lemma ValidationIsUnambiguous(pf: Platform, name: string, d: Directory, key: string, id: CacheIdentity, checkName: bool,
                                name': string, key': string, id': CacheIdentity, checkName': bool)
    requires ValidateDirectory(pf, name, d, key, id, checkName).Ok?
    requires ValidateDirectory(pf, name', d, key', id', checkName').Ok?
    ensures id == id' && key == key'
    ensures ValidateDirectory(pf, name, d, key, id, checkName) == ValidateDirectory(pf, name', d, key', id', checkName')
    ensures key == CacheKey(pf, id)
    ensures ValidateDirectory(pf, name, d, key, id, checkName).value.payloadSha256 == pf.sha256(d[PayloadBin].contents)
    ensures ValidateDirectory(pf, name, d, key, id, checkName).value.payloadSizeBytes == |d[PayloadBin].contents|
  {
  }
}
