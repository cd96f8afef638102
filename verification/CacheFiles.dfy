/** The cache root as a tree of named directories, entry paths, and what discovery accepts. */
module CacheFiles {
  import opened Wrappers
  import opened CacheContracts

  /** A directory two levels below the root: `root / parent / name`. */
  datatype Path = Path(parent: string, name: string)
  type Tree = map<Path, Directory>

  /** `key[:2]`, which in Python is defined for short strings too. */
  function Prefix(key: string): string {
    if |key| <= 2 then key else key[..2]
  }

  function EntryPath(key: string): Path {
    Path(Prefix(key), key)
  }

  function TransactionPath(key: string, suffix: string): Path {
    Path(Prefix(key), "." + key + ".txn-" + suffix)
  }

  function QuarantinePath(key: string, token: string): Path {
    Path(".quarantine", key + "-" + token)
  }

  /** `os.replace` of a directory onto a free name. */
  function MoveDirectory(tree: Tree, from: Path, to: Path): Tree
    requires from in tree
  {
    (tree - {from})[to := tree[from]]
  }

  /** The filter of `iter_validated`: a two-digit hex prefix holding a name of 64 characters
      that starts with it. */
  predicate IsEntryPath(p: Path) {
    |p.parent| == 2 && IsHex(p.parent) && |p.name| == 64 && Prefix(p.name) == p.parent
  }

  ghost predicate IsTransactionPath(p: Path) {
    exists key: string, suffix: string :: IsSha256(key) && p == TransactionPath(key, suffix)
  }

  ghost predicate IsQuarantinePath(p: Path) {
    exists key: string, token: string :: p == QuarantinePath(key, token)
  }

  lemma EntryPathIsEntry(key: string)
    requires IsSha256(key)
    ensures IsEntryPath(EntryPath(key))
  {
    assert IsHex(Prefix(key));
  }

  /** Transaction and quarantine directories are never taken for entries. */
  lemma OtherPathsAreNotEntries(p: Path)
    requires IsTransactionPath(p) || IsQuarantinePath(p)
    ensures !IsEntryPath(p)
  {
    if IsTransactionPath(p) {
      var key: string, suffix: string :| IsSha256(key) && p == TransactionPath(key, suffix);
      assert |p.name| == 1 + |key| + 5 + |suffix|;
    } else {
      assert |p.parent| == 11;
    }
  }

  /** The name of a quarantine or transaction directory begins with the key of the entry it belongs
      to, and two such names of one kind are equal only for the same key and random part. */
  lemma NamesTellTheKey(key: string, token: string, key': string, token': string)
    requires IsSha256(key) && IsSha256(key')
    ensures QuarantinePath(key, token) == QuarantinePath(key', token') <==> key == key' && token == token'
    ensures TransactionPath(key, token) == TransactionPath(key', token') <==> key == key' && token == token'
    ensures QuarantinePath(key, token).parent == ".quarantine" && QuarantinePath(key, token).name[..64] == key
    ensures TransactionPath(key, token).parent == EntryPath(key).parent && TransactionPath(key, token).name[1..65] == key
  {
    var q, q' := QuarantinePath(key, token).name, QuarantinePath(key', token').name;
    var t, t' := TransactionPath(key, token).name, TransactionPath(key', token').name;
    assert q[..64] == key && q[65..] == token && q'[..64] == key' && q'[65..] == token';
    assert t[1..65] == key && t[70..] == token && t'[1..65] == key' && t'[70..] == token';
  }

  lemma TransactionIsNotQuarantine(p: Path)
    ensures !(IsTransactionPath(p) && IsQuarantinePath(p))
  {
    if IsTransactionPath(p) {
      var key: string, suffix: string :| IsSha256(key) && p == TransactionPath(key, suffix);
      assert |p.parent| == 2;
    }
  }

  /** One directory of `iter_validated`: the identity to check comes from its own manifest.
      `None` is a directory that is passed over, or one that ends the walk (`EndsDiscovery`). */
  function Discover(pf: Platform, p: Path, d: Directory): Option<CacheArtifact> {
    if !IsEntryPath(p) || ManifestJson !in d || !d[ManifestJson].File? then None
    else
      match LoadManifest(pf, d[ManifestJson].contents)
      case Rejected => None
      case Raised => None
      case Accepted(m) =>
        match ValidateDirectory(pf, p.name, d, m.cacheKey, m.identity, true)
        case Ok(a) => Some(a)
        case Err(_) => None
  }

  /** A directory on which discovery raises: nothing in the loop handles such a text. */
  predicate EndsDiscovery(pf: Platform, p: Path, d: Directory) {
    IsEntryPath(p) && ManifestJson in d && d[ManifestJson].File? &&
    match LoadManifest(pf, d[ManifestJson].contents)
    case Rejected => false
    case Raised => true
    case Accepted(m) => ValidateDirectory(pf, p.name, d, m.cacheKey, m.identity, true) == Err(UnhandledError)
  }

  predicate EntryValid(pf: Platform, p: Path, d: Directory) {
    Discover(pf, p, d).Some?
  }

  /** The identity a valid entry was published under, by its manifest. */
  function EntryIdentity(pf: Platform, p: Path, d: Directory): CacheIdentity
    requires EntryValid(pf, p, d)
  {
    LoadManifest(pf, d[ManifestJson].contents).value.identity
  }

  /** `read_validated`: a miss, a validated artifact, or an integrity error. */
  function ReadValidated(pf: Platform, tree: Tree, id: CacheIdentity): Result<Option<CacheArtifact>, CacheError>
  {
    var key := CacheKey(pf, id);
    var p := EntryPath(key);
    if p !in tree then Ok(None)
    else
      match ValidateDirectory(pf, p.name, tree[p], key, id, true)
      case Ok(a) => Ok(Some(a))
      case Err(e) => Err(e)
  }

  /** Discovery accepts a directory exactly when some request would read it, and reports the
      artifact that request is given. */
  lemma DiscoveryAgreesWithLookup(pf: Platform, tree: Tree, p: Path, a: CacheArtifact)
    requires Faithful(pf) && p in tree
    ensures Discover(pf, p, tree[p]) == Some(a) <==>
            exists id :: p == EntryPath(CacheKey(pf, id)) && ReadValidated(pf, tree, id) == Ok(Some(a))
  {
    if Discover(pf, p, tree[p]) == Some(a) {
      var m := LoadManifest(pf, tree[p][ManifestJson].contents).value;
      assert p == EntryPath(CacheKey(pf, m.identity));
      assert ReadValidated(pf, tree, m.identity) == Ok(Some(a));
    }
    if id :| p == EntryPath(CacheKey(pf, id)) && ReadValidated(pf, tree, id) == Ok(Some(a)) {
      EntryPathIsEntry(CacheKey(pf, id));
    }
  }

  /** A valid entry validates for exactly one of the requests that name its path: the one for
      the identity it was published under. */
  lemma ValidEntryServesItsKey(pf: Platform, d: Directory, id: CacheIdentity)
    requires EntryValid(pf, EntryPath(CacheKey(pf, id)), d)
    ensures CacheKey(pf, EntryIdentity(pf, EntryPath(CacheKey(pf, id)), d)) == CacheKey(pf, id)
    ensures ValidateDirectory(pf, CacheKey(pf, id), d, CacheKey(pf, id), id, true).Ok? <==>
            EntryIdentity(pf, EntryPath(CacheKey(pf, id)), d) == id
  {
  }

  lemma ValidatedEntryIsDiscovered(pf: Platform, d: Directory, id: CacheIdentity)
    requires Faithful(pf)
    requires ValidateDirectory(pf, CacheKey(pf, id), d, CacheKey(pf, id), id, true).Ok?
    ensures EntryValid(pf, EntryPath(CacheKey(pf, id)), d)
    ensures EntryIdentity(pf, EntryPath(CacheKey(pf, id)), d) == id
  {
    EntryPathIsEntry(CacheKey(pf, id));
  }

  // ----- validation as it really runs: one file system access at a time -----

  /** How far one run of `_validate_directory` has got, with what it has read so far. */
  datatype Scan =
    | Listing
    | ReadManifest
    | ReadMarker(manifest: Bytes)
    | StatPayload(manifest: Bytes, marker: Bytes)
    | HashPayload(manifest: Bytes, marker: Bytes, size: nat)
    | HashManifest(manifest: Bytes, marker: Bytes, size: nat, hash: string)

  datatype ScanStep = More(scan: Scan) | Finished(verdict: Verdict)

  predicate HasFile(d: Directory, f: FileName) {
    f in d && d[f].File?
  }

  /** The next file system access. A directory that is gone or lacks the file raises. */
  function StepScan(pf: Platform, tree: Tree, p: Path, id: CacheIdentity, checkName: bool, s: Scan): ScanStep
  {
    var key := CacheKey(pf, id);
    if p !in tree then Finished(Err(if s.Listing? then OperatingSystemError else IntegrityError))
    else
      var d := tree[p];
      match s
      case Listing =>
        if ListingComplete(d) then More(ReadManifest) else Finished(Err(IntegrityError))
      case ReadManifest =>
        if !HasFile(d, ManifestJson) then Finished(Err(IntegrityError))
        else (match LoadManifest(pf, d[ManifestJson].contents)
              case Accepted(_) => More(ReadMarker(d[ManifestJson].contents))
              case Rejected => Finished(Err(IntegrityError))
              case Raised => Finished(Err(UnhandledError)))
      case ReadMarker(m) =>
        if !HasFile(d, CompleteJson) then Finished(Err(IntegrityError))
        else (match LoadMarker(pf, d[CompleteJson].contents)
              case Accepted(_) => More(StatPayload(m, d[CompleteJson].contents))
              case Rejected => Finished(Err(IntegrityError))
              case Raised => Finished(Err(UnhandledError)))
      case StatPayload(m, k) =>
        if HasFile(d, PayloadBin) then More(HashPayload(m, k, |d[PayloadBin].contents|)) else Finished(Err(IntegrityError))
      case HashPayload(m, k, n) =>
        if HasFile(d, PayloadBin) then More(HashManifest(m, k, n, pf.sha256(d[PayloadBin].contents))) else Finished(Err(IntegrityError))
      case HashManifest(m, k, n, h) =>
        if HasFile(d, ManifestJson)
        then Finished(Judge(pf, p.name, key, id, checkName, m, k, n, h, pf.sha256(d[ManifestJson].contents)))
        else Finished(Err(IntegrityError))
  }

  /** What the scan has read so far is what `d` holds. */
  predicate Agrees(pf: Platform, s: Scan, d: Directory) {
    s.Listing? ||
    (&& ListingComplete(d)
     && (!s.ReadManifest? ==> s.manifest == d[ManifestJson].contents && LoadManifest(pf, s.manifest).Accepted?)
     && (!s.ReadManifest? && !s.ReadMarker? ==> s.marker == d[CompleteJson].contents)
     && (s.HashPayload? || s.HashManifest? ==> s.size == |d[PayloadBin].contents|)
     && (s.HashManifest? ==> s.hash == pf.sha256(d[PayloadBin].contents)))
  }

  /** On an entry nobody changes, the scan one access at a time reaches the verdict of the
      atomic validation. */
  lemma ScanRefinesValidation(pf: Platform, tree: Tree, p: Path, id: CacheIdentity, checkName: bool, s: Scan)
    requires p in tree && Agrees(pf, s, tree[p])
    ensures match StepScan(pf, tree, p, id, checkName, s)
            case More(s') => Agrees(pf, s', tree[p])
            case Finished(v) => v == ValidateDirectory(pf, p.name, tree[p], CacheKey(pf, id), id, checkName)
  {
  }
}
