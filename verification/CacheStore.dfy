/** `CacheStore` and `CacheKeyLock` as objects that change the cache root in place, one caller
    at a time. `PublishProtocol` is the same code under interleaving. */
module CacheStores {
  import opened Wrappers
  import opened CacheContracts
  import opened CacheFiles
  import opened EntryIntegrity
  import opened Ordering

  /** The lock files of a cache root that some process holds. */
  class LockDirectory {
    var held: set<string>

    constructor ()
      ensures held == {}
    {
      held := {};
    }
  }

  /** `CacheKeyLock`: `acquired` remembers whether this object is the one to release. */
  class CacheKeyLock {
    const directory: LockDirectory
    const key: string
    var acquired: bool

    constructor (directory: LockDirectory, key: string)
      ensures this.directory == directory && this.key == key && !acquired
    {
      this.directory := directory;
      this.key := key;
      acquired := false;
    }

    ghost predicate Valid()
      reads this, directory
    {
      acquired ==> key in directory.held
    }

    /** Fails when another process keeps the key past the deadline. */
    method Enter() returns (ok: bool)
      requires Valid() && !acquired
      modifies this`acquired, directory
      ensures Valid() && ok == acquired == (key !in old(directory.held))
      ensures directory.held == old(directory.held) + {key}
    {
      ok := key !in directory.held;
      if ok {
        directory.held := directory.held + {key};
        acquired := true;
      }
    }

    /** Releases only what this object acquired. */
    method Exit()
      requires Valid()
      modifies this`acquired, directory
      ensures Valid() && !acquired
      ensures directory.held == if old(acquired) then old(directory.held) - {key} else old(directory.held)
    {
      if acquired {
        directory.held := directory.held - {key};
        acquired := false;
      }
    }
  }

  datatype PublishResult = PublishResult(artifact: CacheArtifact, reusedExisting: bool)

  /** What `_publish_stream` answers, in terms of the entry and of the bytes the writer
      delivers. `created` is the clock reading that ends up in the manifest. */
  function PublishVerdict(pf: Platform, tree: Tree, id: CacheIdentity, task: string, delivered: Bytes,
                          hash: string, size: nat, created: string): Result<PublishResult, CacheError>
  {
    var key := CacheKey(pf, id);
    var p := EntryPath(key);
    if !IsSha256(task) then Err(BadTaskIdentity)
    else if p in tree then
      match ValidateDirectory(pf, key, tree[p], key, id, true)
      case Err(e) => Err(e)
      case Ok(a) => if a.payloadSha256 == hash && a.payloadSizeBytes == size then Ok(PublishResult(a, true)) else Err(IntegrityError)
    else if |delivered| != size || pf.sha256(delivered) != hash then Err(IntegrityError)
    else Ok(PublishResult(ArtifactOf(pf, id, delivered, task, created), false))
  }

  /** The entry under `id` reads as an artifact with this payload digest and size. */
  predicate ReadsAs(pf: Platform, tree: Tree, id: CacheIdentity, hash: string, size: nat) {
    var r := ReadValidated(pf, tree, id);
    r.Ok? && r.value.Some? && r.value.value.payloadSha256 == hash && r.value.value.payloadSizeBytes == size
  }

  /** When publishing succeeds, and what it answers: for bytes that are what was announced, and a
      valid task identity, exactly when the name is free or the entry reads as those bytes; and
      it says reused exactly when the entry was there, with the artifact a read gave before. */
  lemma PublishSucceedsIff(pf: Platform, tree: Tree, id: CacheIdentity, task: string, payload: Bytes, created: string)
    requires IsSha256(task)
    ensures var p := EntryPath(CacheKey(pf, id));
            var r := PublishVerdict(pf, tree, id, task, payload, pf.sha256(payload), |payload|, created);
            && (r.Ok? <==> p !in tree || ReadsAs(pf, tree, id, pf.sha256(payload), |payload|))
            && (r.Ok? ==> r.value.artifact.payloadSha256 == pf.sha256(payload) && r.value.artifact.payloadSizeBytes == |payload|)
            && (r.Ok? ==> (r.value.reusedExisting <==> p in tree))
            && (r.Ok? && p in tree ==> ReadValidated(pf, tree, id) == Ok(Some(r.value.artifact)))
            && (r.Ok? && p !in tree ==> r.value.artifact == CacheArtifact(CacheKey(pf, id), id.artifactKind, pf.sha256(payload), |payload|, task, created,
                                                                         id.sourceImplementationSha256, id.dependencyLockSha256))
  {
    hide ValidateDirectory;
  }

  /** Bytes that are not what was announced are published only onto an entry that already reads as
      what was announced: then they are not even looked at. */
  lemma ChangedSourceFails(pf: Platform, tree: Tree, id: CacheIdentity, task: string, delivered: Bytes, hash: string, size: nat, created: string)
    requires pf.sha256(delivered) != hash || |delivered| != size
    ensures PublishVerdict(pf, tree, id, task, delivered, hash, size, created).Ok? <==> IsSha256(task) && ReadsAs(pf, tree, id, hash, size)
  {
    hide ValidateDirectory;
    var p := EntryPath(CacheKey(pf, id));
    if p !in tree {
      assert !ReadsAs(pf, tree, id, hash, size);
    }
  }

  /** `sorted(directory.iterdir(), key=lambda item: item.name)`. */
  method SortedNames(names: set<string>) returns (r: seq<string>)
    ensures StrictlyIncreasing(r)
    ensures forall n :: n in r <==> n in names
  {
    r := [];
    var rest := names;
    while rest != {}
      invariant StrictlyIncreasing(r) && rest <= names
      invariant forall n :: n in r <==> n in names - rest
    {
      var n :| n in rest;
      rest := rest - {n};
      var k := 0;
      while k < |r| && Less(r[k], n)
        invariant 0 <= k <= |r|
        invariant forall j :: 0 <= j < k ==> Less(r[j], n)
      {
        k := k + 1;
      }
      InsertInPlace(r, n, k);
      ghost var was := r;
      r := r[..k] + [n] + r[k..];
      forall m
        ensures m in r <==> m in was || m == n
      {
        assert was == was[..k] + was[k..];
      }
    }
  }

  lemma InsertInPlace(r: seq<string>, n: string, k: nat)
    requires StrictlyIncreasing(r) && n !in r && k <= |r|
    requires forall j :: 0 <= j < k ==> Less(r[j], n)
    requires k < |r| ==> !Less(r[k], n)
    ensures StrictlyIncreasing(r[..k] + [n] + r[k..])
  {
    var s := r[..k] + [n] + r[k..];
    if k < |r| {
      LessTotal(r[k], n);
      forall j | k <= j < |r|
        ensures Less(n, r[j])
      {
        if j > k {
          LessTransitive(n, r[k], r[j]);
        }
      }
    }
  }

  /** Discovered directories, in the order found: each valid, each once, keys increasing. */
  ghost predicate Catalogue(pf: Platform, tree: Tree, paths: seq<Path>, result: seq<CacheArtifact>) {
    && |paths| == |result|
    && (forall k :: 0 <= k < |paths| ==> paths[k] in tree && Discover(pf, paths[k], tree[paths[k]]) == Some(result[k]))
    && (forall k, l :: 0 <= k < l < |paths| ==> Less(paths[k].name, paths[l].name))
  }

  /** Every valid entry under a listed prefix, and under `prefix` every one with a listed
      name, is in the catalogue, and nothing else. */
  ghost predicate Covers(pf: Platform, tree: Tree, paths: seq<Path>, prefixes: seq<string>, prefix: string, names: seq<string>) {
    forall p :: p in tree && EntryValid(pf, p, tree[p]) ==>
      (p in paths <==> p.parent in prefixes || (p.parent == prefix && p.name in names))
  }

  /** The discoverable entries of a tree, each once, in increasing key order. */
  ghost predicate IsDiscovery(pf: Platform, tree: Tree, entries: seq<CacheArtifact>) {
    && (forall k, l :: 0 <= k < l < |entries| ==> Less(entries[k].cacheKey, entries[l].cacheKey))
    && (forall a :: a in entries <==> exists p :: p in tree && Discover(pf, p, tree[p]) == Some(a))
  }

  lemma CatalogueGrows(pf: Platform, tree: Tree, paths: seq<Path>, result: seq<CacheArtifact>, prefixes: seq<string>, prefix: string,
                       names: seq<string>, p: Path, a: CacheArtifact)
    requires Catalogue(pf, tree, paths, result) && Covers(pf, tree, paths, prefixes, prefix, names)
    requires StrictlyIncreasing(prefixes + [prefix]) && StrictlyIncreasing(names + [p.name])
    requires p in tree && p.parent == prefix && Discover(pf, p, tree[p]) == Some(a)
    ensures Catalogue(pf, tree, paths + [p], result + [a])
    ensures Covers(pf, tree, paths + [p], prefixes, prefix, names + [p.name])
  {
    hide Discover;
    forall k | 0 <= k < |paths|
      ensures Less(paths[k].name, p.name)
    {
      var q := paths[k];
      DiscoveredIsEntry(pf, q, tree[q]);
      DiscoveredIsEntry(pf, p, tree[p]);
      if q.parent in prefixes {
        var m :| 0 <= m < |prefixes| && prefixes[m] == q.parent;
        assert Less((prefixes + [prefix])[m], (prefixes + [prefix])[|prefixes|]);
        LessByPrefix(q.name, p.name, 2);
      } else {
        var m :| 0 <= m < |names| && names[m] == q.name;
        assert Less((names + [p.name])[m], (names + [p.name])[|names|]);
      }
    }
  }

  lemma DiscoveredIsEntry(pf: Platform, p: Path, d: Directory)
    requires EntryValid(pf, p, d)
    ensures |p.name| == 64 && p.parent == p.name[..2] && IsEntryPath(p)
  {
  }

  /** An entry, and the directory it is made in, have different paths. */
  lemma NamesApart(pf: Platform, id: CacheIdentity, suffix: string)
    requires Faithful(pf) && ValidIdentity(id)
    ensures EntryPath(CacheKey(pf, id)) != TransactionPath(CacheKey(pf, id), suffix)
    ensures EntryPath(CacheKey(pf, id)).name == CacheKey(pf, id)
  {
    var key := CacheKey(pf, id);
    EntryPathIsEntry(key);
    OtherPathsAreNotEntries(TransactionPath(key, suffix));
  }

  class CacheStore {
    const pf: Platform
    var tree: Tree

    constructor (pf: Platform, tree: Tree)
      ensures this.pf == pf && this.tree == tree
    {
      this.pf := pf;
      this.tree := tree;
    }

    /** Payload, manifest and, last, the completion marker of a transaction; nothing after the
        payload if it is not what was announced. */
    method WriteTransaction(id: CacheIdentity, task: string, delivered: Bytes, hash: string, size: nat, transaction: Path, created: string)
      returns (complete: bool)
      modifies this
      ensures complete <==> |delivered| == size && pf.sha256(delivered) == hash
      ensures transaction in tree && tree == old(tree)[transaction := tree[transaction]]
      ensures complete ==> tree[transaction] == SealedDirectory(pf, id, delivered, task, created)
    {
      hide MakeManifest, MakeMarker;
      tree := tree[transaction := map[]];
      tree := tree[transaction := tree[transaction][PayloadBin := File(delivered)]];
      complete := |delivered| == size && pf.sha256(delivered) == hash;
      if complete {
        var manifest := pf.renderManifest(MakeManifest(pf, id, hash, size, task, created));
        tree := tree[transaction := tree[transaction][ManifestJson := File(manifest)]];
        var marker := pf.renderMarker(MakeMarker(pf, manifest, hash));
        tree := tree[transaction := tree[transaction][CompleteJson := File(marker)]];
      }
    }

    /** `_publish_stream` with nobody else at work: the step-by-step transaction has the effect
        of the verdict, leaves no transaction directory behind whichever way it ends, and
        touches no other directory. */
    method PublishStream(id: CacheIdentity, task: string, delivered: Bytes, hash: string, size: nat, suffix: string, created: string)
      returns (r: Result<PublishResult, CacheError>)
      requires Faithful(pf) && ValidIdentity(id)
      requires TransactionPath(CacheKey(pf, id), suffix) !in tree // mkdtemp gives a new name
      modifies this
      ensures r == PublishVerdict(pf, old(tree), id, task, delivered, hash, size, created)
      ensures tree == if r.Ok? && !r.value.reusedExisting
                      then old(tree)[EntryPath(CacheKey(pf, id)) := SealedDirectory(pf, id, delivered, task, created)]
                      else old(tree)
    {
      NamesApart(pf, id, suffix);
      hide Faithful, ValidIdentity, ValidateDirectory, CacheKey, SealedDirectory, IsEntryPath, IsHex, EntryPath, TransactionPath;
      if !IsSha256(task) {
        return Err(BadTaskIdentity);
      }
      var key := CacheKey(pf, id);
      var destination := EntryPath(key);
      if destination in tree {
        var existing := ValidateDirectory(pf, key, tree[destination], key, id, true);
        match existing
        case Err(e) => return Err(e);
        case Ok(a) =>
          if a.payloadSha256 == hash && a.payloadSizeBytes == size {
            return Ok(PublishResult(a, true));
          }
          return Err(IntegrityError);
      }
      var transaction := TransactionPath(key, suffix);
      ghost var before := tree;
      var complete := WriteTransaction(id, task, delivered, hash, size, transaction, created);
      r := Err(IntegrityError);
      if complete {
        SealedDirectoryValidates(pf, id, delivered, task, created, transaction.name, false);
        SealedDirectoryValidates(pf, id, delivered, task, created, key, true);
        if ValidateDirectory(pf, transaction.name, tree[transaction], key, id, false).Ok? {
          tree := MoveDirectory(tree, transaction, destination);
          r := match ValidateDirectory(pf, key, tree[destination], key, id, true)
               case Ok(a) => Ok(PublishResult(a, false))
               case Err(e) => Err(e);
        }
      }
      tree := tree - {transaction}; // finally
      assert r.Err? ==> tree == before;
      assert r.Ok? ==> tree == before[destination := SealedDirectory(pf, id, delivered, task, created)];
    }

    /** `publish_bytes`: under the key lock, which is free again afterwards. */
    method PublishBytes(directory: LockDirectory, id: CacheIdentity, task: string, payload: Bytes, suffix: string, created: string)
      returns (r: Result<PublishResult, CacheError>)
      requires Faithful(pf) && ValidIdentity(id)
      requires TransactionPath(CacheKey(pf, id), suffix) !in tree
      modifies this, directory
      ensures directory.held == old(directory.held)
      ensures CacheKey(pf, id) in old(directory.held) ==> r == Err(LockTimeout) && tree == old(tree)
      ensures CacheKey(pf, id) !in old(directory.held) ==>
                r == PublishVerdict(pf, old(tree), id, task, payload, pf.sha256(payload), |payload|, created)
      ensures r.Ok? ==> ReadValidated(pf, tree, id) == Ok(Some(r.value.artifact))
                        && r.value.artifact.payloadSha256 == pf.sha256(payload) && r.value.artifact.payloadSizeBytes == |payload|
      ensures var p := EntryPath(CacheKey(pf, id));
              && (r.Ok? <==> (&& CacheKey(pf, id) !in old(directory.held) && IsSha256(task)
                              && (p !in old(tree) || ReadsAs(pf, old(tree), id, pf.sha256(payload), |payload|))))
              && (r.Ok? ==> (r.value.reusedExisting <==> p in old(tree)))
              && (r.Ok? && p in old(tree) ==> ReadValidated(pf, old(tree), id) == Ok(Some(r.value.artifact)) && tree == old(tree))
              && (r.Ok? && p !in old(tree) ==> tree == old(tree)[p := SealedDirectory(pf, id, payload, task, created)])
              && (r.Err? ==> tree == old(tree))
              && (r == Err(BadTaskIdentity) <==> CacheKey(pf, id) !in old(directory.held) && !IsSha256(task))
    {
      var lock := new CacheKeyLock(directory, CacheKey(pf, id));
      var entered := lock.Enter();
      if !entered {
        return Err(LockTimeout);
      }
      if IsSha256(task) {
        SealedDirectoryValidates(pf, id, payload, task, created, CacheKey(pf, id), true);
        PublishSucceedsIff(pf, tree, id, task, payload, created);
      }
      if EntryPath(CacheKey(pf, id)) in tree {
        RaisesIff(pf, CacheKey(pf, id), tree[EntryPath(CacheKey(pf, id))], CacheKey(pf, id), id, true);
      }
      hide ValidateDirectory, SealedDirectory, Faithful, ValidIdentity;
      r := PublishStream(id, task, payload, pf.sha256(payload), |payload|, suffix, created);
      lock.Exit();
    }

    /** Publishing the same bytes again, whatever task does it, succeeds, reuses the entry and
        changes nothing. */
    method PublishAgain(directory: LockDirectory, id: CacheIdentity, payload: Bytes, task: string, suffix: string, created: string,
                        task': string, suffix': string, created': string)
      returns (first: Result<PublishResult, CacheError>, second: Result<PublishResult, CacheError>)
      requires Faithful(pf) && ValidIdentity(id) && IsSha256(task')
      requires TransactionPath(CacheKey(pf, id), suffix) !in tree && TransactionPath(CacheKey(pf, id), suffix') !in tree
      modifies this, directory
      ensures first.Ok? ==> second == Ok(PublishResult(first.value.artifact, true))
      ensures first.Ok? ==> tree == if first.value.reusedExisting then old(tree)
                                    else old(tree)[EntryPath(CacheKey(pf, id)) := SealedDirectory(pf, id, payload, task, created)]
    {
      NamesApart(pf, id, suffix');
      first := PublishBytes(directory, id, task, payload, suffix, created);
      second := PublishBytes(directory, id, task', payload, suffix', created');
      hide Faithful, ValidIdentity, ValidateDirectory, SealedDirectory;
    }

    /** `read_validated`. */
    method Read(id: CacheIdentity) returns (r: Result<Option<CacheArtifact>, CacheError>)
      ensures r == ReadValidated(pf, tree, id)
      ensures r.Ok? && r.value.Some? ==>
                var d := tree[EntryPath(CacheKey(pf, id))];
                r.value.value.payloadSha256 == pf.sha256(d[PayloadBin].contents) && r.value.value.payloadSizeBytes == |d[PayloadBin].contents|
      ensures r == Err(UnhandledError) <==> EntryPath(CacheKey(pf, id)) in tree && Raises(pf, tree[EntryPath(CacheKey(pf, id))])
    {
      if EntryPath(CacheKey(pf, id)) in tree {
        RaisesIff(pf, EntryPath(CacheKey(pf, id)).name, tree[EntryPath(CacheKey(pf, id))], CacheKey(pf, id), id, true);
      }
      var destination := EntryPath(CacheKey(pf, id));
      if destination !in tree {
        return Ok(None);
      }
      var verdict := ValidateDirectory(pf, destination.name, tree[destination], CacheKey(pf, id), id, true);
      match verdict
      case Ok(a) => return Ok(Some(a));
      case Err(e) => return Err(e);
    }

    /** `quarantine_invalid_locked`: the entry is moved exactly when it is there, does not
        validate, and its texts do not make the parser raise something unhandled; every file of
        it is then in quarantine, and nothing else changes. */
    method QuarantineInvalidLocked(id: CacheIdentity, token: string)
      returns (r: Result<Option<Path>, CacheError>)
      requires QuarantinePath(CacheKey(pf, id), token) !in tree // uuid4
      requires Faithful(pf)
      modifies this
      ensures var p := EntryPath(CacheKey(pf, id));
              var q := QuarantinePath(CacheKey(pf, id), token);
              var present := p in old(tree);
              var valid := present && ValidateDirectory(pf, p.name, old(tree)[p], p.name, id, true).Ok?;
              var raises := present && Raises(pf, old(tree)[p]);
              && (r == Ok(Some(q)) <==> present && !valid && !raises)
              && (r == Ok(None) <==> !present)
              && (r == Err(IntegrityError) <==> valid)
              && (r == Err(UnhandledError) <==> raises)
              && (present && !valid && !raises ==>
                    (&& tree.Keys == old(tree).Keys - {p} + {q} && tree[q] == old(tree)[p]
                     && forall o :: o in old(tree) && o != p ==> tree[o] == old(tree)[o]))
              && (!present || valid || raises ==> tree == old(tree))
              && (present && ValidIdentity(id) && IsTampered(pf, id, old(tree)[p]) ==> r == Ok(Some(q)))
              && (present && ValidIdentity(id) && IsPublished(pf, id, old(tree)[p]) ==> r == Err(IntegrityError) && tree == old(tree))
    {
      var key := CacheKey(pf, id);
      var destination := EntryPath(key);
      EntryPathIsEntry(key);
      if destination !in tree {
        return Ok(None);
      }
      var verdict := ValidateDirectory(pf, destination.name, tree[destination], key, id, true);
      RaisesIff(pf, destination.name, tree[destination], key, id, true);
      if ValidIdentity(id) {
        PublishedIsReadable(pf, tree, id);
      }
      hide ValidateDirectory, IsTampered, IsPublished, Raises, Faithful, ValidIdentity;
      if verdict == Err(IntegrityError) {
        var quarantined := QuarantinePath(key, token);
        OtherPathsAreNotEntries(quarantined);
        tree := MoveDirectory(tree, destination, quarantined);
        return Ok(Some(quarantined));
      }
      return Err(if verdict.Ok? then IntegrityError else verdict.error); // refusing, or passing the exception on
    }

    /** The compute-once cycle the scheduler runs under the identity lock: read; if the entry
        is broken, move it aside; if there is no valid entry, publish. It fails, changing nothing,
        exactly when the parser raises something unhandled on the entry; from every other state
        the next read gives a valid artifact: the one that was valid before, or one holding
        exactly `payload`; a broken entry is kept in quarantine, file by file. */
    method ComputeOnce(id: CacheIdentity, task: string, payload: Bytes, token: string, suffix: string, created: string)
      returns (r: Result<CacheArtifact, CacheError>, hit: bool)
      requires Faithful(pf) && ValidIdentity(id) && IsSha256(task)
      requires QuarantinePath(CacheKey(pf, id), token) !in tree && TransactionPath(CacheKey(pf, id), suffix) !in tree
      modifies this
      ensures var p := EntryPath(CacheKey(pf, id));
              r.Err? <==> p in old(tree) && Raises(pf, old(tree)[p])
      ensures r.Err? ==> r.error == UnhandledError && tree == old(tree) && !hit
      ensures r.Ok? ==> ReadValidated(pf, tree, id) == Ok(Some(r.value))
      ensures hit ==> r.Ok? && tree == old(tree)
      ensures r.Ok? ==> (hit <==> ReadValidated(pf, old(tree), id).Ok? && ReadValidated(pf, old(tree), id).value.Some?)
      ensures r.Ok? && !hit ==> r.value.payloadSha256 == pf.sha256(payload) && r.value.payloadSizeBytes == |payload|
                                && EntryPath(CacheKey(pf, id)) in tree
                                && tree[EntryPath(CacheKey(pf, id))] == SealedDirectory(pf, id, payload, task, created)
      ensures var p := EntryPath(CacheKey(pf, id));
              var q := QuarantinePath(CacheKey(pf, id), token);
              && (r.Ok? && p in old(tree) && !hit ==> q in tree && tree[q] == old(tree)[p])
              && (forall o :: o in old(tree) && o != p ==> o in tree && tree[o] == old(tree)[o])
              && (forall o :: o in tree && o != p && o != q ==> o in old(tree))
    {
      var key := CacheKey(pf, id);
      EntryPathIsEntry(key);
      assert IsTransactionPath(TransactionPath(key, suffix));
      assert IsQuarantinePath(QuarantinePath(key, token));
      TransactionIsNotQuarantine(TransactionPath(key, suffix));
      OtherPathsAreNotEntries(QuarantinePath(key, token));
      SealedDirectoryValidates(pf, id, payload, task, created, key, true);
      var existing := Read(id);
      if existing == Err(IntegrityError) {
        var moved := QuarantineInvalidLocked(id, token);
        existing := Ok(None);
      }
      if existing.Err? {
        return Err(existing.error), false;
      }
      if existing.value.Some? {
        return Ok(existing.value.value), true;
      }
      var published := PublishStream(id, task, payload, pf.sha256(payload), |payload|, suffix, created);
      return Ok(published.value.artifact), false;
    }

    /** `sorted(prefix.iterdir())` as names. */
    method List(prefix: string) returns (names: seq<string>)
      ensures StrictlyIncreasing(names)
      ensures forall name :: name in names <==> Path(prefix, name) in tree
    {
      names := SortedNames(set p | p in tree && p.parent == prefix :: p.name);
      forall name | Path(prefix, name) in tree
        ensures name in names
      {
        assert Path(prefix, name).name == name;
      }
    }

    /** The body of the discovery loop for one directory. */
    method DiscoverAt(prefix: string, name: string) returns (r: Result<Option<CacheArtifact>, CacheError>)
      requires Path(prefix, name) in tree && |prefix| == 2 && IsHex(prefix)
      ensures var p := Path(prefix, name);
              && (r.Err? <==> EndsDiscovery(pf, p, tree[p]))
              && (r.Err? ==> r.error == UnhandledError)
              && (r.Ok? ==> r.value == Discover(pf, p, tree[p]))
    {
      var d := tree[Path(prefix, name)];
      if |name| == 64 && name[..2] == prefix && HasFile(d, ManifestJson) {
        var manifest := LoadManifest(pf, d[ManifestJson].contents);
        if manifest.Raised? {
          return Err(UnhandledError);
        }
        if manifest.Accepted? {
          var verdict := ValidateDirectory(pf, name, d, manifest.value.cacheKey, manifest.value.identity, true);
          RaisesIff(pf, name, d, manifest.value.cacheKey, manifest.value.identity, true);
          if verdict == Err(UnhandledError) {
            return Err(UnhandledError);
          }
          if verdict.Ok? {
            return Ok(Some(verdict.value));
          }
        }
      }
      return Ok(None);
    }

    /** `iter_validated`: walks prefixes and names in sorted order and keeps what validates.
        It raises exactly when some entry makes the parser raise something unhandled; otherwise
        the result is exactly the discoverable entries, each once, in increasing key order. */
    method IterValidated() returns (r: Result<seq<CacheArtifact>, CacheError>)
      ensures r.Err? <==> exists p :: p in tree && EndsDiscovery(pf, p, tree[p])
      ensures r.Ok? ==> IsDiscovery(pf, tree, r.value)
    {
      hide Discover, EndsDiscovery, IsHex;
      var result: seq<CacheArtifact> := [];
      ghost var paths: seq<Path> := [];
      var prefixes := SortedNames(set p | p in tree :: p.parent);
      var i := 0;
      while i < |prefixes|
        invariant 0 <= i <= |prefixes|
        invariant Catalogue(pf, tree, paths, result) && Covers(pf, tree, paths, prefixes[..i], "", [])
        invariant NoneRaises(pf, tree, prefixes[..i], "", [])
      {
        var prefix := prefixes[i];
        assert prefixes[..i + 1] == prefixes[..i] + [prefix];
        assert StrictlyIncreasing(prefixes[..i] + [prefix]);
        if |prefix| == 2 && IsHex(prefix) {
          var names := List(prefix);
          var j := 0;
          hide Catalogue, NoneRaises;
          NoneRaisesYet(pf, tree, prefixes[..i], prefix);
          while j < |names|
            invariant 0 <= j <= |names|
            invariant Catalogue(pf, tree, paths, result) && Covers(pf, tree, paths, prefixes[..i], prefix, names[..j])
            invariant NoneRaises(pf, tree, prefixes[..i], prefix, names[..j])
          {
            assert names[..j + 1] == names[..j] + [names[j]];
            assert StrictlyIncreasing(names[..j] + [names[j]]);
            hide StrictlyIncreasing, Covers;
            var found := DiscoverAt(prefix, names[j]);
            if found.Err? {
              return Err(found.error);
            }
            NoneRaisesHere(pf, tree, prefixes[..i], prefix, names[..j], names[j]);
            if found.value.Some? {
              CatalogueGrows(pf, tree, paths, result, prefixes[..i], prefix, names[..j], Path(prefix, names[j]), found.value.value);
              result := result + [found.value.value];
              paths := paths + [Path(prefix, names[j])];
            }
            CoversSkipped(pf, tree, paths, prefixes[..i], prefix, names[..j], names[j]);
            j := j + 1;
          }
          assert names[..j] == names;
          PrefixDone(pf, tree, paths, prefixes[..i], prefix, names);
          NoneRaisesBelow(pf, tree, prefixes[..i], prefix, names);
        } else {
          PrefixSkipped(pf, tree, paths, prefixes[..i], prefix);
          NoneRaisesBeside(pf, tree, prefixes[..i], prefix);
        }
        i := i + 1;
      }
      CatalogueIsDiscovery(pf, tree, paths, result, prefixes);
      NoneRaisesAnywhere(pf, tree, prefixes);
      return Ok(result);
    }
  }

  /** No directory looked at so far ends the walk. */
  ghost predicate NoneRaises(pf: Platform, tree: Tree, prefixes: seq<string>, prefix: string, names: seq<string>) {
    forall p :: p in tree && EndsDiscovery(pf, p, tree[p]) ==> !(p.parent in prefixes || (p.parent == prefix && p.name in names))
  }

  lemma NoneRaisesYet(pf: Platform, tree: Tree, prefixes: seq<string>, prefix: string)
    requires NoneRaises(pf, tree, prefixes, "", [])
    ensures NoneRaises(pf, tree, prefixes, prefix, [])
  {
  }

  lemma NoneRaisesHere(pf: Platform, tree: Tree, prefixes: seq<string>, prefix: string, names: seq<string>, name: string)
    requires NoneRaises(pf, tree, prefixes, prefix, names)
    requires Path(prefix, name) in tree && !EndsDiscovery(pf, Path(prefix, name), tree[Path(prefix, name)])
    ensures NoneRaises(pf, tree, prefixes, prefix, names + [name])
  {
    hide EndsDiscovery;
  }

  lemma NoneRaisesBelow(pf: Platform, tree: Tree, prefixes: seq<string>, prefix: string, names: seq<string>)
    requires NoneRaises(pf, tree, prefixes, prefix, names) && forall name :: name in names <==> Path(prefix, name) in tree
    ensures NoneRaises(pf, tree, prefixes + [prefix], "", [])
  {
    hide EndsDiscovery;
    forall p | p in tree && EndsDiscovery(pf, p, tree[p])
      ensures p.parent !in prefixes + [prefix]
    {
      assert p == Path(p.parent, p.name);
    }
  }

  lemma NoneRaisesBeside(pf: Platform, tree: Tree, prefixes: seq<string>, prefix: string)
    requires NoneRaises(pf, tree, prefixes, "", []) && !(|prefix| == 2 && IsHex(prefix))
    ensures NoneRaises(pf, tree, prefixes + [prefix], "", [])
  {
    forall p | p in tree && EndsDiscovery(pf, p, tree[p])
      ensures p.parent !in prefixes + [prefix]
    {
    }
  }

  lemma NoneRaisesAnywhere(pf: Platform, tree: Tree, prefixes: seq<string>)
    requires NoneRaises(pf, tree, prefixes, "", []) && forall p :: p in tree ==> p.parent in prefixes
    ensures forall p :: p in tree ==> !EndsDiscovery(pf, p, tree[p])
  {
    hide EndsDiscovery;
  }

  /** A name that does not validate adds nothing. */
  lemma CoversSkipped(pf: Platform, tree: Tree, paths: seq<Path>, prefixes: seq<string>, prefix: string, names: seq<string>, name: string)
    requires Covers(pf, tree, paths, prefixes, prefix, names + [name]) ||
             (Covers(pf, tree, paths, prefixes, prefix, names) && !(Path(prefix, name) in tree && EntryValid(pf, Path(prefix, name), tree[Path(prefix, name)])))
    ensures Covers(pf, tree, paths, prefixes, prefix, names + [name])
  {
    hide EntryValid;
  }

  lemma PrefixDone(pf: Platform, tree: Tree, paths: seq<Path>, prefixes: seq<string>, prefix: string, names: seq<string>)
    requires Covers(pf, tree, paths, prefixes, prefix, names)
    requires forall name :: name in names <==> Path(prefix, name) in tree
    ensures Covers(pf, tree, paths, prefixes + [prefix], "", [])
  {
    hide EntryValid;
    assert forall p: Path :: p == Path(p.parent, p.name);
  }

  /** `.locks`, `.quarantine` and the like hold no entry. */
  lemma PrefixSkipped(pf: Platform, tree: Tree, paths: seq<Path>, prefixes: seq<string>, prefix: string)
    requires Covers(pf, tree, paths, prefixes, "", [])
    requires !(|prefix| == 2 && IsHex(prefix))
    ensures Covers(pf, tree, paths, prefixes + [prefix], "", [])
  {
    forall p | p in tree && EntryValid(pf, p, tree[p])
      ensures p.parent != prefix
    {
      DiscoveredIsEntry(pf, p, tree[p]);
    }
    hide EntryValid;
  }

  lemma CatalogueIsDiscovery(pf: Platform, tree: Tree, paths: seq<Path>, result: seq<CacheArtifact>, prefixes: seq<string>)
    requires Catalogue(pf, tree, paths, result) && Covers(pf, tree, paths, prefixes, "", [])
    requires forall p :: p in tree ==> p.parent in prefixes
    ensures IsDiscovery(pf, tree, result)
  {
    forall k | 0 <= k < |result|
      ensures result[k].cacheKey == paths[k].name
    {
      DiscoveredKey(pf, paths[k], tree[paths[k]]);
    }
    hide Discover;
    forall a
      ensures a in result <==> exists p :: p in tree && Discover(pf, p, tree[p]) == Some(a)
    {
      if p :| p in tree && Discover(pf, p, tree[p]) == Some(a) {
        assert EntryValid(pf, p, tree[p]);
        var k :| 0 <= k < |paths| && paths[k] == p;
        assert result[k] == a;
      }
    }
  }

  lemma DiscoveredKey(pf: Platform, p: Path, d: Directory)
    requires EntryValid(pf, p, d)
    ensures Discover(pf, p, d).value.cacheKey == p.name
  {
  }
}
