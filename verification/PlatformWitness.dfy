/** The hypotheses of the protocol results can be met together: a platform, two identities, a
    cache root with a valid entry, and a history. */
module PlatformWitness {
  import opened Wrappers
  import opened CacheContracts
  import opened CacheFiles
  import opened PublishProtocol
  import opened ProtocolSafety
  import opened ProtocolAgreement
  import GroupEncoding

  // ----- an injective text for every record -----

  function CharBytes(c: char): Bytes {
    var n := c as int;
    [1, (n / 65536) as Byte, (n / 256 % 256) as Byte, (n % 256) as Byte]
  }

  function Encode(s: string): Bytes {
    if s == [] then [0] else CharBytes(s[0]) + Encode(s[1..])
  }

  lemma CharBytesSeparate(c: char, d: char)
    ensures CharBytes(c) == CharBytes(d) ==> c == d
  {
    if CharBytes(c) == CharBytes(d) {
      var n, m := c as int, d as int;
      assert CharBytes(c)[1] == CharBytes(d)[1] && CharBytes(c)[2] == CharBytes(d)[2] && CharBytes(c)[3] == CharBytes(d)[3];
      assert n == n / 65536 * 65536 + n / 256 % 256 * 256 + n % 256;
      assert m == m / 65536 * 65536 + m / 256 % 256 * 256 + m % 256;
    }
  }

  lemma {:induction false} EncodeSeparates(s: string, t: string, u: Bytes, v: Bytes)
    requires Encode(s) + u == Encode(t) + v
    ensures s == t && u == v
  {
    var x, y := Encode(s) + u, Encode(t) + v;
    assert x[0] == (if s == [] then 0 else 1) && y[0] == (if t == [] then 0 else 1);
    if s == [] {
      assert u == x[1..] && v == y[1..];
    } else {
      assert x[..4] == CharBytes(s[0]) && y[..4] == CharBytes(t[0]);
      CharBytesSeparate(s[0], t[0]);
      assert x[4..] == Encode(s[1..]) + u && y[4..] == Encode(t[1..]) + v;
      EncodeSeparates(s[1..], t[1..], u, v);
      assert s == [s[0]] + s[1..] && t == [t[0]] + t[1..];
    }
  }

  function EncodeAll(fields: seq<string>): Bytes {
    if fields == [] then [] else Encode(fields[0]) + EncodeAll(fields[1..])
  }

  lemma {:induction false} EncodeAllSeparates(s: seq<string>, t: seq<string>)
    requires |s| == |t| && EncodeAll(s) == EncodeAll(t)
    ensures s == t
  {
    if s != [] {
      EncodeSeparates(s[0], t[0], EncodeAll(s[1..]), EncodeAll(t[1..]));
      EncodeAllSeparates(s[1..], t[1..]);
      assert s == [s[0]] + s[1..] && t == [t[0]] + t[1..];
    }
  }

  function OptionalText(o: Option<string>): string {
    match o
    case None => "-"
    case Some(s) => "+" + s
  }

  function BoolText(b: bool): string {
    if b then "true" else "false"
  }

  function DeviceText(d: DevicePolicy): string {
    match d
    case Cpu => "cpu"
    case Cuda => "cuda"
  }

  function KindText(k: ArtifactKind): string {
    match k
    case Model => "model"
    case Prediction => "prediction"
    case Metric => "metric"
    case Condition => "condition"
    case Probe => "probe"
  }

  function IdentityFields(id: CacheIdentity): (r: seq<string>)
    ensures |r| == 12
  {
    [GroupEncoding.IntegerText(id.schemaVersion), id.datasetSha256, id.splitSha256, id.viewCertificateSha256, id.modelSpecSha256,
     id.modelParametersSha256, OptionalText(id.checkpointSha256), id.dependencyLockSha256, id.sourceImplementationSha256,
     GroupEncoding.IntegerText(id.seed), DeviceText(id.devicePolicy), KindText(id.artifactKind)]
  }

  lemma OptionalTextSeparates(o: Option<string>, p: Option<string>)
    ensures OptionalText(o) == OptionalText(p) ==> o == p
  {
    if OptionalText(o) == OptionalText(p) && o.Some? && p.Some? {
      assert OptionalText(o)[1..] == o.value && OptionalText(p)[1..] == p.value;
    } else {
      assert OptionalText(o)[0] == (if o.Some? then '+' else '-') && OptionalText(p)[0] == (if p.Some? then '+' else '-');
    }
  }

  lemma KindTextSeparates(k: ArtifactKind, l: ArtifactKind)
    ensures KindText(k) == KindText(l) ==> k == l
  {
    assert |"model"| == 5 && |"prediction"| == 10 && |"metric"| == 6 && |"condition"| == 9 && |"probe"| == 5;
    assert "model"[0] != "probe"[0];
  }

  lemma IdentityFieldsSeparate(a: CacheIdentity, b: CacheIdentity)
    ensures IdentityFields(a) == IdentityFields(b) ==> a == b
  {
    var s, t := IdentityFields(a), IdentityFields(b);
    if s == t {
      assert forall k :: 0 <= k < 12 ==> s[k] == t[k];
      GroupEncoding.IntegerTextIsInjective(a.schemaVersion, b.schemaVersion);
      GroupEncoding.IntegerTextIsInjective(a.seed, b.seed);
      OptionalTextSeparates(a.checkpointSha256, b.checkpointSha256);
      KindTextSeparates(a.artifactKind, b.artifactKind);
      hide GroupEncoding.IntegerText, OptionalText, KindText;
      assert s[0] == t[0] && s[1] == t[1] && s[2] == t[2] && s[3] == t[3] && s[4] == t[4] && s[5] == t[5];
      assert s[6] == t[6] && s[7] == t[7] && s[8] == t[8] && s[9] == t[9] && s[10] == t[10] && s[11] == t[11];
      assert |"cpu"| == 3 && |"cuda"| == 4;
    }
  }

  function OwnFields(m: CacheArtifactManifest): (r: seq<string>)
    ensures |r| == 13
  {
    [GroupEncoding.IntegerText(m.schemaVersion), m.cacheKey, KindText(m.artifactKind), m.payloadFile, m.payloadSha256,
     GroupEncoding.IntegerText(m.payloadSizeBytes), m.producingTaskIdentity, m.createdAt.iso, BoolText(m.createdAt.utc),
     m.sourceImplementationSha256, m.dependencyLockSha256, m.validationStatus, BoolText(m.completed)]
  }

  lemma BoolTextSeparates(a: bool, b: bool)
    ensures BoolText(a) == BoolText(b) ==> a == b
  {
    assert |"true"| == 4 && |"false"| == 5;
  }

  lemma OwnFieldsSeparate(m: CacheArtifactManifest, n: CacheArtifactManifest)
    ensures OwnFields(m) == OwnFields(n) && m.identity == n.identity ==> m == n
  {
    var s, t := OwnFields(m), OwnFields(n);
    if s == t {
      GroupEncoding.IntegerTextIsInjective(m.schemaVersion, n.schemaVersion);
      GroupEncoding.IntegerTextIsInjective(m.payloadSizeBytes, n.payloadSizeBytes);
      KindTextSeparates(m.artifactKind, n.artifactKind);
      BoolTextSeparates(m.createdAt.utc, n.createdAt.utc);
      BoolTextSeparates(m.completed, n.completed);
      hide GroupEncoding.IntegerText, KindText, BoolText;
      assert s[0] == t[0] && s[1] == t[1] && s[2] == t[2] && s[3] == t[3] && s[4] == t[4] && s[5] == t[5] && s[6] == t[6];
      assert s[7] == t[7] && s[8] == t[8] && s[9] == t[9] && s[10] == t[10] && s[11] == t[11] && s[12] == t[12];
    }
  }

  function ManifestText(m: CacheArtifactManifest): Bytes {
    EncodeAll(IdentityFields(m.identity) + OwnFields(m))
  }

  function MarkerText(k: CompletionMarker): Bytes {
    EncodeAll([GroupEncoding.IntegerText(k.schemaVersion), k.manifestSha256, k.payloadSha256])
  }

  lemma ManifestTextSeparates(m: CacheArtifactManifest, n: CacheArtifactManifest)
    requires ManifestText(m) == ManifestText(n)
    ensures m == n
  {
    hide EncodeAll, IdentityFields, OwnFields;
    var s, t := IdentityFields(m.identity) + OwnFields(m), IdentityFields(n.identity) + OwnFields(n);
    EncodeAllSeparates(s, t);
    assert s[..12] == IdentityFields(m.identity) && t[..12] == IdentityFields(n.identity);
    assert s[12..] == OwnFields(m) && t[12..] == OwnFields(n);
    IdentityFieldsSeparate(m.identity, n.identity);
    OwnFieldsSeparate(m, n);
  }

  lemma MarkerTextSeparates(k: CompletionMarker, l: CompletionMarker)
    requires MarkerText(k) == MarkerText(l)
    ensures k == l
  {
    hide EncodeAll, GroupEncoding.IntegerText;
    var s := [GroupEncoding.IntegerText(k.schemaVersion), k.manifestSha256, k.payloadSha256];
    var t := [GroupEncoding.IntegerText(l.schemaVersion), l.manifestSha256, l.payloadSha256];
    EncodeAllSeparates(s, t);
    assert s[0] == t[0] && s[1] == t[1] && s[2] == t[2];
    GroupEncoding.IntegerTextIsInjective(k.schemaVersion, l.schemaVersion);
  }

  ghost function ReadManifestText(text: Bytes): Parsed<CacheArtifactManifest> {
    if m: CacheArtifactManifest :| ManifestText(m) == text then Accepted(m) else Rejected
  }

  ghost function ReadMarkerText(text: Bytes): Parsed<CompletionMarker> {
    if k: CompletionMarker :| MarkerText(k) == text then Accepted(k) else Rejected
  }

  // ----- a platform -----

  function Digest(c: char): (r: string)
    ensures |r| == 64 && forall i :: 0 <= i < 64 ==> r[i] == c
  {
    seq(64, _ => c)
  }

  /** A hash that tells the given text from all others, and no others apart. */
  ghost function PlatformFor(id: CacheIdentity): Platform {
    Platform(text => if text == EncodeAll(IdentityFields(id)) then Digest('1') else Digest('2'),
             other => EncodeAll(IdentityFields(other)),
             m => ManifestText(m), text => ReadManifestText(text), k => MarkerText(k), text => ReadMarkerText(text))
  }

  lemma PlatformIsFaithful(id: CacheIdentity)
    ensures Faithful(PlatformFor(id))
  {
    hide ManifestText, MarkerText, EncodeAll, IdentityFields;
    var pf := PlatformFor(id);
    forall m: CacheArtifactManifest
      ensures ReadManifestText(ManifestText(m)) == Accepted(m)
    {
      var r := ReadManifestText(ManifestText(m));
      assert r.Accepted? && ManifestText(r.value) == ManifestText(m);
      ManifestTextSeparates(m, r.value);
    }
    forall k: CompletionMarker
      ensures ReadMarkerText(MarkerText(k)) == Accepted(k)
    {
      var r := ReadMarkerText(MarkerText(k));
      assert r.Accepted? && MarkerText(r.value) == MarkerText(k);
      MarkerTextSeparates(k, r.value);
    }
  }

  lemma PlatformSeparates(a: CacheIdentity, b: CacheIdentity)
    requires a != b
    ensures CacheKey(PlatformFor(a), a) != CacheKey(PlatformFor(a), b)
    ensures CollisionFree(PlatformFor(a), {a, b})
  {
    hide EncodeAll, IdentityFields;
    if EncodeAll(IdentityFields(a)) == EncodeAll(IdentityFields(b)) {
      EncodeAllSeparates(IdentityFields(a), IdentityFields(b));
      IdentityFieldsSeparate(a, b);
    }
    assert Digest('1')[0] != Digest('2')[0];
  }

  /** A cache root whose one entry was published under `id`. */
  ghost function RootWith(pf: Platform, id: CacheIdentity, payload: Bytes, task: string, iso: string): World {
    World(map[EntryPath(CacheKey(pf, id)) := SealedDirectory(pf, id, payload, task, iso)], map[], {}, map[])
  }

  /** For any two identities and any entry under the first of them there are a platform, a world
      and a history that meet every hypothesis of the protocol results. */
  lemma HypothesesCanBeMet(a: CacheIdentity, b: CacheIdentity, payload: Bytes, task: string, iso: string)
    returns (pf: Platform, w: World, actions: seq<Action>)
    requires ValidIdentity(a) && ValidIdentity(b) && a != b && IsSha256(task)
    ensures Faithful(pf) && StartsFrom(pf, {a, b}, w) && AllEntriesValid(pf, w.tree)
    ensures EntryPath(CacheKey(pf, a)) in w.tree && CacheKey(pf, a) != CacheKey(pf, b)
    ensures actions == [Launch(0, a, Read), Launch(1, b, Publish(task, task, 0, true))]
    ensures NoDamage(actions) && LaunchesFrom(actions, {a, b}) && NoMisread(pf, w, actions)
  {
    hide PlatformFor, Faithful, CollisionFree, ValidIdentity, CacheKey, AllEntriesValid, StartsFrom, NoMisread, IsSha256, SealedDirectory, Prefix;
    pf := PlatformFor(a);
    PlatformIsFaithful(a);
    PlatformSeparates(a, b);
    RootIsSound(pf, a, b, payload, task, iso);
    w := RootWith(pf, a, payload, task, iso);
    actions := [Launch(0, a, Read), Launch(1, b, Publish(task, task, 0, true))];
    LaunchesMisreadNothing(pf, w, actions);
  }

  lemma RootIsSound(pf: Platform, a: CacheIdentity, b: CacheIdentity, payload: Bytes, task: string, iso: string)
    requires Faithful(pf) && CollisionFree(pf, {a, b}) && ValidIdentity(a) && IsSha256(task)
    ensures var w := RootWith(pf, a, payload, task, iso); StartsFrom(pf, {a, b}, w) && AllEntriesValid(pf, w.tree)
  {
    SealedDirectoryValidates(pf, a, payload, task, iso, CacheKey(pf, a), true);
    ValidatedEntryIsDiscovered(pf, SealedDirectory(pf, a, payload, task, iso), a);
    hide Faithful, CollisionFree, SealedDirectory, EntryValid, EntryIdentity, ValidIdentity, IsEntryPath, ValidateDirectory, CacheKey, EntryPath;
  }

  lemma {:induction false} LaunchesMisreadNothing(pf: Platform, w: World, actions: seq<Action>)
    requires forall k :: 0 <= k < |actions| ==> actions[k].Launch?
    ensures NoMisread(pf, w, actions)
    decreases |actions|
  {
    hide Next;
    if actions != [] {
      LaunchesMisreadNothing(pf, Next(pf, w, actions[0]), actions[1..]);
    }
  }
}
