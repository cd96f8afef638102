/** The materialisation loop of `run_conditions` (`experiments/execution.py`): prediction files
    of completed conditions are brought in line with the cached archives. */
module Materialisation {
  import opened Wrappers
  import opened CacheContracts
  import GroupEncoding

  datatype Side = CalibrationSide | TestSide

  function SideName(s: Side): string {
    match s
    case CalibrationSide => "calibration"
    case TestSide => "test"
  }

  /** One output record of the archive's metadata. */
  datatype Output = Output(side: Side, digest: string)

  /** A cached archive: metadata, the two payloads, and whether every check on the metadata and
      the frames other than the digest checks passes. */
  datatype Archive = Archive(outputs: seq<Output>, calibration: Bytes, test: Bytes, otherChecksPass: bool)

  function Payload(a: Archive, s: Side): Bytes {
    match s
    case CalibrationSide => a.calibration
    case TestSide => a.test
  }

  /** `read_validated`: nothing, an invalid entry (an exception), or an archive. */
  datatype Answer = Absent | Invalid | Found(archive: Archive)

  /** A condition of the plan with its scheduler state and what the cache answers for it. */
  datatype Item = Item(conditionId: string, taskName: string, complete: bool, answer: Answer)

  datatype MaterialiseError = NoValidArtifact(taskName: string) | ArchiveRejected(taskName: string)

  datatype FileRecord = FileRecord(name: string, side: Side, digest: string)
  datatype Run = Passed(conditionId: string, files: seq<FileRecord>) | NotPassed(conditionId: string)

  /** The prediction directory, and how many random names have been drawn. */
  datatype Disk = Disk(files: map<string, Bytes>, drawn: nat)

  type Hasher = Bytes -> string
  type Tokens = nat -> string

  /** Two outputs, one a side, each with its payload's digest. */
  predicate Loads(sha: Hasher, a: Archive) {
    && a.otherChecksPass && |a.outputs| == 2 && a.outputs[0].side != a.outputs[1].side
    && (forall k :: 0 <= k < 2 ==> sha(Payload(a, a.outputs[k].side)) == a.outputs[k].digest)
  }

  predicate Usable(sha: Hasher, item: Item) {
    item.complete ==> item.answer.Found? && Loads(sha, item.answer.archive)
  }

  // ----- names -----

  function Target(taskName: string, s: Side): string {
    taskName + ("_" + SideName(s) + ".parquet")
  }

  function QuarantineName(target: string, digest: string, token: string): string {
    target + ".invalid-" + digest + "-" + token
  }

  predicate EndsWith(s: string, tail: string) {
    |s| >= |tail| && s[|s| - |tail|..] == tail
  }

  /** `uuid4().hex`: 32 hexadecimal digits, and among the first `limit` draws no two the same. */
  ghost predicate RandomNames(tokens: Tokens, limit: nat) {
    && (forall n: nat :: n < limit ==> |tokens(n)| == 32 && IsHex(tokens(n)))
    && (forall m: nat, n: nat :: m < limit && n < limit && tokens(m) == tokens(n) ==> m == n)
  }

  /** No file carries a name that is still to be drawn. */
  ghost predicate Fresh(tokens: Tokens, limit: nat, d: Disk) {
    forall n: nat, p :: d.drawn <= n < limit && p in d.files ==> !EndsWith(p, tokens(n))
  }

  /** Both can be met, for as many draws as there are names. */
  lemma RandomNamesExist(limit: nat, files: map<string, Bytes>) returns (tokens: Tokens)
    requires limit <= GroupEncoding.Pow16(32) && forall p :: p in files ==> p != "" && !IsLowerHex(p[|p| - 1])
    ensures RandomNames(tokens, limit) && Fresh(tokens, limit, Disk(files, 0))
  {
    hide GroupEncoding.Pow16, GroupEncoding.HexDigits, IsHex;
    tokens := (n: nat) => GroupEncoding.HexDigits(n, 32);
    forall n: nat
      ensures IsHex(tokens(n)) && IsLowerHex(tokens(n)[31])
    {
      GroupEncoding.HexDigitsAreHex(n, 32);
    }
    forall m: nat, n: nat | m < limit && n < limit && tokens(m) == tokens(n)
      ensures m == n
    {
      GroupEncoding.HexDigitsInjective(m, n, 32);
    }
    forall n: nat, p | n < limit && p in files
      ensures !EndsWith(p, tokens(n))
    {
      LastOfTail(p, tokens(n));
    }
  }

  lemma TargetLast(taskName: string, s: Side)
    ensures var t := Target(taskName, s); |t| >= 13 && t[|t| - 1] == 't' && t[|t| - 9] == if s.TestSide? then 't' else 'n'
  {
  }

  /** Different conditions or sides have different files. */
  lemma TargetsAreDistinct(n: string, s: Side, n': string, s': Side)
    ensures Target(n, s) == Target(n', s') <==> n == n' && s == s'
  {
    TargetLast(n, s);
    TargetLast(n', s');
    if Target(n, s) == Target(n', s') && s == s' {
      SameTail(n, n', "_" + SideName(s) + ".parquet");
    }
  }

  lemma SameTail(a: string, b: string, tail: string)
    requires a + tail == b + tail
    ensures a == b
  {
    assert |a| == |b|;
    assert a == (a + tail)[..|a|] && b == (b + tail)[..|a|];
  }

  lemma TargetsAreNotRandom(tokens: Tokens, limit: nat, taskName: string, s: Side, n: nat)
    requires RandomNames(tokens, limit) && n < limit
    ensures !EndsWith(Target(taskName, s), tokens(n))
  {
    TargetLast(taskName, s);
    assert IsLowerHex(tokens(n)[31]);
    LastOfTail(Target(taskName, s), tokens(n));
  }

  lemma LastOfTail(s: string, tail: string)
    requires tail != []
    ensures EndsWith(s, tail) ==> s != [] && s[|s| - 1] == tail[|tail| - 1]
  {
  }

  lemma QuarantineNamesAreRandom(tokens: Tokens, limit: nat, target: string, digest: string, m: nat, n: nat)
    requires RandomNames(tokens, limit) && m < limit && n < limit
    ensures EndsWith(QuarantineName(target, digest, tokens(m)), tokens(n)) <==> m == n
  {
    var q := QuarantineName(target, digest, tokens(m));
    assert q[|q| - 32..] == tokens(m);
  }

  /** A quarantine name tells which file was moved aside, with what digest, and at which draw. */
  lemma QuarantineNamesTell(tokens: Tokens, limit: nat, t: string, digest: string, m: nat, t': string, digest': string, n: nat)
    requires RandomNames(tokens, limit) && m < limit && n < limit && |digest| == |digest'|
    ensures QuarantineName(t, digest, tokens(m)) == QuarantineName(t', digest', tokens(n)) <==> t == t' && digest == digest' && m == n
  {
    var q, q' := QuarantineName(t, digest, tokens(m)), QuarantineName(t', digest', tokens(n));
    if q == q' {
      QuarantineNamesAreRandom(tokens, limit, t, digest, m, n);
      QuarantineNamesAreRandom(tokens, limit, t', digest', n, n);
      var k := |q| - 33 - |digest|;
      assert q[k..|q| - 33] == digest && q'[k..|q| - 33] == digest';
      assert q[..k - 9] == t && q'[..k - 9] == t';
    }
  }

  /** An archive is accepted exactly when it lists, in either order, the calibration output with
      the digest of the calibration payload and the test output with that of the test payload. */
  lemma LoadsIff(sha: Hasher, a: Archive)
    ensures Loads(sha, a) <==>
            (&& a.otherChecksPass
             && (|| a.outputs == [Output(CalibrationSide, sha(a.calibration)), Output(TestSide, sha(a.test))]
                 || a.outputs == [Output(TestSide, sha(a.test)), Output(CalibrationSide, sha(a.calibration))]))
  {
    if |a.outputs| == 2 {
      var o, o' := a.outputs[0], a.outputs[1];
      assert a.outputs == [o, o'];
    }
  }

  // ----- one file -----

  /** The body of the inner loop: skip a file with the right digest, move any other aside, write. */
  function Place(sha: Hasher, tokens: Tokens, d: Disk, target: string, payload: Bytes, digest: string): Disk {
    if target !in d.files then Disk(d.files[target := payload], d.drawn)
    else
      var found := sha(d.files[target]);
      if found == digest then d
      else Disk((d.files - {target})[QuarantineName(target, found, tokens(d.drawn)) := d.files[target]][target := payload], d.drawn + 1)
  }

  /** The path is a prediction file of a completed condition. */
  ghost predicate IsTarget(items: seq<Item>, p: string) {
    exists k, s :: 0 <= k < |items| && items[k].complete && Target(items[k].taskName, s) == p
  }

  ghost predicate MovedAside(sha: Hasher, tokens: Tokens, before: Disk, d: Disk, p: string)
    requires p in before.files
  {
    exists n: nat :: n >= before.drawn && n < d.drawn && IsCopy(sha, tokens, before, d, p, n)
  }

  ghost predicate IsCopy(sha: Hasher, tokens: Tokens, before: Disk, d: Disk, p: string, n: nat)
    requires p in before.files
  {
    var q := QuarantineName(p, sha(before.files[p]), tokens(n));
    q in d.files && d.files[q] == before.files[p]
  }

  ghost predicate InPlace(before: Disk, d: Disk, p: string)
    requires p in before.files
  {
    p in d.files && d.files[p] == before.files[p]
  }

  /** No bytes are lost, and only targets move: every earlier file is where it was, or is a
      target whose bytes now lie under a quarantine name. */
  ghost predicate NothingLost(sha: Hasher, tokens: Tokens, items: seq<Item>, before: Disk, d: Disk) {
    forall p :: p in before.files ==> InPlace(before, d, p) || (IsTarget(items, p) && MovedAside(sha, tokens, before, d, p))
  }

  ghost predicate IsQuarantineName(tokens: Tokens, items: seq<Item>, p: string) {
    exists t, digest, n: nat :: IsTarget(items, t) && p == QuarantineName(t, digest, tokens(n))
  }

  /** Every file is an earlier one, a target, or a target moved aside. */
  ghost predicate NothingStrange(tokens: Tokens, items: seq<Item>, before: Disk, d: Disk) {
    forall p :: p in d.files ==> (p in before.files && InPlace(before, d, p)) || IsTarget(items, p) || IsQuarantineName(tokens, items, p)
  }

  lemma PlaceStaysFresh(sha: Hasher, tokens: Tokens, limit: nat, d: Disk, taskName: string, s: Side, payload: Bytes, digest: string)
    requires RandomNames(tokens, limit) && Fresh(tokens, limit, d) && d.drawn < limit
    ensures Fresh(tokens, limit, Place(sha, tokens, d, Target(taskName, s), payload, digest))
  {
    hide Target, QuarantineName, EndsWith;
    var target := Target(taskName, s);
    var d' := Place(sha, tokens, d, target, payload, digest);
    forall n: nat, p | d'.drawn <= n < limit && p in d'.files
      ensures !EndsWith(p, tokens(n))
    {
      TargetsAreNotRandom(tokens, limit, taskName, s, n);
      if target in d.files {
        QuarantineNamesAreRandom(tokens, limit, target, sha(d.files[target]), d.drawn, n);
      }
    }
  }

  /** Placing a file changes that file alone, and keeps what was in it. */
  lemma PlaceMeans(sha: Hasher, tokens: Tokens, limit: nat, d: Disk, taskName: string, s: Side, payload: Bytes, digest: string)
    requires RandomNames(tokens, limit) && Fresh(tokens, limit, d) && d.drawn < limit && sha(payload) == digest
    ensures var t := Target(taskName, s);
            var d' := Place(sha, tokens, d, t, payload, digest);
            && t in d'.files && sha(d'.files[t]) == digest
            && (t !in d.files || sha(d.files[t]) != digest ==> d'.files[t] == payload)
            && (forall p :: p in d.files && p != t ==> InPlace(d, d', p))
            && (t in d.files ==> InPlace(d, d', t) || (d'.drawn == d.drawn + 1 && IsCopy(sha, tokens, d, d', t, d.drawn)))
            && (forall p :: p in d'.files && p != t ==> (p in d.files || exists digest :: p == QuarantineName(t, digest, tokens(d.drawn))))
            && (t in d.files && sha(d.files[t]) == digest ==> d' == d)
            && d.drawn <= d'.drawn
  {
    hide Target, QuarantineName, EndsWith;
    var t := Target(taskName, s);
    if t in d.files && sha(d.files[t]) != digest {
      var q := QuarantineName(t, sha(d.files[t]), tokens(d.drawn));
      QuarantineNamesAreRandom(tokens, limit, t, sha(d.files[t]), d.drawn, d.drawn);
      TargetsAreNotRandom(tokens, limit, taskName, s, d.drawn);
      assert q !in d.files && q != t;
    }
  }

  lemma PlaceLosesNothing(sha: Hasher, tokens: Tokens, limit: nat, items: seq<Item>, before: Disk, d: Disk,
                          taskName: string, s: Side, payload: Bytes, digest: string)
    requires RandomNames(tokens, limit) && Fresh(tokens, limit, d) && d.drawn < limit && sha(payload) == digest && before.drawn <= d.drawn
    requires IsTarget(items, Target(taskName, s)) && NothingLost(sha, tokens, items, before, d)
    ensures NothingLost(sha, tokens, items, before, Place(sha, tokens, d, Target(taskName, s), payload, digest))
  {
    hide Target, QuarantineName, EndsWith, IsTarget;
    var t := Target(taskName, s);
    var d' := Place(sha, tokens, d, t, payload, digest);
    PlaceMeans(sha, tokens, limit, d, taskName, s, payload, digest);
    hide Place;
    forall p | p in before.files
      ensures InPlace(before, d', p) || (IsTarget(items, p) && MovedAside(sha, tokens, before, d', p))
    {
      if InPlace(before, d, p) {
        if p == t && !InPlace(d, d', t) {
          assert IsCopy(sha, tokens, before, d', p, d.drawn);
        }
      } else {
        var n: nat :| n >= before.drawn && n < d.drawn && IsCopy(sha, tokens, before, d, p, n);
        CopyIsNoTarget(tokens, limit, p, sha(before.files[p]), n, taskName, s);
        assert IsCopy(sha, tokens, before, d', p, n);
      }
    }
  }

  lemma CopyIsNoTarget(tokens: Tokens, limit: nat, p: string, digest: string, n: nat, taskName: string, s: Side)
    requires RandomNames(tokens, limit) && n < limit
    ensures QuarantineName(p, digest, tokens(n)) != Target(taskName, s)
  {
    QuarantineNamesAreRandom(tokens, limit, p, digest, n, n);
    TargetsAreNotRandom(tokens, limit, taskName, s, n);
  }

  lemma PlaceAddsNothingStrange(sha: Hasher, tokens: Tokens, limit: nat, items: seq<Item>, before: Disk, d: Disk,
                                taskName: string, s: Side, payload: Bytes, digest: string)
    requires RandomNames(tokens, limit) && Fresh(tokens, limit, d) && d.drawn < limit && sha(payload) == digest
    requires IsTarget(items, Target(taskName, s)) && NothingStrange(tokens, items, before, d)
    ensures NothingStrange(tokens, items, before, Place(sha, tokens, d, Target(taskName, s), payload, digest))
  {
    hide Target, QuarantineName, EndsWith, IsTarget;
    var t := Target(taskName, s);
    var d' := Place(sha, tokens, d, t, payload, digest);
    PlaceMeans(sha, tokens, limit, d, taskName, s, payload, digest);
    hide Place;
    forall p | p in d'.files
      ensures (p in before.files && InPlace(before, d', p)) || IsTarget(items, p) || IsQuarantineName(tokens, items, p)
    {
    }
  }

  // ----- the loop -----

  /** The file of an output has the archived digest. */
  ghost predicate HasFile(sha: Hasher, d: Disk, taskName: string, o: Output) {
    var t := Target(taskName, o.side);
    t in d.files && sha(d.files[t]) == o.digest
  }

  ghost predicate ItemDone(sha: Hasher, d: Disk, item: Item) {
    item.complete && item.answer.Found? ==>
      forall j :: 0 <= j < |item.answer.archive.outputs| ==> HasFile(sha, d, item.taskName, item.answer.archive.outputs[j])
  }

  ghost predicate AllDone(sha: Hasher, d: Disk, items: seq<Item>, n: nat) {
    forall k :: 0 <= k < |items| && k < n ==> ItemDone(sha, d, items[k])
  }

  ghost predicate DistinctTasks(items: seq<Item>) {
    forall i, j :: 0 <= i < j < |items| ==> items[i].taskName != items[j].taskName
  }

  /** Files of other conditions, and of the other side, are left alone. */
  lemma PlaceKeepsFile(sha: Hasher, tokens: Tokens, limit: nat, d: Disk, taskName: string, s: Side, payload: Bytes, digest: string,
                       otherTask: string, o: Output)
    requires RandomNames(tokens, limit) && Fresh(tokens, limit, d) && d.drawn < limit && sha(payload) == digest
    requires otherTask != taskName || o.side != s
    requires HasFile(sha, d, otherTask, o)
    ensures HasFile(sha, Place(sha, tokens, d, Target(taskName, s), payload, digest), otherTask, o)
  {
    hide Target, Place;
    TargetsAreDistinct(taskName, s, otherTask, o.side);
    PlaceMeans(sha, tokens, limit, d, taskName, s, payload, digest);
    assert InPlace(d, Place(sha, tokens, d, Target(taskName, s), payload, digest), Target(otherTask, o.side));
  }

  lemma PlaceKeepsItem(sha: Hasher, tokens: Tokens, limit: nat, d: Disk, taskName: string, s: Side, payload: Bytes, digest: string, item: Item)
    requires RandomNames(tokens, limit) && Fresh(tokens, limit, d) && d.drawn < limit && sha(payload) == digest
    requires item.taskName != taskName && ItemDone(sha, d, item)
    ensures ItemDone(sha, Place(sha, tokens, d, Target(taskName, s), payload, digest), item)
  {
    hide Target, Place, HasFile;
    var d' := Place(sha, tokens, d, Target(taskName, s), payload, digest);
    if item.complete && item.answer.Found? {
      forall j | 0 <= j < |item.answer.archive.outputs|
        ensures HasFile(sha, d', item.taskName, item.answer.archive.outputs[j])
      {
        PlaceKeepsFile(sha, tokens, limit, d, taskName, s, payload, digest, item.taskName, item.answer.archive.outputs[j]);
      }
    }
  }

  lemma PlaceKeepsDone(sha: Hasher, tokens: Tokens, limit: nat, d: Disk, items: seq<Item>, i: nat, s: Side, payload: Bytes, digest: string)
    requires RandomNames(tokens, limit) && Fresh(tokens, limit, d) && d.drawn < limit && sha(payload) == digest
    requires DistinctTasks(items) && i < |items| && AllDone(sha, d, items, i)
    ensures AllDone(sha, Place(sha, tokens, d, Target(items[i].taskName, s), payload, digest), items, i)
  {
    hide ItemDone, Place, Target;
    forall k | 0 <= k < i
      ensures ItemDone(sha, Place(sha, tokens, d, Target(items[i].taskName, s), payload, digest), items[k])
    {
      PlaceKeepsItem(sha, tokens, limit, d, items[i].taskName, s, payload, digest, items[k]);
    }
  }

  /** What holds between outputs: the pass so far is sound, has drawn names up to `most` at the
      most, and the first `i` items are done. */
  ghost predicate Sound(sha: Hasher, tokens: Tokens, limit: nat, items: seq<Item>, before: Disk, d: Disk, i: nat, most: nat) {
    && Fresh(tokens, limit, d) && before.drawn <= d.drawn <= most
    && NothingLost(sha, tokens, items, before, d) && NothingStrange(tokens, items, before, d) && AllDone(sha, d, items, i)
    && (AllDone(sha, before, items, |items|) ==> d == before)
  }

  lemma PlaceKeepsSound(sha: Hasher, tokens: Tokens, limit: nat, items: seq<Item>, before: Disk, d: Disk, i: nat, j: nat, most: nat)
    requires RandomNames(tokens, limit) && DistinctTasks(items) && Sound(sha, tokens, limit, items, before, d, i, most) && most < limit
    requires i < |items| && items[i].complete && items[i].answer.Found? && Loads(sha, items[i].answer.archive) && j < 2
    ensures var a := items[i].answer.archive;
            var d' := Place(sha, tokens, d, Target(items[i].taskName, a.outputs[j].side), Payload(a, a.outputs[j].side), a.outputs[j].digest);
            Sound(sha, tokens, limit, items, before, d', i, most + 1) && HasFile(sha, d', items[i].taskName, a.outputs[j])
            && (j == 1 && HasFile(sha, d, items[i].taskName, a.outputs[0]) ==> HasFile(sha, d', items[i].taskName, a.outputs[0]))
  {
    var a, n := items[i].answer.archive, items[i].taskName;
    var o := a.outputs[j];
    assert sha(Payload(a, o.side)) == o.digest;
    assert IsTarget(items, Target(n, o.side));
    if AllDone(sha, before, items, |items|) {
      assert ItemDone(sha, before, items[i]) && HasFile(sha, before, n, o);
    }
    hide Target, IsTarget, NothingLost, NothingStrange, Fresh, AllDone, DistinctTasks, Place, Payload;
    PlaceStaysFresh(sha, tokens, limit, d, n, o.side, Payload(a, o.side), o.digest);
    PlaceMeans(sha, tokens, limit, d, n, o.side, Payload(a, o.side), o.digest);
    PlaceLosesNothing(sha, tokens, limit, items, before, d, n, o.side, Payload(a, o.side), o.digest);
    PlaceAddsNothingStrange(sha, tokens, limit, items, before, d, n, o.side, Payload(a, o.side), o.digest);
    PlaceKeepsDone(sha, tokens, limit, d, items, i, o.side, Payload(a, o.side), o.digest);
    if j == 1 && HasFile(sha, d, n, a.outputs[0]) {
      PlaceKeepsFile(sha, tokens, limit, d, n, o.side, Payload(a, o.side), o.digest, n, a.outputs[0]);
    }
  }

  /** The records of a passed condition. */
  function Records(taskName: string, outputs: seq<Output>): (r: seq<FileRecord>)
    ensures |r| == |outputs|
    ensures forall k :: 0 <= k < |r| ==> r[k] == FileRecord(Target(taskName, outputs[k].side), outputs[k].side, outputs[k].digest)
  {
    seq(|outputs|, k requires 0 <= k < |outputs| => FileRecord(Target(taskName, outputs[k].side), outputs[k].side, outputs[k].digest))
  }

  /** The run recorded for an item. */
  ghost predicate IsRunOf(run: Run, item: Item) {
    if item.complete then item.answer.Found? && run == Passed(item.conditionId, Records(item.taskName, item.answer.archive.outputs))
    else run == NotPassed(item.conditionId)
  }

  ghost predicate HasDigest(sha: Hasher, d: Disk, p: string, payload: Bytes) {
    p in d.files && sha(d.files[p]) == sha(payload)
  }

  /** A completed condition is done when its calibration file has the digest of the archived
      calibration payload, and its test file that of the test payload. */
  lemma ItemDoneIff(sha: Hasher, d: Disk, item: Item)
    requires item.complete && item.answer.Found? && Loads(sha, item.answer.archive)
    ensures ItemDone(sha, d, item) <==>
            (&& HasDigest(sha, d, item.taskName + "_calibration.parquet", item.answer.archive.calibration)
             && HasDigest(sha, d, item.taskName + "_test.parquet", item.answer.archive.test))
  {
    var a := item.answer.archive;
    LoadsIff(sha, a);
    hide Loads;
    assert Target(item.taskName, CalibrationSide) == item.taskName + "_calibration.parquet";
    assert Target(item.taskName, TestSide) == item.taskName + "_test.parquet";
    hide Target;
    var o, o' := a.outputs[0], a.outputs[1];
    assert ItemDone(sha, d, item) <==> HasFile(sha, d, item.taskName, o) && HasFile(sha, d, item.taskName, o');
  }

  lemma NextItem(sha: Hasher, tokens: Tokens, limit: nat, items: seq<Item>, before: Disk, d: Disk, i: nat, most: nat, more: nat)
    requires i < |items| && Sound(sha, tokens, limit, items, before, d, i, most) && ItemDone(sha, d, items[i]) && most <= more
    ensures Sound(sha, tokens, limit, items, before, d, i + 1, more)
  {
    hide ItemDone, NothingLost, NothingStrange, Fresh;
  }

  lemma BothFilesDone(sha: Hasher, d: Disk, item: Item)
    requires item.complete && item.answer.Found? && |item.answer.archive.outputs| == 2
    requires HasFile(sha, d, item.taskName, item.answer.archive.outputs[0])
    requires HasFile(sha, d, item.taskName, item.answer.archive.outputs[1])
    ensures ItemDone(sha, d, item)
  {
  }

  lemma StartSound(sha: Hasher, tokens: Tokens, limit: nat, items: seq<Item>, d: Disk)
    requires Fresh(tokens, limit, d)
    ensures Sound(sha, tokens, limit, items, d, d, 0, d.drawn)
  {
  }

  class PredictionDirectory {
    const sha: Hasher
    const tokens: Tokens
    var files: map<string, Bytes>
    var drawn: nat

    constructor (sha: Hasher, tokens: Tokens, files: map<string, Bytes>)
      ensures this.sha == sha && this.tokens == tokens && State() == Disk(files, 0)
    {
      this.sha := sha;
      this.tokens := tokens;
      this.files := files;
      drawn := 0;
    }

    function State(): Disk
      reads this
    {
      Disk(files, drawn)
    }

    /** `os.replace` and `atomic_write_bytes` for one output. */
    method PlaceOutput(target: string, payload: Bytes, digest: string)
      modifies this
      ensures State() == Place(sha, tokens, old(State()), target, payload, digest)
    {
      if target in files {
        var found := sha(files[target]);
        if found == digest {
          return;
        }
        var quarantine := QuarantineName(target, found, tokens(drawn));
        drawn := drawn + 1;
        files := (files - {target})[quarantine := files[target]];
      }
      files := files[target := payload];
    }

    /** The loop over the conditions of the plan. It draws at most two names an item, all among
        the first `limit`. */
    method Materialise(items: seq<Item>, ghost limit: nat) returns (r: Result<seq<Run>, MaterialiseError>)
      requires RandomNames(tokens, limit) && Fresh(tokens, limit, State()) && drawn + 2 * |items| <= limit
      requires DistinctTasks(items)
      modifies this
      ensures r.Ok? <==> forall k :: 0 <= k < |items| ==> Usable(sha, items[k])
      ensures r.Ok? ==> AllDone(sha, State(), items, |items|)
                        && |r.value| == |items| && forall k :: 0 <= k < |items| ==> IsRunOf(r.value[k], items[k])
      ensures r.Err? ==> exists k :: 0 <= k < |items| && !Usable(sha, items[k]) && r.error.taskName == items[k].taskName
                                     && AllDone(sha, State(), items, k) && forall j :: 0 <= j < k ==> Usable(sha, items[j])
      ensures r.Err? ==> (r.error.NoValidArtifact? <==> exists k :: 0 <= k < |items| && items[k].taskName == r.error.taskName && !items[k].answer.Found?)
      ensures NothingLost(sha, tokens, items, old(State()), State()) && NothingStrange(tokens, items, old(State()), State())
      ensures AllDone(sha, old(State()), items, |items|) ==> State() == old(State())
      ensures Fresh(tokens, limit, State()) && drawn <= old(drawn) + 2 * |items|
    {
      hide Sound, HasFile, ItemDone, Place, Target, Records, AllDone, NothingLost, NothingStrange, RandomNames;
      ghost var before := State();
      StartSound(sha, tokens, limit, items, before);
      var runs: seq<Run> := [];
      var i := 0;
      while i < |items|
        invariant 0 <= i <= |items| == |items|
        invariant Sound(sha, tokens, limit, items, before, State(), i, before.drawn + 2 * i)
        invariant |runs| == i && forall k :: 0 <= k < i ==> IsRunOf(runs[k], items[k])
        invariant forall k :: 0 <= k < i ==> Usable(sha, items[k])
      {
        var item := items[i];
        ghost var most := 0;
        if !item.complete {
          runs := runs + [NotPassed(item.conditionId)];
          NotCompleteIsDone(sha, State(), item);
          most := before.drawn + 2 * i;
        } else if !item.answer.Found? {
          SoundMeans(sha, tokens, limit, items, before, State(), i, before.drawn + 2 * i);
          return Err(NoValidArtifact(item.taskName));
        } else if !Loads(sha, item.answer.archive) {
          SoundMeans(sha, tokens, limit, items, before, State(), i, before.drawn + 2 * i);
          return Err(ArchiveRejected(item.taskName));
        } else {
          var a := item.answer.archive;
          var j := 0;
          while j < |a.outputs|
            invariant 0 <= j <= |a.outputs|
            invariant Sound(sha, tokens, limit, items, before, State(), i, before.drawn + 2 * i + j)
            invariant j >= 1 ==> HasFile(sha, State(), item.taskName, a.outputs[0])
            invariant j >= 2 ==> HasFile(sha, State(), item.taskName, a.outputs[1])
          {
            var o := a.outputs[j];
            PlaceKeepsSound(sha, tokens, limit, items, before, State(), i, j, before.drawn + 2 * i + j);
            PlaceOutput(Target(item.taskName, o.side), Payload(a, o.side), o.digest);
            j := j + 1;
          }
          BothFilesDone(sha, State(), item);
          most := before.drawn + 2 * i + 2;
          runs := runs + [Passed(item.conditionId, Records(item.taskName, a.outputs))];
        }
        NextItem(sha, tokens, limit, items, before, State(), i, most, before.drawn + 2 * i + 2);
        i := i + 1;
      }
      SoundMeans(sha, tokens, limit, items, before, State(), i, before.drawn + 2 * i);
      r := Ok(runs);
    }
  }

  lemma NotCompleteIsDone(sha: Hasher, d: Disk, item: Item)
    requires !item.complete
    ensures ItemDone(sha, d, item)
  {
  }

  lemma SoundMeans(sha: Hasher, tokens: Tokens, limit: nat, items: seq<Item>, before: Disk, d: Disk, i: nat, most: nat)
    requires Sound(sha, tokens, limit, items, before, d, i, most)
    ensures Fresh(tokens, limit, d) && d.drawn <= most && NothingLost(sha, tokens, items, before, d) && NothingStrange(tokens, items, before, d)
    ensures AllDone(sha, d, items, i) && (AllDone(sha, before, items, |items|) ==> d == before)
  {
  }
}
