/** A process of the transition system that nobody disturbs does what the sequential methods do:
    publishing, reading and quarantining end with the same answer and the same tree. */
module SoloRuns {
  import opened Wrappers
  import opened CacheContracts
  import opened CacheFiles
  import opened PublishProtocol
  import opened CacheStores

  // ----- runs of one process -----

  predicate Harmless(c: Choice) {
    !c.Fault? && !c.Abort?
  }

  function Alone(pf: Platform, w: World, i: nat, choices: seq<Choice>): World
    decreases |choices|
  {
    if choices == [] then w else Alone(pf, Next(pf, w, Advance(i, choices[0])), i, choices[1..])
  }

  /** Without failures, process `i` alone can bring the world from `w` to `e`. */
  ghost predicate Reaches(pf: Platform, w: World, i: nat, e: World) {
    exists choices: seq<Choice> :: (forall k :: 0 <= k < |choices| ==> Harmless(choices[k])) && Alone(pf, w, i, choices) == e
  }

  lemma ReachesNow(pf: Platform, w: World, i: nat)
    ensures Reaches(pf, w, i, w)
  {
    var choices: seq<Choice> := [];
    assert Alone(pf, w, i, choices) == w;
  }

  lemma ReachesFirst(pf: Platform, w: World, i: nat, c: Choice, e: World)
    requires Harmless(c) && Reaches(pf, Next(pf, w, Advance(i, c)), i, e)
    ensures Reaches(pf, w, i, e)
  {
    hide Next;
    var choices: seq<Choice> :| (forall k :: 0 <= k < |choices| ==> Harmless(choices[k]))
                                && Alone(pf, Next(pf, w, Advance(i, c)), i, choices) == e;
    assert ([c] + choices)[1..] == choices;
    assert Alone(pf, w, i, [c] + choices) == e;
  }

  // ----- a validation, whatever it is part of -----

  /** What the validation is for. */
  datatype Purpose = Existing | Transaction(t: Path) | Renamed(t: Path) | Winner(t: Path) | Reading | Suspecting

  function Scanning(u: Purpose, s: Scan): Pc {
    match u
    case Existing => ScanExisting(s)
    case Transaction(t) => ScanTransaction(t, s)
    case Renamed(t) => ScanPublished(t, s)
    case Winner(t) => ScanWinner(t, s)
    case Reading => ScanRead(s)
    case Suspecting => ScanSuspect(s)
  }

  predicate Serves(u: Purpose, job: Job) {
    match u
    case Reading => job.Read?
    case Suspecting => job.Quarantine?
    case _ => job.Publish?
  }

  function Subject(pf: Platform, me: Process, u: Purpose): Path {
    if u.Transaction? then u.t else Dest(pf, me)
  }

  /** Where the process goes with a verdict. */
  function With(job: Job, u: Purpose, v: Verdict): Pc
    requires Serves(u, job)
  {
    match (u, v)
    case (Existing, Ok(a)) =>
      Release(if a.payloadSha256 == job.hash && a.payloadSizeBytes == job.size then Published(a, true) else Failed(IntegrityError))
    case (Existing, Err(e)) => Release(Failed(e))
    case (Transaction(t), Ok(_)) => Rename(t)
    case (Transaction(t), Err(e)) => Cleanup(t, Failed(e))
    case (Renamed(t), Ok(a)) => Cleanup(t, Published(a, false))
    case (Renamed(t), Err(e)) => Cleanup(t, Failed(e))
    case (Winner(t), Ok(a)) =>
      Cleanup(t, if a.payloadSha256 == job.hash && a.payloadSizeBytes == job.size then Published(a, true) else Failed(IntegrityError))
    case (Winner(t), Err(e)) => Cleanup(t, Failed(e))
    case (Reading, Ok(a)) => Done(Loaded(a))
    case (Reading, Err(e)) => Done(Failed(e))
    case (Suspecting, Ok(_)) => Release(Failed(IntegrityError))
    case (Suspecting, Err(e)) => if e == IntegrityError then MoveAside else Release(Failed(e))
  }

  function Rank(s: Scan): nat {
    match s
    case Listing => 5
    case ReadManifest => 4
    case ReadMarker(_) => 3
    case StatPayload(_, _) => 2
    case HashPayload(_, _, _) => 1
    case HashManifest(_, _, _, _) => 0
  }

  lemma ScanStep(pf: Platform, w: World, i: nat, u: Purpose, s: Scan)
    requires i in w.procs && Serves(u, w.procs[i].job) && w.procs[i].pc == Scanning(u, s)
    ensures var me := w.procs[i];
            Next(pf, w, Advance(i, Go)) == match StepScan(pf, w.tree, Subject(pf, me, u), me.identity, !u.Transaction?, s)
                                           case More(s') => Goto(w, i, Scanning(u, s'))
                                           case Finished(v) => Goto(w, i, With(me.job, u, v))
  {
    hide StepScan, CacheKey;
  }

  lemma ScanProgress(pf: Platform, tree: Tree, p: Path, id: CacheIdentity, checkName: bool, s: Scan)
    ensures var step := StepScan(pf, tree, p, id, checkName, s); step.More? ==> Rank(step.scan) < Rank(s)
  {
  }

  /** The validation ends with the verdict of the atomic one. */
  lemma {:induction false} ScanRuns(pf: Platform, w: World, i: nat, u: Purpose, s: Scan, e: World)
    requires i in w.procs && Serves(u, w.procs[i].job) && w.procs[i].pc == Scanning(u, s)
    requires var p := Subject(pf, w.procs[i], u); p in w.tree && Agrees(pf, s, w.tree[p])
    requires var me := w.procs[i];
             var p := Subject(pf, me, u);
             Reaches(pf, Goto(w, i, With(me.job, u, ValidateDirectory(pf, p.name, w.tree[p], CacheKey(pf, me.identity), me.identity, !u.Transaction?))), i, e)
    ensures Reaches(pf, w, i, e)
    decreases Rank(s)
  {
    hide Next, StepScan, ValidateDirectory, Agrees, Reaches, CacheKey;
    var me := w.procs[i];
    var p := Subject(pf, me, u);
    ScanStep(pf, w, i, u, s);
    ScanRefinesValidation(pf, w.tree, p, me.identity, !u.Transaction?, s);
    var step := StepScan(pf, w.tree, p, me.identity, !u.Transaction?, s);
    if step.More? {
      ScanProgress(pf, w.tree, p, me.identity, !u.Transaction?, s);
      var w' := Goto(w, i, Scanning(u, step.scan));
      OverwrittenPc(w, i, Scanning(u, step.scan),
                    With(me.job, u, ValidateDirectory(pf, p.name, w.tree[p], CacheKey(pf, me.identity), me.identity, !u.Transaction?)));
      ScanRuns(pf, w', i, u, step.scan, e);
    }
    ReachesFirst(pf, w, i, Go, e);
  }

  lemma OverwrittenPc(w: World, i: nat, pc: Pc, pc': Pc)
    requires i in w.procs
    ensures Goto(Goto(w, i, pc), i, pc') == Goto(w, i, pc')
  {
    assert w.procs[i := w.procs[i].(pc := pc)][i := w.procs[i].(pc := pc')] == w.procs[i := w.procs[i].(pc := pc')];
  }

  // ----- reading -----

  function ReadOutcome(r: Result<Option<CacheArtifact>, CacheError>): Outcome {
    match r
    case Ok(None) => Absent
    case Ok(Some(a)) => Loaded(a)
    case Err(e) => Failed(e)
  }

  /** A reader that nobody disturbs returns what `read_validated` returns. */
  lemma SoloRead(pf: Platform, w: World, i: nat)
    requires i in w.procs && w.procs[i].job.Read? && w.procs[i].pc.CheckPresent?
    ensures Reaches(pf, w, i, Goto(w, i, Done(ReadOutcome(ReadValidated(pf, w.tree, w.procs[i].identity)))))
  {
    hide Reaches, StepScan, ValidateDirectory, CacheKey;
    var me := w.procs[i];
    var p := Dest(pf, me);
    var e := Goto(w, i, Done(ReadOutcome(ReadValidated(pf, w.tree, me.identity))));
    ReachesNow(pf, e, i);
    if p in w.tree {
      var w' := Goto(w, i, ScanRead(Listing));
      assert Next(pf, w, Advance(i, Go)) == w';
      OverwrittenPc(w, i, ScanRead(Listing), e.procs[i].pc);
      hide Next;
      ScanRuns(pf, w', i, Reading, Listing, e);
    } else {
      assert Next(pf, w, Advance(i, Go)) == e;
      hide Next;
    }
    ReachesFirst(pf, w, i, Go, e);
  }

  // ----- the lock -----

  lemma TakeLock(pf: Platform, w: World, i: nat, e: World)
    requires i in w.procs && w.procs[i].pc.AwaitLock? && Key(pf, w.procs[i]) !in w.locks
    requires Reaches(pf, Goto(w, i, if w.procs[i].job.Quarantine? then CheckUnderLock else CheckDestination)
                         .(locks := w.locks[Key(pf, w.procs[i]) := i]), i, e)
    ensures Reaches(pf, w, i, e)
  {
    hide Reaches, CacheKey;
    assert Next(pf, w, Advance(i, Go)) == Goto(w, i, if w.procs[i].job.Quarantine? then CheckUnderLock else CheckDestination)
                                            .(locks := w.locks[Key(pf, w.procs[i]) := i]);
    hide Next;
    ReachesFirst(pf, w, i, Go, e);
  }

  /** The world after process `i` has returned `o`, with this tree and these handed-out names. */
  function Ended(w: World, i: nat, o: Outcome, tree: Tree, names: set<Path>): World
    requires i in w.procs
  {
    Goto(w, i, Done(o)).(tree := tree, names := names)
  }

  /** The world with the lock of `i`'s key taken by `i`, if it takes one. */
  function Locked(pf: Platform, w: World, i: nat, locked: bool): World
    requires i in w.procs
  {
    if locked then w.(locks := w.locks[Key(pf, w.procs[i]) := i]) else w
  }

  lemma Leave(pf: Platform, w: World, i: nat, o: Outcome, tree: Tree, names: set<Path>, locked: bool)
    requires i in w.procs && Key(pf, w.procs[i]) !in w.locks
    ensures var w' := Goto(Locked(pf, w, i, locked), i, Release(o)).(tree := tree, names := names);
            Reaches(pf, w', i, Ended(w, i, o, tree, names))
  {
    hide Reaches, CacheKey;
    var w' := Goto(Locked(pf, w, i, locked), i, Release(o)).(tree := tree, names := names);
    var e := Ended(w, i, o, tree, names);
    assert w.locks[Key(pf, w.procs[i]) := i] - {Key(pf, w.procs[i])} == w.locks;
    OverwrittenPc(w, i, Release(o), Done(o));
    assert Next(pf, w', Advance(i, Go)) == e;
    hide Next;
    ReachesNow(pf, e, i);
    ReachesFirst(pf, w', i, Go, e);
  }

  // ----- quarantining -----

  /** What a quarantiner that nobody disturbs returns, and the tree it leaves. */
  function QuarantineOutcome(pf: Platform, tree: Tree, id: CacheIdentity, token: string): Outcome {
    var key := CacheKey(pf, id);
    match ReadValidated(pf, tree, id)
    case Ok(None) => Absent
    case Ok(Some(_)) => Failed(IntegrityError)
    case Err(e) => if e == IntegrityError then MovedAside(QuarantinePath(key, token)) else Failed(e)
  }

  function QuarantineTree(pf: Platform, tree: Tree, id: CacheIdentity, token: string): Tree {
    var p := EntryPath(CacheKey(pf, id));
    if p in tree && ReadValidated(pf, tree, id) == Err(IntegrityError) then MoveDirectory(tree, p, QuarantinePath(CacheKey(pf, id), token)) else tree
  }

  lemma MoveOut(pf: Platform, w: World, i: nat, token: string, e: World)
    requires i in w.procs && w.procs[i].job.Quarantine? && w.procs[i].pc.MoveAside? && Dest(pf, w.procs[i]) in w.tree
    requires QuarantinePath(Key(pf, w.procs[i]), token) !in w.tree
    requires var q := QuarantinePath(Key(pf, w.procs[i]), token);
             Reaches(pf, Goto(w, i, Release(MovedAside(q))).(tree := MoveDirectory(w.tree, Dest(pf, w.procs[i]), q)), i, e)
    ensures Reaches(pf, w, i, e)
  {
    hide Reaches, CacheKey, MoveDirectory;
    var q := QuarantinePath(Key(pf, w.procs[i]), token);
    assert Next(pf, w, Advance(i, Name(token))) == Goto(w, i, Release(MovedAside(q))).(tree := MoveDirectory(w.tree, Dest(pf, w.procs[i]), q));
    hide Next;
    ReachesFirst(pf, w, i, Name(token), e);
  }

  /** From the lock on. */
  lemma JudgeAndLeave(pf: Platform, w: World, i: nat, token: string)
    requires i in w.procs && w.procs[i].job.Quarantine? && Key(pf, w.procs[i]) !in w.locks && Dest(pf, w.procs[i]) in w.tree
    requires QuarantinePath(Key(pf, w.procs[i]), token) !in w.tree
    ensures var id := w.procs[i].identity;
            Reaches(pf, Goto(Locked(pf, w, i, true), i, CheckUnderLock), i,
                    Ended(w, i, QuarantineOutcome(pf, w.tree, id, token), QuarantineTree(pf, w.tree, id, token), w.names))
  {
    hide Reaches, StepScan, ValidateDirectory, CacheKey, MoveDirectory;
    var me := w.procs[i];
    var p := Dest(pf, me);
    var u := Locked(pf, w, i, true);
    var e := Ended(w, i, QuarantineOutcome(pf, w.tree, me.identity, token), QuarantineTree(pf, w.tree, me.identity, token), w.names);
    var w1 := Goto(u, i, CheckUnderLock);
    var w2 := Goto(u, i, ScanSuspect(Listing));
    OverwrittenPc(u, i, CheckUnderLock, ScanSuspect(Listing));
    assert Next(pf, w1, Advance(i, Go)) == w2;
    hide Next;
    var v := ValidateDirectory(pf, p.name, w.tree[p], CacheKey(pf, me.identity), me.identity, true);
    OverwrittenPc(u, i, ScanSuspect(Listing), With(me.job, Suspecting, v));
    if v == Err(IntegrityError) {
      var q := QuarantinePath(Key(pf, me), token);
      OverwrittenPc(u, i, MoveAside, Release(MovedAside(q)));
      Leave(pf, w, i, MovedAside(q), MoveDirectory(w.tree, p, q), w.names, true);
      MoveOut(pf, Goto(u, i, MoveAside), i, token, e);
    } else {
      Leave(pf, w, i, Failed(if v.Ok? then IntegrityError else v.error), w.tree, w.names, true);
    }
    ScanRuns(pf, w2, i, Suspecting, Listing, e);
    ReachesFirst(pf, w1, i, Go, e);
  }

  /** A quarantiner that nobody disturbs moves the entry exactly if it is present and broken, and
      otherwise says why not. */
  lemma SoloQuarantine(pf: Platform, w: World, i: nat, token: string)
    requires i in w.procs && w.procs[i].job.Quarantine? && w.procs[i].pc.PeekPresent? && Key(pf, w.procs[i]) !in w.locks
    requires QuarantinePath(Key(pf, w.procs[i]), token) !in w.tree
    ensures var id := w.procs[i].identity;
            Reaches(pf, w, i, Ended(w, i, QuarantineOutcome(pf, w.tree, id, token), QuarantineTree(pf, w.tree, id, token), w.names))
  {
    hide Reaches, ValidateDirectory, CacheKey, MoveDirectory;
    var me := w.procs[i];
    var e := Ended(w, i, QuarantineOutcome(pf, w.tree, me.identity, token), QuarantineTree(pf, w.tree, me.identity, token), w.names);
    if Dest(pf, me) in w.tree {
      var w1 := Goto(w, i, AwaitLock);
      assert Next(pf, w, Advance(i, Go)) == w1;
      hide Next;
      JudgeAndLeave(pf, w, i, token);
      OverwrittenPc(w, i, AwaitLock, CheckUnderLock);
      assert Goto(w1, i, CheckUnderLock).(locks := w1.locks[Key(pf, me) := i]) == Goto(Locked(pf, w, i, true), i, CheckUnderLock);
      hide QuarantineOutcome, QuarantineTree;
      TakeLock(pf, w1, i, e);
    } else {
      assert Next(pf, w, Advance(i, Go)) == e;
      hide Next;
      ReachesNow(pf, e, i);
    }
    ReachesFirst(pf, w, i, Go, e);
  }

  // ----- publishing -----

  function PublishOutcome(r: Result<PublishResult, CacheError>): Outcome {
    match r
    case Ok(p) => Published(p.artifact, p.reusedExisting)
    case Err(e) => Failed(e)
  }

  /** The tree a publisher leaves: with the sealed entry, if it created one. */
  function PublishTree(pf: Platform, tree: Tree, id: CacheIdentity, task: string, delivered: Bytes, r: Result<PublishResult, CacheError>,
                       created: string): Tree
  {
    if r.Ok? && !r.value.reusedExisting then tree[EntryPath(CacheKey(pf, id)) := SealedDirectory(pf, id, delivered, task, created)] else tree
  }

  /** The world of a publisher at work on its transaction. */
  function Working(pf: Platform, w: World, i: nat, t: Path, d: Directory, pc: Pc): World
    requires i in w.procs && w.procs[i].job.Publish?
  {
    Goto(Locked(pf, w, i, w.procs[i].job.locked), i, pc).(tree := w.tree[t := d], names := w.names + {t})
  }

  lemma LockedKeeps(pf: Platform, w: World, i: nat, locked: bool)
    requires i in w.procs
    ensures Locked(pf, w, i, locked).procs == w.procs && Locked(pf, w, i, locked).tree == w.tree && Locked(pf, w, i, locked).names == w.names
  {
  }

  predicate CanPublish(pf: Platform, w: World, i: nat, suffix: string) {
    && i in w.procs && w.procs[i].job.Publish? && Key(pf, w.procs[i]) !in w.locks
    && TransactionPath(Key(pf, w.procs[i]), suffix) !in w.tree && TransactionPath(Key(pf, w.procs[i]), suffix) !in w.names
  }

  lemma WorkingFields(pf: Platform, w: World, i: nat, t: Path, d: Directory, pc: Pc)
    requires i in w.procs && w.procs[i].job.Publish?
    ensures var x := Working(pf, w, i, t, d, pc);
            && x.procs == w.procs[i := w.procs[i].(pc := pc)] && x.tree == w.tree[t := d] && x.names == w.names + {t}
            && x.locks == Locked(pf, w, i, w.procs[i].job.locked).locks
  {
    hide CacheKey, Locked;
    LockedKeeps(pf, w, i, w.procs[i].job.locked);
  }

  lemma WorkOn(pf: Platform, w: World, i: nat, t: Path, d: Directory, pc: Pc, d': Directory, pc': Pc)
    requires i in w.procs && w.procs[i].job.Publish?
    ensures Goto(Working(pf, w, i, t, d, pc), i, pc').(tree := Working(pf, w, i, t, d, pc).tree[t := d']) == Working(pf, w, i, t, d', pc')
    ensures Goto(Working(pf, w, i, t, d, pc), i, pc') == Working(pf, w, i, t, d, pc')
    ensures var x := Working(pf, w, i, t, d, pc);
            i in x.procs && x.procs[i] == w.procs[i].(pc := pc) && t in x.tree && x.tree[t] == d
  {
    WorkingFields(pf, w, i, t, d, pc);
    WorkingFields(pf, w, i, t, d, pc');
    WorkingFields(pf, w, i, t, d', pc');
    hide CacheKey, Locked, Working;
    var me := w.procs[i];
    assert w.procs[i := me.(pc := pc)][i := me.(pc := pc')] == w.procs[i := me.(pc := pc')];
    assert w.tree[t := d][t := d'] == w.tree[t := d'];
  }

  /** The transaction directory is made and the payload copied. */
  lemma Copies(pf: Platform, w: World, i: nat, suffix: string, delivered: Bytes, e: World)
    requires CanPublish(pf, w, i, suffix) && IsSha256(w.procs[i].job.task) && Dest(pf, w.procs[i]) !in w.tree
    requires var t := TransactionPath(Key(pf, w.procs[i]), suffix);
             Reaches(pf, Working(pf, w, i, t, map[PayloadBin := File(delivered)], MeasurePayload(t)), i, e)
    ensures Reaches(pf, Goto(Locked(pf, w, i, w.procs[i].job.locked), i, CheckDestination), i, e)
  {
    hide Reaches, CacheKey, IsSha256;
    var t := TransactionPath(Key(pf, w.procs[i]), suffix);
    var u := Locked(pf, w, i, w.procs[i].job.locked);
    var w0 := Goto(u, i, CheckDestination);
    var w1 := Goto(u, i, MakeTransaction);
    OverwrittenPc(u, i, CheckDestination, MakeTransaction);
    assert Next(pf, w0, Advance(i, Go)) == w1;
    var w2 := Working(pf, w, i, t, map[], CreatePayload(t));
    OverwrittenPc(u, i, MakeTransaction, CreatePayload(t));
    assert Next(pf, w1, Advance(i, Name(suffix))) == w2;
    CopiesOn(pf, w, i, t, delivered, e);
    hide Next;
    ReachesFirst(pf, w1, i, Name(suffix), e);
    ReachesFirst(pf, w0, i, Go, e);
  }

  lemma CopiesOn(pf: Platform, w: World, i: nat, t: Path, delivered: Bytes, e: World)
    requires i in w.procs && w.procs[i].job.Publish?
    requires Reaches(pf, Working(pf, w, i, t, map[PayloadBin := File(delivered)], MeasurePayload(t)), i, e)
    ensures Reaches(pf, Working(pf, w, i, t, map[], CreatePayload(t)), i, e)
  {
    hide Reaches, CacheKey, Working;
    var empty: Directory := map[PayloadBin := File([])];
    var full: Directory := map[PayloadBin := File(delivered)];
    var w2 := Working(pf, w, i, t, map[], CreatePayload(t));
    var w3 := Working(pf, w, i, t, empty, WritePayload(t));
    var w4 := Working(pf, w, i, t, full, WritePayload(t));
    var w5 := Working(pf, w, i, t, full, MeasurePayload(t));
    WorkOn(pf, w, i, t, map[], CreatePayload(t), empty, WritePayload(t));
    WorkOn(pf, w, i, t, empty, WritePayload(t), full, WritePayload(t));
    WorkOn(pf, w, i, t, full, WritePayload(t), full, MeasurePayload(t));
    assert w2.tree[t][PayloadBin := File([])] == empty;
    assert Next(pf, w2, Advance(i, Go)) == w3;
    assert [] + delivered == delivered && empty[PayloadBin := File(delivered)] == full;
    assert w3.procs[i := w3.procs[i].(pc := WritePayload(t))] == w3.procs;
    assert Next(pf, w3, Advance(i, Chunk(delivered))) == w4;
    assert Next(pf, w4, Advance(i, Go)) == w5;
    hide Next;
    ReachesFirst(pf, w4, i, Go, e);
    ReachesFirst(pf, w3, i, Chunk(delivered), e);
    ReachesFirst(pf, w2, i, Go, e);
  }

  lemma CleansUp(pf: Platform, w: World, i: nat, t: Path, d: Directory, o: Outcome)
    requires i in w.procs && w.procs[i].job.Publish? && Key(pf, w.procs[i]) !in w.locks && t !in w.tree
    ensures Reaches(pf, Working(pf, w, i, t, d, Cleanup(t, o)), i, Ended(w, i, o, w.tree, w.names + {t}))
  {
    hide Reaches, CacheKey, Unlock;
    var u := Locked(pf, w, i, w.procs[i].job.locked);
    var w1 := Working(pf, w, i, t, d, Cleanup(t, o));
    var w2 := Goto(u, i, Release(o)).(tree := w.tree, names := w.names + {t});
    OverwrittenPc(u, i, Cleanup(t, o), Release(o));
    assert w.tree[t := d] - {t} == w.tree;
    assert Next(pf, w1, Advance(i, Go)) == w2;
    hide Next;
    Leave(pf, w, i, o, w.tree, w.names + {t}, w.procs[i].job.locked);
    ReachesFirst(pf, w1, i, Go, Ended(w, i, o, w.tree, w.names + {t}));
  }

  /** The world of a publisher past its rename. */
  function Past(pf: Platform, w: World, i: nat, tree: Tree, names: set<Path>, pc: Pc): World
    requires i in w.procs && w.procs[i].job.Publish?
  {
    Goto(Locked(pf, w, i, w.procs[i].job.locked), i, pc).(tree := tree, names := names)
  }

  lemma PastFields(pf: Platform, w: World, i: nat, tree: Tree, names: set<Path>, pc: Pc)
    requires i in w.procs && w.procs[i].job.Publish?
    ensures var x := Past(pf, w, i, tree, names, pc);
            && x.procs == w.procs[i := w.procs[i].(pc := pc)] && x.tree == tree && x.names == names
            && x.locks == Locked(pf, w, i, w.procs[i].job.locked).locks
  {
    hide CacheKey, Locked;
    LockedKeeps(pf, w, i, w.procs[i].job.locked);
  }

  lemma PastOn(pf: Platform, w: World, i: nat, tree: Tree, names: set<Path>, pc: Pc, pc': Pc)
    requires i in w.procs && w.procs[i].job.Publish?
    ensures i in Past(pf, w, i, tree, names, pc).procs && Goto(Past(pf, w, i, tree, names, pc), i, pc') == Past(pf, w, i, tree, names, pc')
  {
    PastFields(pf, w, i, tree, names, pc);
    PastFields(pf, w, i, tree, names, pc');
    hide CacheKey, Locked, Past;
    assert w.procs[i := w.procs[i].(pc := pc)][i := w.procs[i].(pc := pc')] == w.procs[i := w.procs[i].(pc := pc')];
  }

  lemma RenameStep(pf: Platform, w: World, i: nat, t: Path, d: Directory)
    requires i in w.procs && w.procs[i].job.Publish? && t !in w.tree && Dest(pf, w.procs[i]) !in w.tree && t != Dest(pf, w.procs[i])
    ensures Next(pf, Working(pf, w, i, t, d, Rename(t)), Advance(i, Go))
         == Past(pf, w, i, w.tree[Dest(pf, w.procs[i]) := d], w.names + {t}, ScanPublished(t, Listing))
  {
    var dest := Dest(pf, w.procs[i]);
    WorkingFields(pf, w, i, t, d, Rename(t));
    PastFields(pf, w, i, w.tree[dest := d], w.names + {t}, ScanPublished(t, Listing));
    hide CacheKey, Locked, Working, Past, StepScan;
    var w1 := Working(pf, w, i, t, d, Rename(t));
    assert MoveDirectory(w1.tree, t, dest) == w.tree[dest := d];
    assert w1.procs[i := w1.procs[i].(pc := ScanPublished(t, Listing))] == w.procs[i := w.procs[i].(pc := ScanPublished(t, Listing))];
  }

  lemma CleanupStep(pf: Platform, w: World, i: nat, t: Path, tree: Tree, names: set<Path>, o: Outcome)
    requires i in w.procs && w.procs[i].job.Publish? && t !in tree
    ensures Next(pf, Past(pf, w, i, tree, names, Cleanup(t, o)), Advance(i, Go)) == Past(pf, w, i, tree, names, Release(o))
  {
    PastFields(pf, w, i, tree, names, Cleanup(t, o));
    PastOn(pf, w, i, tree, names, Cleanup(t, o), Release(o));
    hide CacheKey, Locked, Past, StepScan;
  }

  lemma PastLeaves(pf: Platform, w: World, i: nat, tree: Tree, names: set<Path>, o: Outcome)
    requires i in w.procs && w.procs[i].job.Publish? && Key(pf, w.procs[i]) !in w.locks
    ensures Reaches(pf, Past(pf, w, i, tree, names, Release(o)), i, Ended(w, i, o, tree, names))
  {
    hide CacheKey, Locked, Reaches, Ended;
    Leave(pf, w, i, o, tree, names, w.procs[i].job.locked);
  }

  lemma PastCleansUp(pf: Platform, w: World, i: nat, t: Path, tree: Tree, names: set<Path>, o: Outcome)
    requires i in w.procs && w.procs[i].job.Publish? && Key(pf, w.procs[i]) !in w.locks && t !in tree
    ensures Reaches(pf, Past(pf, w, i, tree, names, Cleanup(t, o)), i, Ended(w, i, o, tree, names))
  {
    hide Reaches, Next, Past, Ended;
    PastLeaves(pf, w, i, tree, names, o);
    CleanupStep(pf, w, i, t, tree, names, o);
    ReachesFirst(pf, Past(pf, w, i, tree, names, Cleanup(t, o)), i, Go, Ended(w, i, o, tree, names));
  }

  lemma PastScans(pf: Platform, w: World, i: nat, t: Path, tree: Tree, names: set<Path>, a: CacheArtifact, e: World)
    requires i in w.procs && w.procs[i].job.Publish? && Dest(pf, w.procs[i]) in tree
    requires var me := w.procs[i];
             ValidateDirectory(pf, Dest(pf, me).name, tree[Dest(pf, me)], Key(pf, me), me.identity, true) == Ok(a)
    requires Reaches(pf, Past(pf, w, i, tree, names, Cleanup(t, Published(a, false))), i, e)
    ensures Reaches(pf, Past(pf, w, i, tree, names, ScanPublished(t, Listing)), i, e)
  {
    hide Reaches, Past, Goto, Locked, ValidateDirectory, CacheKey, EntryPath;
    PastFields(pf, w, i, tree, names, ScanPublished(t, Listing));
    PastOn(pf, w, i, tree, names, ScanPublished(t, Listing), Cleanup(t, Published(a, false)));
    ScanRuns(pf, Past(pf, w, i, tree, names, ScanPublished(t, Listing)), i, Renamed(t), Listing, e);
  }

  /** After the rename: the self-validation and the way out. */
  lemma Confirms(pf: Platform, w: World, i: nat, t: Path, delivered: Bytes, created: string)
    requires Faithful(pf) && i in w.procs && w.procs[i].job.Publish? && ValidIdentity(w.procs[i].identity) && IsSha256(w.procs[i].job.task)
    requires Key(pf, w.procs[i]) !in w.locks && t !in w.tree && Dest(pf, w.procs[i]) !in w.tree && t != Dest(pf, w.procs[i])
    ensures var me := w.procs[i];
            var tree := w.tree[Dest(pf, me) := SealedDirectory(pf, me.identity, delivered, me.job.task, created)];
            Reaches(pf, Past(pf, w, i, tree, w.names + {t}, ScanPublished(t, Listing)), i,
                    Ended(w, i, Published(ArtifactOf(pf, me.identity, delivered, me.job.task, created), false), tree, w.names + {t}))
  {
    var me := w.procs[i];
    var tree := w.tree[Dest(pf, me) := SealedDirectory(pf, me.identity, delivered, me.job.task, created)];
    var a := ArtifactOf(pf, me.identity, delivered, me.job.task, created);
    SealedDirectoryValidates(pf, me.identity, delivered, me.job.task, created, Key(pf, me), true);
    hide SealedDirectory, ArtifactOf, Faithful, ValidIdentity, IsSha256, ValidateDirectory, CacheKey, Reaches, Past, Ended;
    PastCleansUp(pf, w, i, t, tree, w.names + {t}, Published(a, false));
    PastScans(pf, w, i, t, tree, w.names + {t}, a, Ended(w, i, Published(a, false), tree, w.names + {t}));
  }

  lemma Renames(pf: Platform, w: World, i: nat, t: Path, delivered: Bytes, created: string)
    requires Faithful(pf) && i in w.procs && w.procs[i].job.Publish? && ValidIdentity(w.procs[i].identity) && IsSha256(w.procs[i].job.task)
    requires Key(pf, w.procs[i]) !in w.locks && t !in w.tree && Dest(pf, w.procs[i]) !in w.tree && t != Dest(pf, w.procs[i])
    ensures var me := w.procs[i];
            var d := SealedDirectory(pf, me.identity, delivered, me.job.task, created);
            Reaches(pf, Working(pf, w, i, t, d, Rename(t)), i,
                    Ended(w, i, Published(ArtifactOf(pf, me.identity, delivered, me.job.task, created), false),
                          w.tree[Dest(pf, me) := d], w.names + {t}))
  {
    var me := w.procs[i];
    var d := SealedDirectory(pf, me.identity, delivered, me.job.task, created);
    var a := ArtifactOf(pf, me.identity, delivered, me.job.task, created);
    Confirms(pf, w, i, t, delivered, created);
    hide SealedDirectory, ArtifactOf, Faithful, ValidIdentity, IsSha256, Reaches, Next, Past, Working, Ended, Dest, Key;
    RenameStep(pf, w, i, t, d);
    ReachesFirst(pf, Working(pf, w, i, t, d, Rename(t)), i, Go, Ended(w, i, Published(a, false), w.tree[Dest(pf, me) := d], w.names + {t}));
  }

  /** Manifest, marker and self-validation of a payload that is what was announced. */
  lemma Seals(pf: Platform, w: World, i: nat, t: Path, delivered: Bytes, created: string, e: World)
    requires Faithful(pf) && i in w.procs && w.procs[i].job.Publish? && ValidIdentity(w.procs[i].identity) && IsSha256(w.procs[i].job.task)
    requires w.procs[i].job.hash == pf.sha256(delivered) && w.procs[i].job.size == |delivered|
    requires var me := w.procs[i];
             Reaches(pf, Working(pf, w, i, t, SealedDirectory(pf, me.identity, delivered, me.job.task, created), Rename(t)), i, e)
    ensures Reaches(pf, Working(pf, w, i, t, map[PayloadBin := File(delivered)], MeasurePayload(t)), i, e)
  {
    var me := w.procs[i];
    SealedDirectoryValidates(pf, me.identity, delivered, me.job.task, created, t.name, false);
    hide Reaches, CacheKey, Working, Faithful, ValidIdentity, IsSha256, ValidateDirectory, StepScan, MakeManifest, MakeMarker, Next;
    var d1: Directory := map[PayloadBin := File(delivered)];
    var d3 := SealedDirectory(pf, me.identity, delivered, me.job.task, created);
    var d2 := map[PayloadBin := File(delivered), ManifestJson := d3[ManifestJson]];
    var w4 := Working(pf, w, i, t, d3, ScanTransaction(t, Listing));
    WorkOn(pf, w, i, t, d3, ScanTransaction(t, Listing), d3, Rename(t));
    Measures(pf, w, i, t, delivered);
    SealsManifest(pf, w, i, t, delivered, created);
    SealsMarker(pf, w, i, t, delivered, created);
    hide SealedDirectory;
    ScanRuns(pf, w4, i, Transaction(t), Listing, e);
    ReachesFirst(pf, Working(pf, w, i, t, d2, WriteMarker(t, created)), i, Go, e);
    ReachesFirst(pf, Working(pf, w, i, t, d1, WriteManifest(t)), i, Clock(created), e);
    ReachesFirst(pf, Working(pf, w, i, t, d1, MeasurePayload(t)), i, Go, e);
  }

  lemma Measures(pf: Platform, w: World, i: nat, t: Path, delivered: Bytes)
    requires i in w.procs && w.procs[i].job.Publish?
    requires |delivered| == w.procs[i].job.size && pf.sha256(delivered) == w.procs[i].job.hash
    ensures var d := map[PayloadBin := File(delivered)];
            Next(pf, Working(pf, w, i, t, d, MeasurePayload(t)), Advance(i, Go)) == Working(pf, w, i, t, d, WriteManifest(t))
  {
    hide CacheKey, Working, StepScan;
    var d: Directory := map[PayloadBin := File(delivered)];
    WorkOn(pf, w, i, t, d, MeasurePayload(t), d, WriteManifest(t));
  }

  lemma SealsManifest(pf: Platform, w: World, i: nat, t: Path, delivered: Bytes, created: string)
    requires i in w.procs && w.procs[i].job.Publish?
    requires w.procs[i].job.hash == pf.sha256(delivered) && w.procs[i].job.size == |delivered|
    ensures var me := w.procs[i];
            var sealed := SealedDirectory(pf, me.identity, delivered, me.job.task, created);
            (Next(pf, Working(pf, w, i, t, map[PayloadBin := File(delivered)], WriteManifest(t)), Advance(i, Clock(created)))
             == Working(pf, w, i, t, map[PayloadBin := File(delivered), ManifestJson := sealed[ManifestJson]], WriteMarker(t, created)))
  {
    hide CacheKey, Working, MakeManifest, MakeMarker, StepScan;
    var me := w.procs[i];
    var d1: Directory := map[PayloadBin := File(delivered)];
    var d2 := map[PayloadBin := File(delivered), ManifestJson := SealedDirectory(pf, me.identity, delivered, me.job.task, created)[ManifestJson]];
    assert d1[ManifestJson := d2[ManifestJson]] == d2;
    WorkOn(pf, w, i, t, d1, WriteManifest(t), d2, WriteMarker(t, created));
  }

  lemma SealsMarker(pf: Platform, w: World, i: nat, t: Path, delivered: Bytes, created: string)
    requires i in w.procs && w.procs[i].job.Publish?
    requires w.procs[i].job.hash == pf.sha256(delivered) && w.procs[i].job.size == |delivered|
    ensures var me := w.procs[i];
            var sealed := SealedDirectory(pf, me.identity, delivered, me.job.task, created);
            (Next(pf, Working(pf, w, i, t, map[PayloadBin := File(delivered), ManifestJson := sealed[ManifestJson]], WriteMarker(t, created)), Advance(i, Go))
             == Working(pf, w, i, t, sealed, ScanTransaction(t, Listing)))
  {
    hide CacheKey, Working, MakeManifest, MakeMarker, StepScan;
    var me := w.procs[i];
    var d3 := SealedDirectory(pf, me.identity, delivered, me.job.task, created);
    var d2 := map[PayloadBin := File(delivered), ManifestJson := d3[ManifestJson]];
    assert d2[CompleteJson := d3[CompleteJson]] == d3;
    WorkOn(pf, w, i, t, d2, WriteMarker(t, created), d3, ScanTransaction(t, Listing));
  }

  lemma WinnerSteps(pf: Platform, w: World, i: nat, t: Path, d: Directory)
    requires i in w.procs && w.procs[i].job.Publish? && Dest(pf, w.procs[i]) in w.tree
    ensures Next(pf, Next(pf, Working(pf, w, i, t, d, Rename(t)), Advance(i, Go)), Advance(i, Go))
         == Working(pf, w, i, t, d, ScanWinner(t, Listing))
    ensures Next(pf, Working(pf, w, i, t, d, Rename(t)), Advance(i, Go)) == Working(pf, w, i, t, d, CheckWinner(t))
  {
    WorkingFields(pf, w, i, t, d, Rename(t));
    WorkingFields(pf, w, i, t, d, CheckWinner(t));
    WorkOn(pf, w, i, t, d, Rename(t), d, CheckWinner(t));
    WorkOn(pf, w, i, t, d, CheckWinner(t), d, ScanWinner(t, Listing));
    hide CacheKey, Locked, Working, StepScan, MoveDirectory;
    assert Dest(pf, w.procs[i]) in Working(pf, w, i, t, d, CheckWinner(t)).tree;
  }

  /** A publisher that finds, at its rename, that another entry has got the name: it succeeds, as
      reusing, exactly if that entry reads as the bytes it was to publish; and it cleans up. */
  lemma SoloLostRace(pf: Platform, w: World, i: nat, t: Path, d: Directory)
    requires i in w.procs && w.procs[i].job.Publish? && Key(pf, w.procs[i]) !in w.locks
    requires t !in w.tree && Dest(pf, w.procs[i]) in w.tree && t != Dest(pf, w.procs[i])
    ensures var me := w.procs[i];
            var o := match ReadValidated(pf, w.tree, me.identity)
                     case Ok(Some(a)) =>
                       (if a.payloadSha256 == me.job.hash && a.payloadSizeBytes == me.job.size then Published(a, true) else Failed(IntegrityError))
                     case Ok(None) => Absent
                     case Err(e) => Failed(e);
            Reaches(pf, Working(pf, w, i, t, d, Rename(t)), i, Ended(w, i, o, w.tree, w.names + {t}))
  {
    hide Reaches, ValidateDirectory, StepScan, CacheKey, Locked, Goto, Ended, Working, Next;
    var me := w.procs[i];
    var p := Dest(pf, me);
    var v := ValidateDirectory(pf, p.name, w.tree[p], CacheKey(pf, me.identity), me.identity, true);
    var o := With(me.job, Winner(t), v).outcome;
    var e := Ended(w, i, o, w.tree, w.names + {t});
    CleansUp(pf, w, i, t, d, o);
    WinnerSteps(pf, w, i, t, d);
    WorkingFields(pf, w, i, t, d, ScanWinner(t, Listing));
    WorkOn(pf, w, i, t, d, ScanWinner(t, Listing), d, Cleanup(t, o));
    ScanRuns(pf, Working(pf, w, i, t, d, ScanWinner(t, Listing)), i, Winner(t), Listing, e);
    ReachesFirst(pf, Working(pf, w, i, t, d, CheckWinner(t)), i, Go, e);
    ReachesFirst(pf, Working(pf, w, i, t, d, Rename(t)), i, Go, e);
  }

  /** From the look at the destination on, when the name is free. */
  lemma PublishesNew(pf: Platform, w: World, i: nat, suffix: string, delivered: Bytes, created: string)
    requires Faithful(pf) && CanPublish(pf, w, i, suffix) && ValidIdentity(w.procs[i].identity) && IsSha256(w.procs[i].job.task)
    requires Dest(pf, w.procs[i]) !in w.tree
    ensures var me := w.procs[i];
            var r := PublishVerdict(pf, w.tree, me.identity, me.job.task, delivered, me.job.hash, me.job.size, created);
            Reaches(pf, Goto(Locked(pf, w, i, me.job.locked), i, CheckDestination), i,
                    Ended(w, i, PublishOutcome(r), PublishTree(pf, w.tree, me.identity, me.job.task, delivered, r, created),
                          w.names + {TransactionPath(Key(pf, me), suffix)}))
  {
    var me := w.procs[i];
    var t := TransactionPath(Key(pf, me), suffix);
    NamesApart(pf, me.identity, suffix);
    hide Reaches, CacheKey, Faithful, ValidIdentity, IsSha256, SealedDirectory, ArtifactOf, TransactionPath, EntryPath;
    var r := PublishVerdict(pf, w.tree, me.identity, me.job.task, delivered, me.job.hash, me.job.size, created);
    var e := Ended(w, i, PublishOutcome(r), PublishTree(pf, w.tree, me.identity, me.job.task, delivered, r, created), w.names + {t});
    if |delivered| == me.job.size && pf.sha256(delivered) == me.job.hash {
      Renames(pf, w, i, t, delivered, created);
      hide Working, Ended;
      Seals(pf, w, i, t, delivered, created, e);
    } else {
      CleansUp(pf, w, i, t, map[PayloadBin := File(delivered)], Failed(IntegrityError));
      Mismatch(pf, w, i, t, delivered);
      hide Working, Ended;
      ReachesFirst(pf, Working(pf, w, i, t, map[PayloadBin := File(delivered)], MeasurePayload(t)), i, Go, e);
    }
    Copies(pf, w, i, suffix, delivered, e);
  }

  lemma Mismatch(pf: Platform, w: World, i: nat, t: Path, delivered: Bytes)
    requires i in w.procs && w.procs[i].job.Publish?
    requires |delivered| != w.procs[i].job.size || pf.sha256(delivered) != w.procs[i].job.hash
    ensures var d := map[PayloadBin := File(delivered)];
            Next(pf, Working(pf, w, i, t, d, MeasurePayload(t)), Advance(i, Go)) == Working(pf, w, i, t, d, Cleanup(t, Failed(IntegrityError)))
  {
    hide CacheKey, Working, StepScan;
    var d: Directory := map[PayloadBin := File(delivered)];
    WorkOn(pf, w, i, t, d, MeasurePayload(t), d, Cleanup(t, Failed(IntegrityError)));
  }

  /** From the look at the destination on, when there is an entry, or the task identity is bad. */
  lemma PublishesOld(pf: Platform, w: World, i: nat, delivered: Bytes, created: string)
    requires i in w.procs && w.procs[i].job.Publish? && Key(pf, w.procs[i]) !in w.locks
    requires Dest(pf, w.procs[i]) in w.tree || !IsSha256(w.procs[i].job.task)
    ensures var me := w.procs[i];
            var r := PublishVerdict(pf, w.tree, me.identity, me.job.task, delivered, me.job.hash, me.job.size, created);
            Reaches(pf, Goto(Locked(pf, w, i, me.job.locked), i, CheckDestination), i, Ended(w, i, PublishOutcome(r), w.tree, w.names))
  {
    hide Reaches, CacheKey, IsSha256, ValidateDirectory, StepScan, Unlock;
    var me := w.procs[i];
    var dest := Dest(pf, me);
    var r := PublishVerdict(pf, w.tree, me.identity, me.job.task, delivered, me.job.hash, me.job.size, created);
    var u := Locked(pf, w, i, me.job.locked);
    var w1 := Goto(u, i, CheckDestination);
    var e := Ended(w, i, PublishOutcome(r), w.tree, w.names);
    Leave(pf, w, i, PublishOutcome(r), w.tree, w.names, me.job.locked);
    var out := Goto(u, i, Release(PublishOutcome(r)));
    assert out == Goto(u, i, Release(PublishOutcome(r))).(tree := w.tree, names := w.names);
    if IsSha256(me.job.task) {
      var w2 := Goto(u, i, ScanExisting(Listing));
      OverwrittenPc(u, i, CheckDestination, ScanExisting(Listing));
      assert Next(pf, w1, Advance(i, Go)) == w2;
      hide Next;
      var v := ValidateDirectory(pf, dest.name, w.tree[dest], CacheKey(pf, me.identity), me.identity, true);
      OverwrittenPc(u, i, ScanExisting(Listing), With(me.job, Existing, v));
      assert With(me.job, Existing, v) == Release(PublishOutcome(r));
      ScanRuns(pf, w2, i, Existing, Listing, e);
    } else {
      OverwrittenPc(u, i, CheckDestination, Release(PublishOutcome(r)));
      assert Next(pf, w1, Advance(i, Go)) == out;
      hide Next;
    }
    ReachesFirst(pf, w1, i, Go, e);
  }

  /** A publisher that nobody disturbs, with or without the lock, returns what `_publish_stream`
      returns, whatever bytes the writer delivers, and leaves the tree it leaves. */
  lemma SoloPublish(pf: Platform, w: World, i: nat, suffix: string, delivered: Bytes, created: string) returns (names: set<Path>)
    requires Faithful(pf) && CanPublish(pf, w, i, suffix) && ValidIdentity(w.procs[i].identity) && w.procs[i].pc == StartPc(w.procs[i].job)
    ensures var me := w.procs[i];
            var r := PublishVerdict(pf, w.tree, me.identity, me.job.task, delivered, me.job.hash, me.job.size, created);
            Reaches(pf, w, i, Ended(w, i, PublishOutcome(r), PublishTree(pf, w.tree, me.identity, me.job.task, delivered, r, created), names))
  {
    hide Reaches, CacheKey, Faithful, ValidIdentity, IsSha256, SealedDirectory, ValidateDirectory, TransactionPath;
    var me := w.procs[i];
    var r := PublishVerdict(pf, w.tree, me.identity, me.job.task, delivered, me.job.hash, me.job.size, created);
    if Dest(pf, me) in w.tree || !IsSha256(me.job.task) {
      names := w.names;
      PublishesOld(pf, w, i, delivered, created);
    } else {
      names := w.names + {TransactionPath(Key(pf, me), suffix)};
      PublishesNew(pf, w, i, suffix, delivered, created);
    }
    var e := Ended(w, i, PublishOutcome(r), PublishTree(pf, w.tree, me.identity, me.job.task, delivered, r, created), names);
    if me.job.locked {
      assert Goto(w, i, CheckDestination).(locks := w.locks[Key(pf, me) := i]) == Goto(Locked(pf, w, i, true), i, CheckDestination);
      hide Ended, PublishVerdict, PublishTree, Locked;
      TakeLock(pf, w, i, e);
    } else {
      SamePc(w, i);
    }
  }

  lemma SamePc(w: World, i: nat)
    requires i in w.procs
    ensures Goto(w, i, w.procs[i].pc) == w
  {
    assert w.procs[i := w.procs[i].(pc := w.procs[i].pc)] == w.procs;
  }
}
