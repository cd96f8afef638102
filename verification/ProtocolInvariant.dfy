/** What every step of the publish protocol keeps, whatever the environment does: mutual
    exclusion per key, private transaction directories, finished transactions before the
    rename, and quarantiners whose entry stays in place until they are done with it. */
module ProtocolInvariant {
  import opened Wrappers
  import opened CacheContracts
  import opened CacheFiles
  import opened PublishProtocol

  /** Every program point belongs to the code of the job. */
  predicate PcFits(me: Process) {
    match me.pc
    case AwaitLock => me.job.Quarantine? || (me.job.Publish? && me.job.locked)
    case Release(_) => me.job.Quarantine? || me.job.Publish?
    case Done(_) => true
    case Crashed => true
    case CheckPresent => me.job.Read?
    case ScanRead(_) => me.job.Read?
    case PeekPresent => me.job.Quarantine?
    case CheckUnderLock => me.job.Quarantine?
    case ScanSuspect(_) => me.job.Quarantine?
    case MoveAside => me.job.Quarantine?
    case _ => me.job.Publish?
  }

  /** A transaction that may be renamed: it validates and holds the expected payload. */
  predicate Sealed(pf: Platform, me: Process, d: Directory)
    requires me.job.Publish?
  {
    var v := ValidateDirectory(pf, "", d, Key(pf, me), me.identity, false);
    v.Ok? && Matches(me.job, v.value)
  }

  predicate HoldsPayload(pf: Platform, me: Process, d: Directory)
    requires me.job.Publish?
  {
    HasFile(d, PayloadBin) && pf.sha256(d[PayloadBin].contents) == me.job.hash && |d[PayloadBin].contents| == me.job.size
  }

  function ManifestFile(pf: Platform, me: Process, createdAt: string): Node
    requires me.job.Publish?
  {
    File(pf.renderManifest(MakeManifest(pf, me.identity, me.job.hash, me.job.size, me.job.task, createdAt)))
  }

  /** What a publisher's transaction directory holds at each program point. */
  predicate StageOk(pf: Platform, tree: Tree, me: Process) {
    me.job.Publish? && TransactionOf(me.pc).Some? ==>
      var t := TransactionOf(me.pc).value;
      && (!me.pc.ScanPublished? && !me.pc.Cleanup? ==> t in tree)
      && (match me.pc
          case CreatePayload(_) => tree[t] == map[]
          case WritePayload(_) => tree[t].Keys == {PayloadBin} && tree[t][PayloadBin].File?
          case MeasurePayload(_) => tree[t].Keys == {PayloadBin} && tree[t][PayloadBin].File?
          case WriteManifest(_) => tree[t].Keys == {PayloadBin} && HoldsPayload(pf, me, tree[t])
          case WriteMarker(_, iso) =>
            && HoldsPayload(pf, me, tree[t])
            && tree[t] == map[PayloadBin := tree[t][PayloadBin], ManifestJson := ManifestFile(pf, me, iso)]
          case ScanTransaction(_, s) => Sealed(pf, me, tree[t]) && Agrees(pf, s, tree[t])
          case Rename(_) => Sealed(pf, me, tree[t])
          case _ => true)
      && IsSha256(me.job.task)
  }

  /** Past the task identity check. */
  predicate TaskChecked(me: Process) {
    me.pc.MakeTransaction? && me.job.Publish? ==> IsSha256(me.job.task)
  }

  /** A quarantiner at work sees an entry; if that entry is valid, its scan has read nothing
      but that entry. */
  predicate SuspectOk(pf: Platform, tree: Tree, me: Process)
  {
    var p := Dest(pf, me);
    match me.pc
    case ScanSuspect(s) => p in tree && (EntryValid(pf, p, tree[p]) ==> Agrees(pf, s, tree[p]))
    case MoveAside => p in tree
    case _ => true
  }

  ghost predicate ProcessOk(pf: Platform, tree: Tree, names: set<Path>, me: Process)
  {
    && ValidIdentity(me.identity)
    && PcFits(me) && TaskChecked(me) && StageOk(pf, tree, me) && SuspectOk(pf, tree, me)
    && (TransactionOf(me.pc).Some? ==> TransactionOf(me.pc).value in names)
  }

  /** Whoever is inside `with CacheKeyLock(...)` owns the lock, and only they do. */
  ghost predicate LocksOk(pf: Platform, locks: map<string, nat>, procs: map<nat, Process>) {
    && (forall key :: key in locks ==>
          (locks[key] in procs && Key(pf, procs[locks[key]]) == key && InsideLock(procs[locks[key]])))
    && (forall i :: i in procs && InsideLock(procs[i]) ==>
          (Key(pf, procs[i]) in locks && locks[Key(pf, procs[i])] == i))
  }

  ghost predicate TransactionsPrivate(names: set<Path>, procs: map<nat, Process>) {
    && (forall i, j {:trigger TransactionOf(procs[i].pc), TransactionOf(procs[j].pc)} ::
          i in procs && j in procs && i != j && TransactionOf(procs[i].pc).Some? ==>
            TransactionOf(procs[i].pc) != TransactionOf(procs[j].pc))
    && (forall t :: t in names ==> IsTransactionPath(t))
  }

  ghost predicate Inv(pf: Platform, w: World)
  {
    && LocksOk(pf, w.locks, w.procs) && TransactionsPrivate(w.names, w.procs)
    && (forall i :: i in w.procs ==> ProcessOk(pf, w.tree, w.names, w.procs[i]))
  }

  // ----- the moving process keeps its own invariant -----

  lemma SealingValidates(pf: Platform, me: Process, d: Directory, createdAt: string)
    requires Faithful(pf) && ValidIdentity(me.identity)
    requires me.job.Publish? && IsSha256(me.job.task) && HoldsPayload(pf, me, d)
    requires d == map[PayloadBin := d[PayloadBin], ManifestJson := ManifestFile(pf, me, createdAt)]
    ensures Sealed(pf, me, d[CompleteJson := File(pf.renderMarker(MakeMarker(pf, d[ManifestJson].contents, me.job.hash)))])
  {
    var payload := d[PayloadBin].contents;
    SealedDirectoryValidates(pf, me.identity, payload, me.job.task, createdAt, "", false);
    assert d[CompleteJson := File(pf.renderMarker(MakeMarker(pf, d[ManifestJson].contents, me.job.hash)))]
        == SealedDirectory(pf, me.identity, payload, me.job.task, createdAt);
  }

  /** A sealed transaction becomes a valid entry the moment it is renamed. */
  lemma SealedIsValidEntry(pf: Platform, me: Process, d: Directory)
    requires Faithful(pf) && me.job.Publish? && Sealed(pf, me, d)
    ensures EntryValid(pf, Dest(pf, me), d) && EntryIdentity(pf, Dest(pf, me), d) == me.identity
    ensures ValidateDirectory(pf, Key(pf, me), d, Key(pf, me), me.identity, true)
         == ValidateDirectory(pf, "", d, Key(pf, me), me.identity, false)
  {
    ValidatedEntryIsDiscovered(pf, d, me.identity);
  }

  ghost predicate MoverOk(pf: Platform, w': World, i: nat)
  {
    i in w'.procs && ProcessOk(pf, w'.tree, w'.names, w'.procs[i])
  }

  lemma MakerKeepsStage(pf: Platform, w: World, i: nat, c: Choice)
    requires Faithful(pf) && i in w.procs && w.procs[i].job.Publish?
    requires ProcessOk(pf, w.tree, w.names, w.procs[i])
    requires w.procs[i].pc.MakeTransaction?
    ensures MoverOk(pf, StepPublish(pf, w, i, c), i)
  {
    hide Faithful, ValidIdentity, ValidateDirectory, EntryValid, Agrees, StepScan, Look, CacheKey, MakeManifest, MakeMarker, Unlock;
  }

  lemma WriterKeepsStage(pf: Platform, w: World, i: nat, c: Choice)
    requires Faithful(pf) && i in w.procs && w.procs[i].job.Publish?
    requires ProcessOk(pf, w.tree, w.names, w.procs[i])
    requires var pc := w.procs[i].pc; pc.CreatePayload? || pc.WritePayload? || pc.MeasurePayload? || pc.WriteManifest?
    ensures MoverOk(pf, StepPublish(pf, w, i, c), i)
  {
    hide Faithful, ValidIdentity, ValidateDirectory, EntryValid, Agrees, StepScan, Look, CacheKey, MakeManifest, MakeMarker, Unlock;
  }

  lemma SealerKeepsStage(pf: Platform, w: World, i: nat, c: Choice)
    requires Faithful(pf) && i in w.procs && w.procs[i].job.Publish?
    requires ProcessOk(pf, w.tree, w.names, w.procs[i])
    requires w.procs[i].pc.WriteMarker? || w.procs[i].pc.ScanTransaction?
    ensures MoverOk(pf, StepPublish(pf, w, i, c), i)
  {
    hide Faithful, ValidIdentity, ValidateDirectory, EntryValid, StepScan;
    var me := w.procs[i];
    match me.pc
    case ScanTransaction(t, s) =>
      hide Agrees;
      ScanRefinesValidation(pf, w.tree, t, me.identity, false, s);
    case WriteMarker(t, iso) => SealingValidates(pf, me, w.tree[t], iso);
  }

  lemma RenamerKeepsStage(pf: Platform, w: World, i: nat, c: Choice)
    requires Faithful(pf) && i in w.procs && w.procs[i].job.Publish?
    requires ProcessOk(pf, w.tree, w.names, w.procs[i])
    requires w.procs[i].pc.Rename? || w.procs[i].pc.Cleanup?
    ensures MoverOk(pf, StepPublish(pf, w, i, c), i)
  {
    hide Faithful, ValidIdentity, ValidateDirectory, EntryValid, Agrees, StepScan, Look;
  }

  lemma FinisherKeepsStage(pf: Platform, w: World, i: nat, c: Choice)
    requires Faithful(pf) && i in w.procs && w.procs[i].job.Publish?
    requires ProcessOk(pf, w.tree, w.names, w.procs[i])
    requires var pc := w.procs[i].pc; pc.CheckWinner? || pc.ScanWinner? || pc.ScanPublished?
    ensures MoverOk(pf, StepPublish(pf, w, i, c), i)
  {
    hide Faithful, ValidIdentity, ValidateDirectory, EntryValid, Agrees, StepScan, Look;
  }

  lemma OpenerKeepsStage(pf: Platform, w: World, i: nat, c: Choice)
    requires Faithful(pf) && i in w.procs && w.procs[i].job.Publish?
    requires ProcessOk(pf, w.tree, w.names, w.procs[i])
    requires var pc := w.procs[i].pc; pc.CheckDestination? || pc.ScanExisting? || pc.Done? || pc.Crashed?
    ensures MoverOk(pf, StepPublish(pf, w, i, c), i)
  {
    hide Faithful, ValidIdentity, ValidateDirectory, EntryValid, Agrees, StepScan, Look;
  }

  /** Looking at a valid entry keeps a faithful scan faithful. */
  lemma LookStaysFaithful(pf: Platform, tree: Tree, me: Process, s: Scan, c: Choice)
    requires Dest(pf, me) in tree && Agrees(pf, s, tree[Dest(pf, me)])
    ensures var step := Look(pf, tree, Dest(pf, me), me.identity, true, s, c); step.More? ==> Agrees(pf, step.scan, tree[Dest(pf, me)])
  {
    ScanRefinesValidation(pf, tree, Dest(pf, me), me.identity, true, s);
    hide StepScan, Agrees;
  }

  lemma SuspectKeepsStage(pf: Platform, w: World, i: nat, c: Choice)
    requires Faithful(pf) && i in w.procs && w.procs[i].job.Quarantine?
    requires ProcessOk(pf, w.tree, w.names, w.procs[i])
    requires w.procs[i].pc.ScanSuspect?
    ensures MoverOk(pf, StepQuarantine(pf, w, i, c), i)
  {
    hide Faithful, ValidIdentity, ValidateDirectory, EntryValid, StepScan, Look, Agrees, CacheKey, MakeManifest, MakeMarker, Unlock;
    var me := w.procs[i];
    if EntryValid(pf, Dest(pf, me), w.tree[Dest(pf, me)]) {
      LookStaysFaithful(pf, w.tree, me, me.pc.scan, c);
    }
  }

  lemma QuarantinerKeepsStage(pf: Platform, w: World, i: nat, c: Choice)
    requires Faithful(pf) && i in w.procs && w.procs[i].job.Quarantine?
    requires ProcessOk(pf, w.tree, w.names, w.procs[i])
    requires var pc := w.procs[i].pc; !pc.AwaitLock? && !pc.Release? && !pc.ScanSuspect?
    ensures MoverOk(pf, StepQuarantine(pf, w, i, c), i)
  {
    hide Faithful, ValidIdentity, ValidateDirectory, EntryValid, StepScan, Look, CacheKey, MakeManifest, MakeMarker, Unlock;
  }

  lemma ReaderKeepsStage(pf: Platform, w: World, i: nat, c: Choice)
    requires i in w.procs && w.procs[i].job.Read?
    requires ProcessOk(pf, w.tree, w.names, w.procs[i])
    ensures MoverOk(pf, StepRead(pf, w, i, c), i)
  {
    hide ValidIdentity, EntryValid, Agrees, StepScan, Look;
  }

  lemma LockerKeepsStage(pf: Platform, w: World, i: nat, c: Choice)
    requires i in w.procs && ProcessOk(pf, w.tree, w.names, w.procs[i])
    ensures MoverOk(pf, StepLock(pf, w, i, c), i)
  {
    hide ValidIdentity, EntryValid, Agrees;
  }

  /** A process keeps its own part of the invariant when it moves. */
  lemma MoverKeepsStage(pf: Platform, w: World, i: nat, c: Choice)
    requires Faithful(pf) && i in w.procs && ProcessOk(pf, w.tree, w.names, w.procs[i])
    ensures MoverOk(pf, Next(pf, w, Advance(i, c)), i)
  {
    hide Faithful, ValidIdentity, StageOk, SuspectOk, StepPublish, StepQuarantine, StepRead, StepLock;
    var pc, job := w.procs[i].pc, w.procs[i].job;
    if pc.AwaitLock? || pc.Release? {
      LockerKeepsStage(pf, w, i, c);
    } else if job.Read? {
      ReaderKeepsStage(pf, w, i, c);
    } else if pc.ScanSuspect? {
      SuspectKeepsStage(pf, w, i, c);
    } else if job.Quarantine? {
      QuarantinerKeepsStage(pf, w, i, c);
    } else if pc.MakeTransaction? {
      MakerKeepsStage(pf, w, i, c);
    } else if pc.CreatePayload? || pc.WritePayload? || pc.MeasurePayload? || pc.WriteManifest? {
      WriterKeepsStage(pf, w, i, c);
    } else if pc.WriteMarker? || pc.ScanTransaction? {
      SealerKeepsStage(pf, w, i, c);
    } else if pc.CheckDestination? || pc.ScanExisting? || pc.Done? || pc.Crashed? {
      OpenerKeepsStage(pf, w, i, c);
    } else if pc.Rename? || pc.Cleanup? {
      RenamerKeepsStage(pf, w, i, c);
    } else {
      FinisherKeepsStage(pf, w, i, c);
    }
  }

  // ----- the others keep theirs -----

  predicate SameAt(t: Tree, t': Tree, p: Path) {
    (p in t <==> p in t') && (p in t ==> t[p] == t'[p])
  }

  /** Where a step can touch the tree: the mover's own transaction, a name nobody was given
      before, its entry at the rename or at the move aside, and a new quarantine directory. */
  ghost predicate Touches(pf: Platform, w: World, w': World, i: nat, p: Path)
    requires i in w.procs && i in w'.procs
  {
    var me := w.procs[i];
    || TransactionOf(me.pc) == Some(p)
    || (me.pc.MakeTransaction? && p !in w.names && p !in w.tree && p in w'.tree
        && TransactionOf(w'.procs[i].pc) == Some(p) && w'.tree[p] == map[])
    || (me.pc.Rename? && p == Dest(pf, me) && p !in w.tree && p in w'.tree
        && me.pc.txn in w.tree && w'.tree[p] == w.tree[me.pc.txn])
    || (me.pc.MoveAside? && p == Dest(pf, me) && p in w.tree && p !in w'.tree
        && w'.procs[i].pc.Release? && w'.procs[i].pc.outcome.MovedAside?)
    || (me.pc.MoveAside? && p !in w.tree && p in w'.tree && Dest(pf, me) in w.tree && w'.tree[p] == w.tree[Dest(pf, me)]
        && w'.procs[i].pc == Release(MovedAside(p)) && Dest(pf, me) !in w'.tree
        && IsQuarantinePath(p))
  }

  ghost predicate OnlyMoverChanged(w: World, w': World, i: nat) {
    && i in w.procs && i in w'.procs && w'.procs == w.procs[i := w'.procs[i]]
    && w'.procs[i].identity == w.procs[i].identity && w'.procs[i].job == w.procs[i].job
    && w.names <= w'.names
  }

  /** A process enters `with CacheKeyLock(...)` by finding the key free, and frees it when it leaves. */
  predicate LockStep(pf: Platform, w: World, w': World, i: nat)
    requires i in w.procs && i in w'.procs
  {
    var me, me' := w.procs[i], w'.procs[i];
    var key := Key(pf, me);
    if InsideLock(me) == InsideLock(me') then w'.locks == w.locks
    else if InsideLock(me') then key !in w.locks && w'.locks == w.locks[key := i]
    else w'.locks == Unlock(w, i, key)
  }

  /** A process keeps its transaction name, drops it, or is given one never handed out. */
  predicate NameStep(w: World, w': World, i: nat)
    requires i in w.procs && i in w'.procs
  {
    var t, t' := TransactionOf(w.procs[i].pc), TransactionOf(w'.procs[i].pc);
    || (w'.names == w.names && (t' == t || t'.None?))
    || (t'.Some? && t'.value !in w.names && w'.names == w.names + {t'.value})
  }

  ghost predicate Footprint(pf: Platform, w: World, w': World, i: nat, p: Path) {
    && OnlyMoverChanged(w, w', i) && LockStep(pf, w, w', i) && NameStep(w, w', i)
    && (!SameAt(w.tree, w'.tree, p) ==> Touches(pf, w, w', i, p))
  }

  predicate WritesTransaction(pc: Pc) {
    pc.MakeTransaction? || pc.CreatePayload? || pc.WritePayload? || pc.MeasurePayload? || pc.WriteManifest? || pc.WriteMarker?
  }

  lemma GotoFootprint(pf: Platform, w: World, i: nat, pc': Pc, p: Path)
    requires i in w.procs
    requires InsideLock(w.procs[i].(pc := pc')) == InsideLock(w.procs[i])
    requires TransactionOf(pc') == TransactionOf(w.procs[i].pc) || TransactionOf(pc').None?
    ensures Footprint(pf, w, Goto(w, i, pc'), i, p)
    ensures Footprint(pf, w, w, i, p)
  {
    hide Touches, InsideLock, TransactionOf, Key;
    assert w.procs == w.procs[i := w.procs[i]];
  }

  lemma FileFootprint(pf: Platform, w: World, i: nat, pc': Pc, t: Path, d: Directory, p: Path)
    requires i in w.procs
    requires InsideLock(w.procs[i].(pc := pc')) == InsideLock(w.procs[i])
    requires TransactionOf(pc') == TransactionOf(w.procs[i].pc) == Some(t)
    ensures Footprint(pf, w, Goto(w, i, pc').(tree := w.tree[t := d]), i, p)
  {
    hide InsideLock, TransactionOf, Key;
  }

  lemma MakerFootprint(pf: Platform, w: World, i: nat, c: Choice, p: Path)
    requires i in w.procs && w.procs[i].job.Publish? && w.procs[i].pc.MakeTransaction?
    ensures Footprint(pf, w, StepPublish(pf, w, i, c), i, p)
  {
    hide CacheKey, Prefix;
  }

  lemma WriterFootprint(pf: Platform, w: World, i: nat, c: Choice, p: Path)
    requires i in w.procs && w.procs[i].job.Publish? && WritesTransaction(w.procs[i].pc) && !w.procs[i].pc.MakeTransaction?
    ensures Footprint(pf, w, StepPublish(pf, w, i, c), i, p)
  {
    hide HasFile, MakeManifest, MakeMarker, CacheKey, Footprint;
    var w' := StepPublish(pf, w, i, c);
    var pc' := w'.procs[i].pc;
    var t := TransactionOf(w.procs[i].pc).value;
    assert w.procs == w.procs[i := w.procs[i]];
    assert w' == w || w' == Goto(w, i, pc') || (t in w'.tree && w' == Goto(w, i, pc').(tree := w.tree[t := w'.tree[t]]));
    if w' == w || w' == Goto(w, i, pc') {
      GotoFootprint(pf, w, i, pc', p);
    } else {
      FileFootprint(pf, w, i, pc', t, w'.tree[t], p);
    }
  }

  lemma RenamerFootprint(pf: Platform, w: World, i: nat, c: Choice, p: Path)
    requires i in w.procs && w.procs[i].job.Publish? && (w.procs[i].pc.Rename? || w.procs[i].pc.Cleanup?)
    ensures Footprint(pf, w, StepPublish(pf, w, i, c), i, p)
  {
    hide StepScan, Look, HasFile;
  }

  lemma LookerFootprint(pf: Platform, w: World, i: nat, c: Choice, p: Path)
    requires i in w.procs && w.procs[i].job.Publish?
    requires var pc := w.procs[i].pc; !WritesTransaction(pc) && !pc.Rename? && !pc.Cleanup? && !pc.AwaitLock? && !pc.Release?
    ensures Footprint(pf, w, StepPublish(pf, w, i, c), i, p)
  {
    hide StepScan, Look, Touches, ReuseOutcome, IsSha256, CacheKey, Footprint;
    var w' := StepPublish(pf, w, i, c);
    assert w' == w || w' == Goto(w, i, w'.procs[i].pc);
    if w' == w {
      GotoFootprint(pf, w, i, w.procs[i].pc, p);
    } else {
      GotoFootprint(pf, w, i, w'.procs[i].pc, p);
    }
  }

  lemma MoveAsideFootprint(pf: Platform, w: World, i: nat, c: Choice, p: Path)
    requires i in w.procs && w.procs[i].job.Quarantine? && w.procs[i].pc.MoveAside?
    ensures Footprint(pf, w, StepQuarantine(pf, w, i, c), i, p)
  {
  }

  lemma QuarantineFootprint(pf: Platform, w: World, i: nat, c: Choice, p: Path)
    requires i in w.procs && w.procs[i].job.Quarantine?
    requires var pc := w.procs[i].pc; !pc.AwaitLock? && !pc.Release? && !pc.MoveAside?
    ensures Footprint(pf, w, StepQuarantine(pf, w, i, c), i, p)
  {
    hide StepScan, Look, Touches, CacheKey, Footprint;
    var w' := StepQuarantine(pf, w, i, c);
    assert w' == w || w' == Goto(w, i, w'.procs[i].pc);
    if w' == w {
      GotoFootprint(pf, w, i, w.procs[i].pc, p);
    } else {
      GotoFootprint(pf, w, i, w'.procs[i].pc, p);
    }
  }

  lemma ReadFootprint(pf: Platform, w: World, i: nat, c: Choice, p: Path)
    requires i in w.procs && w.procs[i].job.Read?
    ensures Footprint(pf, w, StepRead(pf, w, i, c), i, p)
  {
    hide StepScan, Look, Touches;
  }

  lemma LockFootprint(pf: Platform, w: World, i: nat, c: Choice, p: Path)
    requires i in w.procs && PcFits(w.procs[i])
    requires InsideLock(w.procs[i]) || !(Key(pf, w.procs[i]) in w.locks && w.locks[Key(pf, w.procs[i])] == i)
    ensures Footprint(pf, w, StepLock(pf, w, i, c), i, p)
  {
    hide Touches;
  }

  lemma StepFootprint(pf: Platform, w: World, i: nat, c: Choice, p: Path)
    requires i in w.procs && PcFits(w.procs[i])
    requires InsideLock(w.procs[i]) || !(Key(pf, w.procs[i]) in w.locks && w.locks[Key(pf, w.procs[i])] == i)
    ensures Footprint(pf, w, Next(pf, w, Advance(i, c)), i, p)
  {
    hide Footprint, StepPublish, StepRead, StepQuarantine, StepLock, WritesTransaction, PcFits, InsideLock, Key;
    var pc := w.procs[i].pc;
    if pc.AwaitLock? || pc.Release? {
      LockFootprint(pf, w, i, c, p);
    } else if w.procs[i].job.Read? {
      ReadFootprint(pf, w, i, c, p);
    } else if pc.MoveAside? && w.procs[i].job.Quarantine? {
      MoveAsideFootprint(pf, w, i, c, p);
    } else if w.procs[i].job.Quarantine? {
      QuarantineFootprint(pf, w, i, c, p);
    } else if pc.MakeTransaction? {
      MakerFootprint(pf, w, i, c, p);
    } else if WritesTransaction(pc) {
      WriterFootprint(pf, w, i, c, p);
    } else if pc.Rename? || pc.Cleanup? {
      RenamerFootprint(pf, w, i, c, p);
    } else {
      LookerFootprint(pf, w, i, c, p);
    }
  }

  /** In a reachable world the side conditions of `StepFootprint` hold. */
  lemma InvFootprint(pf: Platform, w: World, i: nat, c: Choice, p: Path)
    requires Inv(pf, w) && i in w.procs
    ensures Footprint(pf, w, Next(pf, w, Advance(i, c)), i, p)
  {
    hide Next, StageOk, SuspectOk, Footprint, TransactionsPrivate;
    assert ProcessOk(pf, w.tree, w.names, w.procs[i]);
    StepFootprint(pf, w, i, c, p);
  }

  lemma DestIsEntry(pf: Platform, me: Process)
    requires Faithful(pf)
    ensures IsEntryPath(Dest(pf, me)) && !IsTransactionPath(Dest(pf, me)) && !IsQuarantinePath(Dest(pf, me))
  {
    EntryPathIsEntry(Key(pf, me));
    if IsTransactionPath(Dest(pf, me)) || IsQuarantinePath(Dest(pf, me)) {
      OtherPathsAreNotEntries(Dest(pf, me));
    }
  }

  /** A transaction directory belongs to its process alone. */
  lemma TransactionUntouched(pf: Platform, w: World, i: nat, c: Choice, j: nat)
    requires Faithful(pf) && Inv(pf, w) && i in w.procs && j in w.procs && i != j
    requires TransactionOf(w.procs[j].pc).Some?
    ensures SameAt(w.tree, Next(pf, w, Advance(i, c)).tree, TransactionOf(w.procs[j].pc).value)
  {
    hide Faithful, StageOk, SuspectOk, PcFits, Next, LocksOk, SameAt, EntryValid;
    var t := TransactionOf(w.procs[j].pc).value;
    assert ProcessOk(pf, w.tree, w.names, w.procs[j]) && ProcessOk(pf, w.tree, w.names, w.procs[i]);
    InvFootprint(pf, w, i, c, t);
    DestIsEntry(pf, w.procs[i]);
    assert IsTransactionPath(t);
    TransactionIsNotQuarantine(t);
  }

  /** Under the key lock nobody else moves the entry a quarantiner is judging, and no
      publisher can rename over it. */
  lemma SuspectUntouched(pf: Platform, w: World, i: nat, c: Choice, j: nat)
    requires Faithful(pf) && Inv(pf, w) && i in w.procs && j in w.procs && i != j
    requires w.procs[j].pc.ScanSuspect? || w.procs[j].pc.MoveAside?
    ensures SameAt(w.tree, Next(pf, w, Advance(i, c)).tree, Dest(pf, w.procs[j]))
  {
    hide Faithful, StageOk, Next, EntryValid, SameAt, IsEntryPath, IsTransactionPath, IsQuarantinePath, ValidIdentity, Agrees;
    var p := Dest(pf, w.procs[j]);
    var i_, j_ := w.procs[i], w.procs[j];
    assert ProcessOk(pf, w.tree, w.names, j_) && ProcessOk(pf, w.tree, w.names, i_);
    InvFootprint(pf, w, i, c, p);
    DestIsEntry(pf, j_);
    if p == Dest(pf, i_) {
      SameKeySameLock(pf, w, i, j);
    }
  }

  lemma SameKeySameLock(pf: Platform, w: World, i: nat, j: nat)
    requires Inv(pf, w) && i in w.procs && j in w.procs && i != j
    requires Dest(pf, w.procs[i]) == Dest(pf, w.procs[j])
    ensures !(InsideLock(w.procs[i]) && InsideLock(w.procs[j]))
  {
    hide ProcessOk, TransactionsPrivate;
    assert Dest(pf, w.procs[i]).name == Key(pf, w.procs[i]);
  }

  lemma OtherKeepsStage(pf: Platform, w: World, i: nat, c: Choice, j: nat)
    requires Faithful(pf) && Inv(pf, w) && i in w.procs && j in w.procs && i != j
    ensures var w' := Next(pf, w, Advance(i, c)); ProcessOk(pf, w'.tree, w'.names, w.procs[j])
  {
    hide Faithful, Next, EntryValid, ValidIdentity, Agrees, ValidateDirectory;
    var me := w.procs[j];
    assert ProcessOk(pf, w.tree, w.names, me);
    InvFootprint(pf, w, i, c, Dest(pf, me));
    hide Touches, LocksOk;
    if TransactionOf(me.pc).Some? {
      TransactionUntouched(pf, w, i, c, j);
    }
    if me.pc.ScanSuspect? || me.pc.MoveAside? {
      SuspectUntouched(pf, w, i, c, j);
    }
  }

  // ----- locks and names -----

  lemma LocksFollow(pf: Platform, w: World, w': World, i: nat)
    requires LocksOk(pf, w.locks, w.procs) && OnlyMoverChanged(w, w', i) && LockStep(pf, w, w', i)
    ensures LocksOk(pf, w'.locks, w'.procs)
  {
  }

  lemma StepKeepsLocks(pf: Platform, w: World, i: nat, c: Choice)
    requires Inv(pf, w) && i in w.procs
    ensures var w' := Next(pf, w, Advance(i, c)); LocksOk(pf, w'.locks, w'.procs)
  {
    hide Next, ProcessOk, LockStep, NameStep, Touches, TransactionsPrivate;
    InvFootprint(pf, w, i, c, Path("", ""));
    hide InsideLock, LocksOk, OnlyMoverChanged;
    LocksFollow(pf, w, Next(pf, w, Advance(i, c)), i);
  }

  lemma StepNamesTransactions(pf: Platform, w: World, i: nat, c: Choice)
    requires Faithful(pf) && i in w.procs && (forall t :: t in w.names ==> IsTransactionPath(t))
    ensures forall t :: t in Next(pf, w, Advance(i, c)).names ==> IsTransactionPath(t)
  {
    hide StepScan, Look, HasFile, MoveDirectory, IsTransactionPath;
    if w.procs[i].pc.MakeTransaction? && c.Name? {
      assert IsSha256(Key(pf, w.procs[i]));
      TransactionPathIsTransaction(Key(pf, w.procs[i]), c.suffix);
    }
  }

  lemma TransactionPathIsTransaction(key: string, suffix: string)
    requires IsSha256(key)
    ensures IsTransactionPath(TransactionPath(key, suffix))
  {
  }

  lemma NamesFollow(pf: Platform, w: World, w': World, i: nat)
    requires TransactionsPrivate(w.names, w.procs) && OnlyMoverChanged(w, w', i) && NameStep(w, w', i)
    requires forall t :: t in w'.names ==> IsTransactionPath(t)
    requires forall j :: j in w.procs && TransactionOf(w.procs[j].pc).Some? ==> TransactionOf(w.procs[j].pc).value in w.names
    ensures TransactionsPrivate(w'.names, w'.procs)
  {
    hide IsTransactionPath, TransactionOf;
  }

  lemma StepKeepsNames(pf: Platform, w: World, i: nat, c: Choice)
    requires Faithful(pf) && Inv(pf, w) && i in w.procs
    ensures var w' := Next(pf, w, Advance(i, c)); TransactionsPrivate(w'.names, w'.procs)
  {
    hide Next, LockStep, Touches, LocksOk, StageOk, SuspectOk, PcFits, TaskChecked, ValidIdentity, NameStep;
    var w' := Next(pf, w, Advance(i, c));
    InvFootprint(pf, w, i, c, Path("", ""));
    StepNamesTransactions(pf, w, i, c);
    forall j | j in w.procs && TransactionOf(w.procs[j].pc).Some?
      ensures TransactionOf(w.procs[j].pc).value in w.names
    {
      OwnNameIsHandedOut(pf, w, j);
    }
    NamesFollow(pf, w, w', i);
  }

  /** One process, one step: the whole invariant survives. */
  lemma AdvanceKeepsInv(pf: Platform, w: World, i: nat, c: Choice)
    requires Faithful(pf) && Inv(pf, w) && i in w.procs
    ensures Inv(pf, Next(pf, w, Advance(i, c)))
  {
    hide Next, LockStep, NameStep, Touches, ProcessOk, Faithful;
    var w' := Next(pf, w, Advance(i, c));
    StepKeepsLocks(pf, w, i, c);
    StepKeepsNames(pf, w, i, c);
    hide LocksOk, TransactionsPrivate;
    InvFootprint(pf, w, i, c, Path("", ""));
    MoverKeepsStage(pf, w, i, c);
    forall j | j in w'.procs
      ensures ProcessOk(pf, w'.tree, w'.names, w'.procs[j])
    {
      if j != i {
        OtherKeepsStage(pf, w, i, c, j);
      }
    }
  }

  // ----- the other actions -----

  lemma LaunchKeepsInv(pf: Platform, w: World, i: nat, id: CacheIdentity, job: Job)
    requires Inv(pf, w)
    ensures Inv(pf, Next(pf, w, Launch(i, id, job)))
  {
    hide StageOk, SuspectOk, ValidIdentity, IsTransactionPath;
    var w' := Next(pf, w, Launch(i, id, job));
    if w' != w {
      var me := Process(id, job, StartPc(job));
      assert !InsideLock(me) && TransactionOf(me.pc).None?;
      LaunchedIsOk(pf, w.tree, w.names, id, job);
      hide InsideLock, TransactionOf, PcFits, TaskChecked;
      assert LocksOk(pf, w'.locks, w'.procs);
      assert TransactionsPrivate(w'.names, w'.procs);
    }
  }

  lemma LaunchedIsOk(pf: Platform, tree: Tree, names: set<Path>, id: CacheIdentity, job: Job)
    requires ValidIdentity(id)
    ensures ProcessOk(pf, tree, names, Process(id, job, StartPc(job)))
  {
    hide ValidIdentity;
  }

  lemma KilledIsOk(pf: Platform, tree: Tree, names: set<Path>, me: Process)
    requires ProcessOk(pf, tree, names, me)
    ensures ProcessOk(pf, tree, names, me.(pc := Crashed))
  {
    hide ValidIdentity, Sealed, HoldsPayload, EntryValid, Agrees;
  }

  lemma KillKeepsInv(pf: Platform, w: World, i: nat)
    requires Inv(pf, w)
    ensures Inv(pf, Next(pf, w, Kill(i)))
  {
    hide ProcessOk, IsTransactionPath;
    var w' := Next(pf, w, Kill(i));
    if w' != w {
      KilledIsOk(pf, w.tree, w.names, w.procs[i]);
      assert LockStep(pf, w, w', i) && NameStep(w, w', i);
      hide InsideLock, TransactionOf, LockStep, NameStep;
      LocksFollow(pf, w, w', i);
      forall j | j in w.procs && TransactionOf(w.procs[j].pc).Some?
        ensures TransactionOf(w.procs[j].pc).value in w.names
      {
        OwnNameIsHandedOut(pf, w, j);
      }
      NamesFollow(pf, w, w', i);
    }
  }

  lemma OwnNameIsHandedOut(pf: Platform, w: World, j: nat)
    requires Inv(pf, w) && j in w.procs && TransactionOf(w.procs[j].pc).Some?
    ensures TransactionOf(w.procs[j].pc).value in w.names
  {
    hide LocksOk, TransactionsPrivate, StageOk, SuspectOk, ValidIdentity, TransactionOf, PcFits;
    assert ProcessOk(pf, w.tree, w.names, w.procs[j]);
  }

  lemma DamageKeepsInv(pf: Platform, w: World, p: Path, d: Directory)
    requires Inv(pf, w)
    ensures Inv(pf, Next(pf, w, Damage(p, d)))
  {
    hide ValidIdentity, Sealed, HoldsPayload, EntryValid, Agrees, LocksOk, IsTransactionPath, IsEntryPath, PcFits;
    var w' := Next(pf, w, Damage(p, d));
    if w' != w {
      forall j | j in w.procs
        ensures ProcessOk(pf, w'.tree, w'.names, w'.procs[j])
      {
        var me := w.procs[j];
        assert ProcessOk(pf, w.tree, w.names, me);
        if TransactionOf(me.pc).Some? {
          OtherPathsAreNotEntries(TransactionOf(me.pc).value);
        }
      }
    }
  }

  /** Every step of any process, every launch, crash and damage keeps the invariant. */
  lemma NextKeepsInv(pf: Platform, w: World, a: Action)
    requires Faithful(pf) && Inv(pf, w)
    ensures Inv(pf, Next(pf, w, a))
  {
    match a
    case Launch(i, id, job) => LaunchKeepsInv(pf, w, i, id, job);
    case Advance(i, c) =>
      if i in w.procs {
        AdvanceKeepsInv(pf, w, i, c);
      }
    case Kill(i) => KillKeepsInv(pf, w, i);
    case Damage(p, d) => DamageKeepsInv(pf, w, p, d);
  }
}
