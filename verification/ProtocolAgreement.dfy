/** What publishers and readers of one identity are told in a history without outside damage in
    which no quarantiner misreads an entry: they agree on the payload, one of them at most
    created it, and a reader is told of a broken entry only when its own read failed. The lock is
    not needed for any of this: publishers that skip it are covered. */
module ProtocolAgreement {
  import opened Wrappers
  import opened CacheContracts
  import opened CacheFiles
  import opened PublishProtocol
  import opened ProtocolInvariant
  import opened ProtocolSafety

  predicate AllEntriesValid(pf: Platform, tree: Tree) {
    forall p :: p in tree && IsEntryPath(p) ==> EntryValid(pf, p, tree[p])
  }

  function EntryVerdict(pf: Platform, tree: Tree, id: CacheIdentity): Verdict {
    var p := EntryPath(CacheKey(pf, id));
    if p in tree then ValidateDirectory(pf, p.name, tree[p], CacheKey(pf, id), id, true) else Err(IntegrityError)
  }

  function OutcomeOf(pc: Pc): Option<Outcome> {
    match pc
    case Cleanup(_, o) => Some(o)
    case Release(o) => Some(o)
    case Done(o) => Some(o)
    case _ => None
  }

  /** A result is what the entry in the tree says; a publisher's is what it was asked to
      publish; nothing is moved aside. */
  predicate OutcomeTrue(pf: Platform, tree: Tree, id: CacheIdentity, job: Job, o: Outcome) {
    match o
    case Published(a, _) => job.Publish? && Matches(job, a) && EntryVerdict(pf, tree, id) == Ok(a)
    case Loaded(a) => EntryVerdict(pf, tree, id) == Ok(a)
    case Absent => true
    case MovedAside(_) => false
    case Failed(_) => true
  }

  /** The scan of an entry under way, if any. */
  function EntryScan(pc: Pc): Option<Scan> {
    match pc
    case ScanExisting(s) => Some(s)
    case ScanWinner(_, s) => Some(s)
    case ScanPublished(_, s) => Some(s)
    case ScanRead(s) => Some(s)
    case ScanSuspect(s) => Some(s)
    case _ => None
  }

  /** Every process looks at the entry that is really there. */
  predicate ViewTrue(pf: Platform, tree: Tree, me: Process) {
    && (EntryScan(me.pc).Some? ==> Dest(pf, me) in tree && Agrees(pf, EntryScan(me.pc).value, tree[Dest(pf, me)]))
    && (me.pc.ScanPublished? ==> me.job.Publish? && EntryVerdict(pf, tree, me.identity).Ok? && Matches(me.job, EntryVerdict(pf, tree, me.identity).value))
    && (OutcomeOf(me.pc).Some? ==> OutcomeTrue(pf, tree, me.identity, me.job, OutcomeOf(me.pc).value))
    && !me.pc.MoveAside?
  }

  /** Processes whose rename went through. */
  predicate Created(me: Process) {
    me.pc.ScanPublished? ||
    (OutcomeOf(me.pc).Some? && OutcomeOf(me.pc).value.Published? && !OutcomeOf(me.pc).value.reusedExisting)
  }

  ghost predicate OneCreator(pf: Platform, procs: map<nat, Process>) {
    forall i, j :: i in procs && j in procs && i != j && Key(pf, procs[i]) == Key(pf, procs[j]) ==>
      !(Created(procs[i]) && Created(procs[j]))
  }

  ghost predicate Calm(pf: Platform, ids: set<CacheIdentity>, w: World) {
    && Inv(pf, w) && Known(pf, ids, w) && AllEntriesValid(pf, w.tree) && OneCreator(pf, w.procs)
    && (forall i :: i in w.procs ==> ViewTrue(pf, w.tree, w.procs[i]))
  }

  /** A step of the kind the results allow: no damage, no misreading, a known identity. */
  predicate Undisturbed(pf: Platform, ids: set<CacheIdentity>, w: World, a: Action) {
    !a.Damage? && !Misread(pf, w, a) && (a.Launch? ==> a.identity in ids)
  }

  ghost predicate NobodyMoves(w: World) {
    forall i :: i in w.procs ==> !w.procs[i].pc.MoveAside?
  }

  lemma EntryUntouched(pf: Platform, w: World, a: Action, p: Path)
    requires Faithful(pf) && Inv(pf, w) && NobodyMoves(w) && !a.Damage?
    requires IsEntryPath(p) && p in w.tree
    ensures SameAt(w.tree, Next(pf, w, a).tree, p)
  {
    hide Inv, Next, EntryValid, Faithful, IsEntryPath;
    NextAtEntry(pf, w, a, p);
  }

  /** Without damage all entries stay valid, misread or not. */
  lemma EntriesStayValid(pf: Platform, w: World, a: Action)
    requires Faithful(pf) && Inv(pf, w) && AllEntriesValid(pf, w.tree) && !a.Damage?
    ensures AllEntriesValid(pf, Next(pf, w, a).tree)
  {
    hide Inv, Next, EntryValid, Faithful, IsEntryPath;
    var w' := Next(pf, w, a);
    forall p | p in w'.tree && IsEntryPath(p)
      ensures EntryValid(pf, p, w'.tree[p])
    {
      NextAtEntry(pf, w, a, p);
    }
  }

  /** On a valid entry a faithful scan ends well, whoever runs it, unless an access fails. */
  lemma EntryScanEndsWell(pf: Platform, ids: set<CacheIdentity>, w: World, i: nat, s: Scan, c: Choice)
    requires Faithful(pf) && Known(pf, ids, w) && AllEntriesValid(pf, w.tree) && i in w.procs
    requires Dest(pf, w.procs[i]) in w.tree && Agrees(pf, s, w.tree[Dest(pf, w.procs[i])])
    ensures match Look(pf, w.tree, Dest(pf, w.procs[i]), w.procs[i].identity, true, s, c)
            case More(s') => Agrees(pf, s', w.tree[Dest(pf, w.procs[i])])
            case Finished(v) => v.Ok? ==> v == EntryVerdict(pf, w.tree, w.procs[i].identity)
    ensures Look(pf, w.tree, Dest(pf, w.procs[i]), w.procs[i].identity, true, s, c) == Finished(Err(IntegrityError)) <==> c.Fault? && !s.Listing?
  {
    DestIsEntry(pf, w.procs[i]);
    assert Dest(pf, w.procs[i]).name == Key(pf, w.procs[i]);
    LookAtValidEntry(pf, ids, w, i, s, c);
    hide Faithful, Known, EntryValid, IsEntryPath, Look, Look, Agrees, ValidateDirectory;
  }

  lemma BystanderSeesTruth(pf: Platform, w: World, a: Action, me: Process)
    requires Faithful(pf) && Inv(pf, w) && NobodyMoves(w) && !a.Damage?
    requires ViewTrue(pf, w.tree, me)
    ensures ViewTrue(pf, Next(pf, w, a).tree, me)
  {
    hide Inv, Next, Faithful, EntryValid, Agrees, ValidateDirectory, IsEntryPath, IsTransactionPath, IsQuarantinePath;
    if Dest(pf, me) in w.tree {
      DestIsEntry(pf, me);
      EntryUntouched(pf, w, a, Dest(pf, me));
    }
  }

  ghost predicate MoverSees(pf: Platform, w': World, i: nat) {
    i in w'.procs && ViewTrue(pf, w'.tree, w'.procs[i])
  }

  lemma ReaderSeesTruth(pf: Platform, ids: set<CacheIdentity>, w: World, i: nat, c: Choice)
    requires Faithful(pf) && Known(pf, ids, w) && AllEntriesValid(pf, w.tree) && i in w.procs && w.procs[i].job.Read?
    requires w.procs[i].pc.ScanRead? && ViewTrue(pf, w.tree, w.procs[i])
    ensures MoverSees(pf, StepRead(pf, w, i, c), i)
  {
    hide Faithful, Known, AllEntriesValid, Look, EntryVerdict, Matches, CacheKey, Agrees;
    EntryScanEndsWell(pf, ids, w, i, w.procs[i].pc.scan, c);
  }

  lemma OtherReaderSeesTruth(pf: Platform, w: World, i: nat, c: Choice)
    requires i in w.procs && w.procs[i].job.Read? && !w.procs[i].pc.ScanRead? && ViewTrue(pf, w.tree, w.procs[i])
    ensures MoverSees(pf, StepRead(pf, w, i, c), i)
  {
    hide Look, EntryVerdict, Matches, CacheKey;
  }

  lemma SuspecterSeesTruth(pf: Platform, ids: set<CacheIdentity>, w: World, i: nat, c: Choice)
    requires Faithful(pf) && Known(pf, ids, w) && AllEntriesValid(pf, w.tree) && i in w.procs && w.procs[i].job.Quarantine?
    requires w.procs[i].pc.ScanSuspect? && ViewTrue(pf, w.tree, w.procs[i]) && (c.Fault? ==> w.procs[i].pc.scan.Listing?)
    ensures MoverSees(pf, StepQuarantine(pf, w, i, c), i)
  {
    hide Faithful, Known, AllEntriesValid, Look, EntryVerdict, EntryValid, Matches, CacheKey, HasFile, MoveDirectory, Agrees;
    EntryScanEndsWell(pf, ids, w, i, w.procs[i].pc.scan, c);
  }

  lemma QuarantinerSeesTruth(pf: Platform, w: World, i: nat, c: Choice)
    requires i in w.procs && w.procs[i].job.Quarantine? && !w.procs[i].pc.ScanSuspect?
    requires ViewTrue(pf, w.tree, w.procs[i])
    ensures MoverSees(pf, StepQuarantine(pf, w, i, c), i)
  {
    hide Look, EntryVerdict, Matches, CacheKey, HasFile, MoveDirectory;
  }

  lemma LockerSeesTruth(pf: Platform, w: World, i: nat, c: Choice)
    requires i in w.procs && ViewTrue(pf, w.tree, w.procs[i]) && PcFits(w.procs[i])
    ensures MoverSees(pf, StepLock(pf, w, i, c), i)
  {
    hide Agrees, EntryVerdict;
  }

  lemma ScannerSeesTruth(pf: Platform, ids: set<CacheIdentity>, w: World, i: nat, c: Choice)
    requires Faithful(pf) && Known(pf, ids, w) && AllEntriesValid(pf, w.tree) && i in w.procs && w.procs[i].job.Publish?
    requires w.procs[i].pc.ScanExisting? || w.procs[i].pc.ScanWinner?
    requires ViewTrue(pf, w.tree, w.procs[i])
    ensures MoverSees(pf, StepPublish(pf, w, i, c), i)
  {
    hide Faithful, Known, AllEntriesValid, Look, EntryVerdict, Agrees, CacheKey;
    EntryScanEndsWell(pf, ids, w, i, w.procs[i].pc.scan, c);
  }

  lemma CreatorSeesTruth(pf: Platform, ids: set<CacheIdentity>, w: World, i: nat, c: Choice)
    requires Faithful(pf) && Known(pf, ids, w) && AllEntriesValid(pf, w.tree) && i in w.procs && w.procs[i].job.Publish?
    requires w.procs[i].pc.ScanPublished?
    requires ViewTrue(pf, w.tree, w.procs[i])
    ensures MoverSees(pf, StepPublish(pf, w, i, c), i)
  {
    hide Faithful, Known, AllEntriesValid, Look, EntryVerdict, Agrees, CacheKey;
    EntryScanEndsWell(pf, ids, w, i, w.procs[i].pc.scan, c);
  }

  lemma RenamerSeesTruth(pf: Platform, w: World, i: nat, c: Choice)
    requires Faithful(pf) && i in w.procs && w.procs[i].job.Publish?
    requires w.procs[i].pc.Rename? && ProcessOk(pf, w.tree, w.names, w.procs[i])
    ensures MoverSees(pf, StepPublish(pf, w, i, c), i)
  {
    var me := w.procs[i];
    SealedIsValidEntry(pf, me, w.tree[me.pc.txn]);
    hide Faithful, ValidateDirectory, EntryValid, ValidIdentity, EntryIdentity, Look;
  }

  lemma CleanerSeesTruth(pf: Platform, w: World, i: nat, c: Choice)
    requires Faithful(pf) && Inv(pf, w) && NobodyMoves(w) && i in w.procs && w.procs[i].job.Publish?
    requires w.procs[i].pc.Cleanup? && ViewTrue(pf, w.tree, w.procs[i])
    ensures MoverSees(pf, StepPublish(pf, w, i, c), i)
  {
    hide Inv, Faithful, ValidateDirectory, EntryValid, NobodyMoves;
    var me := w.procs[i];
    assert StepPublish(pf, w, i, c) == Next(pf, w, Advance(i, c));
    BystanderSeesTruth(pf, w, Advance(i, c), me);
    hide EntryVerdict, Matches;
  }

  lemma WriterSeesTruth(pf: Platform, w: World, i: nat, c: Choice)
    requires i in w.procs && w.procs[i].job.Publish? && ViewTrue(pf, w.tree, w.procs[i])
    requires var pc := w.procs[i].pc; WritesTransaction(pc) || pc.CheckDestination? || pc.ScanTransaction? || pc.CheckWinner? || pc.Done? || pc.Crashed?
    ensures MoverSees(pf, StepPublish(pf, w, i, c), i)
  {
    hide Look, EntryVerdict, HasFile, MakeManifest, MakeMarker, Matches, CacheKey, IsSha256, TransactionPath, EntryPath;
  }

  lemma MoverSeesTruth(pf: Platform, ids: set<CacheIdentity>, w: World, i: nat, c: Choice)
    requires Faithful(pf) && Inv(pf, w) && Known(pf, ids, w) && AllEntriesValid(pf, w.tree) && NobodyMoves(w)
    requires i in w.procs && ViewTrue(pf, w.tree, w.procs[i]) && !Misread(pf, w, Advance(i, c))
    ensures MoverSees(pf, Next(pf, w, Advance(i, c)), i)
  {
    hide LocksOk, TransactionsPrivate, StageOk, SuspectOk, ViewTrue, StepPublish, StepQuarantine, StepRead, StepLock, Faithful, Known, AllEntriesValid, EntryValid, NobodyMoves;
    var me := w.procs[i];
    var pc := me.pc;
    assert ProcessOk(pf, w.tree, w.names, me);
    if pc.AwaitLock? || pc.Release? {
      LockerSeesTruth(pf, w, i, c);
    } else if me.job.Read? && pc.ScanRead? {
      ReaderSeesTruth(pf, ids, w, i, c);
    } else if me.job.Read? {
      OtherReaderSeesTruth(pf, w, i, c);
    } else if me.job.Quarantine? && pc.ScanSuspect? {
      SuspectIsThere(pf, w.tree, me);
      SuspecterSeesTruth(pf, ids, w, i, c);
    } else if me.job.Quarantine? {
      QuarantinerSeesTruth(pf, w, i, c);
    } else if pc.ScanExisting? || pc.ScanWinner? {
      ScannerSeesTruth(pf, ids, w, i, c);
    } else if pc.ScanPublished? {
      CreatorSeesTruth(pf, ids, w, i, c);
    } else if pc.Rename? {
      RenamerSeesTruth(pf, w, i, c);
    } else if pc.Cleanup? {
      CleanerSeesTruth(pf, w, i, c);
    } else {
      WriterSeesTruth(pf, w, i, c);
    }
  }

  lemma SuspectIsThere(pf: Platform, tree: Tree, me: Process)
    requires Faithful(pf) && AllEntriesValid(pf, tree) && ViewTrue(pf, tree, me) && me.pc.ScanSuspect?
    ensures ValidAt(pf, tree, Dest(pf, me))
  {
    hide EntryValid, IsEntryPath, Agrees, IsTransactionPath, IsQuarantinePath;
    DestIsEntry(pf, me);
  }

  ghost predicate CreatesOnlyIf(w: World, w': World, i: nat, already: bool) {
    i in w'.procs && (Created(w'.procs[i]) ==> already)
  }

  lemma LockStepCreatesNothing(pf: Platform, w: World, i: nat, c: Choice)
    requires i in w.procs
    ensures CreatesOnlyIf(w, StepLock(pf, w, i, c), i, Created(w.procs[i]))
  {
    hide CacheKey, Unlock;
  }

  lemma WritingCreatesNothing(pf: Platform, w: World, i: nat, c: Choice)
    requires i in w.procs && w.procs[i].job.Publish?
    requires WritesTransaction(w.procs[i].pc)
    ensures CreatesOnlyIf(w, StepPublish(pf, w, i, c), i, Created(w.procs[i]))
  {
    hide Look, HasFile, MakeManifest, MakeMarker, CacheKey, MoveDirectory, TransactionPath;
  }

  lemma OtherStepsCreateNothing(pf: Platform, w: World, i: nat, c: Choice)
    requires i in w.procs && w.procs[i].job.Publish?
    requires !WritesTransaction(w.procs[i].pc) && !w.procs[i].pc.Rename?
    ensures CreatesOnlyIf(w, StepPublish(pf, w, i, c), i, Created(w.procs[i]))
  {
    hide Look, HasFile, CacheKey, MoveDirectory, IsSha256, TransactionPath, Matches;
  }

  /** A publisher becomes a creator only by renaming onto a free name. */
  lemma CreationNeedsFreeName(pf: Platform, w: World, i: nat, c: Choice)
    requires i in w.procs && w.procs[i].job.Publish?
    requires var w' := Next(pf, w, Advance(i, c)); i in w'.procs && Created(w'.procs[i])
    ensures Created(w.procs[i]) || Dest(pf, w.procs[i]) !in w.tree
  {
    hide Created, StepLock, StepRead, StepQuarantine;
    var pc := w.procs[i].pc;
    if pc.AwaitLock? || pc.Release? {
      LockStepCreatesNothing(pf, w, i, c);
      hide StepPublish;
    } else if pc.Rename? {
      RenameCreatesIf(pf, w, i, c);
      hide StepPublish;
    } else if WritesTransaction(pc) {
      WritingCreatesNothing(pf, w, i, c);
      hide StepPublish;
    } else {
      OtherStepsCreateNothing(pf, w, i, c);
      hide StepPublish;
    }
  }

  lemma RenameCreatesIf(pf: Platform, w: World, i: nat, c: Choice)
    requires i in w.procs && w.procs[i].job.Publish? && w.procs[i].pc.Rename?
    ensures CreatesOnlyIf(w, StepPublish(pf, w, i, c), i, Dest(pf, w.procs[i]) !in w.tree)
  {
    hide CacheKey, MoveDirectory, TransactionPath;
  }

  /** Where a creator stands, its entry stands too. */
  lemma CreatorHasEntry(pf: Platform, tree: Tree, me: Process)
    requires ViewTrue(pf, tree, me) && Created(me)
    ensures Dest(pf, me) in tree && me.job.Publish?
  {
    hide Agrees, Matches, CacheKey, ValidateDirectory;
  }

  lemma AdvanceKeepsOneCreator(pf: Platform, ids: set<CacheIdentity>, w: World, i: nat, c: Choice)
    requires Faithful(pf) && Calm(pf, ids, w) && i in w.procs && !Misread(pf, w, Advance(i, c))
    ensures OneCreator(pf, Next(pf, w, Advance(i, c)).procs)
  {
    hide Next, Created, ViewTrue, LocksOk, TransactionsPrivate, ProcessOk, Known, Misread;
    hide AllEntriesValid, Faithful, Touches, LockStep, NameStep, CacheKey;
    var w' := Next(pf, w, Advance(i, c));
    InvFootprint(pf, w, i, c, Path("", ""));
    CalmMovesNothing(pf, ids, w);
    MoverSeesTruth(pf, ids, w, i, c);
    forall j | j in w.procs && j != i && Key(pf, w.procs[j]) == Key(pf, w.procs[i]) && Created(w.procs[j]) && Created(w'.procs[i])
      ensures false
    {
      CreatorHasEntry(pf, w.tree, w.procs[j]);
      CreatorHasEntry(pf, w'.tree, w'.procs[i]);
      CreationNeedsFreeName(pf, w, i, c);
    }
  }

  lemma CalmMovesNothing(pf: Platform, ids: set<CacheIdentity>, w: World)
    requires Calm(pf, ids, w)
    ensures NobodyMoves(w)
  {
    hide Inv, Known, AllEntriesValid, OneCreator, EntryScan, OutcomeOf;
    forall i | i in w.procs
      ensures !w.procs[i].pc.MoveAside?
    {
      assert ViewTrue(pf, w.tree, w.procs[i]);
    }
  }

  lemma AdvanceKeepsCalm(pf: Platform, ids: set<CacheIdentity>, w: World, i: nat, c: Choice)
    requires Faithful(pf) && Calm(pf, ids, w) && i in w.procs && !Misread(pf, w, Advance(i, c))
    ensures Calm(pf, ids, Next(pf, w, Advance(i, c)))
  {
    hide Next, ViewTrue, Inv, Known, AllEntriesValid, Faithful, OneCreator, Touches, LockStep, NameStep, Misread;
    var a := Advance(i, c);
    var w' := Next(pf, w, a);
    NextKeepsInv(pf, w, a);
    NextKeepsKnown(pf, ids, w, a);
    EntriesStayValid(pf, w, a);
    AdvanceKeepsOneCreator(pf, ids, w, i, c);
    CalmMovesNothing(pf, ids, w);
    MoverSeesTruth(pf, ids, w, i, c);
    InvFootprint(pf, w, i, c, Path("", ""));
    hide NobodyMoves;
    forall j | j in w'.procs
      ensures ViewTrue(pf, w'.tree, w'.procs[j])
    {
      if j != i {
        BystanderSeesTruth(pf, w, a, w.procs[j]);
      }
    }
  }

  lemma QuietProcess(pf: Platform, tree: Tree, me: Process)
    requires me.pc == StartPc(me.job) || me.pc.Crashed?
    ensures ViewTrue(pf, tree, me) && !Created(me)
  {
  }

  /** Changing one process to one that knows nothing keeps every view and creates nobody. */
  lemma QuietChange(pf: Platform, ids: set<CacheIdentity>, w: World, procs': map<nat, Process>, i: nat)
    requires Calm(pf, ids, w) && i in procs' && procs' == w.procs[i := procs'[i]]
    requires ViewTrue(pf, w.tree, procs'[i]) && !Created(procs'[i])
    ensures OneCreator(pf, procs') && forall j :: j in procs' ==> ViewTrue(pf, w.tree, procs'[j])
  {
    hide Inv, Known, AllEntriesValid, ViewTrue, Created, CacheKey;
  }

  /** Launches and crashes change one process and neither the tree nor a view of it. */
  lemma RestKeepsCalm(pf: Platform, ids: set<CacheIdentity>, w: World, a: Action)
    requires Faithful(pf) && Calm(pf, ids, w) && (a.Launch? || a.Kill?) && (a.Launch? ==> a.identity in ids)
    ensures Calm(pf, ids, Next(pf, w, a))
  {
    hide Inv, Known, Faithful, AllEntriesValid, OneCreator, ViewTrue, Created, CacheKey, ValidIdentity, Unlock;
    NextKeepsInv(pf, w, a);
    NextKeepsKnown(pf, ids, w, a);
    var w' := Next(pf, w, a);
    if w' != w {
      QuietProcess(pf, w.tree, w'.procs[a.pid]);
      QuietChange(pf, ids, w, w'.procs, a.pid);
    }
  }

  /** The agreement invariant survives every step but outside damage and a misreading. */
  lemma NextKeepsCalm(pf: Platform, ids: set<CacheIdentity>, w: World, a: Action)
    requires Faithful(pf) && Calm(pf, ids, w) && Undisturbed(pf, ids, w, a)
    ensures Calm(pf, ids, Next(pf, w, a))
  {
    hide Calm, Faithful, StepPublish, StepRead, StepQuarantine, StepLock, ValidIdentity, Misread;
    if a.Advance? && a.pid in w.procs {
      AdvanceKeepsCalm(pf, ids, w, a.pid, a.choice);
    } else if a.Launch? || a.Kill? {
      RestKeepsCalm(pf, ids, w, a);
    }
  }

  lemma {:induction false} RunKeepsCalm(pf: Platform, ids: set<CacheIdentity>, w: World, actions: seq<Action>)
    requires Faithful(pf) && Calm(pf, ids, w) && NoDamage(actions) && LaunchesFrom(actions, ids) && NoMisread(pf, w, actions)
    ensures Calm(pf, ids, Run(pf, w, actions))
    decreases |actions|
  {
    hide Calm, Faithful, Next, Misread;
    if actions != [] {
      NextKeepsCalm(pf, ids, w, actions[0]);
      RunKeepsCalm(pf, ids, Next(pf, w, actions[0]), actions[1..]);
    }
  }

  lemma CalmStart(pf: Platform, ids: set<CacheIdentity>, w: World)
    requires StartsFrom(pf, ids, w) && AllEntriesValid(pf, w.tree)
    ensures Calm(pf, ids, w)
  {
    hide EntryValid, IsEntryPath, EntryIdentity, CollisionFree;
    InitialInv(pf, w);
  }

  /** A step adds, beside the entries, only transaction directories. */
  lemma CalmLeavesOnlyTransactions(pf: Platform, ids: set<CacheIdentity>, w: World, a: Action, p: Path)
    requires Faithful(pf) && Inv(pf, w) && NobodyMoves(w) && !a.Damage? && !IsEntryPath(p)
    requires p !in w.tree && p in Next(pf, w, a).tree
    ensures IsTransactionPath(p)
  {
    hide Faithful, EntryValid, IsEntryPath, IsTransactionPath, IsQuarantinePath, ValidIdentity, StepPublish, StepRead, StepLock, StepQuarantine;
    hide LockStep, NameStep, LocksOk, StageOk, SuspectOk, PcFits;
    if a.Advance? && a.pid in w.procs {
      var w' := Next(pf, w, a);
      InvFootprint(pf, w, a.pid, a.choice, p);
      AdvanceKeepsInv(pf, w, a.pid, a.choice);
      assert ProcessOk(pf, w.tree, w.names, w.procs[a.pid]);
      assert ProcessOk(pf, w'.tree, w'.names, w'.procs[a.pid]);
      DestIsEntry(pf, w.procs[a.pid]);
    }
  }

  /** Every entry of the first tree is in the second, unchanged; what the second has besides
      are entries and transaction directories. */
  ghost predicate OnlyEntriesAdded(tree: Tree, tree': Tree) {
    && (forall p :: p in tree && IsEntryPath(p) ==> p in tree' && tree'[p] == tree[p])
    && (forall p :: p in tree' && p !in tree ==> IsEntryPath(p) || IsTransactionPath(p))
  }

  lemma StepAddsOnlyEntries(pf: Platform, ids: set<CacheIdentity>, w: World, a: Action)
    requires Faithful(pf) && Calm(pf, ids, w) && !a.Damage?
    ensures OnlyEntriesAdded(w.tree, Next(pf, w, a).tree)
  {
    CalmMovesNothing(pf, ids, w);
    assert Inv(pf, w);
    hide Next, Inv, Faithful, EntryValid, IsEntryPath, IsTransactionPath, Calm;
    var w' := Next(pf, w, a);
    forall p | p in w.tree && IsEntryPath(p)
      ensures p in w'.tree && w'.tree[p] == w.tree[p]
    {
      EntryUntouched(pf, w, a, p);
    }
    hide NobodyMoves;
    forall p | p in w'.tree && p !in w.tree
      ensures IsEntryPath(p) || IsTransactionPath(p)
    {
      if !IsEntryPath(p) {
        CalmLeavesOnlyTransactions(pf, ids, w, a, p);
      }
    }
  }

  lemma {:induction false} CalmHistory(pf: Platform, ids: set<CacheIdentity>, w: World, actions: seq<Action>)
    requires Faithful(pf) && Calm(pf, ids, w) && NoDamage(actions) && LaunchesFrom(actions, ids) && NoMisread(pf, w, actions)
    ensures OnlyEntriesAdded(w.tree, Run(pf, w, actions).tree)
    decreases |actions|
  {
    hide Calm, Faithful, Next, IsEntryPath, IsTransactionPath, Misread;
    if actions != [] {
      NextKeepsCalm(pf, ids, w, actions[0]);
      StepAddsOnlyEntries(pf, ids, w, actions[0]);
      CalmHistory(pf, ids, Next(pf, w, actions[0]), actions[1..]);
    }
  }

  lemma {:induction false} HistoryKeepsEntriesValid(pf: Platform, w: World, actions: seq<Action>)
    requires Faithful(pf) && Inv(pf, w) && AllEntriesValid(pf, w.tree) && NoDamage(actions)
    ensures AllEntriesValid(pf, Run(pf, w, actions).tree)
    decreases |actions|
  {
    hide Inv, Faithful, Next, AllEntriesValid;
    if actions != [] {
      NextKeepsInv(pf, w, actions[0]);
      EntriesStayValid(pf, w, actions[0]);
      HistoryKeepsEntriesValid(pf, Next(pf, w, actions[0]), actions[1..]);
    }
  }

  /** Any number of publishers, readers and quarantiners, in any interleaving, crashing and
      failing at any step, with source files changing under the copy: as long as nobody damages
      an entry from outside, every entry to be seen is whole and valid. If moreover no
      quarantiner misreads an entry, no entry changes or disappears, and all that is left
      besides are transaction directories. */
  lemma EveryHistoryIsSafe(pf: Platform, ids: set<CacheIdentity>, w: World, actions: seq<Action>)
    requires Faithful(pf) && StartsFrom(pf, ids, w) && AllEntriesValid(pf, w.tree) && NoDamage(actions) && LaunchesFrom(actions, ids)
    ensures AllEntriesValid(pf, Run(pf, w, actions).tree)
    ensures NoMisread(pf, w, actions) ==> OnlyEntriesAdded(w.tree, Run(pf, w, actions).tree)
  {
    hide Inv, Faithful, Run, AllEntriesValid, OnlyEntriesAdded, NoMisread, Calm, StartsFrom;
    InitialKnown(pf, ids, w, Path("", ""));
    CalmStart(pf, ids, w);
    HistoryKeepsEntriesValid(pf, w, actions);
    if NoMisread(pf, w, actions) {
      CalmHistory(pf, ids, w, actions);
    }
  }

  // ----- what publishers are told -----

  /** The result a finished process returned, if it returned one. */
  function Reported(w: World, i: nat): Option<Outcome> {
    if i in w.procs && w.procs[i].pc.Done? then Some(w.procs[i].pc.outcome) else None
  }

  lemma TrueReport(pf: Platform, tree: Tree, me: Process)
    requires ViewTrue(pf, tree, me) && me.pc.Done? && me.pc.outcome.Published?
    ensures me.job.Publish? && Matches(me.job, me.pc.outcome.artifact) && EntryVerdict(pf, tree, me.identity) == Ok(me.pc.outcome.artifact)
    ensures Created(me) <==> !me.pc.outcome.reusedExisting
  {
    hide Agrees, EntryVerdict, CacheKey;
  }

  lemma CalmProcesses(pf: Platform, ids: set<CacheIdentity>, w: World, i: nat, j: nat)
    requires Calm(pf, ids, w) && i in w.procs && j in w.procs && i != j && w.procs[i].identity == w.procs[j].identity
    ensures ViewTrue(pf, w.tree, w.procs[i]) && ViewTrue(pf, w.tree, w.procs[j])
    ensures !(Created(w.procs[i]) && Created(w.procs[j]))
  {
    hide Inv, Known, AllEntriesValid, ViewTrue, Created, CacheKey;
    assert Key(pf, w.procs[i]) == Key(pf, w.procs[j]);
  }

  /** Publishers of one identity, with or without the lock: those that succeed report the
      same artifact, which is the one expected by each of them; at most one says it created
      the entry; a publisher expecting another digest or size does not succeed. */
  lemma PublishersAgree(pf: Platform, ids: set<CacheIdentity>, w: World, actions: seq<Action>, i: nat, j: nat)
    requires Faithful(pf) && StartsFrom(pf, ids, w) && AllEntriesValid(pf, w.tree)
    requires NoDamage(actions) && LaunchesFrom(actions, ids) && NoMisread(pf, w, actions)
    requires var e := Run(pf, w, actions);
             && i != j && Reported(e, i).Some? && Reported(e, i).value.Published?
             && j in e.procs && e.procs[j].job.Publish? && e.procs[j].identity == e.procs[i].identity
    ensures var e := Run(pf, w, actions);
            var mine := Reported(e, i).value;
            && e.procs[i].job.Publish? && Matches(e.procs[i].job, mine.artifact)
            && (Reported(e, j).Some? && Reported(e, j).value.Published? ==>
                  && Reported(e, j).value.artifact == mine.artifact
                  && (mine.reusedExisting || Reported(e, j).value.reusedExisting))
            && ((e.procs[j].job.hash != mine.artifact.payloadSha256 || e.procs[j].job.size != mine.artifact.payloadSizeBytes) ==>
                  !(Reported(e, j).Some? && Reported(e, j).value.Published?))
  {
    hide Faithful, AllEntriesValid, Run, CacheKey, EntryVerdict, ViewTrue, Created, Calm, Initial, StartsFrom, EntryScan, OutcomeOf, NoMisread;
    CalmStart(pf, ids, w);
    RunKeepsCalm(pf, ids, w, actions);
    var e := Run(pf, w, actions);
    CalmProcesses(pf, ids, e, i, j);
    TrueReport(pf, e.tree, e.procs[i]);
    if Reported(e, j).Some? && Reported(e, j).value.Published? {
      TrueReport(pf, e.tree, e.procs[j]);
    }
  }

  // ----- what readers are told -----

  lemma LoadedIsTrue(pf: Platform, ids: set<CacheIdentity>, w: World, i: nat, a: CacheArtifact)
    requires Calm(pf, ids, w) && Reported(w, i) == Some(Loaded(a))
    ensures ReadValidated(pf, w.tree, w.procs[i].identity) == Ok(Some(a))
  {
    hide Inv, Known, AllEntriesValid, OneCreator, CacheKey, ValidateDirectory;
    assert ViewTrue(pf, w.tree, w.procs[i]);
  }

  /** The reader was told that its entry is broken. */
  predicate ToldBroken(w: World, i: nat) {
    Reported(w, i) == Some(Failed(IntegrityError)) && w.procs[i].job.Read?
  }

  /** An access of the reader's own validation fails, after the listing. */
  predicate ReadFails(w: World, a: Action, i: nat) {
    a == Advance(i, Fault) && i in w.procs && w.procs[i].pc.ScanRead? && !w.procs[i].pc.scan.Listing?
  }

  ghost predicate EverReadFails(pf: Platform, w: World, actions: seq<Action>, i: nat)
    decreases |actions|
  {
    actions != [] && (ReadFails(w, actions[0], i) || EverReadFails(pf, Next(pf, w, actions[0]), actions[1..], i))
  }

  lemma ReaderStep(pf: Platform, ids: set<CacheIdentity>, w: World, i: nat, c: Choice)
    requires Faithful(pf) && Known(pf, ids, w) && AllEntriesValid(pf, w.tree) && i in w.procs && w.procs[i].job.Read?
    requires ViewTrue(pf, w.tree, w.procs[i]) && PcFits(w.procs[i]) && !w.procs[i].pc.AwaitLock? && !w.procs[i].pc.Release?
    ensures ToldBroken(StepRead(pf, w, i, c), i) <==> ToldBroken(w, i) || ReadFails(w, Advance(i, c), i)
  {
    hide Faithful, Known, AllEntriesValid, Look, EntryVerdict, EntryValid, Matches, CacheKey, Agrees;
    var me := w.procs[i];
    if me.pc.ScanRead? {
      EntryScanEndsWell(pf, ids, w, i, me.pc.scan, c);
    }
  }

  /** A reader is told of a broken entry in the step in which its own read fails, and only then. */
  lemma ToldBrokenIff(pf: Platform, ids: set<CacheIdentity>, w: World, a: Action, i: nat)
    requires Faithful(pf) && Calm(pf, ids, w) && Undisturbed(pf, ids, w, a)
    ensures ToldBroken(Next(pf, w, a), i) <==> ToldBroken(w, i) || ReadFails(w, a, i)
  {
    hide Faithful, LocksOk, TransactionsPrivate, StageOk, SuspectOk, Known, AllEntriesValid, OneCreator, ViewTrue, CacheKey, ValidIdentity, Misread;
    hide StepPublish, StepRead, StepQuarantine, StepLock, LockStep, NameStep, Touches, Unlock;
    if i in w.procs {
      assert ProcessOk(pf, w.tree, w.names, w.procs[i]) && ViewTrue(pf, w.tree, w.procs[i]);
    }
    if a.Advance? && a.pid in w.procs {
      InvFootprint(pf, w, a.pid, a.choice, Path("", ""));
      if a.pid == i && w.procs[i].job.Read? {
        ReaderStep(pf, ids, w, i, a.choice);
      }
    }
  }

  lemma {:induction false} RunTellsBrokenIff(pf: Platform, ids: set<CacheIdentity>, w: World, actions: seq<Action>, i: nat)
    requires Faithful(pf) && Calm(pf, ids, w)
    requires NoDamage(actions) && LaunchesFrom(actions, ids) && NoMisread(pf, w, actions)
    ensures ToldBroken(Run(pf, w, actions), i) <==> ToldBroken(w, i) || EverReadFails(pf, w, actions, i)
    decreases |actions|
  {
    hide Faithful, Calm, Next, Misread, ToldBroken, ReadFails;
    if actions != [] {
      ToldBrokenIff(pf, ids, w, actions[0], i);
      NextKeepsCalm(pf, ids, w, actions[0]);
      RunTellsBrokenIff(pf, ids, Next(pf, w, actions[0]), actions[1..], i);
    }
  }

  /** A reader that was told an artifact was told the truth about the entry now in the cache; and
      it was told of a broken entry exactly if a read of its own failed. */
  lemma ReadersSeeWholeEntries(pf: Platform, ids: set<CacheIdentity>, w: World, actions: seq<Action>, i: nat)
    requires Faithful(pf) && StartsFrom(pf, ids, w) && AllEntriesValid(pf, w.tree)
    requires NoDamage(actions) && LaunchesFrom(actions, ids) && NoMisread(pf, w, actions)
    ensures var e := Run(pf, w, actions);
            && (forall a :: Reported(e, i) == Some(Loaded(a)) ==> ReadValidated(pf, e.tree, e.procs[i].identity) == Ok(Some(a)))
            && (ToldBroken(e, i) <==> EverReadFails(pf, w, actions, i))
  {
    hide Faithful, AllEntriesValid, Run, Calm, NoMisread, EverReadFails, ReadValidated;
    CalmStart(pf, ids, w);
    RunKeepsCalm(pf, ids, w, actions);
    RunTellsBrokenIff(pf, ids, w, actions, i);
    var e := Run(pf, w, actions);
    forall a | Reported(e, i) == Some(Loaded(a))
      ensures ReadValidated(pf, e.tree, e.procs[i].identity) == Ok(Some(a))
    {
      LoadedIsTrue(pf, ids, e, i, a);
    }
  }
}
