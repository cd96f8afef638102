/** Safety of the publish protocol over every history: which entries can be seen, which can
    disappear, and the exact circumstance in which a valid one does. */
module ProtocolSafety {
  import opened Wrappers
  import opened CacheContracts
  import opened CacheFiles
  import opened PublishProtocol
  import opened ProtocolInvariant

  /** A fresh start over whatever the cache root already holds. */
  predicate Initial(w: World) {
    w.procs == map[] && w.locks == map[] && w.names == {}
  }

  predicate Hits(a: Action, p: Path) {
    a.Damage? && a.path == p
  }

  /** Nobody outside the protocol touches the directory at `p`. */
  predicate Spared(actions: seq<Action>, p: Path) {
    forall k :: 0 <= k < |actions| ==> !Hits(actions[k], p)
  }

  /** The invariant holds after every history. */
  lemma {:induction false} RunKeepsInv(pf: Platform, w: World, actions: seq<Action>)
    requires Faithful(pf) && Inv(pf, w)
    ensures Inv(pf, Run(pf, w, actions))
    decreases |actions|
  {
    hide Inv, Next, Faithful;
    if actions != [] {
      NextKeepsInv(pf, w, actions[0]);
      RunKeepsInv(pf, Next(pf, w, actions[0]), actions[1..]);
    }
  }

  lemma InitialInv(pf: Platform, w: World)
    requires Initial(w)
    ensures Inv(pf, w)
  {
  }

  // ----- one step -----

  predicate ValidAt(pf: Platform, tree: Tree, p: Path) {
    p in tree && EntryValid(pf, p, tree[p])
  }

  /** A quarantiner has made up its mind to move the entry at `p`. */
  predicate AboutToMove(pf: Platform, w: World, i: nat, p: Path) {
    i in w.procs && w.procs[i].job.Quarantine? && w.procs[i].pc.MoveAside? && Dest(pf, w.procs[i]) == p
  }

  predicate Moves(pf: Platform, w: World, a: Action, p: Path) {
    a.Advance? && AboutToMove(pf, w, a.pid, p) && a.choice.Name? && QuarantinePath(Key(pf, w.procs[a.pid]), a.choice.suffix) !in w.tree
  }

  /** Entries come into being only by the rename of a sealed transaction, and go away only
      when a quarantiner moves them; in between no process changes them. */
  lemma StepAtEntry(pf: Platform, w: World, i: nat, c: Choice, p: Path)
    requires Faithful(pf) && Inv(pf, w) && i in w.procs && IsEntryPath(p)
    ensures var w' := Next(pf, w, Advance(i, c));
            && (p in w.tree && p in w'.tree ==> w'.tree[p] == w.tree[p])
            && (p !in w.tree && p in w'.tree ==>
                  w.procs[i].job.Publish? && Dest(pf, w.procs[i]) == p && Sealed(pf, w.procs[i], w'.tree[p]))
            && (p in w.tree && p !in w'.tree ==> AboutToMove(pf, w, i, p))
  {
    hide Faithful, Next, EntryValid, Sealed, IsEntryPath, LocksOk, ValidIdentity, Agrees, NameStep, LockStep, TransactionsPrivate;
    var w' := Next(pf, w, Advance(i, c));
    var me := w.procs[i];
    InvFootprint(pf, w, i, c, p);
    assert ProcessOk(pf, w.tree, w.names, me);
    if TransactionOf(me.pc).Some? {
      NamesAreNotEntries(pf, w, TransactionOf(me.pc).value);
    }
    if TransactionOf(w'.procs[i].pc).Some? {
      AdvanceKeepsInv(pf, w, i, c);
      assert ProcessOk(pf, w'.tree, w'.names, w'.procs[i]);
      NamesAreNotEntries(pf, w', TransactionOf(w'.procs[i].pc).value);
    }
    if IsQuarantinePath(p) {
      OtherPathsAreNotEntries(p);
    }
  }

  lemma NamesAreNotEntries(pf: Platform, w: World, t: Path)
    requires Inv(pf, w) && t in w.names
    ensures IsTransactionPath(t) && !IsEntryPath(t)
  {
    hide LocksOk, ProcessOk;
    OtherPathsAreNotEntries(t);
  }

  /** What a step does at an entry name that it does not damage: nothing, or a quarantiner
      moves the entry, or a valid entry appears. */
  lemma NextAtEntry(pf: Platform, w: World, a: Action, p: Path)
    requires Faithful(pf) && Inv(pf, w) && IsEntryPath(p) && !Hits(a, p)
    ensures var w' := Next(pf, w, a);
            && (p in w.tree && p in w'.tree ==> w'.tree[p] == w.tree[p])
            && (p in w.tree && p !in w'.tree ==> a.Advance? && AboutToMove(pf, w, a.pid, p))
            && (p !in w.tree && p in w'.tree ==> EntryValid(pf, p, w'.tree[p]))
  {
    hide Inv, Faithful, EntryValid, IsEntryPath, ValidIdentity, StepPublish, StepQuarantine, StepRead, StepLock, Sealed;
    if a.Advance? && a.pid in w.procs {
      StepAtEntry(pf, w, a.pid, a.choice, p);
      var w' := Next(pf, w, a);
      if p !in w.tree && p in w'.tree {
        SealedIsValidEntry(pf, w.procs[a.pid], w'.tree[p]);
      }
    }
  }

  /** The exact condition for an entry, valid or not, to leave its place in a step. */
  lemma LeavesIff(pf: Platform, w: World, a: Action, p: Path)
    requires Faithful(pf) && Inv(pf, w) && IsEntryPath(p) && p in w.tree
    ensures p !in Next(pf, w, a).tree <==> Moves(pf, w, a, p)
  {
    hide Inv, Faithful, EntryValid, IsEntryPath, ValidIdentity, CacheKey;
    if Moves(pf, w, a, p) {
      OtherPathsAreNotEntries(QuarantinePath(Key(pf, w.procs[a.pid]), a.choice.suffix));
    } else if !Hits(a, p) {
      NextAtEntry(pf, w, a, p);
      hide StepPublish, StepRead, StepLock;
    }
  }

  /** An entry that leaves the tree is kept, file by file, in quarantine. */
  lemma QuarantineLosesNothing(pf: Platform, w: World, a: Action, p: Path)
    requires Faithful(pf) && Inv(pf, w) && IsEntryPath(p)
    requires p in w.tree && p !in Next(pf, w, a).tree
    ensures exists q :: IsQuarantinePath(q) && q !in w.tree && q in Next(pf, w, a).tree && Next(pf, w, a).tree[q] == w.tree[p]
  {
    hide Next, Inv, Faithful, IsEntryPath, EntryValid, IsQuarantinePath;
    LeavesIff(pf, w, a, p);
    MovedTo(pf, w, a.pid, a.choice);
  }

  lemma MovedTo(pf: Platform, w: World, i: nat, c: Choice)
    requires i in w.procs && w.procs[i].job.Quarantine? && w.procs[i].pc.MoveAside?
    requires Dest(pf, w.procs[i]) in w.tree && Dest(pf, w.procs[i]) !in Next(pf, w, Advance(i, c)).tree
    ensures var w' := Next(pf, w, Advance(i, c));
            w'.procs[i].pc.Release? && w'.procs[i].pc.outcome.MovedAside? &&
            var q := w'.procs[i].pc.outcome.to;
            IsQuarantinePath(q) && q !in w.tree && q in w'.tree && w'.tree[q] == w.tree[Dest(pf, w.procs[i])]
  {
    hide CacheKey;
  }

  /** What else a step can leave behind: transaction and quarantine directories only. */
  lemma NextLeavesOnlyTransactions(pf: Platform, w: World, a: Action, p: Path)
    requires Faithful(pf) && Inv(pf, w) && !IsEntryPath(p)
    requires p !in w.tree && p in Next(pf, w, a).tree
    ensures IsTransactionPath(p) || IsQuarantinePath(p)
  {
    hide Faithful, EntryValid, IsEntryPath, IsTransactionPath, IsQuarantinePath, ValidIdentity, StepPublish, StepRead;
    hide StepLock, StepQuarantine, LockStep, NameStep, LocksOk, StageOk, Agrees, SuspectOk, PcFits;
    if a.Advance? && a.pid in w.procs {
      var w' := Next(pf, w, a);
      InvFootprint(pf, w, a.pid, a.choice, p);
      AdvanceKeepsInv(pf, w, a.pid, a.choice);
      assert ProcessOk(pf, w.tree, w.names, w.procs[a.pid]);
      assert ProcessOk(pf, w'.tree, w'.names, w'.procs[a.pid]);
      DestIsEntry(pf, w.procs[a.pid]);
    }
  }

  // ----- whose entry it is -----

  /** The identities `ids` cover every process and every valid entry, and their keys differ. */
  ghost predicate Known(pf: Platform, ids: set<CacheIdentity>, w: World) {
    && CollisionFree(pf, ids)
    && (forall i :: i in w.procs ==> w.procs[i].identity in ids)
    && (forall p :: IsEntryPath(p) && ValidAt(pf, w.tree, p) ==> EntryIdentity(pf, p, w.tree[p]) in ids)
  }

  /** The hypothesis on where a history starts: nobody at work, and the identities of its valid
      entries are among `ids`. */
  ghost predicate StartsFrom(pf: Platform, ids: set<CacheIdentity>, w: World) {
    && Initial(w) && CollisionFree(pf, ids)
    && (forall p :: IsEntryPath(p) && ValidAt(pf, w.tree, p) ==> EntryIdentity(pf, p, w.tree[p]) in ids)
  }

  lemma KnownEntryServes(pf: Platform, ids: set<CacheIdentity>, w: World, i: nat)
    requires Faithful(pf) && Known(pf, ids, w) && i in w.procs && ValidAt(pf, w.tree, Dest(pf, w.procs[i]))
    ensures var me, d := w.procs[i], w.tree[Dest(pf, w.procs[i])];
            EntryIdentity(pf, Dest(pf, me), d) == me.identity && ValidateDirectory(pf, Key(pf, me), d, Key(pf, me), me.identity, true).Ok?
  {
    var me := w.procs[i];
    DestIsEntry(pf, me);
    ValidEntryServesItsKey(pf, w.tree[Dest(pf, me)], me.identity);
    hide Faithful, EntryValid, IsEntryPath, ValidateDirectory, EntryIdentity;
  }

  lemma NewEntryIsOwn(pf: Platform, w: World, a: Action, p: Path)
    requires Faithful(pf) && Inv(pf, w) && IsEntryPath(p) && p !in w.tree && ValidAt(pf, Next(pf, w, a).tree, p)
    ensures a.Advance? && a.pid in w.procs && EntryIdentity(pf, p, Next(pf, w, a).tree[p]) == w.procs[a.pid].identity
  {
    hide Inv, Faithful, EntryValid, IsEntryPath, ValidIdentity, StepPublish, StepQuarantine, StepRead, StepLock, Sealed, EntryIdentity;
    if a.Advance? && a.pid in w.procs {
      StepAtEntry(pf, w, a.pid, a.choice, p);
      SealedIsValidEntry(pf, w.procs[a.pid], Next(pf, w, a).tree[p]);
    }
  }

  lemma ProcessesKeepIdentity(pf: Platform, w: World, a: Action, i: nat)
    requires Inv(pf, w) && i in Next(pf, w, a).procs
    ensures var w' := Next(pf, w, a);
            if i in w.procs then w'.procs[i].identity == w.procs[i].identity else a.Launch? && w'.procs[i].identity == a.identity
  {
    hide Inv, ValidIdentity, StepPublish, StepQuarantine, StepRead, StepLock, LockStep, NameStep, Touches;
    if a.Advance? && a.pid in w.procs {
      InvFootprint(pf, w, a.pid, a.choice, Path("", ""));
      hide Next;
    }
  }

  lemma NextKeepsKnown(pf: Platform, ids: set<CacheIdentity>, w: World, a: Action)
    requires Faithful(pf) && Inv(pf, w) && Known(pf, ids, w) && (a.Launch? ==> a.identity in ids)
    ensures Known(pf, ids, Next(pf, w, a))
  {
    hide Faithful, Inv, Next, EntryValid, EntryIdentity, IsEntryPath, CollisionFree;
    var w' := Next(pf, w, a);
    forall i | i in w'.procs
      ensures w'.procs[i].identity in ids
    {
      ProcessesKeepIdentity(pf, w, a, i);
    }
    forall p | IsEntryPath(p) && ValidAt(pf, w'.tree, p)
      ensures EntryIdentity(pf, p, w'.tree[p]) in ids
    {
      if p !in w.tree {
        NewEntryIsOwn(pf, w, a, p);
      } else if Hits(a, p) {
        DamageIsInvalid(pf, w, a, p);
      } else {
        NextAtEntry(pf, w, a, p);
      }
    }
  }

  /** Damage leaves nothing valid behind that was not there before. */
  lemma DamageIsInvalid(pf: Platform, w: World, a: Action, p: Path)
    requires Hits(a, p) && ValidAt(pf, Next(pf, w, a).tree, p)
    ensures p in w.tree && Next(pf, w, a).tree[p] == w.tree[p]
  {
    hide EntryValid, IsEntryPath;
  }

  // ----- when a quarantiner is wrong -----

  /** Nobody is about to move the entry at `p` while it is valid. */
  ghost predicate FairTo(pf: Platform, w: World, p: Path) {
    forall i :: AboutToMove(pf, w, i, p) ==> !ValidAt(pf, w.tree, p)
  }

  /** Looking at a valid entry ends in an integrity error exactly when an access after the
      listing fails. */
  lemma LookAtValidEntry(pf: Platform, ids: set<CacheIdentity>, w: World, i: nat, s: Scan, c: Choice)
    requires Faithful(pf) && Known(pf, ids, w) && i in w.procs
    requires ValidAt(pf, w.tree, Dest(pf, w.procs[i])) && Agrees(pf, s, w.tree[Dest(pf, w.procs[i])])
    ensures var me := w.procs[i];
            var p := Dest(pf, me);
            var step := Look(pf, w.tree, p, me.identity, true, s, c);
            && (step == Finished(Err(IntegrityError)) <==> c.Fault? && !s.Listing?)
            && (step.Finished? && step.verdict.Ok? ==> step.verdict == ValidateDirectory(pf, p.name, w.tree[p], p.name, me.identity, true))
            && (step.Finished? && step.verdict.Err? <==> c.Fault? || c.Abort?)
            && (step.More? ==> Agrees(pf, step.scan, w.tree[p]))
  {
    var me := w.procs[i];
    KnownEntryServes(pf, ids, w, i);
    ScanRefinesValidation(pf, w.tree, Dest(pf, me), me.identity, true, s);
    hide Faithful, Known, EntryValid, EntryIdentity, ValidateDirectory, StepScan, Agrees;
  }

  /** A step makes a mover of the stepping quarantiner only by ending its scan in an integrity
      error. */
  lemma BecomesMover(pf: Platform, w: World, i: nat, c: Choice, p: Path)
    requires Inv(pf, w) && i in w.procs && !AboutToMove(pf, w, i, p)
    ensures AboutToMove(pf, Next(pf, w, Advance(i, c)), i, p) <==>
            (&& w.procs[i].job.Quarantine? && w.procs[i].pc.ScanSuspect? && Dest(pf, w.procs[i]) == p
             && Look(pf, w.tree, p, w.procs[i].identity, true, w.procs[i].pc.scan, c) == Finished(Err(IntegrityError)))
    ensures w.procs[i].job.Quarantine? && w.procs[i].pc.ScanSuspect? ==> Next(pf, w, Advance(i, c)).tree == w.tree
  {
    hide Inv, Look, CacheKey, MoveDirectory, LockStep, NameStep, Touches;
    InvFootprint(pf, w, i, c, Path("", ""));
    if w.procs[i].job.Quarantine? {
      hide StepPublish, StepRead;
    } else {
      hide Next;
    }
  }

  lemma MoverIsMisreader(pf: Platform, ids: set<CacheIdentity>, w: World, i: nat, c: Choice, p: Path)
    requires Faithful(pf) && Inv(pf, w) && Known(pf, ids, w) && i in w.procs && ValidAt(pf, w.tree, p) && !AboutToMove(pf, w, i, p)
    ensures AboutToMove(pf, Next(pf, w, Advance(i, c)), i, p) <==> MisreadOf(pf, w, Advance(i, c), p)
  {
    hide Faithful, Next, LocksOk, TransactionsPrivate, StageOk, EntryValid, Known, Agrees, Look;
    var me := w.procs[i];
    assert ProcessOk(pf, w.tree, w.names, me);
    BecomesMover(pf, w, i, c, p);
    if me.pc.ScanSuspect? && Dest(pf, me) == p {
      LookAtValidEntry(pf, ids, w, i, me.pc.scan, c);
    }
  }

  lemma OthersStay(pf: Platform, w: World, a: Action, i: nat, p: Path)
    requires Inv(pf, w) && !(a.Advance? && a.pid == i)
    ensures AboutToMove(pf, Next(pf, w, a), i, p) ==> AboutToMove(pf, w, i, p)
  {
    hide Inv, ValidIdentity, StepPublish, StepQuarantine, StepRead, StepLock, LockStep, NameStep, Touches, CacheKey;
    if a.Advance? && a.pid in w.procs {
      InvFootprint(pf, w, a.pid, a.choice, Path("", ""));
      hide Next;
    }
  }

  /** A mover keeps its entry in place until it moves it; so if the entry is valid after a step
      it was valid, in the same place, before. */
  lemma MoversEntryStays(pf: Platform, w: World, a: Action, i: nat, p: Path)
    requires Faithful(pf) && Inv(pf, w) && AboutToMove(pf, w, i, p) && IsEntryPath(p) && ValidAt(pf, Next(pf, w, a).tree, p)
    ensures ValidAt(pf, w.tree, p)
  {
    hide Faithful, Next, LocksOk, TransactionsPrivate, StageOk, EntryValid, Agrees, IsEntryPath;
    assert ProcessOk(pf, w.tree, w.names, w.procs[i]);
    if Hits(a, p) {
      DamageIsInvalid(pf, w, a, p);
    } else {
      NextAtEntry(pf, w, a, p);
    }
  }

  lemma ScannersEntryStays(pf: Platform, w: World, i: nat, c: Choice, p: Path)
    requires Faithful(pf) && Inv(pf, w) && i in w.procs && !AboutToMove(pf, w, i, p) && IsEntryPath(p)
    requires AboutToMove(pf, Next(pf, w, Advance(i, c)), i, p) && ValidAt(pf, Next(pf, w, Advance(i, c)).tree, p)
    ensures ValidAt(pf, w.tree, p)
  {
    hide Faithful, Next, LocksOk, TransactionsPrivate, StageOk, EntryValid, Agrees, IsEntryPath, Look;
    assert ProcessOk(pf, w.tree, w.names, w.procs[i]);
    BecomesMover(pf, w, i, c, p);
  }

  /** Fairness to an entry survives every step but a misreading of that entry, damage included. */
  lemma NextKeepsFair(pf: Platform, ids: set<CacheIdentity>, w: World, a: Action, p: Path)
    requires Faithful(pf) && Inv(pf, w) && Known(pf, ids, w) && IsEntryPath(p) && FairTo(pf, w, p) && !MisreadOf(pf, w, a, p)
    ensures FairTo(pf, Next(pf, w, a), p)
  {
    hide Faithful, Inv, Known, Next, EntryValid, IsEntryPath, AboutToMove, MisreadOf, ValidAt;
    var w' := Next(pf, w, a);
    forall i | AboutToMove(pf, w', i, p)
      ensures !ValidAt(pf, w'.tree, p)
    {
      if ValidAt(pf, w'.tree, p) {
        if AboutToMove(pf, w, i, p) {
          MoversEntryStays(pf, w, a, i, p);
        } else if a.Advance? && a.pid == i {
          MoverWasThere(pf, w, i, a.choice, p);
          ScannersEntryStays(pf, w, i, a.choice, p);
          MoverIsMisreader(pf, ids, w, i, a.choice, p);
        } else {
          OthersStay(pf, w, a, i, p);
        }
      }
    }
  }

  lemma MoverWasThere(pf: Platform, w: World, i: nat, c: Choice, p: Path)
    requires AboutToMove(pf, Next(pf, w, Advance(i, c)), i, p)
    ensures i in w.procs
  {
  }

  /** Fairness to a valid entry is lost exactly by a misreading of it. */
  lemma UnfairIffMisread(pf: Platform, ids: set<CacheIdentity>, w: World, a: Action, p: Path)
    requires Faithful(pf) && Inv(pf, w) && Known(pf, ids, w) && IsEntryPath(p) && FairTo(pf, w, p) && ValidAt(pf, w.tree, p)
    ensures FairTo(pf, Next(pf, w, a), p) <==> !MisreadOf(pf, w, a, p)
  {
    hide Faithful, Inv, Known, Next, EntryValid, IsEntryPath, AboutToMove, ValidAt, Look;
    if MisreadOf(pf, w, a, p) {
      MoverIsMisreader(pf, ids, w, a.pid, a.choice, p);
      MisreadKeepsTree(pf, w, a);
    } else {
      NextKeepsFair(pf, ids, w, a, p);
    }
  }

  lemma MisreadKeepsTree(pf: Platform, w: World, a: Action)
    requires Inv(pf, w) && Misread(pf, w, a)
    ensures Next(pf, w, a).tree == w.tree
  {
    hide LocksOk, TransactionsPrivate, StageOk, EntryValid, Look, CacheKey, Agrees, Next;
    assert ProcessOk(pf, w.tree, w.names, w.procs[a.pid]);
    BecomesMover(pf, w, a.pid, a.choice, Dest(pf, w.procs[a.pid]));
  }

  // ----- every history -----

  /** Whatever the history, exceptions, crashes, changing sources and failing reads included, an
      entry name that nobody damages shows a valid entry or nothing. */
  lemma {:induction false} VisibleEntriesAreValid(pf: Platform, w: World, actions: seq<Action>, p: Path)
    requires Faithful(pf) && Inv(pf, w) && IsEntryPath(p) && Spared(actions, p)
    requires p in w.tree ==> EntryValid(pf, p, w.tree[p])
    ensures p in Run(pf, w, actions).tree ==> EntryValid(pf, p, Run(pf, w, actions).tree[p])
    decreases |actions|
  {
    hide Inv, Next, Faithful, EntryValid, IsEntryPath, Hits;
    if actions != [] {
      NextAtEntry(pf, w, actions[0], p);
      NextKeepsInv(pf, w, actions[0]);
      VisibleEntriesAreValid(pf, Next(pf, w, actions[0]), actions[1..], p);
    }
  }

  lemma {:induction false} RunKeepsKnown(pf: Platform, ids: set<CacheIdentity>, w: World, actions: seq<Action>)
    requires Faithful(pf) && Inv(pf, w) && Known(pf, ids, w) && LaunchesFrom(actions, ids)
    ensures Inv(pf, Run(pf, w, actions)) && Known(pf, ids, Run(pf, w, actions))
    decreases |actions|
  {
    hide Inv, Next, Faithful, Known;
    if actions != [] {
      NextKeepsInv(pf, w, actions[0]);
      NextKeepsKnown(pf, ids, w, actions[0]);
      RunKeepsKnown(pf, ids, Next(pf, w, actions[0]), actions[1..]);
    }
  }

  lemma {:induction false} RunKeepsFair(pf: Platform, ids: set<CacheIdentity>, w: World, actions: seq<Action>, p: Path)
    requires Faithful(pf) && Inv(pf, w) && Known(pf, ids, w) && LaunchesFrom(actions, ids)
    requires IsEntryPath(p) && FairTo(pf, w, p) && NeverMisread(pf, w, actions, p)
    ensures FairTo(pf, Run(pf, w, actions), p)
    decreases |actions|
  {
    hide Inv, Next, Faithful, Known, FairTo, IsEntryPath, MisreadOf;
    if actions != [] {
      NextKeepsInv(pf, w, actions[0]);
      NextKeepsKnown(pf, ids, w, actions[0]);
      NextKeepsFair(pf, ids, w, actions[0], p);
      RunKeepsFair(pf, ids, Next(pf, w, actions[0]), actions[1..], p);
    }
  }

  lemma InitialKnown(pf: Platform, ids: set<CacheIdentity>, w: World, p: Path)
    requires StartsFrom(pf, ids, w)
    ensures Inv(pf, w) && Known(pf, ids, w) && FairTo(pf, w, p)
  {
    hide EntryValid, IsEntryPath, EntryIdentity, CollisionFree;
    InitialInv(pf, w);
  }

  /** A valid entry that nobody damages and no quarantiner misreads is there for good, unchanged,
      in every history. */
  lemma {:induction false} UndamagedEntriesAreSafe(pf: Platform, ids: set<CacheIdentity>, w: World, actions: seq<Action>, p: Path)
    requires Faithful(pf) && Inv(pf, w) && Known(pf, ids, w) && LaunchesFrom(actions, ids)
    requires IsEntryPath(p) && ValidAt(pf, w.tree, p) && FairTo(pf, w, p)
    requires Spared(actions, p) && NeverMisread(pf, w, actions, p)
    ensures p in Run(pf, w, actions).tree && Run(pf, w, actions).tree[p] == w.tree[p]
    decreases |actions|
  {
    hide Inv, Next, Faithful, Known, EntryValid, IsEntryPath, Hits, MisreadOf, AboutToMove;
    if actions != [] {
      NextAtEntry(pf, w, actions[0], p);
      NextKeepsInv(pf, w, actions[0]);
      NextKeepsKnown(pf, ids, w, actions[0]);
      NextKeepsFair(pf, ids, w, actions[0], p);
      hide FairTo;
      UndamagedEntriesAreSafe(pf, ids, Next(pf, w, actions[0]), actions[1..], p);
    }
  }

  /** In every history, damage included, an entry leaves its place only into quarantine, file by
      file; and unless it was misread before, only for being invalid. */
  lemma EntriesLeaveOnlyForQuarantine(pf: Platform, ids: set<CacheIdentity>, w: World, before: seq<Action>, a: Action, p: Path)
    requires Faithful(pf) && StartsFrom(pf, ids, w) && LaunchesFrom(before, ids) && IsEntryPath(p)
    requires var m := Run(pf, w, before); p in m.tree && p !in Next(pf, m, a).tree
    ensures var m := Run(pf, w, before);
            && (NeverMisread(pf, w, before, p) ==> !EntryValid(pf, p, m.tree[p]))
            && exists q :: IsQuarantinePath(q) && q !in m.tree && q in Next(pf, m, a).tree && Next(pf, m, a).tree[q] == m.tree[p]
  {
    hide Inv, Next, Faithful, EntryValid, IsEntryPath, IsQuarantinePath, Known, StartsFrom;
    var m := Run(pf, w, before);
    InitialKnown(pf, ids, w, p);
    RunKeepsKnown(pf, ids, w, before);
    QuarantineLosesNothing(pf, m, a, p);
    if NeverMisread(pf, w, before, p) {
      RunKeepsFair(pf, ids, w, before, p);
      LeavesIff(pf, m, a, p);
    }
  }

  /** One misreading is enough: the quarantiner's next step takes the valid entry away. */
  lemma MisreadIsEnough(pf: Platform, ids: set<CacheIdentity>, w: World, a: Action, p: Path, token: string)
    requires Faithful(pf) && Inv(pf, w) && Known(pf, ids, w) && (a.Launch? ==> a.identity in ids)
    requires IsEntryPath(p) && FairTo(pf, w, p) && MisreadOf(pf, w, a, p) && QuarantinePath(p.name, token) !in w.tree
    ensures p !in Next(pf, Next(pf, w, a), Advance(a.pid, Name(token))).tree
  {
    hide Inv, Next, Faithful, Known, EntryValid, IsEntryPath, Look;
    var w' := Next(pf, w, a);
    MoverIsMisreader(pf, ids, w, a.pid, a.choice, p);
    MisreadKeepsTree(pf, w, a);
    NextKeepsInv(pf, w, a);
    LeavesIff(pf, w', Advance(a.pid, Name(token)), p);
  }

  /** At some moment of the history a quarantiner is about to move the valid entry. */
  ghost predicate EverUnfair(pf: Platform, w: World, actions: seq<Action>, p: Path)
    decreases |actions|
  {
    !FairTo(pf, w, p) || (actions != [] && EverUnfair(pf, Next(pf, w, actions[0]), actions[1..], p))
  }

  /** Over whole histories: a valid entry nobody damages comes to be at risk if and only if some
      quarantiner misreads it. */
  lemma {:induction false} AtRiskIffMisread(pf: Platform, ids: set<CacheIdentity>, w: World, actions: seq<Action>, p: Path)
    requires Faithful(pf) && Inv(pf, w) && Known(pf, ids, w) && LaunchesFrom(actions, ids)
    requires IsEntryPath(p) && ValidAt(pf, w.tree, p) && FairTo(pf, w, p) && Spared(actions, p)
    ensures EverUnfair(pf, w, actions, p) <==> !NeverMisread(pf, w, actions, p)
    decreases |actions|
  {
    hide Inv, Next, Faithful, Known, EntryValid, IsEntryPath, Hits, MisreadOf, AboutToMove, FairTo;
    if actions != [] {
      var w' := Next(pf, w, actions[0]);
      UnfairIffMisread(pf, ids, w, actions[0], p);
      if !MisreadOf(pf, w, actions[0], p) {
        FairEntryStays(pf, w, actions[0], p);
        NextKeepsInv(pf, w, actions[0]);
        NextKeepsKnown(pf, ids, w, actions[0]);
        AtRiskIffMisread(pf, ids, w', actions[1..], p);
      }
    }
  }

  lemma FairEntryStays(pf: Platform, w: World, a: Action, p: Path)
    requires Faithful(pf) && Inv(pf, w) && IsEntryPath(p) && ValidAt(pf, w.tree, p) && FairTo(pf, w, p) && !Hits(a, p)
    ensures ValidAt(pf, Next(pf, w, a).tree, p)
  {
    hide Inv, Next, Faithful, EntryValid, IsEntryPath, AboutToMove;
    NextAtEntry(pf, w, a, p);
  }

  /** And an entry at risk is lost in one more step, under any free name. */
  lemma AtRiskMayGo(pf: Platform, w: World, p: Path, token: string) returns (i: nat)
    requires Faithful(pf) && Inv(pf, w) && IsEntryPath(p) && !FairTo(pf, w, p) && QuarantinePath(p.name, token) !in w.tree
    ensures ValidAt(pf, w.tree, p) && p !in Next(pf, w, Advance(i, Name(token))).tree
  {
    hide Inv, Next, Faithful, EntryValid, IsEntryPath;
    i :| AboutToMove(pf, w, i, p) && ValidAt(pf, w.tree, p);
    LeavesIff(pf, w, Advance(i, Name(token)), p);
  }

  function Quarantining(id: CacheIdentity, token: string): seq<Action> {
    [Launch(0, id, Quarantine), Advance(0, Go), Advance(0, Go), Advance(0, Go), Advance(0, Go), Advance(0, Fault), Advance(0, Name(token))]
  }

  lemma RunOne(pf: Platform, w: World, a: Action, rest: seq<Action>)
    ensures Run(pf, w, [a] + rest) == Run(pf, Next(pf, w, a), rest)
  {
    assert ([a] + rest)[1..] == rest;
  }

  /** A quarantiner alone in the world looks at the entry and lists it. */
  lemma LoneQuarantinerScans(pf: Platform, w: World, id: CacheIdentity)
    requires Initial(w) && ValidIdentity(id) && EntryPath(CacheKey(pf, id)) in w.tree
    ensures var go := Advance(0, Go);
            var w4 := Next(pf, Next(pf, Next(pf, Next(pf, w, Launch(0, id, Quarantine)), go), go), go);
            0 in w4.procs && w4.procs[0] == Process(id, Quarantine, ScanSuspect(Listing)) && w4.tree == w.tree
  {
    hide CacheKey, ValidIdentity, StepPublish, StepRead, Look;
    var go := Advance(0, Go);
    var w1 := Next(pf, w, Launch(0, id, Quarantine));
    assert w1.procs[0] == Process(id, Quarantine, PeekPresent) && w1.tree == w.tree && w1.locks == map[];
    var w2 := Next(pf, w1, go);
    assert w2.procs[0] == Process(id, Quarantine, AwaitLock) && w2.tree == w.tree && w2.locks == map[];
    var w3 := Next(pf, w2, go);
    assert w3.procs[0] == Process(id, Quarantine, CheckUnderLock) && w3.tree == w.tree;
  }

  /** Its next access fails, and it moves the entry. */
  lemma LoneQuarantinerMoves(pf: Platform, w: World, id: CacheIdentity, token: string)
    requires 0 in w.procs && w.procs[0] == Process(id, Quarantine, ScanSuspect(Listing))
    requires var p := EntryPath(CacheKey(pf, id)); p in w.tree && ListingComplete(w.tree[p])
    requires QuarantinePath(CacheKey(pf, id), token) !in w.tree
    ensures EntryPath(CacheKey(pf, id)) !in Next(pf, Next(pf, Next(pf, w, Advance(0, Go)), Advance(0, Fault)), Advance(0, Name(token))).tree
  {
    hide CacheKey, ListingComplete, StepPublish, StepRead, StepLock;
    var w5 := Next(pf, w, Advance(0, Go));
    assert w5.procs[0] == Process(id, Quarantine, ScanSuspect(ReadManifest)) && w5.tree == w.tree;
    var w6 := Next(pf, w5, Advance(0, Fault));
    assert w6.procs[0] == Process(id, Quarantine, MoveAside) && w6.tree == w.tree;
    assert |Prefix(CacheKey(pf, id))| <= 2;
  }

  /** And it can happen to every valid entry: a quarantiner of its identity, alone in the world,
      whose read of the manifest fails once, moves it. */
  lemma FailedReadMovesAnEntry(pf: Platform, w: World, id: CacheIdentity, token: string)
    requires Initial(w) && ValidIdentity(id) && ValidAt(pf, w.tree, EntryPath(CacheKey(pf, id)))
    requires QuarantinePath(CacheKey(pf, id), token) !in w.tree
    ensures NoDamage(Quarantining(id, token)) && LaunchesFrom(Quarantining(id, token), {id})
    ensures EntryPath(CacheKey(pf, id)) !in Run(pf, w, Quarantining(id, token)).tree
  {
    hide EntryValid, CacheKey, ValidIdentity, Next, ListingComplete;
    var p := EntryPath(CacheKey(pf, id));
    ValidIsComplete(pf, p, w.tree[p]);
    LoneQuarantinerScans(pf, w, id);
    var go := Advance(0, Go);
    LoneQuarantinerMoves(pf, Next(pf, Next(pf, Next(pf, Next(pf, w, Launch(0, id, Quarantine)), go), go), go), id, token);
    SevenSteps(pf, w, id, token);
  }

  lemma ValidIsComplete(pf: Platform, p: Path, d: Directory)
    requires EntryValid(pf, p, d)
    ensures ListingComplete(d)
  {
  }

  lemma SevenSteps(pf: Platform, w: World, id: CacheIdentity, token: string)
    ensures var go := Advance(0, Go);
            var w5 := Next(pf, Next(pf, Next(pf, Next(pf, Next(pf, w, Launch(0, id, Quarantine)), go), go), go), go);
            Run(pf, w, Quarantining(id, token)) == Next(pf, Next(pf, w5, Advance(0, Fault)), Advance(0, Name(token)))
  {
    hide Next;
    var go := Advance(0, Go);
    var w1 := Next(pf, w, Launch(0, id, Quarantine));
    var w2 := Next(pf, w1, go);
    var w3 := Next(pf, w2, go);
    var w4 := Next(pf, w3, go);
    var w5 := Next(pf, w4, go);
    var w6 := Next(pf, w5, Advance(0, Fault));
    var end := [Advance(0, Fault), Advance(0, Name(token))];
    assert Quarantining(id, token) == [Launch(0, id, Quarantine)] + ([go] + ([go] + ([go] + ([go] + end))));
    assert end == [Advance(0, Fault)] + ([Advance(0, Name(token))] + []);
    RunOne(pf, w, Launch(0, id, Quarantine), [go] + ([go] + ([go] + ([go] + end))));
    RunOne(pf, w1, go, [go] + ([go] + ([go] + end)));
    RunOne(pf, w2, go, [go] + ([go] + end));
    RunOne(pf, w3, go, [go] + end);
    RunOne(pf, w4, go, end);
    RunOne(pf, w5, Advance(0, Fault), [Advance(0, Name(token))] + []);
    RunOne(pf, w6, Advance(0, Name(token)), []);
  }

  /** Everything a history adds to the cache root outside the entry names is a transaction or
      a quarantine directory, so a crash leaves nothing that discovery could take up. */
  lemma {:induction false} LeftoversAreTransactions(pf: Platform, w: World, actions: seq<Action>, p: Path)
    requires Faithful(pf) && Inv(pf, w) && !IsEntryPath(p)
    requires p !in w.tree && p in Run(pf, w, actions).tree
    ensures IsTransactionPath(p) || IsQuarantinePath(p)
    decreases |actions|
  {
    hide Inv, Next, Faithful, IsEntryPath, IsTransactionPath, IsQuarantinePath;
    if actions != [] {
      var w' := Next(pf, w, actions[0]);
      if p in w'.tree {
        NextLeavesOnlyTransactions(pf, w, actions[0], p);
      } else {
        NextKeepsInv(pf, w, actions[0]);
        LeftoversAreTransactions(pf, w', actions[1..], p);
      }
    }
  }
}
