/** The publish, read and quarantine protocol of `CacheStore` as a transition system.

    Any number of processes run the code of `cache/store.py` at once, one file system access
    at a time; any access of any of them may fail, with an `OSError` or with another exception,
    and any of them may be killed at any step; the bytes a publisher copies are chosen by the
    environment (a source file may change under the copy), and the environment may damage an
    entry. `Next` is one step, `Run` a whole history; the choices of the environment are the
    actions. */
module PublishProtocol {
  import opened Wrappers
  import opened CacheContracts
  import opened CacheFiles

  datatype Job =
    | Publish(task: string, hash: string, size: nat, locked: bool) // `locked`: takes the per-key lock itself
    | Read
    | Quarantine

  datatype Outcome =
    | Published(artifact: CacheArtifact, reusedExisting: bool)
    | Loaded(artifact: CacheArtifact)
    | Absent
    | MovedAside(to: Path)
    | Failed(error: CacheError)

  datatype Pc =
    | AwaitLock
    // _publish_stream
    | CheckDestination
    | ScanExisting(scan: Scan)
    | MakeTransaction
    | CreatePayload(txn: Path)
    | WritePayload(txn: Path)
    | MeasurePayload(txn: Path)
    | WriteManifest(txn: Path)
    | WriteMarker(txn: Path, createdAt: string)
    | ScanTransaction(txn: Path, scan: Scan)
    | Rename(txn: Path)
    | CheckWinner(txn: Path)
    | ScanWinner(txn: Path, scan: Scan)
    | ScanPublished(txn: Path, scan: Scan)
    | Cleanup(txn: Path, outcome: Outcome)
    // read_validated
    | CheckPresent
    | ScanRead(scan: Scan)
    // quarantine_invalid and quarantine_invalid_locked
    | PeekPresent
    | CheckUnderLock
    | ScanSuspect(scan: Scan)
    | MoveAside
    // leaving the `with` block
    | Release(outcome: Outcome)
    | Done(outcome: Outcome)
    | Crashed

  datatype Process = Process(identity: CacheIdentity, job: Job, pc: Pc)

  /** `names` are the transaction names `mkdtemp` has handed out. */
  datatype World = World(tree: Tree, locks: map<string, nat>, names: set<Path>, procs: map<nat, Process>)

  /** How the environment resolves the next step of a process. */
  datatype Choice =
    | Go
    | Fault                    // an `OSError`, or a lock timeout
    | Abort                    // inside a validation: an exception that is no `OSError`
    | Chunk(bytes: Bytes)      // the next bytes the writer copies
    | Name(suffix: string)     // random name from mkdtemp or uuid4
    | Clock(iso: string)
    | Unlink(file: FileName)   // one file of a directory being removed

  datatype Action =
    | Launch(pid: nat, identity: CacheIdentity, job: Job)
    | Advance(pid: nat, choice: Choice)
    | Kill(pid: nat)
    | Damage(path: Path, dir: Directory)

  function Key(pf: Platform, me: Process): string {
    CacheKey(pf, me.identity)
  }

  function Dest(pf: Platform, me: Process): Path
  {
    EntryPath(Key(pf, me))
  }

  function StartPc(job: Job): Pc {
    match job
    case Publish(_, _, _, locked) => if locked then AwaitLock else CheckDestination
    case Read => CheckPresent
    case Quarantine => PeekPresent
  }

  /** The transaction directory a process is working in. */
  function TransactionOf(pc: Pc): Option<Path> {
    match pc
    case CreatePayload(t) => Some(t)
    case WritePayload(t) => Some(t)
    case MeasurePayload(t) => Some(t)
    case WriteManifest(t) => Some(t)
    case WriteMarker(t, _) => Some(t)
    case ScanTransaction(t, _) => Some(t)
    case Rename(t) => Some(t)
    case CheckWinner(t) => Some(t)
    case ScanWinner(t, _) => Some(t)
    case ScanPublished(t, _) => Some(t)
    case Cleanup(t, _) => Some(t)
    case _ => None
  }

  /** Program points inside `with CacheKeyLock(...)` for a process that takes the lock. */
  predicate InsideLock(me: Process) {
    (me.job.Quarantine? || (me.job.Publish? && me.job.locked))
    && !me.pc.AwaitLock? && !me.pc.PeekPresent? && !me.pc.Done? && !me.pc.Crashed?
  }

  function Goto(w: World, i: nat, pc: Pc): World
    requires i in w.procs
  {
    w.(procs := w.procs[i := w.procs[i].(pc := pc)])
  }

  /** The lock table after process `i` lets go (or is killed: the kernel releases file locks). */
  function Unlock(w: World, i: nat, key: string): map<string, nat> {
    if key in w.locks && w.locks[key] == i then w.locks - {key} else w.locks
  }

  predicate Matches(job: Job, a: CacheArtifact)
    requires job.Publish?
  {
    a.payloadSha256 == job.hash && a.payloadSizeBytes == job.size
  }

  /** The verdict on an entry that was already there, or that won the rename race. */
  function ReuseOutcome(job: Job, v: Verdict): Outcome
    requires job.Publish?
  {
    match v
    case Err(e) => Failed(e)
    case Ok(a) => if Matches(job, a) then Published(a, true) else Failed(IntegrityError)
  }

  /** One access of a running validation. An `OSError` from the directory listing passes
      through; from any later access it is caught and raised again as an integrity error. */
  function Look(pf: Platform, tree: Tree, p: Path, id: CacheIdentity, checkName: bool, s: Scan, c: Choice): ScanStep {
    if c.Abort? then Finished(Err(UnhandledError))
    else if c.Fault? then Finished(Err(if s.Listing? then OperatingSystemError else IntegrityError))
    else StepScan(pf, tree, p, id, checkName, s)
  }

  /** One step of `_publish_stream`. */
  function StepPublish(pf: Platform, w: World, i: nat, c: Choice): World
    requires i in w.procs && w.procs[i].job.Publish?
  {
    var me := w.procs[i];
    var dest := Dest(pf, me);
    match me.pc
    case CheckDestination =>
      if c.Fault? then Goto(w, i, Release(Failed(OperatingSystemError)))
      else if !IsSha256(me.job.task) then Goto(w, i, Release(Failed(BadTaskIdentity)))
      else if dest in w.tree then Goto(w, i, ScanExisting(Listing))
      else Goto(w, i, MakeTransaction)
    case ScanExisting(s) =>
      (match Look(pf, w.tree, dest, me.identity, true, s, c)
       case More(s') => Goto(w, i, ScanExisting(s'))
       case Finished(v) => Goto(w, i, Release(ReuseOutcome(me.job, v))))
    case MakeTransaction =>
      if c.Fault? then Goto(w, i, Release(Failed(OperatingSystemError)))
      else if c.Name? then
        var t := TransactionPath(Key(pf, me), c.suffix);
        if t in w.tree || t in w.names then w
        else Goto(w, i, CreatePayload(t)).(tree := w.tree[t := map[]], names := w.names + {t})
      else w
    case CreatePayload(t) =>
      if c.Fault? || t !in w.tree then Goto(w, i, Cleanup(t, Failed(OperatingSystemError)))
      else Goto(w, i, WritePayload(t)).(tree := w.tree[t := w.tree[t][PayloadBin := File([])]])
    case WritePayload(t) =>
      if c.Fault? || t !in w.tree || !HasFile(w.tree[t], PayloadBin) then Goto(w, i, Cleanup(t, Failed(OperatingSystemError)))
      else if c.Chunk? then
        w.(tree := w.tree[t := w.tree[t][PayloadBin := File(w.tree[t][PayloadBin].contents + c.bytes)]])
      else Goto(w, i, MeasurePayload(t))
    case MeasurePayload(t) =>
      if c.Fault? || t !in w.tree || !HasFile(w.tree[t], PayloadBin) then Goto(w, i, Cleanup(t, Failed(OperatingSystemError)))
      else
        var payload := w.tree[t][PayloadBin].contents;
        if |payload| != me.job.size || pf.sha256(payload) != me.job.hash
        then Goto(w, i, Cleanup(t, Failed(IntegrityError)))
        else Goto(w, i, WriteManifest(t))
    case WriteManifest(t) =>
      if c.Fault? || t !in w.tree then Goto(w, i, Cleanup(t, Failed(OperatingSystemError)))
      else if c.Clock? then
        var m := MakeManifest(pf, me.identity, me.job.hash, me.job.size, me.job.task, c.iso);
        Goto(w, i, WriteMarker(t, c.iso)).(tree := w.tree[t := w.tree[t][ManifestJson := File(pf.renderManifest(m))]])
      else w
    case WriteMarker(t, _) =>
      if c.Fault? || t !in w.tree || !HasFile(w.tree[t], ManifestJson) then Goto(w, i, Cleanup(t, Failed(OperatingSystemError)))
      else
        var k := MakeMarker(pf, w.tree[t][ManifestJson].contents, me.job.hash);
        Goto(w, i, ScanTransaction(t, Listing)).(tree := w.tree[t := w.tree[t][CompleteJson := File(pf.renderMarker(k))]])
    case ScanTransaction(t, s) =>
      (match Look(pf, w.tree, t, me.identity, false, s, c)
       case More(s') => Goto(w, i, ScanTransaction(t, s'))
       case Finished(Err(e)) => Goto(w, i, Cleanup(t, Failed(e)))
       case Finished(Ok(_)) => Goto(w, i, Rename(t)))
    case Rename(t) =>
      if c.Fault? || t !in w.tree || dest in w.tree then Goto(w, i, CheckWinner(t))
      else Goto(w, i, ScanPublished(t, Listing)).(tree := MoveDirectory(w.tree, t, dest))
    case CheckWinner(t) =>
      if !c.Fault? && dest in w.tree then Goto(w, i, ScanWinner(t, Listing))
      else Goto(w, i, Cleanup(t, Failed(IntegrityError)))
    case ScanWinner(t, s) =>
      (match Look(pf, w.tree, dest, me.identity, true, s, c)
       case More(s') => Goto(w, i, ScanWinner(t, s'))
       case Finished(v) => Goto(w, i, Cleanup(t, ReuseOutcome(me.job, v))))
    case ScanPublished(t, s) =>
      (match Look(pf, w.tree, dest, me.identity, true, s, c)
       case More(s') => Goto(w, i, ScanPublished(t, s'))
       case Finished(Err(e)) => Goto(w, i, Cleanup(t, Failed(e)))
       case Finished(Ok(a)) => Goto(w, i, Cleanup(t, Published(a, false))))
    case Cleanup(t, outcome) =>
      // shutil.rmtree(transaction, ignore_errors=True), one file at a time
      if c.Unlink? then
        if t in w.tree then w.(tree := w.tree[t := w.tree[t] - {c.file}]) else w
      else if c.Fault? || t !in w.tree then Goto(w, i, Release(outcome))
      else Goto(w, i, Release(outcome)).(tree := w.tree - {t})
    case _ => w
  }

  /** One step of `read_validated`. */
  function StepRead(pf: Platform, w: World, i: nat, c: Choice): World
    requires i in w.procs
  {
    var me := w.procs[i];
    var dest := Dest(pf, me);
    match me.pc
    case CheckPresent =>
      if c.Fault? then Goto(w, i, Done(Failed(OperatingSystemError)))
      else if dest in w.tree then Goto(w, i, ScanRead(Listing)) else Goto(w, i, Done(Absent))
    case ScanRead(s) =>
      (match Look(pf, w.tree, dest, me.identity, true, s, c)
       case More(s') => Goto(w, i, ScanRead(s'))
       case Finished(Err(e)) => Goto(w, i, Done(Failed(e)))
       case Finished(Ok(a)) => Goto(w, i, Done(Loaded(a))))
    case _ => w
  }

  /** One step of `quarantine_invalid`. */
  function StepQuarantine(pf: Platform, w: World, i: nat, c: Choice): World
    requires i in w.procs
  {
    var me := w.procs[i];
    var dest := Dest(pf, me);
    match me.pc
    case PeekPresent =>
      if c.Fault? then Goto(w, i, Done(Failed(OperatingSystemError)))
      else if dest in w.tree then Goto(w, i, AwaitLock) else Goto(w, i, Done(Absent))
    case CheckUnderLock =>
      if c.Fault? then Goto(w, i, Release(Failed(OperatingSystemError)))
      else if dest in w.tree then Goto(w, i, ScanSuspect(Listing)) else Goto(w, i, Release(Absent))
    case ScanSuspect(s) =>
      (match Look(pf, w.tree, dest, me.identity, true, s, c)
       case More(s') => Goto(w, i, ScanSuspect(s'))
       case Finished(Err(e)) =>
         if e == IntegrityError then Goto(w, i, MoveAside) else Goto(w, i, Release(Failed(e)))
       case Finished(Ok(_)) => Goto(w, i, Release(Failed(IntegrityError)))) // refusing to quarantine
    case MoveAside =>
      if c.Name? && dest in w.tree && QuarantinePath(Key(pf, me), c.suffix) !in w.tree then
        var q := QuarantinePath(Key(pf, me), c.suffix);
        Goto(w, i, Release(MovedAside(q))).(tree := MoveDirectory(w.tree, dest, q))
      else Goto(w, i, Release(Failed(OperatingSystemError)))
    case _ => w
  }

  /** Taking and leaving the per-key lock, shared by publishers and quarantiners. */
  function StepLock(pf: Platform, w: World, i: nat, c: Choice): World
    requires i in w.procs
  {
    var me := w.procs[i];
    match me.pc
    case AwaitLock =>
      if c.Fault? then Goto(w, i, Done(Failed(LockTimeout)))
      else if Key(pf, me) in w.locks then w
      else Goto(w, i, if me.job.Quarantine? then CheckUnderLock else CheckDestination)
           .(locks := w.locks[Key(pf, me) := i])
    case Release(outcome) =>
      Goto(w, i, Done(outcome)).(locks := Unlock(w, i, Key(pf, me)))
    case _ => w
  }

  /** One step of the whole system. An action that is not possible changes nothing. */
  function Next(pf: Platform, w: World, a: Action): World
  {
    match a
    case Launch(i, id, job) =>
      if i in w.procs || !ValidIdentity(id) then w
      else w.(procs := w.procs[i := Process(id, job, StartPc(job))])
    case Advance(i, c) =>
      if i !in w.procs then w
      else
        var me := w.procs[i];
        if me.pc.AwaitLock? || me.pc.Release? then StepLock(pf, w, i, c)
        else (match me.job
              case Publish(_, _, _, _) => StepPublish(pf, w, i, c)
              case Read => StepRead(pf, w, i, c)
              case Quarantine => StepQuarantine(pf, w, i, c))
    case Kill(i) =>
      if i !in w.procs || w.procs[i].pc.Done? then w
      else Goto(w, i, Crashed).(locks := Unlock(w, i, Key(pf, w.procs[i])))
    case Damage(p, d) =>
      if p in w.tree && IsEntryPath(p) && !EntryValid(pf, p, d) then w.(tree := w.tree[p := d]) else w
  }

  ghost function Run(pf: Platform, w: World, actions: seq<Action>): World
    decreases |actions|
  {
    if actions == [] then w else Run(pf, Next(pf, w, actions[0]), actions[1..])
  }

  predicate NoDamage(actions: seq<Action>) {
    forall k :: 0 <= k < |actions| ==> !actions[k].Damage?
  }

  /** Every identity launched in the history is one of `ids`. */
  predicate LaunchesFrom(actions: seq<Action>, ids: set<CacheIdentity>) {
    forall k :: 0 <= k < |actions| && actions[k].Launch? ==> actions[k].identity in ids
  }

  // ----- the one fault the protocol does not absorb -----

  /** An access of a quarantiner's validation fails after the listing, while the entry it looks
      at is valid: the failure is then taken for a broken entry. */
  predicate Misread(pf: Platform, w: World, a: Action) {
    a.Advance? && a.choice.Fault? && a.pid in w.procs &&
    var me := w.procs[a.pid];
    me.pc.ScanSuspect? && !me.pc.scan.Listing? && Dest(pf, me) in w.tree && EntryValid(pf, Dest(pf, me), w.tree[Dest(pf, me)])
  }

  predicate MisreadOf(pf: Platform, w: World, a: Action, p: Path) {
    Misread(pf, w, a) && Dest(pf, w.procs[a.pid]) == p
  }

  /** In this history no quarantiner misreads the entry at `p`. */
  ghost predicate NeverMisread(pf: Platform, w: World, actions: seq<Action>, p: Path)
    decreases |actions|
  {
    actions == [] || (!MisreadOf(pf, w, actions[0], p) && NeverMisread(pf, Next(pf, w, actions[0]), actions[1..], p))
  }

  /** In this history no quarantiner misreads any entry. */
  ghost predicate NoMisread(pf: Platform, w: World, actions: seq<Action>)
    decreases |actions|
  {
    actions == [] || (!Misread(pf, w, actions[0]) && NoMisread(pf, Next(pf, w, actions[0]), actions[1..]))
  }
}
