/** Concurrent `CacheIndex.add` and `CacheIndex.rebuild` on a readable index, while entries are
    being published and damaged. A rebuild scans the manifests inside the writer lock, one
    directory listing and one entry at a time, and passes over an entry it fails to read; an
    SQLite transaction is one step. Entries are what `ProtocolSafety` makes of them: valid when
    they appear, constant until damaged. */
module IndexRace {
  import opened Wrappers
  import opened CacheContracts
  import opened CacheFiles

  type Entries = map<string, CacheArtifact>

  datatype Pc =
    | AddWait(artifact: CacheArtifact)
    | AddCommit(artifact: CacheArtifact)
    | RebuildWait
    | ListRoot
    | WalkPrefixes(prefixes: set<string>, found: Entries, missed: set<string>)
    | WalkNames(prefixes: set<string>, names: set<string>, found: Entries, missed: set<string>)
    | RebuildCommit(found: Entries, missed: set<string>)
    | Leave
    | Done
    | Crashed

  /** `settled` records the adds that completed while their entry was valid and has stayed so;
      `dropped` the keys whose valid entry the last committed rebuild failed to read, as far as
      no add has come after it; `tainted` the keys whose entry was ever damaged. All three, and
      `missed` in the program points, are history, read by nobody. */
  datatype World = World(
    entries: Entries,
    rows: Entries,
    writer: Option<nat>,
    procs: map<nat, Pc>,
    settled: set<string>,
    dropped: set<string>,
    tainted: set<string>)

  datatype Action =
    | Publish(artifact: CacheArtifact)
    | Damage(key: string)
    | StartAdd(pid: nat, key: string)
    | StartRebuild(pid: nat)
    | Step(pid: nat, look: Look)
    | Kill(pid: nat)

  /** What a scan does next: look at a listed item, fail to read the listed entry and pass it
      over, or raise. */
  datatype Look = See(pick: string) | Miss(pick: string) | Fail

  predicate HoldsWriter(pc: Pc) {
    pc.AddCommit? || pc.ListRoot? || pc.WalkPrefixes? || pc.WalkNames? || pc.RebuildCommit? || pc.Leave?
  }

  function Goto(w: World, i: nat, pc: Pc): World {
    w.(procs := w.procs[i := pc])
  }

  function StepProcess(w: World, i: nat, look: Look): World
    requires i in w.procs
  {
    match w.procs[i]
    case AddWait(a) =>
      if w.writer.Some? then w else Goto(w, i, AddCommit(a)).(writer := Some(i))
    case AddCommit(a) =>
      var w' := Goto(w, i, Leave).(rows := w.rows[a.cacheKey := a], dropped := w.dropped - {a.cacheKey});
      if a.cacheKey in w.entries then w'.(settled := w.settled + {a.cacheKey}) else w'
    case RebuildWait =>
      if w.writer.Some? then w else Goto(w, i, ListRoot).(writer := Some(i))
    case ListRoot =>
      if look.Fail? then Goto(w, i, Leave)
      else Goto(w, i, WalkPrefixes((set k | k in w.entries :: Prefix(k)), map[], {}))
    case WalkPrefixes(prefixes, found, missed) =>
      if look.Fail? then Goto(w, i, Leave)
      else if prefixes == {} then Goto(w, i, RebuildCommit(found, missed))
      else if look.pick !in prefixes then w
      else Goto(w, i, WalkNames(prefixes - {look.pick}, (set k | k in w.entries && Prefix(k) == look.pick), found, missed))
    case WalkNames(prefixes, names, found, missed) =>
      if look.Fail? then Goto(w, i, Leave)
      else if names == {} then Goto(w, i, WalkPrefixes(prefixes, found, missed))
      else if look.pick !in names then w
      else if look.pick !in w.entries then Goto(w, i, WalkNames(prefixes, names - {look.pick}, found, missed))
      else if look.Miss? then Goto(w, i, WalkNames(prefixes, names - {look.pick}, found, missed + {look.pick}))
      else Goto(w, i, WalkNames(prefixes, names - {look.pick}, found[look.pick := w.entries[look.pick]], missed))
    case RebuildCommit(found, missed) =>
      Goto(w, i, Leave).(rows := found, dropped := missed)
    case Leave =>
      Goto(w, i, Done).(writer := None)
    case Done => w
    case Crashed => w
  }

  function Next(w: World, a: Action): World {
    match a
    case Publish(artifact) =>
      if artifact.cacheKey in w.entries then w
      else w.(entries := w.entries[artifact.cacheKey := artifact])
    case Damage(key) =>
      w.(entries := w.entries - {key}, settled := w.settled - {key}, tainted := w.tainted + {key})
    case StartAdd(i, key) =>
      if i in w.procs || key !in w.entries then w
      else Goto(w, i, AddWait(w.entries[key]))
    case StartRebuild(i) =>
      if i in w.procs then w else Goto(w, i, RebuildWait)
    case Step(i, look) =>
      if i in w.procs then StepProcess(w, i, look) else w
    case Kill(i) =>
      if i !in w.procs || w.procs[i].Done? then w
      else Goto(w, i, Crashed).(writer := if HoldsWriter(w.procs[i]) then None else w.writer)
  }

  function Run(w: World, actions: seq<Action>): World
    decreases |actions|
  {
    if actions == [] then w else Run(Next(w, actions[0]), actions[1..])
  }

  /** Entries and rows sit under their own keys; no process yet; nothing settled. The rows may
      be anything else: stale, missing, surplus. */
  predicate Initial(w: World) {
    && w.procs == map[] && w.writer.None? && w.settled == {} && w.dropped == {} && w.tainted == {}
    && (forall k :: k in w.entries ==> w.entries[k].cacheKey == k)
  }

  // ----- which completed adds are lost -----

  /** A settled key is ahead of the rebuild, or collected, or missed: exactly one of the three. */
  predicate Tracks(pc: Pc, k: string) {
    match pc
    case WalkPrefixes(prefixes, found, missed) =>
      if Prefix(k) in prefixes then k !in found && k !in missed else (k in found <==> k !in missed)
    case WalkNames(prefixes, names, found, missed) =>
      && !(Prefix(k) in prefixes && k in names)
      && (if Prefix(k) in prefixes || k in names then k !in found && k !in missed else (k in found <==> k !in missed))
    case RebuildCommit(found, missed) => k in found <==> k !in missed
    case _ => true
  }

  ghost predicate WriterOk(w: World) {
    && (forall i :: i in w.procs && HoldsWriter(w.procs[i]) ==> w.writer == Some(i))
    && (w.writer.Some? ==> w.writer.value in w.procs && HoldsWriter(w.procs[w.writer.value]))
  }

  ghost predicate RowsFit(w: World) {
    && WriterOk(w)
    && (forall k :: k in w.settled ==> k in w.entries && (k in w.rows <==> k !in w.dropped))
    && (forall i, k {:trigger Tracks(w.procs[i], k)} :: i in w.procs && k in w.settled ==> Tracks(w.procs[i], k))
  }

  /** The scan of a process keeps track of the keys that were settled before its step. */
  lemma StepTracks(w: World, i: nat, look: Look, k: string)
    requires i in w.procs && Tracks(w.procs[i], k) && k in w.entries
    ensures Tracks(StepProcess(w, i, look).procs[i], k)
  {
    hide Prefix;
  }

  lemma StepKeepsWriter(w: World, i: nat, look: Look)
    requires WriterOk(w) && i in w.procs
    ensures WriterOk(StepProcess(w, i, look))
    ensures var w' := StepProcess(w, i, look); w'.procs == w.procs[i := w'.procs[i]] && w'.entries == w.entries
  {
    hide Prefix;
  }

  lemma StepSettles(w: World, i: nat, look: Look)
    requires i in w.procs
    ensures var w' := StepProcess(w, i, look);
            forall k :: k in w'.settled ==> k in w.settled || (w.procs[i].AddCommit? && k == w.procs[i].artifact.cacheKey && k in w.entries)
  {
    hide Prefix;
  }

  lemma StepKeepsRows(w: World, i: nat, look: Look, k: string)
    requires RowsFit(w) && i in w.procs && k in StepProcess(w, i, look).settled
    ensures var w' := StepProcess(w, i, look); k in w'.entries && (k in w'.rows <==> k !in w'.dropped)
  {
    hide Prefix, WriterOk;
    StepSettles(w, i, look);
    if k in w.settled {
      assert Tracks(w.procs[i], k);
    }
  }

  lemma StepKeepsRowsFit(w: World, i: nat, look: Look)
    requires RowsFit(w) && i in w.procs
    ensures RowsFit(StepProcess(w, i, look))
  {
    var w' := StepProcess(w, i, look);
    StepKeepsWriter(w, i, look);
    StepSettles(w, i, look);
    forall k | k in w'.settled
      ensures k in w'.entries && (k in w'.rows <==> k !in w'.dropped)
    {
      StepKeepsRows(w, i, look, k);
    }
    forall j, k | j in w'.procs && k in w'.settled
      ensures Tracks(w'.procs[j], k)
    {
      if k in w.settled {
        assert Tracks(w.procs[j], k);
        StepTracks(w, i, look, k);
      } else {
        NobodyElseScans(w, i, j);
        LeavesAfterAdding(w, i, look);
      }
    }
  }

  lemma LeavesAfterAdding(w: World, i: nat, look: Look)
    requires i in w.procs && w.procs[i].AddCommit?
    ensures StepProcess(w, i, look).procs[i] == Leave
  {
  }

  /** Whoever commits an add holds the writer lock, so nobody else scans. */
  lemma NobodyElseScans(w: World, i: nat, j: nat)
    requires WriterOk(w) && i in w.procs && j in w.procs && w.procs[i].AddCommit?
    ensures j != i ==> !HoldsWriter(w.procs[j])
  {
  }

  lemma NextKeepsRowsFit(w: World, a: Action)
    requires RowsFit(w)
    ensures RowsFit(Next(w, a))
  {
    hide StepProcess;
    var w' := Next(w, a);
    if a.Step? && a.pid in w.procs {
      StepKeepsRowsFit(w, a.pid, a.look);
    } else {
      forall j, k | j in w'.procs && k in w'.settled
        ensures Tracks(w'.procs[j], k)
      {
        if j in w.procs {
          assert Tracks(w.procs[j], k);
        }
      }
    }
  }

  /** In every history, at every moment, a key whose add completed and whose entry has been valid
      since has a row, unless the last rebuild to commit failed to read that entry, and then it
      has none: however adds, rebuilds, publications and crashes interleave. */
  lemma {:induction false} CompletedAddIsLostIff(w: World, actions: seq<Action>)
    requires RowsFit(w)
    ensures var e := Run(w, actions); RowsFit(e) && forall k :: k in e.settled ==> (k in e.rows <==> k !in e.dropped)
    decreases |actions|
  {
    hide Next;
    if actions != [] {
      NextKeepsRowsFit(w, actions[0]);
      CompletedAddIsLostIff(Next(w, actions[0]), actions[1..]);
    }
  }

  lemma InitialRowsFit(w: World)
    requires Initial(w)
    ensures RowsFit(w) && NothingMissed(w)
  {
  }

  /** No rebuild has failed to read a valid entry. */
  ghost predicate NothingMissed(w: World) {
    && w.dropped == {}
    && (forall i :: i in w.procs ==> (w.procs[i].WalkPrefixes? || w.procs[i].WalkNames? || w.procs[i].RebuildCommit? ==> w.procs[i].missed == {}))
  }

  ghost predicate SettledHaveRows(w: World) {
    forall k :: k in w.settled ==> k in w.rows
  }

  predicate NoMiss(actions: seq<Action>) {
    forall k :: 0 <= k < |actions| ==> !(actions[k].Step? && actions[k].look.Miss?)
  }

  lemma NextMissesNothing(w: World, a: Action)
    requires NothingMissed(w) && !(a.Step? && a.look.Miss?)
    ensures NothingMissed(Next(w, a))
  {
    hide Prefix;
  }

  /** So as long as every entry can be read, no completed add is ever lost. */
  lemma {:induction false} CompletedAddIsNeverLost(w: World, actions: seq<Action>)
    requires RowsFit(w) && NothingMissed(w) && NoMiss(actions)
    ensures SettledHaveRows(Run(w, actions))
    decreases |actions|
  {
    hide Next, RowsFit, NothingMissed, SettledHaveRows;
    if actions != [] {
      assert !(actions[0].Step? && actions[0].look.Miss?);
      assert forall k :: 0 <= k < |actions[1..]| ==> actions[1..][k] == actions[k + 1];
      NextKeepsRowsFit(w, actions[0]);
      NextMissesNothing(w, actions[0]);
      CompletedAddIsNeverLost(Next(w, actions[0]), actions[1..]);
    } else {
      FitMeans(w);
    }
  }

  lemma FitMeans(w: World)
    requires RowsFit(w) && NothingMissed(w)
    ensures SettledHaveRows(w)
  {
  }

  /** And one failed read is enough: a rebuild that misses the last entry before it commits leaves
      a completed add without its row. */
  lemma OneMissLosesARow(w: World, i: nat, k: string)
    requires RowsFit(w) && i in w.procs && k in w.settled
    requires w.procs[i].WalkNames? && w.procs[i].prefixes == {} && w.procs[i].names == {k}
    ensures var w1 := Next(w, Step(i, Miss(k)));
            var e := Next(Next(Next(w1, Step(i, See(""))), Step(i, See(""))), Step(i, See("")));
            k in e.settled && k !in e.rows
  {
    hide Prefix;
    assert Tracks(w.procs[i], k);
    var w1 := Next(w, Step(i, Miss(k)));
    assert w1.procs[i] == WalkNames({}, {}, w.procs[i].found, w.procs[i].missed + {k});
    var w2 := Next(w1, Step(i, See("")));
    assert w2.procs[i] == WalkPrefixes({}, w.procs[i].found, w.procs[i].missed + {k});
    var w3 := Next(w2, Step(i, See("")));
    assert w3.procs[i] == RebuildCommit(w.procs[i].found, w.procs[i].missed + {k});
  }

  // ----- the same from the actions alone -----

  /** In this history nobody damages the entry of `key`, and no scan fails to read it. */
  predicate LeftAlone(actions: seq<Action>, key: string) {
    forall k :: 0 <= k < |actions| ==>
      !(actions[k].Damage? && actions[k].key == key) && !(actions[k].Step? && actions[k].look == Miss(key))
  }

  /** The row of a key is the artifact of its entry, and every scan that has got to the entry has
      it in the same form. */
  ghost predicate Settled(w: World, key: string, a: CacheArtifact) {
    && WriterOk(w) && key in w.entries && w.entries[key] == a && key in w.rows
    && (forall i :: i in w.procs ==> Collects(w.procs[i], key, a))
  }

  /** A scan has `a` for `key`, or has the key still ahead of it. */
  predicate Collects(pc: Pc, key: string, a: CacheArtifact) {
    match pc
    case WalkPrefixes(prefixes, found, _) => (key in found && found[key] == a) || (Prefix(key) in prefixes && key !in found)
    case WalkNames(prefixes, names, found, _) => (key in found && found[key] == a) || ((Prefix(key) in prefixes || key in names) && key !in found)
    case RebuildCommit(found, _) => key in found && found[key] == a
    case _ => true
  }

  /** What the last write to the row of `key` was: an add of that key, or a rebuild. */
  ghost function LastWrite(w: World, actions: seq<Action>, key: string, row: CacheArtifact): CacheArtifact
    decreases |actions|
  {
    if actions == [] then row
    else
      var a := actions[0];
      var pc := if a.Step? && a.pid in w.procs then w.procs[a.pid] else Done;
      LastWrite(Next(w, a), actions[1..], key,
                if pc.AddCommit? && pc.artifact.cacheKey == key then pc.artifact
                else if pc.RebuildCommit? && key in pc.found then pc.found[key]
                else row)
  }

  lemma StepCollects(w: World, i: nat, look: Look, key: string, a: CacheArtifact)
    requires i in w.procs && Collects(w.procs[i], key, a) && key in w.entries && w.entries[key] == a && look != Miss(key)
    ensures Collects(StepProcess(w, i, look).procs[i], key, a)
  {
    hide Prefix;
  }

  lemma StepWrites(w: World, i: nat, look: Look, key: string, a: CacheArtifact)
    requires i in w.procs && Collects(w.procs[i], key, a) && key in w.rows
    ensures var w', pc := StepProcess(w, i, look), w.procs[i];
            && key in w'.rows
            && (w'.rows[key] == if pc.AddCommit? && pc.artifact.cacheKey == key then pc.artifact
                                else if pc.RebuildCommit? then a
                                else w.rows[key])
  {
    hide Prefix;
  }

  lemma NextKeepsSettled(w: World, act: Action, key: string, a: CacheArtifact)
    requires Settled(w, key, a) && LeftAlone([act], key)
    ensures Settled(Next(w, act), key, a)
  {
    assert [act][0] == act;
    var w' := Next(w, act);
    if act.Step? && act.pid in w.procs {
      StepKeepsWriter(w, act.pid, act.look);
      StepCollects(w, act.pid, act.look, key, a);
      StepWrites(w, act.pid, act.look, key, a);
      hide StepProcess, WriterOk;
    } else {
      hide StepProcess;
    }
  }

  /** After an add a key has a row for as long as its entry is left alone, and the row says what
      the last write to it said. */
  lemma {:induction false} SettledRun(w: World, actions: seq<Action>, key: string, a: CacheArtifact)
    requires Settled(w, key, a) && LeftAlone(actions, key)
    ensures var e := Run(w, actions);
            Settled(e, key, a) && e.rows[key] == LastWrite(w, actions, key, w.rows[key])
    decreases |actions|
  {
    if actions != [] {
      var act := actions[0];
      assert LeftAlone([act], key) && LeftAlone(actions[1..], key);
      NextKeepsSettled(w, act, key, a);
      if act.Step? && act.pid in w.procs {
        StepWrites(w, act.pid, act.look, key, a);
      }
      SettledRun(Next(w, act), actions[1..], key, a);
      hide StepProcess, Collects, WriterOk;
    }
  }

  /** An add that commits while its entry stands leaves a row, whatever the history before and
      after, as long as the entry is left alone: the row is that of the last write. */
  lemma CommittedAddHasItsRow(w: World, before: seq<Action>, i: nat, look: Look, after: seq<Action>)
    requires Initial(w)
    requires var m := Run(w, before);
             && i in m.procs && m.procs[i].AddCommit?
             && m.procs[i].artifact.cacheKey in m.entries && m.entries[m.procs[i].artifact.cacheKey] == m.procs[i].artifact
             && LeftAlone(after, m.procs[i].artifact.cacheKey)
    ensures var m := Run(w, before);
            var a := m.procs[i].artifact;
            var m' := Next(m, Step(i, look));
            var e := Run(m', after);
            && m'.procs[i].Leave? && a.cacheKey in e.rows && a.cacheKey in e.entries && e.entries[a.cacheKey] == a
            && e.rows[a.cacheKey] == LastWrite(m', after, a.cacheKey, a)
  {
    var m := Run(w, before);
    var a := m.procs[i].artifact;
    InitialRowsFit(w);
    CompletedAddIsLostIff(w, before);
    var m' := Next(m, Step(i, look));
    StepKeepsWriter(m, i, look);
    forall j | j in m'.procs
      ensures Collects(m'.procs[j], a.cacheKey, a)
    {
      if j != i {
        NobodyElseScans(m, i, j);
      }
    }
    SettledRun(m', after, a.cacheKey, a);
  }

  /** No add of the key under another artifact commits in this history. */
  ghost predicate NoOtherAdd(w: World, actions: seq<Action>, key: string, a: CacheArtifact)
    decreases |actions|
  {
    actions == [] ||
    (&& !(actions[0].Step? && actions[0].pid in w.procs && w.procs[actions[0].pid].AddCommit?
          && w.procs[actions[0].pid].artifact.cacheKey == key && w.procs[actions[0].pid].artifact != a)
     && NoOtherAdd(Next(w, actions[0]), actions[1..], key, a))
  }

  lemma {:induction false} LastWriteIsTrue(w: World, actions: seq<Action>, key: string, a: CacheArtifact)
    requires Settled(w, key, a) && LeftAlone(actions, key) && NoOtherAdd(w, actions, key, a)
    ensures LastWrite(w, actions, key, a) == a
    decreases |actions|
  {
    if actions != [] {
      var act := actions[0];
      assert LeftAlone([act], key) && LeftAlone(actions[1..], key);
      NextKeepsSettled(w, act, key, a);
      if act.Step? && act.pid in w.procs {
        assert Collects(w.procs[act.pid], key, a);
      }
      LastWriteIsTrue(Next(w, act), actions[1..], key, a);
      hide Next, WriterOk;
    }
  }

  /** So the row is the artifact of the entry unless an add of an earlier entry under the same key,
      one that was since damaged, commits late. */
  lemma CommittedAddIsTrue(w: World, before: seq<Action>, i: nat, look: Look, after: seq<Action>)
    requires Initial(w)
    requires var m := Run(w, before);
             && i in m.procs && m.procs[i].AddCommit?
             && m.procs[i].artifact.cacheKey in m.entries && m.entries[m.procs[i].artifact.cacheKey] == m.procs[i].artifact
             && LeftAlone(after, m.procs[i].artifact.cacheKey)
             && NoOtherAdd(Next(m, Step(i, look)), after, m.procs[i].artifact.cacheKey, m.procs[i].artifact)
    ensures var m := Run(w, before);
            var e := Run(Next(m, Step(i, look)), after);
            var key := m.procs[i].artifact.cacheKey;
            key in e.rows && key in e.entries && e.rows[key] == e.entries[key]
  {
    CommittedAddHasItsRow(w, before, i, look, after);
    var m := Run(w, before);
    var a := m.procs[i].artifact;
    InitialRowsFit(w);
    CompletedAddIsLostIff(w, before);
    var m' := Next(m, Step(i, look));
    StepKeepsWriter(m, i, look);
    forall j | j in m'.procs
      ensures Collects(m'.procs[j], a.cacheKey, a)
    {
      if j != i {
        NobodyElseScans(m, i, j);
      }
    }
    LastWriteIsTrue(m', after, a.cacheKey, a);
  }

  // ----- what a rebuild holds -----

  ghost predicate ScansFor(w: World, i: nat, key: string, a: CacheArtifact) {
    i in w.procs && Collects(w.procs[i], key, a) && key in w.entries && w.entries[key] == a
  }

  lemma NextScans(w: World, act: Action, i: nat, key: string, a: CacheArtifact)
    requires ScansFor(w, i, key, a) && LeftAlone([act], key)
    ensures ScansFor(Next(w, act), i, key, a)
  {
    assert [act][0] == act;
    if act.Step? && act.pid == i {
      StepCollects(w, i, act.look, key, a);
      StepFrame(w, i, act.look);
      hide StepProcess;
    } else if act.Step? && act.pid in w.procs {
      StepFrame(w, act.pid, act.look);
      hide StepProcess;
    } else {
      hide StepProcess;
    }
  }

  lemma {:induction false} RunScans(w: World, actions: seq<Action>, i: nat, key: string, a: CacheArtifact)
    requires ScansFor(w, i, key, a) && LeftAlone(actions, key)
    ensures ScansFor(Run(w, actions), i, key, a)
    decreases |actions|
  {
    hide Next, ScansFor;
    if actions != [] {
      assert LeftAlone([actions[0]], key) && LeftAlone(actions[1..], key);
      NextScans(w, actions[0], i, key, a);
      RunScans(Next(w, actions[0]), actions[1..], i, key, a);
    }
  }

  /** A rebuild that commits holds a row for every entry that was there when its scan began and was
      left alone until then; the row is the artifact of the entry. */
  lemma RebuildHoldsStandingEntries(w: World, actions: seq<Action>, i: nat, look: Look, key: string)
    requires i in w.procs && w.procs[i].ListRoot? && key in w.entries && LeftAlone(actions, key)
    requires var m := Run(w, actions); i in m.procs && m.procs[i].RebuildCommit?
    ensures var e := Next(Run(w, actions), Step(i, look));
            key in e.rows && key in e.entries && e.rows[key] == e.entries[key] == w.entries[key]
  {
    RunScans(w, actions, i, key, w.entries[key]);
    hide Run;
  }

  // ----- alone, an add and a rebuild finish -----

  const go: Look := See("")

  function ThreeSteps(w: World, i: nat): World {
    Next(Next(Next(w, Step(i, go)), Step(i, go)), Step(i, go))
  }

  /** An add that nobody disturbs takes the lock, writes its row, and frees the lock. */
  lemma LoneAddCompletes(w: World, i: nat)
    requires w.writer.None? && i in w.procs && w.procs[i].AddWait?
    ensures var e, a := ThreeSteps(w, i), w.procs[i].artifact;
            && e.procs == w.procs[i := Done] && e.writer.None? && e.entries == w.entries
            && e.rows == w.rows[a.cacheKey := a]
  {
    var w1 := Next(w, Step(i, go));
    assert w1.procs == w.procs[i := AddCommit(w.procs[i].artifact)];
    var w2 := Next(w1, Step(i, go));
    assert w2.procs == w.procs[i := Leave];
  }

  /** The case `NoOtherAdd` excludes is real: an add that read its entry before it was damaged
      commits after the add of the entry that replaced it, and its row stays. */
  lemma StaleAddOverwrites(w: World, a: CacheArtifact, b: CacheArtifact)
    requires Initial(w) && a.cacheKey == b.cacheKey && a != b && w.entries == map[a.cacheKey := a]
    ensures var key := a.cacheKey;
            var m := Next(Next(Next(Next(w, StartAdd(0, key)), Damage(key)), Publish(b)), StartAdd(1, key));
            var e := ThreeSteps(ThreeSteps(m, 1), 0);
            e.procs == map[0 := Done, 1 := Done] && e.entries == map[key := b] && key in e.rows && e.rows[key] == a
  {
    hide ThreeSteps;
    var key := a.cacheKey;
    var w1 := Next(w, StartAdd(0, key));
    var w3 := Next(Next(w1, Damage(key)), Publish(b));
    var m := Next(w3, StartAdd(1, key));
    assert m.procs == map[0 := AddWait(a), 1 := AddWait(b)] && m.entries == map[key := b] && m.writer.None?;
    hide Next;
    LoneAddCompletes(m, 1);
    LoneAddCompletes(ThreeSteps(m, 1), 0);
  }

  // ----- alone, a rebuild finishes -----

  /** The looks of a scan that nobody disturbs, from a state in which names are being walked. */
  ghost predicate Reaches(w: World, i: nat, e: World) {
    exists looks: seq<Look> :: (forall k :: 0 <= k < |looks| ==> looks[k].See?) && Walk(w, i, looks) == e
  }

  function Walk(w: World, i: nat, looks: seq<Look>): World
    decreases |looks|
  {
    if looks == [] then w else Walk(Next(w, Step(i, looks[0])), i, looks[1..])
  }

  lemma ReachesFirst(w: World, i: nat, look: Look, e: World)
    requires look.See? && Reaches(Next(w, Step(i, look)), i, e)
    ensures Reaches(w, i, e)
  {
    var looks: seq<Look> :| (forall k :: 0 <= k < |looks| ==> looks[k].See?) && Walk(Next(w, Step(i, look)), i, looks) == e;
    assert ([look] + looks)[1..] == looks;
    assert Walk(w, i, [look] + looks) == e;
  }

  lemma ReachesNow(w: World, i: nat)
    ensures Reaches(w, i, w)
  {
    var looks: seq<Look> := [];
    assert Walk(w, i, looks) == w;
  }

  /** A walk on which every entry is found, in its present form, or still ahead. */
  ghost predicate OnTheWalk(w: World, i: nat) {
    && i in w.procs && (w.procs[i].WalkPrefixes? || w.procs[i].WalkNames?)
    && (forall k :: k in w.procs[i].found ==> k in w.entries && w.procs[i].found[k] == w.entries[k])
    && (forall k :: k in w.entries ==>
          k in w.procs[i].found || Prefix(k) in w.procs[i].prefixes || (w.procs[i].WalkNames? && k in w.procs[i].names))
  }

  lemma WalkName(w: World, i: nat, look: Look) returns (w': World)
    requires OnTheWalk(w, i) && w.procs[i].WalkNames? && look.See? && (w.procs[i].names != {} ==> look.pick in w.procs[i].names)
    ensures w' == Next(w, Step(i, look)) && OnTheWalk(w', i) && w'.entries == w.entries && w'.procs == w.procs[i := w'.procs[i]]
    ensures w'.procs[i].prefixes == w.procs[i].prefixes
    ensures if w.procs[i].names == {} then w'.procs[i].WalkPrefixes?
            else w'.procs[i].WalkNames? && w'.procs[i].names == w.procs[i].names - {look.pick}
  {
    hide Prefix;
    w' := Next(w, Step(i, look));
  }

  lemma WalkPrefix(w: World, i: nat, look: Look) returns (w': World)
    requires OnTheWalk(w, i) && w.procs[i].WalkPrefixes? && look.See? && look.pick in w.procs[i].prefixes
    ensures w' == Next(w, Step(i, look)) && OnTheWalk(w', i) && w'.entries == w.entries && w'.procs == w.procs[i := w'.procs[i]]
    ensures w'.procs[i].prefixes == w.procs[i].prefixes - {look.pick}
  {
    hide Prefix;
    w' := Next(w, Step(i, look));
  }

  lemma WalkEnds(w: World, i: nat) returns (e: World)
    requires OnTheWalk(w, i) && w.procs[i].WalkPrefixes? && w.procs[i].prefixes == {}
    ensures Reaches(w, i, e) && e.procs == w.procs[i := Done] && e.writer.None? && e.rows == w.entries && e.entries == w.entries
  {
    hide Prefix, Reaches;
    var pc := w.procs[i];
    var w1 := Next(w, Step(i, go));
    assert w1.procs == w.procs[i := RebuildCommit(pc.found, pc.missed)];
    var w2 := Next(w1, Step(i, go));
    assert w2.procs == w.procs[i := Leave] && w2.rows == pc.found;
    e := Next(w2, Step(i, go));
    assert pc.found == w.entries;
    hide Next;
    ReachesNow(e, i);
    ReachesFirst(w2, i, go, e);
    ReachesFirst(w1, i, go, e);
    ReachesFirst(w, i, go, e);
  }

  /** From the walk to the rows of all entries. */
  lemma {:induction false} LoneWalkCompletes(w: World, i: nat) returns (e: World)
    requires OnTheWalk(w, i)
    ensures Reaches(w, i, e) && e.procs == w.procs[i := Done] && e.writer.None? && e.rows == w.entries && e.entries == w.entries
    decreases |w.procs[i].prefixes|, if w.procs[i].WalkNames? then 1 + |w.procs[i].names| else 0
  {
    hide OnTheWalk, Reaches, Next;
    OnTheWalkMeans(w, i);
    var pc := w.procs[i];
    if pc.WalkNames? {
      var look := See(if pc.names == {} then "" else PickOne(pc.names));
      var w' := WalkName(w, i, look);
      e := LoneWalkCompletes(w', i);
      ReachesFirst(w, i, look, e);
    } else if pc.prefixes != {} {
      var look := See(PickOne(pc.prefixes));
      var w' := WalkPrefix(w, i, look);
      e := LoneWalkCompletes(w', i);
      ReachesFirst(w, i, look, e);
    } else {
      e := WalkEnds(w, i);
    }
  }

  lemma OnTheWalkMeans(w: World, i: nat)
    requires OnTheWalk(w, i)
    ensures i in w.procs && (w.procs[i].WalkPrefixes? || w.procs[i].WalkNames?)
  {
  }

  ghost function PickOne(s: set<string>): (x: string)
    requires s != {}
    ensures x in s
  {
    var x :| x in s;
    x
  }

  /** A rebuild that nobody disturbs leaves exactly the entries in the table, whatever was there. */
  lemma LoneRebuildCompletes(w: World, i: nat) returns (e: World)
    requires w.writer.None? && i in w.procs && w.procs[i].RebuildWait?
    ensures Reaches(w, i, e) && e.procs == w.procs[i := Done] && e.writer.None? && e.rows == w.entries && e.entries == w.entries
  {
    hide Prefix, Reaches;
    var w1 := Next(w, Step(i, go));
    var w2 := Next(w1, Step(i, go));
    assert w2.procs[i].WalkPrefixes? && w2.entries == w.entries;
    e := LoneWalkCompletes(w2, i);
    ReachesFirst(w1, i, go, e);
    ReachesFirst(w, i, go, e);
  }

  // ----- rows tell the truth about undamaged entries -----

  /** `m` says about undamaged keys only what the entries say. */
  predicate Truthful(entries: Entries, tainted: set<string>, m: Entries) {
    forall k :: k in m && k !in tainted ==> k in entries && m[k] == entries[k]
  }

  /** What a process carries is true. */
  predicate Carries(entries: Entries, tainted: set<string>, pc: Pc) {
    match pc
    case AddWait(a) => Truthful(entries, tainted, map[a.cacheKey := a])
    case AddCommit(a) => Truthful(entries, tainted, map[a.cacheKey := a])
    case WalkPrefixes(_, found, _) => Truthful(entries, tainted, found)
    case WalkNames(_, _, found, _) => Truthful(entries, tainted, found)
    case RebuildCommit(found, _) => Truthful(entries, tainted, found)
    case _ => true
  }

  ghost predicate AllTrue(w: World) {
    && (forall k :: k in w.entries ==> w.entries[k].cacheKey == k)
    && (forall i :: i in w.procs ==> Carries(w.entries, w.tainted, w.procs[i]))
  }

  /** No step takes an undamaged entry away or changes it. */
  lemma TruthCarriesOver(w: World, a: Action, m: Entries)
    requires Truthful(w.entries, w.tainted, m)
    ensures var w' := Next(w, a); Truthful(w'.entries, w'.tainted, m)
  {
  }

  lemma TruthGrows(entries: Entries, tainted: set<string>, m: Entries, n: Entries)
    requires Truthful(entries, tainted, m) && Truthful(entries, tainted, n)
    ensures Truthful(entries, tainted, m + n)
    ensures Truthful(entries, tainted, map[])
  {
  }

  lemma StepFrame(w: World, i: nat, look: Look)
    requires i in w.procs
    ensures var w' := StepProcess(w, i, look);
            w'.entries == w.entries && w'.tainted == w.tainted && w'.procs == w.procs[i := w'.procs[i]]
  {
    hide Prefix;
  }

  lemma EntriesAreTruthful(entries: Entries, tainted: set<string>)
    ensures Truthful(entries, tainted, entries)
  {
  }

  lemma PieceIsTruthful(entries: Entries, tainted: set<string>, k: string)
    requires k in entries
    ensures Truthful(entries, tainted, map[k := entries[k]])
  {
  }

  lemma WalkKeepsTruth(w: World, i: nat, look: Look)
    requires AllTrue(w) && i in w.procs && (w.procs[i].WalkNames? || w.procs[i].WalkPrefixes?)
    ensures var w' := StepProcess(w, i, look); Carries(w.entries, w.tainted, w'.procs[i]) && w'.rows == w.rows
  {
    hide Prefix, Truthful;
    var pc := w.procs[i];
    assert Carries(w.entries, w.tainted, pc);
    if pc.WalkNames? && look.See? && look.pick in w.entries {
      var k := look.pick;
      PieceIsTruthful(w.entries, w.tainted, k);
      TruthGrows(w.entries, w.tainted, pc.found, map[k := w.entries[k]]);
      assert pc.found[k := w.entries[k]] == pc.found + map[k := w.entries[k]];
    }
  }

  lemma StepKeepsTruth(w: World, i: nat, look: Look)
    requires AllTrue(w) && i in w.procs
    ensures var w' := StepProcess(w, i, look);
            && Carries(w.entries, w.tainted, w'.procs[i])
            && (Truthful(w.entries, w.tainted, w.rows) || w.procs[i].RebuildCommit? ==> Truthful(w.entries, w.tainted, w'.rows))
  {
    hide Prefix, Truthful;
    var pc := w.procs[i];
    assert Carries(w.entries, w.tainted, pc);
    if pc.WalkNames? || pc.WalkPrefixes? {
      WalkKeepsTruth(w, i, look);
      hide StepProcess;
    } else if pc.AddCommit? {
      var a := pc.artifact;
      if Truthful(w.entries, w.tainted, w.rows) {
        TruthGrows(w.entries, w.tainted, w.rows, map[a.cacheKey := a]);
        assert w.rows[a.cacheKey := a] == w.rows + map[a.cacheKey := a];
      }
    } else if pc.ListRoot? {
      EntriesAreTruthful(w.entries, w.tainted);
      TruthGrows(w.entries, w.tainted, w.entries, w.entries);
    }
  }

  lemma CarriedOver(w: World, a: Action, pc: Pc)
    requires Carries(w.entries, w.tainted, pc)
    ensures var w' := Next(w, a); Carries(w'.entries, w'.tainted, pc)
  {
    hide StepProcess, Truthful, Next;
    match pc
    case AddWait(m) => TruthCarriesOver(w, a, map[m.cacheKey := m]);
    case AddCommit(m) => TruthCarriesOver(w, a, map[m.cacheKey := m]);
    case WalkPrefixes(_, found, _) => TruthCarriesOver(w, a, found);
    case WalkNames(_, _, found, _) => TruthCarriesOver(w, a, found);
    case RebuildCommit(found, _) => TruthCarriesOver(w, a, found);
    case _ =>
  }

  predicate Commits(w: World, a: Action) {
    a.Step? && a.pid in w.procs && w.procs[a.pid].RebuildCommit?
  }

  lemma NextKeepsTruth(w: World, a: Action)
    requires AllTrue(w)
    ensures AllTrue(Next(w, a))
    ensures Truthful(w.entries, w.tainted, w.rows) || Commits(w, a) ==>
              var w' := Next(w, a); Truthful(w'.entries, w'.tainted, w'.rows)
  {
    hide StepProcess;
    var w' := Next(w, a);
    if a.Step? && a.pid in w.procs {
      StepFrame(w, a.pid, a.look);
      StepKeepsTruth(w, a.pid, a.look);
    } else if Truthful(w.entries, w.tainted, w.rows) {
      TruthCarriesOver(w, a, w.rows);
    }
    hide Truthful;
    forall i | i in w'.procs
      ensures Carries(w'.entries, w'.tainted, w'.procs[i])
    {
      if i in w.procs {
        CarriedOver(w, a, w.procs[i]);
      }
    }
  }

  /** Rows that tell the truth go on doing so; so a row of a key that was never damaged is the
      artifact of its entry, and the entry is there. */
  lemma {:induction false} RowsStayTruthful(w: World, actions: seq<Action>)
    requires AllTrue(w) && Truthful(w.entries, w.tainted, w.rows)
    ensures var e := Run(w, actions); AllTrue(e) && Truthful(e.entries, e.tainted, e.rows)
    decreases |actions|
  {
    if actions != [] {
      NextKeepsTruth(w, actions[0]);
      RowsStayTruthful(Next(w, actions[0]), actions[1..]);
    }
  }

  lemma {:induction false} RunKeepsTruth(w: World, actions: seq<Action>)
    requires AllTrue(w)
    ensures AllTrue(Run(w, actions))
    decreases |actions|
  {
    if actions != [] {
      NextKeepsTruth(w, actions[0]);
      RunKeepsTruth(Next(w, actions[0]), actions[1..]);
    }
  }

  /** Whatever the index held at first, once any rebuild has committed the rows of undamaged
      keys are right for the rest of the history. */
  lemma RebuildRepairsRows(w: World, before: seq<Action>, i: nat, look: Look, after: seq<Action>)
    requires Initial(w)
    requires var m := Run(w, before); i in m.procs && m.procs[i].RebuildCommit?
    ensures var e := Run(Next(Run(w, before), Step(i, look)), after); Truthful(e.entries, e.tainted, e.rows)
  {
    RunKeepsTruth(w, before);
    var m := Run(w, before);
    NextKeepsTruth(m, Step(i, look));
    RowsStayTruthful(Next(m, Step(i, look)), after);
  }
}
