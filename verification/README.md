# Schema Guard: a verified model of its cache, splits and numeric cores

Schema Guard runs tabular models under a frozen plan. What it reports rests on a few pieces of
logic that have to be right whatever happens around them: a content-addressed cache shared by
several processes, split generation that must not leak duplicate rows between partitions, and
small numeric and loop cores on the way to the metrics. This project models those pieces and
proves what they promise.

**The cache** (`CacheContracts`, `CacheFiles`, `EntryIntegrity`, `PublishProtocol`, `ProtocolInvariant`,
`ProtocolSafety`, `ProtocolAgreement`, `PlatformWitness`, `CacheStore`, `SoloRuns`, `CacheIndex`, `IndexRace`).
`EntryIntegrity` says what it takes, byte by byte, to be a readable entry. The publishing code
appears twice. `CacheStores.CacheStore` and `CacheIndexes.CacheIndex` are classes that change a
directory tree and a table in place, one caller at a time, each method proved against a function of
the old state. `PublishProtocol` is the publisher, reader and quarantiner as a transition system,
one file system access at a time, for any number of processes; the environment may delay a process,
fail any access of it with an `OSError` or another exception, kill it at any step, choose the bytes
a publisher copies, and damage an entry. The protocol modules prove an inductive invariant and, from
it, safety and agreement over every history, with the exact condition under which they hold.
`SoloRuns` ties the two together: a process of the transition system that nobody disturbs ends with
the answer and the tree of the sequential method. `IndexRace` does the same for `add` and `rebuild` of the index.

**Splits** (`GroupEncoding`, `ClassCounts`, `FoldSelection`, `Splits`, `SplitGeneration`, `SplitOutcome`,
`AssignmentHash`, `Ordering`). The typed encoding that defines predictor groups, the search over
fold mappings, the validator, `generate_splits` from end to end for an arbitrary splitter, when it
succeeds and with what error it fails, and the logical assignment hash.

**Numeric and loop cores** (`ListSchedule`, `RuntimeEstimate`, `Calibration`, `Probability`,
`Watchdog`, `Materialisation`).

`Wrappers`, `Sequences` and `Reals` hold shared definitions.

## Hypotheses

Foreign code is a parameter, and what a result needs of it is a named predicate in its `requires`.

- `CacheContracts.Faithful`: a valid manifest or marker survives JSON writing and reading, and a
  digest is 64 lowercase hexadecimal digits.
- `CacheContracts.CollisionFree`: of a given finite set of identities no two share a cache key. The set
  has to contain the identities launched in the history (`PublishProtocol.LaunchesFrom`) and those of
  the valid entries it starts from (`ProtocolSafety.StartsFrom`). Agreement on a payload is agreement
  on digest and size.
- `GroupEncoding.CollisionFreeHash`, `AssignmentHash.CollisionFreeRows`: the hash separates a given finite
  set of canonical rows, or of row lists.
- `Materialisation.RandomNames`: among the first `limit` draws of `uuid4` no two are the same; a pass makes
  at most two draws an item.

`PlatformWitness.HypothesesCanBeMet` builds, for any two identities and any entry, a platform, a cache
root and a history that meet all hypotheses of the protocol results at once;
`Materialisation.RandomNamesExist` does so for the random names, for as many draws as there are names.

Further assumptions are part of the model:

- `os.replace` of a directory is one step and fails if the target exists. (POSIX may replace an
  empty directory; an entry is never empty unless damaged.) Writing one small JSON file is one
  step; writing the payload is not.
- `mkdtemp` and `uuid4` do not hand out a name twice. A lock file is freed when its holder dies.
  An SQLite transaction is one step.
- Damage rewrites an existing entry to one that does not validate; it does not remove the directory
  of an entry, and does not forge a valid one.
- `StratifiedGroupKFold` is any deterministic function that holds out existing rows in at most the
  requested number of folds (`SplitGeneration.SplitterFits`). That it keeps groups whole is a
  hypothesis only of `GroupedFoldsSucceedIff`; everywhere else the validator is what guarantees it.
- `time.sleep` never returns early (`Watchdog.ClockAdvances`).
- Floats are reals.

## Where the code does less than it says

- **Valid entries are never moved.** `_validate_directory` turns an `OSError` of any access after the
  directory listing into `CacheIntegrityError`, and `quarantine_invalid_locked` takes that for a broken
  entry. So one failed read (too many open files, a device error, a sharing violation) makes it move
  a valid entry. The exact condition: an entry leaves its place only by a quarantiner that is about to
  move it (`ProtocolSafety.LeavesIff`), and a quarantiner comes to be about to move a valid entry exactly
  by such a failed read (`ProtocolSafety.UnfairIffMisread`, over histories
  `ProtocolSafety.AtRiskIffMisread`). `ProtocolSafety.MisreadIsEnough` and
  `ProtocolSafety.FailedReadMovesAnEntry` show that it takes no more than that. The results that need
  it are stated for histories without such a misreading. A reader is told of a broken entry under the
  same circumstance (`ProtocolAgreement.ReadersSeeWholeEntries`).
- **A completed add is never lost to a rebuild.** For the same reason `iter_validated` passes over a valid
  entry it fails to read, and `rebuild` commits without it. `IndexRace.CompletedAddIsLostIff` gives the
  exact condition, `IndexRace.OneMissLosesARow` shows that one failed read is enough.
- **The row of a completed add is that of its entry.** An add takes the artifact before it waits for the
  writer lock. If the entry is damaged meanwhile and another is published under the same key and added, the
  first add still writes its row, over the newer one (`IndexRace.StaleAddOverwrites`).
  `IndexRace.CommittedAddHasItsRow` gives the exact row in every history, and
  `IndexRace.CommittedAddIsTrue` the condition under which it is the artifact of the entry.
- **Whatever an entry holds.** A deeply nested manifest or marker makes `json.loads` raise
  `RecursionError`, which nothing in `store.py` handles: such an entry is not quarantined, and discovery
  and `rebuild` raise instead of passing over it. The parsers have this outcome in the model
  (`CacheContracts.Parsed`), and the contracts say exactly when it shows.
- **Class coverage.** `data/splits.py` rejects a split with "Both target classes must occur in every
  split", and reports `both_classes_in_every_split`. The guard counts the keys of a cross table,
  and a class with count zero keeps its key. `ClassCounting.GuardMeans` shows what the guard
  really says: no partition is empty and two codes occur somewhere.
  `ClassCounting.GuardLetsOneClassThrough` gives four rows that pass with a one-class calibration
  partition, `ClassCounting.PositiveGuardMeans` what a guard on positive counts would give, and
  `FoldSelection.ClassCoverageHoldsIff` the exact condition on the folds under which the promise holds
  all the same. `SplitGeneration.AcceptedSplitWithOneClass` follows five rows through the search and the
  validator: the chosen mapping calibrates on one class, and is accepted. The model follows the code.
- **Logical assignment hash.** It ignores the order of the rows exactly when rows with one ID are the
  same row (`AssignmentHash.LogicalHashIgnoresOrderIff`); the function itself does not check this.
- **Clipping.** `normalize_probability_matrix` may change which class is predicted, exactly when the
  tolerance times the number of columns less one exceeds one (`Probability.ArgMaxSurvivesIff`). With
  the default tolerance that takes more than a million columns.

## Model

| member | source | states |
|---|---|---|
| `CacheContracts.SealedDirectoryValidates` | src/schemaguard/cache/store.py:171-200 | the three files a publisher writes validate, as a transaction and under the entry name, and validation reports the metadata that was published |
| `CacheContracts.ValidationIsUnambiguous` | src/schemaguard/cache/store.py:273-329 | an accepted directory fixes identity, key, payload digest and size: two validations of it, under whatever requests, agree |
| `EntryIntegrity.ValidatesIff` | src/schemaguard/cache/store.py:281-325 | a directory validates if and only if it holds exactly a payload, a manifest of the identity that records the digest and length of that payload, and a marker that records the digests of both |
| `EntryIntegrity.ReadMeans` | src/schemaguard/cache/store.py:65-71 | what a read returns describes the bytes in place and belongs to the identity asked for |
| `EntryIntegrity.ReadableIff` | src/schemaguard/cache/store.py:65-71 | a read succeeds if and only if such a directory is in place |
| `EntryIntegrity.TamperedEntryIsBroken` | src/schemaguard/cache/store.py:281-325 | a published entry whose payload or manifest was replaced by bytes of another digest, whose marker is gone, or which has one more file, gives an integrity error to a read and is not discovered |
| `EntryIntegrity.PublishedIsReadable` | src/schemaguard/cache/store.py:65-71 | every directory a publication leaves under its key is readable, and every tampered one is an integrity error |
| `EntryIntegrity.PlaceholderIsNeverRead` | src/schemaguard/cache/contracts.py:40-55 | no entry is read under an identity with a placeholder digest or a negative seed |
| `EntryIntegrity.FlawedManifestIsNeverRead` | src/schemaguard/cache/contracts.py:64-99 | no entry is read whose manifest is unfinished, not passed, of another version or file, without UTC time, or at odds with its identity, nor one whose marker is of another version |
| `CacheFiles.OtherPathsAreNotEntries` | src/schemaguard/cache/store.py:245-256 | transaction and quarantine directories never pass the filter of discovery |
| `CacheFiles.NamesTellTheKey` | src/schemaguard/cache/store.py:168-242 | transaction and quarantine names begin with the key of their entry, and determine key and random part |
| `CacheFiles.DiscoveryAgreesWithLookup` | src/schemaguard/cache/store.py:65-71 | discovery accepts a directory, with an artifact, if and only if some request would read that artifact there |
| `CacheFiles.ValidEntryServesItsKey` | src/schemaguard/cache/store.py:273-303 | of the identities that name its path, a valid entry validates exactly for the one it was published under |
| `CacheContracts.RaisesIff` | src/schemaguard/cache/store.py:285-329 | validation ends in an exception nobody handles if and only if the files are there and the manifest, or after a good manifest the marker, makes the parser raise one |
| `CacheFiles.ScanRefinesValidation` | src/schemaguard/cache/store.py:281-325 | validation as it runs, one file access at a time, reaches the atomic verdict on an entry that does not change meanwhile |
| `ProtocolInvariant.SealedIsValidEntry` | src/schemaguard/cache/store.py:198-202 | a finished transaction is a valid entry from the moment of the rename |
| `ProtocolInvariant.NextKeepsInv` | src/schemaguard/cache/store.py:143-243 | every step of every process, every failure, crash, launch and damage keeps: one holder per key lock, private transactions, each transaction at the stage its owner believes, a quarantiner's entry in place until it is done |
| `ProtocolSafety.RunKeepsInv` | src/schemaguard/cache/store.py:143-243 | the same for every history |
| `ProtocolSafety.NextAtEntry` | src/schemaguard/cache/store.py:202-216 | in one step an undamaged entry stays as it is or is moved aside by a quarantiner, and whatever appears under an entry name is valid |
| `ProtocolSafety.LeavesIff` | src/schemaguard/cache/store.py:228-243 | an entry leaves its place in a step if and only if a quarantiner about to move it draws a free name |
| `ProtocolSafety.LookAtValidEntry` | src/schemaguard/cache/store.py:281-329 | an access of a scan of a valid entry ends in an integrity error if and only if it fails after the listing; a verdict is that of the atomic validation |
| `ProtocolSafety.UnfairIffMisread` | src/schemaguard/cache/store.py:235-243 | a quarantiner comes to be about to move a valid entry if and only if an access of its own scan after the listing fails |
| `ProtocolSafety.NextKeepsFair` | src/schemaguard/cache/store.py:235-243 | every other step, damage included, keeps all quarantiners from being about to move the entry while it is valid |
| `ProtocolSafety.AtRiskIffMisread` | src/schemaguard/cache/store.py:218-243 | over whole histories: a quarantiner is ever about to move a valid, undamaged entry if and only if some quarantiner misreads it |
| `ProtocolSafety.AtRiskMayGo` | src/schemaguard/cache/store.py:236-242 | and then one step, under any free name, takes the entry away |
| `ProtocolSafety.MisreadIsEnough` | src/schemaguard/cache/store.py:236-242 | after one such failure the quarantiner's next step takes the valid entry away |
| `ProtocolSafety.FailedReadMovesAnEntry` | src/schemaguard/cache/store.py:218-243 | for every valid entry there is a history without damage, one quarantiner and one failed read, that moves it |
| `ProtocolSafety.VisibleEntriesAreValid` | src/schemaguard/cache/store.py:143-243 | in every history, failing reads included, entry names nobody damages show a valid entry or nothing |
| `ProtocolSafety.UndamagedEntriesAreSafe` | src/schemaguard/cache/store.py:143-243 | in every history a valid entry that nobody damages and no quarantiner misreads never changes or disappears |
| `ProtocolSafety.QuarantineLosesNothing` | src/schemaguard/cache/store.py:228-243 | an entry that leaves its place is in quarantine under a new name, file by file |
| `ProtocolSafety.EntriesLeaveOnlyForQuarantine` | src/schemaguard/cache/store.py:218-243 | in every history, damage included, an entry leaves its place only into quarantine, whole, and unless it was misread only for being invalid |
| `ProtocolSafety.LeftoversAreTransactions` | src/schemaguard/cache/store.py:168-216 | whatever else a history leaves in the cache root is a transaction or quarantine directory |
| `ProtocolAgreement.NextKeepsCalm` | src/schemaguard/cache/store.py:157-213 | without damage and misreading every step keeps: all entries valid, every process sees the entry really there, at most one creator per key |
| `ProtocolAgreement.EveryHistoryIsSafe` | src/schemaguard/cache/store.py:143-243 | from any cache root with valid entries, without damage: in every history all entries are valid; and without misreading none changes or disappears, and only transaction directories are left besides |
| `ProtocolAgreement.PublishersAgree` | src/schemaguard/cache/store.py:157-166 | publishers of one identity that return agree on the artifact, at most one says it created it, and one with another digest or size does not succeed; with and without the lock, rename race included |
| `ProtocolAgreement.CreationNeedsFreeName` | src/schemaguard/cache/store.py:201-213 | a publisher becomes the creator only by renaming onto a name that is free |
| `ProtocolAgreement.ToldBrokenIff` | src/schemaguard/cache/store.py:281-329 | a reader is told of a broken entry in the step in which its own read fails after the listing, and only then |
| `ProtocolAgreement.ReadersSeeWholeEntries` | src/schemaguard/cache/store.py:65-71 | a reader that got an artifact got what the cache still holds at the end; it was told of a broken entry if and only if a read of its own failed |
| `SoloRuns.SoloRead` | src/schemaguard/cache/store.py:65-71 | a reader nobody disturbs ends with what the sequential read answers |
| `SoloRuns.SoloQuarantine` | src/schemaguard/cache/store.py:218-243 | a quarantiner nobody disturbs ends with the answer and the tree of the sequential quarantine, the lock free again |
| `SoloRuns.SoloPublish` | src/schemaguard/cache/store.py:143-216 | a publisher nobody disturbs, whatever bytes its source delivers, ends with the verdict and the tree of the sequential publication, the lock free again |
| `SoloRuns.SoloLostRace` | src/schemaguard/cache/store.py:201-213 | a publisher that finds the name taken at its rename removes its transaction and succeeds, as a reuse, exactly when the winner reads as its own digest and length |
| `CacheStores.CacheKeyLock.Enter` | src/schemaguard/cache/locks.py:28-35 | succeeds exactly when nobody holds the key, which is held afterwards |
| `CacheStores.CacheKeyLock.Exit` | src/schemaguard/cache/locks.py:37-40 | releases the key exactly if this object acquired it |
| `CacheStores.PublishSucceedsIff` | src/schemaguard/cache/store.py:157-166 | for a valid task, publishing succeeds if and only if the name is free or the entry reads as the payload digest and length; it says reused exactly when the entry was there, with the artifact a read gave; a new artifact carries key, kind, digest, length, task and time as given |
| `CacheStores.ChangedSourceFails` | src/schemaguard/cache/store.py:171-176 | bytes other than announced are published only onto an entry that already reads as what was announced |
| `CacheStores.CacheStore.WriteTransaction` | src/schemaguard/cache/store.py:171-199 | leaves a sealed directory exactly when the delivered bytes are the announced ones, and touches nothing but the transaction |
| `CacheStores.CacheStore.PublishStream` | src/schemaguard/cache/store.py:143-216 | the verdict in terms of the old entry and the delivered bytes; the tree gains the sealed entry when one was created and is otherwise unchanged, transaction included |
| `CacheStores.CacheStore.PublishBytes` | src/schemaguard/cache/store.py:79-98 | succeeds if and only if the lock is free, the task valid, and the name free or the entry readable as these bytes; reused exactly when it was there; the tree changes only by the sealed entry of a new name; the lock is free again |
| `CacheStores.CacheStore.PublishAgain` | src/schemaguard/cache/store.py:157-166 | publishing the same bytes again succeeds, reuses the same artifact and changes nothing |
| `CacheStores.CacheStore.QuarantineInvalidLocked` | src/schemaguard/cache/store.py:228-243 | moves the entry if and only if it is present, invalid and does not make the parser raise something unhandled; whole, and changes nothing else; a tampered published entry is moved, an intact one refused |
| `CacheStores.CacheStore.ComputeOnce` | src/schemaguard/runner/scheduler.py:264-371 | read, quarantine if broken, publish if needed: fails without change exactly when the parser raises something unhandled; from every other state the next read gives a valid artifact, and broken bytes are kept |
| `CacheStores.SortedNames` | src/schemaguard/cache/store.py:251-254 | the directory names, each once, strictly increasing |
| `CacheStores.CacheStore.IterValidated` | src/schemaguard/cache/store.py:245-271 | the nested loops raise if and only if some entry makes the parser raise something unhandled; otherwise they return exactly the discoverable entries, each once, by strictly increasing key |
| `CacheIndexes.UpsertStores` | src/schemaguard/cache/index.py:165-178 | an upsert sets the row of its key, keeps all others, and keeps one row per key |
| `CacheIndexes.AddsKeepOneRowPerKey` | src/schemaguard/cache/index.py:84-90 | after any sequence of adds there is one row per key, the last one added or the old one |
| `CacheIndexes.RebuiltIndexAnswersFromDiscovery` | src/schemaguard/cache/index.py:122-138 | a rebuilt table answers any combination of the four filters with the key-ordered filter of the discovered entries |
| `CacheIndexes.RowOfArtifact` | src/schemaguard/cache/index.py:148-163 | the row of an artifact carries its metadata and its files, under the cache root |
| `CacheIndexes.AnswerMeans` | src/schemaguard/cache/index.py:92-120 | a lookup gives a row if and only if it is in the table and passes the filters |
| `CacheIndexes.AddedArtifactIsFoundIff` | src/schemaguard/cache/index.py:84-120 | an added artifact is found by a combination of filters if and only if each one given is its own key, kind, task identity or status |
| `CacheIndexes.CacheIndex.Add` | src/schemaguard/cache/index.py:84-90 | stores the row for the artifact and keeps the others; fails without change on an unreadable file |
| `CacheIndexes.CacheIndex.Lookup` | src/schemaguard/cache/index.py:92-120 | exactly the matching rows, by key; none if the file cannot be read |
| `CacheIndexes.CacheIndex.QuarantineCorruptIndex` | src/schemaguard/cache/index.py:140-146 | the file is kept aside and the index is empty |
| `CacheIndexes.CacheIndex.Rebuild` | src/schemaguard/cache/index.py:122-138 | fails without change exactly when discovery raises; otherwise, whatever the index held, every lookup is answered from discovery, and an unreadable file is kept |
| `IndexRace.NextKeepsRowsFit` | src/schemaguard/cache/index.py:84-90 | every step keeps: a settled key has a row or was dropped, never both, and every scan under way has found it, missed it, or has it ahead |
| `IndexRace.CompletedAddIsLostIff` | src/schemaguard/cache/index.py:122-138 | in every history, at every moment, a key whose add completed and whose entry has been valid since has a row if and only if the last committed rebuild did not fail to read its entry |
| `IndexRace.CompletedAddIsNeverLost` | src/schemaguard/cache/index.py:122-138 | so where no scan fails to read a valid entry, no completed add is ever lost, rebuilds racing or not |
| `IndexRace.CommittedAddHasItsRow` | src/schemaguard/cache/index.py:84-90 | in every history, after the step in which an add commits, as long as the entry stands and no scan fails to read it, the key has a row: the one the last write gave it |
| `IndexRace.CommittedAddIsTrue` | src/schemaguard/cache/index.py:84-90 | and that row is the artifact of the entry, if no add of another artifact under the key commits late |
| `IndexRace.StaleAddOverwrites` | src/schemaguard/cache/index.py:84-90 | such a late add leaves the row of an entry that is gone |
| `IndexRace.LoneAddCompletes` | src/schemaguard/cache/index.py:84-90 | an add that nobody disturbs finishes in three steps, with its row |
| `IndexRace.OneMissLosesARow` | src/schemaguard/cache/store.py:257-270 | and one failed read is enough to lose one |
| `IndexRace.RebuildHoldsStandingEntries` | src/schemaguard/cache/index.py:122-138 | a rebuild that commits has a row for every entry that stood throughout its scan and was not missed, equal to its artifact |
| `IndexRace.LoneRebuildCompletes` | src/schemaguard/cache/index.py:122-138 | a rebuild that nobody disturbs finishes, with exactly the entries as rows |
| `IndexRace.RowsStayTruthful` | src/schemaguard/cache/index.py:84-138 | rows that say what undamaged entries say go on doing so in every history |
| `IndexRace.RebuildRepairsRows` | src/schemaguard/cache/index.py:122-138 | whatever the rows were, from the first committed rebuild on those of undamaged keys are right |
| `GroupEncoding.DecimalIsInjective` | src/schemaguard/data/splits.py:53-54 | decimal texts of unbounded naturals are equal only for equal numbers |
| `GroupEncoding.IntegerTextIsInjective` | src/schemaguard/data/splits.py:53-54 | the same for integers with sign |
| `GroupEncoding.FloatTextIsInjective` | src/schemaguard/data/splits.py:55-63 | the hexadecimal text of a double identifies it; signed zeros and infinities differ |
| `GroupEncoding.BytesHexIsInjective` | src/schemaguard/data/splits.py:66-67 | the hex text of a byte string identifies it |
| `GroupEncoding.CanonicalScalarSeparates` | src/schemaguard/data/splits.py:42-74 | two cells have one canonical form if and only if they are equal as typed values, all missing kinds being one |
| `GroupEncoding.SameFormIff` | src/schemaguard/data/splits.py:42-74 | the same value by value: `None`, `NA`, `NaT` and NaN are one; any other value is one with itself alone; unlisted classes go by class name and `repr`; dtypes keep all values apart |
| `GroupEncoding.CanonicalRowSeparates` | src/schemaguard/data/splits.py:77-90 | two rows have one canonical form if and only if they agree, typed, in every column |
| `GroupEncoding.SameGroupIffSamePredictors` | src/schemaguard/data/splits.py:77-108 | two rows share a group ID if and only if they agree, typed, in every predictor column |
| `ClassCounting.CountsAreConserved` | src/schemaguard/data/splits.py:111-126 | partition sizes add up to the rows and class counts to partition sizes |
| `ClassCounting.SizeIsCount` | src/schemaguard/data/splits.py:211-214 | a partition size is the number of its rows |
| `ClassCounting.CountIsCount` | src/schemaguard/data/splits.py:111-126 | a cell of the cross table is the number of rows of a partition with a code |
| `ClassCounting.TotalIsCount` | src/schemaguard/data/splits.py:185-187 | a target count is the number of rows with a code |
| `ClassCounting.DeviationsInUnit` | src/schemaguard/data/splits.py:129-143 | every proportion deviation lies in [0, 1] |
| `ClassCounting.GuardMeans` | src/schemaguard/data/splits.py:221-222 | the class guard passes if and only if no partition is empty and two codes occur somewhere |
| `ClassCounting.PositiveGuardMeans` | src/schemaguard/data/splits.py:289-291 | a guard on positive counts would pass if and only if the partition has two classes |
| `ClassCounting.GuardIsNecessary` | src/schemaguard/data/splits.py:289-291 | the guard never rejects what its message allows |
| `ClassCounting.GuardLetsOneClassThrough` | src/schemaguard/data/splits.py:289-291 | four rows pass the guard with a one-class calibration partition |
| `FoldSelection.SelectFoldAssignment` | src/schemaguard/data/splits.py:177-255 | fails if and only if no mapping is admissible; otherwise returns the one that, in row counts and the three fractions alone, no admissible mapping beats, and the labels it induces |
| `FoldSelection.BestIsUnique` | src/schemaguard/data/splits.py:228-246 | there is one best mapping, so the order of the loops does not matter |
| `FoldSelection.LessTotal` | src/schemaguard/data/splits.py:228-246 | the order on score tuples is total and strict |
| `FoldSelection.BestIsClosest` | src/schemaguard/data/splits.py:223-246 | no admissible mapping has partition shares closer to the fractions; of those as close, none class proportions closer to the overall ones; of those, none comes first by train folds, calibration, test |
| `FoldSelection.ExactFractionsWin` | src/schemaguard/data/splits.py:223-246 | a mapping that meets the fractions exactly is never passed over for one that does not |
| `FoldSelection.TrainFoldsMeans` | src/schemaguard/data/splits.py:198-200 | the train folds are the other folds, in increasing order |
| `FoldSelection.LessFoldsMeans` | src/schemaguard/data/splits.py:230-246 | fold tuples are ordered by their first difference, a proper prefix first |
| `FoldSelection.AdmissibleMeans` | src/schemaguard/data/splits.py:195-222 | a mapping is admissible if and only if its two folds and a third have rows and the data have two codes |
| `FoldSelection.ClassCoverageHoldsIff` | src/schemaguard/data/splits.py:221-248 | every mapping the search may choose has both classes in every partition if and only if none is admissible or every used fold has two classes |
| `Splitting.NoCrossingMeansConstant` | src/schemaguard/data/splits.py:166-167 | the crossing count is zero if and only if rows of a group are in one partition |
| `Splitting.AcceptedIff` | src/schemaguard/data/splits.py:258-316 | an assignment validates if and only if it maps each target row, once, to a known partition, constantly on complete groups, no partition empty, two codes in the data |
| `Splitting.RejectionMeans` | src/schemaguard/data/splits.py:265-316 | each error of the validator says what is wrong; the class error, that a partition is empty or one code occurs |
| `Splitting.ReportCountsRows` | src/schemaguard/data/splits.py:285-288 | the reported sizes are the numbers of rows of each partition, and add up to the target rows |
| `Splitting.CollectFolds` | src/schemaguard/data/splits.py:385-397 | the loop succeeds if and only if every row is held out exactly once, and then records the fold that holds it out |
| `SplitGeneration.ShufflingChangesNothing` | src/schemaguard/data/splits.py:352-370 | permuting feature rows and target rows independently changes neither the assignment nor the error |
| `SplitGeneration.GeneratedSplitIsSound` | src/schemaguard/data/splits.py:399-406 | whatever the splitter does, an assignment that comes out lists the target IDs in order, uses every partition, and keeps rows with equal predictors together |
| `SplitGeneration.GroupedFoldsSucceedIff` | src/schemaguard/data/splits.py:399-406 | on folds that keep groups whole, an assignment comes out if and only if three folds have rows and two codes occur |
| `SplitGeneration.AcceptedSplitWithOneClass` | src/schemaguard/data/splits.py:221-291 | five rows on which the best mapping calibrates on one class, and the validator accepts its assignment |
| `SplitGeneration.BestExists` | src/schemaguard/data/splits.py:193-248 | if a mapping is admissible there is a best one |
| `SplitGeneration.FinishSplits` | src/schemaguard/data/splits.py:399-406 | selection and validation compute what the specification says, the error included |
| `SplitGeneration.SplitOrdered` | src/schemaguard/data/splits.py:379-403 | the same from the splitter's answer on |
| `SplitOutcome.GenerateSucceedsIff` | src/schemaguard/data/splits.py:337-406 | success if and only if configuration and tables are as required, the splitter answers, its folds hold every row out once, three of them rows, two codes occur, and the best pair of folds tears no group apart |
| `SplitOutcome.GeneratedSplitIsInduced` | src/schemaguard/data/splits.py:399-402 | then every row is in calibration or test if that one of the best pair of folds holds it out, and in train otherwise |
| `SplitOutcome.HeldOutSucceedsIff` | src/schemaguard/data/splits.py:385-406 | the same from the splitter's answer on |
| `SplitOutcome.BestFoldsExistIff` | src/schemaguard/data/splits.py:193-248 | there is one best pair of folds at most, and one exactly when three folds hold rows out and two codes occur |
| `SplitOutcome.TableRejectionMeans` | src/schemaguard/data/splits.py:347-364 | which error means which fault of the configuration or the tables |
| `SplitOutcome.FoldRejectionMeans` | src/schemaguard/data/splits.py:379-406 | which error means which fault of the folds; the validator at the end rejects for torn groups only |
| `SplitOutcome.PredictorsAreTheOtherColumns` | src/schemaguard/data/splits.py:99-102 | the predictors are all columns but row ID, group ID, label and code |
| `SplitGeneration.SplitDirectory.GenerateSplits` | src/schemaguard/data/splits.py:337-475 | the assignment file is written once and then only compared, a different one being an error that changes nothing; the manifest is written exactly when it is missing, unreadable or different, and keeps its creation time |
| `SplitGeneration.SplitDirectory.GenerateTwice` | src/schemaguard/data/splits.py:409-471 | a second call with the same inputs agrees with the first and writes nothing; the manifest keeps the time it was first given |
| `AssignmentHash.LogicalHashIgnoresOrderIff` | src/schemaguard/splits/caching.py:50-62 | the hash is the same for every permutation of the rows if and only if rows with one ID are equal |
| `AssignmentHash.LogicalHashIdentifies` | src/schemaguard/splits/caching.py:50-62 | on such rows, equal hashes mean equal rows, and conversely |
| `Ordering.SortIsSorted` | src/schemaguard/splits/caching.py:50-62 | sorting by a string key sorts in Python's order |
| `Ordering.LessMeans` | src/schemaguard/splits/caching.py:50-62 | strings are ordered by their first difference, a proper prefix first |
| `Ordering.SortForgetsOrderIff` | src/schemaguard/splits/caching.py:50-62 | a stable sort forgets the order of its input if and only if equal keys mean equal elements |
| `ListSchedule.GreedyBound` | src/schemaguard/experiments/evidence.py:70-79 | the greedy loads add up to the work, and twice the larger is at most the work plus the longest task |
| `ListSchedule.GreedyWithinThreeHalves` | src/schemaguard/experiments/evidence.py:70-83 | no division of the tasks between two workers has a makespan under two thirds of the greedy one |
| `ListSchedule.ThreeHalvesCoverEveryOrder` | src/schemaguard/experiments/evidence.py:82-83 | 1.5 times one greedy makespan covers the greedy schedule in any order, each task taking its estimate or less |
| `ListSchedule.ThreeHalvesIsTight` | src/schemaguard/experiments/evidence.py:82-83 | no smaller factor does |
| `RuntimeEstimates.Duration` | src/schemaguard/experiments/evidence.py:48-64 | the largest accepted runtime of a condition, or none if and only if no record supports it |
| `RuntimeEstimates.ConditionSeconds` | src/schemaguard/experiments/evidence.py:46-64 | a duration for every condition, or the error of the first one without |
| `RuntimeEstimates.ScheduleTasks` | src/schemaguard/experiments/evidence.py:70-82 | the loop computes the greedy makespan of the CPU durations and the sum of the GPU durations |
| `RuntimeEstimates.EstimateSmokeRuntime` | src/schemaguard/experiments/evidence.py:38-93 | succeeds exactly when there are records, each condition is supported and six CPU and four GPU conditions are planned; the estimate is as described |
| `RuntimeEstimates.OtherRecordsDoNotCount` | src/schemaguard/experiments/evidence.py:48-64 | a record of another model, version, device or fixture, not passed or without a positive runtime, might as well not be there |
| `RuntimeEstimates.AcceptedRunCounts` | src/schemaguard/experiments/evidence.py:48-64 | an accepted run supports its condition, whose duration is at least as long |
| `RuntimeEstimates.IdsOnMeans` | src/schemaguard/experiments/evidence.py:80-81 | the CPU and GPU condition lists hold exactly the conditions on that device |
| `RuntimeEstimates.DurationsAreThoseOfTheDevice` | src/schemaguard/experiments/evidence.py:70-81 | the CPU workers get exactly the tasks with a CPU condition, the GPU those with a CUDA condition, each with the duration of its condition |
| `RuntimeEstimates.DevicesConserveWork` | src/schemaguard/experiments/evidence.py:70-81 | CPU and GPU durations add up to those of all tasks |
| `RuntimeEstimates.EstimateMeans` | src/schemaguard/experiments/evidence.py:70-83 | the total is 1.5 times the greedy makespan of the CPU tasks, 1.5 times the GPU work, and a minute |
| `RuntimeEstimates.EstimateCoversEveryRun` | src/schemaguard/experiments/contracts.py:627-640 | whatever the order of the tasks, if none takes longer than estimated, CPU makespan plus GPU work plus a minute is within the total |
| `Calibration.Ece` | src/schemaguard/experiments/evaluation.py:80-98 | the bin loop computes the error, which is at least the gap between the share of right rows and the mean row maximum, at most one, zero on rows sure of their label, one on rows sure of another |
| `Calibration.ExactlyOneBin` | src/schemaguard/experiments/evaluation.py:84-91 | a confidence in [0, 1] is in exactly one bin |
| `Calibration.BinsPartitionTheRows` | src/schemaguard/experiments/evaluation.py:87-97 | counts, hits and confidences of the bins add up to those of all rows |
| `Calibration.ErrorIsGaps` | src/schemaguard/experiments/evaluation.py:92-97 | scaled by the rows, the error is the sum over bins of hits against summed confidence |
| `Calibration.ErrorBounds` | src/schemaguard/experiments/evaluation.py:80-98 | the error is at least the gap between accuracy and mean confidence and at most one |
| `Calibration.ErrorMeans` | src/schemaguard/experiments/evaluation.py:80-98 | the same bounds with accuracy as the share of rows whose first largest entry is the label and confidence as the mean row maximum |
| `Calibration.SureRows` | src/schemaguard/experiments/evaluation.py:80-98 | the error is zero when every row gives its label probability one |
| `Calibration.WrongRows` | src/schemaguard/experiments/evaluation.py:80-98 | and one when every row gives probability one to another class |
| `Calibration.InBinMeans` | src/schemaguard/experiments/evaluation.py:84-91 | bin b holds the confidences from b to b + 1 bin widths, the upper end excluded but for one |
| `Calibration.ErrorIgnoresOrder` | src/schemaguard/experiments/evaluation.py:80-98 | the order of the rows does not matter |
| `Probability.AcceptedIff` | src/schemaguard/models/probability.py:24-46 | accepted if and only if well labelled, finite, and every row, in the order the model gave it, within the tolerance of the simplex |
| `Probability.RejectionMeans` | src/schemaguard/models/probability.py:24-46 | each error says what is wrong with the shape, the labels or the values |
| `Probability.NormalizedMeans` | src/schemaguard/models/probability.py:41-50 | the result holds, label by label, the clipped entries; all in [0, 1]; row sums within one tolerance below and k + 1 above one; and the reported error is that of the rows as given |
| `Probability.ColumnOrderIsIrrelevant` | src/schemaguard/models/probability.py:41-42 | the order in which a model lists its classes changes neither result nor error |
| `Probability.ArgMaxSurvivesIff` | src/schemaguard/models/probability.py:47-49 | clipping keeps the first argmax of every accepted row of k columns if and only if (k - 1) times the tolerance is at most one |
| `Watchdog.MonitorWorker` | scripts/validate_model_adapters.py:384-424 | the loop ends, at the first pass that decides, with that pass's verdict; it returns exactly when the worker has exited, and raises exactly when a worker to be ended outlives both signals |
| `Watchdog.LeftAloneIff` | scripts/validate_model_adapters.py:391-423 | a pass decides nothing if and only if the worker runs and is either unmeasured, for fewer than five passes in a row, or within 28 GiB before the deadline |
| `Watchdog.VerdictMeans` | scripts/validate_model_adapters.py:391-423 | what each verdict says about the pass that gave it |
| `Watchdog.GoodWorkerIsLeftAlone` | scripts/validate_model_adapters.py:391-423 | a worker measured within the cap on every pass before the deadline is left alone until it exits |
| `Watchdog.FifthPassDecides` | scripts/validate_model_adapters.py:391-423 | a run undecided for four passes after the deadline is decided by the fifth, however missing and present telemetry alternate |
| `Watchdog.RunIsShort` | scripts/validate_model_adapters.py:389-423 | at most five samples are taken at or after the deadline, and the whole run is bounded by the timeout in pauses plus four |
| `Watchdog.Worker.Terminate` | scripts/validate_model_adapters.py:375-381 | raises if and only if both waits expire; a return means exit; SIGKILL goes only to a worker that outlived SIGTERM |
| `Materialisation.TargetsAreDistinct` | src/schemaguard/experiments/execution.py:806-810 | different tasks or sides have different files |
| `Materialisation.LoadsIff` | src/schemaguard/experiments/execution.py:605-612 | an archive is accepted if and only if it lists the calibration output with the digest of the calibration payload and the test output with that of the test payload |
| `Materialisation.QuarantineNamesTell` | src/schemaguard/experiments/execution.py:813-818 | a quarantine name determines the file moved aside, its digest and the draw |
| `Materialisation.ItemDoneIff` | src/schemaguard/experiments/execution.py:802-821 | a completed condition is done if and only if its `_calibration` and `_test` files have the digests of the two payloads |
| `Materialisation.PlaceMeans` | src/schemaguard/experiments/execution.py:811-821 | placing an output gives its file the archived digest, and the payload itself unless it had the digest before, keeps a differing file under a quarantine name, and leaves every other file alone |
| `Materialisation.PlaceLosesNothing` | src/schemaguard/experiments/execution.py:813-821 | so no earlier bytes are lost |
| `Materialisation.PredictionDirectory.PlaceOutput` | src/schemaguard/experiments/execution.py:811-821 | the body of the inner loop as one change of the directory |
| `Materialisation.PredictionDirectory.Materialise` | src/schemaguard/experiments/execution.py:762-834 | succeeds if and only if every completed condition has a usable archive; then every file has its archived digest; always: nothing lost, nothing strange added, and nothing written if all files were right before |

## Left out

- CacheIndexes.CacheIndex.Rebuild: the race of a rebuild that meets a corrupt file with other writers is not modelled; the interleaving results are for a readable index.
- CacheIndexes.CacheIndex.Add: the timeout of the writer lock is not modelled; a caller that times out changes nothing.
- CacheStores.CacheStore.IterValidated: the cache root has no plain file in the place of a prefix directory, where `iterdir` would raise.
- Materialisation.PredictionDirectory.Materialise: compares digests; that equal digests mean equal bytes is the usual assumption on SHA-256. The many checks on archive metadata and frames other than the digests are one flag.
- SplitGeneration.SplitDirectory.GenerateSplits: the fields of the split manifest other than its creation time are one text, a parameter; the column check on the target frame is left out, since the types make it.
- Watchdog.Worker.Terminate: the descendants of the worker, whose end is attempted first and whose failures are swallowed, are left out.
- RuntimeEstimates.EstimateSmokeRuntime: pydantic field constraints other than the six and four conditions hold by construction; the scheduler's order of tasks is a parameter.
- FoldSelection.SelectFoldAssignment: the deviations returned for the report are part of the score and not returned again.
- `publish_file` and `publish_file_locked` differ from `publish_bytes` in where the bytes come from; the protocol covers both, the source file changing under the copy included.
- Timestamps, fsync, path resolution, bounded-memory streaming, file system behaviour beyond an atomic rename.
- HTTP, OpenML, ARFF, Parquet, CUDA, psutil, git and subprocess plumbing: foreign behaviour.
- Fold construction, AUROC, log loss, divergences: they need libraries or logarithms that are not part of this model.
- Transformations, model adapters, the scheduler beyond its compute-once cycle, reports, gates and rendering.
- Rounding: with floats the bounds of `Calibration`, `Probability` and `ListSchedule` hold up to rounding error.
