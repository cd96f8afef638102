/** When `generate_splits` succeeds, and what then comes out, in terms of the folds alone. */
module SplitOutcome {
  import opened Wrappers
  import opened Ordering
  import opened ClassCounting
  import opened Sequences
  import opened Splitting
  import opened SplitGeneration
  import Selection = FoldSelection
  import Groups = GroupEncoding

  /** A row is calibration if fold `c` holds it out, test if fold `t` does, and train otherwise. */
  ghost predicate InducedBy(a: seq<Assignment>, h: seq<seq<nat>>, c: nat, t: nat) {
    forall f: nat, j: nat, k: nat :: At(h, f, j, k) && k < |a| ==>
      a[k].split == (if f == c then Calibration else if f == t then Test else Train)
  }

  ghost function RowsOf(targets: seq<TargetRow>, h: seq<seq<nat>>): Selection.Rows
    requires Distinct(TargetIds(targets)) && ExactlyOnce(h, |targets|)
  {
    Selection.Rows(TargetIds(targets), FoldMap(h, TargetIds(targets)), CodesOf(targets))
  }

  /** The folds `c` and `t` are admissible, and no admissible pair comes closer. */
  ghost predicate BestOnFolds(targets: seq<TargetRow>, h: seq<seq<nat>>, config: Config, c: nat, t: nat)
    requires Distinct(TargetIds(targets)) && ExactlyOnce(h, |targets|)
  {
    var rows, n := RowsOf(targets, h), config.groupFolds;
    && c != t && Selection.ValidRows(rows, n) && Selection.Admissible(rows, n, c, t)
    && forall c', t' :: Selection.Admissible(rows, n, c', t') ==> Selection.Beats(rows, n, config.fractions, c, t, c', t')
  }

  lemma BestIsBestOnFolds(targets: seq<TargetRow>, h: seq<seq<nat>>, config: Config, c: nat, t: nat)
    requires Distinct(TargetIds(targets)) && ExactlyOnce(h, |targets|) && Selection.ValidRows(RowsOf(targets, h), config.groupFolds)
    requires Selection.IsBest(RowsOf(targets, h), config.groupFolds, config.fractions, c, t)
    ensures BestOnFolds(targets, h, config, c, t)
  {
    var rows, n := RowsOf(targets, h), config.groupFolds;
    hide RowsOf, Selection.ValidRows, Selection.Less, Selection.ScoreOf;
    Selection.AdmissibleHasRows(rows, n, config.fractions, c, t);
    hide Selection.Admissible;
    forall c', t' | Selection.Admissible(rows, n, c', t')
      ensures Selection.Beats(rows, n, config.fractions, c, t, c', t')
    {
      Selection.BestIsClosest(rows, n, config.fractions, c, t, c', t');
    }
  }

  lemma AssignmentsAreInduced(targets: seq<TargetRow>, h: seq<seq<nat>>, c: nat, t: nat)
    requires Distinct(TargetIds(targets)) && ExactlyOnce(h, |targets|)
    ensures InducedBy(Assignments(TargetIds(targets), FoldMap(h, TargetIds(targets)), c, t), h, c, t)
  {
    hide Distinct, ExactlyOnce;
  }

  /** The assignment that comes out is the one of a best pair of folds. */
  lemma AssignedFromBestFolds(targets: seq<TargetRow>, groups: seq<string>, h: seq<seq<nat>>, config: Config)
    requires |groups| == |targets| && Distinct(TargetIds(targets)) && AssignHeldOut(targets, groups, Some(h), config).Ok?
    ensures ExactlyOnce(h, |targets|)
    ensures exists c: nat, t: nat :: BestOnFolds(targets, h, config, c, t) && InducedBy(AssignHeldOut(targets, groups, Some(h), config).value, h, c, t)
  {
    hide Validate, Distinct, ExactlyOnce, AtMostOnce, InducedBy, BestOnFolds, Selection.ValidRows, Selection.IsBest;
    var b := Best(RowsOf(targets, h), config.groupFolds, config.fractions);
    BestIsBestOnFolds(targets, h, config, b.0, b.1);
    AssignmentsAreInduced(targets, h, b.0, b.1);
  }

  /** Rows of one group are held out by folds on one side of the mapping. */
  ghost predicate GroupsOnOneSide(h: seq<seq<nat>>, groups: seq<string>, c: nat, t: nat) {
    forall f: nat, j: nat, k: nat, f': nat, j': nat, k': nat {:trigger At(h, f, j, k), At(h, f', j', k')} ::
      At(h, f, j, k) && At(h, f', j', k') && k < |groups| && k' < |groups| && groups[k] == groups[k'] ==>
        ((f == c) == (f' == c) && (f == t) == (f' == t))
  }

  predicate HoldsOut(h: seq<seq<nat>>, f: nat) {
    f < |h| && h[f] != []
  }

  ghost predicate ThreeFoldsHoldOut(h: seq<seq<nat>>) {
    exists f: nat, g: nat, e: nat :: f != g && f != e && g != e && HoldsOut(h, f) && HoldsOut(h, g) && HoldsOut(h, e)
  }

  lemma UsedIsHoldsOut(targets: seq<TargetRow>, h: seq<seq<nat>>, f: nat)
    requires Distinct(TargetIds(targets)) && ExactlyOnce(h, |targets|) && InRange(h, |targets|)
    ensures Selection.FoldUsed(RowsOf(targets, h), f) <==> HoldsOut(h, f)
  {
    var rows := RowsOf(targets, h);
    if HoldsOut(h, f) {
      var k := h[f][0];
      assert At(h, f, 0, k);
      assert rows.ids[k] in rows.foldOf && rows.foldOf[rows.ids[k]] == f;
    }
    if Selection.FoldUsed(rows, f) {
      var k: nat :| k < |rows.ids| && rows.ids[k] in rows.foldOf && rows.foldOf[rows.ids[k]] == f;
      assert HeldOut(h, k);
      var g: nat, j: nat :| At(h, g, j, k);
      assert g == f;
    }
  }

  lemma ThreeUsedIsThreeHeldOut(targets: seq<TargetRow>, h: seq<seq<nat>>)
    requires Distinct(TargetIds(targets)) && ExactlyOnce(h, |targets|) && InRange(h, |targets|)
    ensures ThreeFoldsUsed(RowsOf(targets, h)) <==> ThreeFoldsHoldOut(h)
  {
    var rows := RowsOf(targets, h);
    hide Distinct, ExactlyOnce, InRange, RowsOf, HoldsOut, Selection.FoldUsed;
    forall f: nat
      ensures Selection.FoldUsed(rows, f) <==> HoldsOut(h, f)
    {
      UsedIsHoldsOut(targets, h, f);
    }
    if ThreeFoldsHoldOut(h) {
      var f: nat, g: nat, e: nat :| f != g && f != e && g != e && HoldsOut(h, f) && HoldsOut(h, g) && HoldsOut(h, e);
      assert Selection.FoldUsed(rows, e) && Selection.ThirdFoldUsed(rows, f, g);
    }
  }

  lemma OneSideMeansConstant(targets: seq<TargetRow>, groups: seq<string>, h: seq<seq<nat>>, c: nat, t: nat)
    requires |groups| == |targets| && Distinct(TargetIds(targets)) && ExactlyOnce(h, |targets|) && c != t
    ensures ConstantOn(Assignments(TargetIds(targets), FoldMap(h, TargetIds(targets)), c, t), groups) <==> GroupsOnOneSide(h, groups, c, t)
  {
    var a := Assignments(TargetIds(targets), FoldMap(h, TargetIds(targets)), c, t);
    AssignmentsAreInduced(targets, h, c, t);
    hide Distinct;
    if GroupsOnOneSide(h, groups, c, t) {
      forall i, j | 0 <= i < |a| && 0 <= j < |a| && groups[i] == groups[j]
        ensures a[i].split == a[j].split
      {
        assert HeldOut(h, i) && HeldOut(h, j);
        var f: nat, l: nat :| At(h, f, l, i);
        var f': nat, l': nat :| At(h, f', l', j);
      }
    }
  }

  lemma ConstantMeansConstantOnGroups(a: seq<Assignment>, ids: seq<string>, groups: seq<string>)
    requires |groups| == |ids| && Distinct(ids) && AssignmentIds(a) == ids
    ensures GroupsKnown(a, GroupSeries(ids, groups)) && GroupIndex(GroupSeries(ids, groups)) == ids
    ensures ConstantOnGroups(a, GroupSeries(ids, groups)) <==> ConstantOn(a, groups)
  {
    hide GroupOf, Distinct;
    forall k | 0 <= k < |ids|
      ensures GroupOf(GroupSeries(ids, groups), a[k].id) == Some(groups[k])
    {
      GroupOfSeries(ids, groups, k);
      assert a[k].id == ids[k];
    }
  }

  lemma BeatsBothWays(rows: Selection.Rows, n: nat, f: Selection.Fractions, c: nat, t: nat, c': nat, t': nat)
    requires Selection.ValidRows(rows, n) && Selection.Beats(rows, n, f, c, t, c', t') && Selection.Beats(rows, n, f, c', t', c, t)
    ensures c == c' && t == t'
  {
    hide Selection.FractionDistance, Selection.ClassDistance, Selection.TrainFolds, Selection.LessFolds, Selection.ValidRows;
    Selection.LessFoldsTotal(Selection.TrainFolds(n, c, t), Selection.TrainFolds(n, c', t'));
  }

  /** There is one best pair of folds at most, and there is one exactly when three folds hold
      rows out and two codes occur. */
  lemma BestFoldsExistIff(targets: seq<TargetRow>, h: seq<seq<nat>>, config: Config)
    requires Distinct(TargetIds(targets)) && ExactlyOnce(h, |targets|) && InRange(h, |targets|) && |h| <= config.groupFolds
    ensures (exists c: nat, t: nat :: BestOnFolds(targets, h, config, c, t)) <==> ThreeFoldsHoldOut(h) && Selection.TwoCodes(CodesOf(targets))
    ensures forall c: nat, t: nat, c': nat, t': nat ::
              BestOnFolds(targets, h, config, c, t) && BestOnFolds(targets, h, config, c', t') ==> c == c' && t == t'
    ensures Selection.ValidRows(RowsOf(targets, h), config.groupFolds)
    ensures (exists c: nat, t: nat :: BestOnFolds(targets, h, config, c, t)) <==> SomeBest(RowsOf(targets, h), config.groupFolds, config.fractions)
  {
    var rows, n := RowsOf(targets, h), config.groupFolds;
    FoldMapIsValid(rows.foldOf, h, TargetIds(targets), CodesOf(targets), n);
    ThreeUsedIsThreeHeldOut(targets, h);
    SomeAdmissibleIff(rows, n, config.fractions);
    hide Distinct, ExactlyOnce, InRange, Selection.ValidRows, Selection.Admissible, Selection.Beats, ThreeFoldsHoldOut, Selection.TwoCodes, ThreeFoldsUsed;
    hide Selection.IsBest;
    if c: nat, t: nat :| BestOnFolds(targets, h, config, c, t) {
      BestExists(rows, n, config.fractions, c, t);
    }
    if SomeBest(rows, n, config.fractions) {
      var b := Best(rows, n, config.fractions);
      BestIsBestOnFolds(targets, h, config, b.0, b.1);
    }
    forall c: nat, t: nat, c': nat, t': nat | BestOnFolds(targets, h, config, c, t) && BestOnFolds(targets, h, config, c', t')
      ensures c == c' && t == t'
    {
      BeatsBothWays(rows, n, config.fractions, c, t, c', t');
    }
  }

  /** An assignment of the targets in order passes the validator exactly when it uses every
      partition, tears no group apart, and two codes occur. */
  lemma OrderedAssignmentPassesIff(targets: seq<TargetRow>, groups: seq<string>, a: seq<Assignment>, config: Config)
    requires |groups| == |targets| && Distinct(TargetIds(targets)) && config.strategy == "stratified_group_5fold_v1"
    requires AssignmentIds(a) == TargetIds(targets) && forall k :: 0 <= k < |a| ==> !a[k].split.Unknown?
    ensures Validate(["__sg_row_id", "split"], a, targets, config.strategy, Some(GroupSeries(TargetIds(targets), groups))).Ok? <==>
            UsesEveryPartition(a) && ConstantOn(a, groups) && Selection.TwoCodes(CodesOf(targets))
  {
    var ids := TargetIds(targets);
    assert |a| == |AssignmentIds(a)| == |targets|;
    hide Validate, Distinct, ConstantOnGroups, ConstantOn, GroupsKnown, GroupOf, IdSet, Selection.TwoCodes;
    ConstantMeansConstantOnGroups(a, ids, groups);
    JoinedCodesAreTheCodes(a, targets);
    AcceptedIff(["__sg_row_id", "split"], a, targets, config.strategy, Some(GroupSeries(ids, groups)));
  }

  lemma AdmissibleAssignmentPassesIff(targets: seq<TargetRow>, groups: seq<string>, h: seq<seq<nat>>, config: Config, c: nat, t: nat,
                                      rows: Selection.Rows, a: seq<Assignment>)
    requires |groups| == |targets| && Distinct(TargetIds(targets)) && config.strategy == "stratified_group_5fold_v1"
    requires ExactlyOnce(h, |targets|) && a == Assignments(TargetIds(targets), FoldMap(h, TargetIds(targets)), c, t)
    requires rows == Selection.Rows(TargetIds(targets), FoldMap(h, TargetIds(targets)), CodesOf(targets))
    requires Selection.ValidRows(rows, config.groupFolds) && Selection.Admissible(rows, config.groupFolds, c, t)
    ensures Validate(["__sg_row_id", "split"], a, targets, config.strategy, Some(GroupSeries(TargetIds(targets), groups))).Ok? <==>
            GroupsOnOneSide(h, groups, c, t)
  {
    AdmissibleMeansUsed(rows, config.groupFolds, c, t);
    LabelsAreKnown(rows.ids, rows.foldOf, c, t);
    hide *;
    AdmissibleUsesAll(rows, config.groupFolds, c, t, a);
    OneSideMeansConstant(targets, groups, h, c, t);
    OrderedAssignmentPassesIff(targets, groups, a, config);
  }

  lemma LabelsAreKnown(ids: seq<string>, foldOf: map<string, nat>, c: nat, t: nat)
    requires forall k :: 0 <= k < |ids| ==> ids[k] in foldOf
    ensures AssignmentIds(Assignments(ids, foldOf, c, t)) == ids
    ensures forall k :: 0 <= k < |ids| ==> !Assignments(ids, foldOf, c, t)[k].split.Unknown?
  {
  }

  lemma AdmissibleMeansUsed(rows: Selection.Rows, n: nat, c: nat, t: nat)
    requires Selection.ValidRows(rows, n) && Selection.Admissible(rows, n, c, t)
    ensures c != t && Selection.TwoCodes(rows.codes)
  {
    Selection.AdmissibleMeans(rows, n, c, t);
  }

  lemma BestIsAdmissible(rows: Selection.Rows, n: nat, f: Selection.Fractions, c: nat, t: nat)
    requires Selection.ValidRows(rows, n) && Selection.IsBest(rows, n, f, c, t)
    ensures Selection.Admissible(rows, n, c, t)
  {
  }

  /** The folds make a split: every row is held out once, three folds hold rows out, two codes
      occur, and the best pair of folds tears no group apart. */
  ghost predicate FoldsMakeASplit(targets: seq<TargetRow>, groups: seq<string>, h: seq<seq<nat>>, config: Config)
    requires Distinct(TargetIds(targets))
  {
    && ExactlyOnce(h, |targets|) && ThreeFoldsHoldOut(h) && Selection.TwoCodes(CodesOf(targets))
    && forall c: nat, t: nat :: BestOnFolds(targets, h, config, c, t) ==> GroupsOnOneSide(h, groups, c, t)
  }

  /** A split comes out of the splitter's folds exactly when they make one. */
  lemma HeldOutSucceedsIff(targets: seq<TargetRow>, groups: seq<string>, h: seq<seq<nat>>, config: Config)
    requires |groups| == |targets| && Distinct(TargetIds(targets)) && config.strategy == "stratified_group_5fold_v1"
    requires InRange(h, |targets|) && |h| <= config.groupFolds
    ensures AssignHeldOut(targets, groups, Some(h), config).Ok? <==>
            FoldsMakeASplit(targets, groups, h, config)
  {
    hide Validate, Distinct, InRange, BestOnFolds, GroupsOnOneSide, ThreeFoldsHoldOut, Selection.TwoCodes, Selection.IsBest, Selection.ValidRows, SomeBest;
    if ExactlyOnce(h, |targets|) {
      OnceIsAtMostOnce(h, |targets|);
      BestFoldsExistIff(targets, h, config);
      hide ExactlyOnce, AtMostOnce;
      if SomeBest(RowsOf(targets, h), config.groupFolds, config.fractions) {
        var b := Best(RowsOf(targets, h), config.groupFolds, config.fractions);
        BestIsBestOnFolds(targets, h, config, b.0, b.1);
        BestIsAdmissible(RowsOf(targets, h), config.groupFolds, config.fractions, b.0, b.1);
        AdmissibleAssignmentPassesIff(targets, groups, h, config, b.0, b.1, RowsOf(targets, h),
                                      Assignments(TargetIds(targets), FoldMap(h, TargetIds(targets)), b.0, b.1));
      }
    }
  }

  /** The configuration that is supported. */
  predicate Supported(config: Config) {
    config.strategy == "stratified_group_5fold_v1" && config.groupBy == "predictors" && config.groupFolds == 5
  }

  /** The tables are usable: row IDs are unique in both and the same in both, and some column is
      a predictor. */
  ghost predicate UsableTables(frame: Frame, targets: seq<TargetRow>) {
    && Distinct(TargetIds(targets)) && Distinct(FeatureIds(frame.rows)) && IdSet(FeatureIds(frame.rows)) == IdSet(TargetIds(targets))
    && exists c :: c in frame.columns && IsPredictor(c)
  }

  predicate IsPredictor(column: string) {
    column != "__sg_row_id" && column != "__sg_group_id" && column != "target_label" && column != "target_code"
  }

  /** Neither the IDs nor the targets are predictors; all other columns are. */
  lemma PredictorsAreTheOtherColumns(columns: seq<string>)
    ensures forall c :: c in Groups.PredictorColumns(columns) <==> c in columns && IsPredictor(c)
    ensures Groups.PredictorColumns(columns) != [] <==> exists c :: c in columns && IsPredictor(c)
  {
    var r := Groups.PredictorColumns(columns);
    assert forall c :: c in Groups.ExcludedColumns <==> !IsPredictor(c);
    if r != [] {
      assert r[0] in r && IsPredictor(r[0]);
    }
  }

  /** The features in the order of the targets, which are sorted by ID. */
  ghost function InOrder(frame: Frame, targets: seq<TargetRow>): (r: Frame)
    requires Rectangular(frame) && UsableTables(frame, targets)
    ensures Distinct(TargetIds(SortBy(targetKey, targets))) && Rectangular(r) && |r.rows| == |SortBy(targetKey, targets)|
  {
    SameTargetIds(SortBy(targetKey, targets), targets);
    frame.(rows := OrderedRows(frame.rows, TargetIds(SortBy(targetKey, targets))))
  }

  /** What the splitter answers on the ordered rows. */
  ghost function FoldsFor(frame: Frame, targets: seq<TargetRow>, hash: Groups.Hasher, splitter: Splitter): Option<seq<seq<nat>>>
    requires Rectangular(frame) && UsableTables(frame, targets)
  {
    splitter(CellsOf(InOrder(frame, targets).rows), CodesOf(SortBy(targetKey, targets)), GroupIds(hash, InOrder(frame, targets)))
  }

  lemma GenerateRefines(frame: Frame, targets: seq<TargetRow>, config: Config, hash: Groups.Hasher, splitter: Splitter)
    requires Rectangular(frame)
    ensures Generate(frame, targets, config, hash, splitter).Ok? ==> Supported(config) && UsableTables(frame, targets)
    ensures Supported(config) && UsableTables(frame, targets) ==>
            var sorted := SortBy(targetKey, targets);
            Generate(frame, targets, config, hash, splitter)
            == AssignHeldOut(sorted, GroupIds(hash, InOrder(frame, targets)), FoldsFor(frame, targets, hash, splitter), config)
  {
    SameTargetIds(SortBy(targetKey, targets), targets);
    PredictorsAreTheOtherColumns(frame.columns);
    hide AssignHeldOut, SortBy, Distinct, Groups.PredictorColumns, Groups.CoversColumns;
  }

  /** `generate_splits` succeeds exactly when the configuration is supported, the tables are
      usable, the splitter does not raise, and its folds make a split. */
  lemma GenerateSucceedsIff(frame: Frame, targets: seq<TargetRow>, config: Config, hash: Groups.Hasher, splitter: Splitter)
    requires Rectangular(frame) && SplitterFits(splitter, 5)
    ensures Generate(frame, targets, config, hash, splitter).Ok? <==>
            (&& Supported(config) && UsableTables(frame, targets)
             && var h := FoldsFor(frame, targets, hash, splitter);
             h.Some? && FoldsMakeASplit(SortBy(targetKey, targets), GroupIds(hash, InOrder(frame, targets)), h.value, config))
  {
    GenerateRefines(frame, targets, config, hash, splitter);
    hide Generate, UsableTables, Rectangular, SortBy, ThreeFoldsHoldOut, ExactlyOnce, Selection.TwoCodes, BestOnFolds, GroupsOnOneSide, InRange;
    if Supported(config) && UsableTables(frame, targets) {
      var h := FoldsFor(frame, targets, hash, splitter);
      var groups := GroupIds(hash, InOrder(frame, targets));
      if h.Some? {
        HeldOutSucceedsIff(SortBy(targetKey, targets), groups, h.value, config);
      }
    }
  }

  /** And then every row is where the best pair of folds puts it. */
  lemma GeneratedSplitIsInduced(frame: Frame, targets: seq<TargetRow>, config: Config, hash: Groups.Hasher, splitter: Splitter)
    requires Rectangular(frame) && Generate(frame, targets, config, hash, splitter).Ok?
    ensures UsableTables(frame, targets)
    ensures var sorted := SortBy(targetKey, targets);
            var a := Generate(frame, targets, config, hash, splitter).value;
            var h := FoldsFor(frame, targets, hash, splitter);
            h.Some? && AssignmentIds(a) == TargetIds(sorted) && ExactlyOnce(h.value, |sorted|)
            && exists c: nat, t: nat :: BestOnFolds(sorted, h.value, config, c, t) && InducedBy(a, h.value, c, t)
  {
    GenerateRefines(frame, targets, config, hash, splitter);
    GeneratedSplitIsSound(frame, targets, config, hash, splitter);
    hide Generate, Rectangular, SortBy, AssignFolds, InducedBy, BestOnFolds, ExactlyOnce, AtMostOnce, Distinct, UsesEveryPartition;
    var sorted := SortBy(targetKey, targets);
    var h := FoldsFor(frame, targets, hash, splitter);
    AssignedFromBestFolds(sorted, GroupIds(hash, InOrder(frame, targets)), h.value, config);
  }

  // ----- what an error says -----

  /** On an assignment of the ordered targets that uses every partition, with two codes in the data,
      the validator has one reason left to reject. */
  lemma OnlyCrossingIsLeft(targets: seq<TargetRow>, groups: seq<string>, a: seq<Assignment>, config: Config, e: SplitError)
    requires |groups| == |targets| && Distinct(TargetIds(targets)) && config.strategy == "stratified_group_5fold_v1"
    requires AssignmentIds(a) == TargetIds(targets) && forall k :: 0 <= k < |a| ==> !a[k].split.Unknown?
    requires UsesEveryPartition(a) && Selection.TwoCodes(CodesOf(targets))
    requires Validate(["__sg_row_id", "split"], a, targets, config.strategy, Some(GroupSeries(TargetIds(targets), groups))) == Err(e)
    ensures e == GroupCrosses
  {
    var ids := TargetIds(targets);
    assert |a| == |AssignmentIds(a)| == |targets|;
    hide Validate, Distinct, ConstantOnGroups, ConstantOn, GroupsKnown, GroupOf, IdSet, Selection.TwoCodes;
    ConstantMeansConstantOnGroups(a, ids, groups);
    JoinedCodesAreTheCodes(a, targets);
    RejectionMeans(["__sg_row_id", "split"], a, targets, config.strategy, Some(GroupSeries(ids, groups)), e);
  }

  lemma AdmissibleFailsForCrossing(targets: seq<TargetRow>, groups: seq<string>, h: seq<seq<nat>>, config: Config, c: nat, t: nat,
                                   rows: Selection.Rows, a: seq<Assignment>, e: SplitError)
    requires |groups| == |targets| && Distinct(TargetIds(targets)) && config.strategy == "stratified_group_5fold_v1"
    requires ExactlyOnce(h, |targets|) && a == Assignments(TargetIds(targets), FoldMap(h, TargetIds(targets)), c, t)
    requires rows == Selection.Rows(TargetIds(targets), FoldMap(h, TargetIds(targets)), CodesOf(targets))
    requires Selection.ValidRows(rows, config.groupFolds) && Selection.Admissible(rows, config.groupFolds, c, t)
    requires Validate(["__sg_row_id", "split"], a, targets, config.strategy, Some(GroupSeries(TargetIds(targets), groups))) == Err(e)
    ensures e == GroupCrosses
  {
    AdmissibleMeansUsed(rows, config.groupFolds, c, t);
    LabelsAreKnown(rows.ids, rows.foldOf, c, t);
    hide *;
    AdmissibleUsesAll(rows, config.groupFolds, c, t, a);
    OnlyCrossingIsLeft(targets, groups, a, config, e);
  }

  /** The best pair of folds tears a group apart. */
  ghost predicate BestTearsAGroup(targets: seq<TargetRow>, groups: seq<string>, h: seq<seq<nat>>, config: Config)
    requires Distinct(TargetIds(targets)) && ExactlyOnce(h, |targets|)
  {
    exists c: nat, t: nat :: BestOnFolds(targets, h, config, c, t) && !GroupsOnOneSide(h, groups, c, t)
  }

  lemma BestFailsForCrossing(targets: seq<TargetRow>, groups: seq<string>, h: seq<seq<nat>>, config: Config, e: SplitError)
    requires |groups| == |targets| && Distinct(TargetIds(targets)) && config.strategy == "stratified_group_5fold_v1"
    requires ExactlyOnce(h, |targets|) && Selection.ValidRows(RowsOf(targets, h), config.groupFolds)
    requires SomeBest(RowsOf(targets, h), config.groupFolds, config.fractions)
    requires AssignFolds(targets, groups, FoldMap(h, TargetIds(targets)), config) == Err(e)
    ensures e == GroupCrosses
  {
    hide Validate, Distinct, Selection.IsBest, Selection.ValidRows, SomeBest, ExactlyOnce;
    var b := Best(RowsOf(targets, h), config.groupFolds, config.fractions);
    BestIsAdmissible(RowsOf(targets, h), config.groupFolds, config.fractions, b.0, b.1);
    AdmissibleFailsForCrossing(targets, groups, h, config, b.0, b.1, RowsOf(targets, h),
                               Assignments(TargetIds(targets), FoldMap(h, TargetIds(targets)), b.0, b.1), e);
  }

  lemma HeldOutRejectionMeans(targets: seq<TargetRow>, groups: seq<string>, h: seq<seq<nat>>, config: Config, e: SplitError)
    requires |groups| == |targets| && Distinct(TargetIds(targets)) && config.strategy == "stratified_group_5fold_v1"
    requires InRange(h, |targets|) && |h| <= config.groupFolds
    requires AssignHeldOut(targets, groups, Some(h), config) == Err(e)
    ensures match e
            case RowInTwoFolds => !AtMostOnce(h)
            case FoldsIncomplete => AtMostOnce(h) && !ExactlyOnce(h, |targets|)
            case NoAssignment => ExactlyOnce(h, |targets|) && !(ThreeFoldsHoldOut(h) && Selection.TwoCodes(CodesOf(targets)))
            case GroupCrosses => ExactlyOnce(h, |targets|) && BestTearsAGroup(targets, groups, h, config)
            case _ => false
  {
    hide Validate, Distinct, InRange, BestOnFolds, GroupsOnOneSide, ThreeFoldsHoldOut, Selection.TwoCodes, Selection.IsBest, Selection.ValidRows, SomeBest;
    HeldOutSucceedsIff(targets, groups, h, config);
    if ExactlyOnce(h, |targets|) {
      OnceIsAtMostOnce(h, |targets|);
      BestFoldsExistIff(targets, h, config);
      hide ExactlyOnce, AtMostOnce;
      if SomeBest(RowsOf(targets, h), config.groupFolds, config.fractions) {
        BestFailsForCrossing(targets, groups, h, config, e);
        hide AssignFolds;
      }
    }
  }

  /** What an error of `generate_splits` says about the configuration and the tables. */
  lemma TableRejectionMeans(frame: Frame, targets: seq<TargetRow>, config: Config, hash: Groups.Hasher, splitter: Splitter, e: SplitError)
    requires Rectangular(frame) && Generate(frame, targets, config, hash, splitter) == Err(e) && !(Supported(config) && UsableTables(frame, targets))
    ensures match e
            case UnsupportedStrategy => !Supported(config)
            case TargetIdsNotUnique => !Distinct(TargetIds(targets))
            case FeatureIdsNotUnique => !Distinct(FeatureIds(frame.rows))
            case RowIdsDiffer => IdSet(FeatureIds(frame.rows)) != IdSet(TargetIds(targets))
            case NoPredictors => forall c :: c in frame.columns ==> !IsPredictor(c)
            case _ => false
  {
    SameTargetIds(SortBy(targetKey, targets), targets);
    PredictorsAreTheOtherColumns(frame.columns);
    hide GenerateOrdered, SortBy, Distinct, Groups.PredictorColumns, Groups.CoversColumns;
  }

  /** And on usable tables about the folds: the validator at the end rejects for torn groups only. */
  lemma FoldRejectionMeans(frame: Frame, targets: seq<TargetRow>, config: Config, hash: Groups.Hasher, splitter: Splitter, e: SplitError)
    requires Rectangular(frame) && SplitterFits(splitter, 5) && Supported(config) && UsableTables(frame, targets)
    requires Generate(frame, targets, config, hash, splitter) == Err(e)
    ensures var sorted, h := SortBy(targetKey, targets), FoldsFor(frame, targets, hash, splitter);
            var groups := GroupIds(hash, InOrder(frame, targets));
            match e
            case SplitterFailed => h.None?
            case RowInTwoFolds => h.Some? && !AtMostOnce(h.value)
            case FoldsIncomplete => h.Some? && AtMostOnce(h.value) && !ExactlyOnce(h.value, |sorted|)
            case NoAssignment => h.Some? && ExactlyOnce(h.value, |sorted|) && !(ThreeFoldsHoldOut(h.value) && Selection.TwoCodes(CodesOf(sorted)))
            case GroupCrosses => h.Some? && ExactlyOnce(h.value, |sorted|) && BestTearsAGroup(sorted, groups, h.value, config)
            case _ => false
  {
    GenerateRefines(frame, targets, config, hash, splitter);
    hide Generate, UsableTables, Rectangular, SortBy, ThreeFoldsHoldOut, ExactlyOnce, AtMostOnce, Selection.TwoCodes, InRange, BestTearsAGroup, AssignFolds;
    var h := FoldsFor(frame, targets, hash, splitter);
    if h.Some? {
      HeldOutRejectionMeans(SortBy(targetKey, targets), GroupIds(hash, InOrder(frame, targets)), h.value, config, e);
    }
  }
}
