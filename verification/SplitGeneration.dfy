/** `generate_splits` end to end, for an arbitrary deterministic splitter. */
module SplitGeneration {
  import opened Wrappers
  import opened Ordering
  import opened ClassCounting
  import opened Sequences
  import opened Splitting
  import Selection = FoldSelection
  import Groups = GroupEncoding

  datatype FeatureRow = FeatureRow(id: string, cells: Groups.Row)
  datatype Frame = Frame(columns: seq<string>, dtypes: map<string, string>, rows: seq<FeatureRow>)
  datatype Config = Config(strategy: string, groupBy: string, groupFolds: nat, fractions: Selection.Fractions)

  /** `StratifiedGroupKFold.split` with its seed fixed: any function of its inputs, which may
      raise (`None`). All that is asked of it is to hold out rows that exist, in
      no more folds than it was set up for. */
  type Splitter = (seq<Groups.Row>, seq<int>, seq<string>) -> Option<seq<seq<nat>>>

  ghost predicate SplitterFits(splitter: Splitter, folds: nat) {
    forall p: seq<Groups.Row>, codes: seq<int>, groups: seq<string> ::
      splitter(p, codes, groups).Some? ==>
        InRange(splitter(p, codes, groups).value, |codes|) && |splitter(p, codes, groups).value| <= folds
  }

  /** Every row has a cell in every predictor column. */
  predicate Rectangular(frame: Frame) {
    var columns := Groups.PredictorColumns(frame.columns);
    && (forall c :: c in columns ==> c in frame.dtypes)
    && (forall k :: 0 <= k < |frame.rows| ==> Groups.CoversColumns(frame.rows[k].cells, columns))
  }

  const targetKey := (r: TargetRow) => r.id

  function FeatureIds(rows: seq<FeatureRow>): (r: seq<string>)
    ensures |r| == |rows| && forall k :: 0 <= k < |r| ==> r[k] == rows[k].id
  {
    seq(|rows|, k requires 0 <= k < |rows| => rows[k].id)
  }

  /** `features_by_id.loc[id]`. */
  function RowAt(rows: seq<FeatureRow>, id: string): (r: FeatureRow)
    requires id in FeatureIds(rows)
    ensures r in rows && r.id == id
  {
    if rows[0].id == id then rows[0]
    else
      assert FeatureIds(rows[1..]) == FeatureIds(rows)[1..];
      RowAt(rows[1..], id)
  }

  function OrderedRows(rows: seq<FeatureRow>, ids: seq<string>): (r: seq<FeatureRow>)
    requires IdSet(FeatureIds(rows)) == IdSet(ids)
    ensures |r| == |ids| && forall k :: 0 <= k < |r| ==> r[k] in rows && r[k].id == ids[k]
  {
    assert forall k :: 0 <= k < |ids| ==> ids[k] in IdSet(ids) && ids[k] in IdSet(FeatureIds(rows));
    seq(|ids|, k requires 0 <= k < |ids| => RowAt(rows, ids[k]))
  }

  function CellsOf(rows: seq<FeatureRow>): (r: seq<Groups.Row>)
    ensures |r| == |rows| && forall k :: 0 <= k < |r| ==> r[k] == rows[k].cells
  {
    seq(|rows|, k requires 0 <= k < |rows| => rows[k].cells)
  }

  function CodesOf(t: seq<TargetRow>): (r: seq<int>)
    ensures |r| == |t| && forall k :: 0 <= k < |r| ==> r[k] == t[k].code
  {
    seq(|t|, k requires 0 <= k < |t| => t[k].code)
  }

  function GroupIds(hash: Groups.Hasher, frame: Frame): (r: seq<string>)
    requires Rectangular(frame)
    ensures |r| == |frame.rows|
    ensures forall k :: 0 <= k < |r| ==>
              r[k] == Groups.PredictorGroupId(hash, frame.rows[k].cells, Groups.PredictorColumns(frame.columns), frame.dtypes)
  {
    seq(|frame.rows|, k requires 0 <= k < |frame.rows| =>
      Groups.PredictorGroupId(hash, frame.rows[k].cells, Groups.PredictorColumns(frame.columns), frame.dtypes))
  }

  function GroupSeries(ids: seq<string>, groups: seq<string>): (r: seq<GroupEntry>)
    requires |ids| == |groups|
    ensures |r| == |ids| && forall k :: 0 <= k < |r| ==> r[k] == GroupEntry(ids[k], Some(groups[k]))
  {
    seq(|ids|, k requires 0 <= k < |ids| => GroupEntry(ids[k], Some(groups[k])))
  }

  function Assignments(ids: seq<string>, foldOf: map<string, nat>, c: nat, t: nat): (r: seq<Assignment>)
    requires forall k :: 0 <= k < |ids| ==> ids[k] in foldOf
    ensures |r| == |ids|
    ensures forall k :: 0 <= k < |r| ==> r[k] == Assignment(ids[k], Selection.LabelOf(foldOf[ids[k]], c, t))
  {
    seq(|ids|, k requires 0 <= k < |ids| => Assignment(ids[k], Selection.LabelOf(foldOf[ids[k]], c, t)))
  }

  // ----- the fold map and the selection as values -----

  ghost function FoldAt(heldOut: seq<seq<nat>>, k: nat): nat
    requires HeldOut(heldOut, k)
  {
    var f: nat :| exists j: nat :: At(heldOut, f, j, k);
    f
  }

  ghost function FoldMap(heldOut: seq<seq<nat>>, ids: seq<string>): (m: map<string, nat>)
    requires Distinct(ids) && ExactlyOnce(heldOut, |ids|)
    ensures IsFoldMap(m, heldOut, ids)
  {
    map k | 0 <= k < |ids| :: ids[k] := FoldAt(heldOut, k)
  }

  lemma FoldMapIsUnique(m: map<string, nat>, heldOut: seq<seq<nat>>, ids: seq<string>)
    requires Distinct(ids) && ExactlyOnce(heldOut, |ids|) && IsFoldMap(m, heldOut, ids)
    ensures m == FoldMap(heldOut, ids)
  {
    var m' := FoldMap(heldOut, ids);
    forall id | id in m
      ensures m[id] == m'[id]
    {
      assert id in IdSet(ids);
      var k: nat :| k < |ids| && ids[k] == id;
      assert HeldOut(heldOut, k);
      var f: nat, j: nat :| At(heldOut, f, j, k);
    }
    assert m.Keys == m'.Keys;
  }

  ghost predicate SomeBest(rows: Selection.Rows, n: nat, f: Selection.Fractions)
    requires Selection.ValidRows(rows, n)
  {
    exists c: nat, t: nat :: Selection.IsBest(rows, n, f, c, t)
  }

  ghost function Best(rows: Selection.Rows, n: nat, f: Selection.Fractions): (b: (nat, nat))
    requires Selection.ValidRows(rows, n) && SomeBest(rows, n, f)
    ensures Selection.IsBest(rows, n, f, b.0, b.1)
  {
    var c: nat, t: nat :| Selection.IsBest(rows, n, f, c, t);
    (c, t)
  }

  // ----- the whole of generate_splits -----

  /** From a fold map to the validated assignment. */
  ghost function AssignFolds(targets: seq<TargetRow>, groups: seq<string>, foldOf: map<string, nat>, config: Config)
    : Result<seq<Assignment>, SplitError>
    requires |groups| == |targets| && Distinct(TargetIds(targets))
  {
    var ids := TargetIds(targets);
    var rows := Selection.Rows(ids, foldOf, CodesOf(targets));
    if !Selection.ValidRows(rows, config.groupFolds) || !SomeBest(rows, config.groupFolds, config.fractions) then Err(NoAssignment)
    else
      var b := Best(rows, config.groupFolds, config.fractions);
      var a := Assignments(ids, foldOf, b.0, b.1);
      match Validate(["__sg_row_id", "split"], a, targets, config.strategy, Some(GroupSeries(ids, groups)))
      case Err(e) => Err(e)
      case Ok(_) => Ok(a)
  }

  /** From the splitter's answer to the assignment. */
  ghost function AssignHeldOut(targets: seq<TargetRow>, groups: seq<string>, heldOut: Option<seq<seq<nat>>>, config: Config)
    : Result<seq<Assignment>, SplitError>
    requires |groups| == |targets| && Distinct(TargetIds(targets))
  {
    match heldOut
    case None => Err(SplitterFailed)
    case Some(h) =>
      if !AtMostOnce(h) then Err(RowInTwoFolds)
      else if !ExactlyOnce(h, |targets|) then Err(FoldsIncomplete)
      else AssignFolds(targets, groups, FoldMap(h, TargetIds(targets)), config)
  }

  /** From the sorted targets and the features in their order to the assignment. */
  ghost function GenerateOrdered(frame: Frame, targets: seq<TargetRow>, config: Config, hash: Groups.Hasher, splitter: Splitter)
    : Result<seq<Assignment>, SplitError>
    requires Rectangular(frame) && |frame.rows| == |targets| && Distinct(TargetIds(targets))
  {
    var groups := GroupIds(hash, frame);
    AssignHeldOut(targets, groups, splitter(CellsOf(frame.rows), CodesOf(targets), groups), config)
  }

  /** `generate_splits` up to the files it writes. */
  ghost function Generate(frame: Frame, targets: seq<TargetRow>, config: Config, hash: Groups.Hasher, splitter: Splitter)
    : Result<seq<Assignment>, SplitError>
    requires Rectangular(frame)
  {
    var sorted := SortBy(targetKey, targets);
    var ids := TargetIds(sorted);
    if config.strategy != "stratified_group_5fold_v1" || config.groupBy != "predictors" || config.groupFolds != 5
    then Err(UnsupportedStrategy)
    else if !Distinct(ids) then Err(TargetIdsNotUnique)
    else if !Distinct(FeatureIds(frame.rows)) then Err(FeatureIdsNotUnique)
    else if IdSet(FeatureIds(frame.rows)) != IdSet(ids) then Err(RowIdsDiffer)
    else if Groups.PredictorColumns(frame.columns) == [] then Err(NoPredictors)
    else GenerateOrdered(frame.(rows := OrderedRows(frame.rows, ids)), sorted, config, hash, splitter)
  }

  // ----- shuffling -----

  lemma {:induction false} DistinctIffAsManyIds(ids: seq<string>)
    ensures Distinct(ids) <==> |IdSet(ids)| == |ids|
    ensures |IdSet(ids)| <= |ids|
  {
    if ids != [] {
      var rest := ids[1..];
      DistinctIffAsManyIds(rest);
      assert ids == [ids[0]] + rest;
      assert IdSet(ids) == {ids[0]} + IdSet(rest);
      assert Distinct(ids) <==> Distinct(rest) && ids[0] !in rest;
    }
  }

  lemma SameTargetIds(s: seq<TargetRow>, t: seq<TargetRow>)
    requires multiset(s) == multiset(t)
    ensures IdSet(TargetIds(s)) == IdSet(TargetIds(t)) && |s| == |t|
    ensures Distinct(TargetIds(s)) <==> Distinct(TargetIds(t))
  {
    assert |multiset(s)| == |s| && |multiset(t)| == |t|;
    DistinctIffAsManyIds(TargetIds(s));
    DistinctIffAsManyIds(TargetIds(t));
    IdsWithin(s, t);
    IdsWithin(t, s);
  }

  lemma IdsWithin(s: seq<TargetRow>, t: seq<TargetRow>)
    requires multiset(s) == multiset(t)
    ensures IdSet(TargetIds(s)) <= IdSet(TargetIds(t))
  {
    forall id | id in IdSet(TargetIds(s))
      ensures id in IdSet(TargetIds(t))
    {
      var k :| 0 <= k < |s| && TargetIds(s)[k] == id;
      assert s[k] in multiset(t);
      var l :| 0 <= l < |t| && t[l] == s[k];
      assert TargetIds(t)[l] == id;
    }
  }

  lemma FeatureIdsWithin(s: seq<FeatureRow>, t: seq<FeatureRow>)
    requires multiset(s) == multiset(t)
    ensures IdSet(FeatureIds(s)) <= IdSet(FeatureIds(t))
  {
    forall id | id in IdSet(FeatureIds(s))
      ensures id in IdSet(FeatureIds(t))
    {
      var k :| 0 <= k < |s| && FeatureIds(s)[k] == id;
      assert s[k] in multiset(t);
      var l :| 0 <= l < |t| && t[l] == s[k];
      assert FeatureIds(t)[l] == id;
    }
  }

  lemma SameFeatureIds(s: seq<FeatureRow>, t: seq<FeatureRow>)
    requires multiset(s) == multiset(t)
    ensures IdSet(FeatureIds(s)) == IdSet(FeatureIds(t))
    ensures Distinct(FeatureIds(s)) <==> Distinct(FeatureIds(t))
  {
    assert |multiset(s)| == |s| && |multiset(t)| == |t|;
    DistinctIffAsManyIds(FeatureIds(s));
    DistinctIffAsManyIds(FeatureIds(t));
    FeatureIdsWithin(s, t);
    FeatureIdsWithin(t, s);
  }

  /** With distinct IDs a row is found by its ID wherever it stands. */
  lemma SameRowAt(s: seq<FeatureRow>, t: seq<FeatureRow>, id: string)
    requires multiset(s) == multiset(t) && Distinct(FeatureIds(s))
    requires id in FeatureIds(s) && id in FeatureIds(t)
    ensures RowAt(s, id) == RowAt(t, id)
  {
    hide RowAt;
    var r, r' := RowAt(s, id), RowAt(t, id);
    assert r' in multiset(t) && r' in multiset(s);
    var i :| 0 <= i < |s| && s[i] == r;
    var j :| 0 <= j < |s| && s[j] == r';
    assert FeatureIds(s)[i] == FeatureIds(s)[j];
  }

  lemma SameSortedTargets(s: seq<TargetRow>, t: seq<TargetRow>)
    requires multiset(s) == multiset(t) && Distinct(TargetIds(s))
    ensures SortBy(targetKey, s) == SortBy(targetKey, t)
  {
    forall i, j | 0 <= i < |s| && 0 <= j < |s| && targetKey(s[i]) == targetKey(s[j])
      ensures s[i] == s[j]
    {
      assert TargetIds(s)[i] == TargetIds(s)[j];
    }
    SortIgnoresOrder(targetKey, s, t);
  }

  /** Shuffling the feature rows and the target rows, independently, changes nothing: neither
      the assignment nor the error, if there is one. */
  lemma ShufflingChangesNothing(frame: Frame, rows': seq<FeatureRow>, targets: seq<TargetRow>, targets': seq<TargetRow>,
                                config: Config, hash: Groups.Hasher, splitter: Splitter)
    requires Rectangular(frame) && Rectangular(frame.(rows := rows'))
    requires multiset(rows') == multiset(frame.rows) && multiset(targets') == multiset(targets)
    ensures Generate(frame.(rows := rows'), targets', config, hash, splitter) == Generate(frame, targets, config, hash, splitter)
  {
    hide GenerateOrdered, SortBy, Rectangular;
    var sorted, sorted' := SortBy(targetKey, targets), SortBy(targetKey, targets');
    SameTargetIds(sorted, sorted');
    SameTargetIds(sorted, targets);
    SameFeatureIds(frame.rows, rows');
    if Distinct(TargetIds(sorted)) {
      SameSortedTargets(targets, targets');
      var ids := TargetIds(sorted);
      if Distinct(FeatureIds(frame.rows)) && IdSet(FeatureIds(frame.rows)) == IdSet(ids) {
        forall k | 0 <= k < |ids|
          ensures OrderedRows(frame.rows, ids)[k] == OrderedRows(rows', ids)[k]
        {
          assert ids[k] in IdSet(ids);
          SameRowAt(frame.rows, rows', ids[k]);
        }
        assert OrderedRows(frame.rows, ids) == OrderedRows(rows', ids);
      }
    }
  }

  // ----- what a generated assignment is worth -----

  lemma GroupOfSeries(ids: seq<string>, groups: seq<string>, k: nat)
    requires Distinct(ids) && |ids| == |groups| && k < |ids|
    ensures GroupOf(GroupSeries(ids, groups), ids[k]) == Some(groups[k])
  {
    GroupOfPrefix(GroupSeries(ids, groups), ids[k], k);
  }

  lemma {:induction false} GroupOfPrefix(g: seq<GroupEntry>, id: string, k: nat)
    requires k < |g| && g[k].id == id && forall j :: 0 <= j < k ==> g[j].id != id
    ensures GroupOf(g, id) == g[k].group
  {
    if k > 0 {
      GroupOfPrefix(g[1..], id, k - 1);
    }
  }

  /** Rows of one group are in one partition. */
  ghost predicate ConstantOn(a: seq<Assignment>, groups: seq<string>) {
    |a| == |groups| && forall i, j :: 0 <= i < |a| && 0 <= j < |a| && groups[i] == groups[j] ==> a[i].split == a[j].split
  }

  /** All three partitions have rows. */
  ghost predicate UsesEveryPartition(a: seq<Assignment>) {
    forall k :: 0 <= k < |Splits| ==> Splits[k] in AssignmentSplits(a)
  }

  lemma AssignedIsSound(targets: seq<TargetRow>, groups: seq<string>, foldOf: map<string, nat>, config: Config)
    requires |groups| == |targets| && Distinct(TargetIds(targets))
    requires AssignFolds(targets, groups, foldOf, config).Ok?
    ensures var a := AssignFolds(targets, groups, foldOf, config).value;
            AssignmentIds(a) == TargetIds(targets) && UsesEveryPartition(a) && ConstantOn(a, groups)
  {
    hide Validate, SomeBest, Selection.ValidRows, Distinct, GroupOf, Selection.TwoCodes;
    var a := AssignFolds(targets, groups, foldOf, config).value;
    var ids := TargetIds(targets);
    var series := GroupSeries(ids, groups);
    AcceptedIff(["__sg_row_id", "split"], a, targets, config.strategy, Some(series));
    forall i, j | 0 <= i < |a| && 0 <= j < |a| && groups[i] == groups[j]
      ensures a[i].split == a[j].split
    {
      GroupOfSeries(ids, groups, i);
      GroupOfSeries(ids, groups, j);
      assert a[i].id == ids[i] && a[j].id == ids[j];
    }
  }

  lemma OrderedSplitIsSound(frame: Frame, targets: seq<TargetRow>, config: Config, hash: Groups.Hasher, splitter: Splitter)
    requires Rectangular(frame) && |frame.rows| == |targets| && Distinct(TargetIds(targets))
    requires GenerateOrdered(frame, targets, config, hash, splitter).Ok?
    ensures var a := GenerateOrdered(frame, targets, config, hash, splitter).value;
            AssignmentIds(a) == TargetIds(targets) && UsesEveryPartition(a) && ConstantOn(a, GroupIds(hash, frame))
  {
    hide Rectangular, AssignFolds, Distinct, UsesEveryPartition, ConstantOn, ExactlyOnce, AtMostOnce;
    var groups := GroupIds(hash, frame);
    var h := splitter(CellsOf(frame.rows), CodesOf(targets), groups);
    AssignedIsSound(targets, groups, FoldMap(h.value, TargetIds(targets)), config);
  }

  /** Two feature rows agree, as typed values, in every predictor column. */
  ghost predicate SamePredictors(columns: seq<string>, r1: Groups.Row, r2: Groups.Row) {
    forall c :: c in columns ==> c in r1 && c in r2 && Groups.TypedEqual(r1[c], r2[c])
  }

  /** Whatever the splitter did, an assignment that comes out is sound: it lists the target IDs
      in order, they are the feature IDs, every partition is used, and rows with the same
      predictors are in one partition. */
  lemma GeneratedSplitIsSound(frame: Frame, targets: seq<TargetRow>, config: Config, hash: Groups.Hasher, splitter: Splitter)
    requires Rectangular(frame)
    requires Generate(frame, targets, config, hash, splitter).Ok?
    ensures var a := Generate(frame, targets, config, hash, splitter).value;
            && AssignmentIds(a) == TargetIds(SortBy(targetKey, targets))
            && IdSet(AssignmentIds(a)) == IdSet(FeatureIds(frame.rows)) && UsesEveryPartition(a)
            && (forall i, j :: 0 <= i < |a| && 0 <= j < |a| && a[i].id in FeatureIds(frame.rows) && a[j].id in FeatureIds(frame.rows)
                  && SamePredictors(Groups.PredictorColumns(frame.columns), RowAt(frame.rows, a[i].id).cells, RowAt(frame.rows, a[j].id).cells)
                  ==> (a[i].split == a[j].split))
  {
    hide GenerateOrdered, SortBy, Groups.TypedEqual;
    hide Distinct, UsesEveryPartition, Groups.CoversColumns, Groups.CanonicalRow, Groups.ValidCell;
    var sorted := SortBy(targetKey, targets);
    var ids := TargetIds(sorted);
    var ordered := frame.(rows := OrderedRows(frame.rows, ids));
    var a := Generate(frame, targets, config, hash, splitter).value;
    OrderedSplitIsSound(ordered, sorted, config, hash, splitter);
    hide Generate;
    var groups := GroupIds(hash, ordered);
    forall i, j | 0 <= i < |a| && 0 <= j < |a| && a[i].id in FeatureIds(frame.rows) && a[j].id in FeatureIds(frame.rows)
                  && SamePredictors(Groups.PredictorColumns(frame.columns), RowAt(frame.rows, a[i].id).cells, RowAt(frame.rows, a[j].id).cells)
      ensures a[i].split == a[j].split
    {
      assert ids[i] == AssignmentIds(a)[i] == a[i].id && ids[j] == AssignmentIds(a)[j] == a[j].id;
      assert ordered.rows[i] == RowAt(frame.rows, a[i].id) && ordered.rows[j] == RowAt(frame.rows, a[j].id);
      Groups.CanonicalRowSeparates(ordered.rows[i].cells, ordered.rows[j].cells, Groups.PredictorColumns(frame.columns), frame.dtypes);
      assert groups[i] == groups[j];
    }
  }

  // ----- when it succeeds -----

  /** Mappings that beat a given one. */
  function Betters(rows: Selection.Rows, n: nat, f: Selection.Fractions, c: nat, t: nat): set<(nat, nat)>
    requires Selection.ValidRows(rows, n) && Selection.Admissible(rows, n, c, t)
  {
    set c': nat, t': nat | c' < n && t' < n && Selection.Admissible(rows, n, c', t')
      && Selection.Less(Selection.ScoreOf(rows, n, f, c', t'), Selection.ScoreOf(rows, n, f, c, t)) :: (c', t')
  }

  lemma {:induction false} BestExists(rows: Selection.Rows, n: nat, f: Selection.Fractions, c: nat, t: nat)
    requires Selection.ValidRows(rows, n) && Selection.Admissible(rows, n, c, t)
    ensures SomeBest(rows, n, f)
    decreases |Betters(rows, n, f, c, t)|
  {
    hide Selection.ValidRows, Selection.Less;
    Selection.BoundsOfAdmissible(rows, n);
    hide Selection.Admissible;
    var mine := Selection.ScoreOf(rows, n, f, c, t);
    if c': nat, t': nat :| Selection.Admissible(rows, n, c', t') && Selection.Less(Selection.ScoreOf(rows, n, f, c', t'), mine) {
      var better := Selection.ScoreOf(rows, n, f, c', t');
      forall p | p in Betters(rows, n, f, c', t')
        ensures p in Betters(rows, n, f, c, t)
      {
        Selection.LessTransitive(Selection.ScoreOf(rows, n, f, p.0, p.1), better, mine);
      }
      Selection.LessTotal(better, better);
      assert (c', t') in Betters(rows, n, f, c, t) && (c', t') !in Betters(rows, n, f, c', t');
      SmallerSet(Betters(rows, n, f, c', t'), Betters(rows, n, f, c, t), (c', t'));
      BestExists(rows, n, f, c', t');
    } else {
      forall c': nat, t': nat | Selection.Admissible(rows, n, c', t') && (c' != c || t' != t)
        ensures Selection.Less(mine, Selection.ScoreOf(rows, n, f, c', t'))
      {
        Selection.LessTotal(mine, Selection.ScoreOf(rows, n, f, c', t'));
        assert Selection.ScoreOf(rows, n, f, c', t').calibration == c' && Selection.ScoreOf(rows, n, f, c', t').test == t';
      }
      assert Selection.IsBest(rows, n, f, c, t);
    }
  }

  lemma SmallerSet<T>(a: set<T>, b: set<T>, x: T)
    requires a <= b && x in b && x !in a
    ensures |a| < |b|
  {
    assert b == (b - a) + a && (b - a) !! a;
    assert |b| == |b - a| + |a|;
    assert x in b - a;
  }

  /** Each group lies in one fold: what the grouped splitter is for. */
  ghost predicate GroupsInOneFold(ids: seq<string>, groups: seq<string>, foldOf: map<string, nat>)
    requires |ids| == |groups| && forall k :: 0 <= k < |ids| ==> ids[k] in foldOf
  {
    forall i, j :: 0 <= i < |ids| && 0 <= j < |ids| && groups[i] == groups[j] ==> foldOf[ids[i]] == foldOf[ids[j]]
  }

  ghost predicate ThreeFoldsUsed(rows: Selection.Rows) {
    exists c: nat, t: nat :: c != t && Selection.FoldUsed(rows, c) && Selection.FoldUsed(rows, t) && Selection.ThirdFoldUsed(rows, c, t)
  }

  lemma SomeAdmissibleIff(rows: Selection.Rows, n: nat, f: Selection.Fractions)
    requires Selection.ValidRows(rows, n)
    ensures SomeBest(rows, n, f) <==> ThreeFoldsUsed(rows) && Selection.TwoCodes(rows.codes)
  {
    hide Selection.ValidRows, Selection.Admissible, Selection.FoldUsed, Selection.ThirdFoldUsed, Selection.TwoCodes, Selection.Less;
    if c: nat, t: nat :| Selection.IsBest(rows, n, f, c, t) {
      Selection.AdmissibleMeans(rows, n, c, t);
    }
    if ThreeFoldsUsed(rows) && Selection.TwoCodes(rows.codes) {
      var c: nat, t: nat :| c != t && Selection.FoldUsed(rows, c) && Selection.FoldUsed(rows, t) && Selection.ThirdFoldUsed(rows, c, t);
      Selection.AdmissibleMeans(rows, n, c, t);
      BestExists(rows, n, f, c, t);
    }
  }

  lemma {:induction false} CodeAt(t: seq<TargetRow>, k: nat)
    requires Distinct(TargetIds(t)) && k < |t|
    ensures CodeOf(t, t[k].id) == t[k].code
  {
    if k > 0 {
      assert TargetIds(t)[0] != TargetIds(t)[k];
      assert TargetIds(t[1..]) == TargetIds(t)[1..];
      CodeAt(t[1..], k - 1);
    }
  }

  lemma JoinedCodesAreTheCodes(a: seq<Assignment>, t: seq<TargetRow>)
    requires Distinct(TargetIds(t)) && AssignmentIds(a) == TargetIds(t)
    ensures JoinedCodes(a, t) == CodesOf(t)
  {
    forall k | 0 <= k < |a|
      ensures JoinedCodes(a, t)[k] == CodesOf(t)[k]
    {
      assert AssignmentIds(a)[k] == TargetIds(t)[k] == t[k].id;
      CodeAt(t, k);
    }
  }

  /** A mapping that is admissible leaves no partition empty. */
  lemma AdmissibleUsesAll(rows: Selection.Rows, n: nat, c: nat, t: nat, a: seq<Assignment>)
    requires Selection.ValidRows(rows, n) && Selection.Admissible(rows, n, c, t)
    requires a == Assignments(rows.ids, rows.foldOf, c, t)
    ensures UsesEveryPartition(a)
  {
    var ps := Selection.Labels(rows, n, c, t);
    assert AssignmentSplits(a) == ps;
    SizePositive(ps, Train);
    SizePositive(ps, Calibration);
    SizePositive(ps, Test);
    assert Splits == [Train, Calibration, Test];
  }

  lemma GroupedFoldsAreConstant(ids: seq<string>, groups: seq<string>, foldOf: map<string, nat>, c: nat, t: nat)
    requires Distinct(ids) && |ids| == |groups| && (forall k :: 0 <= k < |ids| ==> ids[k] in foldOf) && GroupsInOneFold(ids, groups, foldOf)
    ensures var a, g := Assignments(ids, foldOf, c, t), GroupSeries(ids, groups);
            GroupsKnown(a, g) && ConstantOnGroups(a, g) && GroupIndex(g) == ids && AssignmentIds(a) == ids
  {
    hide GroupOf;
    var a, g := Assignments(ids, foldOf, c, t), GroupSeries(ids, groups);
    forall k | 0 <= k < |ids|
      ensures GroupOf(g, a[k].id) == Some(groups[k])
    {
      GroupOfSeries(ids, groups, k);
    }
  }

  /** On folds that keep groups whole, a split comes out exactly when three folds have rows
      and two codes occur somewhere; the validator then has nothing left to reject. */
  lemma GroupedFoldsSucceedIff(targets: seq<TargetRow>, groups: seq<string>, foldOf: map<string, nat>, config: Config)
    requires |groups| == |targets| && Distinct(TargetIds(targets)) && config.strategy == "stratified_group_5fold_v1"
    requires Selection.ValidRows(Selection.Rows(TargetIds(targets), foldOf, CodesOf(targets)), config.groupFolds)
    requires GroupsInOneFold(TargetIds(targets), groups, foldOf)
    ensures AssignFolds(targets, groups, foldOf, config).Ok? <==>
            ThreeFoldsUsed(Selection.Rows(TargetIds(targets), foldOf, CodesOf(targets))) && Selection.TwoCodes(CodesOf(targets))
  {
    hide Validate, Distinct, Selection.Admissible, ConstantOnGroups, GroupsKnown, Selection.TwoCodes, ThreeFoldsUsed, GroupsInOneFold, IdSet;
    var ids := TargetIds(targets);
    var rows := Selection.Rows(ids, foldOf, CodesOf(targets));
    SomeAdmissibleIff(rows, config.groupFolds, config.fractions);
    if SomeBest(rows, config.groupFolds, config.fractions) {
      var b := Best(rows, config.groupFolds, config.fractions);
      var a := Assignments(ids, foldOf, b.0, b.1);
      AdmissibleUsesAll(rows, config.groupFolds, b.0, b.1, a);
      GroupedFoldsAreConstant(ids, groups, foldOf, b.0, b.1);
      JoinedCodesAreTheCodes(a, targets);
      AcceptedIff(["__sg_row_id", "split"], a, targets, config.strategy, Some(GroupSeries(ids, groups)));
    }
  }

  // ----- a split that breaks its promise -----

  const FiveTargets: seq<TargetRow> :=
    [TargetRow("a", "no", 0), TargetRow("b", "yes", 1), TargetRow("c", "no", 0), TargetRow("d", "yes", 1), TargetRow("e", "no", 0)]
  const FiveGroups: seq<string> := ["g1", "g2", "g3", "g4", "g5"]
  const FiveFolds: map<string, nat> := map["a" := 0, "b" := 1, "c" := 2, "d" := 3, "e" := 4]

  lemma FiveGroupsAreDistinct()
    ensures Distinct(FiveGroups)
  {
    var g := FiveGroups;
    assert g[0][1] == '1' && g[1][1] == '2' && g[2][1] == '3' && g[3][1] == '4' && g[4][1] == '5';
  }

  lemma FiveRowsAreValid()
    ensures Distinct(TargetIds(FiveTargets)) && TargetIds(FiveTargets) == ["a", "b", "c", "d", "e"]
    ensures CodesOf(FiveTargets) == [0, 1, 0, 1, 0]
    ensures Selection.ValidRows(Selection.Rows(TargetIds(FiveTargets), FiveFolds, CodesOf(FiveTargets)), 5)
    ensures GroupsInOneFold(TargetIds(FiveTargets), FiveGroups, FiveFolds)
    ensures forall k :: 0 <= k < 5 ==> FiveFolds[TargetIds(FiveTargets)[k]] == k
  {
    var ids := TargetIds(FiveTargets);
    assert ids == ["a", "b", "c", "d", "e"];
    assert "a"[0] != "b"[0] && "a"[0] != "c"[0] && "a"[0] != "d"[0] && "a"[0] != "e"[0] && "b"[0] != "c"[0];
    assert "b"[0] != "d"[0] && "b"[0] != "e"[0] && "c"[0] != "d"[0] && "c"[0] != "e"[0] && "d"[0] != "e"[0];
    FiveGroupsAreDistinct();
  }

  lemma FiveFoldsSuffice()
    ensures var rows := Selection.Rows(TargetIds(FiveTargets), FiveFolds, CodesOf(FiveTargets));
            ThreeFoldsUsed(rows) && Selection.TwoCodes(CodesOf(FiveTargets))
  {
    FiveRowsAreValid();
    var rows := Selection.Rows(TargetIds(FiveTargets), FiveFolds, CodesOf(FiveTargets));
    assert rows.ids[0] in rows.foldOf && rows.foldOf[rows.ids[0]] == 0;
    assert rows.ids[1] in rows.foldOf && rows.foldOf[rows.ids[1]] == 1;
    assert rows.ids[2] in rows.foldOf && rows.foldOf[rows.ids[2]] == 2;
    assert Selection.FoldUsed(rows, 0) && Selection.FoldUsed(rows, 1) && Selection.FoldUsed(rows, 2);
    assert Selection.ThirdFoldUsed(rows, 0, 1);
    assert CodesOf(FiveTargets)[0] != CodesOf(FiveTargets)[1];
  }

  /** Of five rows in five folds one calibrates, whichever fold is chosen. */
  lemma FiveFoldsCalibrateOnOneClass(c: nat, t: nat)
    ensures Distinct(TargetIds(FiveTargets)) && forall k :: 0 <= k < 5 ==> TargetIds(FiveTargets)[k] in FiveFolds
    ensures !HasTwoClasses(AssignmentSplits(Assignments(TargetIds(FiveTargets), FiveFolds, c, t)), CodesOf(FiveTargets), Calibration)
  {
    FiveRowsAreValid();
    var ids := TargetIds(FiveTargets);
    var ps := AssignmentSplits(Assignments(ids, FiveFolds, c, t));
    forall k | 0 <= k < 5 && ps[k] == Calibration
      ensures k == c
    {
      assert FiveFolds[ids[k]] == k;
    }
  }

  /** Five rows on which the search picks a mapping, and the validator accepts its assignment,
      although calibration has one class: the best mapping there is breaks the promise. */
  lemma AcceptedSplitWithOneClass(config: Config)
    requires config.strategy == "stratified_group_5fold_v1" && config.groupFolds == 5
    ensures Distinct(TargetIds(FiveTargets))
    ensures var r := AssignFolds(FiveTargets, FiveGroups, FiveFolds, config);
            && r.Ok? && !HasTwoClasses(AssignmentSplits(r.value), JoinedCodes(r.value, FiveTargets), Calibration)
            && Validate(["__sg_row_id", "split"], r.value, FiveTargets, config.strategy, Some(GroupSeries(TargetIds(FiveTargets), FiveGroups))).Ok?
    ensures var rows := Selection.Rows(TargetIds(FiveTargets), FiveFolds, CodesOf(FiveTargets));
            && Selection.ValidRows(rows, 5)
            && exists c: nat, t: nat :: Selection.IsBest(rows, 5, config.fractions, c, t) && !Selection.Promised(rows, 5, c, t)
  {
    hide Validate, ThreeFoldsUsed, Selection.TwoCodes, GroupsInOneFold, HasTwoClasses, Selection.Admissible, Selection.Less;
    FiveRowsAreValid();
    FiveFoldsSuffice();
    hide Selection.ValidRows, Distinct;
    GroupedFoldsSucceedIff(FiveTargets, FiveGroups, FiveFolds, config);
    var ids := TargetIds(FiveTargets);
    var rows := Selection.Rows(ids, FiveFolds, CodesOf(FiveTargets));
    var b := Best(rows, 5, config.fractions);
    var a := Assignments(ids, FiveFolds, b.0, b.1);
    assert AssignFolds(FiveTargets, FiveGroups, FiveFolds, config) == Ok(a);
    FiveFoldsCalibrateOnOneClass(b.0, b.1);
    assert AssignmentIds(a) == ids;
    JoinedCodesAreTheCodes(a, FiveTargets);
    assert AssignmentSplits(a) == Selection.Labels(rows, 5, b.0, b.1);
    assert Splits[1] == Calibration;
    assert !Selection.Promised(rows, 5, b.0, b.1);
  }

  // ----- the loops -----

  lemma BestMeansAdmissible(rows: Selection.Rows, n: nat, f: Selection.Fractions)
    requires Selection.ValidRows(rows, n)
    ensures (forall c, t :: !Selection.Admissible(rows, n, c, t)) <==> !SomeBest(rows, n, f)
  {
    hide Selection.Admissible, Selection.ValidRows, Selection.Less, Selection.ScoreOf;
    if c: nat, t: nat :| Selection.Admissible(rows, n, c, t) {
      BestExists(rows, n, f, c, t);
    }
  }

  lemma FoldMapIsValid(foldOf: map<string, nat>, heldOut: seq<seq<nat>>, ids: seq<string>, codes: seq<int>, n: nat)
    requires Distinct(ids) && |ids| == |codes| && |heldOut| <= n
    requires ExactlyOnce(heldOut, |ids|) && IsFoldMap(foldOf, heldOut, ids)
    ensures Selection.ValidRows(Selection.Rows(ids, foldOf, codes), n)
  {
    forall k | 0 <= k < |ids|
      ensures ids[k] in foldOf && foldOf[ids[k]] < n
    {
      assert HeldOut(heldOut, k);
      var f: nat, j: nat :| At(heldOut, f, j, k);
    }
  }

  /** Selection and validation. */
  method FinishSplits(targets: seq<TargetRow>, groups: seq<string>, foldOf: map<string, nat>, config: Config)
    returns (r: Result<seq<Assignment>, SplitError>)
    requires |groups| == |targets| && Distinct(TargetIds(targets))
    requires Selection.ValidRows(Selection.Rows(TargetIds(targets), foldOf, CodesOf(targets)), config.groupFolds)
    ensures r == AssignFolds(targets, groups, foldOf, config)
  {
    hide Selection.Admissible, Selection.IsBest, Validate, Distinct;
    var ids := TargetIds(targets);
    var rows := Selection.Rows(ids, foldOf, CodesOf(targets));
    var s := Selection.SelectFoldAssignment(rows, config.groupFolds, config.fractions);
    BestMeansAdmissible(rows, config.groupFolds, config.fractions);
    if s.None? {
      return Err(NoAssignment);
    }
    ghost var b := Best(rows, config.groupFolds, config.fractions);
    Selection.BestIsUnique(rows, config.groupFolds, config.fractions, s.value.calibration, s.value.test, b.0, b.1);
    var a := seq(|ids|, k requires 0 <= k < |ids| => assert ids[k] in rows.ids; Assignment(ids[k], s.value.labels[ids[k]]));
    assert a == Assignments(ids, foldOf, b.0, b.1);
    var report := Validate(["__sg_row_id", "split"], a, targets, config.strategy, Some(GroupSeries(ids, groups)));
    if report.Err? {
      return Err(report.error);
    }
    return Ok(a);
  }

  /** From the sorted targets and the features in their order: folds, selection, validation. */
  method SplitOrdered(frame: Frame, targets: seq<TargetRow>, config: Config, hash: Groups.Hasher, splitter: Splitter)
    returns (r: Result<seq<Assignment>, SplitError>)
    requires Rectangular(frame) && |frame.rows| == |targets| && Distinct(TargetIds(targets))
    requires SplitterFits(splitter, config.groupFolds)
    ensures r == GenerateOrdered(frame, targets, config, hash, splitter)
  {
    hide AssignFolds, Distinct, ExactlyOnce, AtMostOnce, IsFoldMap, Rectangular, Selection.ValidRows;
    var ids, groups := TargetIds(targets), GroupIds(hash, frame);
    var heldOut := splitter(CellsOf(frame.rows), CodesOf(targets), groups);
    if heldOut.None? {
      return Err(SplitterFailed);
    }
    var folds := CollectFolds(heldOut.value, ids);
    if folds.Err? {
      return Err(folds.error);
    }
    FoldMapIsUnique(folds.value, heldOut.value, ids);
    FoldMapIsValid(folds.value, heldOut.value, ids, CodesOf(targets), config.groupFolds);
    OnceIsAtMostOnce(heldOut.value, |ids|);
    r := FinishSplits(targets, groups, folds.value, config);
  }

  lemma OnceIsAtMostOnce(heldOut: seq<seq<nat>>, rows: nat)
    requires ExactlyOnce(heldOut, rows)
    ensures AtMostOnce(heldOut)
  {
  }

  /** The split manifest: its creation time, and the text of all its other fields. */
  datatype Manifest = Manifest(fields: string, createdAt: string)

  /** The manifest file; an unreadable one counts as none. */
  datatype ManifestFile = NoManifest | UnreadableManifest | Stored(manifest: Manifest)

  /** The manifest after a successful generation: an earlier readable one lends its time. */
  function ManifestFor(file: ManifestFile, fields: string, now: string): Manifest {
    Manifest(fields, if file.Stored? then file.manifest.createdAt else now)
  }

  /** The output directory of a dataset's split. */
  class SplitDirectory {
    var assignments: Option<seq<Assignment>>
    var manifest: ManifestFile
    var manifestWrites: nat

    constructor ()
      ensures assignments == None && manifest == NoManifest && manifestWrites == 0
    {
      assignments := None;
      manifest := NoManifest;
      manifestWrites := 0;
    }

    /** `generate_splits`: the assignment file is written once and then only compared; the
        manifest is written when it is missing, unreadable or different. `describe` gives the
        fields of the manifest other than its time, for the inputs at hand. So a second call
        with the same inputs writes nothing. */
    method GenerateSplits(frame: Frame, targets: seq<TargetRow>, config: Config, hash: Groups.Hasher, splitter: Splitter,
                          describe: seq<Assignment> -> string, now: string)
      returns (r: Result<seq<Assignment>, SplitError>)
      requires Rectangular(frame) && SplitterFits(splitter, config.groupFolds)
      modifies this
      ensures var g := Generate(frame, targets, config, hash, splitter);
              && (r.Ok? <==> g.Ok? && (old(assignments).None? || old(assignments) == Some(g.value)))
              && (r.Ok? ==> r == g && assignments == Some(g.value))
              && (r.Err? ==> r.error == (if g.Err? then g.error else ExistingAssignmentsDiffer) && assignments == old(assignments))
      ensures r.Ok? ==> manifest == Stored(ManifestFor(old(manifest), describe(r.value), now))
      ensures r.Err? ==> manifest == old(manifest)
      ensures manifestWrites == old(manifestWrites) + (if manifest == old(manifest) then 0 else 1)
    {
      hide GenerateOrdered, Groups.CoversColumns, SplitterFits;
      var sorted := SortBy(targetKey, targets);
      var ids, featureIds := TargetIds(sorted), FeatureIds(frame.rows);
      if config.strategy != "stratified_group_5fold_v1" || config.groupBy != "predictors" || config.groupFolds != 5 {
        return Err(UnsupportedStrategy);
      }
      if !Distinct(ids) {
        return Err(TargetIdsNotUnique);
      }
      if !Distinct(featureIds) {
        return Err(FeatureIdsNotUnique);
      }
      if IdSet(featureIds) != IdSet(ids) {
        return Err(RowIdsDiffer);
      }
      if Groups.PredictorColumns(frame.columns) == [] {
        return Err(NoPredictors);
      }
      r := SplitOrdered(frame.(rows := OrderedRows(frame.rows, ids)), sorted, config, hash, splitter);
      if r.Err? {
        return;
      }
      if assignments.None? {
        assignments := Some(r.value);
      } else if assignments.value != r.value {
        return Err(ExistingAssignmentsDiffer);
      }
      var wanted := ManifestFor(manifest, describe(r.value), now);
      if manifest != Stored(wanted) {
        manifest := Stored(wanted);
        manifestWrites := manifestWrites + 1;
      }
    }

    /** Generating the same split twice: the second call agrees with the first and writes nothing,
        whatever the clock says; and the manifest keeps the time it was first given. */
    method GenerateTwice(frame: Frame, targets: seq<TargetRow>, config: Config, hash: Groups.Hasher, splitter: Splitter,
                         describe: seq<Assignment> -> string, now: string, later: string)
      returns (first: Result<seq<Assignment>, SplitError>, second: Result<seq<Assignment>, SplitError>, ghost writes: nat)
      requires Rectangular(frame) && SplitterFits(splitter, config.groupFolds)
      modifies this
      ensures second == first
      ensures manifestWrites == writes && old(manifestWrites) <= writes <= old(manifestWrites) + 1
      ensures first.Ok? ==> assignments == Some(first.value) && manifest.Stored? && manifest.manifest.fields == describe(first.value)
      ensures first.Ok? ==> manifest.manifest.createdAt == if old(manifest).Stored? then old(manifest).manifest.createdAt else now
      ensures first.Err? ==> assignments == old(assignments) && manifest == old(manifest)
    {
      first := GenerateSplits(frame, targets, config, hash, splitter, describe, now);
      writes := manifestWrites;
      second := GenerateSplits(frame, targets, config, hash, splitter, describe, later);
      hide Generate, Rectangular, SplitterFits;
    }
  }
}
