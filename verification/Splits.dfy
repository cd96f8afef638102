/** `validate_split_assignments` and the fold-collecting loop of `generate_splits`
    (`data/splits.py`). */
module Splitting {
  import opened Wrappers
  import opened ClassCounting
  import opened Sequences
  import Selection = FoldSelection

  datatype SplitError =
    | WrongColumns | CountDiffers | DuplicateRowId | RowIdsDiffer | UnknownSplit | UnsupportedStrategy
    | GroupsRequired | GroupIndexDuplicates | GroupsIncomplete | ClassMissing | GroupCrosses
    | TargetIdsNotUnique | FeatureIdsNotUnique | NoPredictors | RowInTwoFolds | FoldsIncomplete | NoAssignment
    | SplitterFailed | ExistingAssignmentsDiffer

  datatype Assignment = Assignment(id: string, split: Partition)
  datatype TargetRow = TargetRow(id: string, labelText: string, code: int)

  /** One entry of the group series: its index and its value, which may be missing. */
  datatype GroupEntry = GroupEntry(id: string, group: Option<string>)

  function AssignmentIds(a: seq<Assignment>): (r: seq<string>)
    ensures |r| == |a| && forall k :: 0 <= k < |r| ==> r[k] == a[k].id
  {
    seq(|a|, k requires 0 <= k < |a| => a[k].id)
  }

  function AssignmentSplits(a: seq<Assignment>): (r: seq<Partition>)
    ensures |r| == |a| && forall k :: 0 <= k < |r| ==> r[k] == a[k].split
  {
    seq(|a|, k requires 0 <= k < |a| => a[k].split)
  }

  function TargetIds(t: seq<TargetRow>): (r: seq<string>)
    ensures |r| == |t| && forall k :: 0 <= k < |r| ==> r[k] == t[k].id
  {
    seq(|t|, k requires 0 <= k < |t| => t[k].id)
  }

  function GroupIndex(g: seq<GroupEntry>): (r: seq<string>)
    ensures |r| == |g| && forall k :: 0 <= k < |r| ==> r[k] == g[k].id
  {
    seq(|g|, k requires 0 <= k < |g| => g[k].id)
  }

  function IdSet(ids: seq<string>): set<string> {
    set id | id in ids
  }

  /** `reindex` followed by `isna`: the value at an index, if there is one. */
  function GroupOf(g: seq<GroupEntry>, id: string): Option<string> {
    if g == [] then None else if g[0].id == id then g[0].group else GroupOf(g[1..], id)
  }

  /** The left join on the row ID. */
  function CodeOf(t: seq<TargetRow>, id: string): int {
    if t == [] then 0 else if t[0].id == id then t[0].code else CodeOf(t[1..], id)
  }

  function JoinedCodes(a: seq<Assignment>, t: seq<TargetRow>): (r: seq<int>)
    ensures |r| == |a| && forall k :: 0 <= k < |r| ==> r[k] == CodeOf(t, a[k].id)
  {
    seq(|a|, k requires 0 <= k < |a| => CodeOf(t, a[k].id))
  }

  predicate GroupsKnown(a: seq<Assignment>, g: seq<GroupEntry>) {
    forall k :: 0 <= k < |a| ==> GroupOf(g, a[k].id).Some?
  }

  /** The splits in which a group occurs. */
  function SplitsOfGroup(a: seq<Assignment>, g: seq<GroupEntry>, group: string): set<Partition> {
    set k | 0 <= k < |a| && GroupOf(g, a[k].id) == Some(group) :: a[k].split
  }

  /** `groupby(group)["split"].nunique().gt(1).sum()`. */
  function CrossingGroups(a: seq<Assignment>, g: seq<GroupEntry>): nat {
    |set k | 0 <= k < |a| && GroupOf(g, a[k].id).Some? && |SplitsOfGroup(a, g, GroupOf(g, a[k].id).value)| > 1
         :: GroupOf(g, a[k].id).value|
  }

  datatype Report = Report(train: nat, calibration: nat, test: nat)

  /** `validate_split_assignments`, check by check. */
  function Validate(columns: seq<string>, a: seq<Assignment>, t: seq<TargetRow>, strategy: string,
                    groups: Option<seq<GroupEntry>>): Result<Report, SplitError>
  {
    var ps := AssignmentSplits(a);
    if columns != ["__sg_row_id", "split"] then Err(WrongColumns)
    else if |a| != |t| then Err(CountDiffers)
    else if !Distinct(AssignmentIds(a)) then Err(DuplicateRowId)
    else if IdSet(AssignmentIds(a)) != IdSet(TargetIds(t)) then Err(RowIdsDiffer)
    else if exists k :: 0 <= k < |ps| && ps[k].Unknown? then Err(UnknownSplit)
    else if strategy != "stratified_group_5fold_v1" then Err(UnsupportedStrategy)
    else if groups.None? then Err(GroupsRequired)
    else if !Distinct(GroupIndex(groups.value)) then Err(GroupIndexDuplicates)
    else if !GroupsKnown(a, groups.value) then Err(GroupsIncomplete)
    else if !GuardPasses(ps, JoinedCodes(a, t)) then Err(ClassMissing)
    else if CrossingGroups(a, groups.value) != 0 then Err(GroupCrosses)
    else Ok(Report(Size(ps, Train), Size(ps, Calibration), Size(ps, Test)))
  }

  /** No group has rows in two partitions. */
  ghost predicate ConstantOnGroups(a: seq<Assignment>, g: seq<GroupEntry>) {
    forall i, j :: 0 <= i < |a| && 0 <= j < |a| && GroupOf(g, a[i].id) == GroupOf(g, a[j].id) ==> a[i].split == a[j].split
  }

  lemma OneSplitPerGroup(a: seq<Assignment>, g: seq<GroupEntry>, group: string)
    ensures |SplitsOfGroup(a, g, group)| <= 1 <==>
            forall i, j :: 0 <= i < |a| && 0 <= j < |a| && GroupOf(g, a[i].id) == Some(group) == GroupOf(g, a[j].id) ==> a[i].split == a[j].split
  {
    var s := SplitsOfGroup(a, g, group);
    hide GroupOf;
    if |s| > 1 {
      var x := PickOne(s);
      assert |s - {x}| == |s| - 1;
      var y := PickOne(s - {x});
      var i :| 0 <= i < |a| && GroupOf(g, a[i].id) == Some(group) && a[i].split == x;
      var j :| 0 <= j < |a| && GroupOf(g, a[j].id) == Some(group) && a[j].split == y;
    }
    if i, j :| 0 <= i < |a| && 0 <= j < |a| && GroupOf(g, a[i].id) == Some(group) == GroupOf(g, a[j].id) && a[i].split != a[j].split {
      assert a[i].split in s && a[j].split in s;
      assert |s| == |s - {a[i].split} - {a[j].split}| + 2;
    }
  }

  /** The crossing count is zero exactly when partitions are unions of groups. */
  lemma NoCrossingMeansConstant(a: seq<Assignment>, g: seq<GroupEntry>)
    requires GroupsKnown(a, g)
    ensures CrossingGroups(a, g) == 0 <==> ConstantOnGroups(a, g)
  {
    hide GroupOf, SplitsOfGroup;
    var crossing := set k | 0 <= k < |a| && GroupOf(g, a[k].id).Some? && |SplitsOfGroup(a, g, GroupOf(g, a[k].id).value)| > 1
         :: GroupOf(g, a[k].id).value;
    assert CrossingGroups(a, g) == |crossing|;
    forall k | 0 <= k < |a|
      ensures GroupOf(g, a[k].id).value in crossing <==> |SplitsOfGroup(a, g, GroupOf(g, a[k].id).value)| > 1
    {
    }
    if ConstantOnGroups(a, g) {
      forall k | 0 <= k < |a|
        ensures |SplitsOfGroup(a, g, GroupOf(g, a[k].id).value)| <= 1
      {
        OneSplitPerGroup(a, g, GroupOf(g, a[k].id).value);
      }
      assert crossing == {};
    }
    if |crossing| == 0 {
      forall i, j | 0 <= i < |a| && 0 <= j < |a| && GroupOf(g, a[i].id) == GroupOf(g, a[j].id)
        ensures a[i].split == a[j].split
      {
        assert GroupOf(g, a[i].id).value !in crossing;
        OneSplitPerGroup(a, g, GroupOf(g, a[i].id).value);
      }
    }
  }

  /** What acceptance is worth, and what it takes: an assignment passes exactly when it maps
      every target row, once, to one of the three partitions, constantly on complete groups,
      with no partition empty and two codes somewhere in the data. */
  lemma AcceptedIff(columns: seq<string>, a: seq<Assignment>, t: seq<TargetRow>, strategy: string, groups: Option<seq<GroupEntry>>)
    ensures Validate(columns, a, t, strategy, groups).Ok? <==>
            (&& columns == ["__sg_row_id", "split"] && strategy == "stratified_group_5fold_v1"
             && |a| == |t| && Distinct(AssignmentIds(a)) && IdSet(AssignmentIds(a)) == IdSet(TargetIds(t))
             && (forall k :: 0 <= k < |a| ==> !a[k].split.Unknown?)
             && groups.Some? && Distinct(GroupIndex(groups.value)) && GroupsKnown(a, groups.value)
             && ConstantOnGroups(a, groups.value)
             && (forall k :: 0 <= k < |Splits| ==> Splits[k] in AssignmentSplits(a))
             && Selection.TwoCodes(JoinedCodes(a, t)))
  {
    hide GuardPasses, CrossingGroups, ConstantOnGroups, GroupsKnown, IdSet, Distinct;
    GuardMeans(AssignmentSplits(a), JoinedCodes(a, t));
    assert forall k :: 0 <= k < |a| ==> AssignmentSplits(a)[k] == a[k].split;
    if groups.Some? && GroupsKnown(a, groups.value) {
      NoCrossingMeansConstant(a, groups.value);
    }
  }

  /** The report of an accepted assignment counts the rows of each partition, and so all target rows. */
  lemma ReportCountsRows(columns: seq<string>, a: seq<Assignment>, t: seq<TargetRow>, strategy: string, groups: Option<seq<GroupEntry>>)
    requires Validate(columns, a, t, strategy, groups).Ok?
    ensures var r := Validate(columns, a, t, strategy, groups).value;
            && r.train == |set k: nat | k < |a| && a[k].split == Train| && r.calibration == |set k: nat | k < |a| && a[k].split == Calibration|
            && r.test == |set k: nat | k < |a| && a[k].split == Test| && r.train + r.calibration + r.test == |t|
  {
    AcceptedIff(columns, a, t, strategy, groups);
    hide GuardPasses, CrossingGroups, ConstantOnGroups, GroupsKnown, IdSet, Distinct, Size;
    var ps := AssignmentSplits(a);
    SizesSum(ps);
    PartitionIsCounted(a, Train);
    PartitionIsCounted(a, Calibration);
    PartitionIsCounted(a, Test);
  }

  lemma PartitionIsCounted(a: seq<Assignment>, split: Partition)
    ensures Size(AssignmentSplits(a), split) == |set k: nat | k < |a| && a[k].split == split|
  {
    SizeIsCount(AssignmentSplits(a), split);
    assert Where(AssignmentSplits(a), split) == set k: nat | k < |a| && a[k].split == split;
  }

  /** A rejection says what is wrong; of the class guard, what really is. */
  lemma RejectionMeans(columns: seq<string>, a: seq<Assignment>, t: seq<TargetRow>, strategy: string, groups: Option<seq<GroupEntry>>, e: SplitError)
    requires Validate(columns, a, t, strategy, groups) == Err(e)
    ensures match e
            case WrongColumns => columns != ["__sg_row_id", "split"]
            case CountDiffers => |a| != |t|
            case DuplicateRowId => !Distinct(AssignmentIds(a))
            case RowIdsDiffer => IdSet(AssignmentIds(a)) != IdSet(TargetIds(t))
            case UnknownSplit => exists k :: 0 <= k < |a| && a[k].split.Unknown?
            case UnsupportedStrategy => strategy != "stratified_group_5fold_v1"
            case GroupsRequired => groups.None?
            case GroupIndexDuplicates => groups.Some? && !Distinct(GroupIndex(groups.value))
            case GroupsIncomplete => groups.Some? && !GroupsKnown(a, groups.value)
            case ClassMissing => (exists k :: 0 <= k < |Splits| && Splits[k] !in AssignmentSplits(a)) || !Selection.TwoCodes(JoinedCodes(a, t))
            case GroupCrosses => groups.Some? && !ConstantOnGroups(a, groups.value)
            case _ => false
  {
    hide GuardPasses, CrossingGroups, ConstantOnGroups, GroupsKnown, IdSet, Distinct;
    GuardMeans(AssignmentSplits(a), JoinedCodes(a, t));
    assert forall k :: 0 <= k < |a| ==> AssignmentSplits(a)[k] == a[k].split;
    if groups.Some? && GroupsKnown(a, groups.value) {
      NoCrossingMeansConstant(a, groups.value);
    }
  }

  // ----- collecting the folds -----

  /** Row `k` is the `j`-th row held out by fold `f`. */
  predicate At(heldOut: seq<seq<nat>>, f: nat, j: nat, k: nat) {
    f < |heldOut| && j < |heldOut[f]| && heldOut[f][j] == k
  }

  ghost predicate HeldOut(heldOut: seq<seq<nat>>, k: nat) {
    exists f: nat, j: nat :: At(heldOut, f, j, k)
  }

  ghost predicate AtMostOnce(heldOut: seq<seq<nat>>) {
    forall f: nat, j: nat, g: nat, l: nat, k: nat {:trigger At(heldOut, f, j, k), At(heldOut, g, l, k)} ::
      At(heldOut, f, j, k) && At(heldOut, g, l, k) ==> f == g && j == l
  }

  /** Every row index is held out exactly once. */
  ghost predicate ExactlyOnce(heldOut: seq<seq<nat>>, rows: nat) {
    AtMostOnce(heldOut) && forall k: nat :: k < rows ==> HeldOut(heldOut, k)
  }

  ghost predicate InRange(heldOut: seq<seq<nat>>, rows: nat) {
    forall f: nat, j: nat, k: nat :: At(heldOut, f, j, k) ==> k < rows
  }

  /** The fold map a splitter's output describes. */
  ghost predicate IsFoldMap(m: map<string, nat>, heldOut: seq<seq<nat>>, ids: seq<string>) {
    && m.Keys == IdSet(ids)
    && (forall f: nat, j: nat, k: nat :: At(heldOut, f, j, k) && k < |ids| ==> ids[k] in m && m[ids[k]] == f)
  }

  /** Positions the loop has passed before `(f, j)`. */
  predicate Passed(g: nat, l: nat, f: nat, j: nat) {
    g < f || (g == f && l < j)
  }

  ghost predicate Collected(m: map<string, nat>, heldOut: seq<seq<nat>>, ids: seq<string>, f: nat, j: nat) {
    && (forall g: nat, l: nat, k: nat :: At(heldOut, g, l, k) && Passed(g, l, f, j) && k < |ids| ==> ids[k] in m && m[ids[k]] == g)
    && (forall id :: id in m ==> exists g: nat, l: nat, k: nat :: At(heldOut, g, l, k) && Passed(g, l, f, j) && k < |ids| && ids[k] == id)
    && (forall g: nat, l: nat, g': nat, l': nat, k: nat {:trigger At(heldOut, g, l, k), At(heldOut, g', l', k)} ::
          At(heldOut, g, l, k) && At(heldOut, g', l', k) && Passed(g, l, f, j) && Passed(g', l', f, j) ==> g == g' && l == l')
  }

  lemma CollectOne(m: map<string, nat>, heldOut: seq<seq<nat>>, ids: seq<string>, f: nat, j: nat)
    requires Distinct(ids) && InRange(heldOut, |ids|) && Collected(m, heldOut, ids, f, j)
    requires f < |heldOut| && j < |heldOut[f]| && heldOut[f][j] < |ids|
    ensures ids[heldOut[f][j]] !in m ==> Collected(m[ids[heldOut[f][j]] := f], heldOut, ids, f, j + 1)
    ensures ids[heldOut[f][j]] in m ==> !AtMostOnce(heldOut)
  {
    var k := heldOut[f][j];
    assert At(heldOut, f, j, k);
    if ids[k] in m {
      var g: nat, l: nat, k': nat :| At(heldOut, g, l, k') && Passed(g, l, f, j) && k' < |ids| && ids[k'] == ids[k];
      assert k' == k;
    } else {
      var m' := m[ids[k] := f];
      forall id | id in m'
        ensures exists g: nat, l: nat, k': nat :: At(heldOut, g, l, k') && Passed(g, l, f, j + 1) && k' < |ids| && ids[k'] == id
      {
        if id == ids[k] {
          assert At(heldOut, f, j, k) && Passed(f, j, f, j + 1);
        } else {
          var g: nat, l: nat, k': nat :| At(heldOut, g, l, k') && Passed(g, l, f, j) && k' < |ids| && ids[k'] == id;
          assert Passed(g, l, f, j + 1);
        }
      }
    }
  }

  /** The `fold_by_row` loop of `generate_splits`: it succeeds exactly when the splitter holds
      every row out exactly once, and then records the fold that does. */
  method CollectFolds(heldOut: seq<seq<nat>>, ids: seq<string>) returns (r: Result<map<string, nat>, SplitError>)
    requires Distinct(ids) && InRange(heldOut, |ids|)
    ensures r.Ok? <==> ExactlyOnce(heldOut, |ids|)
    ensures r.Ok? ==> IsFoldMap(r.value, heldOut, ids)
    ensures r == Err(RowInTwoFolds) <==> !AtMostOnce(heldOut)
    ensures r.Err? ==> r.error.RowInTwoFolds? || r.error.FoldsIncomplete?
  {
    hide Collected, Distinct, AtMostOnce;
    var m: map<string, nat> := map[];
    StartCollected(heldOut, ids);
    var f := 0;
    while f < |heldOut|
      invariant 0 <= f <= |heldOut|
      invariant Collected(m, heldOut, ids, f, 0)
    {
      var j := 0;
      while j < |heldOut[f]|
        invariant 0 <= j <= |heldOut[f]|
        invariant Collected(m, heldOut, ids, f, j)
      {
        assert At(heldOut, f, j, heldOut[f][j]);
        var id := ids[heldOut[f][j]];
        CollectOne(m, heldOut, ids, f, j);
        if id in m {
          NotOnce(heldOut, |ids|);
          return Err(RowInTwoFolds);
        }
        m := m[id := f];
        j := j + 1;
      }
      NextFold(m, heldOut, ids, f);
      f := f + 1;
    }
    CollectedAll(m, heldOut, ids);
    if m.Keys == IdSet(ids) {
      return Ok(m);
    }
    return Err(FoldsIncomplete);
  }

  lemma StartCollected(heldOut: seq<seq<nat>>, ids: seq<string>)
    ensures Collected(map[], heldOut, ids, 0, 0)
  {
  }

  lemma NotOnce(heldOut: seq<seq<nat>>, rows: nat)
    requires !AtMostOnce(heldOut)
    ensures !ExactlyOnce(heldOut, rows)
  {
  }

  lemma NextFold(m: map<string, nat>, heldOut: seq<seq<nat>>, ids: seq<string>, f: nat)
    requires f < |heldOut| && Collected(m, heldOut, ids, f, |heldOut[f]|)
    ensures Collected(m, heldOut, ids, f + 1, 0)
  {
    forall id | id in m
      ensures exists g: nat, l: nat, k: nat :: At(heldOut, g, l, k) && Passed(g, l, f + 1, 0) && k < |ids| && ids[k] == id
    {
      var g: nat, l: nat, k: nat :| At(heldOut, g, l, k) && Passed(g, l, f, |heldOut[f]|) && k < |ids| && ids[k] == id;
      assert Passed(g, l, f + 1, 0);
    }
    forall g: nat, l: nat, k: nat | At(heldOut, g, l, k) && Passed(g, l, f + 1, 0)
      ensures Passed(g, l, f, |heldOut[f]|)
    {
    }
  }

  lemma CollectedAll(m: map<string, nat>, heldOut: seq<seq<nat>>, ids: seq<string>)
    requires Distinct(ids) && InRange(heldOut, |ids|) && Collected(m, heldOut, ids, |heldOut|, 0)
    ensures AtMostOnce(heldOut)
    ensures m.Keys == IdSet(ids) ==> ExactlyOnce(heldOut, |ids|) && IsFoldMap(m, heldOut, ids)
    ensures ExactlyOnce(heldOut, |ids|) ==> m.Keys == IdSet(ids)
  {
    if m.Keys == IdSet(ids) {
      forall k: nat | k < |ids|
        ensures HeldOut(heldOut, k)
      {
        assert ids[k] in m;
        var g: nat, l: nat, k': nat :| At(heldOut, g, l, k') && Passed(g, l, |heldOut|, 0) && k' < |ids| && ids[k'] == ids[k];
        assert k' == k;
      }
    }
    if ExactlyOnce(heldOut, |ids|) {
      forall id | id in IdSet(ids)
        ensures id in m
      {
        var k: nat :| k < |ids| && ids[k] == id;
        assert HeldOut(heldOut, k);
        var g: nat, l: nat :| At(heldOut, g, l, k);
      }
    }
  }
}
