/** `_select_fold_assignment`: choosing one fold for calibration, one for test, the rest for
    training. */
module FoldSelection {
  import opened Reals
  import opened Wrappers
  import opened ClassCounting

  datatype Fractions = Fractions(train: real, calibration: real, test: real)

  /** Rows by position: ID, fold, target code. */
  datatype Rows = Rows(ids: seq<string>, foldOf: map<string, nat>, codes: seq<int>)

  /** Distinct IDs, each in one of the folds `0..n`; the caller has checked both. */
  predicate ValidRows(rows: Rows, n: nat) {
    && |rows.ids| == |rows.codes|
    && (forall i, j :: 0 <= i < j < |rows.ids| ==> rows.ids[i] != rows.ids[j])
    && (forall k :: 0 <= k < |rows.ids| ==> rows.ids[k] in rows.foldOf && rows.foldOf[rows.ids[k]] < n)
  }

  /** `labels_by_fold`. */
  function LabelOf(fold: nat, calibration: nat, test: nat): Partition {
    if fold == calibration then Calibration else if fold == test then Test else Train
  }

  /** The partition of every row under a mapping. */
  function Labels(rows: Rows, n: nat, calibration: nat, test: nat): (ps: seq<Partition>)
    requires ValidRows(rows, n)
    ensures |ps| == |rows.ids|
    ensures forall k :: 0 <= k < |ps| ==> ps[k] == LabelOf(rows.foldOf[rows.ids[k]], calibration, test)
  {
    seq(|rows.ids|, k requires 0 <= k < |rows.ids| => LabelOf(rows.foldOf[rows.ids[k]], calibration, test))
  }

  predicate NoneEmpty(ps: seq<Partition>) {
    Size(ps, Train) > 0 && Size(ps, Calibration) > 0 && Size(ps, Test) > 0
  }

  /** The two `continue` tests, and the folds being different. */
  predicate Admissible(rows: Rows, n: nat, calibration: nat, test: nat)
    requires ValidRows(rows, n)
  {
    var ps := Labels(rows, n, calibration, test);
    calibration < n && test < n && calibration != test && NoneEmpty(ps) && GuardPasses(ps, rows.codes)
  }

  // ----- the score -----

  datatype Score = Score(size: real, cls: real, trainFolds: seq<nat>, calibration: nat, test: nat)

  /** Python's order on tuples of integers. */
  predicate LessFolds(a: seq<nat>, b: seq<nat>) {
    b != [] && (a == [] || a[0] < b[0] || (a[0] == b[0] && LessFolds(a[1..], b[1..])))
  }

  /** Python's order on score tuples. */
  predicate Less(a: Score, b: Score) {
    || a.size < b.size
    || (a.size == b.size &&
        (|| a.cls < b.cls
         || (a.cls == b.cls &&
             (|| LessFolds(a.trainFolds, b.trainFolds)
              || (a.trainFolds == b.trainFolds &&
                  (a.calibration < b.calibration || (a.calibration == b.calibration && a.test < b.test)))))))
  }

  lemma {:induction false} LessFoldsTotal(a: seq<nat>, b: seq<nat>)
    ensures LessFolds(a, b) || a == b || LessFolds(b, a)
    ensures !(LessFolds(a, b) && LessFolds(b, a)) && (a == b ==> !LessFolds(a, b))
  {
    if a != [] && b != [] && a[0] == b[0] {
      LessFoldsTotal(a[1..], b[1..]);
      assert a == [a[0]] + a[1..] && b == [b[0]] + b[1..];
    }
  }

  lemma {:induction false} LessFoldsTransitive(a: seq<nat>, b: seq<nat>, c: seq<nat>)
    requires LessFolds(a, b) && LessFolds(b, c)
    ensures LessFolds(a, c)
  {
    if a != [] && a[0] == b[0] == c[0] {
      LessFoldsTransitive(a[1..], b[1..], c[1..]);
    }
  }

  lemma LessTotal(a: Score, b: Score)
    ensures Less(a, b) || a == b || Less(b, a)
    ensures !(Less(a, b) && Less(b, a)) && (a == b ==> !Less(a, b))
  {
    LessFoldsTotal(a.trainFolds, b.trainFolds);
  }

  lemma LessTransitive(a: Score, b: Score, c: Score)
    requires Less(a, b) && Less(b, c)
    ensures Less(a, c)
  {
    if LessFolds(a.trainFolds, b.trainFolds) && LessFolds(b.trainFolds, c.trainFolds) {
      LessFoldsTransitive(a.trainFolds, b.trainFolds, c.trainFolds);
    }
  }

  /** `tuple(fold for fold in fold_numbers if fold not in {calibration_fold, test_fold})`. */
  function TrainFolds(n: nat, calibration: nat, test: nat): seq<nat> {
    if n == 0 then []
    else TrainFolds(n - 1, calibration, test) + (if n - 1 == calibration || n - 1 == test then [] else [n - 1])
  }

  function SizeDeviation(ps: seq<Partition>, split: Partition, fraction: real): real
    requires |ps| > 0
  {
    Abs(Size(ps, split) as real / |ps| as real - fraction)
  }

  function SizeScore(ps: seq<Partition>, f: Fractions): real
    requires |ps| > 0
  {
    SizeDeviation(ps, Train, f.train) + SizeDeviation(ps, Calibration, f.calibration) + SizeDeviation(ps, Test, f.test)
  }

  function SumDeviations(ps: seq<Partition>, codes: seq<int>, split: Partition, over: seq<int>): real
    requires |ps| == |codes| && Size(ps, split) > 0 && |ps| > 0
  {
    if over == [] then 0.0 else ProportionDeviation(ps, codes, split, over[0]) + SumDeviations(ps, codes, split, over[1..])
  }

  function ClassScore(ps: seq<Partition>, codes: seq<int>): real
    requires |ps| == |codes| && |ps| > 0 && NoneEmpty(ps)
  {
    var over := Codes(codes);
    SumDeviations(ps, codes, Train, over) + SumDeviations(ps, codes, Calibration, over) + SumDeviations(ps, codes, Test, over)
  }

  lemma NonemptyRows(ps: seq<Partition>)
    requires NoneEmpty(ps)
    ensures |ps| > 0
  {
  }

  function ScoreOf(rows: Rows, n: nat, f: Fractions, calibration: nat, test: nat): Score
    requires ValidRows(rows, n) && Admissible(rows, n, calibration, test)
  {
    var ps := Labels(rows, n, calibration, test);
    NonemptyRows(ps);
    Score(SizeScore(ps, f), ClassScore(ps, rows.codes), TrainFolds(n, calibration, test), calibration, test)
  }

  /** The selected mapping is admissible and beats every other admissible one. */
  ghost predicate IsBest(rows: Rows, n: nat, f: Fractions, calibration: nat, test: nat)
    requires ValidRows(rows, n)
  {
    && Admissible(rows, n, calibration, test)
    && (forall c, t :: Admissible(rows, n, c, t) && (c != calibration || t != test) ==>
          Less(ScoreOf(rows, n, f, calibration, test), ScoreOf(rows, n, f, c, t)))
  }

  /** So the answer does not depend on the order in which the mappings are tried. */
  lemma BestIsUnique(rows: Rows, n: nat, f: Fractions, c: nat, t: nat, c': nat, t': nat)
    requires ValidRows(rows, n) && IsBest(rows, n, f, c, t) && IsBest(rows, n, f, c', t')
    ensures c == c' && t == t'
  {
    if c != c' || t != t' {
      LessTotal(ScoreOf(rows, n, f, c, t), ScoreOf(rows, n, f, c', t'));
    }
  }

  // ----- what the score measures -----

  function Distance(x: real, y: real): real {
    if x < y then y - x else x - y
  }

  /** The rows of a partition under a mapping, straight from the folds. */
  function TrainRows(rows: Rows, c: nat, t: nat): set<nat>
    requires KnownFolds(rows)
  {
    set k: nat | k < |rows.ids| && rows.foldOf[rows.ids[k]] != c && rows.foldOf[rows.ids[k]] != t
  }

  function FoldRows(rows: Rows, fold: nat): set<nat>
    requires KnownFolds(rows)
  {
    set k: nat | k < |rows.ids| && rows.foldOf[rows.ids[k]] == fold
  }

  function CodeRows(rows: Rows, code: int): set<nat> {
    set k: nat | k < |rows.codes| && rows.codes[k] == code
  }

  predicate KnownFolds(rows: Rows) {
    |rows.ids| == |rows.codes| && forall k :: 0 <= k < |rows.ids| ==> rows.ids[k] in rows.foldOf
  }

  /** The summed distance of the partition shares from the configured fractions. */
  function FractionDistance(rows: Rows, f: Fractions, c: nat, t: nat): real
    requires KnownFolds(rows) && rows.ids != []
  {
    var n := |rows.ids| as real;
    Distance(|TrainRows(rows, c, t)| as real / n, f.train)
    + Distance(|FoldRows(rows, c)| as real / n, f.calibration)
    + Distance(|FoldRows(rows, t)| as real / n, f.test)
  }

  /** The summed distance of the class proportions of a partition from those of all rows. */
  function ProportionDistance(rows: Rows, part: set<nat>, over: seq<int>): real
    requires part != {} && rows.codes != []
  {
    if over == [] then 0.0
    else
      Distance(|part * CodeRows(rows, over[0])| as real / |part| as real, |CodeRows(rows, over[0])| as real / |rows.codes| as real)
      + ProportionDistance(rows, part, over[1..])
  }

  /** The same for all three partitions, over the codes that occur, each once. */
  function ClassDistance(rows: Rows, c: nat, t: nat): real
    requires KnownFolds(rows) && TrainRows(rows, c, t) != {} && FoldRows(rows, c) != {} && FoldRows(rows, t) != {}
  {
    var k :| k in FoldRows(rows, c);
    assert rows.codes != [];
    var over := Codes(rows.codes);
    ProportionDistance(rows, TrainRows(rows, c, t), over) + ProportionDistance(rows, FoldRows(rows, c), over)
    + ProportionDistance(rows, FoldRows(rows, t), over)
  }

  /** The train folds are the folds but two, in increasing order. */
  lemma {:induction false} TrainFoldsMeans(n: nat, c: nat, t: nat)
    ensures forall fold: nat :: fold in TrainFolds(n, c, t) <==> fold < n && fold != c && fold != t
    ensures forall i, j :: 0 <= i < j < |TrainFolds(n, c, t)| ==> TrainFolds(n, c, t)[i] < TrainFolds(n, c, t)[j]
  {
    if n > 0 {
      TrainFoldsMeans(n - 1, c, t);
      var init := TrainFolds(n - 1, c, t);
      assert forall i :: 0 <= i < |init| ==> init[i] in init;
    }
  }

  lemma PrefixHead(a: seq<nat>, b: seq<nat>, k: nat)
    requires 0 < k <= |a| && k <= |b| && a[..k] == b[..k]
    ensures a[0] == b[0]
  {
    assert a[..k][0] == a[0] && b[..k][0] == b[0];
  }

  /** The order on tuples of folds: the first difference decides, and a proper prefix comes first. */
  lemma {:induction false} LessFoldsMeans(a: seq<nat>, b: seq<nat>)
    ensures LessFolds(a, b) <==>
            exists k: nat :: k <= |a| && k < |b| && a[..k] == b[..k] && (k == |a| || a[k] < b[k])
  {
    if a != [] && b != [] && a[0] == b[0] {
      LessFoldsMeans(a[1..], b[1..]);
      if k: nat :| k <= |a| && k < |b| && a[..k] == b[..k] && (k == |a| || a[k] < b[k]) {
        assert k > 0;
        assert a[1..][..k - 1] == a[..k][1..] && b[1..][..k - 1] == b[..k][1..];
      }
      if k: nat :| k <= |a[1..]| && k < |b[1..]| && a[1..][..k] == b[1..][..k] && (k == |a[1..]| || a[1..][k] < b[1..][k]) {
        assert a[..k + 1] == [a[0]] + a[1..][..k] && b[..k + 1] == [b[0]] + b[1..][..k];
      }
    } else if b != [] {
      assert a[..0] == b[..0];
      if k: nat :| k <= |a| && k < |b| && a[..k] == b[..k] && (k == |a| || a[k] < b[k]) {
        if k > 0 {
          PrefixHead(a, b, k);
        }
      }
    }
  }

  lemma SizesAreCounts(rows: Rows, n: nat, c: nat, t: nat)
    requires ValidRows(rows, n) && c != t
    ensures var ps := Labels(rows, n, c, t);
            && Size(ps, Train) == |TrainRows(rows, c, t)| && Size(ps, Calibration) == |FoldRows(rows, c)|
            && Size(ps, Test) == |FoldRows(rows, t)|
  {
    var ps := Labels(rows, n, c, t);
    SizeIsCount(ps, Train);
    SizeIsCount(ps, Calibration);
    SizeIsCount(ps, Test);
    assert Where(ps, Train) == TrainRows(rows, c, t);
    assert Where(ps, Calibration) == FoldRows(rows, c);
    assert Where(ps, Test) == FoldRows(rows, t);
  }

  lemma SizeScoreIsDistance(rows: Rows, n: nat, f: Fractions, c: nat, t: nat)
    requires ValidRows(rows, n) && c != t && rows.ids != []
    ensures SizeScore(Labels(rows, n, c, t), f) == FractionDistance(rows, f, c, t)
  {
    SizesAreCounts(rows, n, c, t);
    hide ValidRows, Labels, Size, TrainRows, FoldRows;
  }

  lemma {:induction false} SumDeviationsIsDistance(rows: Rows, ps: seq<Partition>, split: Partition, over: seq<int>)
    requires |ps| == |rows.codes| && Where(ps, split) != {} && Size(ps, split) > 0 && ps != []
    ensures SumDeviations(ps, rows.codes, split, over) == ProportionDistance(rows, Where(ps, split), over)
  {
    if over != [] {
      SumDeviationsIsDistance(rows, ps, split, over[1..]);
      SizeIsCount(ps, split);
      CountIsCount(ps, rows.codes, split, over[0]);
      TotalIsCount(rows.codes, over[0]);
      assert WhereCode(ps, rows.codes, split, over[0]) == Where(ps, split) * CodeRows(rows, over[0]);
      assert WhereTotal(rows.codes, over[0]) == CodeRows(rows, over[0]);
      hide Where, WhereCode, WhereTotal, CodeRows, Size, Count, Total;
    }
  }

  lemma ClassScoreIsDistance(rows: Rows, n: nat, c: nat, t: nat)
    requires ValidRows(rows, n) && c != t && rows.ids != [] && NoneEmpty(Labels(rows, n, c, t))
    ensures TrainRows(rows, c, t) != {} && FoldRows(rows, c) != {} && FoldRows(rows, t) != {}
    ensures ClassScore(Labels(rows, n, c, t), rows.codes) == ClassDistance(rows, c, t)
  {
    var ps := Labels(rows, n, c, t);
    SizesAreCounts(rows, n, c, t);
    var over := Codes(rows.codes);
    assert Where(ps, Train) == TrainRows(rows, c, t);
    assert Where(ps, Calibration) == FoldRows(rows, c);
    assert Where(ps, Test) == FoldRows(rows, t);
    SumDeviationsIsDistance(rows, ps, Train, over);
    SumDeviationsIsDistance(rows, ps, Calibration, over);
    SumDeviationsIsDistance(rows, ps, Test, over);
  }

  /** The three partitions of an admissible mapping have rows. */
  lemma AdmissibleHasRows(rows: Rows, n: nat, f: Fractions, c: nat, t: nat)
    requires ValidRows(rows, n) && Admissible(rows, n, c, t)
    ensures rows.ids != [] && KnownFolds(rows) && c != t
    ensures TrainRows(rows, c, t) != {} && FoldRows(rows, c) != {} && FoldRows(rows, t) != {}
    ensures var s := ScoreOf(rows, n, f, c, t);
            && s.size == FractionDistance(rows, f, c, t) && s.cls == ClassDistance(rows, c, t)
            && s.trainFolds == TrainFolds(n, c, t) && s.calibration == c && s.test == t
  {
    NonemptyRows(Labels(rows, n, c, t));
    ClassScoreIsDistance(rows, n, c, t);
    SizeScoreIsDistance(rows, n, f, c, t);
    hide ClassDistance, FractionDistance, SizeScore, ClassScore, TrainFolds, GuardPasses, NoneEmpty;
  }

  /** No admissible mapping comes closer to the fractions; of those as close, none comes closer to
      the class proportions; of those as close on both, none comes first by train folds, then
      calibration fold, then test fold. */
  ghost predicate NoneCloser(rows: Rows, n: nat, f: Fractions, c: nat, t: nat, c': nat, t': nat)
    requires ValidRows(rows, n) && KnownFolds(rows) && rows.ids != []
    requires TrainRows(rows, c, t) != {} && FoldRows(rows, c) != {} && FoldRows(rows, t) != {}
    requires TrainRows(rows, c', t') != {} && FoldRows(rows, c') != {} && FoldRows(rows, t') != {}
  {
    var d, d' := FractionDistance(rows, f, c, t), FractionDistance(rows, f, c', t');
    var e, e' := ClassDistance(rows, c, t), ClassDistance(rows, c', t');
    var folds, folds' := TrainFolds(n, c, t), TrainFolds(n, c', t');
    d < d' || (d == d' && (e < e' || (e == e' && (LessFolds(folds, folds') || (folds == folds' && (c < c' || (c == c' && t <= t')))))))
  }

  /** The same, with what makes it meaningful. */
  ghost predicate Beats(rows: Rows, n: nat, f: Fractions, c: nat, t: nat, c': nat, t': nat)
    requires ValidRows(rows, n)
  {
    && KnownFolds(rows) && rows.ids != []
    && TrainRows(rows, c, t) != {} && FoldRows(rows, c) != {} && FoldRows(rows, t) != {}
    && TrainRows(rows, c', t') != {} && FoldRows(rows, c') != {} && FoldRows(rows, t') != {}
    && NoneCloser(rows, n, f, c, t, c', t')
  }

  lemma BestIsClosest(rows: Rows, n: nat, f: Fractions, c: nat, t: nat, c': nat, t': nat)
    requires ValidRows(rows, n) && IsBest(rows, n, f, c, t) && Admissible(rows, n, c', t')
    ensures rows.ids != [] && KnownFolds(rows)
    ensures TrainRows(rows, c, t) != {} && FoldRows(rows, c) != {} && FoldRows(rows, t) != {}
    ensures TrainRows(rows, c', t') != {} && FoldRows(rows, c') != {} && FoldRows(rows, t') != {}
    ensures NoneCloser(rows, n, f, c, t, c', t')
  {
    AdmissibleHasRows(rows, n, f, c, t);
    AdmissibleHasRows(rows, n, f, c', t');
    hide Admissible, ScoreOf, ValidRows, TrainRows, FoldRows, FractionDistance, ClassDistance, TrainFolds, LessFolds;
  }

  /** A mapping that meets the fractions exactly is not passed over for one that does not. */
  lemma ExactFractionsWin(rows: Rows, n: nat, f: Fractions, c: nat, t: nat, c': nat, t': nat)
    requires ValidRows(rows, n) && IsBest(rows, n, f, c, t) && Admissible(rows, n, c', t')
    requires KnownFolds(rows) && rows.ids != []
    requires var total := |rows.ids| as real;
             |TrainRows(rows, c', t')| as real / total == f.train && |FoldRows(rows, c')| as real / total == f.calibration
             && |FoldRows(rows, t')| as real / total == f.test
    ensures var total := |rows.ids| as real;
            |TrainRows(rows, c, t)| as real / total == f.train && |FoldRows(rows, c)| as real / total == f.calibration
            && |FoldRows(rows, t)| as real / total == f.test
  {
    BestIsClosest(rows, n, f, c, t, c', t');
    hide IsBest, Admissible, ValidRows, TrainRows, FoldRows, ClassDistance, TrainFolds, LessFolds;
  }

  datatype Selection = Selection(labels: map<string, Partition>, trainFolds: seq<nat>, calibration: nat, test: nat)

  /** Mappings tried before `(c, t)` in the double loop. */
  predicate Before(n: nat, c': nat, t': nat, c: nat, t: nat) {
    t' < n && (c' < c || (c' == c && t' < t))
  }

  /** `_select_fold_assignment`: `None` stands for its `SplitError`. */
  method SelectFoldAssignment(rows: Rows, n: nat, f: Fractions) returns (r: Option<Selection>)
    requires ValidRows(rows, n)
    ensures r.None? <==> forall c, t :: !Admissible(rows, n, c, t)
    ensures r.Some? ==> IsBest(rows, n, f, r.value.calibration, r.value.test)
    ensures r.Some? ==> forall c, t :: Admissible(rows, n, c, t) ==> Beats(rows, n, f, r.value.calibration, r.value.test, c, t)
    ensures r.Some? ==> r.value.trainFolds == TrainFolds(n, r.value.calibration, r.value.test)
    ensures r.Some? ==> r.value.labels.Keys == (set id | id in rows.ids)
    ensures r.Some? ==> forall id :: id in rows.ids ==> r.value.labels[id] == LabelOf(rows.foldOf[id], r.value.calibration, r.value.test)
  {
    hide Admissible, ScoreOf, Less, ValidRows, LabelOf;
    var best: Option<(nat, nat)> := None;
    var c := 0;
    while c < n
      invariant 0 <= c <= n
      invariant best.None? ==> forall c', t' :: Before(n, c', t', c, 0) ==> !Admissible(rows, n, c', t')
      invariant best.Some? ==> BestSoFar(rows, n, f, best.value.0, best.value.1, c, 0)
    {
      var t := 0;
      while t < n
        invariant 0 <= t <= n
        invariant best.None? ==> forall c', t' :: Before(n, c', t', c, t) ==> !Admissible(rows, n, c', t')
        invariant best.Some? ==> BestSoFar(rows, n, f, best.value.0, best.value.1, c, t)
      {
        if Admissible(rows, n, c, t) {
          if best.None? || Less(ScoreOf(rows, n, f, c, t), ScoreOf(rows, n, f, best.value.0, best.value.1)) {
            if best.Some? {
              BetterFound(rows, n, f, best.value.0, best.value.1, c, t);
            }
            best := Some((c, t));
          } else {
            WorseSkipped(rows, n, f, best.value.0, best.value.1, c, t);
          }
        }
        t := t + 1;
      }
      c := c + 1;
    }
    BoundsOfAdmissible(rows, n);
    match best
    case None => r := None;
    case Some((calibration, test)) =>
      forall c, t | Admissible(rows, n, c, t)
        ensures Beats(rows, n, f, calibration, test, c, t)
      {
        BestIsClosest(rows, n, f, calibration, test, c, t);
      }
      FoldsKnown(rows, n);
      var labels := map id | id in rows.ids :: LabelOf(rows.foldOf[id], calibration, test);
      r := Some(Selection(labels, TrainFolds(n, calibration, test), calibration, test));
  }

  /** The incumbent of the search before `(c, t)` is tried. */
  ghost predicate BestSoFar(rows: Rows, n: nat, f: Fractions, bc: nat, bt: nat, c: nat, t: nat)
    requires ValidRows(rows, n)
  {
    && Admissible(rows, n, bc, bt) && Before(n, bc, bt, c, t)
    && (forall c', t' :: Before(n, c', t', c, t) && Admissible(rows, n, c', t') && (c' != bc || t' != bt) ==>
          Less(ScoreOf(rows, n, f, bc, bt), ScoreOf(rows, n, f, c', t')))
  }

  lemma BetterFound(rows: Rows, n: nat, f: Fractions, bc: nat, bt: nat, c: nat, t: nat)
    requires ValidRows(rows, n) && t < n && BestSoFar(rows, n, f, bc, bt, c, t) && Admissible(rows, n, c, t)
    requires Less(ScoreOf(rows, n, f, c, t), ScoreOf(rows, n, f, bc, bt))
    ensures BestSoFar(rows, n, f, c, t, c, t + 1)
  {
    hide Admissible, ScoreOf, Less, ValidRows;
    forall c', t' | Before(n, c', t', c, t + 1) && Admissible(rows, n, c', t') && (c' != c || t' != t)
      ensures Less(ScoreOf(rows, n, f, c, t), ScoreOf(rows, n, f, c', t'))
    {
      if c' != bc || t' != bt {
        LessTransitive(ScoreOf(rows, n, f, c, t), ScoreOf(rows, n, f, bc, bt), ScoreOf(rows, n, f, c', t'));
      }
    }
  }

  lemma WorseSkipped(rows: Rows, n: nat, f: Fractions, bc: nat, bt: nat, c: nat, t: nat)
    requires ValidRows(rows, n) && t < n && BestSoFar(rows, n, f, bc, bt, c, t) && Admissible(rows, n, c, t)
    requires !Less(ScoreOf(rows, n, f, c, t), ScoreOf(rows, n, f, bc, bt))
    ensures BestSoFar(rows, n, f, bc, bt, c, t + 1)
  {
    LessTotal(ScoreOf(rows, n, f, c, t), ScoreOf(rows, n, f, bc, bt));
    assert ScoreOf(rows, n, f, c, t).calibration == c && ScoreOf(rows, n, f, c, t).test == t;
    assert ScoreOf(rows, n, f, bc, bt).calibration == bc && ScoreOf(rows, n, f, bc, bt).test == bt;
    hide Admissible, ScoreOf, Less, ValidRows;
  }

  lemma BoundsOfAdmissible(rows: Rows, n: nat)
    requires ValidRows(rows, n)
    ensures forall c, t :: Admissible(rows, n, c, t) ==> Before(n, c, t, n, 0)
  {
    hide ValidRows;
  }

  lemma FoldsKnown(rows: Rows, n: nat)
    requires ValidRows(rows, n)
    ensures forall id :: id in rows.ids ==> id in rows.foldOf
  {
  }

  // ----- group isolation -----

  /** If every group lies in one fold, no selected mapping, whichever it is, tears a group apart. */
  lemma GroupsStayTogether(rows: Rows, n: nat, groups: seq<string>, calibration: nat, test: nat, i: nat, j: nat)
    requires ValidRows(rows, n) && |groups| == |rows.ids| && i < |groups| && j < |groups|
    requires groups[i] == groups[j] ==> rows.foldOf[rows.ids[i]] == rows.foldOf[rows.ids[j]]
    ensures groups[i] == groups[j] ==> Labels(rows, n, calibration, test)[i] == Labels(rows, n, calibration, test)[j]
  {
  }

  // ----- what the class guard is worth for the folds at hand -----

  ghost predicate FoldUsed(rows: Rows, fold: nat) {
    exists k :: 0 <= k < |rows.ids| && rows.ids[k] in rows.foldOf && rows.foldOf[rows.ids[k]] == fold
  }

  ghost predicate FoldHasTwoClasses(rows: Rows, fold: nat)
    requires |rows.ids| == |rows.codes|
  {
    exists i, j :: 0 <= i < |rows.ids| && 0 <= j < |rows.ids| && rows.codes[i] != rows.codes[j]
      && rows.ids[i] in rows.foldOf && rows.foldOf[rows.ids[i]] == fold
      && rows.ids[j] in rows.foldOf && rows.foldOf[rows.ids[j]] == fold
  }

  lemma SizeByFold(rows: Rows, n: nat, c: nat, t: nat, split: Partition)
    requires ValidRows(rows, n)
    ensures Size(Labels(rows, n, c, t), split) > 0 <==>
            exists k :: 0 <= k < |rows.ids| && LabelOf(rows.foldOf[rows.ids[k]], c, t) == split
  {
    var ps := Labels(rows, n, c, t);
    SizePositive(ps, split);
    if split in ps {
      var k :| 0 <= k < |ps| && ps[k] == split;
      assert LabelOf(rows.foldOf[rows.ids[k]], c, t) == split;
    }
    if k :| 0 <= k < |rows.ids| && LabelOf(rows.foldOf[rows.ids[k]], c, t) == split {
      assert ps[k] == split;
    }
  }

  lemma CalibrationUsed(rows: Rows, n: nat, c: nat, t: nat)
    requires ValidRows(rows, n)
    ensures Size(Labels(rows, n, c, t), Calibration) > 0 <==> FoldUsed(rows, c)
  {
    SizeByFold(rows, n, c, t, Calibration);
    if FoldUsed(rows, c) {
      var k :| 0 <= k < |rows.ids| && rows.ids[k] in rows.foldOf && rows.foldOf[rows.ids[k]] == c;
      assert LabelOf(rows.foldOf[rows.ids[k]], c, t) == Calibration;
    }
  }

  lemma TestUsed(rows: Rows, n: nat, c: nat, t: nat)
    requires ValidRows(rows, n) && c != t
    ensures Size(Labels(rows, n, c, t), Test) > 0 <==> FoldUsed(rows, t)
  {
    SizeByFold(rows, n, c, t, Test);
    if FoldUsed(rows, t) {
      var k :| 0 <= k < |rows.ids| && rows.ids[k] in rows.foldOf && rows.foldOf[rows.ids[k]] == t;
      assert LabelOf(rows.foldOf[rows.ids[k]], c, t) == Test;
    }
  }

  ghost predicate ThirdFoldUsed(rows: Rows, c: nat, t: nat) {
    exists u: nat :: u != c && u != t && FoldUsed(rows, u)
  }

  lemma TrainUsed(rows: Rows, n: nat, c: nat, t: nat)
    requires ValidRows(rows, n)
    ensures Size(Labels(rows, n, c, t), Train) > 0 <==> ThirdFoldUsed(rows, c, t)
  {
    SizeByFold(rows, n, c, t, Train);
    if ThirdFoldUsed(rows, c, t) {
      var u: nat :| u != c && u != t && FoldUsed(rows, u);
      var k :| 0 <= k < |rows.ids| && rows.ids[k] in rows.foldOf && rows.foldOf[rows.ids[k]] == u;
      assert LabelOf(rows.foldOf[rows.ids[k]], c, t) == Train;
    }
    if k :| 0 <= k < |rows.ids| && LabelOf(rows.foldOf[rows.ids[k]], c, t) == Train {
      assert FoldUsed(rows, rows.foldOf[rows.ids[k]]);
    }
  }

  ghost predicate TwoCodes(codes: seq<int>) {
    exists i, j :: 0 <= i < |codes| && 0 <= j < |codes| && codes[i] != codes[j]
  }

  /** A mapping is admissible exactly when its two folds and some third one have rows and the
      whole data have two codes: the classes inside the folds are never looked at. */
  lemma AdmissibleMeans(rows: Rows, n: nat, c: nat, t: nat)
    requires ValidRows(rows, n)
    ensures Admissible(rows, n, c, t) <==>
            c != t && FoldUsed(rows, c) && FoldUsed(rows, t) && ThirdFoldUsed(rows, c, t) && TwoCodes(rows.codes)
  {
    var ps := Labels(rows, n, c, t);
    GuardMeans(ps, rows.codes);
    SizePositive(ps, Train);
    SizePositive(ps, Calibration);
    SizePositive(ps, Test);
    TrainUsed(rows, n, c, t);
    CalibrationUsed(rows, n, c, t);
    if c != t {
      TestUsed(rows, n, c, t);
    }
    UsedFoldsAreKnown(rows, n);
    hide Labels, GuardPasses, ThirdFoldUsed, FoldUsed, ValidRows, Size;
    assert Splits[0] == Train && Splits[1] == Calibration && Splits[2] == Test;
  }

  lemma UsedFoldsAreKnown(rows: Rows, n: nat)
    requires ValidRows(rows, n)
    ensures forall fold: nat :: FoldUsed(rows, fold) ==> fold < n
  {
  }

  /** A split that contains a two-class fold has two classes. */
  lemma FoldLiftsToSplit(rows: Rows, n: nat, c: nat, t: nat, fold: nat)
    requires ValidRows(rows, n) && FoldHasTwoClasses(rows, fold)
    ensures HasTwoClasses(Labels(rows, n, c, t), rows.codes, LabelOf(fold, c, t))
  {
    var i, j :| 0 <= i < |rows.ids| && 0 <= j < |rows.ids| && rows.codes[i] != rows.codes[j]
      && rows.ids[i] in rows.foldOf && rows.foldOf[rows.ids[i]] == fold
      && rows.ids[j] in rows.foldOf && rows.foldOf[rows.ids[j]] == fold;
    var ps := Labels(rows, n, c, t);
    assert ps[i] == LabelOf(fold, c, t) && ps[j] == LabelOf(fold, c, t);
  }

  /** A calibration partition has two classes exactly when its fold has. */
  lemma CalibrationIsItsFold(rows: Rows, n: nat, c: nat, t: nat)
    requires ValidRows(rows, n) && HasTwoClasses(Labels(rows, n, c, t), rows.codes, Calibration)
    ensures FoldHasTwoClasses(rows, c)
  {
    var ps := Labels(rows, n, c, t);
    var i, j :| 0 <= i < |ps| && 0 <= j < |ps| && ps[i] == Calibration && ps[j] == Calibration && rows.codes[i] != rows.codes[j];
    assert rows.foldOf[rows.ids[i]] == c && rows.foldOf[rows.ids[j]] == c;
  }

  /** What the error message of the search promises of a mapping. */
  ghost predicate Promised(rows: Rows, n: nat, c: nat, t: nat)
    requires ValidRows(rows, n)
  {
    EverySplitHasTwoClasses(Labels(rows, n, c, t), rows.codes)
  }

  ghost predicate UsedFoldsHaveTwoClasses(rows: Rows)
    requires |rows.ids| == |rows.codes|
  {
    forall fold: nat :: FoldUsed(rows, fold) ==> FoldHasTwoClasses(rows, fold)
  }

  lemma ThreeFoldsCover(rows: Rows, n: nat, c: nat, t: nat, u: nat)
    requires ValidRows(rows, n) && c != t && u != c && u != t
    requires FoldHasTwoClasses(rows, c) && FoldHasTwoClasses(rows, t) && FoldHasTwoClasses(rows, u)
    ensures Promised(rows, n, c, t)
  {
    hide FoldHasTwoClasses, HasTwoClasses, Labels;
    FoldLiftsToSplit(rows, n, c, t, c);
    FoldLiftsToSplit(rows, n, c, t, t);
    FoldLiftsToSplit(rows, n, c, t, u);
    hide ValidRows;
    assert Splits[0] == Train && Splits[1] == Calibration && Splits[2] == Test;
  }

  lemma AdmissibleMappingIsSound(rows: Rows, n: nat, c: nat, t: nat)
    requires ValidRows(rows, n) && Admissible(rows, n, c, t) && UsedFoldsHaveTwoClasses(rows)
    ensures Promised(rows, n, c, t)
  {
    hide Admissible, FoldHasTwoClasses, FoldUsed, Promised, ValidRows, TwoCodes;
    AdmissibleMeans(rows, n, c, t);
    var u: nat :| u != c && u != t && FoldUsed(rows, u);
    ThreeFoldsCover(rows, n, c, t, u);
  }

  /** Any used fold may serve as calibration once some mapping is admissible. */
  lemma AnyFoldMayCalibrate(rows: Rows, n: nat, c: nat, t: nat, fold: nat) returns (other: nat)
    requires ValidRows(rows, n) && Admissible(rows, n, c, t) && FoldUsed(rows, fold)
    ensures Admissible(rows, n, fold, other)
  {
    hide FoldUsed, ValidRows, Admissible, TwoCodes;
    AdmissibleMeans(rows, n, c, t);
    var u: nat :| u != c && u != t && FoldUsed(rows, u);
    other := if fold == t then c else t;
    var third := if fold == c || fold == t then u else c;
    assert third != fold && third != other && FoldUsed(rows, third);
    AdmissibleMeans(rows, n, fold, other);
  }

  /** Every mapping the search may choose has both classes in every split exactly when no
      mapping is admissible at all, or every fold that has rows has two classes: a condition on
      the folds alone, which the code does not check. */
  lemma ClassCoverageHoldsIff(rows: Rows, n: nat)
    requires ValidRows(rows, n)
    ensures (forall c, t :: Admissible(rows, n, c, t) ==> Promised(rows, n, c, t)) <==>
            ((forall c, t :: !Admissible(rows, n, c, t)) || UsedFoldsHaveTwoClasses(rows))
  {
    hide FoldHasTwoClasses, FoldUsed, HasTwoClasses, Admissible;
    if UsedFoldsHaveTwoClasses(rows) {
      forall c, t | Admissible(rows, n, c, t)
        ensures Promised(rows, n, c, t)
      {
        AdmissibleMappingIsSound(rows, n, c, t);
      }
    }
    if c, t :| Admissible(rows, n, c, t) {
      if forall c, t :: Admissible(rows, n, c, t) ==> Promised(rows, n, c, t) {
        forall fold: nat | FoldUsed(rows, fold)
          ensures FoldHasTwoClasses(rows, fold)
        {
          var other := AnyFoldMayCalibrate(rows, n, c, t, fold);
          assert Promised(rows, n, fold, other) && Splits[1] == Calibration;
          CalibrationIsItsFold(rows, n, fold, other);
        }
      }
    }
  }
}
