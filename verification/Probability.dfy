/** `normalize_probability_matrix` (`models/probability.py`). */
module Probability {
  import opened Wrappers
  import opened Reals
  import opened Sequences

  datatype Cell = Finite(x: real) | NaN | Infinite(negative: bool)

  /** What a model returns: rows of one length, or an array of another dimension. */
  datatype Output = Matrix(columns: nat, rows: seq<seq<Cell>>) | OtherShape

  datatype ProbabilityError =
    | NotAMatrix | ColumnCountDiffers | DuplicateLabels | LabelsDiffer | RowCountDiffers | NotFinite | OutsideUnit | RowsDoNotSumToOne

  datatype Normalized = Normalized(rows: seq<seq<real>>, classes: seq<string>, maxError: real)

  predicate Rectangular(output: Output) {
    output.Matrix? ==> forall i :: 0 <= i < |output.rows| ==> |output.rows[i]| == output.columns
  }

  predicate Within(s: seq<string>, t: seq<string>) {
    forall l :: l in s ==> l in t
  }

  predicate SameLabels(s: seq<string>, t: seq<string>) {
    Within(s, t) && Within(t, s)
  }

  predicate AllFinite(rows: seq<seq<Cell>>) {
    forall i, j :: 0 <= i < |rows| && 0 <= j < |rows[i]| ==> rows[i][j].Finite?
  }

  predicate AllWithin(rows: seq<seq<real>>, low: real, high: real) {
    forall i, j :: 0 <= i < |rows| && 0 <= j < |rows[i]| ==> low <= rows[i][j] <= high
  }

  function RealRow(row: seq<Cell>): (r: seq<real>)
    requires forall j :: 0 <= j < |row| ==> row[j].Finite?
    ensures |r| == |row| && forall j :: 0 <= j < |r| ==> row[j] == Finite(r[j])
  {
    seq(|row|, j requires 0 <= j < |row| => row[j].x)
  }

  function RealRows(rows: seq<seq<Cell>>): (r: seq<seq<real>>)
    requires AllFinite(rows)
    ensures |r| == |rows| && forall i :: 0 <= i < |r| ==> r[i] == RealRow(rows[i])
  {
    seq(|rows|, i requires 0 <= i < |rows| => RealRow(rows[i]))
  }

  /** `classes.index(label)`. */
  function IndexOf(classes: seq<string>, l: string): (p: nat)
    requires l in classes
    ensures p < |classes| && classes[p] == l && l !in classes[..p]
  {
    if classes[0] == l then 0 else 1 + IndexOf(classes[1..], l)
  }

  /** One row of `matrix[:, order]`. */
  function Reordered(row: seq<real>, classes: seq<string>, canonical: seq<string>): (r: seq<real>)
    requires |row| == |classes| && forall l :: l in canonical ==> l in classes
    ensures |r| == |canonical| && forall j :: 0 <= j < |r| ==> r[j] == row[IndexOf(classes, canonical[j])]
  {
    seq(|canonical|, j requires 0 <= j < |canonical| => row[IndexOf(classes, canonical[j])])
  }

  function ReorderedRows(rows: seq<seq<real>>, classes: seq<string>, canonical: seq<string>): (r: seq<seq<real>>)
    requires (forall i :: 0 <= i < |rows| ==> |rows[i]| == |classes|) && forall l :: l in canonical ==> l in classes
    ensures |r| == |rows| && forall i :: 0 <= i < |r| ==> r[i] == Reordered(rows[i], classes, canonical)
  {
    seq(|rows|, i requires 0 <= i < |rows| => Reordered(rows[i], classes, canonical))
  }

  /** `np.max(np.abs(sums - 1.0))`, zero without rows. */
  function MaxError(rows: seq<seq<real>>): real {
    if rows == [] then 0.0 else Max(Abs(Sum(rows[0]) - 1.0), MaxError(rows[1..]))
  }

  function Clip(x: real): real {
    if x < 0.0 then 0.0 else if x > 1.0 then 1.0 else x
  }

  function ClipRow(row: seq<real>): (r: seq<real>)
    ensures |r| == |row| && forall j :: 0 <= j < |r| ==> r[j] == Clip(row[j])
  {
    seq(|row|, j requires 0 <= j < |row| => Clip(row[j]))
  }

  function ClipRows(rows: seq<seq<real>>): (r: seq<seq<real>>)
    ensures |r| == |rows| && forall i :: 0 <= i < |r| ==> r[i] == ClipRow(rows[i])
  {
    seq(|rows|, i requires 0 <= i < |rows| => ClipRow(rows[i]))
  }

  /** From a finite matrix on. */
  function Finish(rows: seq<seq<real>>, classes: seq<string>, canonical: seq<string>, atol: real): Result<Normalized, ProbabilityError>
    requires (forall i :: 0 <= i < |rows| ==> |rows[i]| == |classes|) && forall l :: l in canonical ==> l in classes
  {
    if !AllWithin(rows, -atol, 1.0 + atol) then Err(OutsideUnit)
    else
      var normalized := ReorderedRows(rows, classes, canonical);
      if MaxError(normalized) > atol then Err(RowsDoNotSumToOne)
      else Ok(Normalized(if AllWithin(normalized, 0.0, 1.0) then normalized else ClipRows(normalized), canonical, MaxError(normalized)))
  }

  function Normalize(output: Output, classes: seq<string>, canonical: seq<string>, rowCount: Option<nat>, atol: real)
    : Result<Normalized, ProbabilityError>
    requires Rectangular(output)
  {
    if output.OtherShape? then Err(NotAMatrix)
    else if |classes| != output.columns then Err(ColumnCountDiffers)
    else if !Distinct(classes) then Err(DuplicateLabels)
    else if !Distinct(canonical) || !SameLabels(classes, canonical) then Err(LabelsDiffer)
    else if rowCount.Some? && |output.rows| != rowCount.value then Err(RowCountDiffers)
    else if !AllFinite(output.rows) then Err(NotFinite)
    else Finish(RealRows(output.rows), classes, canonical, atol)
  }

  // ----- reordering loses nothing -----

  /** `r` under the labels `canonical` says what `row` says under `classes`. */
  ghost predicate Relabelled(row: seq<real>, classes: seq<string>, r: seq<real>, canonical: seq<string>) {
    && |row| == |classes| && |r| == |canonical| && Distinct(classes) && Distinct(canonical) && SameLabels(classes, canonical)
    && (forall j, p :: 0 <= j < |r| && 0 <= p < |row| && classes[p] == canonical[j] ==> r[j] == row[p])
  }

  lemma WithinWithout(s: seq<string>, p: nat, t: seq<string>, q: nat)
    requires p < |s| && q < |t| && s[p] == t[q] && Distinct(s) && Within(s, t)
    ensures Distinct(Without(s, p)) && Within(Without(s, p), Without(t, q))
  {
    var s', t' := Without(s, p), Without(t, q);
    forall l | l in s'
      ensures l in t'
    {
      var i :| 0 <= i < |s'| && s'[i] == l;
      assert l in s;
      var j :| 0 <= j < |t| && t[j] == l;
      assert t'[if j < q then j else j - 1] == l;
    }
  }

  lemma RelabelledFirst(row: seq<real>, classes: seq<string>, r: seq<real>, canonical: seq<string>) returns (p: nat)
    requires Relabelled(row, classes, r, canonical) && canonical != []
    ensures p < |row| == |classes| && r != [] && r[0] == row[p]
    ensures Relabelled(Without(row, p), Without(classes, p), Without(r, 0), Without(canonical, 0))
  {
    assert canonical[0] in canonical && canonical[0] in classes;
    p :| 0 <= p < |classes| && classes[p] == canonical[0];
    WithinWithout(classes, p, canonical, 0);
    WithinWithout(canonical, 0, classes, p);
    hide Distinct, SameLabels, Within, Without;
  }

  lemma RelabelledNothing(row: seq<real>, classes: seq<string>, r: seq<real>, canonical: seq<string>)
    requires Relabelled(row, classes, r, canonical)
    ensures canonical == [] ==> row == [] && r == []
  {
    if row != [] {
      assert classes[0] in classes && classes[0] in canonical;
    }
  }

  /** So it is a permutation of it. */
  lemma {:induction false} RelabelledIsAPermutation(row: seq<real>, classes: seq<string>, r: seq<real>, canonical: seq<string>)
    requires Relabelled(row, classes, r, canonical)
    ensures multiset(r) == multiset(row)
    decreases |canonical|
  {
    hide Relabelled, Without;
    if canonical == [] {
      RelabelledNothing(row, classes, r, canonical);
    } else {
      var p := RelabelledFirst(row, classes, r, canonical);
      WithoutCounts(row, p);
      WithoutCounts(r, 0);
      RelabelledIsAPermutation(Without(row, p), Without(classes, p), Without(r, 0), Without(canonical, 0));
    }
  }

  lemma IndexIsUnique(classes: seq<string>, p: nat)
    requires Distinct(classes) && p < |classes|
    ensures IndexOf(classes, classes[p]) == p
  {
  }

  lemma ReorderedIsAPermutation(row: seq<real>, classes: seq<string>, canonical: seq<string>)
    requires |row| == |classes| && Distinct(classes) && Distinct(canonical) && SameLabels(classes, canonical)
    ensures multiset(Reordered(row, classes, canonical)) == multiset(row)
    ensures Sum(Reordered(row, classes, canonical)) == Sum(row)
  {
    var r := Reordered(row, classes, canonical);
    forall j, p | 0 <= j < |r| && 0 <= p < |row| && classes[p] == canonical[j]
      ensures r[j] == row[p]
    {
      IndexIsUnique(classes, p);
    }
    RelabelledIsAPermutation(row, classes, r, canonical);
    SumIgnoresOrder(r, row);
  }

  // ----- acceptance -----

  /** A row the tolerances let through: entries and sum within `atol` of the simplex. */
  predicate Plausible(row: seq<real>, atol: real) {
    (forall j :: 0 <= j < |row| ==> -atol <= row[j] <= 1.0 + atol) && Abs(Sum(row) - 1.0) <= atol
  }

  lemma {:induction false} MaxErrorBounds(rows: seq<seq<real>>, bound: real)
    ensures MaxError(rows) <= bound <==> (rows == [] ==> 0.0 <= bound) && forall i :: 0 <= i < |rows| ==> Abs(Sum(rows[i]) - 1.0) <= bound
  {
    hide Sum;
    if rows != [] {
      MaxErrorBounds(rows[1..], bound);
      assert forall i :: 0 <= i < |rows[1..]| ==> rows[1..][i] == rows[i + 1];
      if forall i :: 0 <= i < |rows| ==> Abs(Sum(rows[i]) - 1.0) <= bound {
        assert Abs(Sum(rows[0]) - 1.0) <= bound;
      }
    }
  }

  lemma {:induction false} MaxErrorIsNotNegative(rows: seq<seq<real>>)
    ensures MaxError(rows) >= 0.0
  {
    if rows != [] {
      MaxErrorIsNotNegative(rows[1..]);
    }
  }

  /** The shape, the labels and the number of rows are right. */
  predicate WellLabelled(output: Output, classes: seq<string>, canonical: seq<string>, rowCount: Option<nat>) {
    && output.Matrix? && |classes| == output.columns && Distinct(classes) && Distinct(canonical) && SameLabels(classes, canonical)
    && (rowCount.Some? ==> |output.rows| == rowCount.value)
  }

  lemma FinishedIff(rows: seq<seq<real>>, classes: seq<string>, canonical: seq<string>, atol: real)
    requires (forall i :: 0 <= i < |rows| ==> |rows[i]| == |classes|) && forall l :: l in canonical ==> l in classes
    requires Distinct(classes) && Distinct(canonical) && SameLabels(classes, canonical)
    ensures Finish(rows, classes, canonical, atol).Ok? <==> atol >= 0.0 && forall i :: 0 <= i < |rows| ==> Plausible(rows[i], atol)
  {
    hide Distinct, SameLabels, Sum, MaxError, Abs;
    var normalized := ReorderedRows(rows, classes, canonical);
    MaxErrorBounds(normalized, atol);
    MaxErrorIsNotNegative(normalized);
    forall i | 0 <= i < |rows|
      ensures Sum(normalized[i]) == Sum(rows[i])
    {
      ReorderedIsAPermutation(rows[i], classes, canonical);
    }
    hide ReorderedRows, Reordered, ClipRows;
  }

  /** An output is accepted exactly when it is well labelled and every row, in the order the
      model gave it, is finite and plausible. */
  lemma AcceptedIff(output: Output, classes: seq<string>, canonical: seq<string>, rowCount: Option<nat>, atol: real)
    requires Rectangular(output)
    ensures Normalize(output, classes, canonical, rowCount, atol).Ok? <==>
            (&& atol >= 0.0 && WellLabelled(output, classes, canonical, rowCount) && AllFinite(output.rows)
             && forall i :: 0 <= i < |output.rows| ==> Plausible(RealRow(output.rows[i]), atol))
  {
    hide Distinct, SameLabels, Plausible, Finish;
    if WellLabelled(output, classes, canonical, rowCount) && AllFinite(output.rows) {
      LabelsKnown(classes, canonical);
      FinishedIff(RealRows(output.rows), classes, canonical, atol);
    }
  }

  /** A rejection says what is wrong: of the values, a finite one outside the tolerated interval, or
      a row of tolerated values whose sum is off. */
  lemma RejectionMeans(output: Output, classes: seq<string>, canonical: seq<string>, rowCount: Option<nat>, atol: real, e: ProbabilityError)
    requires Rectangular(output) && Normalize(output, classes, canonical, rowCount, atol) == Err(e)
    ensures e.NotAMatrix? <==> output.OtherShape?
    ensures output.Matrix? ==>
            match e
            case ColumnCountDiffers => |classes| != output.columns
            case DuplicateLabels => !Distinct(classes)
            case LabelsDiffer => !Distinct(canonical) || !SameLabels(classes, canonical)
            case RowCountDiffers => rowCount.Some? && |output.rows| != rowCount.value
            case NotFinite => exists i, j :: 0 <= i < |output.rows| && 0 <= j < |output.rows[i]| && !output.rows[i][j].Finite?
            case OutsideUnit => AllFinite(output.rows) && !AllWithin(RealRows(output.rows), -atol, 1.0 + atol)
            case RowsDoNotSumToOne =>
              && AllFinite(output.rows) && AllWithin(RealRows(output.rows), -atol, 1.0 + atol)
              && (atol >= 0.0 ==> exists i :: 0 <= i < |output.rows| && Abs(Sum(RealRows(output.rows)[i]) - 1.0) > atol)
            case _ => false
  {
    hide Distinct, SameLabels, Sum, Abs;
    AcceptedIff(output, classes, canonical, rowCount, atol);
  }

  lemma LabelsKnown(classes: seq<string>, canonical: seq<string>)
    requires SameLabels(classes, canonical)
    ensures forall l :: l in canonical ==> l in classes
  {
  }

  // ----- the result -----

  lemma ClipKeepsUnit(row: seq<real>)
    requires forall j :: 0 <= j < |row| ==> 0.0 <= row[j] <= 1.0
    ensures ClipRow(row) == row
  {
  }

  /** `k` columns' worth of tolerance. */
  function Allowance(k: nat, atol: real): real {
    k as real * atol
  }

  lemma AllowanceStep(k: nat, atol: real)
    ensures Allowance(k + 1, atol) == Allowance(k, atol) + atol && Allowance(0, atol) == 0.0
  {
  }

  lemma ClipRowStep(row: seq<real>, x: real)
    ensures ClipRow(row + [x]) == ClipRow(row) + [Clip(x)]
    ensures Sum(ClipRow(row + [x])) == Sum(ClipRow(row)) + Clip(x)
  {
    hide Clip;
    assert ClipRow(row + [x]) == ClipRow(row) + [Clip(x)];
    SumStep(ClipRow(row), Clip(x));
  }

  ghost predicate WithinTolerance(row: seq<real>, atol: real) {
    forall j :: 0 <= j < |row| ==> -atol <= row[j] <= 1.0 + atol
  }

  /** The tolerance moves a clipped row up by at most `atol` a column, and never below one. */
  lemma {:induction false} ClippedSumBounds(row: seq<real>, atol: real)
    requires atol >= 0.0 && WithinTolerance(row, atol)
    ensures Sum(ClipRow(row)) <= Sum(row) + Allowance(|row|, atol)
    ensures Sum(ClipRow(row)) >= 0.0
    ensures Sum(ClipRow(row)) >= 1.0 || Sum(ClipRow(row)) >= Sum(row)
  {
    if row == [] {
      assert ClipRow(row) == [];
      AllowanceStep(0, atol);
    } else {
      var n := |row| - 1;
      var init, x := row[..n], row[n];
      assert row == init + [x] && -atol <= x <= 1.0 + atol;
      assert WithinTolerance(init, atol);
      hide Sum, ClipRow, WithinTolerance, Allowance;
      ClippedSumBounds(init, atol);
      ClipRowStep(init, x);
      SumStep(init, x);
      AllowanceStep(n, atol);
    }
  }

  lemma ClippedPlausibleSum(row: seq<real>, atol: real)
    requires atol >= 0.0 && Plausible(row, atol)
    ensures 1.0 - atol <= Sum(ClipRow(row)) <= 1.0 + Allowance(|row| + 1, atol)
  {
    hide Sum, ClipRow, Allowance;
    ClippedSumBounds(row, atol);
    AllowanceStep(|row|, atol);
  }

  lemma ReorderedStaysPlausible(row: seq<real>, classes: seq<string>, canonical: seq<string>, atol: real)
    requires |row| == |classes| && Distinct(classes) && Distinct(canonical) && SameLabels(classes, canonical) && Plausible(row, atol)
    ensures Plausible(Reordered(row, classes, canonical), atol) && |canonical| == |classes|
  {
    hide Sum, Distinct;
    ReorderedIsAPermutation(row, classes, canonical);
    var r := Reordered(row, classes, canonical);
    assert |multiset(r)| == |r| && |multiset(row)| == |row|;
  }

  /** Entry by entry, label by label. */
  ghost predicate IsClippedRelabelling(row: seq<Cell>, classes: seq<string>, r: seq<real>, canonical: seq<string>) {
    && |row| == |classes| && |r| == |canonical|
    && (forall j, p :: 0 <= j < |r| && 0 <= p < |row| && classes[p] == canonical[j] ==> row[p].Finite? && r[j] == Clip(row[p].x))
  }

  lemma RowMeans(row: seq<Cell>, classes: seq<string>, canonical: seq<string>)
    requires (forall j :: 0 <= j < |row| ==> row[j].Finite?) && |row| == |classes|
    requires Distinct(classes) && SameLabels(classes, canonical)
    ensures IsClippedRelabelling(row, classes, ClipRow(Reordered(RealRow(row), classes, canonical)), canonical)
  {
    forall j, p | 0 <= j < |canonical| && 0 <= p < |classes| && classes[p] == canonical[j]
      ensures IndexOf(classes, canonical[j]) == p
    {
      IndexIsUnique(classes, p);
    }
  }

  lemma {:induction false} MaxErrorIsSums(s: seq<seq<real>>, t: seq<seq<real>>)
    requires |s| == |t| && forall i :: 0 <= i < |s| ==> Sum(s[i]) == Sum(t[i])
    ensures MaxError(s) == MaxError(t)
  {
    hide Sum;
    if s != [] {
      MaxErrorIsSums(s[1..], t[1..]);
    }
  }

  lemma ClippingOrNot(rows: seq<seq<real>>)
    ensures ClipRows(rows) == if AllWithin(rows, 0.0, 1.0) then rows else ClipRows(rows)
  {
    if AllWithin(rows, 0.0, 1.0) {
      forall i | 0 <= i < |rows|
        ensures ClipRow(rows[i]) == rows[i]
      {
        ClipKeepsUnit(rows[i]);
      }
    }
  }

  /** What comes out of an accepted output: for every canonical label the clipped column of
      that label; entries in [0, 1]; rows that sum to at least `1 - atol` and at most
      `1 + (k + 1) * atol`; and the error the rows had as they came in. */
  lemma NormalizedMeans(output: Output, classes: seq<string>, canonical: seq<string>, rowCount: Option<nat>, atol: real)
    requires Rectangular(output) && Normalize(output, classes, canonical, rowCount, atol).Ok?
    ensures AllFinite(output.rows)
    ensures var n := Normalize(output, classes, canonical, rowCount, atol).value;
            && n.classes == canonical && |n.rows| == |output.rows| && AllWithin(n.rows, 0.0, 1.0)
            && (forall i :: 0 <= i < |n.rows| ==> IsClippedRelabelling(output.rows[i], classes, n.rows[i], canonical))
            && (forall i :: 0 <= i < |n.rows| ==> 1.0 - atol <= Sum(n.rows[i]) <= 1.0 + Allowance(|classes| + 1, atol))
            && n.maxError == MaxError(RealRows(output.rows))
  {
    hide Sum, MaxError, SameLabels, Distinct, Plausible, IsClippedRelabelling;
    AcceptedIff(output, classes, canonical, rowCount, atol);
    LabelsKnown(classes, canonical);
    var n := Normalize(output, classes, canonical, rowCount, atol).value;
    var rows := RealRows(output.rows);
    var normalized := ReorderedRows(rows, classes, canonical);
    ClippingOrNot(normalized);
    assert n.rows == ClipRows(normalized);
    hide Normalize, Finish;
    forall i | 0 <= i < |n.rows|
      ensures 1.0 - atol <= Sum(n.rows[i]) <= 1.0 + Allowance(|classes| + 1, atol)
      ensures Sum(normalized[i]) == Sum(rows[i])
      ensures IsClippedRelabelling(output.rows[i], classes, n.rows[i], canonical)
    {
      ReorderedIsAPermutation(rows[i], classes, canonical);
      ReorderedStaysPlausible(rows[i], classes, canonical, atol);
      ClippedPlausibleSum(normalized[i], atol);
      RowMeans(output.rows[i], classes, canonical);
    }
    MaxErrorIsSums(normalized, rows);
  }

  // ----- the order of the columns -----

  /** The same cells under the same labels, in another order of the columns. */
  ghost predicate SameTable(rows: seq<seq<Cell>>, classes: seq<string>, rows': seq<seq<Cell>>, classes': seq<string>) {
    && |rows| == |rows'|
    && (forall i :: 0 <= i < |rows| ==> |rows[i]| == |classes| && |rows'[i]| == |classes'|)
    && (forall i, p, q :: 0 <= i < |rows| && 0 <= p < |classes| && 0 <= q < |classes'| && classes[p] == classes'[q] ==>
          rows[i][p] == rows'[i][q])
  }

  lemma SameTableSymmetric(rows: seq<seq<Cell>>, classes: seq<string>, rows': seq<seq<Cell>>, classes': seq<string>)
    requires SameTable(rows, classes, rows', classes')
    ensures SameTable(rows', classes', rows, classes)
  {
  }

  lemma FiniteInAnyOrder(rows: seq<seq<Cell>>, classes: seq<string>, rows': seq<seq<Cell>>, classes': seq<string>)
    requires SameTable(rows, classes, rows', classes') && Within(classes', classes) && AllFinite(rows)
    ensures AllFinite(rows')
    ensures forall low: real, high: real :: AllWithin(RealRows(rows), low, high) ==> AllWithin(RealRows(rows'), low, high)
  {
    forall i, q | 0 <= i < |rows'| && 0 <= q < |rows'[i]|
      ensures exists p :: 0 <= p < |rows[i]| && rows[i][p] == rows'[i][q]
    {
      assert classes'[q] in classes;
      var p :| 0 <= p < |classes| && classes[p] == classes'[q];
      assert rows[i][p] == rows'[i][q];
    }
  }

  lemma ReorderedInAnyOrder(rows: seq<seq<Cell>>, classes: seq<string>, rows': seq<seq<Cell>>, classes': seq<string>, canonical: seq<string>)
    requires SameTable(rows, classes, rows', classes') && AllFinite(rows) && AllFinite(rows')
    requires (forall l :: l in canonical ==> l in classes) && (forall l :: l in canonical ==> l in classes')
    ensures ReorderedRows(RealRows(rows), classes, canonical) == ReorderedRows(RealRows(rows'), classes', canonical)
  {
    forall i | 0 <= i < |rows|
      ensures Reordered(RealRow(rows[i]), classes, canonical) == Reordered(RealRow(rows'[i]), classes', canonical)
    {
      forall j | 0 <= j < |canonical|
        ensures rows[i][IndexOf(classes, canonical[j])] == rows'[i][IndexOf(classes', canonical[j])]
      {
      }
    }
  }

  /** The order in which a model lists its classes has no influence, neither on the result nor
      on the error. */
  lemma ColumnOrderIsIrrelevant(output: Output, classes: seq<string>, output': Output, classes': seq<string>,
                                canonical: seq<string>, rowCount: Option<nat>, atol: real)
    requires output.Matrix? && output'.Matrix? && Rectangular(output) && Rectangular(output')
    requires |classes| == output.columns && |classes'| == output'.columns
    requires Distinct(classes) && Distinct(classes') && SameLabels(classes, classes')
    requires SameTable(output.rows, classes, output'.rows, classes')
    ensures Normalize(output', classes', canonical, rowCount, atol) == Normalize(output, classes, canonical, rowCount, atol)
  {
    hide Distinct, MaxError, AllWithin, AllFinite, SameTable;
    SameTableSymmetric(output.rows, classes, output'.rows, classes');
    assert SameLabels(classes, canonical) <==> SameLabels(classes', canonical);
    if AllFinite(output.rows) {
      FiniteInAnyOrder(output.rows, classes, output'.rows, classes');
    }
    if AllFinite(output'.rows) {
      FiniteInAnyOrder(output'.rows, classes', output.rows, classes);
      if SameLabels(classes, canonical) {
        ReorderedInAnyOrder(output.rows, classes, output'.rows, classes', canonical);
      }
    }
    SameRowCounts(output.rows, classes, output'.rows, classes');
    hide SameLabels;
  }

  lemma SameRowCounts(rows: seq<seq<Cell>>, classes: seq<string>, rows': seq<seq<Cell>>, classes': seq<string>)
    requires SameTable(rows, classes, rows', classes')
    ensures |rows| == |rows'|
  {
  }

  // ----- the predicted class -----

  lemma {:induction false} SumFromBelow(row: seq<real>, atol: real)
    requires forall j :: 0 <= j < |row| ==> -atol <= row[j]
    ensures Sum(row) >= -Allowance(|row|, atol)
  {
    if row != [] {
      SumFromBelow(row[..|row| - 1], atol);
      AllowanceStep(|row| - 1, atol);
      hide Allowance;
    } else {
      AllowanceStep(0, atol);
    }
  }

  lemma {:induction false} SumFromAbove(row: seq<real>, q: nat)
    requires q < |row| && forall j :: 0 <= j < |row| ==> row[j] <= 0.0
    ensures Sum(row) <= row[q]
  {
    if q == |row| - 1 {
      SumNotPositive(row[..|row| - 1]);
    } else {
      SumFromAbove(row[..|row| - 1], q);
    }
  }

  lemma {:induction false} SumNotPositive(row: seq<real>)
    requires forall j :: 0 <= j < |row| ==> row[j] <= 0.0
    ensures Sum(row) <= 0.0
  {
    if row != [] {
      SumNotPositive(row[..|row| - 1]);
    }
  }

  /** Two entries and the tolerance bound a row's sum from below. */
  lemma TwoEntriesFromBelow(row: seq<real>, q: nat, p: nat, atol: real)
    requires q < p < |row| && forall j :: 0 <= j < |row| ==> -atol <= row[j]
    ensures Sum(row) >= row[p] + row[q] - Allowance(|row| - 2, atol)
  {
    SumWithout(row, p);
    var rest := Without(row, p);
    SumWithout(rest, q);
    SumFromBelow(Without(rest, q), atol);
    assert rest[q] == row[q];
  }

  /** Where clipping moves the argmax, the tolerance is large for the number of columns. */
  lemma MovedArgMax(row: seq<real>, atol: real)
    requires row != [] && atol >= 0.0 && Plausible(row, atol) && ArgMax(ClipRow(row)) != ArgMax(row)
    ensures Allowance(|row| - 1, atol) > 1.0
  {
    hide Sum;
    var p, q := ArgMax(row), ArgMax(ClipRow(row));
    assert q < p && row[q] < row[p] && Clip(row[q]) == Clip(row[p]);
    AllowanceStep(|row| - 2, atol);
    hide ArgMax, ClipRow, Allowance;
    if row[q] >= 1.0 {
      TwoEntriesFromBelow(row, q, p, atol);
    } else {
      assert row[p] <= 0.0;
      SumFromAbove(row, q);
      AllowanceGrows(|row| - 1, atol);
    }
  }

  lemma AllowanceGrows(k: nat, atol: real)
    requires k >= 1 && atol >= 0.0
    ensures Allowance(k, atol) >= atol
  {
    if k > 1 {
      AllowanceGrows(k - 1, atol);
      AllowanceStep(k - 1, atol);
      hide Allowance;
    }
  }

  lemma {:induction false} SumOfConstant(m: nat, y: real) returns (row: seq<real>)
    ensures |row| == m && (forall j :: 0 <= j < m ==> row[j] == -y) && Sum(row) == -Allowance(m, y)
  {
    if m == 0 {
      row := [];
      AllowanceStep(0, y);
    } else {
      var init := SumOfConstant(m - 1, y);
      row := init + [-y];
      SumStep(init, -y);
      AllowanceStep(m - 1, y);
      hide Allowance;
    }
  }

  /** How far above one, and how far below zero, the entries of the counterexample lie. */
  lemma CounterexampleEntries(k: nat, atol: real) returns (d: real, y: real)
    requires k >= 2 && atol >= 0.0 && Allowance(k - 1, atol) > 1.0
    ensures 0.0 < d <= atol && 0.0 <= y <= atol
    ensures Abs(2.0 + d - Allowance(k - 2, y) - 1.0) <= atol
  {
    AllowanceStep(k - 2, atol);
    var m := (k - 2) as real;
    assert Allowance(k - 2, atol) == m * atol;
    d := if atol <= Allowance(k - 1, atol) - 1.0 then atol else Allowance(k - 1, atol) - 1.0;
    if 1.0 + d - atol <= 0.0 || k == 2 {
      y := 0.0;
      assert Allowance(k - 2, y) == 0.0;
    } else {
      y := (1.0 + d - atol) / m;
      QuotientWithin(m, 1.0 + d - atol, atol);
    }
  }

  lemma QuotientWithin(m: real, x: real, bound: real)
    requires m > 0.0 && 0.0 <= x <= m * bound
    ensures 0.0 <= x / m <= bound && m * (x / m) == x
  {
    var y := x / m;
    assert m * y == x;
    BelowByScale(m, y, bound);
    BelowByScale(m, 0.0, y);
  }

  /** An accepted row whose argmax moves: the second entry just beats a first entry of one. */
  lemma ArgMaxCanMove(k: nat, atol: real) returns (row: seq<real>)
    requires k >= 2 && atol >= 0.0 && Allowance(k - 1, atol) > 1.0
    ensures |row| == k && Plausible(row, atol) && ArgMax(ClipRow(row)) != ArgMax(row)
  {
    hide Sum, Allowance;
    var d, y := CounterexampleEntries(k, atol);
    var tail := SumOfConstant(k - 2, y);
    row := [1.0, 1.0 + d] + tail;
    SumAppend([1.0, 1.0 + d], tail);
    SumOfTwo(1.0, 1.0 + d);
    assert ClipRow(row)[0] == 1.0 && ClipRow(row)[1] == 1.0;
    assert row[0] < row[1];
  }

  lemma SumOfTwo(x: real, y: real)
    ensures Sum([x, y]) == x + y
  {
    SumStep([], x);
    SumStep([x], y);
    assert [] + [x] == [x] && [x] + [y] == [x, y];
  }

  /** Clipping keeps the first argmax of every accepted row of `k` columns exactly when
      `(k - 1) * atol` is at most one. */
  lemma ArgMaxSurvivesIff(k: nat, atol: real)
    requires k >= 1 && atol >= 0.0
    ensures (forall row: seq<real> :: |row| == k && Plausible(row, atol) ==> ArgMax(ClipRow(row)) == ArgMax(row)) <==>
            (k - 1) as real * atol <= 1.0
  {
    hide Plausible, ClipRow;
    assert Allowance(k - 1, atol) == (k - 1) as real * atol;
    if Allowance(k - 1, atol) <= 1.0 {
      forall row: seq<real> | |row| == k && Plausible(row, atol)
        ensures ArgMax(ClipRow(row)) == ArgMax(row)
      {
        if ArgMax(ClipRow(row)) != ArgMax(row) {
          MovedArgMax(row, atol);
        }
      }
    } else {
      if k == 1 {
        AllowanceStep(0, atol);
      } else {
        var row := ArgMaxCanMove(k, atol);
      }
    }
  }
}
