/** `_ece` (`experiments/evaluation.py`): the expected calibration error over equal-width
    bins of the largest probability, the last bin closed. */
module Calibration {
  import opened Reals
  import opened Sequences

  /** One row: its largest probability, and whether the class that has it is the true one. */
  datatype Sample = Sample(confidence: real, correct: bool)

  /** The checks `_metrics_for` has made before: rows and labels match, entries are in [0, 1]. */
  predicate ValidRows(labels: seq<int>, probabilities: seq<seq<real>>) {
    && |labels| == |probabilities|
    && (forall i :: 0 <= i < |probabilities| ==> probabilities[i] != [])
    && (forall i, j :: 0 <= i < |probabilities| && 0 <= j < |probabilities[i]| ==> 0.0 <= probabilities[i][j] <= 1.0)
  }

  function SampleOf(truth: int, row: seq<real>): Sample
    requires row != []
  {
    Sample(row[ArgMax(row)], ArgMax(row) == truth)
  }

  function Samples(labels: seq<int>, probabilities: seq<seq<real>>): (r: seq<Sample>)
    requires ValidRows(labels, probabilities)
    ensures |r| == |labels| && InUnit(r)
    ensures forall i :: 0 <= i < |r| ==> r[i] == SampleOf(labels[i], probabilities[i])
  {
    seq(|labels|, i requires 0 <= i < |labels| => SampleOf(labels[i], probabilities[i]))
  }

  predicate InUnit(samples: seq<Sample>) {
    forall i :: 0 <= i < |samples| ==> 0.0 <= samples[i].confidence <= 1.0
  }

  // ----- bins -----

  /** `np.linspace(0.0, 1.0, bins + 1)[i]`. */
  function Edge(bins: nat, i: nat): real
    requires bins > 0
  {
    i as real / bins as real
  }

  /** The mask of a bin: half open, but for the last. */
  predicate InBin(bins: nat, b: nat, confidence: real)
    requires bins > 0
  {
    Edge(bins, b) <= confidence && (if b == bins - 1 then confidence <= Edge(bins, b + 1) else confidence < Edge(bins, b + 1))
  }

  /** The only bin a confidence can be in. */
  function BinOf(bins: nat, confidence: real): (b: nat)
    requires bins > 0 && 0.0 <= confidence <= 1.0
  {
    var f := (confidence * bins as real).Floor;
    if f >= bins then bins - 1 else if f < 0 then 0 else f
  }

  lemma EdgeAt(bins: nat, i: nat, confidence: real)
    requires bins > 0
    ensures Edge(bins, i) <= confidence <==> i as real <= confidence * bins as real
    ensures confidence < Edge(bins, i) <==> confidence * bins as real < i as real
    ensures confidence <= Edge(bins, i) <==> confidence * bins as real <= i as real
  {
    var n := bins as real;
    var e := Edge(bins, i);
    assert e * n == i as real;
    if e <= confidence {
      assert e * n <= confidence * n;
    }
    if confidence <= e {
      assert confidence * n <= e * n;
    }
    if confidence < e {
      assert confidence * n < e * n;
    }
    if e < confidence {
      assert e * n < confidence * n;
    }
  }

  /** Every confidence falls in exactly one bin. */
  lemma ExactlyOneBin(bins: nat, b: nat, confidence: real)
    requires b < bins && 0.0 <= confidence <= 1.0
    ensures BinOf(bins, confidence) < bins
    ensures InBin(bins, b, confidence) <==> b == BinOf(bins, confidence)
  {
    var x := confidence * bins as real;
    assert 0.0 <= x <= bins as real;
    EdgeAt(bins, b, confidence);
    EdgeAt(bins, b + 1, confidence);
    hide Edge;
  }

  // ----- sums over a bin -----

  const one: Sample -> real := (s: Sample) => 1.0
  const hit: Sample -> real := (s: Sample) => if s.correct then 1.0 else 0.0
  const confidenceOf: Sample -> real := (s: Sample) => s.confidence

  /** The sum of a quantity over the rows of a bin. */
  function BinSum(samples: seq<Sample>, bins: nat, b: nat, value: Sample -> real): real
    requires bins > 0
  {
    if samples == [] then 0.0
    else (if InBin(bins, b, samples[0].confidence) then value(samples[0]) else 0.0) + BinSum(samples[1..], bins, b, value)
  }

  function Total(samples: seq<Sample>, value: Sample -> real): real {
    if samples == [] then 0.0 else value(samples[0]) + Total(samples[1..], value)
  }

  function SumOfBins(samples: seq<Sample>, bins: nat, k: nat, value: Sample -> real): real
    requires bins > 0
  {
    if k == 0 then 0.0 else SumOfBins(samples, bins, k - 1, value) + BinSum(samples, bins, k - 1, value)
  }

  lemma {:induction false} SumOfBinsStep(samples: seq<Sample>, bins: nat, k: nat, value: Sample -> real)
    requires bins > 0 && k <= bins && samples != [] && 0.0 <= samples[0].confidence <= 1.0
    ensures SumOfBins(samples, bins, k, value)
         == SumOfBins(samples[1..], bins, k, value) + (if BinOf(bins, samples[0].confidence) < k then value(samples[0]) else 0.0)
  {
    if k > 0 {
      SumOfBinsStep(samples, bins, k - 1, value);
      ExactlyOneBin(bins, k - 1, samples[0].confidence);
      hide InBin, BinOf;
    }
  }

  /** Nothing is counted twice and nothing is lost: with `one`, bin counts add up to the rows. */
  lemma {:induction false} BinsPartitionTheRows(samples: seq<Sample>, bins: nat, value: Sample -> real)
    requires bins > 0 && InUnit(samples)
    ensures SumOfBins(samples, bins, bins, value) == Total(samples, value)
  {
    if samples == [] {
      EmptyBins(bins, bins, value);
    } else {
      BinsPartitionTheRows(samples[1..], bins, value);
      SumOfBinsStep(samples, bins, bins, value);
      ExactlyOneBin(bins, 0, samples[0].confidence);
    }
  }

  lemma {:induction false} EmptyBins(bins: nat, k: nat, value: Sample -> real)
    requires bins > 0
    ensures SumOfBins([], bins, k, value) == 0.0
  {
    if k > 0 {
      EmptyBins(bins, k - 1, value);
    }
  }

  lemma {:induction false} TotalOfOnes(samples: seq<Sample>)
    ensures Total(samples, one) == |samples| as real
  {
    if samples != [] {
      TotalOfOnes(samples[1..]);
    }
  }

  /** In every bin, hits and summed confidence lie between nothing and the count. */
  lemma {:induction false} BinBounds(samples: seq<Sample>, bins: nat, b: nat)
    requires bins > 0 && InUnit(samples)
    ensures 0.0 <= BinSum(samples, bins, b, hit) <= BinSum(samples, bins, b, one)
    ensures 0.0 <= BinSum(samples, bins, b, confidenceOf) <= BinSum(samples, bins, b, one)
  {
    if samples != [] {
      BinBounds(samples[1..], bins, b);
    }
  }

  // ----- the error -----

  /** `mask.sum() / total * abs(correct[mask].mean() - confidence[mask].mean())`. */
  function WeightedGap(count: real, total: real, hits: real, confidence: real): real
    requires total > 0.0
  {
    if count == 0.0 then 0.0 else count / total * Abs(hits / count - confidence / count)
  }

  /** What a bin adds to the error. */
  function BinTerm(samples: seq<Sample>, bins: nat, b: nat): real
    requires bins > 0 && samples != []
  {
    WeightedGap(BinSum(samples, bins, b, one), |samples| as real, BinSum(samples, bins, b, hit), BinSum(samples, bins, b, confidenceOf))
  }

  function ErrorOfBins(samples: seq<Sample>, bins: nat, k: nat): real
    requires bins > 0 && samples != []
  {
    if k == 0 then 0.0 else ErrorOfBins(samples, bins, k - 1) + BinTerm(samples, bins, k - 1)
  }

  /** No bins, or no rows, no error. */
  function Error(samples: seq<Sample>, bins: nat): real {
    if bins == 0 || samples == [] then 0.0 else ErrorOfBins(samples, bins, bins)
  }

  method Ece(labels: seq<int>, probabilities: seq<seq<real>>, bins: nat) returns (error: real)
    requires ValidRows(labels, probabilities)
    ensures error == Error(Samples(labels, probabilities), bins)
    ensures bins > 0 && labels != [] ==> ErrorSays(labels, probabilities, error)
  {
    hide ErrorSays, ArgMax;
    if bins > 0 && labels != [] {
      ErrorSaysSo(labels, probabilities, bins);
    }
    var samples := Samples(labels, probabilities);
    var total := |labels|;
    error := 0.0;
    for index := 0 to bins
      invariant error == if samples == [] || bins == 0 then 0.0 else ErrorOfBins(samples, bins, index)
    {
      var count := BinSum(samples, bins, index, one);
      if count != 0.0 {
        var accuracy := BinSum(samples, bins, index, hit) / count;
        var confidence := BinSum(samples, bins, index, confidenceOf) / count;
        error := error + count / total as real * Abs(accuracy - confidence);
      }
    }
  }

  // ----- what the error is -----

  /** How far the hits of a bin are from what its confidences add up to. */
  function Gap(samples: seq<Sample>, bins: nat, b: nat): real
    requires bins > 0
  {
    Abs(BinSum(samples, bins, b, hit) - BinSum(samples, bins, b, confidenceOf))
  }

  function GapsOfBins(samples: seq<Sample>, bins: nat, k: nat): real
    requires bins > 0
  {
    if k == 0 then 0.0 else GapsOfBins(samples, bins, k - 1) + Gap(samples, bins, k - 1)
  }

  lemma MeanGap(count: real, h: real, c: real)
    requires count > 0.0
    ensures count * Abs(h / count - c / count) == Abs(h - c)
  {
    var d := h / count - c / count;
    assert count * d == h - c;
    if d < 0.0 {
      MulStrict(count, d, 0.0);
    } else if d > 0.0 {
      MulStrict(count, 0.0, d);
    }
  }

  lemma ScaledGap(count: real, total: real, h: real, c: real)
    requires count >= 0.0 && total > 0.0 && (count == 0.0 ==> h == c)
    ensures total * WeightedGap(count, total, h, c) == Abs(h - c)
  {
    if count > 0.0 {
      MeanGap(count, h, c);
      var g := Abs(h / count - c / count);
      assert total * (count / total * g) == total * (count / total) * g;
      assert total * (count / total) == count;
    }
  }

  lemma TermIsGap(samples: seq<Sample>, bins: nat, b: nat)
    requires bins > 0 && samples != [] && InUnit(samples)
    ensures |samples| as real * BinTerm(samples, bins, b) == Gap(samples, bins, b)
  {
    BinBounds(samples, bins, b);
    hide BinSum, WeightedGap;
    ScaledGap(BinSum(samples, bins, b, one), |samples| as real, BinSum(samples, bins, b, hit), BinSum(samples, bins, b, confidenceOf));
  }

  /** Scaled by the rows, the error is the sum of the gaps. */
  lemma {:induction false} ErrorIsGaps(samples: seq<Sample>, bins: nat, k: nat)
    requires bins > 0 && samples != [] && InUnit(samples)
    ensures |samples| as real * ErrorOfBins(samples, bins, k) == GapsOfBins(samples, bins, k)
  {
    hide BinTerm, Gap, InUnit;
    if k > 0 {
      ErrorIsGaps(samples, bins, k - 1);
      TermIsGap(samples, bins, k - 1);
      Distribute(|samples| as real, ErrorOfBins(samples, bins, k - 1), BinTerm(samples, bins, k - 1));
    }
  }

  lemma {:induction false} GapsBetween(samples: seq<Sample>, bins: nat, k: nat)
    requires bins > 0 && InUnit(samples)
    ensures Abs(SumOfBins(samples, bins, k, hit) - SumOfBins(samples, bins, k, confidenceOf)) <= GapsOfBins(samples, bins, k)
    ensures 0.0 <= GapsOfBins(samples, bins, k) <= SumOfBins(samples, bins, k, one)
  {
    if k > 0 {
      GapsBetween(samples, bins, k - 1);
      BinBounds(samples, bins, k - 1);
    }
  }

  lemma ErrorTimesRows(samples: seq<Sample>, bins: nat)
    requires bins > 0 && samples != [] && InUnit(samples)
    ensures var n := |samples| as real;
            Abs(Total(samples, hit) - Total(samples, confidenceOf)) <= n * Error(samples, bins) <= n
  {
    hide ErrorOfBins, GapsOfBins, SumOfBins, Total, Abs, InUnit, BinSum;
    ErrorIsGaps(samples, bins, bins);
    GapsBetween(samples, bins, bins);
    BinsPartitionTheRows(samples, bins, hit);
    BinsPartitionTheRows(samples, bins, confidenceOf);
    BinsPartitionTheRows(samples, bins, one);
    TotalOfOnes(samples);
  }

  /** The error never falls below the gap between accuracy and mean confidence, and never
      exceeds one, as the metric record demands. */
  lemma ErrorBounds(samples: seq<Sample>, bins: nat)
    requires bins > 0 && samples != [] && InUnit(samples)
    ensures var n := |samples| as real;
            Abs(Total(samples, hit) / n - Total(samples, confidenceOf) / n) <= Error(samples, bins) <= 1.0
  {
    hide Total, Error, InUnit;
    var n := |samples| as real;
    var h, c := Total(samples, hit), Total(samples, confidenceOf);
    ErrorTimesRows(samples, bins);
    MeanGap(n, h, c);
    BelowByScale(n, Abs(h / n - c / n), Error(samples, bins));
    BelowByScale(n, Error(samples, bins), 1.0);
  }

  // ----- order, refinement -----

  lemma {:induction false} BinSumAppend(s: seq<Sample>, t: seq<Sample>, bins: nat, b: nat, value: Sample -> real)
    requires bins > 0
    ensures BinSum(s + t, bins, b, value) == BinSum(s, bins, b, value) + BinSum(t, bins, b, value)
  {
    if s == [] {
      assert s + t == t;
    } else {
      assert (s + t)[1..] == s[1..] + t;
      BinSumAppend(s[1..], t, bins, b, value);
    }
  }

  lemma BinSumWithOneMore(s: seq<Sample>, x: Sample, t: seq<Sample>, bins: nat, b: nat, value: Sample -> real)
    requires bins > 0
    ensures BinSum(s + [x] + t, bins, b, value) == BinSum(s + t, bins, b, value) + BinSum([x], bins, b, value)
  {
    BinSumAppend(s + [x], t, bins, b, value);
    BinSumAppend(s, [x], bins, b, value);
    BinSumAppend(s, t, bins, b, value);
  }

  lemma {:induction false} BinSumIgnoresOrder(s: seq<Sample>, t: seq<Sample>, bins: nat, b: nat, value: Sample -> real)
    requires bins > 0 && multiset(s) == multiset(t)
    ensures BinSum(s, bins, b, value) == BinSum(t, bins, b, value)
  {
    assert |multiset(s)| == |s| && |multiset(t)| == |t|;
    if s == [] {
      assert t == [];
    } else {
      hide BinSum;
      assert s[0] in multiset(t);
      var j :| 0 <= j < |t| && t[j] == s[0];
      TakeOut(s, 0);
      TakeOut(t, j);
      BinSumIgnoresOrder(s[..0] + s[1..], t[..j] + t[j + 1..], bins, b, value);
      BinSumWithOneMore(s[..0], s[0], s[1..], bins, b, value);
      BinSumWithOneMore(t[..j], s[0], t[j + 1..], bins, b, value);
    }
  }

  lemma {:induction false} ErrorOfBinsIgnoresOrder(s: seq<Sample>, t: seq<Sample>, bins: nat, k: nat)
    requires bins > 0 && s != [] && t != [] && multiset(s) == multiset(t)
    ensures ErrorOfBins(s, bins, k) == ErrorOfBins(t, bins, k)
  {
    assert |multiset(s)| == |s| && |multiset(t)| == |t|;
    if k > 0 {
      ErrorOfBinsIgnoresOrder(s, t, bins, k - 1);
      BinSumIgnoresOrder(s, t, bins, k - 1, one);
      BinSumIgnoresOrder(s, t, bins, k - 1, hit);
      BinSumIgnoresOrder(s, t, bins, k - 1, confidenceOf);
    }
  }

  /** The order of the rows does not matter. */
  lemma ErrorIgnoresOrder(s: seq<Sample>, t: seq<Sample>, bins: nat)
    requires multiset(s) == multiset(t)
    ensures Error(s, bins) == Error(t, bins)
  {
    assert |multiset(s)| == |s| && |multiset(t)| == |t|;
    if bins > 0 && s != [] {
      ErrorOfBinsIgnoresOrder(s, t, bins, bins);
    }
  }

  // ----- in terms of labels and probabilities -----

  /** The label is the first column of the row that holds its largest value. */
  predicate IsFirstLargest(row: seq<real>, column: int) {
    && 0 <= column < |row| && (forall j :: 0 <= j < |row| ==> row[j] <= row[column])
    && (forall j :: 0 <= j < column ==> row[j] < row[column])
  }

  /** The rows that are predicted rightly. */
  function RightRows(labels: seq<int>, probabilities: seq<seq<real>>): set<nat>
    requires |labels| == |probabilities|
  {
    set i: nat | i < |labels| && IsFirstLargest(probabilities[i], labels[i])
  }

  function Accuracy(labels: seq<int>, probabilities: seq<seq<real>>): real
    requires |labels| == |probabilities| && labels != []
  {
    |RightRows(labels, probabilities)| as real / |labels| as real
  }

  function Largest(row: seq<real>): (m: real)
    requires row != []
    ensures m in row && forall x :: x in row ==> x <= m
  {
    if |row| == 1 then row[0]
    else
      var m := Largest(row[1..]);
      assert row == [row[0]] + row[1..];
      if row[0] <= m then m else row[0]
  }

  function Confidences(probabilities: seq<seq<real>>): (r: seq<real>)
    requires forall i :: 0 <= i < |probabilities| ==> probabilities[i] != []
    ensures |r| == |probabilities| && forall i :: 0 <= i < |r| ==> r[i] == Largest(probabilities[i])
  {
    seq(|probabilities|, i requires 0 <= i < |probabilities| => Largest(probabilities[i]))
  }

  function MeanConfidence(probabilities: seq<seq<real>>): real
    requires probabilities != [] && forall i :: 0 <= i < |probabilities| ==> probabilities[i] != []
  {
    Sum(Confidences(probabilities)) / |probabilities| as real
  }

  lemma ArgMaxIsFirstLargest(row: seq<real>, column: int)
    requires row != []
    ensures ArgMax(row) == column <==> IsFirstLargest(row, column)
    ensures row[ArgMax(row)] == Largest(row)
  {
    assert row[ArgMax(row)] in row;
    var k :| 0 <= k < |row| && row[k] == Largest(row);
  }

  lemma {:induction false} TotalAppend(samples: seq<Sample>, x: Sample, value: Sample -> real)
    ensures Total(samples + [x], value) == Total(samples, value) + value(x)
  {
    if samples == [] {
      assert [] + [x] == [x] && [x][1..] == [];
    } else {
      assert (samples + [x])[1..] == samples[1..] + [x];
      TotalAppend(samples[1..], x, value);
    }
  }

  lemma {:induction false} TotalOfConfidences(samples: seq<Sample>, confidences: seq<real>)
    requires |samples| == |confidences| && forall i :: 0 <= i < |samples| ==> samples[i].confidence == confidences[i]
    ensures Total(samples, confidenceOf) == Sum(confidences)
  {
    if samples != [] {
      var n := |samples| - 1;
      TotalOfConfidences(samples[..n], confidences[..n]);
      assert samples == samples[..n] + [samples[n]];
      TotalAppend(samples[..n], samples[n], confidenceOf);
    }
  }

  lemma {:induction false} TotalOfHits(samples: seq<Sample>)
    ensures Total(samples, hit) == |set i: nat | i < |samples| && samples[i].correct| as real
  {
    var right := set i: nat | i < |samples| && samples[i].correct;
    if samples == [] {
      assert right == {};
    } else {
      var n := |samples| - 1;
      var init := samples[..n];
      TotalOfHits(init);
      assert samples == init + [samples[n]];
      TotalAppend(init, samples[n], hit);
      var right' := set i: nat | i < |init| && init[i].correct;
      assert n !in right';
      assert right == if samples[n].correct then right' + {n} else right';
    }
  }

  lemma TotalsOfRows(labels: seq<int>, probabilities: seq<seq<real>>)
    requires ValidRows(labels, probabilities)
    ensures Total(Samples(labels, probabilities), hit) == |RightRows(labels, probabilities)| as real
    ensures Total(Samples(labels, probabilities), confidenceOf) == Sum(Confidences(probabilities))
  {
    var samples := Samples(labels, probabilities);
    forall i | 0 <= i < |samples|
      ensures samples[i].confidence == Confidences(probabilities)[i] && (samples[i].correct <==> IsFirstLargest(probabilities[i], labels[i]))
    {
      ArgMaxIsFirstLargest(probabilities[i], labels[i]);
    }
    hide SampleOf, ArgMax, Largest, IsFirstLargest;
    TotalOfHits(samples);
    TotalOfConfidences(samples, Confidences(probabilities));
    assert (set i: nat | i < |samples| && samples[i].correct) == RightRows(labels, probabilities);
  }

  /** The error is at least the gap between the share of rows predicted rightly and the mean of
      the largest probabilities, and at most one. */
  lemma ErrorMeans(labels: seq<int>, probabilities: seq<seq<real>>, bins: nat)
    requires ValidRows(labels, probabilities) && labels != [] && bins > 0
    ensures Abs(Accuracy(labels, probabilities) - MeanConfidence(probabilities)) <= Error(Samples(labels, probabilities), bins) <= 1.0
  {
    TotalsOfRows(labels, probabilities);
    ErrorBounds(Samples(labels, probabilities), bins);
    hide Error, Total, RightRows, Confidences, Sum, ValidRows, Samples;
  }

  /** The row gives all its weight to the label, or to another column. */
  predicate SureOf(row: seq<real>, column: int) {
    0 <= column < |row| && row[column] == 1.0 && forall j :: 0 <= j < |row| && j != column ==> row[j] < 1.0
  }

  predicate SurelyWrong(row: seq<real>, column: int) {
    exists j :: 0 <= j < |row| && j != column && SureOf(row, j)
  }

  lemma {:induction false} BinSumOfEqual(samples: seq<Sample>, bins: nat, b: nat)
    requires bins > 0 && forall i :: 0 <= i < |samples| ==> samples[i].confidence == 1.0 && samples[i].correct
    ensures BinSum(samples, bins, b, hit) == BinSum(samples, bins, b, confidenceOf)
  {
    if samples != [] {
      BinSumOfEqual(samples[1..], bins, b);
    }
  }

  lemma {:induction false} NoGaps(samples: seq<Sample>, bins: nat, k: nat)
    requires bins > 0 && forall i :: 0 <= i < |samples| ==> samples[i].confidence == 1.0 && samples[i].correct
    ensures GapsOfBins(samples, bins, k) == 0.0
  {
    if k > 0 {
      NoGaps(samples, bins, k - 1);
      BinSumOfEqual(samples, bins, k - 1);
    }
  }

  /** Rows that are sure and right make no error. */
  lemma SureRows(labels: seq<int>, probabilities: seq<seq<real>>, bins: nat)
    requires ValidRows(labels, probabilities) && labels != [] && bins > 0
    ensures (forall i :: 0 <= i < |labels| ==> SureOf(probabilities[i], labels[i])) ==> Error(Samples(labels, probabilities), bins) == 0.0
  {
    if forall i :: 0 <= i < |labels| ==> SureOf(probabilities[i], labels[i]) {
      var samples := Samples(labels, probabilities);
      forall i | 0 <= i < |samples|
        ensures samples[i].confidence == 1.0 && samples[i].correct
      {
        assert SureOf(probabilities[i], labels[i]);
        ArgMaxIsFirstLargest(probabilities[i], labels[i]);
      }
      hide ArgMax, SampleOf;
      NoGaps(samples, bins, bins);
      ErrorIsGaps(samples, bins, bins);
      ZeroByScale(|samples| as real, Error(samples, bins));
    }
  }

  lemma ZeroByScale(n: real, x: real)
    requires n > 0.0 && n * x == 0.0
    ensures x == 0.0
  {
    BelowByScale(n, x, 0.0);
    BelowByScale(n, 0.0, x);
  }

  lemma WrongRowIsConfident(row: seq<real>, column: int)
    requires row != [] && (forall j :: 0 <= j < |row| ==> 0.0 <= row[j] <= 1.0) && SurelyWrong(row, column)
    ensures Largest(row) == 1.0 && !IsFirstLargest(row, column)
  {
    var j :| 0 <= j < |row| && j != column && SureOf(row, j);
    assert row[j] in row;
  }

  /** Rows that are sure and wrong make all the error there can be. */
  lemma WrongRows(labels: seq<int>, probabilities: seq<seq<real>>, bins: nat)
    requires ValidRows(labels, probabilities) && labels != [] && bins > 0
    ensures (forall i :: 0 <= i < |labels| ==> SurelyWrong(probabilities[i], labels[i])) ==> Error(Samples(labels, probabilities), bins) == 1.0
  {
    hide IsFirstLargest, Largest, SurelyWrong, Error, Samples;
    if forall i :: 0 <= i < |labels| ==> SurelyWrong(probabilities[i], labels[i]) {
      forall i | 0 <= i < |labels|
        ensures Largest(probabilities[i]) == 1.0 && !IsFirstLargest(probabilities[i], labels[i])
      {
        WrongRowIsConfident(probabilities[i], labels[i]);
      }
      WrongTotals(labels, probabilities);
      ErrorMeans(labels, probabilities, bins);
      hide Accuracy, MeanConfidence, ValidRows;
    }
  }

  lemma WrongTotals(labels: seq<int>, probabilities: seq<seq<real>>)
    requires ValidRows(labels, probabilities) && labels != []
    requires forall i :: 0 <= i < |labels| ==> Largest(probabilities[i]) == 1.0 && !IsFirstLargest(probabilities[i], labels[i])
    ensures Accuracy(labels, probabilities) == 0.0 && MeanConfidence(probabilities) == 1.0
  {
    hide IsFirstLargest, Largest, Sum;
    assert RightRows(labels, probabilities) == {};
    SumOfOnes(Confidences(probabilities));
    var n := |probabilities| as real;
    assert Sum(Confidences(probabilities)) == n && n / n == 1.0;
  }

  /** What an error says about the rows. */
  ghost predicate ErrorSays(labels: seq<int>, probabilities: seq<seq<real>>, error: real)
    requires ValidRows(labels, probabilities) && labels != []
  {
    && Abs(Accuracy(labels, probabilities) - MeanConfidence(probabilities)) <= error <= 1.0
    && ((forall i :: 0 <= i < |labels| ==> SureOf(probabilities[i], labels[i])) ==> error == 0.0)
    && ((forall i :: 0 <= i < |labels| ==> SurelyWrong(probabilities[i], labels[i])) ==> error == 1.0)
  }

  lemma ErrorSaysSo(labels: seq<int>, probabilities: seq<seq<real>>, bins: nat)
    requires ValidRows(labels, probabilities) && labels != [] && bins > 0
    ensures ErrorSays(labels, probabilities, Error(Samples(labels, probabilities), bins))
  {
    ErrorMeans(labels, probabilities, bins);
    SureRows(labels, probabilities, bins);
    WrongRows(labels, probabilities, bins);
    hide Error, Samples, Accuracy, MeanConfidence, SureOf, SurelyWrong, ValidRows;
  }

  lemma {:induction false} SumOfOnes(ds: seq<real>)
    requires forall k :: 0 <= k < |ds| ==> ds[k] == 1.0
    ensures Sum(ds) == |ds| as real
  {
    if ds != [] {
      SumOfOnes(ds[..|ds| - 1]);
    }
  }

  // ----- the bins -----

  /** The bin of a confidence by its bounds: `b` counts bins of width `1 / bins`, and one is in the
      last. */
  lemma InBinMeans(bins: nat, b: nat, confidence: real)
    requires b < bins && 0.0 <= confidence <= 1.0
    ensures InBin(bins, b, confidence) <==>
            (b as real <= confidence * bins as real && (confidence * bins as real < (b + 1) as real || (confidence == 1.0 && b == bins - 1)))
  {
    EdgeAt(bins, b, confidence);
    EdgeAt(bins, b + 1, confidence);
    var n := bins as real;
    if confidence < 1.0 {
      MulStrict(n, confidence, 1.0);
    }
    hide Edge;
  }
}
