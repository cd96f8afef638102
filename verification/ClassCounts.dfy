/** Partition sizes, class counts and proportion deviations (`data/splits.py`), and what the
    class-coverage guard on them is worth. */
module ClassCounting {
  import opened Reals

  /** A split value; `Unknown` is any string but the three expected ones. */
  datatype Partition = Train | Calibration | Test | Unknown(name: string)

  const Splits: seq<Partition> := [Train, Calibration, Test]

  /** `(assignments == split).sum()`. */
  function Size(ps: seq<Partition>, split: Partition): nat {
    if ps == [] then 0 else (if ps[0] == split then 1 else 0) + Size(ps[1..], split)
  }

  /** One cell of `pd.crosstab(split, code)`. */
  function Count(ps: seq<Partition>, codes: seq<int>, split: Partition, code: int): nat
    requires |ps| == |codes|
  {
    if ps == [] then 0
    else (if ps[0] == split && codes[0] == code then 1 else 0) + Count(ps[1..], codes[1..], split, code)
  }

  /** `_class_counts(...)[split]`: a present split has an entry for every code that occurs
      anywhere, zero counts included; an absent split has none. */
  function ClassCounts(ps: seq<Partition>, codes: seq<int>, split: Partition): map<int, nat>
    requires |ps| == |codes|
  {
    if split in ps then map code | code in codes :: Count(ps, codes, split, code) else map[]
  }

  lemma {:induction false} SizePositive(ps: seq<Partition>, split: Partition)
    ensures Size(ps, split) > 0 <==> split in ps
    ensures Size(ps, split) <= |ps|
  {
    if ps != [] {
      SizePositive(ps[1..], split);
      assert ps == [ps[0]] + ps[1..];
    }
  }

  lemma {:induction false} CountPositive(ps: seq<Partition>, codes: seq<int>, split: Partition, code: int)
    requires |ps| == |codes|
    ensures Count(ps, codes, split, code) > 0 <==> exists k :: 0 <= k < |ps| && ps[k] == split && codes[k] == code
    ensures Count(ps, codes, split, code) <= Size(ps, split)
  {
    if ps != [] {
      CountPositive(ps[1..], codes[1..], split, code);
      if k :| 0 <= k < |ps| && ps[k] == split && codes[k] == code {
        if k > 0 {
          assert ps[1..][k - 1] == split && codes[1..][k - 1] == code;
        }
      }
      if k :| 0 <= k < |ps[1..]| && ps[1..][k] == split && codes[1..][k] == code {
        assert ps[k + 1] == split && codes[k + 1] == code;
      }
    }
  }

  // ----- conservation -----

  /** The codes that occur, each once. */
  function Codes(codes: seq<int>): (r: seq<int>)
    ensures forall c :: c in r <==> c in codes
    ensures forall i, j :: 0 <= i < j < |r| ==> r[i] != r[j]
  {
    if codes == [] then []
    else
      var rest := Codes(codes[1..]);
      if codes[0] in rest then rest else [codes[0]] + rest
  }

  function SumCounts(ps: seq<Partition>, codes: seq<int>, split: Partition, over: seq<int>): nat
    requires |ps| == |codes|
  {
    if over == [] then 0 else Count(ps, codes, split, over[0]) + SumCounts(ps, codes, split, over[1..])
  }

  /** Dropping the first row changes the counts by one, at its own code only. */
  lemma {:induction false} SumCountsStep(ps: seq<Partition>, codes: seq<int>, split: Partition, over: seq<int>)
    requires |ps| == |codes| && ps != []
    requires forall i, j :: 0 <= i < j < |over| ==> over[i] != over[j]
    ensures SumCounts(ps, codes, split, over)
         == SumCounts(ps[1..], codes[1..], split, over) + (if ps[0] == split && codes[0] in over then 1 else 0)
  {
    if over != [] {
      SumCountsStep(ps, codes, split, over[1..]);
      assert over == [over[0]] + over[1..];
    }
  }

  lemma {:induction false} SumCountsIsSize(ps: seq<Partition>, codes: seq<int>, split: Partition, over: seq<int>)
    requires |ps| == |codes|
    requires forall i, j :: 0 <= i < j < |over| ==> over[i] != over[j]
    requires forall c :: c in codes ==> c in over
    ensures SumCounts(ps, codes, split, over) == Size(ps, split)
  {
    if ps == [] {
      SumCountsOfNothing(ps, codes, split, over);
    } else {
      SumCountsStep(ps, codes, split, over);
      assert codes[0] in codes && forall c :: c in codes[1..] ==> c in codes;
      SumCountsIsSize(ps[1..], codes[1..], split, over);
    }
  }

  lemma {:induction false} SumCountsOfNothing(ps: seq<Partition>, codes: seq<int>, split: Partition, over: seq<int>)
    requires ps == [] && codes == []
    ensures SumCounts(ps, codes, split, over) == 0
  {
    if over != [] {
      SumCountsOfNothing(ps, codes, split, over[1..]);
    }
  }

  lemma {:induction false} SizesSum(ps: seq<Partition>)
    requires forall p :: p in ps ==> p in Splits
    ensures Size(ps, Train) + Size(ps, Calibration) + Size(ps, Test) == |ps|
  {
    if ps != [] {
      assert ps[0] in ps && forall p :: p in ps[1..] ==> p in ps;
      SizesSum(ps[1..]);
    }
  }

  /** Partition sizes add up to the rows, and the class counts of a partition to its size. */
  lemma CountsAreConserved(ps: seq<Partition>, codes: seq<int>, split: Partition)
    requires |ps| == |codes| && forall p :: p in ps ==> p in Splits
    ensures Size(ps, Train) + Size(ps, Calibration) + Size(ps, Test) == |ps|
    ensures SumCounts(ps, codes, split, Codes(codes)) == Size(ps, split)
    ensures split in ps ==> ClassCounts(ps, codes, split).Keys == (set c | c in Codes(codes))
  {
    SizesSum(ps);
    SumCountsIsSize(ps, codes, split, Codes(codes));
  }

  // ----- the counts as sizes of sets -----

  /** The rows of a split; of a split and a code; of a code. */
  function Where(ps: seq<Partition>, split: Partition): set<nat> {
    set k: nat | k < |ps| && ps[k] == split
  }

  function WhereCode(ps: seq<Partition>, codes: seq<int>, split: Partition, code: int): set<nat>
    requires |ps| == |codes|
  {
    set k: nat | k < |ps| && ps[k] == split && codes[k] == code
  }

  function WhereTotal(codes: seq<int>, code: int): set<nat> {
    set k: nat | k < |codes| && codes[k] == code
  }

  function Tally(bs: seq<bool>): nat {
    if bs == [] then 0 else (if bs[0] then 1 else 0) + Tally(bs[1..])
  }

  lemma {:induction false} TallyLast(bs: seq<bool>, b: bool)
    ensures Tally(bs + [b]) == Tally(bs) + (if b then 1 else 0)
  {
    if bs == [] {
      assert [] + [b] == [b];
    } else {
      assert (bs + [b])[1..] == bs[1..] + [b];
      TallyLast(bs[1..], b);
    }
  }

  lemma {:induction false} TallyIsCount(bs: seq<bool>)
    ensures Tally(bs) == |set k: nat | k < |bs| && bs[k]|
  {
    var s := set k: nat | k < |bs| && bs[k];
    if bs == [] {
      assert s == {};
    } else {
      var n := |bs| - 1;
      var init := bs[..n];
      TallyIsCount(init);
      TallyLast(init, bs[n]);
      assert bs == init + [bs[n]];
      var s' := set k: nat | k < |init| && init[k];
      assert n !in s';
      assert s == if bs[n] then s' + {n} else s';
    }
  }

  lemma {:induction false} SizeIsTally(ps: seq<Partition>, split: Partition, bs: seq<bool>)
    requires |bs| == |ps| && forall k :: 0 <= k < |ps| ==> bs[k] == (ps[k] == split)
    ensures Size(ps, split) == Tally(bs)
  {
    if ps != [] {
      SizeIsTally(ps[1..], split, bs[1..]);
    }
  }

  lemma SizeIsCount(ps: seq<Partition>, split: Partition)
    ensures Size(ps, split) == |Where(ps, split)|
  {
    var bs := seq(|ps|, k requires 0 <= k < |ps| => ps[k] == split);
    SizeIsTally(ps, split, bs);
    TallyIsCount(bs);
    assert (set k: nat | k < |bs| && bs[k]) == Where(ps, split);
  }

  lemma {:induction false} CountIsTally(ps: seq<Partition>, codes: seq<int>, split: Partition, code: int, bs: seq<bool>)
    requires |bs| == |ps| == |codes| && forall k :: 0 <= k < |ps| ==> bs[k] == (ps[k] == split && codes[k] == code)
    ensures Count(ps, codes, split, code) == Tally(bs)
  {
    if ps != [] {
      CountIsTally(ps[1..], codes[1..], split, code, bs[1..]);
    }
  }

  lemma CountIsCount(ps: seq<Partition>, codes: seq<int>, split: Partition, code: int)
    requires |ps| == |codes|
    ensures Count(ps, codes, split, code) == |WhereCode(ps, codes, split, code)|
  {
    var bs := seq(|ps|, k requires 0 <= k < |ps| => ps[k] == split && codes[k] == code);
    CountIsTally(ps, codes, split, code, bs);
    TallyIsCount(bs);
    assert (set k: nat | k < |bs| && bs[k]) == WhereCode(ps, codes, split, code);
  }

  lemma {:induction false} TotalIsTally(codes: seq<int>, code: int, bs: seq<bool>)
    requires |bs| == |codes| && forall k :: 0 <= k < |codes| ==> bs[k] == (codes[k] == code)
    ensures Total(codes, code) == Tally(bs)
  {
    if codes != [] {
      TotalIsTally(codes[1..], code, bs[1..]);
    }
  }

  lemma TotalIsCount(codes: seq<int>, code: int)
    ensures Total(codes, code) == |WhereTotal(codes, code)|
  {
    var bs := seq(|codes|, k requires 0 <= k < |codes| => codes[k] == code);
    TotalIsTally(codes, code, bs);
    TallyIsCount(bs);
    assert (set k: nat | k < |bs| && bs[k]) == WhereTotal(codes, code);
  }

  // ----- deviations -----

  /** The number of rows with a code, in all partitions. */
  function Total(codes: seq<int>, code: int): nat {
    if codes == [] then 0 else (if codes[0] == code then 1 else 0) + Total(codes[1..], code)
  }

  /** One entry of `_proportion_deviations`. */
  function ProportionDeviation(ps: seq<Partition>, codes: seq<int>, split: Partition, code: int): real
    requires |ps| == |codes| && Size(ps, split) > 0 && |ps| > 0
  {
    Abs(Count(ps, codes, split, code) as real / Size(ps, split) as real - Total(codes, code) as real / |codes| as real)
  }

  lemma {:induction false} TotalBounded(codes: seq<int>, code: int)
    ensures Total(codes, code) <= |codes|
  {
    if codes != [] {
      TotalBounded(codes[1..], code);
    }
  }

  lemma FractionInUnit(k: nat, n: nat)
    requires 0 < n && k <= n
    ensures 0.0 <= k as real / n as real <= 1.0
  {
  }

  lemma DeviationsInUnit(ps: seq<Partition>, codes: seq<int>, split: Partition, code: int)
    requires |ps| == |codes| && split in ps && Size(ps, split) > 0
    ensures 0.0 <= ProportionDeviation(ps, codes, split, code) <= 1.0
  {
    CountPositive(ps, codes, split, code);
    TotalBounded(codes, code);
    FractionInUnit(Count(ps, codes, split, code), Size(ps, split));
    FractionInUnit(Total(codes, code), |codes|);
  }

  // ----- the class-coverage guard -----

  /** `not any(len(counts[split]) < 2 for split in counts)`. */
  predicate GuardPasses(ps: seq<Partition>, codes: seq<int>)
    requires |ps| == |codes|
  {
    forall k :: 0 <= k < |Splits| ==> |ClassCounts(ps, codes, Splits[k])| >= 2
  }

  /** What the error message asks for: two different codes among the rows of a split. */
  ghost predicate HasTwoClasses(ps: seq<Partition>, codes: seq<int>, split: Partition)
    requires |ps| == |codes|
  {
    exists i, j :: 0 <= i < |ps| && 0 <= j < |ps| && ps[i] == split && ps[j] == split && codes[i] != codes[j]
  }

  ghost predicate EverySplitHasTwoClasses(ps: seq<Partition>, codes: seq<int>)
    requires |ps| == |codes|
  {
    forall k :: 0 <= k < |Splits| ==> HasTwoClasses(ps, codes, Splits[k])
  }

  lemma PickOne<T>(s: set<T>) returns (x: T)
    requires s != {}
    ensures x in s
  {
    x :| x in s;
  }

  lemma ManyMeansTwo(s: set<int>)
    ensures |s| >= 2 <==> exists a, b :: a in s && b in s && a != b
  {
    if a, b :| a in s && b in s && a != b {
      assert |s| == |s - {a} - {b}| + 2;
    }
    if |s| >= 2 {
      var a := PickOne(s);
      assert |s - {a}| == |s| - 1;
      var b := PickOne(s - {a});
    }
  }

  /** The guard counts keys, and zero counts keep their key. So it does not look into the
      partitions at all: it passes exactly when no partition is empty and two codes occur
      somewhere in the data. */
  lemma GuardMeans(ps: seq<Partition>, codes: seq<int>)
    requires |ps| == |codes|
    ensures GuardPasses(ps, codes) <==>
            (forall k :: 0 <= k < |Splits| ==> Splits[k] in ps) && exists i, j :: 0 <= i < |codes| && 0 <= j < |codes| && codes[i] != codes[j]
  {
    var all := set c | c in codes;
    ManyMeansTwo(all);
    forall k | 0 <= k < |Splits|
      ensures |ClassCounts(ps, codes, Splits[k])| == if Splits[k] in ps then |all| else 0
    {
      if Splits[k] in ps {
        assert ClassCounts(ps, codes, Splits[k]).Keys == all;
      }
    }
    assert Splits[0] == Train;
    if i, j :| 0 <= i < |codes| && 0 <= j < |codes| && codes[i] != codes[j] {
      assert codes[i] in all && codes[j] in all;
    }
  }

  /** The codes a split really has. */
  function PresentCodes(ps: seq<Partition>, codes: seq<int>, split: Partition): set<int>
    requires |ps| == |codes|
  {
    set c | c in codes && Count(ps, codes, split, c) > 0
  }

  /** A guard on positive counts would say what the message says. */
  lemma PositiveGuardMeans(ps: seq<Partition>, codes: seq<int>, split: Partition)
    requires |ps| == |codes|
    ensures |PresentCodes(ps, codes, split)| >= 2 <==> HasTwoClasses(ps, codes, split)
  {
    var present := PresentCodes(ps, codes, split);
    ManyMeansTwo(present);
    if a, b :| a in present && b in present && a != b {
      CountPositive(ps, codes, split, a);
      CountPositive(ps, codes, split, b);
    }
    if i, j :| 0 <= i < |ps| && 0 <= j < |ps| && ps[i] == split && ps[j] == split && codes[i] != codes[j] {
      CountPositive(ps, codes, split, codes[i]);
      CountPositive(ps, codes, split, codes[j]);
      assert codes[i] in present && codes[j] in present;
    }
  }

  /** The guard never rejects what the message allows. */
  lemma GuardIsNecessary(ps: seq<Partition>, codes: seq<int>)
    requires |ps| == |codes| && EverySplitHasTwoClasses(ps, codes)
    ensures GuardPasses(ps, codes)
  {
    GuardMeans(ps, codes);
    assert HasTwoClasses(ps, codes, Splits[0]);
  }

  /** Four rows on which the guard passes although the calibration partition has one class. */
  lemma GuardLetsOneClassThrough()
    ensures var ps, codes := [Train, Train, Calibration, Test], [0, 1, 0, 1];
            GuardPasses(ps, codes) && !HasTwoClasses(ps, codes, Calibration)
  {
    var ps, codes := [Train, Train, Calibration, Test], [0, 1, 0, 1];
    assert ps[0] == Train && ps[2] == Calibration && ps[3] == Test && codes[0] != codes[1];
    assert forall k :: 0 <= k < |Splits| ==> Splits[k] in ps;
    GuardMeans(ps, codes);
  }
}
