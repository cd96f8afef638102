/** The greedy two-worker list schedule behind `estimate_smoke_runtime`, for any order of the
    tasks, and what its 1.5 safety factor buys. */
module ListSchedule {
  import opened Reals
  import opened Sequences

  datatype Loads = Loads(first: real, second: real)

  /** One task to the worker that `min(range(2), key=loads.__getitem__)` picks: the first one
      on a tie. */
  function Give(l: Loads, d: real): Loads {
    if l.second < l.first then Loads(l.first, l.second + d) else Loads(l.first + d, l.second)
  }

  /** The loads after the tasks, in the order they come. */
  function Greedy(ds: seq<real>): Loads {
    if ds == [] then Loads(0.0, 0.0) else Give(Greedy(ds[..|ds| - 1]), ds[|ds| - 1])
  }

  function Makespan(l: Loads): real {
    Max(l.first, l.second)
  }

  function Longest(ds: seq<real>): real {
    if ds == [] then 0.0 else Max(Longest(ds[..|ds| - 1]), ds[|ds| - 1])
  }

  ghost predicate NonNegative(ds: seq<real>) {
    forall k :: 0 <= k < |ds| ==> ds[k] >= 0.0
  }

  lemma GreedyStep(ds: seq<real>, d: real)
    ensures Greedy(ds + [d]) == Give(Greedy(ds), d)
  {
    assert (ds + [d])[..|ds|] == ds;
  }

  /** Any division of the tasks between the two workers. */
  function Divide(ds: seq<real>, toSecond: seq<bool>): Loads
    requires |ds| == |toSecond|
  {
    if ds == [] then Loads(0.0, 0.0)
    else
      var n := |ds| - 1;
      var l := Divide(ds[..n], toSecond[..n]);
      if toSecond[n] then Loads(l.first, l.second + ds[n]) else Loads(l.first + ds[n], l.second)
  }

  lemma {:induction false} DivideConserves(ds: seq<real>, toSecond: seq<bool>)
    requires |ds| == |toSecond| && NonNegative(ds)
    ensures var l := Divide(ds, toSecond); l.first + l.second == Sum(ds) && l.first >= 0.0 && l.second >= 0.0
    ensures Longest(ds) <= Makespan(Divide(ds, toSecond))
  {
    if ds != [] {
      DivideConserves(ds[..|ds| - 1], toSecond[..|ds| - 1]);
    }
  }

  /** Greedy scheduling is one such division, so it conserves work; and the worker it leaves
      busiest leads the other by at most one task. */
  lemma {:induction false} GreedyBound(ds: seq<real>)
    requires NonNegative(ds)
    ensures Greedy(ds).first + Greedy(ds).second == Sum(ds)
    ensures 2.0 * Makespan(Greedy(ds)) <= Sum(ds) + Longest(ds)
    ensures Greedy(ds).first >= 0.0 && Greedy(ds).second >= 0.0
  {
    if ds != [] {
      GreedyBound(ds[..|ds| - 1]);
    }
  }

  lemma {:induction false} GreedyIsADivision(ds: seq<real>) returns (toSecond: seq<bool>)
    ensures |toSecond| == |ds| && Divide(ds, toSecond) == Greedy(ds)
  {
    if ds == [] {
      toSecond := [];
    } else {
      var n := |ds| - 1;
      var init := GreedyIsADivision(ds[..n]);
      var l := Greedy(ds[..n]);
      toSecond := init + [l.second < l.first];
      assert toSecond[..n] == init;
    }
  }

  /** The list-scheduling ratio for two machines: no division of the tasks beats the greedy
      one by more than a third. */
  lemma GreedyWithinThreeHalves(ds: seq<real>, toSecond: seq<bool>)
    requires |ds| == |toSecond| && NonNegative(ds)
    ensures 2.0 * Makespan(Greedy(ds)) <= 3.0 * Makespan(Divide(ds, toSecond))
  {
    GreedyBound(ds);
    DivideConserves(ds, toSecond);
  }

  // ----- work does not depend on the order -----

  lemma {:induction false} LongestAppend(s: seq<real>, t: seq<real>)
    ensures Longest(s) >= 0.0
    ensures Longest(s + t) == Max(Longest(s), Longest(t))
    decreases |s| + |t|
  {
    if t == [] {
      assert s + t == s;
      if s != [] {
        LongestAppend(s[..|s| - 1], []);
      }
    } else {
      var n := |t| - 1;
      assert (s + t)[..|s + t| - 1] == s + t[..n];
      LongestAppend(s, t[..n]);
    }
  }

  lemma LongestWithOneMore(a: seq<real>, x: real, b: seq<real>)
    ensures Longest(a + [x] + b) == Max(Longest(a + b), x)
  {
    assert [x][..0] == [];
    LongestAppend(a, [x]);
    LongestAppend(a + [x], b);
    LongestAppend(a, b);
  }

  lemma {:induction false} LongestIgnoresOrder(s: seq<real>, t: seq<real>)
    requires multiset(s) == multiset(t)
    ensures Longest(s) == Longest(t)
  {
    hide Longest;
    assert |multiset(s)| == |s| && |multiset(t)| == |t|;
    if s == [] {
      assert t == [];
    } else {
      assert s[0] in multiset(t);
      var j :| 0 <= j < |t| && t[j] == s[0];
      TakeOut(s, 0);
      TakeOut(t, j);
      LongestIgnoresOrder(s[..0] + s[1..], t[..j] + t[j + 1..]);
      LongestWithOneMore(s[..0], s[0], s[1..]);
      LongestWithOneMore(t[..j], s[0], t[j + 1..]);
    }
  }

  lemma {:induction false} LongestIsMonotone(s: seq<real>, t: seq<real>)
    requires |s| == |t| && forall k :: 0 <= k < |s| ==> s[k] <= t[k]
    ensures Longest(s) <= Longest(t)
  {
    if s != [] {
      LongestIsMonotone(s[..|s| - 1], t[..|s| - 1]);
    }
  }

  /** One greedy makespan, times 1.5, covers every other: the same tasks in any order, each
      taking its estimated time or less. */
  lemma ThreeHalvesCoverEveryOrder(estimated: seq<real>, reordered: seq<real>, actual: seq<real>)
    requires NonNegative(estimated) && NonNegative(actual) && multiset(reordered) == multiset(estimated)
    requires |actual| == |reordered| && forall k :: 0 <= k < |actual| ==> actual[k] <= reordered[k]
    ensures Makespan(Greedy(actual)) <= 1.5 * Makespan(Greedy(estimated))
  {
    SumIgnoresOrder(reordered, estimated);
    LongestIgnoresOrder(reordered, estimated);
    SumIsMonotone(actual, reordered);
    LongestIsMonotone(actual, reordered);
    GreedyBound(actual);
    var toSecond := GreedyIsADivision(estimated);
    DivideConserves(estimated, toSecond);
  }

  lemma GreedyOfThree(x: real, y: real, z: real)
    ensures Greedy([x, y, z]) == Give(Give(Give(Loads(0.0, 0.0), x), y), z)
  {
    hide Give;
    assert [x, y, z][..2] == [x, y] && [x, y][..1] == [x] && [x][..0] == [];
    assert Greedy([x]) == Give(Loads(0.0, 0.0), x);
    assert Greedy([x, y]) == Give(Greedy([x]), y);
  }

  lemma LongTaskFirst()
    ensures Makespan(Greedy([2.0, 1.0, 1.0])) == 2.0
  {
    GreedyOfThree(2.0, 1.0, 1.0);
    hide Greedy;
    assert Give(Loads(0.0, 0.0), 2.0) == Loads(2.0, 0.0);
    assert Give(Loads(2.0, 0.0), 1.0) == Loads(2.0, 1.0);
  }

  lemma LongTaskLast()
    ensures Makespan(Greedy([1.0, 1.0, 2.0])) == 3.0
  {
    GreedyOfThree(1.0, 1.0, 2.0);
    hide Greedy;
    assert Give(Loads(0.0, 0.0), 1.0) == Loads(1.0, 0.0);
    assert Give(Loads(1.0, 0.0), 1.0) == Loads(1.0, 1.0);
  }

  /** No smaller factor does: three tasks whose order alone costs a half. */
  lemma ThreeHalvesIsTight(factor: real)
    requires factor < 1.5
    ensures var s, t := [2.0, 1.0, 1.0], [1.0, 1.0, 2.0];
            multiset(s) == multiset(t) && Makespan(Greedy(t)) > factor * Makespan(Greedy(s))
  {
    hide Greedy, Makespan;
    LongTaskFirst();
    LongTaskLast();
    assert multiset([2.0, 1.0, 1.0]) == multiset{2.0, 1.0, 1.0};
    assert multiset([1.0, 1.0, 2.0]) == multiset{2.0, 1.0, 1.0};
  }
}
