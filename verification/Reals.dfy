/** Real arithmetic shared by the numeric cores. */
module Reals {
  import opened Sequences

  function Abs(x: real): real {
    if x < 0.0 then -x else x
  }

  function Max(x: real, y: real): real {
    if x < y then y else x
  }

  lemma MulStrict(n: real, x: real, y: real)
    requires n > 0.0 && x < y
    ensures n * x < n * y
  {
  }

  lemma BelowByScale(n: real, x: real, y: real)
    requires n > 0.0 && n * x <= n * y
    ensures x <= y
  {
    if y < x {
      MulStrict(n, y, x);
    }
  }

  lemma Distribute(n: real, x: real, y: real)
    ensures n * (x + y) == n * x + n * y
  {
  }

  function Sum(ds: seq<real>): real {
    if ds == [] then 0.0 else Sum(ds[..|ds| - 1]) + ds[|ds| - 1]
  }

  lemma SumStep(ds: seq<real>, d: real)
    ensures Sum(ds + [d]) == Sum(ds) + d
  {
    assert (ds + [d])[..|ds|] == ds;
  }

  lemma {:induction false} SumAppend(s: seq<real>, t: seq<real>)
    ensures Sum(s + t) == Sum(s) + Sum(t)
    decreases |t|
  {
    if t == [] {
      assert s + t == s;
    } else {
      var n := |t| - 1;
      assert (s + t)[..|s + t| - 1] == s + t[..n];
      SumAppend(s, t[..n]);
    }
  }

  lemma SumWithOneMore(a: seq<real>, x: real, b: seq<real>)
    ensures Sum(a + [x] + b) == Sum(a + b) + x
  {
    assert [x][..0] == [];
    SumAppend(a, [x]);
    SumAppend(a + [x], b);
    SumAppend(a, b);
  }

  lemma {:induction false} SumIgnoresOrder(s: seq<real>, t: seq<real>)
    requires multiset(s) == multiset(t)
    ensures Sum(s) == Sum(t)
  {
    hide Sum;
    assert |multiset(s)| == |s| && |multiset(t)| == |t|;
    if s == [] {
      assert t == [];
    } else {
      assert s[0] in multiset(t);
      var j :| 0 <= j < |t| && t[j] == s[0];
      TakeOut(s, 0);
      TakeOut(t, j);
      SumIgnoresOrder(s[..0] + s[1..], t[..j] + t[j + 1..]);
      SumWithOneMore(s[..0], s[0], s[1..]);
      SumWithOneMore(t[..j], s[0], t[j + 1..]);
    }
  }

  lemma {:induction false} SumIsMonotone(s: seq<real>, t: seq<real>)
    requires |s| == |t| && forall k :: 0 <= k < |s| ==> s[k] <= t[k]
    ensures Sum(s) <= Sum(t)
  {
    if s != [] {
      SumIsMonotone(s[..|s| - 1], t[..|s| - 1]);
    }
  }

  lemma {:induction false} SumNonNegative(ds: seq<real>)
    requires forall k :: 0 <= k < |ds| ==> ds[k] >= 0.0
    ensures Sum(ds) >= 0.0
  {
    if ds != [] {
      SumNonNegative(ds[..|ds| - 1]);
    }
  }

  lemma SumWithout(s: seq<real>, j: nat)
    requires j < |s|
    ensures Sum(s) == Sum(Without(s, j)) + s[j]
  {
    TakeOut(s, j);
    SumWithOneMore(s[..j], s[j], s[j + 1..]);
  }

  /** `argmax`: the first column holding the largest value. */
  function ArgMax(row: seq<real>): (k: nat)
    requires row != []
    ensures k < |row| && (forall j :: 0 <= j < |row| ==> row[j] <= row[k]) && (forall j :: 0 <= j < k ==> row[j] < row[k])
  {
    var n := |row| - 1;
    if n == 0 then 0
    else
      var k := ArgMax(row[..n]);
      assert forall j :: 0 <= j < n ==> row[..n][j] == row[j];
      if row[k] < row[n] then n else k
  }
}
