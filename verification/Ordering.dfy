/** Python's order on strings, `sorted(..., key=...)` with string keys, and when sorting
    forgets the order its input came in. */
module Ordering {
  import opened Sequences

  /** `a < b` on strings: by code point, a proper prefix first. */
  predicate Less(a: string, b: string) {
    b != [] && (a == [] || a[0] < b[0] || (a[0] == b[0] && Less(a[1..], b[1..])))
  }

  lemma {:induction false} LessTotal(a: string, b: string)
    ensures Less(a, b) || a == b || Less(b, a)
    ensures !(Less(a, b) && Less(b, a)) && (a == b ==> !Less(a, b))
  {
    if a != [] && b != [] && a[0] == b[0] {
      LessTotal(a[1..], b[1..]);
      assert a == [a[0]] + a[1..] && b == [b[0]] + b[1..];
    }
  }

  lemma {:induction false} LessTransitive(a: string, b: string, c: string)
    requires Less(a, b) && (b == c || Less(b, c))
    ensures Less(a, c)
  {
    if a != [] && b != c && a[0] == b[0] == c[0] {
      LessTransitive(a[1..], b[1..], c[1..]);
    }
  }

  lemma SharedHead(a: string, b: string, k: nat)
    requires 0 < k <= |a| && k <= |b| && a[..k] == b[..k]
    ensures a[0] == b[0] && a[1..][..k - 1] == b[1..][..k - 1]
  {
    assert a[..k][0] == a[0] && b[..k][0] == b[0];
    assert a[1..][..k - 1] == a[..k][1..] && b[1..][..k - 1] == b[..k][1..];
  }

  /** The first difference decides, and a proper prefix comes first. */
  lemma {:induction false} LessMeans(a: string, b: string)
    ensures Less(a, b) <==> exists k: nat :: k <= |a| && k < |b| && a[..k] == b[..k] && (k == |a| || a[k] < b[k])
  {
    if k: nat :| k <= |a| && k < |b| && a[..k] == b[..k] && (k == |a| || a[k] < b[k]) {
      if k > 0 {
        SharedHead(a, b, k);
        LessMeans(a[1..], b[1..]);
      }
    }
    if Less(a, b) {
      if a != [] && a[0] == b[0] {
        LessMeans(a[1..], b[1..]);
        var k: nat :| k <= |a[1..]| && k < |b[1..]| && a[1..][..k] == b[1..][..k] && (k == |a[1..]| || a[1..][k] < b[1..][k]);
        assert a[..k + 1] == [a[0]] + a[1..][..k] && b[..k + 1] == [b[0]] + b[1..][..k];
      } else {
        assert a[..0] == b[..0];
      }
    }
  }

  /** Strings whose prefixes are ordered are ordered. */
  lemma {:induction false} LessByPrefix(a: string, b: string, n: nat)
    requires n <= |a| && n <= |b| && Less(a[..n], b[..n])
    ensures Less(a, b)
  {
    if n > 0 && a[0] == b[0] {
      assert a[..n][1..] == a[1..][..n - 1] && b[..n][1..] == b[1..][..n - 1];
      LessByPrefix(a[1..], b[1..], n - 1);
    }
  }

  ghost predicate StrictlyIncreasing(s: seq<string>) {
    forall i, j :: 0 <= i < j < |s| ==> Less(s[i], s[j])
  }

  ghost predicate Sorted<T(!new)>(key: T -> string, s: seq<T>) {
    forall i, j :: 0 <= i < j < |s| ==> !Less(key(s[j]), key(s[i]))
  }

  /** One step of a stable insertion sort, from the back of the input to the front. */
  function Insert<T>(key: T -> string, x: T, s: seq<T>): (r: seq<T>)
    ensures multiset(r) == multiset{x} + multiset(s)
    ensures |r| == |s| + 1
  {
    if s == [] || !Less(key(s[0]), key(x)) then [x] + s
    else
      assert s == [s[0]] + s[1..];
      [s[0]] + Insert(key, x, s[1..])
  }

  /** `sorted(s, key=key)`: stable, as Python's sort is. */
  function SortBy<T>(key: T -> string, s: seq<T>): (r: seq<T>)
    ensures multiset(r) == multiset(s)
    ensures |r| == |s|
  {
    if s == [] then []
    else
      assert s == [s[0]] + s[1..];
      Insert(key, s[0], SortBy(key, s[1..]))
  }

  lemma {:induction false} InsertKeepsSorted<T(!new)>(key: T -> string, x: T, s: seq<T>)
    requires Sorted(key, s)
    ensures Sorted(key, Insert(key, x, s))
  {
    var r := Insert(key, x, s);
    if s == [] {
    } else if !Less(key(s[0]), key(x)) {
      LessTotal(key(s[0]), key(x));
      forall j | 0 < j < |r|
        ensures !Less(key(r[j]), key(x))
      {
        if Less(key(s[j - 1]), key(x)) {
          if j - 1 > 0 {
            LessTotal(key(s[0]), key(s[j - 1]));
            if key(s[0]) != key(s[j - 1]) {
              LessTransitive(key(s[0]), key(s[j - 1]), key(x));
            }
          }
        }
      }
    } else {
      InsertKeepsSorted(key, x, s[1..]);
      var t := Insert(key, x, s[1..]);
      LessTotal(key(s[0]), key(x));
      forall j | 0 <= j < |t|
        ensures !Less(key(t[j]), key(s[0]))
      {
        assert t[j] in multiset(t);
        if t[j] != x {
          assert t[j] in s[1..];
        }
      }
    }
  }

  lemma {:induction false} SortIsSorted<T(!new)>(key: T -> string, s: seq<T>)
    ensures Sorted(key, SortBy(key, s))
  {
    if s != [] {
      SortIsSorted(key, s[1..]);
      InsertKeepsSorted(key, s[0], SortBy(key, s[1..]));
    }
  }

  /** No two different elements share a key. */
  ghost predicate KeysDetermine<T(!new)>(key: T -> string, s: seq<T>) {
    forall i, j :: 0 <= i < |s| && 0 <= j < |s| && key(s[i]) == key(s[j]) ==> s[i] == s[j]
  }

  lemma HeadsAgree<T(!new)>(key: T -> string, a: seq<T>, b: seq<T>)
    requires multiset(a) == multiset(b) && a != [] && b != []
    requires Sorted(key, a) && Sorted(key, b) && KeysDetermine(key, a)
    ensures a[0] == b[0]
  {
    assert b[0] in multiset(a) && a[0] in multiset(b);
    var i :| 0 <= i < |a| && a[i] == b[0];
    var j :| 0 <= j < |b| && b[j] == a[0];
    LessTotal(key(a[0]), key(a[0]));
    LessTotal(key(b[0]), key(b[0]));
    LessTotal(key(a[0]), key(b[0]));
    assert !Less(key(a[i]), key(a[0]));
    assert !Less(key(b[j]), key(b[0]));
  }

  /** Sorted sequences with the same elements are equal when keys determine elements. */
  lemma {:induction false} SortedIsUnique<T(!new)>(key: T -> string, a: seq<T>, b: seq<T>)
    requires multiset(a) == multiset(b)
    requires Sorted(key, a) && Sorted(key, b) && KeysDetermine(key, a)
    ensures a == b
  {
    assert |multiset(a)| == |a| && |multiset(b)| == |b|;
    if a != [] {
      HeadsAgree(key, a, b);
      assert Sorted(key, a[1..]) && Sorted(key, b[1..]) && KeysDetermine(key, a[1..]);
      hide Sorted, KeysDetermine, Less;
      assert a == [a[0]] + a[1..] && b == [b[0]] + b[1..];
      assert multiset(a[1..]) == multiset(a) - multiset{a[0]};
      assert multiset(b[1..]) == multiset(b) - multiset{b[0]};
      SortedIsUnique(key, a[1..], b[1..]);
    }
  }

  lemma SortIgnoresOrder<T(!new)>(key: T -> string, s: seq<T>, t: seq<T>)
    requires multiset(t) == multiset(s) && KeysDetermine(key, s)
    ensures SortBy(key, t) == SortBy(key, s)
  {
    SortIsSorted(key, s);
    SortIsSorted(key, t);
    var r := SortBy(key, s);
    forall i, j | 0 <= i < |r| && 0 <= j < |r| && key(r[i]) == key(r[j])
      ensures r[i] == r[j]
    {
      assert r[i] in multiset(s) && r[j] in multiset(s);
    }
    SortedIsUnique(key, r, SortBy(key, t));
  }

  /** The elements but two. */
  lemma TwoApart<T>(s: seq<T>, i: nat, j: nat) returns (rest: seq<T>)
    requires i < |s| && j < |s| && i != j
    ensures multiset(s) == multiset{s[i], s[j]} + multiset(rest)
  {
    hide Without;
    var j' := if j < i then j else j - 1;
    WithoutCounts(s, i);
    WithoutCounts(Without(s, i), j');
    rest := Without(Without(s, i), j');
  }

  /** The first index holding the given key. */
  function FirstWith<T>(key: T -> string, k: string, s: seq<T>): nat {
    if s == [] || key(s[0]) == k then 0 else 1 + FirstWith(key, k, s[1..])
  }

  lemma {:induction false} InsertLandsFirst<T(!new)>(key: T -> string, x: T, s: seq<T>)
    requires Sorted(key, s)
    ensures var r := Insert(key, x, s); FirstWith(key, key(x), r) < |r| && r[FirstWith(key, key(x), r)] == x
  {
    if s != [] && Less(key(s[0]), key(x)) {
      LessTotal(key(s[0]), key(x));
      InsertLandsFirst(key, x, s[1..]);
      assert Insert(key, x, s)[1..] == Insert(key, x, s[1..]);
    }
  }

  lemma FirstOfEqualsFirst<T(!new)>(key: T -> string, x: T, y: T, rest: seq<T>)
    requires key(x) == key(y)
    ensures var r := SortBy(key, [x, y] + rest); FirstWith(key, key(x), r) < |r| && r[FirstWith(key, key(x), r)] == x
  {
    var s := [x, y] + rest;
    assert s[1..] == [y] + rest;
    SortIsSorted(key, s[1..]);
    InsertLandsFirst(key, x, SortBy(key, s[1..]));
  }

  lemma SwappedSortsDiffer<T(!new)>(key: T -> string, x: T, y: T, rest: seq<T>)
    requires key(x) == key(y) && x != y
    ensures SortBy(key, [x, y] + rest) != SortBy(key, [y, x] + rest)
    ensures multiset([x, y] + rest) == multiset([y, x] + rest) == multiset{x, y} + multiset(rest)
  {
    hide SortBy, FirstWith;
    FirstOfEqualsFirst(key, x, y, rest);
    FirstOfEqualsFirst(key, y, x, rest);
  }

  /** Two different elements with one key come out in the order they went in. */
  lemma SwapShows<T(!new)>(key: T -> string, s: seq<T>, i: nat, j: nat)
    requires i < |s| && j < |s| && key(s[i]) == key(s[j]) && s[i] != s[j]
    ensures exists t: seq<T> :: multiset(t) == multiset(s) && SortBy(key, t) != SortBy(key, s)
  {
    hide SortBy;
    var rest := TwoApart(s, i, j);
    SwappedSortsDiffer(key, s[i], s[j], rest);
    OneOfTwoDiffers(key, s, [s[i], s[j]] + rest, [s[j], s[i]] + rest);
  }

  lemma OneOfTwoDiffers<T(!new)>(key: T -> string, s: seq<T>, t: seq<T>, u: seq<T>)
    requires multiset(t) == multiset(s) && multiset(u) == multiset(s) && SortBy(key, t) != SortBy(key, u)
    ensures exists v: seq<T> :: multiset(v) == multiset(s) && SortBy(key, v) != SortBy(key, s)
  {
    hide SortBy;
  }

  /** Sorting forgets the order of the input exactly when equal keys mean equal elements:
      otherwise swapping two different elements with one key shows in the output. */
  lemma SortForgetsOrderIff<T(!new)>(key: T -> string, s: seq<T>)
    ensures (forall t: seq<T> :: multiset(t) == multiset(s) ==> SortBy(key, t) == SortBy(key, s)) <==> KeysDetermine(key, s)
  {
    if KeysDetermine(key, s) {
      forall t: seq<T> | multiset(t) == multiset(s)
        ensures SortBy(key, t) == SortBy(key, s)
      {
        SortIgnoresOrder(key, s, t);
      }
    } else {
      var i, j :| 0 <= i < |s| && 0 <= j < |s| && key(s[i]) == key(s[j]) && s[i] != s[j];
      SwapShows(key, s, i, j);
    }
  }

}
