/**
 * A model of Python's collections.Counter as the analysis code uses it:
 * occurrence counts, keys in order of first appearance, and most_common(),
 * which orders the keys by non-increasing count and keeps first-appearance
 * order among equal counts (Python's sort is stable).
 */
module Counter {

  /** Number of occurrences of x in xs. */
  function Count<T(==,!new)>(xs: seq<T>, x: T): nat
  {
    if xs == [] then 0
    else Count(xs[..|xs| - 1], x) + (if xs[|xs| - 1] == x then 1 else 0)
  }

  lemma {:induction false} CountPositive<T(!new)>(xs: seq<T>, x: T)
    ensures Count(xs, x) > 0 <==> x in xs
  {
    if xs != [] {
      CountPositive(xs[..|xs| - 1], x);
      assert xs == xs[..|xs| - 1] + [xs[|xs| - 1]];
    }
  }

  lemma {:induction false} CountAppend<T(!new)>(xs: seq<T>, x: T, y: T)
    ensures Count(xs + [y], x) == Count(xs, x) + (if y == x then 1 else 0)
  {
    assert (xs + [y])[..|xs|] == xs;
  }

  /** Index of the first occurrence of x in xs. */
  function FirstIndex<T(==,!new)>(xs: seq<T>, x: T): (i: nat)
    requires x in xs
    ensures i < |xs| && xs[i] == x && x !in xs[..i]
  {
    if xs[0] == x then 0 else 1 + FirstIndex(xs[1..], x)
  }

  predicate NoDuplicates<T(==,!new)>(s: seq<T>)
  {
    forall i, j :: 0 <= i < j < |s| ==> s[i] != s[j]
  }

  /** The distinct elements of xs, in order of first appearance (a Counter's key order). */
  function Distinct<T(==,!new)>(xs: seq<T>): (d: seq<T>)
    ensures NoDuplicates(d)
    ensures forall x :: x in d <==> x in xs
  {
    if xs == [] then []
    else
      var init, last := xs[..|xs| - 1], xs[|xs| - 1];
      assert xs == init + [last];
      if last in init then Distinct(init) else Distinct(init) + [last]
  }

  /**
   * The order most_common() produces: a before b when a occurs more often,
   * or equally often and appears first.
   */
  predicate RanksBefore<T(==,!new)>(xs: seq<T>, a: T, b: T)
    requires a in xs && b in xs
  {
    Count(xs, a) > Count(xs, b)
    || (Count(xs, a) == Count(xs, b) && FirstIndex(xs, a) < FirstIndex(xs, b))
  }

  lemma RanksBeforeTotal<T(!new)>(xs: seq<T>, a: T, b: T)
    requires a in xs && b in xs && a != b
    ensures RanksBefore(xs, a, b) || RanksBefore(xs, b, a)
  {
    var i, j := FirstIndex(xs, a), FirstIndex(xs, b);
    assert xs[i] == a && xs[j] == b;
  }

  predicate InElements<T(==,!new)>(xs: seq<T>, s: seq<T>)
  {
    forall i :: 0 <= i < |s| ==> s[i] in xs
  }

  predicate Ranked<T(==,!new)>(xs: seq<T>, s: seq<T>)
    requires InElements(xs, s)
  {
    forall i, j :: 0 <= i < j < |s| ==> RanksBefore(xs, s[i], s[j])
  }

  /** Inserts p into s in front of the first element that p ranks before. */
  function Insert<T(==,!new)>(xs: seq<T>, p: T, s: seq<T>): (r: seq<T>)
    requires p in xs && InElements(xs, s)
    ensures |r| == |s| + 1 && InElements(xs, r)
    ensures forall x :: x in r <==> x == p || x in s
  {
    if s == [] then [p]
    else if RanksBefore(xs, p, s[0]) then [p] + s
    else [s[0]] + Insert(xs, p, s[1..])
  }

  lemma {:induction false} InsertRanked<T(!new)>(xs: seq<T>, p: T, s: seq<T>)
    requires p in xs && InElements(xs, s) && Ranked(xs, s) && p !in s
    ensures Ranked(xs, Insert(xs, p, s))
  {
    if s == [] {
    } else if RanksBefore(xs, p, s[0]) {
      var r := [p] + s;
      forall i, j | 0 <= i < j < |r| ensures RanksBefore(xs, r[i], r[j]) {
        if i == 0 && j > 1 {
          assert RanksBefore(xs, s[0], s[j - 1]);
        }
      }
    } else {
      RanksBeforeTotal(xs, p, s[0]);
      InsertRanked(xs, p, s[1..]);
      var rest := Insert(xs, p, s[1..]);
      var r := [s[0]] + rest;
      forall i, j | 0 <= i < j < |r| ensures RanksBefore(xs, r[i], r[j]) {
        if i == 0 {
          assert r[j] in rest;
          if r[j] != p {
            var k :| 0 <= k < |s[1..]| && s[1..][k] == r[j];
            assert RanksBefore(xs, s[0], s[k + 1]);
          }
        } else {
          assert r[i] == rest[i - 1] && r[j] == rest[j - 1];
        }
      }
    }
  }

  /** Insertion sort of s by the most_common() order. */
  function Rank<T(==,!new)>(xs: seq<T>, s: seq<T>): (r: seq<T>)
    requires InElements(xs, s)
    ensures |r| == |s| && InElements(xs, r)
    ensures forall x :: x in r <==> x in s
  {
    if s == [] then [] else Insert(xs, s[0], Rank(xs, s[1..]))
  }

  lemma {:induction false} RankRanked<T(!new)>(xs: seq<T>, s: seq<T>)
    requires InElements(xs, s) && NoDuplicates(s)
    ensures Ranked(xs, Rank(xs, s))
  {
    if s != [] {
      RankRanked(xs, s[1..]);
      InsertRanked(xs, s[0], Rank(xs, s[1..]));
    }
  }

  /** Counter(xs).most_common(): every distinct element with its count, best first. */
  function MostCommon<T(==,!new)>(xs: seq<T>): (r: seq<(T, nat)>)
    ensures |r| == |Distinct(xs)| && (|r| == 0 <==> xs == [])
    ensures forall i :: 0 <= i < |r| ==> r[i].0 in xs && r[i].1 == Count(xs, r[i].0)
  {
    var d := Distinct(xs);
    var s := Rank(xs, d);
    assert xs != [] ==> xs[0] in d;
    seq(|s|, i requires 0 <= i < |s| => (s[i], Count(xs, s[i])))
  }

  /** Sum of the counts of a ranking. */
  function TotalCount<T>(r: seq<(T, nat)>): nat
  {
    if r == [] then 0 else TotalCount(r[..|r| - 1]) + r[|r| - 1].1
  }

  /** Sum over the elements of l of their counts in xs. */
  function SumCounts<T(==,!new)>(xs: seq<T>, l: seq<T>): nat
  {
    if l == [] then 0 else SumCounts(xs, l[..|l| - 1]) + Count(xs, l[|l| - 1])
  }

  lemma {:induction false} SumCountsAppend<T(!new)>(ys: seq<T>, y: T, l: seq<T>)
    ensures SumCounts(ys + [y], l) == SumCounts(ys, l) + Count(l, y)
  {
    if l != [] {
      SumCountsAppend(ys, y, l[..|l| - 1]);
      CountAppend(ys, l[|l| - 1], y);
    }
  }

  lemma {:induction false} CountNoDuplicates<T(!new)>(l: seq<T>, x: T)
    requires NoDuplicates(l)
    ensures Count(l, x) == if x in l then 1 else 0
  {
    if l != [] {
      var init := l[..|l| - 1];
      CountNoDuplicates(init, x);
      assert l == init + [l[|l| - 1]];
    }
  }

  /**
   * Summing the counts over a duplicate-free list that covers every element
   * of xs gives the length of xs.
   */
  lemma {:induction false} SumCountsCover<T(!new)>(xs: seq<T>, l: seq<T>)
    requires NoDuplicates(l)
    requires forall x :: x in xs ==> x in l
    ensures SumCounts(xs, l) == |xs|
  {
    if xs == [] {
      SumCountsZero(l);
    } else {
      var ys, y := xs[..|xs| - 1], xs[|xs| - 1];
      assert xs == ys + [y];
      SumCountsCover(ys, l);
      SumCountsAppend(ys, y, l);
      CountNoDuplicates(l, y);
    }
  }

  lemma {:induction false} SumCountsZero<T(!new)>(l: seq<T>)
    ensures SumCounts([], l) == 0
  {
    if l != [] {
      SumCountsZero(l[..|l| - 1]);
    }
  }

  lemma {:induction false} TotalCountOfCounts<T(!new)>(xs: seq<T>, s: seq<T>)
    ensures TotalCount(seq(|s|, i requires 0 <= i < |s| => (s[i], Count(xs, s[i])))) == SumCounts(xs, s)
  {
    if s != [] {
      var init := s[..|s| - 1];
      TotalCountOfCounts(xs, init);
      var r := seq(|s|, i requires 0 <= i < |s| => (s[i], Count(xs, s[i])));
      assert r[..|r| - 1] == seq(|init|, i requires 0 <= i < |init| => (init[i], Count(xs, init[i])));
    }
  }

  /** most_common() lists each distinct element once, with its count. */
  lemma MostCommonElements<T(!new)>(xs: seq<T>)
    ensures var r := MostCommon(xs);
      && (forall i :: 0 <= i < |r| ==> r[i].0 in xs && r[i].1 == Count(xs, r[i].0) && r[i].1 > 0)
      && (forall x :: x in xs ==> exists i :: 0 <= i < |r| && r[i].0 == x)
      && (forall i, j :: 0 <= i < j < |r| ==> r[i].0 != r[j].0)
      && (|r| == 0 <==> xs == [])
  {
    MostCommonPairs(xs);
    RankOfDistinct(xs);
    PairsOfKeys(xs, Rank(xs, Distinct(xs)), MostCommon(xs));
  }

  /** Pairing each key of a duplicate-free cover of xs with its count lists each element once. */
  lemma PairsOfKeys<T(!new)>(xs: seq<T>, s: seq<T>, r: seq<(T, nat)>)
    requires InElements(xs, s) && NoDuplicates(s) && forall x :: x in xs ==> x in s
    requires |r| == |s| && forall i :: 0 <= i < |s| ==> r[i] == (s[i], Count(xs, s[i]))
    ensures forall i :: 0 <= i < |r| ==> r[i].0 in xs && r[i].1 == Count(xs, r[i].0) && r[i].1 > 0
    ensures forall x :: x in xs ==> exists i :: 0 <= i < |r| && r[i].0 == x
    ensures forall i, j :: 0 <= i < j < |r| ==> r[i].0 != r[j].0
    ensures |r| == 0 <==> xs == []
  {
    forall i | 0 <= i < |r| ensures r[i].0 in xs && r[i].1 == Count(xs, r[i].0) && r[i].1 > 0 {
      CountPositive(xs, s[i]);
    }
    forall x | x in xs ensures exists i :: 0 <= i < |r| && r[i].0 == x {
      var i :| 0 <= i < |s| && s[i] == x;
      assert r[i].0 == x;
    }
    if xs != [] {
      assert xs[0] in s;
    }
    if s != [] {
      assert s[0] in xs;
    }
  }

  /** The pairs of most_common(): each key of the ranking with its count. */
  lemma MostCommonPairs<T(!new)>(xs: seq<T>)
    ensures var s := Rank(xs, Distinct(xs));
      |MostCommon(xs)| == |s| && forall i :: 0 <= i < |s| ==> MostCommon(xs)[i] == (s[i], Count(xs, s[i]))
  {
  }

  /** The ranking of the distinct keys holds each element of xs exactly once. */
  lemma RankOfDistinct<T(!new)>(xs: seq<T>)
    ensures var s := Rank(xs, Distinct(xs));
      && InElements(xs, s) && Ranked(xs, s) && NoDuplicates(s)
      && forall x :: x in xs ==> x in s
  {
    var d := Distinct(xs);
    var s := Rank(xs, d);
    RankRanked(xs, d);
    forall i, j | 0 <= i < j < |s| ensures s[i] != s[j] {
      assert RanksBefore(xs, s[i], s[j]);
    }
  }

  /**
   * most_common() orders by non-increasing count, equal counts in order of
   * first appearance.
   */
  lemma MostCommonOrder<T(!new)>(xs: seq<T>)
    ensures var r := MostCommon(xs);
      && (forall i :: 0 <= i < |r| ==> r[i].0 in xs)
      && (forall i, j :: 0 <= i < j < |r| ==> r[i].1 >= r[j].1)
      && (forall i, j :: 0 <= i < j < |r| && r[i].1 == r[j].1 ==>
            FirstIndex(xs, r[i].0) < FirstIndex(xs, r[j].0))
  {
    var d := Distinct(xs);
    var s := Rank(xs, d);
    var r := MostCommon(xs);
    RankRanked(xs, d);
    forall i, j | 0 <= i < j < |r| ensures r[i].1 >= r[j].1 {
      assert RanksBefore(xs, s[i], s[j]);
    }
    forall i, j | 0 <= i < j < |r| && r[i].1 == r[j].1
      ensures FirstIndex(xs, r[i].0) < FirstIndex(xs, r[j].0)
    {
      assert RanksBefore(xs, s[i], s[j]);
    }
  }

  /** The counts of most_common() add up to the number of elements counted. */
  lemma MostCommonTotal<T(!new)>(xs: seq<T>)
    ensures TotalCount(MostCommon(xs)) == |xs|
  {
    var d := Distinct(xs);
    var s := Rank(xs, d);
    RankRanked(xs, d);
    forall i, j | 0 <= i < j < |s| ensures s[i] != s[j] {
      assert RanksBefore(xs, s[i], s[j]);
    }
    TotalCountOfCounts(xs, s);
    SumCountsCover(xs, s);
  }

  /** most_common(1)[0][0]: an element of maximal count, the first one seen among ties. */
  function Mode<T(==,!new)>(xs: seq<T>): (m: T)
    requires xs != []
    ensures m in xs
    ensures forall x :: x in xs ==> Count(xs, x) <= Count(xs, m)
    ensures forall x :: x in xs && Count(xs, x) == Count(xs, m) ==> FirstIndex(xs, m) <= FirstIndex(xs, x)
  {
    MostCommonElements(xs);
    MostCommonOrder(xs);
    var r := MostCommon(xs);
    var m := r[0].0;
    assert forall x :: x in xs ==> Count(xs, x) <= Count(xs, m) && (Count(xs, x) == Count(xs, m) ==> FirstIndex(xs, m) <= FirstIndex(xs, x)) by {
      forall x | x in xs ensures Count(xs, x) <= Count(xs, m) && (Count(xs, x) == Count(xs, m) ==> FirstIndex(xs, m) <= FirstIndex(xs, x)) {
        var i :| 0 <= i < |r| && r[i].0 == x;
        if i > 0 {
          assert r[0].1 >= r[i].1;
        }
      }
    }
    m
  }

  /** 0, 1, ..., n-1. */
  function Range(n: nat): (r: seq<int>)
    ensures |r| == n && forall i :: 0 <= i < n ==> r[i] == i
  {
    if n == 0 then [] else Range(n - 1) + [n - 1]
  }

  /** The counts of 0 .. k-1 in a list of values below k add up to its length. */
  lemma SumCountsOverRange(xs: seq<int>, k: nat)
    requires forall i :: 0 <= i < |xs| ==> 0 <= xs[i] < k
    ensures SumCounts(xs, Range(k)) == |xs|
  {
    var r := Range(k);
    assert NoDuplicates(r);
    assert forall x :: x in xs ==> x in r by {
      forall x | x in xs ensures x in r {
        assert r[x] == x;
      }
    }
    SumCountsCover(xs, r);
  }
}
