/**
 Ranking of the enumerated combinations: a stable sort by ascending
 remaining length (the comparator `a.remainingLength - b.remainingLength`),
 then the first three.
 */
module Ranking {
  import opened Combinations

  const MaxResults: nat := 3

  predicate SortedByRemaining(s: seq<Combination>)
  {
    forall i, j :: 0 <= i < j < |s| ==> s[i].remainingLength <= s[j].remainingLength
  }

  lemma SortedTail(s: seq<Combination>)
    requires |s| > 0 && SortedByRemaining(s)
    ensures SortedByRemaining(s[1..])
    ensures forall y :: y in s[1..] ==> s[0].remainingLength <= y.remainingLength
  {
    forall y | y in s[1..]
      ensures s[0].remainingLength <= y.remainingLength
    {
      var k :| 0 <= k < |s[1..]| && s[1..][k] == y;
      assert s[k + 1] == y;
    }
  }

  lemma SortedCons(h: Combination, rest: seq<Combination>)
    requires SortedByRemaining(rest)
    requires forall y :: y in rest ==> h.remainingLength <= y.remainingLength
    ensures SortedByRemaining([h] + rest)
  {
    forall i, j | 0 <= i < j < |[h] + rest|
      ensures ([h] + rest)[i].remainingLength <= ([h] + rest)[j].remainingLength
    {
      assert ([h] + rest)[j] == rest[j - 1];
      assert rest[j - 1] in rest;
      if i > 0 {
        assert ([h] + rest)[i] == rest[i - 1];
      }
    }
  }

  /** Places x before the first element that does not leave less over, so x
      stays ahead of the equally ranked elements that came after it. */
  function Insert(x: Combination, s: seq<Combination>): (r: seq<Combination>)
    requires SortedByRemaining(s)
    ensures forall y :: y in r ==> y == x || y in s
    ensures multiset(r) == multiset(s) + multiset{x}
    ensures SortedByRemaining(r)
  {
    if |s| == 0 then [x]
    else if x.remainingLength <= s[0].remainingLength then
      SortedCons(x, s);
      [x] + s
    else
      SortedTail(s);
      var rest := Insert(x, s[1..]);
      assert s == [s[0]] + s[1..];
      SortedCons(s[0], rest);
      [s[0]] + rest
  }

  /** Stable insertion sort by remaining length. */
  function Sort(s: seq<Combination>): (r: seq<Combination>)
    ensures multiset(r) == multiset(s)
    ensures SortedByRemaining(r)
  {
    if |s| == 0 then []
    else
      assert s == [s[0]] + s[1..];
      Insert(s[0], Sort(s[1..]))
  }

  /** Among elements that leave the same length over, every pair is related
      by R in the order they appear. */
  ghost predicate TiesOrdered(s: seq<Combination>, R: (Combination, Combination) -> bool)
  {
    forall i, j :: 0 <= i < j < |s| && s[i].remainingLength == s[j].remainingLength ==> R(s[i], s[j])
  }

  lemma {:induction false} InsertKeepsTies(x: Combination, s: seq<Combination>, R: (Combination, Combination) -> bool)
    requires SortedByRemaining(s) && TiesOrdered(s, R)
    requires forall y :: y in s && y.remainingLength == x.remainingLength ==> R(x, y)
    ensures TiesOrdered(Insert(x, s), R)
    decreases |s|
  {
    if |s| > 0 && x.remainingLength > s[0].remainingLength {
      var tail := s[1..];
      assert SortedByRemaining(tail) by {
        forall i, j | 0 <= i < j < |tail|
          ensures tail[i].remainingLength <= tail[j].remainingLength
        {
          assert tail[i] == s[i + 1] && tail[j] == s[j + 1];
        }
      }
      assert TiesOrdered(tail, R) by {
        forall i, j | 0 <= i < j < |tail| && tail[i].remainingLength == tail[j].remainingLength
          ensures R(tail[i], tail[j])
        {
          assert tail[i] == s[i + 1] && tail[j] == s[j + 1];
        }
      }
      var rest := Insert(x, tail);
      InsertKeepsTies(x, tail, R);
      var r := Insert(x, s);
      assert r == [s[0]] + rest;
      forall i, j | 0 <= i < j < |r| && r[i].remainingLength == r[j].remainingLength
        ensures R(r[i], r[j])
      {
        if i == 0 {
          TieWithHead(x, s, R, rest, r[j]);
        } else {
          assert r[i] == rest[i - 1] && r[j] == rest[j - 1];
        }
      }
    }
  }

  /** An element inserted behind the head that ties with the head is one of
      the original elements, so the head's ties hold for it. */
  lemma TieWithHead(x: Combination, s: seq<Combination>, R: (Combination, Combination) -> bool,
                    rest: seq<Combination>, y: Combination)
    requires |s| > 0 && TiesOrdered(s, R) && x.remainingLength > s[0].remainingLength
    requires forall z :: z in rest ==> z == x || z in s[1..]
    requires y in rest && y.remainingLength == s[0].remainingLength
    ensures R(s[0], y)
  {
    assert y != x;
    var k :| 0 <= k < |s[1..]| && s[1..][k] == y;
    assert s[k + 1] == y;
  }

  /**
   The sort is stable: any relation that holds between equally ranked
   elements in input order still holds between them in output order.
   */
  lemma {:induction false} SortIsStable(s: seq<Combination>, R: (Combination, Combination) -> bool)
    requires TiesOrdered(s, R)
    ensures TiesOrdered(Sort(s), R)
    decreases |s|
  {
    if |s| > 0 {
      var tail := Sort(s[1..]);
      assert TiesOrdered(s[1..], R) by {
        forall i, j | 0 <= i < j < |s[1..]| && s[1..][i].remainingLength == s[1..][j].remainingLength
          ensures R(s[1..][i], s[1..][j])
        {
          assert s[1..][i] == s[i + 1] && s[1..][j] == s[j + 1];
        }
      }
      SortIsStable(s[1..], R);
      forall y | y in tail && y.remainingLength == s[0].remainingLength
        ensures R(s[0], y)
      {
        assert y in multiset(s[1..]);
        var k :| 0 <= k < |s[1..]| && s[1..][k] == y;
        assert s[k + 1] == y;
      }
      InsertKeepsTies(s[0], tail, R);
    }
  }

  /** The first n elements of a sorted permutation of `all` are sorted,
      drawn from `all`, and leave no more over than anything left out. */
  lemma TakeBest(all: seq<Combination>, sorted: seq<Combination>, n: nat)
    requires multiset(sorted) == multiset(all) && SortedByRemaining(sorted) && n <= |sorted|
    ensures |sorted| == |all|
    ensures SortedByRemaining(sorted[..n])
    ensures multiset(sorted[..n]) <= multiset(all)
    ensures forall c :: c in all ==> c in sorted[..n] || forall d :: d in sorted[..n] ==> d.remainingLength <= c.remainingLength
  {
    assert |multiset(sorted)| == |multiset(all)|;
    var prefix := sorted[..n];
    assert sorted == prefix + sorted[n..];
    assert multiset(sorted) == multiset(prefix) + multiset(sorted[n..]);
    forall c | c in all && c !in prefix
      ensures forall d :: d in prefix ==> d.remainingLength <= c.remainingLength
    {
      assert c in multiset(all);
      var j :| 0 <= j < |sorted| && sorted[j] == c;
      forall d | d in prefix
        ensures d.remainingLength <= c.remainingLength
      {
        var i :| 0 <= i < n && prefix[i] == d;
        assert sorted[i] == d;
      }
    }
  }

  /**
   The ranked result: the first min(3, n) elements of the sorted list. It is
   sorted, drawn from the input, and nothing left out leaves less over than
   anything kept.
   */
  function Ranked(all: seq<Combination>): (r: seq<Combination>)
    ensures |r| == if |all| < MaxResults then |all| else MaxResults
    ensures SortedByRemaining(r)
    ensures multiset(r) <= multiset(all)
    ensures forall c :: c in all ==> c in r || forall d :: d in r ==> d.remainingLength <= c.remainingLength
  {
    var sorted := Sort(all);
    var n := if |sorted| < MaxResults then |sorted| else MaxResults;
    TakeBest(all, sorted, n);
    sorted[..n]
  }

  /** A prefix of a list whose ties are ordered by R keeps them ordered, and
      its elements come before the equally ranked elements left out. */
  lemma PrefixKeepsTies(sorted: seq<Combination>, n: nat, R: (Combination, Combination) -> bool)
    requires TiesOrdered(sorted, R) && n <= |sorted|
    ensures TiesOrdered(sorted[..n], R)
    ensures forall c, d ::
      (c in sorted && c !in sorted[..n] && d in sorted[..n] && d.remainingLength == c.remainingLength) ==> R(d, c)
  {
    var prefix := sorted[..n];
    forall i, j | 0 <= i < j < n && prefix[i].remainingLength == prefix[j].remainingLength
      ensures R(prefix[i], prefix[j])
    {
      assert prefix[i] == sorted[i] && prefix[j] == sorted[j];
    }
    forall c, d | c in sorted && c !in prefix && d in prefix && d.remainingLength == c.remainingLength
      ensures R(d, c)
    {
      var j :| 0 <= j < |sorted| && sorted[j] == c;
      forall k | 0 <= k < n
        ensures sorted[k] != c
      {
        assert prefix[k] == sorted[k];
      }
      var i :| 0 <= i < n && prefix[i] == d;
      assert sorted[i] == d && i < n <= j;
    }
  }

  /**
   Truncation respects ties: a relation that holds between equally ranked
   elements in input order holds between the kept ones in output order, and
   between every kept element and each equally ranked element that was cut.
   */
  lemma RankedKeepsTies(all: seq<Combination>, R: (Combination, Combination) -> bool)
    requires TiesOrdered(all, R)
    ensures TiesOrdered(Ranked(all), R)
    ensures forall c, d ::
      (c in all && c !in Ranked(all) && d in Ranked(all) && d.remainingLength == c.remainingLength) ==> R(d, c)
  {
    var sorted := Sort(all);
    SortIsStable(all, R);
    var best := Ranked(all);
    assert best == sorted[..|best|];
    PrefixKeepsTies(sorted, |best|, R);
    forall c | c in all
      ensures c in sorted
    {
      assert c in multiset(all);
    }
  }
}
