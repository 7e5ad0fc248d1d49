/**
  The median of the fast path (core/consensus/fastpath.go:121-131): the collected times are
  listed in map order, sorted in place, and the element at index n/2 is taken.
 */
module Median {
  import opened Sorting
  import opened Collections

  /** The servers whose time is at most (below) x. */
  function AtMost(times: map<string, int>, x: int): set<string> {
    set id | id in times && times[id] <= x
  }

  function Below(times: map<string, int>, x: int): set<string> {
    set id | id in times && times[id] < x
  }

  /**
    x is the upper median: it is one of the times, at most n/2 times lie below it and more
    than n/2 are at most it. No order of the servers is involved.
   */
  ghost predicate IsMedian(times: map<string, int>, x: int) {
    && (exists id :: id in times && times[id] == x)
    && |Below(times, x)| <= |times| / 2 < |AtMost(times, x)|
  }

  lemma MedianUnique(times: map<string, int>, x: int, y: int)
    requires IsMedian(times, x) && IsMedian(times, y)
    ensures x == y
  {
    if x < y {
      SubsetSize(AtMost(times, x), Below(times, y));
    } else if y < x {
      SubsetSize(AtMost(times, y), Below(times, x));
    }
  }

  /**
    With fewer than half of the collected times faulty, the median lies between the times of
    two servers that are not faulty.
   */
  lemma MedianRobust(times: map<string, int>, x: int, faulty: set<string>) returns (lo: string, hi: string)
    requires IsMedian(times, x) && 2 * |faulty| < |times|
    ensures lo in times && lo !in faulty && hi in times && hi !in faulty
    ensures times[lo] <= x <= times[hi]
  {
    lo := Outside(AtMost(times, x), faulty);
    var above := times.Keys - Below(times, x);
    assert |above| == |times.Keys| - |Below(times, x)| by {
      assert Below(times, x) <= times.Keys;
    }
    hi := Outside(above, faulty);
  }

  lemma Outside(large: set<string>, small: set<string>) returns (x: string)
    requires |large| > |small|
    ensures x in large && x !in small
  {
    if large <= small {
      SubsetSize(large, small);
      assert false;
    }
    x :| x in large && x !in small;
  }

  // ---------- counting in sequences ----------

  function CountAtMost(s: seq<int>, x: int): nat {
    if s == [] then 0
    else CountAtMost(s[..|s| - 1], x) + if s[|s| - 1] <= x then 1 else 0
  }

  lemma {:induction false} CountAppend(s: seq<int>, t: seq<int>, x: int)
    ensures CountAtMost(s + t, x) == CountAtMost(s, x) + CountAtMost(t, x)
  {
    if t == [] {
      assert s + t == s;
    } else {
      assert (s + t)[..|s + t| - 1] == s + t[..|t| - 1];
      CountAppend(s, t[..|t| - 1], x);
    }
  }

  lemma {:induction false} CountPermuted(s: seq<int>, t: seq<int>, x: int)
    requires multiset(s) == multiset(t)
    ensures |s| == |t| && CountAtMost(s, x) == CountAtMost(t, x)
  {
    assert |s| == |multiset(s)| == |multiset(t)| == |t|;
    if s != [] {
      var last := s[|s| - 1];
      assert last in multiset(t);
      var k :| 0 <= k < |t| && t[k] == last;
      var front := s[..|s| - 1];
      assert s == front + [last];
      assert t == t[..k] + [last] + t[k + 1..];
      assert multiset(s) == multiset(front) + multiset{last};
      assert multiset(t) == multiset(t[..k]) + multiset{last} + multiset(t[k + 1..]);
      var others := t[..k] + t[k + 1..];
      assert multiset(others) == multiset(t[..k]) + multiset(t[k + 1..]);
      assert multiset(front) + multiset{last} == multiset(others) + multiset{last};
      assert multiset(front) == (multiset(front) + multiset{last}) - multiset{last};
      assert multiset(others) == (multiset(others) + multiset{last}) - multiset{last};
      CountPermuted(front, t[..k] + t[k + 1..], x);
      CountAppend(t[..k], t[k + 1..], x);
      CountAppend(t[..k] + [last], t[k + 1..], x);
      CountAppend(t[..k], [last], x);
    }
  }

  /** In a sorted sequence the element at index m has more than m elements at most it. */
  lemma {:induction false} CountSorted(s: seq<int>, m: nat, x: int)
    requires forall i, j :: 0 <= i < j < |s| ==> s[i] <= s[j]
    requires m < |s|
    ensures x >= s[m] ==> CountAtMost(s, x) >= m + 1
    ensures x < s[m] ==> CountAtMost(s, x) <= m
  {
    var n := |s| - 1;
    if m < n {
      CountSorted(s[..n], m, x);
    } else {
      CountBound(s[..n], x);
      if x >= s[m] {
        CountAll(s[..n], x);
      }
    }
  }

  lemma {:induction false} CountBound(s: seq<int>, x: int)
    ensures CountAtMost(s, x) <= |s|
  {
    if s != [] {
      CountBound(s[..|s| - 1], x);
    }
  }

  lemma {:induction false} CountAll(s: seq<int>, x: int)
    requires forall i :: 0 <= i < |s| ==> s[i] <= x
    ensures CountAtMost(s, x) == |s|
  {
    if s != [] {
      CountAll(s[..|s| - 1], x);
    }
  }

  /** The times of the listed servers, in that order. */
  function Listed(order: seq<string>, times: map<string, int>): (r: seq<int>)
    requires forall id :: id in order ==> id in times
    ensures |r| == |order| && forall i :: 0 <= i < |r| ==> r[i] == times[order[i]]
  {
    if order == [] then []
    else Listed(order[..|order| - 1], times) + [times[order[|order| - 1]]]
  }

  /** The listed servers whose time is at most x. */
  function ListedAtMost(order: seq<string>, times: map<string, int>, x: int): set<string> {
    set id | id in order && id in times && times[id] <= x
  }

  /** Counting over a listing without repetition counts the servers listed. */
  lemma {:induction false} CountListed(order: seq<string>, times: map<string, int>, x: int)
    requires Distinct(order) && forall id :: id in order ==> id in times
    ensures CountAtMost(Listed(order, times), x) == |ListedAtMost(order, times, x)|
  {
    if order == [] {
      assert ListedAtMost(order, times, x) == {};
    } else {
      var n := |order| - 1;
      var front := order[..n];
      assert order == front + [order[n]] && order[n] !in front;
      CountListed(front, times, x);
      ListedExtends(front, order[n], times, x);
      CountExtends(front, order[n], times, x);
    }
  }

  lemma CountExtends(front: seq<string>, last: string, times: map<string, int>, x: int)
    requires last in times && forall id :: id in front ==> id in times
    ensures CountAtMost(Listed(front + [last], times), x)
         == CountAtMost(Listed(front, times), x) + if times[last] <= x then 1 else 0
  {
    assert (front + [last])[..|front|] == front;
    assert (Listed(front, times) + [times[last]])[..|front|] == Listed(front, times);
  }

  lemma ListedExtends(front: seq<string>, last: string, times: map<string, int>, x: int)
    requires last !in front && last in times
    ensures |ListedAtMost(front + [last], times, x)| == |ListedAtMost(front, times, x)| + if times[last] <= x then 1 else 0
  {
    var before := ListedAtMost(front, times, x);
    if times[last] <= x {
      assert ListedAtMost(front + [last], times, x) == before + {last};
    } else {
      assert ListedAtMost(front + [last], times, x) == before;
    }
  }

  /** A sorted listing of all the times has the median at index n/2. */
  lemma MiddleIsMedian(order: seq<string>, times: map<string, int>, sorted: seq<int>)
    requires Distinct(order) && (forall id :: id in order <==> id in times) && |order| == |times| > 0
    requires multiset(sorted) == multiset(Listed(order, times))
    requires forall i, j :: 0 <= i < j < |sorted| ==> sorted[i] <= sorted[j]
    ensures |sorted| == |times| && IsMedian(times, sorted[|sorted| / 2])
  {
    CountPermuted(sorted, Listed(order, times), 0);
    var m := |sorted| / 2;
    var x := sorted[m];
    TimeOfListed(order, times, sorted, x);
    CountSorted(sorted, m, x);
    CountRearranged(order, times, sorted, x);
    CountSorted(sorted, m, x - 1);
    CountRearranged(order, times, sorted, x - 1);
    FullListing(order, times, x);
  }

  lemma FullListing(order: seq<string>, times: map<string, int>, x: int)
    requires forall id :: id in order <==> id in times
    ensures AtMost(times, x) == ListedAtMost(order, times, x)
    ensures Below(times, x) == ListedAtMost(order, times, x - 1)
  {
  }

  lemma CountRearranged(order: seq<string>, times: map<string, int>, sorted: seq<int>, x: int)
    requires Distinct(order) && forall id :: id in order ==> id in times
    requires multiset(sorted) == multiset(Listed(order, times))
    ensures CountAtMost(sorted, x) == |ListedAtMost(order, times, x)|
  {
    CountPermuted(sorted, Listed(order, times), x);
    CountListed(order, times, x);
  }

  lemma TimeOfListed(order: seq<string>, times: map<string, int>, sorted: seq<int>, x: int)
    requires forall id :: id in order ==> id in times
    requires multiset(sorted) == multiset(Listed(order, times))
    requires x in sorted
    ensures exists id :: id in times && times[id] == x
  {
    var vals := Listed(order, times);
    assert x in multiset(sorted);
    var k :| 0 <= k < |vals| && vals[k] == x;
    assert times[order[k]] == x;
  }

  /**
    The median depends only on the multiset of times: two collections whose listings are
    permutations of each other, whoever sent which time, have the same median.
   */
  lemma MedianOfMultiset(a: map<string, int>, b: map<string, int>, orderA: seq<string>, orderB: seq<string>, x: int)
    requires Distinct(orderA) && (forall id :: id in orderA <==> id in a) && |orderA| == |a| > 0
    requires Distinct(orderB) && (forall id :: id in orderB <==> id in b) && |orderB| == |b|
    requires multiset(Listed(orderA, a)) == multiset(Listed(orderB, b))
    ensures IsMedian(a, x) <==> IsMedian(b, x)
  {
    MedianCarriesOver(a, b, orderA, orderB, x);
    MedianCarriesOver(b, a, orderB, orderA, x);
  }

  lemma MedianCarriesOver(a: map<string, int>, b: map<string, int>, orderA: seq<string>, orderB: seq<string>, x: int)
    requires Distinct(orderA) && (forall id :: id in orderA <==> id in a) && |orderA| == |a|
    requires Distinct(orderB) && (forall id :: id in orderB <==> id in b) && |orderB| == |b|
    requires multiset(Listed(orderA, a)) == multiset(Listed(orderB, b))
    ensures IsMedian(a, x) ==> IsMedian(b, x)
  {
    if IsMedian(a, x) {
      ListedTime(orderA, a, x);
      TimeOfListed(orderB, b, Listed(orderA, a), x);
      CountPermuted(Listed(orderA, a), Listed(orderB, b), 0);
      SameCounts(a, b, orderA, orderB, x);
    }
  }

  lemma SameCounts(a: map<string, int>, b: map<string, int>, orderA: seq<string>, orderB: seq<string>, x: int)
    requires Distinct(orderA) && forall id :: id in orderA <==> id in a
    requires Distinct(orderB) && forall id :: id in orderB <==> id in b
    requires multiset(Listed(orderA, a)) == multiset(Listed(orderB, b))
    ensures |AtMost(a, x)| == |AtMost(b, x)| && |Below(a, x)| == |Below(b, x)|
  {
    FullListing(orderA, a, x);
    FullListing(orderB, b, x);
    forall y | x - 1 <= y <= x
      ensures |ListedAtMost(orderA, a, y)| == |ListedAtMost(orderB, b, y)|
    {
      CountListed(orderA, a, y);
      CountRearranged(orderB, b, Listed(orderA, a), y);
    }
  }

  lemma ListedTime(order: seq<string>, times: map<string, int>, x: int)
    requires forall id :: id in order <==> id in times
    requires exists id :: id in times && times[id] == x
    ensures x in Listed(order, times)
  {
    var id :| id in times && times[id] == x;
    var k :| 0 <= k < |order| && order[k] == id;
    assert Listed(order, times)[k] == x;
  }

  /** Lists the times in map order, sorts them in place and returns the middle one. */
  method MedianTime(times: map<string, int>) returns (median: int)
    requires |times| > 0
    ensures IsMedian(times, median)
  {
    var order: seq<string> := [];
    var allTimestamps: seq<int> := [];
    var rest := times.Keys;
    while rest != {}
      invariant rest <= times.Keys
      invariant Distinct(order) && forall id :: id in order <==> id in times.Keys - rest
      invariant |order| + |rest| == |times.Keys|
      invariant (forall id :: id in order ==> id in times) && allTimestamps == Listed(order, times)
      decreases |rest|
    {
      var id :| id in rest;
      assert id !in order;
      assert (order + [id])[..|order|] == order;
      order := order + [id];
      allTimestamps := allTimestamps + [times[id]];
      rest := rest - {id};
    }
    median := SortedMiddle(allTimestamps);
    ghost var sorted :| IsMiddle(allTimestamps, sorted, median);
    MiddleIsMedian(order, times, sorted);
  }

  /** x is at index n/2 of a sorted rearrangement. */
  ghost predicate IsMiddle(s: seq<int>, sorted: seq<int>, x: int) {
    && multiset(sorted) == multiset(s)
    && (forall i, j :: 0 <= i < j < |sorted| ==> sorted[i] <= sorted[j])
    && |sorted| > 0 && x == sorted[|sorted| / 2]
  }

  method SortedMiddle(s: seq<int>) returns (x: int)
    requires s != []
    ensures exists sorted :: IsMiddle(s, sorted, x)
  {
    var a := new int[|s|](i requires 0 <= i < |s| => s[i]);
    assert a[..] == s;
    SortSlice(a, (x: int, y: int) => x < y);
    x := a[a.Length / 2];
    assert IsMiddle(s, a[..], x);
  }
}
