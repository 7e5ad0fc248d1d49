/**
  The ordering library calls of the program: `sort.Slice` as an in-place sort under a
  comparator, `sort.Strings` as the same sort under byte-wise string order, and the one
  strictly increasing enumeration of a set of strings, which does not depend on the order
  in which a Go map hands out its keys.
 */
module Sorting {
  import opened Collections

  // ---------- comparators ----------

  ghost predicate StrictWeakOrder<T(!new)>(less: (T, T) -> bool) {
    && (forall x :: !less(x, x))
    && (forall x, y, z :: less(x, y) && less(y, z) ==> less(x, z))
    && (forall x, y, z :: !less(x, y) && !less(y, z) ==> !less(x, z))
  }

  ghost predicate SortedBy<T>(s: seq<T>, less: (T, T) -> bool) {
    forall i, j :: 0 <= i < j < |s| ==> !less(s[j], s[i])
  }

  // ---------- sort.Slice ----------

  /** s[..n + 1] is sorted but for the element at k, which belongs no later than there. */
  ghost predicate Sinking<T>(s: seq<T>, k: int, n: int, less: (T, T) -> bool) {
    && 0 <= k <= n < |s|
    && (forall i, j :: 0 <= i < j <= n && j != k ==> !less(s[j], s[i]))
    && (forall j :: k < j <= n ==> less(s[k], s[j]))
  }

  function Swapped<T>(s: seq<T>, i: nat, j: nat): seq<T>
    requires i < |s| && j < |s|
  {
    s[i := s[j]][j := s[i]]
  }

  lemma SwapSinks<T(!new)>(s: seq<T>, k: nat, n: nat, less: (T, T) -> bool)
    requires StrictWeakOrder(less) && Sinking(s, k, n, less) && k > 0 && less(s[k], s[k - 1])
    ensures Sinking(Swapped(s, k, k - 1), k - 1, n, less)
  {
    var t := Swapped(s, k, k - 1);
    forall j | k - 1 < j <= n ensures less(t[k - 1], t[j]) {
    }
    forall i, j | 0 <= i < j <= n && j != k - 1 ensures !less(t[j], t[i]) {
      if j == k && i < k - 1 {
        assert !less(s[k - 1], s[i]);
      }
    }
  }

  lemma SwapPermutes<T>(s: seq<T>, i: nat, j: nat)
    requires i < |s| && j < |s|
    ensures multiset(Swapped(s, i, j)) == multiset(s)
  {
  }

  lemma SunkSorted<T(!new)>(s: seq<T>, k: nat, n: nat, less: (T, T) -> bool)
    requires StrictWeakOrder(less) && Sinking(s, k, n, less) && (k > 0 ==> !less(s[k], s[k - 1]))
    ensures SortedBy(s[..n + 1], less)
  {
    forall i | 0 <= i < k ensures !less(s[k], s[i]) {
      if i < k - 1 {
        assert !less(s[k - 1], s[i]);
      }
    }
  }

  /** Moves s[k] down past the elements it belongs before. */
  function Sunk<T>(s: seq<T>, k: nat, less: (T, T) -> bool): (r: seq<T>)
    requires k < |s|
    ensures |r| == |s|
    decreases k
  {
    if k > 0 && less(s[k], s[k - 1]) then Sunk(Swapped(s, k, k - 1), k - 1, less) else s
  }

  lemma {:induction false} SunkSorts<T(!new)>(s: seq<T>, k: nat, n: nat, less: (T, T) -> bool)
    requires StrictWeakOrder(less) && Sinking(s, k, n, less)
    ensures SortedBy(Sunk(s, k, less)[..n + 1], less)
    ensures multiset(Sunk(s, k, less)) == multiset(s)
    decreases k
  {
    if k > 0 && less(s[k], s[k - 1]) {
      SwapSinks(s, k, n, less);
      SwapPermutes(s, k, k - 1);
      SunkSorts(Swapped(s, k, k - 1), k - 1, n, less);
    } else {
      SunkSorted(s, k, n, less);
    }
  }

  lemma SinkingStarts<T>(s: seq<T>, n: nat, less: (T, T) -> bool)
    requires n < |s| && SortedBy(s[..n], less)
    ensures Sinking(s, n, n, less)
  {
    forall i, j | 0 <= i < j <= n && j != n ensures !less(s[j], s[i]) {
      assert s[..n][i] == s[i] && s[..n][j] == s[j];
    }
  }

  /** Moves a[n] down among the elements before it. */
  method Sink<T(!new)>(a: array<T>, n: nat, less: (T, T) -> bool)
    requires n < a.Length
    modifies a
    ensures a[..] == Sunk(old(a[..]), n, less)
  {
    var k := n;
    while k > 0 && less(a[k], a[k - 1])
      invariant 0 <= k <= n
      invariant Sunk(a[..], k, less) == Sunk(old(a[..]), n, less)
    {
      ghost var s := a[..];
      a[k], a[k - 1] := a[k - 1], a[k];
      assert a[..] == Swapped(s, k, k - 1);
      k := k - 1;
    }
  }

  method SortSlice<T(!new)>(a: array<T>, less: (T, T) -> bool)
    requires StrictWeakOrder(less)
    modifies a
    ensures SortedBy(a[..], less)
    ensures multiset(a[..]) == multiset(old(a[..]))
  {
    var n := 0;
    while n < a.Length
      invariant 0 <= n <= a.Length
      invariant SortedBy(a[..n], less)
      invariant multiset(a[..]) == multiset(old(a[..]))
    {
      ghost var s := a[..];
      assert s[..n] == a[..n];
      SinkingStarts(s, n, less);
      SunkSorts(s, n, n, less);
      Sink(a, n, less);
      n := n + 1;
      assert a[..][..n] == a[..n];
    }
    assert a[..n] == a[..];
  }

  // ---------- string order ----------

  /** Go's `<` on strings. */
  predicate StringLess(a: string, b: string) {
    if b == "" then false
    else if a == "" then true
    else a[0] < b[0] || (a[0] == b[0] && StringLess(a[1..], b[1..]))
  }

  lemma {:induction false} StringLessIrreflexive(a: string)
    ensures !StringLess(a, a)
  {
    if a != "" {
      StringLessIrreflexive(a[1..]);
    }
  }

  lemma {:induction false} StringLessTransitive(a: string, b: string, c: string)
    requires StringLess(a, b) && StringLess(b, c)
    ensures StringLess(a, c)
  {
    if a != "" && a[0] == b[0] && b[0] == c[0] {
      StringLessTransitive(a[1..], b[1..], c[1..]);
    }
  }

  lemma {:induction false} StringLessTotal(a: string, b: string)
    ensures StringLess(a, b) || a == b || StringLess(b, a)
  {
    if a != "" && b != "" && a[0] == b[0] {
      StringLessTotal(a[1..], b[1..]);
      assert a == [a[0]] + a[1..] && b == [b[0]] + b[1..];
    }
  }

  /** Lexicographic order: the first difference decides, and a proper prefix comes first. */
  lemma {:induction false} StringLessExactly(a: string, b: string)
    ensures StringLess(a, b) <==>
            exists k :: 0 <= k <= |a| && k < |b| && a[..k] == b[..k] && (k == |a| || a[k] < b[k])
  {
    if b == "" {
    } else if a == "" {
      assert a[..0] == b[..0];
    } else if a[0] != b[0] {
      assert a[..0] == b[..0];
      forall k | 0 < k <= |a| && k < |b| ensures a[..k] != b[..k] {
        assert a[..k][0] != b[..k][0];
      }
    } else {
      StringLessExactly(a[1..], b[1..]);
      forall k | 0 < k <= |a| && k < |b| ensures a[..k] == b[..k] <==> a[1..][..k - 1] == b[1..][..k - 1] {
        assert a[..k] == [a[0]] + a[1..][..k - 1] && b[..k] == [b[0]] + b[1..][..k - 1];
      }
      if k :| 0 <= k <= |a| && k < |b| && a[..k] == b[..k] && (k == |a| || a[k] < b[k]) {
        assert k > 0;
        assert a[1..][..k - 1] == b[1..][..k - 1];
      }
      if k :| 0 <= k <= |a[1..]| && k < |b[1..]| && a[1..][..k] == b[1..][..k] && (k == |a[1..]| || a[1..][k] < b[1..][k]) {
        assert a[..k + 1] == b[..k + 1];
      }
    }
  }

  lemma StringOrder()
    ensures StrictWeakOrder(StringLess)
  {
    forall x ensures !StringLess(x, x) {
      StringLessIrreflexive(x);
    }
    forall x, y, z | StringLess(x, y) && StringLess(y, z) ensures StringLess(x, z) {
      StringLessTransitive(x, y, z);
    }
    forall x, y, z | !StringLess(x, y) && !StringLess(y, z) ensures !StringLess(x, z) {
      StringLessTotal(x, y);
      StringLessTotal(y, z);
      if StringLess(x, z) {
        if y != x && y != z {
          StringLessTransitive(z, y, x);
          StringLessTransitive(z, x, z);
          StringLessIrreflexive(z);
        }
      }
    }
  }

  // ---------- the sorted enumeration of a set ----------

  ghost predicate Increasing(q: seq<string>) {
    forall i, j :: 0 <= i < j < |q| ==> StringLess(q[i], q[j])
  }

  ghost predicate Enumerates(q: seq<string>, s: set<string>) {
    && Increasing(q)
    && (forall x :: x in q <==> x in s)
  }

  lemma {:induction false} HasLeast(s: set<string>) returns (m: string)
    requires s != {}
    ensures m in s && forall x :: x in s && x != m ==> StringLess(m, x)
  {
    var y :| y in s;
    if s == {y} {
      m := y;
    } else {
      var rest := HasLeast(s - {y});
      StringLessTotal(y, rest);
      m := if StringLess(y, rest) then y else rest;
      forall x | x in s && x != m ensures StringLess(m, x) {
        if x != y && x != rest && m == y {
          StringLessTransitive(y, rest, x);
        }
      }
    }
  }

  lemma LeastExists(s: set<string>)
    requires s != {}
    ensures exists m :: m in s && forall x :: x in s && x != m ==> StringLess(m, x)
  {
    var m := HasLeast(s);
  }

  ghost function Least(s: set<string>): (m: string)
    requires s != {}
    ensures m in s && forall x :: x in s && x != m ==> StringLess(m, x)
  {
    LeastExists(s);
    var m :| m in s && forall x :: x in s && x != m ==> StringLess(m, x);
    m
  }

  /** The members of `s` in increasing order. */
  ghost function SortedIds(s: set<string>): (q: seq<string>)
    ensures Enumerates(q, s)
    ensures |q| == |s|
  {
    if s == {} then []
    else
      var m := Least(s);
      var q := SortedIds(s - {m});
      assert |s - {m}| == |s| - 1;
      [m] + q
  }

  lemma RestEnumerates(q: seq<string>, s: set<string>)
    requires Enumerates(q, s) && q != []
    ensures q[0] in s && Enumerates(q[1..], s - {q[0]})
  {
    NoRepeats(q);
    assert forall x :: x in q <==> x == q[0] || x in q[1..];
  }

  lemma {:induction false} EnumerationUnique(q: seq<string>, r: seq<string>, s: set<string>)
    requires Enumerates(q, s) && Enumerates(r, s)
    ensures q == r
  {
    if q != [] { RestEnumerates(q, s); }
    if r != [] { RestEnumerates(r, s); }
    if q != [] && r != [] {
      if q[0] != r[0] {
        assert q[0] in r && r[0] in q;
        StringLessTransitive(q[0], r[0], q[0]);
        StringLessIrreflexive(q[0]);
      }
      EnumerationUnique(q[1..], r[1..], s - {q[0]});
      assert q == [q[0]] + q[1..] && r == [r[0]] + r[1..];
    }
  }

  lemma NoRepeats(q: seq<string>)
    requires Increasing(q)
    ensures Distinct(q)
  {
    forall i, j | 0 <= i < j < |q| ensures q[i] != q[j] {
      StringLessIrreflexive(q[i]);
    }
  }

  /**
    Appends the keys of a map in whatever order the map yields them, then sorts them in
    place. The result does not depend on that order.
   */
  method SortKeys(keys: set<string>) returns (ids: seq<string>)
    ensures ids == SortedIds(keys)
  {
    var listed: seq<string> := [];
    var rest := keys;
    while rest != {}
      invariant rest <= keys
      invariant forall x :: x in listed <==> x in keys - rest
      invariant Distinct(listed)
      decreases |rest|
    {
      var id :| id in rest;
      assert id !in listed;
      listed := listed + [id];
      rest := rest - {id};
    }
    var a := new string[|listed|](i requires 0 <= i < |listed| => listed[i]);
    assert a[..] == listed;
    StringOrder();
    SortSlice(a, StringLess);
    ids := a[..];
    SortedDistinctIncreases(listed, ids);
    assert forall x :: x in ids <==> x in multiset(ids);
    assert forall x :: x in listed <==> x in multiset(listed);
    EnumerationUnique(ids, SortedIds(keys), keys);
  }

  lemma SortedDistinctIncreases(listed: seq<string>, ids: seq<string>)
    requires Distinct(listed)
    requires multiset(ids) == multiset(listed)
    requires SortedBy(ids, StringLess)
    ensures Increasing(ids)
  {
    forall i, j | 0 <= i < j < |ids| ensures StringLess(ids[i], ids[j]) {
      StringLessTotal(ids[i], ids[j]);
      if ids[i] == ids[j] {
        OccursTwice(ids, i, j);
        OccursOnce(listed, ids[i]);
      }
    }
  }

  lemma OccursTwice(s: seq<string>, i: nat, j: nat)
    requires i < j < |s| && s[i] == s[j]
    ensures multiset(s)[s[i]] >= 2
  {
    assert s == s[..i] + [s[i]] + s[i + 1..j] + [s[j]] + s[j + 1..];
  }

  lemma {:induction false} OccursOnce(s: seq<string>, x: string)
    requires Distinct(s)
    ensures multiset(s)[x] <= 1
  {
    if s != [] {
      var n := |s| - 1;
      OccursOnce(s[..n], x);
      assert s == s[..n] + [s[n]];
      if s[n] == x {
        assert x !in s[..n];
        assert x !in multiset(s[..n]);
      }
    }
  }
}
