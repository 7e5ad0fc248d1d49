/**
  Leader rotation (core/consensus/leader.go, core/consensus/election.go). Both classes sort
  the validator identifiers once, in their constructor, and then index that list by view.
 */
module Leader {
  import opened Wrappers
  import opened Sorting
  import opened Collections
  import opened TimeTypes

  /** A uint64 view number. */
  type View = v: int | 0 <= v < TWO_64

  /** The conversion int(view) on a 64-bit platform. */
  function ToInt(view: View): int {
    if view < TWO_63 then view else view - TWO_64
  }

  /** Go's `%`, which truncates toward zero. */
  function Remainder(a: int, n: nat): int
    requires n > 0
  {
    if a >= 0 then a % n else -((-a) % n)
  }

  /**
    `validators[int(view)%len(validators)]`, or "" without validators. None stands for the
    index-out-of-range panic of a negative index.
   */
  function LeaderAt(validators: seq<string>, view: View): Option<string> {
    if |validators| == 0 then Some("")
    else
      var index := Remainder(ToInt(view), |validators|);
      if index < 0 then None else Some(validators[index])
  }

  class LeaderElection {
    const nodeId: string
    const threshold: int
    const validators: seq<string>

    constructor (nodeId: string, stateValidators: map<string, bool>, threshold: int)
      ensures this.nodeId == nodeId && this.threshold == threshold
      ensures validators == SortedIds(stateValidators.Keys)
    {
      this.nodeId := nodeId;
      this.threshold := threshold;
      var sorted := SortKeys(stateValidators.Keys);
      this.validators := sorted;
    }

    function GetLeaderForView(view: View): Option<string> {
      LeaderAt(validators, view)
    }

    predicate IsLeader(view: View) {
      GetLeaderForView(view) == Some(nodeId)
    }

    /** SHA-256 of the view's eight bytes is a parameter; the digest's first eight bytes choose the leader. */
    function ElectLeader(view: View, digest: View -> nat): (leader: string)
      ensures |validators| > 0 ==> leader in validators
    {
      if |validators| == 0 then "" else validators[digest(view) % |validators|]
    }
  }

  class ValidatorElection {
    const validators: seq<string>

    constructor (stateValidators: map<string, bool>)
      ensures validators == SortedIds(stateValidators.Keys)
    {
      var sorted := SortKeys(stateValidators.Keys);
      this.validators := sorted;
    }

    function GetValidatorForView(view: View): Option<string> {
      LeaderAt(validators, view)
    }
  }

  /** The lookup panics on exactly those views from 2^63 up whose wrapped value the list length does not divide. */
  lemma LookupDefined(validators: seq<string>, view: View)
    ensures LeaderAt(validators, view).Some? <==>
            (|validators| == 0 || view < 0x8000_0000_0000_0000 || (0x1_0000_0000_0000_0000 - view) % |validators| == 0)
    ensures |validators| == 0 ==> LeaderAt(validators, view) == Some("")
    ensures |validators| > 0 && view >= 0x8000_0000_0000_0000 && LeaderAt(validators, view).Some? ==>
              LeaderAt(validators, view) == Some(validators[0])
  {
  }

  /** Three validators and view 2^63: the index is negative. */
  lemma LookupPanics()
    ensures LeaderAt(["a", "b", "c"], TWO_63) == None
  {
    assert ToInt(TWO_63) == -TWO_63;
    assert TWO_63 % 3 == 2;
  }

  /** Two nodes with the same validator keys agree on every view, and so do both ways of asking. */
  method NodesAgree(a: string, b: string, first: map<string, bool>, second: map<string, bool>, view: View)
    returns (leaderA: Option<string>, leaderB: Option<string>, fromElection: Option<string>)
    requires first.Keys == second.Keys
    ensures leaderA == leaderB == fromElection == LeaderAt(SortedIds(first.Keys), view)
  {
    var la := new LeaderElection(a, first, 0);
    var lb := new LeaderElection(b, second, 0);
    var ve := new ValidatorElection(second);
    return la.GetLeaderForView(view), lb.GetLeaderForView(view), ve.GetValidatorForView(view);
  }

  /** On a defined view exactly one validator is the leader. */
  lemma ExactlyOneLeader(keys: set<string>, view: View) returns (leader: string)
    requires keys != {} && LeaderAt(SortedIds(keys), view).Some?
    ensures leader in keys
    ensures forall v :: v in keys ==> (LeaderAt(SortedIds(keys), view) == Some(v) <==> v == leader)
  {
    leader := LeaderAt(SortedIds(keys), view).value;
    assert leader in SortedIds(keys);
  }

  /** `validator` is the one elected for `view` among `keys`. */
  ghost predicate Leads(keys: set<string>, view: View, validator: string) {
    LeaderAt(SortedIds(keys), view) == Some(validator)
  }

  /** The identifiers smaller than x. */
  ghost function Smaller(keys: set<string>, x: string): set<string> {
    set k | k in keys && StringLess(k, x)
  }

  /** In the order of identifiers, view v below 2^63 is led by the validator with v mod N others before it. */
  lemma LeaderRank(keys: set<string>, view: View) returns (leader: string)
    requires keys != {} && view < 0x8000_0000_0000_0000
    ensures Leads(keys, view, leader) && leader in keys
    ensures |Smaller(keys, leader)| == view % |keys|
  {
    var q := SortedIds(keys);
    leader := q[view % |q|];
    SmallerBefore(q, keys, view % |q|);
    assert leader in q;
  }

  /** The validator a digest elects has as many others before it as the digest leaves modulo their number. */
  lemma ElectedRank(election: LeaderElection, keys: set<string>, view: View, digest: View -> nat)
    requires keys != {} && election.validators == SortedIds(keys)
    ensures election.ElectLeader(view, digest) in keys
    ensures |Smaller(keys, election.ElectLeader(view, digest))| == digest(view) % |keys|
  {
    var q := SortedIds(keys);
    SmallerBefore(q, keys, digest(view) % |q|);
    assert q[digest(view) % |q|] in q;
  }

  /** Of the identifiers listed in order, as many are smaller than one as come before it. */
  lemma SmallerBefore(q: seq<string>, keys: set<string>, index: nat)
    requires Enumerates(q, keys) && index < |q|
    ensures |Smaller(keys, q[index])| == index
  {
    var front := q[..index];
    NoRepeats(q);
    assert forall i :: 0 <= i < index ==> front[i] in q;
    forall k ensures k in Smaller(keys, q[index]) <==> k in front {
      if k in keys {
        assert k in q;
        var i :| 0 <= i < |q| && q[i] == k;
        if i < index {
          assert front[i] == k;
        } else {
          NotBefore(q, index, i);
          assert k !in front;
        }
      }
    }
    DistinctSize(front);
    assert Smaller(keys, q[index]) == set k | k in front;
  }

  lemma NotBefore(q: seq<string>, index: nat, i: nat)
    requires Increasing(q) && index <= i < |q|
    ensures !StringLess(q[i], q[index])
  {
    StringLessIrreflexive(q[index]);
    if StringLess(q[i], q[index]) && index < i {
      StringLessTransitive(q[i], q[index], q[i]);
      StringLessIrreflexive(q[i]);
    }
  }

  lemma {:induction false} DistinctSize(s: seq<string>)
    requires Distinct(s)
    ensures |set k | k in s| == |s|
  {
    if s != [] {
      var n := |s| - 1;
      DistinctSize(s[..n]);
      assert (set k | k in s) == (set k | k in s[..n]) + {s[n]};
    }
  }

  /** In any |keys| consecutive views below 2^63 every validator leads exactly once. */
  lemma EachLeadsOnce(keys: set<string>, start: nat, validator: string) returns (turn: View)
    requires validator in keys && start + |keys| <= TWO_63
    ensures start <= turn < start + |keys| && Leads(keys, turn, validator)
    ensures forall view: View :: start <= view < start + |keys| && Leads(keys, view, validator) ==> view == turn
  {
    var q := SortedIds(keys);
    assert validator in q;
    var target :| 0 <= target < |q| && q[target] == validator;
    NoRepeats(q);
    turn := ViewWithResidue(start, |q|, target);
    forall view: View | start <= view < start + |keys| && Leads(keys, view, validator)
      ensures view == turn
    {
      assert q[view % |q|] == validator;
      if view < turn { ResidueOnce(view, turn, |q|); } else { ResidueOnce(turn, view, |q|); }
    }
  }

  lemma ViewWithResidue(start: nat, n: nat, target: nat) returns (view: nat)
    requires target < n
    ensures start <= view < start + n && view % n == target
  {
    var r := start % n;
    var q := start / n;
    assert start == q * n + r;
    if r <= target {
      view := q * n + target;
      QuotientUnique(view, n, q, target);
    } else {
      view := (q + 1) * n + target;
      assert (q + 1) * n == q * n + n;
      QuotientUnique(view, n, q + 1, target);
    }
  }

  /** Two numbers less than n apart with the same residue are equal. */
  lemma ResidueOnce(a: nat, b: nat, n: nat)
    requires n > 0 && a <= b < a + n && a % n == b % n
    ensures a == b
  {
    assert a == (a / n) * n + a % n;
    assert b == (b / n) * n + b % n;
    var d := b / n - a / n;
    assert b - a == d * n;
    MultipleBound(d, n);
  }

  lemma QuotientUnique(x: nat, n: nat, q: nat, r: nat)
    requires r < n && x == q * n + r
    ensures x % n == r
  {
    assert x == (x / n) * n + x % n;
    var d := x / n - q;
    assert d * n == r - x % n;
    MultipleBound(d, n);
  }

  lemma MultipleBound(d: int, n: int)
    requires n >= 0
    ensures d >= 1 ==> d * n >= n
    ensures d <= -1 ==> d * n <= -n
  {
  }
}
