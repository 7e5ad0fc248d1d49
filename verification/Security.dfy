/**
  The connection rate limiter (core/p2p/security.go:41-103). Time is in nanoseconds; each
  call is given the clock reading it makes, and readings do not decrease.
 */
module Security {
  const MINUTE: int := 60_000_000_000

  /** The entries of `history` in the window (t - 1 minute, t], in order. */
  function Window(history: seq<int>, t: int): (w: seq<int>) {
    if history == [] then []
    else
      var last := history[|history| - 1];
      var front := Window(history[..|history| - 1], t);
      if t - MINUTE < last <= t then front + [last] else front
  }

  /** Whether the clock readings so far all lie at or before t, in order. */
  ghost predicate Chronological(history: seq<int>, t: int) {
    history == [] || (history[|history| - 1] <= t && Chronological(history[..|history| - 1], history[|history| - 1]))
  }

  /** At every instant the window holds no more than `limit` acceptances. */
  ghost predicate Limited(history: seq<int>, limit: int) {
    forall t :: WithinLimit(history, t, limit)
  }

  predicate WithinLimit(history: seq<int>, t: int, limit: int) {
    |Window(history, t)| <= if limit > 0 then limit else 0
  }

  /** The list is the window of a history of acceptances that has kept the limit. */
  ghost predicate Tracks(accepted: seq<int>, latest: int, connectionTimes: seq<int>, limit: int) {
    && Chronological(accepted, latest)
    && connectionTimes == Window(accepted, latest)
    && Limited(accepted, limit)
  }

  class PeerSecurity {
    const maxPeersPerMinute: int
    const trustedPeers: seq<string>
    var connectionTimes: seq<int>

    /** Every acceptance ever made, and the latest clock reading. */
    ghost var accepted: seq<int>
    ghost var latest: int

    ghost predicate Valid()
      reads this
    {
      Tracks(accepted, latest, connectionTimes, maxPeersPerMinute)
    }

    constructor (maxPeersPerMinute: int, trustedPeers: seq<string>, ghost now: int)
      ensures Valid() && accepted == [] && latest == now
      ensures this.maxPeersPerMinute == maxPeersPerMinute && this.trustedPeers == trustedPeers
    {
      this.maxPeersPerMinute := maxPeersPerMinute;
      this.trustedPeers := trustedPeers;
      connectionTimes := [];
      accepted := [];
      latest := now;
    }

    /** The loop that prunes the list, keeping the entries after now minus a minute. */
    method Prune(now: int) returns (newTimes: seq<int>)
      requires Valid() && latest <= now
      ensures newTimes == Window(accepted, now)
    {
      newTimes := [];
      for k := 0 to |connectionTimes|
        invariant newTimes == Window(connectionTimes[..k], now)
      {
        var t := connectionTimes[k];
        WindowElement(accepted, latest, k);
        assert connectionTimes[..k + 1][..k] == connectionTimes[..k];
        if t > now - MINUTE {
          newTimes := newTimes + [t];
        }
      }
      assert connectionTimes[..|connectionTimes|] == connectionTimes;
      PruneTwice(accepted, latest, now);
    }

    /**
      Accepts exactly when fewer than the limit were accepted in the minute up to now; after the
      call the list is the full acceptance history restricted to that minute. `Valid` carries the
      limit at every instant.
     */
    method ValidateNewPeer(id: string, now: int) returns (allowed: bool)
      requires Valid() && latest <= now
      modifies this
      ensures Valid() && latest == now
      ensures allowed <==> |Window(old(accepted), now)| < maxPeersPerMinute
      ensures accepted == if allowed then old(accepted) + [now] else old(accepted)
      ensures connectionTimes == Window(accepted, now)
    {
      connectionTimes := Prune(now);
      latest := now;
      if |connectionTimes| >= maxPeersPerMinute {
        return false;
      }
      AcceptTracks(accepted, now, maxPeersPerMinute);
      connectionTimes := connectionTimes + [now];
      accepted := accepted + [now];
      // Whether the peer is trusted only selects the counter that is incremented.
      return true;
    }
  }

  lemma {:induction false} WindowElement(history: seq<int>, t: int, k: nat)
    requires k < |Window(history, t)|
    ensures t - MINUTE < Window(history, t)[k] <= t
  {
    var n := |history| - 1;
    if k < |Window(history[..n], t)| {
      WindowElement(history[..n], t, k);
    }
  }

  /** Pruning a list already pruned at an earlier instant gives the window of the whole history. */
  lemma {:induction false} PruneTwice(history: seq<int>, earlier: int, now: int)
    requires Chronological(history, earlier) && earlier <= now
    ensures Window(Window(history, earlier), now) == Window(history, now)
  {
    if history != [] {
      var n := |history| - 1;
      PruneTwice(history[..n], earlier, now);
      var inner := Window(history[..n], earlier);
      assert (inner + [history[n]])[..|inner|] == inner;
    }
  }

  /** Moving the window past the end of the history only drops entries. */
  lemma {:induction false} WindowShrinks(history: seq<int>, now: int, t: int)
    requires Chronological(history, now) && now <= t
    ensures |Window(history, t)| <= |Window(history, now)|
  {
    if history != [] {
      WindowShrinks(history[..|history| - 1], now, t);
    }
  }

  lemma AcceptTracks(history: seq<int>, now: int, limit: int)
    requires Chronological(history, now) && Limited(history, limit) && |Window(history, now)| < limit
    ensures Tracks(history + [now], now, Window(history, now) + [now], limit)
  {
    AcceptKeepsLimit(history, now, limit);
    assert (history + [now])[..|history|] == history;
  }

  /** An acceptance made below the limit keeps the limit at every instant, past and future. */
  lemma AcceptKeepsLimit(history: seq<int>, now: int, limit: int)
    requires Chronological(history, now) && Limited(history, limit)
    requires |Window(history, now)| < limit
    ensures Limited(history + [now], limit)
  {
    forall t ensures WithinLimit(history + [now], t, limit) {
      assert (history + [now])[..|history|] == history;
      assert WithinLimit(history, t, limit);
      if t >= now {
        WindowShrinks(history, now, t);
      }
    }
  }

  // ---------- whole runs ----------

  /** The acceptances of a run: the readings at which calls are made, each decided by the window. */
  function Acceptances(calls: seq<int>, limit: int): (h: seq<int>) {
    if calls == [] then []
    else
      var now := calls[|calls| - 1];
      var before := Acceptances(calls[..|calls| - 1], limit);
      if |Window(before, now)| < limit then before + [now] else before
  }

  /** Over every run with a non-decreasing clock, no window of a minute holds more than the limit. */
  lemma {:induction false} RunsAreLimited(calls: seq<int>, limit: int)
    requires forall i, j :: 0 <= i < j < |calls| ==> calls[i] <= calls[j]
    ensures Limited(Acceptances(calls, limit), limit)
    ensures calls != [] ==> Chronological(Acceptances(calls, limit), calls[|calls| - 1])
  {
    if calls == [] {
      forall t ensures WithinLimit(Acceptances(calls, limit), t, limit) {
      }
    } else {
      var n := |calls| - 1;
      RunsAreLimited(calls[..n], limit);
      var before := Acceptances(calls[..n], limit);
      assert n > 0 ==> calls[..n][n - 1] == calls[n - 1];
      assert n == 0 ==> before == [];
      if |Window(before, calls[n])| < limit {
        AcceptKeepsLimit(before, calls[n], limit);
      }
    }
  }

  /** Whether the run accepts call k. */
  predicate Accepts(calls: seq<int>, k: nat, limit: int)
    requires k < |calls|
  {
    |Window(Acceptances(calls[..k], limit), calls[k])| < limit
  }

  lemma AcceptancesExtend(calls: seq<int>, k: nat, limit: int)
    requires k < |calls|
    ensures Acceptances(calls[..k + 1], limit) ==
            Acceptances(calls[..k], limit) + if Accepts(calls, k, limit) then [calls[k]] else []
  {
    assert calls[..k + 1][..k] == calls[..k];
  }

  /** Call k of a run, made on an object that has served the calls before it. */
  method ServeOne(s: PeerSecurity, id: string, calls: seq<int>, k: nat) returns (allowed: bool)
    requires k < |calls|
    requires s.Valid() && s.latest <= calls[k]
    requires s.accepted == Acceptances(calls[..k], s.maxPeersPerMinute)
    modifies s
    ensures s.Valid() && s.latest == calls[k]
    ensures allowed == Accepts(calls, k, s.maxPeersPerMinute)
    ensures s.accepted == Acceptances(calls[..k + 1], s.maxPeersPerMinute)
  {
    AcceptancesExtend(calls, k, s.maxPeersPerMinute);
    allowed := s.ValidateNewPeer(id, calls[k]);
  }

  /** In a history that kept the limit, an acceptance and the one `limit` places later are at least a minute apart. */
  lemma SpacedApart(history: seq<int>, now: int, limit: nat, k: nat)
    requires Chronological(history, now) && Limited(history, limit)
    requires k + limit < |history|
    ensures history[k + limit] - history[k] >= 60_000_000_000
  {
    var t := history[k + limit];
    assert WithinLimit(history, t, limit);
    if history[k] > t - MINUTE {
      WindowHolds(history, now, t, k, k + limit);
    }
  }

  /** Entries from index i to index j all lie in the window of a reading that all but the later ones reach. */
  lemma {:induction false} WindowHolds(history: seq<int>, now: int, t: int, i: nat, j: nat)
    requires Chronological(history, now) && i <= j < |history|
    requires t - MINUTE < history[i] && history[j] <= t
    ensures |Window(history, t)| >= j - i + 1
  {
    var n := |history| - 1;
    if j < n {
      WindowHolds(history[..n], history[n], t, i, j);
    } else if i < j {
      Ordered(history, now, n - 1, n);
      Ordered(history, now, i, n);
      WindowHolds(history[..n], history[n], t, i, n - 1);
    }
  }

  lemma {:induction false} Ordered(history: seq<int>, now: int, i: nat, j: nat)
    requires Chronological(history, now) && i <= j < |history|
    ensures history[i] <= history[j] <= now
  {
    var n := |history| - 1;
    if j < n {
      Ordered(history[..n], history[n], i, j);
    } else if i < j {
      Ordered(history[..n], history[n], i, n - 1);
    }
  }

  /** A window at or after the end of the history holds its last entries, those less than a minute old. */
  lemma {:induction false} WindowSuffix(history: seq<int>, now: int, limit: nat)
    requires Chronological(history, now) && limit > 0
    ensures |Window(history, now)| >= limit <==>
            |history| >= limit && now - history[|history| - limit] < 60_000_000_000
  {
    if |history| >= limit {
      var first := |history| - limit;
      Ordered(history, now, |history| - 1, |history| - 1);
      if now - history[first] < MINUTE {
        WindowHolds(history, now, now, first, |history| - 1);
      } else {
        WindowMisses(history, now, now, first);
      }
    } else {
      WindowBound(history, now);
    }
  }

  lemma {:induction false} WindowMisses(history: seq<int>, now: int, t: int, i: nat)
    requires Chronological(history, now) && i < |history| && history[i] <= t - MINUTE
    ensures |Window(history, t)| <= |history| - 1 - i
  {
    var n := |history| - 1;
    if i < n {
      WindowMisses(history[..n], history[n], t, i);
    } else {
      WindowEmpty(history, now, t);
    }
  }

  lemma {:induction false} WindowEmpty(history: seq<int>, now: int, t: int)
    requires Chronological(history, now) && (history == [] || history[|history| - 1] <= t - MINUTE)
    ensures Window(history, t) == []
  {
    if history != [] {
      WindowEmpty(history[..|history| - 1], history[|history| - 1], t);
    }
  }

  lemma {:induction false} WindowBound(history: seq<int>, t: int)
    ensures |Window(history, t)| <= |history|
  {
    if history != [] {
      WindowBound(history[..|history| - 1], t);
    }
  }

  /**
    In the caller's terms: over a run with a non-decreasing clock, call k is accepted exactly when the
    limit is positive and the acceptance `limit` places back, if there is one, is a minute old or more.
   */
  lemma AcceptsExactly(calls: seq<int>, k: nat, limit: int)
    requires forall i, j :: 0 <= i < j < |calls| ==> calls[i] <= calls[j]
    requires k < |calls|
    ensures var history := Acceptances(calls[..k], limit);
            Accepts(calls, k, limit) <==>
            limit > 0 && (|history| < limit || calls[k] - history[|history| - limit] >= 60_000_000_000)
  {
    RunsAreLimited(calls[..k], limit);
    var history := Acceptances(calls[..k], limit);
    if limit > 0 {
      if k > 0 {
        ReachesLater(history, calls[k - 1], calls[k]);
      } else {
        assert calls[..0] == [];
      }
      WindowSuffix(history, calls[k], limit);
    }
  }

  lemma ReachesLater(history: seq<int>, now: int, later: int)
    requires Chronological(history, now) && now <= later
    ensures Chronological(history, later)
  {
  }

  /** The object refines that run: it allows exactly the calls the run accepts. */
  method ServeCalls(limit: int, trusted: seq<string>, ids: seq<string>, calls: seq<int>) returns (verdicts: seq<bool>)
    requires |ids| == |calls|
    requires forall i, j :: 0 <= i < j < |calls| ==> calls[i] <= calls[j]
    ensures |verdicts| == |calls|
    ensures forall k :: 0 <= k < |calls| ==> verdicts[k] == Accepts(calls, k, limit)
  {
    verdicts := [];
    if calls == [] {
      return;
    }
    var s := new PeerSecurity(limit, trusted, calls[0]);
    for k := 0 to |calls|
      invariant s.Valid() && fresh(s) && s.maxPeersPerMinute == limit
      invariant s.accepted == Acceptances(calls[..k], limit)
      invariant s.latest == if k == 0 then calls[0] else calls[k - 1]
      invariant |verdicts| == k
      invariant forall j :: 0 <= j < k ==> verdicts[j] == Accepts(calls, j, limit)
    {
      var allowed := ServeOne(s, ids[k], calls, k);
      verdicts := verdicts + [allowed];
    }
  }
}
