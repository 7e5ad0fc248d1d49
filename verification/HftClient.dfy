/**
  Verified timestamps for high-frequency clients (core/client/hft_client.go:166-396): quorum
  collection in both modes, and batch reuse of timestamps.

  A round of requests is given by what each server answers and by the order in which answers
  reach the client before its deadline; the servers missing from that order are the ones a
  timeout cuts off. Quantifying over rounds covers every arrival order and every timeout.
 */
module HftClient {
  import opened Wrappers
  import opened TimeTypes
  import opened TtlCache
  import opened VerificationCache
  import opened Collections

  /** A clock whose readings do not decrease. */
  class Clock {
    var now: int

    method Read() returns (t: int)
      modifies this
      ensures old(now) <= now == t
    {
      var elapsed: int :| elapsed >= 0;
      now := now + elapsed;
      return now;
    }
  }

  datatype Options = Options(quorum: int, progressive: bool, caching: bool, batching: bool, cacheTtl: int)

  datatype ClientError = NoServersAvailable | QuorumNotReached | RequestTimeout

  datatype Stats = Stats(requests: nat, cacheHits: nat, cacheMisses: nat,
                         verificationFailures: nat, quorumFailures: nat, timeouts: nat)

  datatype ServerResponse = ServerResponse(timestamp: Option<SignedTimestamp>, failed: bool)

  datatype Round = Round(servers: seq<TimeServer>, responses: seq<ServerResponse>, arrivals: seq<nat>) {
    ghost predicate Wellformed() {
      && |responses| == |servers|
      && (forall k :: 0 <= k < |arrivals| ==> arrivals[k] < |servers|)
      && Distinct(arrivals)
    }

    /** Server i answered with a timestamp that verifies. */
    predicate Good(i: nat) {
      && i < |responses| && i < |servers|
      && !responses[i].failed
      && responses[i].timestamp.Some?
      && Verify(responses[i].timestamp.value, servers[i])
    }

    /** Server i answered without error, but with nothing that verifies. */
    predicate Rejected(i: nat) {
      i < |responses| && !responses[i].failed && !Good(i)
    }

    function GoodAmong(indices: seq<nat>): set<nat> {
      set i | i in indices && Good(i)
    }

    function RejectedAmong(indices: seq<nat>): set<nat> {
      set i | i in indices && Rejected(i)
    }

    /** `best` is the earliest verified timestamp of the listed servers, the first of them in case of ties. */
    ghost predicate Earliest(indices: seq<nat>, best: Option<SignedTimestamp>) {
      if best.None? then GoodAmong(indices) == {}
      else exists k :: EarliestAt(indices, best.value, k)
    }

    ghost predicate EarliestAt(indices: seq<nat>, best: SignedTimestamp, k: int) {
      && 0 <= k < |indices| && Good(indices[k]) && responses[indices[k]].timestamp == Some(best)
      && (forall j :: 0 <= j < |indices| && Good(indices[j]) ==> best.time <= responses[indices[j]].timestamp.value.time)
      && (forall j :: 0 <= j < k && Good(indices[j]) ==> best.time < responses[indices[j]].timestamp.value.time)
    }
  }

  /** The quorum asked for, or all servers if there are fewer. */
  function Needed(options: Options, round: Round): int {
    if options.quorum > |round.servers| then |round.servers| else options.quorum
  }

  /** The arrivals the result is chosen from: the first quorum in progressive mode if all of those verify, else all. */
  function Used(options: Options, round: Round): seq<nat> {
    var q := Needed(options, round);
    if options.progressive && q <= 0 then []
    else if options.progressive && q <= |round.arrivals| && |round.GoodAmong(round.arrivals[..q])| >= q then round.arrivals[..q]
    else round.arrivals
  }

  /** What a round gives. */
  ghost predicate RoundOutcome(options: Options, round: Round, r: Result<Option<SignedTimestamp>, ClientError>) {
    if |round.servers| == 0 then r == Err(NoServersAvailable)
    else
      && (r.Ok? <==> |round.GoodAmong(round.arrivals)| >= Needed(options, round))
      && (r.Ok? ==> round.Earliest(Used(options, round), r.value))
      && (r.Err? ==> r.error == if |round.arrivals| < |round.servers| then RequestTimeout else QuorumNotReached)
  }

  /** The arrivals that were verified: none when the deadline came before a quorum of arrivals. */
  function Considered(options: Options, round: Round): seq<nat> {
    if |round.arrivals| < Needed(options, round) then [] else Used(options, round)
  }

  function StatsAfter(options: Options, round: Round, before: Stats, r: Result<Option<SignedTimestamp>, ClientError>): Stats {
    if r == Err(NoServersAvailable) then Charged(Counted(before, 0), r)
    else Charged(Counted(before, |round.RejectedAmong(Considered(options, round))|), r)
  }

  /** The counter of the error returned goes up. */
  function Charged(s: Stats, r: Result<Option<SignedTimestamp>, ClientError>): Stats {
    match r
    case Ok(_) => s
    case Err(RequestTimeout) => s.(timeouts := s.timeouts + 1)
    case Err(_) => s.(quorumFailures := s.quorumFailures + 1)
  }

  function Rejecting(s: Stats, rejected: nat): Stats {
    s.(verificationFailures := s.verificationFailures + rejected)
  }

  /** One request more, and so many responses that did not verify. */
  function Counted(before: Stats, rejected: nat): Stats {
    Rejecting(before.(requests := before.requests + 1), rejected)
  }

  // ---------- counting arrivals ----------

  /** What the loops have counted after the listed arrivals. */
  ghost predicate Tallied(round: Round, indices: seq<nat>, valid: int, best: Option<SignedTimestamp>, rejected: int) {
    && valid == |round.GoodAmong(indices)|
    && rejected == |round.RejectedAmong(indices)|
    && round.Earliest(indices, best)
  }

  /** The best so far after one more response. */
  function BetterOf(round: Round, i: nat, best: Option<SignedTimestamp>): Option<SignedTimestamp> {
    if round.Good(i) && (best.None? || round.responses[i].timestamp.value.time < best.value.time)
    then round.responses[i].timestamp
    else best
  }

  lemma TallyOne(round: Round, indices: seq<nat>, i: nat, valid: int, best: Option<SignedTimestamp>, rejected: int)
    requires Tallied(round, indices, valid, best, rejected) && i !in indices
    ensures Tallied(round, indices + [i], valid + (if round.Good(i) then 1 else 0), BetterOf(round, i, best),
                    rejected + (if round.Rejected(i) then 1 else 0))
  {
    SetsExtend(round, indices, i);
    EarliestExtends(round, indices, i, best);
  }

  lemma SetsExtend(round: Round, indices: seq<nat>, i: nat)
    requires i !in indices
    ensures |round.GoodAmong(indices + [i])| == |round.GoodAmong(indices)| + if round.Good(i) then 1 else 0
    ensures |round.RejectedAmong(indices + [i])| == |round.RejectedAmong(indices)| + if round.Rejected(i) then 1 else 0
  {
    PickExtends(indices, i, round.GoodAmong(indices), round.GoodAmong(indices + [i]), round.Good(i));
    PickExtends(indices, i, round.RejectedAmong(indices), round.RejectedAmong(indices + [i]), round.Rejected(i));
  }

  /** A selection from a list, after one element more. */
  lemma PickExtends(indices: seq<nat>, i: nat, before: set<nat>, after: set<nat>, picked: bool)
    requires i !in indices
    requires forall k :: k in before ==> k in indices
    requires forall k :: k in after <==> k in before || (k == i && picked)
    ensures |after| == |before| + if picked then 1 else 0
  {
    if picked {
      assert after == before + {i};
    } else {
      assert after == before;
    }
  }

  lemma EarliestExtends(round: Round, indices: seq<nat>, i: nat, best: Option<SignedTimestamp>)
    requires round.Earliest(indices, best)
    ensures round.Earliest(indices + [i], BetterOf(round, i, best))
  {
    var more := indices + [i];
    var n := |indices|;
    assert forall j :: 0 <= j < n ==> more[j] == indices[j];
    if best.None? {
      assert forall j :: 0 <= j < n ==> indices[j] in indices && indices[j] !in round.GoodAmong(indices);
      if round.Good(i) {
        assert round.EarliestAt(more, BetterOf(round, i, best).value, n);
      } else {
        assert forall k :: k in round.GoodAmong(more) ==> k in round.GoodAmong(indices);
      }
    } else {
      var k :| round.EarliestAt(indices, best.value, k);
      if BetterOf(round, i, best) == best {
        assert round.EarliestAt(more, best.value, k);
      } else {
        assert round.EarliestAt(more, BetterOf(round, i, best).value, n);
      }
    }
  }

  lemma {:induction false} GoodBound(round: Round, indices: seq<nat>)
    ensures |round.GoodAmong(indices)| <= |indices|
  {
    if indices != [] {
      var n := |indices| - 1;
      GoodBound(round, indices[..n]);
      assert indices == indices[..n] + [indices[n]];
      var before := round.GoodAmong(indices[..n]);
      assert round.GoodAmong(indices) == before || round.GoodAmong(indices) == before + {indices[n]};
    }
  }

  lemma GoodPrefix(round: Round, indices: seq<nat>, k: nat)
    requires k <= |indices|
    ensures |round.GoodAmong(indices[..k])| <= |round.GoodAmong(indices)|
  {
    SubsetSize(round.GoodAmong(indices[..k]), round.GoodAmong(indices));
  }

  /** Different servers below n are at most n. */
  lemma {:induction false} ArrivalsBound(arrivals: seq<nat>, n: nat)
    requires forall k :: 0 <= k < |arrivals| ==> arrivals[k] < n
    requires Distinct(arrivals)
    ensures |arrivals| <= n
  {
    assert arrivals != [] ==> arrivals[0] < n;
    if n == 0 {
    } else if n - 1 in arrivals {
      var k :| 0 <= k < |arrivals| && arrivals[k] == n - 1;
      ArrivalsBound(arrivals[..k] + arrivals[k + 1..], n - 1);
    } else {
      ArrivalsBound(arrivals, n - 1);
    }
  }

  lemma NothingTallied(round: Round)
    ensures Tallied(round, round.arrivals[..0], 0, None, 0)
  {
    assert round.GoodAmong([]) == {} && round.RejectedAmong([]) == {};
  }

  /** The answer after all arrivals have been considered. */
  function Decision(round: Round, quorum: int, valid: int, best: Option<SignedTimestamp>): Result<Option<SignedTimestamp>, ClientError> {
    if valid >= quorum then Ok(best)
    else Err(if |round.arrivals| < |round.servers| then RequestTimeout else QuorumNotReached)
  }

  /** All arrivals used: enough of them verifying decides the round. */
  lemma AllArrivalsDecide(options: Options, round: Round, valid: int, best: Option<SignedTimestamp>, rejected: nat, before: Stats)
    requires Tallied(round, round.arrivals, valid, best, rejected)
    requires round.servers != [] && |round.arrivals| >= Needed(options, round) && Used(options, round) == round.arrivals
    ensures RoundOutcome(options, round, Decision(round, Needed(options, round), valid, best))
    ensures StatsAfter(options, round, before, Decision(round, Needed(options, round), valid, best))
         == Charged(Counted(before, rejected), Decision(round, Needed(options, round), valid, best))
    ensures valid >= 0
  {
  }

  /** In progressive mode a first quorum of arrivals that all verify decides it. */
  lemma FirstQuorumDecides(options: Options, round: Round, k: nat, valid: int, best: Option<SignedTimestamp>, rejected: int)
    requires round.servers != [] && options.progressive
    requires k == (if Needed(options, round) > 0 then Needed(options, round) else 0) && k <= |round.arrivals|
    requires Tallied(round, round.arrivals[..k], valid, best, rejected)
    ensures valid >= Needed(options, round) ==>
              && RoundOutcome(options, round, Ok(best))
              && rejected == |round.RejectedAmong(Considered(options, round))|
    ensures valid < Needed(options, round) ==> Used(options, round) == round.arrivals
  {
    GoodPrefix(round, round.arrivals, k);
  }

  /** The log after the answer of server i has been verified behind the cache, with the two readings that takes. */
  function Drained(log: VerdictLog, round: Round, i: nat, reading: (int, int), ttl: int): VerdictLog {
    if i < |round.responses| && i < |round.servers| && !round.responses[i].failed && round.responses[i].timestamp.Some?
    then LogAfter(log, CallFor(round.responses[i].timestamp.value, round.servers[i]), reading.0, reading.1, ttl)
    else log
  }

  /** The same for a list of answers, one after the other. */
  function DrainedLog(log: VerdictLog, round: Round, indices: seq<nat>, readings: seq<(int, int)>, ttl: int): VerdictLog
    requires |readings| == |indices|
  {
    if indices == [] then log
    else
      var n := |indices| - 1;
      Drained(DrainedLog(log, round, indices[..n], readings[..n], ttl), round, indices[n], readings[n], ttl)
  }

  lemma DrainedOneMore(log: VerdictLog, round: Round, indices: seq<nat>, i: nat, readings: seq<(int, int)>, reading: (int, int), ttl: int)
    requires |readings| == |indices|
    ensures DrainedLog(log, round, indices + [i], readings + [reading], ttl)
         == Drained(DrainedLog(log, round, indices, readings, ttl), round, i, reading, ttl)
  {
    assert (indices + [i])[..|indices|] == indices && (readings + [reading])[..|indices|] == readings;
  }

  /** Every timestamp drained has a verdict in the log afterwards, and what was there before still is. */
  lemma {:induction false} DrainFills(log: VerdictLog, round: Round, indices: seq<nat>, readings: seq<(int, int)>, ttl: int, k: nat)
    requires |readings| == |indices| && k < |indices|
    requires indices[k] < |round.responses| && indices[k] < |round.servers|
    requires !round.responses[indices[k]].failed && round.responses[indices[k]].timestamp.Some?
    ensures log <= DrainedLog(log, round, indices, readings, ttl)
    ensures Latest(DrainedLog(log, round, indices, readings, ttl), CacheKey(round.responses[indices[k]].timestamp.value)).Some?
  {
    var n := |indices| - 1;
    var before := DrainedLog(log, round, indices[..n], readings[..n], ttl);
    DrainKeeps(log, round, indices[..n], readings[..n], ttl);
    var key := CacheKey(round.responses[indices[k]].timestamp.value);
    if k < n {
      DrainFills(log, round, indices[..n], readings[..n], ttl, k);
    }
    var i := indices[n];
    if Drained(before, round, i, readings[n], ttl) != before {
      var call := CallFor(round.responses[i].timestamp.value, round.servers[i]);
      LatestAppend(before, Write(call.key, call.verdict, readings[n].1), key);
    }
  }

  /** Draining keeps the cached verdicts those the keys decide. */
  lemma {:induction false} DrainSound(log: VerdictLog, round: Round, indices: seq<nat>, readings: seq<(int, int)>, ttl: int,
                                      verdictOf: string -> bool)
    requires |readings| == |indices|
    requires forall w :: w in log ==> w.value == verdictOf(w.key)
    requires forall i: nat :: i < |round.responses| && i < |round.servers| && round.responses[i].timestamp.Some? ==>
               Verify(round.responses[i].timestamp.value, round.servers[i]) == verdictOf(CacheKey(round.responses[i].timestamp.value))
    ensures forall w :: w in DrainedLog(log, round, indices, readings, ttl) ==> w.value == verdictOf(w.key)
  {
    if indices != [] {
      var n := |indices| - 1;
      DrainSound(log, round, indices[..n], readings[..n], ttl, verdictOf);
    }
  }

  lemma {:induction false} DrainKeeps(log: VerdictLog, round: Round, indices: seq<nat>, readings: seq<(int, int)>, ttl: int)
    requires |readings| == |indices|
    ensures log <= DrainedLog(log, round, indices, readings, ttl)
  {
    if indices != [] {
      var n := |indices| - 1;
      DrainKeeps(log, round, indices[..n], readings[..n], ttl);
    }
  }

  /** Some timestamp asked about has this key. */
  ghost predicate KeyAsked(key: string, asked: seq<SignedTimestamp>) {
    asked != [] && (CacheKey(asked[|asked| - 1]) == key || KeyAsked(key, asked[..|asked| - 1]))
  }

  /** Every verdict in the log is for a timestamp asked about. */
  ghost predicate AllAsked(log: VerdictLog, asked: seq<SignedTimestamp>) {
    log == [] || (KeyAsked(log[|log| - 1].key, asked) && AllAsked(log[..|log| - 1], asked))
  }

  ghost predicate ColonFree(stamps: seq<SignedTimestamp>) {
    forall a :: a in stamps ==> NoColon(a.serverId) && NoColon(a.regionId)
  }

  lemma {:induction false} AskedMore(log: VerdictLog, asked: seq<SignedTimestamp>, ts: SignedTimestamp)
    requires AllAsked(log, asked)
    ensures AllAsked(log, asked + [ts]) && KeyAsked(CacheKey(ts), asked + [ts])
  {
    assert (asked + [ts])[..|asked|] == asked;
    if log != [] {
      AskedMore(log[..|log| - 1], asked, ts);
    }
  }

  lemma AskedWritten(log: VerdictLog, asked: seq<SignedTimestamp>, w: Write<bool>)
    requires AllAsked(log, asked) && KeyAsked(w.key, asked)
    ensures AllAsked(log + [w], asked)
  {
    assert (log + [w])[..|log|] == log;
  }

  lemma {:induction false} WasAsked(log: VerdictLog, asked: seq<SignedTimestamp>, w: Write<bool>)
    requires AllAsked(log, asked) && w in log
    ensures KeyAsked(w.key, asked)
  {
    if w != log[|log| - 1] {
      WasAsked(log[..|log| - 1], asked, w);
    }
  }

  lemma {:induction false} AskedStamp(key: string, asked: seq<SignedTimestamp>) returns (a: SignedTimestamp)
    requires KeyAsked(key, asked)
    ensures a in asked && CacheKey(a) == key
  {
    a := asked[|asked| - 1];
    if CacheKey(a) != key {
      a := AskedStamp(key, asked[..|asked| - 1]);
    }
  }

  /** A verdict found in the cache belongs to a timestamp of the same server, region and signature asked about before. */
  lemma FoundIsAsked(log: VerdictLog, asked: seq<SignedTimestamp>, ts: SignedTimestamp, now: int, ttl: int)
    requires AllAsked(log, asked)
    requires Lookup(log, CacheKey(ts), now, ttl).Some?
    ensures ColonFree(asked + [ts]) ==> exists a :: a in asked && SameSource(a, ts)
  {
    LookupInLog(log, CacheKey(ts), now, ttl);
    WasAsked(log, asked, Write(CacheKey(ts), Lookup(log, CacheKey(ts), now, ttl).value, Latest(log, CacheKey(ts)).value.at));
    var a := AskedStamp(CacheKey(ts), asked);
    if ColonFree(asked + [ts]) {
      assert a in asked + [ts] && ts in asked + [ts];
      KeyExactly(a, ts);
    }
  }

  /** Whether the batch cache holds, at reading t, a timestamp for the key that is at most maxAge old at reading u. */
  ghost predicate Reusable(history: seq<Write<Option<SignedTimestamp>>>, key: string, maxAge: int, ttl: int, t: int, u: int) {
    var cached := Lookup(history, key, t, ttl);
    cached.Some? && cached.value.Some? && u - cached.value.value.time <= maxAge
  }

  /** That is: the last set of the key, at most ttl ago, set a timestamp whose own time is at most maxAge ago. */
  lemma ReusableMeaning(history: seq<Write<Option<SignedTimestamp>>>, key: string, maxAge: int, ttl: int, t: int, u: int)
    ensures Reusable(history, key, maxAge, ttl, t, u) <==>
            exists i :: IsLast(history, i) && history[i].key == key && history[i].value.Some?
              && t <= history[i].at + ttl && u - history[i].value.value.time <= maxAge
  {
    if Reusable(history, key, maxAge, ttl, t, u) {
      LookupMeaning(history, key, t, ttl, Lookup(history, key, t, ttl).value);
    } else if i :| IsLast(history, i) && history[i].key == key && history[i].value.Some?
                   && t <= history[i].at + ttl && u - history[i].value.value.time <= maxAge {
      LookupMeaning(history, key, t, ttl, history[i].value);
    }
  }

  class HftClient {
    const options: Options
    const clock: Clock
    const verifyCache: TtlCache?<bool>
    const batchCache: TtlCache?<Option<SignedTimestamp>>
    var stats: Stats

    /** Everything GetVerifiedTimestamp has returned. */
    ghost var issued: seq<Option<SignedTimestamp>>

    /** Every timestamp whose verification was asked for. */
    ghost var asked: seq<SignedTimestamp>

    ghost predicate Valid()
      reads this, clock, verifyCache, batchCache
    {
      && (verifyCache != null <==> options.caching)
      && (batchCache != null <==> options.caching)
      && (verifyCache != null ==> verifyCache.Valid() && verifyCache.cleanedAt <= clock.now && verifyCache.ttl == options.cacheTtl)
      && (verifyCache != null ==> AllAsked(verifyCache.history, asked))
      && (batchCache != null ==>
            && batchCache.Valid() && batchCache.cleanedAt <= clock.now && batchCache.ttl == options.cacheTtl
            && (forall w :: w in batchCache.history ==> w.value in issued))
    }

    constructor (options: Options, clock: Clock)
      ensures Valid() && this.options == options && this.clock == clock
      ensures stats == Stats(0, 0, 0, 0, 0, 0) && issued == [] && asked == []
      ensures fresh(this) && (verifyCache != null ==> fresh(verifyCache)) && (batchCache != null ==> fresh(batchCache))
      ensures verifyCache != null ==> verifyCache.history == []
    {
      this.options := options;
      this.clock := clock;
      stats := Stats(0, 0, 0, 0, 0, 0);
      issued := [];
      asked := [];
      if options.caching {
        var v := new TtlCache<bool>(options.cacheTtl, clock.now);
        var b := new TtlCache<Option<SignedTimestamp>>(options.cacheTtl, clock.now);
        verifyCache := v;
        batchCache := b;
      } else {
        verifyCache := null;
        batchCache := null;
      }
    }

    /** Every cached verdict is the one the key decides. */
    ghost predicate Sound(verdictOf: string -> bool)
      reads this, verifyCache
    {
      verifyCache != null ==> forall w :: w in verifyCache.history ==> w.value == verdictOf(w.key)
    }

    /** The key of this timestamp decides its verdict; nothing is asked when nothing is cached. */
    ghost predicate Fits(verdictOf: string -> bool, ts: SignedTimestamp, server: TimeServer) {
      options.caching ==> Verify(ts, server) == verdictOf(CacheKey(ts))
    }

    ghost predicate AllFit(verdictOf: string -> bool, round: Round) {
      forall i: nat :: i < |round.responses| && i < |round.servers| && round.responses[i].timestamp.Some? ==>
        Fits(verdictOf, round.responses[i].timestamp.value, round.servers[i])
    }

    /**
      One cached verification: the answer and the new log are those of the run model, so a client
      whose keys decide verdicts answers as `Verify` does.
     */
    method VerifyTimestampResponse(ts: Option<SignedTimestamp>, server: TimeServer, ghost verdictOf: string -> bool)
      returns (ok: bool, ghost getAt: int, ghost setAt: int)
      requires Valid()
      modifies this`asked, clock, verifyCache
      ensures Valid() && old(clock.now) <= getAt <= setAt <= clock.now
      ensures ts.None? ==> !ok && (verifyCache != null ==> verifyCache.history == old(verifyCache.history))
      ensures ts.Some? && verifyCache == null ==> ok == Verify(ts.value, server)
      ensures ts.Some? && verifyCache != null ==>
                && ok == CachedAnswer(old(verifyCache.history), CallFor(ts.value, server), getAt, options.cacheTtl)
                && verifyCache.history == LogAfter(old(verifyCache.history), CallFor(ts.value, server), getAt, setAt, options.cacheTtl)
      ensures asked == if ts.Some? then old(asked) + [ts.value] else old(asked)
      ensures ts.Some? && ColonFree(asked) && (forall a :: a in old(asked) ==> !SameSource(a, ts.value)) ==>
                ok == Verify(ts.value, server)
      ensures old(Sound(verdictOf)) && (ts.Some? ==> Fits(verdictOf, ts.value, server)) ==>
                Sound(verdictOf) && ok == (ts.Some? && Verify(ts.value, server))
    {
      getAt, setAt := clock.now, clock.now;
      if ts.None? {
        return false, getAt, setAt;
      }
      asked := asked + [ts.value];
      if verifyCache != null {
        AskedMore(verifyCache.history, old(asked), ts.value);
      }
      if options.caching && verifyCache != null {
        var cacheKey := CacheKey(ts.value);
        var t := clock.Read();
        getAt := t;
        var cached := verifyCache.Get(cacheKey, t);
        if cached.Some? {
          LookupInLog(verifyCache.history, cacheKey, t, options.cacheTtl);
          FoundIsAsked(verifyCache.history, old(asked), ts.value, t, options.cacheTtl);
          return cached.value, getAt, t;
        }
        ok := Verify(ts.value, server);
        t := clock.Read();
        AskedWritten(verifyCache.history, asked, Write(cacheKey, ok, t));
        verifyCache.Set(cacheKey, ok, t);
        return ok, getAt, t;
      }
      return Verify(ts.value, server), getAt, setAt;
    }

    /** The hypothesis under which cached answers are the true ones for a whole round. */
    ghost predicate Truthful(verdictOf: string -> bool, round: Round)
      reads this, verifyCache
    {
      Sound(verdictOf) && AllFit(verdictOf, round)
    }

    /** Counts one response: whether it verifies, and whether it becomes the best so far. */
    method Consider(round: Round, i: nat, valid: int, best: Option<SignedTimestamp>, ghost verdictOf: string -> bool)
      returns (valid': int, best': Option<SignedTimestamp>)
      requires Valid() && round.Wellformed() && i < |round.servers|
      modifies this`stats, this`asked, clock, verifyCache
      ensures Valid() && clock.now >= old(clock.now)
      ensures old(Truthful(verdictOf, round)) ==> Truthful(verdictOf, round)
      ensures old(Truthful(verdictOf, round)) ==>
                && stats == Rejecting(old(stats), if round.Rejected(i) then 1 else 0)
                && valid' == valid + (if round.Good(i) then 1 else 0)
                && best' == BetterOf(round, i, best)
      ensures (best.Some? ==> best'.Some?) && (valid' == valid || valid' == valid + 1)
      ensures stats.(verificationFailures := 0) == old(stats).(verificationFailures := 0)
    {
      valid', best' := valid, best;
      var resp := round.responses[i];
      if !resp.failed {
        var ok, getAt, setAt := VerifyTimestampResponse(resp.timestamp, round.servers[i], verdictOf);
        if ok {
          valid' := valid + 1;
          if best.None? || resp.timestamp.value.time < best.value.time {
            best' := resp.timestamp;
          }
        } else {
          stats := stats.(verificationFailures := stats.verificationFailures + 1);
        }
      }
    }

    /** After the first k arrivals: what has been counted, with statistics that were `before` when the call was made. */
    ghost predicate Progress(round: Round, verdictOf: string -> bool, before: Stats, k: nat,
                             valid: int, best: Option<SignedTimestamp>, rejected: nat)
      requires k <= |round.arrivals|
      reads this, verifyCache
    {
      && Truthful(verdictOf, round)
      && Tallied(round, round.arrivals[..k], valid, best, rejected)
      && stats == Counted(before, rejected)
    }

    /** Considers arrival k after those before it. */
    method ConsiderArrival(round: Round, k: nat, valid: int, best: Option<SignedTimestamp>, ghost rejected: nat,
                           ghost before: Stats, ghost truth: bool, ghost verdictOf: string -> bool)
      returns (valid': int, best': Option<SignedTimestamp>, ghost rejected': nat)
      requires Valid() && round.Wellformed() && k < |round.arrivals|
      requires truth ==> Progress(round, verdictOf, before, k, valid, best, rejected)
      modifies this`stats, this`asked, clock, verifyCache
      ensures Valid() && clock.now >= old(clock.now) && valid' >= valid
      ensures truth ==> Progress(round, verdictOf, before, k + 1, valid', best', rejected')
    {
      var i := round.arrivals[k];
      if truth {
        TallyOne(round, round.arrivals[..k], i, valid, best, rejected);
        assert round.arrivals[..k + 1] == round.arrivals[..k] + [i];
      }
      valid', best' := Consider(round, i, valid, best, verdictOf);
      rejected' := rejected + if round.Rejected(i) then 1 else 0;
    }

    /** Considers the arrivals from index `from` up to index `to`, in order. */
    method ConsiderArrivals(round: Round, from: nat, to: nat, valid: int, best: Option<SignedTimestamp>, ghost rejected: nat,
                            ghost before: Stats, ghost truth: bool, ghost verdictOf: string -> bool)
      returns (valid': int, best': Option<SignedTimestamp>, ghost rejected': nat)
      requires Valid() && round.Wellformed() && from <= to <= |round.arrivals|
      requires truth ==> Progress(round, verdictOf, before, from, valid, best, rejected)
      modifies this`stats, this`asked, clock, verifyCache
      ensures Valid() && clock.now >= old(clock.now) && valid' >= valid
      ensures truth ==> Progress(round, verdictOf, before, to, valid', best', rejected')
    {
      valid', best', rejected' := valid, best, rejected;
      for k := from to to
        invariant Valid() && clock.now >= old(clock.now) && valid' >= valid
        invariant truth ==> Progress(round, verdictOf, before, k, valid', best', rejected')
      {
        valid', best', rejected' := ConsiderArrival(round, k, valid', best', rejected', before, truth, verdictOf);
      }
    }

    /** Collects responses up to a quorum; false if the deadline comes first. */
    method CollectQuorum(round: Round, quorum: int) returns (k: nat, reached: bool)
      requires round.Wellformed()
      ensures reached <==> quorum <= |round.arrivals|
      ensures reached ==> k == if quorum > 0 then quorum else 0
    {
      k := 0;
      while k < quorum
        invariant k <= |round.arrivals| && (k <= quorum || k == 0)
      {
        if k == |round.arrivals| {
          return k, false;
        }
        k := k + 1;
      }
      return k, true;
    }

    /**
      A round succeeds exactly when a quorum of the arrivals verify, for every order of arrival,
      every timeout and both modes; it returns the earliest verified of the arrivals it used, and
      its statistics are exact.
     */
    method GetVerifiedTimestamp(round: Round, ghost verdictOf: string -> bool)
      returns (r: Result<Option<SignedTimestamp>, ClientError>)
      requires Valid() && round.Wellformed()
      modifies this`stats, this`issued, this`asked, clock, verifyCache
      ensures Valid() && clock.now >= old(clock.now)
      ensures issued == if r.Ok? then old(issued) + [r.value] else old(issued)
      ensures old(Truthful(verdictOf, round)) ==>
                && Truthful(verdictOf, round)
                && RoundOutcome(options, round, r)
                && stats == StatsAfter(options, round, old(stats), r)
    {
      stats := stats.(requests := stats.requests + 1);
      var n := |round.servers|;
      if n == 0 {
        stats := stats.(quorumFailures := stats.quorumFailures + 1);
        return Err(NoServersAvailable);
      }
      var quorum := options.quorum;
      if quorum > n {
        quorum := n;
      }
      assert quorum == Needed(options, round);
      ArrivalsBound(round.arrivals, n);

      // Collect responses up to quorum, then see how many of them verify.
      var k, reached := CollectQuorum(round, quorum);
      if !reached {
        GoodBound(round, round.arrivals);
        stats := stats.(timeouts := stats.timeouts + 1);
        return Err(RequestTimeout);
      }
      r := FromQuorum(round, quorum, k, old(stats), old(Truthful(verdictOf, round)), verdictOf);
      if r.Ok? {
        issued := issued + [r.value];
      }
    }

    /** A quorum of responses has come: sees how many of them verify, and goes on if that is not enough. */
    method FromQuorum(round: Round, quorum: int, k: nat, ghost before: Stats, ghost truth: bool, ghost verdictOf: string -> bool)
      returns (r: Result<Option<SignedTimestamp>, ClientError>)
      requires Valid() && round.Wellformed() && round.servers != [] && quorum == Needed(options, round) <= |round.arrivals|
      requires k == (if quorum > 0 then quorum else 0)
      requires truth ==> Truthful(verdictOf, round) && stats == Counted(before, 0)
      modifies this`stats, this`asked, clock, verifyCache
      ensures Valid() && clock.now >= old(clock.now)
      ensures truth ==>
                && Truthful(verdictOf, round)
                && RoundOutcome(options, round, r)
                && stats == StatsAfter(options, round, before, r)
    {
      NothingTallied(round);
      var valid, best;
      ghost var rejected: nat;
      valid, best, rejected := ConsiderArrivals(round, 0, k, 0, None, 0, before, truth, verdictOf);
      if truth && options.progressive { FirstQuorumDecides(options, round, k, valid, best, rejected); }
      if options.progressive && valid >= quorum {
        return Ok(best);
      }
      r := CollectRest(round, quorum, k, valid, best, rejected, before, truth, verdictOf);
    }

    /** Collects the rest of the responses, until all have come or the deadline has. */
    method CollectRest(round: Round, quorum: int, received: nat, valid0: int, best0: Option<SignedTimestamp>,
                       ghost rejected0: nat, ghost before: Stats, ghost truth: bool, ghost verdictOf: string -> bool)
      returns (r: Result<Option<SignedTimestamp>, ClientError>)
      requires Valid() && round.Wellformed() && round.servers != [] && quorum == Needed(options, round) <= |round.arrivals|
      requires received == (if quorum > 0 then quorum else 0) && received <= |round.arrivals|
      requires valid0 >= 0
      requires truth ==> Progress(round, verdictOf, before, received, valid0, best0, rejected0)
      requires truth ==> Used(options, round) == round.arrivals
      modifies this`stats, this`asked, clock, verifyCache
      ensures Valid() && clock.now >= old(clock.now)
      ensures truth ==>
                && Truthful(verdictOf, round)
                && RoundOutcome(options, round, r)
                && stats == StatsAfter(options, round, before, r)
    {
      // n - quorum more responses are waited for; as there are no more than n in all, every arrival is considered.
      ArrivalsBound(round.arrivals, |round.servers|);
      var valid, best;
      ghost var rejected: nat;
      valid, best, rejected := ConsiderArrivals(round, received, |round.arrivals|, valid0, best0, rejected0, before, truth, verdictOf);
      var i := quorum + |round.arrivals| - received;
      assert round.arrivals[..|round.arrivals|] == round.arrivals;
      if truth { AllArrivalsDecide(options, round, valid, best, rejected, before); }
      if valid >= quorum {
        return Ok(best);
      }
      // Too few verify: a deadline that cut the loop short is reported as a timeout.
      if i < |round.servers| {
        stats := stats.(timeouts := stats.timeouts + 1);
        return Err(RequestTimeout);
      }
      stats := stats.(quorumFailures := stats.quorumFailures + 1);
      return Err(QuorumNotReached);
    }

    /**
      The goroutine a progressive success leaves behind: it verifies the arrivals from index `from`
      on, each as the run model of cached verification does, and changes nothing but the cache.
     */
    method DrainInBackground(round: Round, from: nat, ghost verdictOf: string -> bool) returns (ghost readings: seq<(int, int)>)
      requires Valid() && round.Wellformed() && from <= |round.arrivals|
      modifies this`asked, clock, verifyCache
      ensures Valid() && clock.now >= old(clock.now)
      ensures |readings| == |round.arrivals| - from
      ensures verifyCache != null ==>
                verifyCache.history == DrainedLog(old(verifyCache.history), round, round.arrivals[from..], readings, options.cacheTtl)
      ensures old(Truthful(verdictOf, round)) ==> Truthful(verdictOf, round)
    {
      ghost var log := if verifyCache == null then [] else verifyCache.history;
      readings := DrainArrivals(round, from, log);
      assert round.arrivals[from..|round.arrivals|] == round.arrivals[from..];
      if verifyCache != null && old(Truthful(verdictOf, round)) {
        DrainSound(log, round, round.arrivals[from..], readings, options.cacheTtl, verdictOf);
      }
    }

    /** The log after the arrivals from index `from` up to index k have been drained. */
    ghost predicate DrainedTo(log: VerdictLog, round: Round, from: nat, k: nat, readings: seq<(int, int)>)
      requires from <= k <= |round.arrivals| && |readings| == k - from
      reads this, verifyCache
    {
      verifyCache != null ==>
        verifyCache.history == DrainedLog(log, round, round.arrivals[from..k], readings, options.cacheTtl)
    }

    method DrainArrivals(round: Round, from: nat, ghost log: VerdictLog) returns (ghost readings: seq<(int, int)>)
      requires Valid() && round.Wellformed() && from <= |round.arrivals|
      requires verifyCache != null ==> log == verifyCache.history
      modifies this`asked, clock, verifyCache
      ensures Valid() && clock.now >= old(clock.now) && |readings| == |round.arrivals| - from
      ensures DrainedTo(log, round, from, |round.arrivals|, readings)
    {
      readings := [];
      for k := from to |round.arrivals|
        invariant Valid() && clock.now >= old(clock.now)
        invariant |readings| == k - from && DrainedTo(log, round, from, k, readings)
      {
        readings := DrainOne(round, from, k, log, readings);
      }
    }

    method DrainOne(round: Round, from: nat, k: nat, ghost log: VerdictLog, ghost readings: seq<(int, int)>)
      returns (ghost more: seq<(int, int)>)
      requires Valid() && round.Wellformed() && from <= k < |round.arrivals| && |readings| == k - from
      requires DrainedTo(log, round, from, k, readings)
      modifies this`asked, clock, verifyCache
      ensures Valid() && clock.now >= old(clock.now) && |more| == k + 1 - from
      ensures DrainedTo(log, round, from, k + 1, more)
    {
      var i := round.arrivals[k];
      ghost var getAt, setAt := clock.now, clock.now;
      if !round.responses[i].failed {
        var ok;
        ok, getAt, setAt := VerifyTimestampResponse(round.responses[i].timestamp, round.servers[i], _ => true);
      }
      assert round.arrivals[from..k + 1] == round.arrivals[from..k] + [i];
      DrainedOneMore(log, round, round.arrivals[from..k], i, readings, (getAt, setAt), options.cacheTtl);
      more := readings + [(getAt, setAt)];
    }

    /**
      `round` is what asking the servers would give. A cached timestamp is returned exactly when
      batching is on and it is fresh enough; it is one GetVerifiedTimestamp issued before, for
      this key. Otherwise the servers are asked, and a success becomes the key's latest entry.
     */
    method GetVerifiedTimestampForBatch(batchKey: string, maxAge: int, round: Round, ghost verdictOf: string -> bool)
      returns (r: Result<Option<SignedTimestamp>, ClientError>, hit: bool, ghost t: int, ghost u: int, ghost setAt: int)
      requires Valid() && round.Wellformed()
      modifies this`stats, this`issued, this`asked, clock, verifyCache, batchCache
      ensures Valid()
      ensures old(clock.now) <= t <= u <= clock.now
      ensures hit <==> options.batching && batchCache != null && Reusable(old(batchCache.history), batchKey, maxAge, options.cacheTtl, t, u)
      ensures hit ==>
                && r == Ok(Lookup(old(batchCache.history), batchKey, t, options.cacheTtl).value)
                && r.value in old(issued) && issued == old(issued)
                && batchCache.history == old(batchCache.history)
                && stats == old(stats).(cacheHits := old(stats).cacheHits + 1)
      ensures !hit ==> issued == if r.Ok? then old(issued) + [r.value] else old(issued)
      ensures !hit && batchCache != null ==>
                if options.batching && r.Ok?
                then u <= setAt <= clock.now && batchCache.history == old(batchCache.history) + [Write(batchKey, r.value, setAt)]
                else batchCache.history == old(batchCache.history)
      ensures !hit && old(Truthful(verdictOf, round)) ==>
                && RoundOutcome(options, round, r)
                && stats == StatsAfter(options, round,
                                       if options.batching && batchCache != null
                                       then old(stats).(cacheMisses := old(stats).cacheMisses + 1) else old(stats), r)
    {
      t, u, setAt, hit := clock.now, clock.now, clock.now, false;
      if !options.batching || batchCache == null {
        r := GetVerifiedTimestamp(round, verdictOf);
        return;
      }
      var reused: Option<SignedTimestamp>;
      reused, t, u := ReuseCached(batchKey, maxAge);
      if reused.Some? {
        stats := stats.(cacheHits := stats.cacheHits + 1);
        return Ok(reused), true, t, u, setAt;
      }
      stats := stats.(cacheMisses := stats.cacheMisses + 1);
      r, setAt := AskAndCache(batchKey, round, verdictOf);
    }

    /** Asks the servers; a success becomes the key's latest entry. */
    method AskAndCache(batchKey: string, round: Round, ghost verdictOf: string -> bool)
      returns (r: Result<Option<SignedTimestamp>, ClientError>, ghost setAt: int)
      requires Valid() && round.Wellformed() && batchCache != null
      modifies this`stats, this`issued, this`asked, clock, verifyCache, batchCache
      ensures Valid() && old(clock.now) <= setAt <= clock.now
      ensures issued == if r.Ok? then old(issued) + [r.value] else old(issued)
      ensures batchCache.history == if r.Ok? then old(batchCache.history) + [Write(batchKey, r.value, setAt)] else old(batchCache.history)
      ensures old(Truthful(verdictOf, round)) ==>
                RoundOutcome(options, round, r) && stats == StatsAfter(options, round, old(stats), r)
    {
      r := GetVerifiedTimestamp(round, verdictOf);
      setAt := clock.now;
      if r.Ok? {
        var at := clock.Read();
        batchCache.Set(batchKey, r.value, at);
        setAt := at;
      }
    }

    /** The cached timestamp for the key, if there is one that is recent enough. */
    method ReuseCached(batchKey: string, maxAge: int) returns (reused: Option<SignedTimestamp>, ghost t: int, ghost u: int)
      requires Valid() && batchCache != null
      modifies clock
      ensures Valid() && old(clock.now) <= t <= u <= clock.now
      ensures reused.Some? <==> Reusable(batchCache.history, batchKey, maxAge, options.cacheTtl, t, u)
      ensures reused.Some? ==> reused == Lookup(batchCache.history, batchKey, t, options.cacheTtl).value && reused in issued
    {
      var now := clock.Read();
      t, u := now, now;
      var cached := batchCache.Get(batchKey, now);
      if cached.Some? && cached.value.Some? {
        var later := clock.Read();
        u := later;
        if later - cached.value.value.time <= maxAge {
          var k := LatestSome(batchCache.history, batchKey);
          assert batchCache.history[k] in batchCache.history;
          return cached.value, t, u;
        }
      }
      return None, t, u;
    }
  }

  lemma LookupInLog(log: VerdictLog, key: string, now: int, ttl: int)
    requires Lookup(log, key, now, ttl).Some?
    ensures Write(key, Lookup(log, key, now, ttl).value, Latest(log, key).value.at) in log
  {
    var k := LatestSome(log, key);
    assert log[k] in log;
  }

  // ---------- what a round's outcome means ----------

  /** Server i answered, in this round, with a timestamp it accepts itself. */
  ghost predicate VerifiedArrival(round: Round, i: nat) {
    && i in round.arrivals && i < |round.servers| && i < |round.responses|
    && !round.responses[i].failed && round.responses[i].timestamp.Some?
    && round.servers[i].verify(TimestampToBytes(round.responses[i].timestamp.value.time),
                               round.responses[i].timestamp.value.signature)
  }

  /**
    The quorum in the caller's terms: a round succeeds exactly when as many of the arrivals verify
    as were asked for, or, if there are fewer servers, all of them.
   */
  lemma QuorumExactly(options: Options, round: Round, r: Result<Option<SignedTimestamp>, ClientError>)
    requires round.Wellformed() && round.servers != [] && RoundOutcome(options, round, r)
    ensures r.Ok? <==> |round.GoodAmong(round.arrivals)| >= options.quorum || |round.GoodAmong(round.arrivals)| == |round.servers|
  {
    GoodBound(round, round.arrivals);
    ArrivalsBound(round.arrivals, |round.servers|);
  }

  /** A success rests on that many different servers, each of which verified. */
  lemma SuccessHasQuorum(options: Options, round: Round, r: Result<Option<SignedTimestamp>, ClientError>) returns (verified: set<nat>)
    requires round.Wellformed() && RoundOutcome(options, round, r) && r.Ok?
    ensures forall i :: i in verified ==> VerifiedArrival(round, i)
    ensures |verified| >= options.quorum || |verified| == |round.servers|
  {
    QuorumExactly(options, round, r);
    verified := round.GoodAmong(round.arrivals);
  }

  /** And that many are enough, whoever they are. */
  lemma QuorumSuffices(options: Options, round: Round, r: Result<Option<SignedTimestamp>, ClientError>, verified: set<nat>)
    requires round.Wellformed() && round.servers != [] && RoundOutcome(options, round, r)
    requires forall i :: i in verified ==> VerifiedArrival(round, i)
    requires |verified| >= options.quorum || |verified| == |round.servers|
    ensures r.Ok?
  {
    assert forall i :: i in verified ==> i in round.GoodAmong(round.arrivals);
    SubsetSize(verified, round.GoodAmong(round.arrivals));
    QuorumExactly(options, round, r);
    GoodBound(round, round.arrivals);
    ArrivalsBound(round.arrivals, |round.servers|);
  }

  /** With a quorum of at least one, a success carries the timestamp of one of them. */
  lemma SuccessIsVerified(options: Options, round: Round, r: Result<Option<SignedTimestamp>, ClientError>)
    returns (i: nat, verified: set<nat>)
    requires round.Wellformed() && RoundOutcome(options, round, r) && r.Ok? && options.quorum >= 1
    ensures forall k :: k in verified ==> VerifiedArrival(round, k)
    ensures |verified| >= options.quorum || |verified| == |round.servers|
    ensures i in verified && round.Good(i) && round.responses[i].timestamp == r.value
  {
    i := OneVerified(options, round, r);
    verified := round.GoodAmong(round.arrivals);
    QuorumExactly(options, round, r);
  }

  lemma OneVerified(options: Options, round: Round, r: Result<Option<SignedTimestamp>, ClientError>) returns (i: nat)
    requires RoundOutcome(options, round, r) && r.Ok? && options.quorum >= 1
    ensures r.value.Some? && i in round.arrivals && round.Good(i) && round.responses[i].timestamp == r.value
  {
    var used := Used(options, round);
    assert |round.GoodAmong(used)| >= Needed(options, round);
    var best := r.value.value;
    var k :| round.EarliestAt(used, best, k);
    i := used[k];
  }

  /** The first `count` arrivals all verify. */
  ghost predicate FirstVerify(round: Round, count: int) {
    count <= |round.arrivals| && forall k :: 0 <= k < count ==> VerifiedArrival(round, round.arrivals[k])
  }

  /** Of the first `count` arrivals, arrival k is the earliest that verifies, the first of them in case of ties, and carries `best`. */
  ghost predicate Takes(round: Round, count: int, k: nat, best: SignedTimestamp) {
    && k < count <= |round.arrivals| && VerifiedArrival(round, round.arrivals[k])
    && round.responses[round.arrivals[k]].timestamp == Some(best)
    && forall j :: 0 <= j < count && VerifiedArrival(round, round.arrivals[j]) ==>
         var other := round.responses[round.arrivals[j]].timestamp.value.time;
         if j < k then best.time < other else best.time <= other
  }

  lemma {:induction false} AllGoodExactly(round: Round, indices: seq<nat>)
    requires Distinct(indices)
    ensures |round.GoodAmong(indices)| == |indices| <==> forall k :: 0 <= k < |indices| ==> round.Good(indices[k])
  {
    if indices != [] {
      var n := |indices| - 1;
      AllGoodExactly(round, indices[..n]);
      GoodBound(round, indices[..n]);
      SetsExtend(round, indices[..n], indices[n]);
      assert indices == indices[..n] + [indices[n]];
    } else {
      assert round.GoodAmong(indices) == {};
    }
  }

  lemma FirstVerifyExactly(round: Round, count: nat)
    requires round.Wellformed() && count <= |round.arrivals|
    ensures FirstVerify(round, count) <==> |round.GoodAmong(round.arrivals[..count])| >= count
  {
    var first := round.arrivals[..count];
    assert forall j :: 0 <= j < count ==> (round.Good(first[j]) <==> VerifiedArrival(round, round.arrivals[j]));
    AllGoodExactly(round, first);
    GoodBound(round, first);
  }

  /** The quorum asked for, or all servers if there are fewer. */
  predicate IsQuorum(options: Options, round: Round, quorum: int) {
    quorum == options.quorum <= |round.servers| || quorum == |round.servers| < options.quorum
  }

  lemma UsedFirst(options: Options, round: Round, quorum: int)
    requires round.Wellformed() && IsQuorum(options, round, quorum)
    requires options.progressive && quorum >= 1 && FirstVerify(round, quorum)
    ensures Used(options, round) == round.arrivals[..quorum]
    ensures |round.GoodAmong(round.arrivals)| >= quorum
  {
    FirstVerifyExactly(round, quorum);
    GoodPrefix(round, round.arrivals, quorum);
  }

  lemma UsedAll(options: Options, round: Round, quorum: int)
    requires round.Wellformed() && IsQuorum(options, round, quorum)
    requires !options.progressive || !FirstVerify(round, quorum)
    ensures Used(options, round) == round.arrivals
  {
    if options.progressive && 0 < quorum <= |round.arrivals| {
      FirstVerifyExactly(round, quorum);
    }
  }

  lemma EarliestTakes(round: Round, count: nat, k: int, best: SignedTimestamp)
    requires round.Wellformed() && count <= |round.arrivals| && round.EarliestAt(round.arrivals[..count], best, k)
    ensures Takes(round, count, k, best)
  {
    forall j | 0 <= j < count && VerifiedArrival(round, round.arrivals[j])
      ensures var other := round.responses[round.arrivals[j]].timestamp.value.time;
              if j < k then best.time < other else best.time <= other
    {
      assert round.arrivals[..count][j] == round.arrivals[j] && round.Good(round.arrivals[j]);
    }
  }

  /** Progressive mode, and the first quorum of arrivals all verify: the earliest of those, whatever comes later. */
  lemma FirstQuorumTaken(options: Options, round: Round, r: Result<Option<SignedTimestamp>, ClientError>, quorum: int) returns (k: nat)
    requires round.Wellformed() && round.servers != [] && RoundOutcome(options, round, r)
    requires quorum == options.quorum <= |round.servers| || quorum == |round.servers| < options.quorum
    requires options.progressive && quorum >= 1 && FirstVerify(round, quorum)
    ensures r.Ok? && r.value.Some? && Takes(round, quorum, k, r.value.value)
  {
    UsedFirst(options, round, quorum);
    TimestampExactly(options, round, r);
    k :| round.EarliestAt(round.arrivals[..quorum], r.value.value, k);
    EarliestTakes(round, quorum, k, r.value.value);
  }

  /** Full mode, or some of the first quorum of arrivals do not verify: the earliest of all that do. */
  lemma EarliestTaken(options: Options, round: Round, r: Result<Option<SignedTimestamp>, ClientError>, quorum: int) returns (k: nat)
    requires round.Wellformed() && RoundOutcome(options, round, r) && r.Ok? && r.value.Some?
    requires quorum == options.quorum <= |round.servers| || quorum == |round.servers| < options.quorum
    requires !options.progressive || !FirstVerify(round, quorum)
    ensures Takes(round, |round.arrivals|, k, r.value.value)
  {
    UsedAll(options, round, quorum);
    assert round.arrivals[..|round.arrivals|] == round.arrivals;
    k :| round.EarliestAt(round.arrivals, r.value.value, k);
    EarliestTakes(round, |round.arrivals|, k, r.value.value);
  }

  /** Server i answered in time without error, but with nothing that verifies. */
  ghost predicate RejectedArrival(round: Round, i: nat) {
    i in round.arrivals && i < |round.responses| && !round.responses[i].failed && !VerifiedArrival(round, i)
  }

  /**
    Which responses were verified and rejected: none if fewer arrived than the quorum, or if the
    first quorum of arrivals all verify in progressive mode; otherwise every response that came
    without error and does not verify.
   */
  lemma RejectedExactly(options: Options, round: Round, quorum: int)
    requires round.Wellformed()
    requires quorum == options.quorum <= |round.servers| || quorum == |round.servers| < options.quorum
    ensures round.RejectedAmong(Considered(options, round)) ==
            if |round.arrivals| < quorum || (options.progressive && FirstVerify(round, quorum)) then {}
            else set i | i in round.arrivals && RejectedArrival(round, i)
  {
    if |round.arrivals| >= quorum {
      if options.progressive && FirstVerify(round, quorum) {
        if quorum >= 1 {
          UsedFirst(options, round, quorum);
          forall i | i in round.arrivals[..quorum] ensures round.Good(i) {
            var j :| 0 <= j < quorum && round.arrivals[..quorum][j] == i;
            assert VerifiedArrival(round, round.arrivals[j]);
          }
        }
      } else {
        UsedAll(options, round, quorum);
        forall i | i in round.arrivals ensures round.Rejected(i) <==> RejectedArrival(round, i) {
        }
      }
    }
  }

  /** The counters in the caller's terms: one request more, one failure more unless the round succeeds, and the rejected responses. */
  lemma CountersExactly(options: Options, round: Round, r: Result<Option<SignedTimestamp>, ClientError>, before: Stats, after: Stats)
    requires round.Wellformed() && round.servers != [] && RoundOutcome(options, round, r)
    requires after == StatsAfter(options, round, before, r)
    ensures after.requests == before.requests + 1
    ensures after.cacheHits == before.cacheHits && after.cacheMisses == before.cacheMisses
    ensures after.timeouts == before.timeouts + if r.Err? && |round.arrivals| < |round.servers| then 1 else 0
    ensures after.quorumFailures == before.quorumFailures + if r.Err? && |round.arrivals| >= |round.servers| then 1 else 0
    ensures after.verificationFailures == before.verificationFailures + |round.RejectedAmong(Considered(options, round))|
  {
  }

  /** A success carries a timestamp exactly when a quorum of at least one was asked for, or full mode found one that verifies. */
  lemma TimestampExactly(options: Options, round: Round, r: Result<Option<SignedTimestamp>, ClientError>)
    requires RoundOutcome(options, round, r) && r.Ok?
    ensures r.value.Some? <==> options.quorum >= 1 || (!options.progressive && round.GoodAmong(round.arrivals) != {})
  {
    if options.quorum >= 1 {
      var i := OneVerified(options, round, r);
    } else if r.value.Some? {
      var k :| round.EarliestAt(Used(options, round), r.value.value, k);
      assert Used(options, round)[k] in round.GoodAmong(Used(options, round));
    }
  }

  /** With a quorum of zero or less, progressive mode always, and full mode if nothing verifies, succeeds with no timestamp. */
  lemma NoQuorumNoTimestamp(options: Options, round: Round, r: Result<Option<SignedTimestamp>, ClientError>)
    requires round.servers != [] && RoundOutcome(options, round, r)
    requires options.quorum <= 0 && (options.progressive || round.GoodAmong(round.arrivals) == {})
    ensures r == Ok(None)
  {
    TimestampExactly(options, round, r);
  }

  /** A round that succeeds without a timestamp. */
  ghost predicate SucceedsEmpty(options: Options, round: Round, r: Result<Option<SignedTimestamp>, ClientError>) {
    round.Wellformed() && RoundOutcome(options, round, r) && r == Ok(None)
  }

  /** Before a call is made: every success of every round carries a timestamp exactly when the quorum is at least one. */
  lemma AlwaysTimestampExactly(options: Options)
    ensures options.quorum >= 1 <==>
            forall round: Round, r: Result<Option<SignedTimestamp>, ClientError> :: !SucceedsEmpty(options, round, r)
  {
    if options.quorum >= 1 {
      forall round: Round, r: Result<Option<SignedTimestamp>, ClientError> ensures !SucceedsEmpty(options, round, r) {
        if SucceedsEmpty(options, round, r) {
          TimestampExactly(options, round, r);
        }
      }
    } else {
      var round := SilentRound(options);
    }
  }

  /** One server, and the deadline comes before its answer: with a quorum of zero or less both modes succeed with no timestamp. */
  lemma SilentRound(options: Options) returns (round: Round)
    requires options.quorum <= 0
    ensures SucceedsEmpty(options, round, Ok(None))
  {
    var server := TimeServer("s", "r", _ => Err("offline"), (message, signature) => false);
    round := Round([server], [ServerResponse(None, true)], []);
    assert round.GoodAmong([]) == {};
    assert Used(options, round) == [];
  }

  /** All servers' answers came. */
  ghost predicate Complete(round: Round) {
    round.Wellformed() && |round.arrivals| == |round.servers|
  }

  lemma {:induction false} AllArrive(arrivals: seq<nat>, n: nat, i: nat)
    requires forall k :: 0 <= k < |arrivals| ==> arrivals[k] < n
    requires Distinct(arrivals)
    requires |arrivals| == n && i < n
    ensures i in arrivals
  {
    if i !in arrivals {
      var moved := seq(n, k requires 0 <= k < n => if arrivals[k] == n - 1 then i else arrivals[k]);
      ArrivalsBound(moved, n - 1);
    }
  }

  lemma CompleteGood(round: Round)
    requires Complete(round)
    ensures forall i: nat :: i in round.GoodAmong(round.arrivals) <==> round.Good(i)
  {
    forall i: nat | round.Good(i) ensures i in round.arrivals {
      AllArrive(round.arrivals, |round.servers|, i);
    }
  }

  /**
    The order of arrival and the mode do not decide: two rounds of the same answers, all of which
    come, succeed together, exactly when a quorum of the servers verify. In full mode the time is
    the earliest verified of all; a progressive one is never earlier.
   */
  lemma OrderAndModeIndependent(any: Options, full: Options, a: Round, b: Round,
                                ra: Result<Option<SignedTimestamp>, ClientError>, rb: Result<Option<SignedTimestamp>, ClientError>)
    requires a.servers == b.servers != [] && a.responses == b.responses && Complete(a) && Complete(b)
    requires any.quorum == full.quorum >= 1 && !full.progressive
    requires RoundOutcome(any, a, ra) && RoundOutcome(full, b, rb)
    ensures ra.Ok? <==> rb.Ok?
    ensures var verified := set i | 0 <= i < |b.servers| && VerifiedArrival(b, i);
            rb.Ok? <==> |verified| >= full.quorum || |verified| == |b.servers|
    ensures forall i: nat :: VerifiedArrival(b, i) <==>
              && i < |b.servers| && !b.responses[i].failed && b.responses[i].timestamp.Some?
              && Verify(b.responses[i].timestamp.value, b.servers[i])
    ensures rb.Ok? ==>
              && ra.value.Some? && rb.value.Some?
              && rb.value.value.time <= ra.value.value.time
              && (forall i: nat :: VerifiedArrival(b, i) ==> rb.value.value.time <= b.responses[i].timestamp.value.time)
    ensures ra.Ok? && !any.progressive ==> ra.value.value.time == rb.value.value.time
  {
    CompleteVerified(a);
    CompleteVerified(b);
    assert a.GoodAmong(a.arrivals) == b.GoodAmong(b.arrivals);
    QuorumExactly(any, a, ra);
    QuorumExactly(full, b, rb);
    if rb.Ok? {
      TimesCompare(any, full, a, b, ra, rb);
    }
  }

  /** When all answers come, a server's arrival verifies exactly when its answer does. */
  lemma CompleteVerified(round: Round)
    requires Complete(round)
    ensures forall i: nat :: VerifiedArrival(round, i) <==>
              && i < |round.servers| && !round.responses[i].failed && round.responses[i].timestamp.Some?
              && Verify(round.responses[i].timestamp.value, round.servers[i])
    ensures round.GoodAmong(round.arrivals) == set i | 0 <= i < |round.servers| && VerifiedArrival(round, i)
  {
    CompleteGood(round);
    forall i: nat ensures VerifiedArrival(round, i) <==> round.Good(i) {
      if round.Good(i) {
        assert i in round.GoodAmong(round.arrivals);
      }
    }
  }

  lemma TimesCompare(any: Options, full: Options, a: Round, b: Round,
                     ra: Result<Option<SignedTimestamp>, ClientError>, rb: Result<Option<SignedTimestamp>, ClientError>)
    requires a.servers == b.servers != [] && a.responses == b.responses && Complete(a) && Complete(b)
    requires any.quorum == full.quorum >= 1 && !full.progressive
    requires RoundOutcome(any, a, ra) && RoundOutcome(full, b, rb) && ra.Ok? && rb.Ok?
    ensures ra.value.Some? && rb.value.Some? && rb.value.value.time <= ra.value.value.time
    ensures forall i: nat :: VerifiedArrival(b, i) ==> rb.value.value.time <= b.responses[i].timestamp.value.time
    ensures !any.progressive ==> ra.value.value.time == rb.value.value.time
  {
    var i := OneVerified(any, a, ra);
    var j := OneVerified(full, b, rb);
    assert forall k: nat :: (a.Good(k) <==> b.Good(k)) && (VerifiedArrival(b, k) ==> b.Good(k));
    EarliestOfAll(full, b, rb);
    if !any.progressive {
      EarliestOfAll(any, a, ra);
    }
  }

  lemma EarliestOfAll(full: Options, round: Round, r: Result<Option<SignedTimestamp>, ClientError>)
    requires round.servers != [] && Complete(round) && full.quorum >= 1 && !full.progressive
    requires RoundOutcome(full, round, r) && r.Ok? && r.value.Some?
    ensures forall i: nat :: round.Good(i) ==> r.value.value.time <= round.responses[i].timestamp.value.time
  {
    CompleteGood(round);
    var k :| round.EarliestAt(round.arrivals, r.value.value, k);
    forall i: nat | round.Good(i) ensures r.value.value.time <= round.responses[i].timestamp.value.time {
      assert i in round.GoodAmong(round.arrivals);
      var j :| 0 <= j < |round.arrivals| && round.arrivals[j] == i;
    }
  }
}
