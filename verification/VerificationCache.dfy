/**
  Verification behind a cache (core/client/hft_client.go:369-396) over whole runs, and exactly
  when it gives the answers that verification without a cache gives.
 */
module VerificationCache {
  import opened Wrappers
  import opened TimeTypes
  import opened TtlCache

  /** fmt.Sprintf("%s:%s:%s", ServerID, RegionID, Signature): the time is not part of the key. */
  function CacheKey(ts: SignedTimestamp): string {
    ts.serverId + ":" + ts.regionId + ":" + Text(ts.signature)
  }

  /** The bytes of a signature as the characters of a string. */
  function Text(b: Bytes): string {
    if b == [] then "" else Text(b[..|b| - 1]) + [b[|b| - 1] as char]
  }

  /** One verification asked for: the key it is cached under, and what `Verify` says. */
  datatype Call = Call(key: string, verdict: bool)

  function CallFor(ts: SignedTimestamp, server: TimeServer): Call {
    Call(CacheKey(ts), Verify(ts, server))
  }

  type VerdictLog = seq<Write<bool>>

  /** The answer of one cached verification: the cached verdict if there is one, else the true one, which is then cached. */
  function CachedAnswer(log: VerdictLog, call: Call, getAt: int, ttl: int): bool {
    match Lookup(log, call.key, getAt, ttl)
    case Some(v) => v
    case None => call.verdict
  }

  function LogAfter(log: VerdictLog, call: Call, getAt: int, setAt: int, ttl: int): VerdictLog {
    if Lookup(log, call.key, getAt, ttl).Some? then log else log + [Write(call.key, call.verdict, setAt)]
  }

  // ---------- interleaved calls ----------

  /**
    One region under the cache's lock, with the clock reading it makes: a call looks its key up, a
    call that found nothing stores the verdict it computed, or the cleanup tick comes. Calls are
    named by index.
   */
  datatype Step = Look(call: nat, at: int) | Store(call: nat, at: int) | Clean(at: int)

  predicate InRange(calls: seq<Call>, steps: seq<Step>) {
    forall k :: 0 <= k < |steps| && !steps[k].Clean? ==> steps[k].call < |calls|
  }

  /** The verdicts stored so far. */
  function LogOf(calls: seq<Call>, steps: seq<Step>): VerdictLog
    requires InRange(calls, steps)
  {
    if steps == [] then []
    else
      var n := |steps| - 1;
      var before := LogOf(calls, steps[..n]);
      match steps[n]
      case Store(c, at) => before + [Write(calls[c].key, calls[c].verdict, at)]
      case _ => before
  }

  /** The calls that have looked their key up, found nothing, and not stored their verdict yet. */
  function Missed(calls: seq<Call>, steps: seq<Step>, ttl: int): set<nat>
    requires InRange(calls, steps)
  {
    if steps == [] then {}
    else
      var n := |steps| - 1;
      var before := Missed(calls, steps[..n], ttl);
      match steps[n]
      case Look(c, at) => if Lookup(LogOf(calls, steps[..n]), calls[c].key, at, ttl).None? then before + {c} else before
      case Store(c, _) => before - {c}
      case Clean(_) => before
  }

  /** Calls that run in any number of goroutines: each looks once, and then stores if it found nothing. */
  ghost predicate Interleaving(calls: seq<Call>, steps: seq<Step>, ttl: int) {
    && InRange(calls, steps)
    && (forall i, j :: 0 <= i < j < |steps| ==> steps[i].at <= steps[j].at)
    && (forall i, j :: 0 <= i < j < |steps| && steps[i].Look? && steps[j].Look? ==> steps[i].call != steps[j].call)
    && (forall k :: 0 <= k < |steps| && steps[k].Store? ==> steps[k].call in Missed(calls, steps[..k], ttl))
  }

  /** The answer of the call that looks at step k. */
  ghost predicate TrueAnswer(calls: seq<Call>, steps: seq<Step>, k: nat, ttl: int)
    requires InRange(calls, steps) && k < |steps| && steps[k].Look?
  {
    var call := calls[steps[k].call];
    CachedAnswer(LogOf(calls, steps[..k]), call, steps[k].at, ttl) == call.verdict
  }

  /** Every cached answer is what `Verify` says. */
  ghost predicate Agrees(calls: seq<Call>, steps: seq<Step>, ttl: int)
    requires InRange(calls, steps)
  {
    forall k :: 0 <= k < |steps| && steps[k].Look? ==> TrueAnswer(calls, steps, k, ttl)
  }

  /** Calls with the same cache key have the same verdict. */
  ghost predicate KeyDecides(calls: seq<Call>) {
    forall i, j :: 0 <= i < |calls| && 0 <= j < |calls| && calls[i].key == calls[j].key ==>
      calls[i].verdict == calls[j].verdict
  }

  /** A cached verdict is one of the calls' own, stored at one of the steps. */
  lemma {:induction false} LogFromCalls(calls: seq<Call>, steps: seq<Step>, w: Write<bool>) returns (k: nat)
    requires InRange(calls, steps) && w in LogOf(calls, steps)
    ensures k < |steps| && steps[k].Store? && steps[k].at == w.at
    ensures calls[steps[k].call] == Call(w.key, w.value)
  {
    var n := |steps| - 1;
    if w in LogOf(calls, steps[..n]) {
      k := LogFromCalls(calls, steps[..n], w);
    } else {
      k := n;
    }
  }

  /** If the key decides the verdict, caching changes no answer, however calls overlap and are timed. */
  lemma KeyDecidesAgrees(calls: seq<Call>, steps: seq<Step>, ttl: int)
    requires InRange(calls, steps) && KeyDecides(calls)
    ensures Agrees(calls, steps, ttl)
  {
    forall k | 0 <= k < |steps| && steps[k].Look? ensures TrueAnswer(calls, steps, k, ttl) {
      var log, key := LogOf(calls, steps[..k]), calls[steps[k].call].key;
      if Lookup(log, key, steps[k].at, ttl).Some? {
        var w := LatestSome(log, key);
        var stored := LogFromCalls(calls, steps[..k], log[w]);
      }
    }
  }

  /** With a negative ttl nothing is ever found. */
  lemma NeverFound(calls: seq<Call>, steps: seq<Step>, ttl: int)
    requires Interleaving(calls, steps, ttl) && ttl < 0
    ensures Agrees(calls, steps, ttl)
  {
    forall k | 0 <= k < |steps| && steps[k].Look? ensures TrueAnswer(calls, steps, k, ttl) {
      var log, key := LogOf(calls, steps[..k]), calls[steps[k].call].key;
      if Latest(log, key).Some? {
        var w := LatestSome(log, key);
        var stored := LogFromCalls(calls, steps[..k], log[w]);
        assert steps[stored].at <= steps[k].at;
      }
    }
  }

  /** One call after the other: the second is answered with the verdict of the first. */
  lemma SecondAnsweredByFirst(calls: seq<Call>, i: nat, j: nat, ttl: int) returns (steps: seq<Step>)
    requires i < |calls| && j < |calls| && i != j && calls[i].key == calls[j].key && ttl >= 0
    ensures Interleaving(calls, steps, ttl) && |steps| == 3 && steps[2] == Look(j, 0)
    ensures CachedAnswer(LogOf(calls, steps[..2]), calls[j], 0, ttl) == calls[i].verdict
  {
    steps := [Look(i, 0), Store(i, 0), Look(j, 0)];
    assert steps[..1] == [Look(i, 0)] && steps[..1][..0] == [];
    assert steps[..2] == [Look(i, 0), Store(i, 0)] && steps[..2][..1] == steps[..1];
    assert LogOf(calls, steps[..1]) == [];
    assert Missed(calls, steps[..1], ttl) == {i};
    assert LogOf(calls, steps[..2]) == [Write(calls[i].key, calls[i].verdict, 0)];
  }

  /**
    Cached verification agrees with `Verify` in every interleaving exactly when the key decides the
    verdict, or nothing is ever found because the ttl is negative.
   */
  lemma CacheAgreesExactly(calls: seq<Call>, ttl: int)
    ensures ttl < 0 || KeyDecides(calls) <==>
            forall steps: seq<Step> :: Interleaving(calls, steps, ttl) ==> Agrees(calls, steps, ttl)
  {
    if ttl < 0 || KeyDecides(calls) {
      forall steps: seq<Step> | Interleaving(calls, steps, ttl) ensures Agrees(calls, steps, ttl) {
        if ttl < 0 { NeverFound(calls, steps, ttl); } else { KeyDecidesAgrees(calls, steps, ttl); }
      }
    } else {
      var i, j :| 0 <= i < |calls| && 0 <= j < |calls| && calls[i].key == calls[j].key
                  && calls[i].verdict != calls[j].verdict;
      var steps := SecondAnsweredByFirst(calls, i, j, ttl);
      assert !TrueAnswer(calls, steps, 2, ttl);
    }
  }

  /** A call that nothing interrupts looks and then stores at once. */
  lemma SequentialCall(calls: seq<Call>, steps: seq<Step>, c: nat, getAt: int, setAt: int, ttl: int)
    requires InRange(calls, steps) && c < |calls|
    ensures var log := LogOf(calls, steps);
            var alone := if Lookup(log, calls[c].key, getAt, ttl).Some? then [Look(c, getAt)] else [Look(c, getAt), Store(c, setAt)];
            InRange(calls, steps + alone) && LogOf(calls, steps + alone) == LogAfter(log, calls[c], getAt, setAt, ttl)
  {
    var looked := steps + [Look(c, getAt)];
    assert looked[..|steps|] == steps;
    var stored := steps + [Look(c, getAt), Store(c, setAt)];
    assert stored[..|steps| + 1] == looked;
  }

  /** The answer the run model gives at step k, if a call looks there. */
  predicate AnswersStep(calls: seq<Call>, steps: seq<Step>, k: nat, ttl: int, answer: bool)
    requires InRange(calls, steps) && k < |steps|
  {
    steps[k].Look? ==> answer == CachedAnswer(LogOf(calls, steps[..k]), calls[steps[k].call], steps[k].at, ttl)
  }

  /** The cache object serves any interleaving as the run model says. */
  method ServeSteps(calls: seq<Call>, steps: seq<Step>, ttl: int) returns (answers: seq<bool>)
    requires InRange(calls, steps)
    requires forall i, j :: 0 <= i < j < |steps| ==> steps[i].at <= steps[j].at
    ensures |answers| == |steps| && forall k :: 0 <= k < |steps| ==> AnswersStep(calls, steps, k, ttl, answers[k])
  {
    answers := [];
    if steps == [] {
      return;
    }
    var cache := new TtlCache<bool>(ttl, steps[0].at);
    for k := 0 to |steps|
      invariant cache.Valid() && fresh(cache) && cache.ttl == ttl
      invariant cache.history == LogOf(calls, steps[..k])
      invariant cache.cleanedAt <= steps[if k == 0 then 0 else k - 1].at
      invariant |answers| == k && forall i :: 0 <= i < k ==> AnswersStep(calls, steps, i, ttl, answers[i])
    {
      var answer := ServeStep(cache, calls, steps, k);
      answers := answers + [answer];
    }
  }

  /** One region under the lock. */
  method ServeStep(cache: TtlCache<bool>, calls: seq<Call>, steps: seq<Step>, k: nat) returns (answer: bool)
    requires InRange(calls, steps) && k < |steps|
    requires cache.Valid() && cache.cleanedAt <= steps[k].at && cache.history == LogOf(calls, steps[..k])
    modifies cache
    ensures cache.Valid() && cache.cleanedAt <= steps[k].at && cache.history == LogOf(calls, steps[..k + 1])
    ensures AnswersStep(calls, steps, k, cache.ttl, answer)
  {
    assert steps[..k + 1][..k] == steps[..k];
    answer := false;
    match steps[k]
    case Look(c, at) =>
      var cached := cache.Get(calls[c].key, at);
      answer := if cached.Some? then cached.value else calls[c].verdict;
    case Store(c, at) =>
      cache.Set(calls[c].key, calls[c].verdict, at);
    case Clean(at) =>
      cache.Cleanup(at);
  }

  // ---------- what the key contains ----------

  predicate NoColon(s: string) {
    forall i :: 0 <= i < |s| ==> s[i] != ':'
  }

  /** Server, region and signature agree; the time need not. */
  predicate SameSource(a: SignedTimestamp, b: SignedTimestamp) {
    a.serverId == b.serverId && a.regionId == b.regionId && a.signature == b.signature
  }

  lemma {:induction false} TextInjective(a: Bytes, b: Bytes)
    requires Text(a) == Text(b)
    ensures a == b
  {
    if a != [] && b != [] {
      var m, n := |a| - 1, |b| - 1;
      assert Text(a)[..|Text(a)| - 1] == Text(a[..m]) && Text(b)[..|Text(b)| - 1] == Text(b[..n]);
      assert Text(a)[|Text(a)| - 1] == a[m] as char && Text(b)[|Text(b)| - 1] == b[n] as char;
      TextInjective(a[..m], b[..n]);
      assert a[m] == b[n];
      assert a == a[..m] + [a[m]] && b == b[..n] + [b[n]];
    }
  }

  /** The text before the first colon is determined. */
  lemma FirstColon(a: string, b: string, c: string, d: string)
    requires NoColon(a) && NoColon(c) && a + ":" + b == c + ":" + d
    ensures a == c && b == d
  {
    var s, t := a + ":" + b, c + ":" + d;
    assert s[|a|] == ':' && t[|c|] == ':';
    assert forall k :: 0 <= k < |a| ==> s[k] == a[k];
    assert forall k :: 0 <= k < |c| ==> t[k] == c[k];
    assert |a| == |c|;
    assert s[..|a|] == a && t[..|c|] == c;
    assert s[|a| + 1..] == b && t[|c| + 1..] == d;
  }

  /** For identifiers without a colon, keys agree exactly when server, region and signature do. */
  lemma KeyExactly(a: SignedTimestamp, b: SignedTimestamp)
    requires NoColon(a.serverId) && NoColon(a.regionId) && NoColon(b.serverId) && NoColon(b.regionId)
    ensures CacheKey(a) == CacheKey(b) <==>
            a.serverId == b.serverId && a.regionId == b.regionId && a.signature == b.signature
  {
    if CacheKey(a) == CacheKey(b) {
      var p, q := a.regionId + ":" + Text(a.signature), b.regionId + ":" + Text(b.signature);
      assert CacheKey(a) == a.serverId + ":" + p && CacheKey(b) == b.serverId + ":" + q;
      FirstColon(a.serverId, p, b.serverId, q);
      FirstColon(a.regionId, Text(a.signature), b.regionId, Text(b.signature));
      TextInjective(a.signature, b.signature);
    }
  }

  /** With colons in identifiers, different servers and regions can share a key. */
  lemma KeysCollide() returns (a: SignedTimestamp, b: SignedTimestamp)
    ensures a.serverId != b.serverId && a.regionId != b.regionId && CacheKey(a) == CacheKey(b)
  {
    a := SignedTimestamp(0, "s:t", "r", []);
    b := SignedTimestamp(0, "s", "t:r", []);
    assert CacheKey(a) == "s:t:r:" && CacheKey(b) == "s:t:r:";
  }

  /**
    Whatever the key decides or not: in any interleaving, a timestamp whose server, region and
    signature differ from those of every other call's is answered as `Verify` answers it.
   */
  lemma FreshAnsweredTruly(stamps: seq<SignedTimestamp>, calls: seq<Call>, steps: seq<Step>, k: nat, ttl: int)
    requires |stamps| == |calls| && Interleaving(calls, steps, ttl) && k < |steps| && steps[k].Look?
    requires forall c :: 0 <= c < |calls| ==>
               calls[c].key == CacheKey(stamps[c]) && NoColon(stamps[c].serverId) && NoColon(stamps[c].regionId)
    requires forall c :: 0 <= c < |calls| && c != steps[k].call ==> !SameSource(stamps[c], stamps[steps[k].call])
    ensures CachedAnswer(LogOf(calls, steps[..k]), calls[steps[k].call], steps[k].at, ttl) == calls[steps[k].call].verdict
  {
    var me := steps[k].call;
    var log := LogOf(calls, steps[..k]);
    if Lookup(log, calls[me].key, steps[k].at, ttl).Some? {
      var w := LatestSome(log, calls[me].key);
      var stored := LogFromCalls(calls, steps[..k], log[w]);
      KeyExactly(stamps[steps[stored].call], stamps[me]);
    }
  }

  // ---------- the key leaves out the time ----------

  /** There are such timestamps: a server that signs time 0 only, and the times 0 and 1. */
  lemma TimesDistinguished() returns (server: TimeServer, first: SignedTimestamp, second: SignedTimestamp)
    ensures Verify(first, server) && !Verify(second, server) && second == first.(time := second.time)
  {
    server := TimeServer("s", "r", _ => Err("offline"), (message, signature) => message == TimestampToBytes(0));
    first := SignedTimestamp(0, "s", "r", []);
    second := first.(time := 1);
    EncodingInjective(0, 1);
  }

  /**
    The hypothesis is needed: two timestamps that differ only in their time share a key, and if
    the server accepts the signature for the first time only, the second is accepted after the
    first although `Verify` rejects it.
   */
  lemma CacheIgnoresTime(server: TimeServer, first: SignedTimestamp, second: SignedTimestamp, ttl: int)
    returns (calls: seq<Call>, steps: seq<Step>)
    requires ttl >= 0 && Verify(first, server) && !Verify(second, server)
    requires second == first.(time := second.time)
    ensures calls == [CallFor(first, server), CallFor(second, server)]
    ensures Interleaving(calls, steps, ttl) && |steps| == 3 && steps[2] == Look(1, 0)
    ensures CachedAnswer(LogOf(calls, steps[..2]), calls[1], 0, ttl)
  {
    calls := [CallFor(first, server), CallFor(second, server)];
    assert CacheKey(first) == CacheKey(second);
    steps := SecondAnsweredByFirst(calls, 0, 1, ttl);
  }
}
