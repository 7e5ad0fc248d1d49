/**
  The fast-path collection loop (core/consensus/fastpath.go:44-160).

  Each server's goroutine ends with one outcome, a failure or a signed time, which it sends on
  one of two bounded channels. A schedule is any sequence of goroutine sends, receives by the
  loop and the deadline; an action that is not enabled (an empty channel, a full one) does not
  happen. Quantifying over schedules covers every order of arrival and every choice of select.
 */
module FastPath {
  import opened Wrappers
  import opened Threshold
  import opened TimeTypes
  import opened Median
  import opened Collections

  datatype FastPathConfig = FastPathConfig(minSignatures: nat, maxDrift: int)

  datatype ServerOutcome = Failed | Replied(sig: Bytes, ts: int)

  datatype Action = Send(server: nat) | TakeResponse | TakeError | Deadline

  datatype FastPathResult =
    | Waiting
    | Signed(time: int, signature: Bytes)
    | DriftExceeded(server: nat, other: string)
    | AggregationFailed(error: AggregateError)
    | NotEnough
    | TimedOut

  /** What one call is given: its configuration, its servers with their outcomes, and the time it read. */
  datatype Request = Request(config: FastPathConfig, servers: seq<string>, outcomes: seq<ServerOutcome>, now: int) {
    predicate Wellformed() {
      |outcomes| == |servers| && config.minSignatures >= 1
    }

    predicate TooFarAhead(ts: int) {
      ts > now + config.maxDrift
    }

    predicate Drifts(a: int, b: int) {
      a - b > config.maxDrift || a - b < -config.maxDrift
    }

    /** Server i can be accepted: it replied, with a time that is not too far in the future. */
    predicate Acceptable(i: nat)
      requires Wellformed()
    {
      i < |servers| && outcomes[i].Replied? && !TooFarAhead(outcomes[i].ts)
    }

    function AcceptableServers(): set<nat>
      requires Wellformed()
    {
      set i | i in AllServers(|servers|) && Acceptable(i)
    }

    /** The reply of server i drifts from that of server j, which can be accepted. */
    predicate DriftPair(i: nat, j: nat)
      requires Wellformed()
    {
      && i != j && i < |servers| && outcomes[i].Replied?
      && Acceptable(j) && Drifts(outcomes[i].ts, outcomes[j].ts)
    }

    /** A reply can be checked against an accepted one it drifts from. */
    ghost predicate CanDrift()
      requires Wellformed()
    {
      && 2 <= config.minSignatures <= |servers|
      && exists i, j :: DriftPair(i, j)
    }
  }

  function AllServers(n: nat): (r: set<nat>)
    ensures forall i: nat :: i in r <==> i < n
    ensures |r| == n
  {
    if n == 0 then {} else AllServers(n - 1) + {n - 1}
  }

  /**
    The loop's variables and channels, and two history sets: the servers accepted so far and the
    servers whose error the loop has consumed. Channels hold server indices.
   */
  datatype Collector = Collector(
    pending: set<nat>,
    sigChan: seq<nat>,
    errChan: seq<nat>,
    accepted: set<nat>,
    failed: set<nat>,
    signatures: map<string, Bytes>,
    timestamps: map<string, int>,
    validSignatures: int,
    remainingServers: int)
  {
    /** The two counters: outcomes outstanding, and those accounted for. */
    ghost predicate Counted(n: nat) {
      && validSignatures == |accepted|
      && remainingServers == |pending| + |sigChan| + |errChan|
      && validSignatures + remainingServers + |failed| == n
    }

    /** Channels and history sets hold servers of the right kind: only acceptable ones are accepted, only others fail. */
    ghost predicate Classified(q: Request)
      requires q.Wellformed()
    {
      && (forall i :: i in sigChan ==> i < |q.servers| && q.outcomes[i].Replied?)
      && (forall i :: i in errChan ==> i < |q.servers| && !q.Acceptable(i))
      && (forall i :: i in failed ==> i < |q.servers| && !q.Acceptable(i))
      && (forall i :: i in accepted ==> q.Acceptable(i))
    }

    ghost predicate Inv(q: Request) {
      && q.Wellformed()
      && Conserved(|q.servers|, pending, sigChan, errChan, accepted, failed)
      && Counted(|q.servers|)
      && Classified(q)
      && Collected(q, accepted, signatures, timestamps)
    }

    /** Between two iterations: the loop has not yet enough signatures, and still can get enough. */
    ghost predicate AtLoopHead(q: Request) {
      && Inv(q)
      && validSignatures < q.config.minSignatures
      && (accepted + failed != {} ==> validSignatures + remainingServers >= q.config.minSignatures)
    }

    predicate Enabled(q: Request, a: Action)
      requires q.Wellformed()
    {
      match a
      case Send(i) =>
        && i in pending && i < |q.servers|
        && if q.outcomes[i].Failed? then |errChan| < |q.servers| else |sigChan| < q.config.minSignatures
      case TakeResponse => sigChan != []
      case TakeError => errChan != []
      case Deadline => true
    }

    function Measure(): nat {
      3 * |pending| + 2 * |sigChan| + |errChan|
    }
  }

  /** In how many places the outcome of server i is. */
  ghost function Places(i: nat, pending: set<nat>, sigChan: seq<nat>, errChan: seq<nat>,
                        accepted: set<nat>, failed: set<nat>): nat {
    (if i in pending then 1 else 0) + multiset(sigChan)[i] + multiset(errChan)[i]
    + (if i in accepted then 1 else 0) + (if i in failed then 1 else 0)
  }

  /** Every server's outcome is in exactly one place. */
  ghost predicate Conserved(n: nat, pending: set<nat>, sigChan: seq<nat>, errChan: seq<nat>,
                            accepted: set<nat>, failed: set<nat>) {
    forall i: nat :: Places(i, pending, sigChan, errChan, accepted, failed) == if i < n then 1 else 0
  }

  /** The maps hold what accepted servers sent, pairwise within the drift bound. */
  ghost predicate Collected(q: Request, accepted: set<nat>, signatures: map<string, Bytes>, timestamps: map<string, int>)
    requires q.Wellformed()
  {
    && signatures.Keys == timestamps.Keys
    && (forall i :: i in accepted ==> i < |q.servers| && q.servers[i] in timestamps)
    && Sourced(q, accepted, signatures, timestamps)
    && PairwiseNear(q, timestamps)
    && (Distinct(q.servers) ==> |timestamps| == |accepted|)
  }

  /** Every entry is the reply of an accepted server of that name. */
  ghost predicate Sourced(q: Request, accepted: set<nat>, signatures: map<string, Bytes>, timestamps: map<string, int>)
    requires q.Wellformed()
  {
    forall id :: id in timestamps ==> exists i :: FromServer(q, accepted, signatures, timestamps, i, id)
  }

  ghost predicate PairwiseNear(q: Request, timestamps: map<string, int>) {
    forall a, b :: a in timestamps && b in timestamps && a != b ==> !q.Drifts(timestamps[a], timestamps[b])
  }

  ghost predicate FromServer(q: Request, accepted: set<nat>, signatures: map<string, Bytes>, timestamps: map<string, int>,
                             i: nat, id: string)
    requires q.Wellformed()
  {
    && i in accepted && i < |q.servers| && q.servers[i] == id
    && id in signatures && id in timestamps
    && q.outcomes[i] == Replied(signatures[id], timestamps[id])
  }

  function Started(q: Request): Collector {
    Collector(AllServers(|q.servers|), [], [], {}, {}, map[], map[], 0, |q.servers|)
  }

  // ---------- the four things that can happen ----------

  /** A goroutine puts its outcome on its channel. */
  function AfterSend(q: Request, c: Collector, i: nat): Collector
    requires q.Wellformed() && i < |q.servers|
  {
    if q.outcomes[i].Failed?
    then c.(pending := c.pending - {i}, errChan := c.errChan + [i])
    else c.(pending := c.pending - {i}, sigChan := c.sigChan + [i])
  }

  /** The loop takes a response and accepts it. */
  function AfterAccept(q: Request, c: Collector): Collector
    requires q.Wellformed() && c.sigChan != [] && c.sigChan[0] < |q.servers| && q.outcomes[c.sigChan[0]].Replied?
  {
    var i := c.sigChan[0];
    c.(sigChan := c.sigChan[1..],
       accepted := c.accepted + {i},
       signatures := c.signatures[q.servers[i] := q.outcomes[i].sig],
       timestamps := c.timestamps[q.servers[i] := q.outcomes[i].ts],
       validSignatures := c.validSignatures + 1,
       remainingServers := c.remainingServers - 1)
  }

  /** The loop takes a response from too far ahead and posts an error in its place. */
  function AfterRepost(c: Collector): Collector
    requires c.sigChan != []
  {
    c.(sigChan := c.sigChan[1..], errChan := c.errChan + [c.sigChan[0]])
  }

  /** The loop takes an error. */
  function AfterError(c: Collector): Collector
    requires c.errChan != []
  {
    c.(errChan := c.errChan[1..],
       failed := c.failed + {c.errChan[0]},
       remainingServers := c.remainingServers - 1)
  }

  lemma SendConserves(n: nat, pending: set<nat>, sigChan: seq<nat>, errChan: seq<nat>,
                      accepted: set<nat>, failed: set<nat>, i: nat)
    requires Conserved(n, pending, sigChan, errChan, accepted, failed) && i in pending
    ensures Conserved(n, pending - {i}, sigChan + [i], errChan, accepted, failed)
    ensures Conserved(n, pending - {i}, sigChan, errChan + [i], accepted, failed)
  {
    forall k: nat
      ensures Places(k, pending - {i}, sigChan + [i], errChan, accepted, failed) == if k < n then 1 else 0
      ensures Places(k, pending - {i}, sigChan, errChan + [i], accepted, failed) == if k < n then 1 else 0
    {
      assert Places(k, pending, sigChan, errChan, accepted, failed) == if k < n then 1 else 0;
      CountLast(sigChan, i, k);
      CountLast(errChan, i, k);
    }
  }

  lemma CountLast(channel: seq<nat>, i: nat, k: nat)
    ensures multiset(channel + [i])[k] == multiset(channel)[k] + if k == i then 1 else 0
  {
    assert multiset(channel + [i]) == multiset(channel) + multiset{i};
  }

  lemma CountFirst(channel: seq<nat>, k: nat)
    requires channel != []
    ensures multiset(channel)[k] == multiset(channel[1..])[k] + if k == channel[0] then 1 else 0
  {
    assert channel == [channel[0]] + channel[1..];
    assert multiset(channel) == multiset{channel[0]} + multiset(channel[1..]);
  }

  lemma SendKeeps(q: Request, c: Collector, i: nat)
    requires c.Inv(q) && i in c.pending && i < |q.servers|
    ensures AfterSend(q, c, i).Inv(q) && AfterSend(q, c, i).Measure() < c.Measure()
  {
    SendConserves(|q.servers|, c.pending, c.sigChan, c.errChan, c.accepted, c.failed, i);
    var d := AfterSend(q, c, i);
    assert |d.pending| == |c.pending| - 1;
    if q.outcomes[i].Failed? {
      assert forall k :: k in d.errChan ==> k in c.errChan || k == i;
      assert d.Classified(q) && d.Counted(|q.servers|);
    } else {
      assert forall k :: k in d.sigChan ==> k in c.sigChan || k == i;
      assert d.Classified(q) && d.Counted(|q.servers|);
    }
  }

  /** An outcome on a channel has not been consumed yet. */
  lemma Unconsumed(n: nat, pending: set<nat>, sigChan: seq<nat>, errChan: seq<nat>,
                   accepted: set<nat>, failed: set<nat>, i: nat)
    requires Conserved(n, pending, sigChan, errChan, accepted, failed)
    requires i in sigChan || i in errChan
    ensures i !in accepted && i !in failed
  {
    assert Places(i, pending, sigChan, errChan, accepted, failed) <= 1;
    assert multiset(sigChan)[i] + multiset(errChan)[i] >= 1;
  }

  lemma AcceptConserves(n: nat, pending: set<nat>, sigChan: seq<nat>, errChan: seq<nat>,
                        accepted: set<nat>, failed: set<nat>)
    requires Conserved(n, pending, sigChan, errChan, accepted, failed) && sigChan != []
    ensures sigChan[0] !in accepted
    ensures Conserved(n, pending, sigChan[1..], errChan, accepted + {sigChan[0]}, failed)
  {
    Unconsumed(n, pending, sigChan, errChan, accepted, failed, sigChan[0]);
    forall k: nat
      ensures Places(k, pending, sigChan[1..], errChan, accepted + {sigChan[0]}, failed) == if k < n then 1 else 0
    {
      assert Places(k, pending, sigChan, errChan, accepted, failed) == if k < n then 1 else 0;
      CountFirst(sigChan, k);
    }
  }

  lemma RepostConserves(n: nat, pending: set<nat>, sigChan: seq<nat>, errChan: seq<nat>,
                        accepted: set<nat>, failed: set<nat>)
    requires Conserved(n, pending, sigChan, errChan, accepted, failed) && sigChan != []
    ensures Conserved(n, pending, sigChan[1..], errChan + [sigChan[0]], accepted, failed)
  {
    forall k: nat
      ensures Places(k, pending, sigChan[1..], errChan + [sigChan[0]], accepted, failed) == if k < n then 1 else 0
    {
      assert Places(k, pending, sigChan, errChan, accepted, failed) == if k < n then 1 else 0;
      CountFirst(sigChan, k);
      CountLast(errChan, sigChan[0], k);
    }
  }

  lemma ErrorConserves(n: nat, pending: set<nat>, sigChan: seq<nat>, errChan: seq<nat>,
                       accepted: set<nat>, failed: set<nat>)
    requires Conserved(n, pending, sigChan, errChan, accepted, failed) && errChan != []
    ensures errChan[0] !in failed
    ensures Conserved(n, pending, sigChan, errChan[1..], accepted, failed + {errChan[0]})
  {
    Unconsumed(n, pending, sigChan, errChan, accepted, failed, errChan[0]);
    forall k: nat
      ensures Places(k, pending, sigChan, errChan[1..], accepted, failed + {errChan[0]}) == if k < n then 1 else 0
    {
      assert Places(k, pending, sigChan, errChan, accepted, failed) == if k < n then 1 else 0;
      CountFirst(errChan, k);
    }
  }

  lemma ErrorKeeps(q: Request, c: Collector)
    requires c.Inv(q) && c.errChan != []
    ensures AfterError(c).Inv(q) && AfterError(c).Measure() < c.Measure()
  {
    ErrorConserves(|q.servers|, c.pending, c.sigChan, c.errChan, c.accepted, c.failed);
    assert c.errChan[0] in c.errChan;
    assert forall i :: i in c.errChan[1..] ==> i in c.errChan;
  }

  lemma RepostKeeps(q: Request, c: Collector)
    requires c.Inv(q) && c.sigChan != [] && !q.Acceptable(c.sigChan[0])
    ensures AfterRepost(c).Inv(q) && AfterRepost(c).Measure() < c.Measure()
  {
    RepostConserves(|q.servers|, c.pending, c.sigChan, c.errChan, c.accepted, c.failed);
    assert c.sigChan[0] in c.sigChan;
    assert forall i :: i in c.sigChan[1..] ==> i in c.sigChan;
  }

  lemma AcceptKeeps(q: Request, c: Collector)
    requires c.Inv(q) && c.sigChan != [] && q.Acceptable(c.sigChan[0])
    requires forall id :: id in c.timestamps ==> !q.Drifts(q.outcomes[c.sigChan[0]].ts, c.timestamps[id])
    ensures AfterAccept(q, c).Inv(q) && AfterAccept(q, c).Measure() < c.Measure()
  {
    var i := c.sigChan[0];
    AcceptConserves(|q.servers|, c.pending, c.sigChan, c.errChan, c.accepted, c.failed);
    assert |c.accepted + {i}| == |c.accepted| + 1;
    AcceptClassifies(q, c);
    AcceptCollects(q, c.accepted, c.signatures, c.timestamps, i);
  }

  lemma AcceptClassifies(q: Request, c: Collector)
    requires q.Wellformed() && c.Classified(q) && c.sigChan != [] && q.Acceptable(c.sigChan[0])
    ensures AfterAccept(q, c).Classified(q)
  {
    assert forall i :: i in c.sigChan[1..] ==> i in c.sigChan;
  }

  lemma AcceptCollects(q: Request, accepted: set<nat>, signatures: map<string, Bytes>, timestamps: map<string, int>, i: nat)
    requires q.Wellformed() && Collected(q, accepted, signatures, timestamps)
    requires q.Acceptable(i) && i !in accepted
    requires forall id :: id in timestamps ==> !q.Drifts(q.outcomes[i].ts, timestamps[id])
    ensures Collected(q, accepted + {i}, signatures[q.servers[i] := q.outcomes[i].sig],
                      timestamps[q.servers[i] := q.outcomes[i].ts])
  {
    var accepted' := accepted + {i};
    var signatures' := signatures[q.servers[i] := q.outcomes[i].sig];
    var timestamps' := timestamps[q.servers[i] := q.outcomes[i].ts];
    assert Sourced(q, accepted', signatures', timestamps') by {
      NewReplySource(q, accepted, signatures, timestamps, i, accepted', signatures', timestamps');
    }
    assert PairwiseNear(q, timestamps') by {
      NewReplyNear(q, timestamps, q.servers[i], q.outcomes[i].ts);
    }
    assert Distinct(q.servers) ==> |timestamps'| == |accepted'| by {
      if Distinct(q.servers) {
        FirstReply(q, accepted, signatures, timestamps, i);
        NewKeySize(timestamps, q.servers[i], q.outcomes[i].ts);
      }
    }
  }

  lemma NewKeySize<V>(m: map<string, V>, key: string, v: V)
    requires key !in m
    ensures |m[key := v]| == |m| + 1
  {
    assert m[key := v].Keys == m.Keys + {key};
  }

  lemma NewReplySource(q: Request, accepted: set<nat>, signatures: map<string, Bytes>, timestamps: map<string, int>, i: nat,
                       accepted': set<nat>, signatures': map<string, Bytes>, timestamps': map<string, int>)
    requires q.Wellformed() && i < |q.servers| && q.outcomes[i].Replied?
    requires Sourced(q, accepted, signatures, timestamps)
    requires accepted' == accepted + {i}
    requires signatures' == signatures[q.servers[i] := q.outcomes[i].sig]
    requires timestamps' == timestamps[q.servers[i] := q.outcomes[i].ts]
    ensures Sourced(q, accepted', signatures', timestamps')
  {
    forall id | id in timestamps' ensures exists k :: FromServer(q, accepted', signatures', timestamps', k, id) {
      if id == q.servers[i] {
        assert FromServer(q, accepted', signatures', timestamps', i, id);
      } else {
        var k :| FromServer(q, accepted, signatures, timestamps, k, id);
        assert FromServer(q, accepted', signatures', timestamps', k, id);
      }
    }
  }

  lemma NewReplyNear(q: Request, timestamps: map<string, int>, id: string, ts: int)
    requires PairwiseNear(q, timestamps)
    requires forall other :: other in timestamps ==> !q.Drifts(ts, timestamps[other])
    ensures PairwiseNear(q, timestamps[id := ts])
  {
  }

  /** Distinct servers are accepted once each, so an accepted reply adds a new entry. */
  lemma FirstReply(q: Request, accepted: set<nat>, signatures: map<string, Bytes>, timestamps: map<string, int>, i: nat)
    requires q.Wellformed() && Collected(q, accepted, signatures, timestamps)
    requires i < |q.servers| && i !in accepted && Distinct(q.servers)
    ensures q.servers[i] !in timestamps
  {
  }

  // ---------- progress ----------

  /** The loop's own send of a replacement error finds room: it cannot block on the channel it also reads. */
  lemma OwnSendNeverBlocks(q: Request, c: Collector)
    requires c.Inv(q) && c.sigChan != []
    ensures |c.errChan| < |q.servers|
  {
  }

  /** With a server at all, a loop that has not returned still has an outcome to wait for, and something can happen. */
  lemma NeverStuck(q: Request, c: Collector) returns (a: Action)
    requires c.AtLoopHead(q) && |q.servers| >= 1
    ensures c.remainingServers > 0
    ensures !a.Deadline? && c.Enabled(q, a)
  {
    if c.sigChan != [] {
      a := TakeResponse;
    } else if c.errChan != [] {
      a := TakeError;
    } else {
      assert c.accepted + c.failed == {} ==> c.accepted == {} && c.failed == {};
      var i :| i in c.pending;
      assert Places(i, c.pending, c.sigChan, c.errChan, c.accepted, c.failed) >= 1;
      a := Send(i);
    }
  }

  /** Acceptances so far plus outcomes outstanding bound the servers that could ever be accepted. */
  lemma AcceptableBound(q: Request, c: Collector)
    requires c.Inv(q)
    ensures c.accepted <= q.AcceptableServers() && |c.accepted| <= |q.AcceptableServers()|
    ensures |q.AcceptableServers()| <= c.validSignatures + c.remainingServers
  {
    forall i | i in c.accepted ensures i in q.AcceptableServers() {
      assert i in AllServers(|q.servers|);
    }
    SubsetSize(c.accepted, q.AcceptableServers());
    forall i | i in c.failed ensures i in AllServers(|q.servers|) {
    }
    assert |AllServers(|q.servers|) - c.failed| == |q.servers| - |c.failed|;
    SubsetSize(q.AcceptableServers(), AllServers(|q.servers|) - c.failed);
  }

  // ---------- steps ----------

  /** The head of the response channel is the reply of a server. */
  predicate HeadReplied(q: Request, c: Collector)
    requires q.Wellformed()
  {
    c.sigChan != [] && c.sigChan[0] < |q.servers| && q.outcomes[c.sigChan[0]].Replied?
  }

  /** Enough signatures: the median of the times, and the signatures that verify combined, or an error if they are too few. */
  ghost predicate Finished(scheme: ThresholdSignature, c: Collector, r: FastPathResult) {
    match r
    case Signed(time, signature) =>
      && IsMedian(c.timestamps, time)
      && |scheme.Verifying(c.signatures)| >= scheme.threshold
      && signature == Combined(scheme, c.signatures)
    case AggregationFailed(error) =>
      |scheme.Verifying(c.signatures)| < scheme.threshold && error == Shortage(scheme, c.signatures)
    case _ => false
  }

  /** Whether the call gives up or the loop goes round again. */
  function GoOn(q: Request, c: Collector): FastPathResult {
    if c.validSignatures + c.remainingServers < q.config.minSignatures then NotEnough else Waiting
  }

  /**
    The response at the head of the channel: one that drifts from a collected time ends the call at
    once, one too far ahead becomes an error, any other is accepted.
   */
  ghost predicate Responded(q: Request, scheme: ThresholdSignature, before: Collector, r: FastPathResult, c: Collector)
    requires q.Wellformed() && HeadReplied(q, before)
  {
    var i := before.sigChan[0];
    var ts := q.outcomes[i].ts;
    if exists id :: id in before.timestamps && q.Drifts(ts, before.timestamps[id]) then
      && c == before
      && r.DriftExceeded? && r.server == i
      && r.other in before.timestamps && q.Drifts(ts, before.timestamps[r.other])
    else if q.TooFarAhead(ts) then
      c == AfterRepost(before) && r == Waiting
    else
      && c == AfterAccept(q, before)
      && if c.validSignatures >= q.config.minSignatures then Finished(scheme, c, r) else r == GoOn(q, c)
  }

  /** One action of the environment or the loop. */
  ghost predicate Acted(q: Request, scheme: ThresholdSignature, before: Collector, a: Action, r: FastPathResult, c: Collector)
    requires q.Wellformed()
  {
    match a
    case Send(i) => i < |q.servers| && c == AfterSend(q, before, i) && r == Waiting
    case TakeResponse => HeadReplied(q, before) && Responded(q, scheme, before, r, c)
    case TakeError => before.errChan != [] && c == AfterError(before) && r == GoOn(q, c)
    case Deadline => c == before && r == TimedOut
  }

  // ---------- runs ----------

  /** The loop's variables, and its result once it has returned. */
  datatype LoopState = LoopState(collector: Collector, result: FastPathResult)

  predicate Fires(q: Request, s: LoopState, a: Action)
    requires q.Wellformed()
  {
    s.result.Waiting? && s.collector.Enabled(q, a)
  }

  /** An action that is possible happens, as long as the loop has not returned. */
  ghost predicate Moved(q: Request, scheme: ThresholdSignature, s: LoopState, a: Action, t: LoopState)
    requires q.Wellformed()
  {
    if Fires(q, s, a) then Acted(q, scheme, s.collector, a, t.result, t.collector) else t == s
  }

  ghost predicate Run(q: Request, scheme: ThresholdSignature, schedule: seq<Action>, run: seq<LoopState>)
    requires q.Wellformed()
  {
    && |run| == |schedule| + 1
    && if schedule == [] then run[0] == LoopState(Started(q), Waiting)
       else
         var n := |schedule| - 1;
         Run(q, scheme, schedule[..n], run[..n + 1]) && Moved(q, scheme, run[n], schedule[n], run[n + 1])
  }

  /** How many of the actions of a run happened. */
  ghost function Fired(q: Request, schedule: seq<Action>, run: seq<LoopState>): nat
    requires q.Wellformed() && |run| == |schedule| + 1
  {
    if schedule == [] then 0
    else
      var n := |schedule| - 1;
      Fired(q, schedule[..n], run[..n + 1]) + if Fires(q, run[n], schedule[n]) then 1 else 0
  }

  /** A run over the whole schedule, its end, and how many actions happened in it. */
  ghost predicate RunEndsIn(q: Request, scheme: ThresholdSignature, schedule: seq<Action>, run: seq<LoopState>, end: LoopState, fired: nat)
    requires q.Wellformed()
  {
    Run(q, scheme, schedule, run) && run[|schedule|] == end && fired == Fired(q, schedule, run)
  }

  /** What a reachable result means. */
  ghost predicate Outcome(q: Request, scheme: ThresholdSignature, c: Collector, r: FastPathResult)
    requires c.Inv(q)
  {
    match r
    case Waiting => c.AtLoopHead(q)
    case TimedOut => c.AtLoopHead(q)
    case DriftExceeded(server, other) =>
      && c.AtLoopHead(q)
      && server in c.sigChan && server < |q.servers| && q.outcomes[server].Replied?
      && other in c.timestamps && q.Drifts(q.outcomes[server].ts, c.timestamps[other])
    case NotEnough => c.validSignatures + c.remainingServers < q.config.minSignatures
    case _ => |c.accepted| == q.config.minSignatures && Finished(scheme, c, r)
  }

  lemma StartedInv(q: Request)
    requires q.Wellformed()
    ensures Started(q).AtLoopHead(q)
  {
  }

  lemma RespondedKeeps(q: Request, scheme: ThresholdSignature, before: Collector, r: FastPathResult, c: Collector)
    requires before.AtLoopHead(q) && HeadReplied(q, before) && Responded(q, scheme, before, r, c)
    ensures c.Inv(q) && Outcome(q, scheme, c, r)
    ensures r.Waiting? ==> c.Measure() < before.Measure()
  {
    var i := before.sigChan[0];
    if r.DriftExceeded? {
      assert i in before.sigChan;
    } else if q.TooFarAhead(q.outcomes[i].ts) {
      RepostKeeps(q, before);
    } else {
      AcceptKeeps(q, before);
    }
  }

  lemma ActedKeeps(q: Request, scheme: ThresholdSignature, before: Collector, a: Action, r: FastPathResult, c: Collector)
    requires before.AtLoopHead(q) && before.Enabled(q, a) && Acted(q, scheme, before, a, r, c)
    ensures c.Inv(q) && Outcome(q, scheme, c, r)
    ensures r.Waiting? ==> c.Measure() < before.Measure()
  {
    match a
    case Send(i) => SendKeeps(q, before, i);
    case TakeResponse => RespondedKeeps(q, scheme, before, r, c);
    case TakeError => ErrorKeeps(q, before);
    case Deadline =>
  }

  /**
    What every run keeps: no outcome is lost or duplicated, the counters are exact, a result means
    what `Outcome` says, and no more than three actions a server have happened while the loop
    waits, and one more when it has returned.
   */
  ghost predicate Reached(q: Request, scheme: ThresholdSignature, s: LoopState, fired: nat) {
    && s.collector.Inv(q)
    && Outcome(q, scheme, s.collector, s.result)
    && fired <= 3 * |q.servers| + 1
    && (s.result.Waiting? ==> fired + s.collector.Measure() <= 3 * |q.servers|)
  }

  lemma MovedKeeps(q: Request, scheme: ThresholdSignature, s: LoopState, fired: nat, a: Action, t: LoopState)
    requires Reached(q, scheme, s, fired) && Moved(q, scheme, s, a, t)
    ensures Reached(q, scheme, t, fired + if Fires(q, s, a) then 1 else 0)
  {
    if Fires(q, s, a) {
      ActedKeeps(q, scheme, s.collector, a, t.result, t.collector);
    }
  }

  /** Every run, so every prefix of one, keeps it. */
  lemma {:induction false} RunInv(q: Request, scheme: ThresholdSignature, schedule: seq<Action>, run: seq<LoopState>)
    requires q.Wellformed() && Run(q, scheme, schedule, run)
    ensures Reached(q, scheme, run[|schedule|], Fired(q, schedule, run))
  {
    if schedule == [] {
      StartedInv(q);
    } else {
      var n := |schedule| - 1;
      RunInv(q, scheme, schedule[..n], run[..n + 1]);
      MovedKeeps(q, scheme, run[n], Fired(q, schedule[..n], run[..n + 1]), schedule[n], run[n + 1]);
    }
  }

  /** With a server at all, a run in which nothing but the deadline can happen any more has returned. */
  lemma RunReturns(q: Request, scheme: ThresholdSignature, schedule: seq<Action>, run: seq<LoopState>)
    requires q.Wellformed() && Run(q, scheme, schedule, run) && |q.servers| >= 1
    requires forall a: Action :: run[|schedule|].collector.Enabled(q, a) ==> a.Deadline?
    ensures !run[|schedule|].result.Waiting?
  {
    RunInv(q, scheme, schedule, run);
    if run[|schedule|].result.Waiting? {
      var a := NeverStuck(q, run[|schedule|].collector);
    }
  }

  /** The deadline ends a call that has not returned, and nothing else times it out. */
  lemma {:induction false} DeadlineEnds(q: Request, scheme: ThresholdSignature, schedule: seq<Action>, run: seq<LoopState>)
    requires q.Wellformed() && Run(q, scheme, schedule, run)
    ensures Deadline in schedule ==> !run[|schedule|].result.Waiting?
    ensures run[|schedule|].result.TimedOut? ==> Deadline in schedule
  {
    if schedule != [] {
      var n := |schedule| - 1;
      DeadlineEnds(q, scheme, schedule[..n], run[..n + 1]);
      assert schedule == schedule[..n] + [schedule[n]];
    }
  }

  // ---------- the loop ----------

  /** The drift check against the times already collected, in map order. */
  method FindDrift(q: Request, timestamps: map<string, int>, ts: int) returns (other: Option<string>)
    ensures other.None? ==> forall id :: id in timestamps ==> !q.Drifts(ts, timestamps[id])
    ensures other.Some? ==> other.value in timestamps && q.Drifts(ts, timestamps[other.value])
  {
    var rest := timestamps.Keys;
    while rest != {}
      invariant rest <= timestamps.Keys
      invariant forall id :: id in timestamps && id !in rest ==> !q.Drifts(ts, timestamps[id])
      decreases |rest|
    {
      var sid :| sid in rest;
      if q.Drifts(ts, timestamps[sid]) {
        return Some(sid);
      }
      rest := rest - {sid};
    }
    return None;
  }

  /** What the channel's head is, and the room its replacement error would find. */
  lemma HeadOfChannel(q: Request, c: Collector)
    requires c.Inv(q) && c.sigChan != []
    ensures HeadReplied(q, c) && |c.errChan| < |q.servers|
  {
    assert c.sigChan[0] in c.sigChan;
    OwnSendNeverBlocks(q, c);
  }

  /** The receive from the response channel; Waiting means the loop goes round again. */
  method OnResponse(q: Request, scheme: ThresholdSignature, before: Collector)
    returns (r: FastPathResult, c: Collector)
    requires q.Wellformed() && HeadReplied(q, before) && |before.errChan| < |q.servers|
    ensures Responded(q, scheme, before, r, c)
  {
    var i := before.sigChan[0];
    var resp := q.outcomes[i];
    var drifting := FindDrift(q, before.timestamps, resp.ts);
    if drifting.Some? {
      return DriftExceeded(i, drifting.value), before;
    }
    if q.TooFarAhead(resp.ts) {
      // There is room on the error channel, so this send does not block.
      return Waiting, AfterRepost(before);
    }
    c := AfterAccept(q, before);
    if c.validSignatures >= q.config.minSignatures {
      assert q.servers[i] in c.timestamps;
      r := Finish(scheme, c);
    } else if c.validSignatures + c.remainingServers < q.config.minSignatures {
      r := NotEnough;
    } else {
      r := Waiting;
    }
  }

  /** Enough signatures: take the median and aggregate. */
  method Finish(scheme: ThresholdSignature, c: Collector) returns (r: FastPathResult)
    requires |c.timestamps| > 0
    ensures Finished(scheme, c, r)
  {
    var time := MedianTime(c.timestamps);
    var aggregated := Aggregate(scheme, c.signatures);
    match aggregated
    case Err(e) => r := AggregationFailed(e);
    case Ok(sig) => r := Signed(time, sig);
  }

  /** One action; Waiting means the loop goes round again. */
  method OnAction(q: Request, scheme: ThresholdSignature, before: Collector, a: Action)
    returns (r: FastPathResult, c: Collector)
    requires before.AtLoopHead(q) && before.Enabled(q, a)
    ensures Acted(q, scheme, before, a, r, c)
  {
    match a {
      case Send(i) =>
        r, c := Waiting, AfterSend(q, before, i);

      case TakeResponse =>
        HeadOfChannel(q, before);
        r, c := OnResponse(q, scheme, before);

      case TakeError =>
        c := AfterError(before);
        r := if c.validSignatures + c.remainingServers < q.config.minSignatures then NotEnough else Waiting;

      case Deadline =>
        r, c := TimedOut, before;
    }
  }

  /** One call under a schedule: its result is the end of a run over that schedule, and `fired` the actions that happened. */
  method GetTimestamp(q: Request, scheme: ThresholdSignature, schedule: seq<Action>)
    returns (r: FastPathResult, c: Collector, fired: nat)
    requires q.Wellformed()
    ensures exists run :: RunEndsIn(q, scheme, schedule, run, LoopState(c, r), fired)
  {
    c, r, fired := Started(q), Waiting, 0;
    ghost var run := [LoopState(c, r)];
    for k := 0 to |schedule|
      invariant Run(q, scheme, schedule[..k], run) && run[k] == LoopState(c, r)
      invariant fired == Fired(q, schedule[..k], run)
    {
      var happened;
      happened, r, c := Advance(q, scheme, schedule[..k], run, c, r, schedule[k]);
      fired := fired + if happened then 1 else 0;
      RunExtends(q, scheme, schedule[..k], run, schedule[k], LoopState(c, r));
      assert schedule[..k + 1] == schedule[..k] + [schedule[k]];
      run := run + [LoopState(c, r)];
    }
    assert schedule[..|schedule|] == schedule;
    assert RunEndsIn(q, scheme, schedule, run, LoopState(c, r), fired);
  }

  /** Takes an action if it is possible and the loop has not returned. */
  method Advance(q: Request, scheme: ThresholdSignature, ghost schedule: seq<Action>, ghost run: seq<LoopState>,
                 before: Collector, result: FastPathResult, a: Action)
    returns (happened: bool, r: FastPathResult, c: Collector)
    requires q.Wellformed() && Run(q, scheme, schedule, run) && run[|schedule|] == LoopState(before, result)
    ensures Moved(q, scheme, LoopState(before, result), a, LoopState(c, r))
    ensures happened <==> Fires(q, LoopState(before, result), a)
  {
    happened, r, c := result.Waiting? && before.Enabled(q, a), result, before;
    if happened {
      RunInv(q, scheme, schedule, run);
      r, c := OnAction(q, scheme, before, a);
    }
  }

  lemma RunExtends(q: Request, scheme: ThresholdSignature, schedule: seq<Action>, run: seq<LoopState>, a: Action, t: LoopState)
    requires q.Wellformed() && Run(q, scheme, schedule, run)
    requires Moved(q, scheme, run[|schedule|], a, t)
    ensures Run(q, scheme, schedule + [a], run + [t])
    ensures Fired(q, schedule + [a], run + [t]) == Fired(q, schedule, run) + if Fires(q, run[|schedule|], a) then 1 else 0
  {
    assert (schedule + [a])[..|schedule|] == schedule;
    assert (run + [t])[..|schedule| + 1] == run;
  }

  // ---------- what a result means ----------

  /** The run has returned before its deadline. */
  ghost predicate Returned(q: Request, scheme: ThresholdSignature, schedule: seq<Action>, run: seq<LoopState>)
    requires q.Wellformed()
  {
    && Run(q, scheme, schedule, run)
    && !run[|schedule|].result.Waiting? && !run[|schedule|].result.TimedOut?
  }

  /** The call collected enough signatures, whether or not they aggregated. */
  predicate Collects(r: FastPathResult) {
    r.Signed? || r.AggregationFailed?
  }

  /** Too few acceptable servers are never signed for, and enough of them never given up on. */
  lemma DecisionsSound(q: Request, scheme: ThresholdSignature, schedule: seq<Action>, run: seq<LoopState>)
    requires q.Wellformed() && Run(q, scheme, schedule, run)
    ensures Collects(run[|schedule|].result) ==> |q.AcceptableServers()| >= q.config.minSignatures
    ensures run[|schedule|].result.NotEnough? ==> |q.AcceptableServers()| < q.config.minSignatures
  {
    RunInv(q, scheme, schedule, run);
    AcceptableBound(q, run[|schedule|].collector);
  }

  ghost predicate EndsInDrift(q: Request, scheme: ThresholdSignature, schedule: seq<Action>, run: seq<LoopState>)
    requires q.Wellformed()
  {
    Run(q, scheme, schedule, run) && run[|schedule|].result.DriftExceeded?
  }

  /** A call that ends in drift has checked a reply against an accepted one. */
  lemma DriftMeansPair(q: Request, scheme: ThresholdSignature, schedule: seq<Action>, run: seq<LoopState>)
    requires q.Wellformed() && EndsInDrift(q, scheme, schedule, run)
    ensures q.CanDrift()
  {
    RunInv(q, scheme, schedule, run);
    var c, r := run[|schedule|].collector, run[|schedule|].result;
    var j :| FromServer(q, c.accepted, c.signatures, c.timestamps, j, r.other);
    Unconsumed(|q.servers|, c.pending, c.sigChan, c.errChan, c.accepted, c.failed, r.server);
    assert q.DriftPair(r.server, j);
    assert |c.accepted| >= 1 by {
      assert c.accepted != {};
    }
  }

  /** The accepted reply first, then the one that drifts from it. */
  lemma PairDrifts(q: Request, scheme: ThresholdSignature, i: nat, j: nat) returns (schedule: seq<Action>, run: seq<LoopState>)
    requires q.Wellformed() && 2 <= q.config.minSignatures <= |q.servers| && q.DriftPair(i, j)
    ensures EndsInDrift(q, scheme, schedule, run)
  {
    var c0 := Started(q);
    var c1 := AfterSend(q, c0, j);
    var c2 := AfterAccept(q, c1);
    var c3 := AfterSend(q, c2, i);
    var end := LoopState(c3, DriftExceeded(i, q.servers[j]));
    assert c2.timestamps[q.servers[j]] == q.outcomes[j].ts;
    schedule, run := [], [LoopState(c0, Waiting)];
    schedule, run := Extended(q, scheme, schedule, run, Send(j), LoopState(c1, Waiting));
    schedule, run := Extended(q, scheme, schedule, run, TakeResponse, LoopState(c2, Waiting));
    schedule, run := Extended(q, scheme, schedule, run, Send(i), LoopState(c3, Waiting));
    schedule, run := Extended(q, scheme, schedule, run, TakeResponse, end);
  }

  /** A run with one more action. */
  lemma Extended(q: Request, scheme: ThresholdSignature, schedule: seq<Action>, run: seq<LoopState>, a: Action, t: LoopState)
    returns (schedule': seq<Action>, run': seq<LoopState>)
    requires q.Wellformed() && Run(q, scheme, schedule, run)
    requires Moved(q, scheme, run[|schedule|], a, t)
    ensures Run(q, scheme, schedule', run') && run'[|schedule'|] == t
  {
    RunExtends(q, scheme, schedule, run, a, t);
    schedule', run' := schedule + [a], run + [t];
  }

  /** Some order of arrival ends in drift exactly when a reply can be checked against an accepted one it drifts from. */
  lemma DriftExactly(q: Request, scheme: ThresholdSignature)
    requires q.Wellformed()
    ensures q.CanDrift() <==> exists schedule, run :: EndsInDrift(q, scheme, schedule, run)
  {
    if q.CanDrift() {
      var i, j :| q.DriftPair(i, j);
      var schedule, run := PairDrifts(q, scheme, i, j);
    } else if schedule, run :| EndsInDrift(q, scheme, schedule, run) {
      DriftMeansPair(q, scheme, schedule, run);
    }
  }

  /** Every call that returns before its deadline collects enough signatures exactly when enough servers are acceptable. */
  ghost predicate OrderIndependent(q: Request, scheme: ThresholdSignature)
    requires q.Wellformed()
  {
    forall schedule: seq<Action>, run: seq<LoopState> :: Returned(q, scheme, schedule, run) ==>
      (Collects(run[|schedule|].result) <==> |q.AcceptableServers()| >= q.config.minSignatures)
  }

  /** The order of arrival does not decide, exactly when no order can end in drift or too few servers are acceptable anyway. */
  lemma ArrivalOrderIndependent(q: Request, scheme: ThresholdSignature)
    requires q.Wellformed()
    ensures OrderIndependent(q, scheme) <==> !q.CanDrift() || |q.AcceptableServers()| < q.config.minSignatures
  {
    if !q.CanDrift() || |q.AcceptableServers()| < q.config.minSignatures {
      forall schedule: seq<Action>, run: seq<LoopState> | Returned(q, scheme, schedule, run)
        ensures Collects(run[|schedule|].result) <==> |q.AcceptableServers()| >= q.config.minSignatures
      {
        DecisionsSound(q, scheme, schedule, run);
        if run[|schedule|].result.DriftExceeded? {
          DriftMeansPair(q, scheme, schedule, run);
        }
      }
    } else {
      var i, j :| q.DriftPair(i, j);
      var schedule, run := PairDrifts(q, scheme, i, j);
      assert Returned(q, scheme, schedule, run);
    }
  }

  /**
    In the program's own terms: if enough servers replied with times at most maxDrift ahead, and no
    two replies are further apart than maxDrift, every call that returns before its deadline
    collects enough signatures.
   */
  lemma EnoughRepliesCollect(q: Request, scheme: ThresholdSignature, schedule: seq<Action>, run: seq<LoopState>, timely: set<nat>)
    requires q.Wellformed() && Run(q, scheme, schedule, run)
    requires !run[|schedule|].result.Waiting? && !run[|schedule|].result.TimedOut?
    requires |timely| >= q.config.minSignatures
    requires forall i :: i in timely ==>
               i < |q.servers| && q.outcomes[i].Replied? && q.outcomes[i].ts <= q.now + q.config.maxDrift
    requires forall i, j :: 0 <= i < |q.servers| && 0 <= j < |q.servers| && q.outcomes[i].Replied? && q.outcomes[j].Replied? ==>
               q.outcomes[i].ts - q.outcomes[j].ts <= q.config.maxDrift
    ensures run[|schedule|].result.Signed? || run[|schedule|].result.AggregationFailed?
  {
    forall i: nat, j: nat ensures !q.DriftPair(i, j) {
      if i < |q.servers| && j < |q.servers| && q.outcomes[i].Replied? && q.outcomes[j].Replied? {
        assert q.outcomes[j].ts - q.outcomes[i].ts <= q.config.maxDrift;
      }
    }
    ArrivalOrderIndependent(q, scheme);
    assert Returned(q, scheme, schedule, run);
    SubsetSize(timely, q.AcceptableServers());
  }

  /** Conversely a call that collects has that many replies, none further ahead, and those it collected within maxDrift of each other. */
  lemma CollectedReplies(q: Request, scheme: ThresholdSignature, schedule: seq<Action>, run: seq<LoopState>) returns (timely: set<nat>)
    requires q.Wellformed() && Run(q, scheme, schedule, run)
    requires run[|schedule|].result.Signed? || run[|schedule|].result.AggregationFailed?
    ensures |timely| == q.config.minSignatures
    ensures forall i :: i in timely ==>
              i < |q.servers| && q.outcomes[i].Replied? && q.outcomes[i].ts <= q.now + q.config.maxDrift
    ensures forall a, b :: a in run[|schedule|].collector.timestamps && b in run[|schedule|].collector.timestamps && a != b ==>
              run[|schedule|].collector.timestamps[a] - run[|schedule|].collector.timestamps[b] <= q.config.maxDrift
  {
    RunInv(q, scheme, schedule, run);
    timely := run[|schedule|].collector.accepted;
    AcceptedTimes(q, run[|schedule|].collector);
  }

  lemma AcceptedTimes(q: Request, c: Collector)
    requires q.Wellformed() && c.Classified(q) && PairwiseNear(q, c.timestamps)
    ensures forall i :: i in c.accepted ==>
              i < |q.servers| && q.outcomes[i].Replied? && q.outcomes[i].ts <= q.now + q.config.maxDrift
    ensures forall a, b :: a in c.timestamps && b in c.timestamps && a != b ==> c.timestamps[a] - c.timestamps[b] <= q.config.maxDrift
  {
    assert forall i :: i in c.accepted ==> q.Acceptable(i);
    forall a, b | a in c.timestamps && b in c.timestamps && a != b
      ensures c.timestamps[a] - c.timestamps[b] <= q.config.maxDrift
    {
      assert !q.Drifts(c.timestamps[a], c.timestamps[b]);
    }
  }

  /** In the program's own terms, when some order of arrival ends in drift. */
  lemma DriftInTimes(q: Request, scheme: ThresholdSignature)
    requires q.Wellformed()
    ensures (exists schedule, run :: EndsInDrift(q, scheme, schedule, run)) <==>
            2 <= q.config.minSignatures <= |q.servers|
            && exists i: nat, j: nat :: i < |q.servers| && j < |q.servers| && i != j
                 && q.outcomes[i].Replied? && q.outcomes[j].Replied?
                 && q.outcomes[j].ts <= q.now + q.config.maxDrift
                 && (q.outcomes[i].ts - q.outcomes[j].ts > q.config.maxDrift
                     || q.outcomes[j].ts - q.outcomes[i].ts > q.config.maxDrift)
  {
    DriftExactly(q, scheme);
    forall i: nat, j: nat | i < |q.servers| && j < |q.servers| && q.outcomes[i].Replied? && q.outcomes[j].Replied?
      ensures q.DriftPair(i, j) ==
              (i != j && q.outcomes[j].ts <= q.now + q.config.maxDrift
               && (q.outcomes[i].ts - q.outcomes[j].ts > q.config.maxDrift
                   || q.outcomes[j].ts - q.outcomes[i].ts > q.config.maxDrift))
    {
    }
  }

  /**
    A signed time rests on exactly minSignatures servers; it is the time of one of them, within the
    drift bound of every collected time, and not further ahead than the bound allows; and enough
    of the signatures verify.
   */
  lemma SignedTime(q: Request, scheme: ThresholdSignature, schedule: seq<Action>, run: seq<LoopState>) returns (i: nat)
    requires q.Wellformed() && q.config.maxDrift >= 0
    requires Run(q, scheme, schedule, run) && run[|schedule|].result.Signed?
    ensures var c, time := run[|schedule|].collector, run[|schedule|].result.time;
            && |c.accepted| == q.config.minSignatures
            && (Distinct(q.servers) ==> |c.timestamps| == q.config.minSignatures)
            && i in c.accepted && i < |q.servers| && q.outcomes[i].Replied? && q.outcomes[i].ts == time
            && (forall id :: id in c.timestamps ==> -q.config.maxDrift <= time - c.timestamps[id] <= q.config.maxDrift)
            && time <= q.now + q.config.maxDrift
            && |scheme.Verifying(c.signatures)| >= scheme.threshold
  {
    RunInv(q, scheme, schedule, run);
    var c, time := run[|schedule|].collector, run[|schedule|].result.time;
    i := SourceOf(q, c, time);
    var id := q.servers[i];
    forall other | other in c.timestamps
      ensures -q.config.maxDrift <= time - c.timestamps[other] <= q.config.maxDrift
    {
      assert other == id || !q.Drifts(c.timestamps[id], c.timestamps[other]);
    }
  }

  /** A median of the collected times is the time of an accepted server. */
  lemma SourceOf(q: Request, c: Collector, time: int) returns (i: nat)
    requires c.Inv(q) && IsMedian(c.timestamps, time)
    ensures q.Acceptable(i) && i in c.accepted && q.outcomes[i].ts == time
    ensures q.servers[i] in c.timestamps && c.timestamps[q.servers[i]] == time
  {
    var id :| id in c.timestamps && c.timestamps[id] == time;
    i :| FromServer(q, c.accepted, c.signatures, c.timestamps, i, id);
  }

  /** With fewer than half of the collected times faulty, a signed time lies between two times that are not. */
  lemma SignedTimeRobust(q: Request, scheme: ThresholdSignature, schedule: seq<Action>, run: seq<LoopState>, faulty: set<string>)
    returns (lo: string, hi: string)
    requires q.Wellformed() && Run(q, scheme, schedule, run) && run[|schedule|].result.Signed?
    requires Distinct(q.servers) && 2 * |faulty| < q.config.minSignatures
    ensures var c, time := run[|schedule|].collector, run[|schedule|].result.time;
            && lo in c.timestamps && hi in c.timestamps && lo !in faulty && hi !in faulty
            && c.timestamps[lo] <= time <= c.timestamps[hi]
  {
    RunInv(q, scheme, schedule, run);
    lo, hi := MedianRobust(run[|schedule|].collector.timestamps, run[|schedule|].result.time, faulty);
  }

  /** With the scheme the consensus constructor installs, no keys and threshold 5, the fast path never signs. */
  lemma UnconfiguredNeverSigns(q: Request, scheme: ThresholdSignature, schedule: seq<Action>, run: seq<LoopState>)
    requires q.Wellformed() && Run(q, scheme, schedule, run)
    requires scheme.publicKeys == map[] && scheme.threshold == 5
    ensures !run[|schedule|].result.Signed?
  {
    RunInv(q, scheme, schedule, run);
    UnconfiguredNeverAggregates(scheme, run[|schedule|].collector.signatures);
  }
}
