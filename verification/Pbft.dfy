/**
  Batching and voting (core/consensus/pbft.go). Each region under the mutex is one step. The
  sleeping timers, and the batches between the two lock regions of `processBatchAfterWindow` and
  `startConsensus`, are part of the state, so a run that takes steps in any order interleaves the
  goroutines in any way.

  Batches are shared by pointer in the program. Here a pointer is an index into `store`, which
  holds the batches in order of creation; the current batch, the detached ones and the
  registered ones are all such indices, so that two of them could name the same batch.
 */
module Pbft {
  import opened Wrappers
  import opened TimeTypes
  import opened Threshold
  import opened Collections

  const SECOND: int := 1_000_000_000

  datatype Batch = Batch(batchId: int, leader: string, timestamps: seq<SignedTimestamp>)

  /** A goroutine asleep until its window is over. */
  datatype Timer = Timer(batchId: int, due: int)

  datatype Message =
    | Propose(view: int, from: string, timestamps: seq<SignedTimestamp>)
    | Commit(view: int, from: string, aggregated: Bytes)

  datatype VoteResult = Ignored | Recorded | Committed | Failed(error: AggregateError)

  /** A commit emitted, with the votes it was emitted for. */
  datatype CommitRecord = CommitRecord(batchId: int, votes: map<string, Bytes>)

  datatype Config = Config(nodeId: string, validators: set<string>, thresholdSigs: ThresholdSignature, batchWindow: int)

  /**
    A node with its goroutines and its clock. `proposals` (those that fell back), `senders` (of
    votes) and `committed` are history.
   */
  datatype State = State(
    store: seq<Batch>,
    current: Option<nat>,
    detached: set<nat>,
    batches: map<int, nat>,
    votes: map<int, map<string, Bytes>>,
    commits: map<int, map<string, Bytes>>,
    timers: multiset<Timer>,
    clock: int,
    outbox: seq<Message>,
    proposals: seq<SignedTimestamp>,
    senders: set<string>,
    committed: seq<CommitRecord>)

  function Start(clock: int): State {
    State([], None, {}, map[], map[], map[], multiset{}, clock, [], [], {}, [])
  }

  // ---------- the steps ----------

  /** The batch a fallback proposal goes to: the current one, or a new one named by the clock. */
  function WithCurrent(cfg: Config, s: State): (t: State)
    ensures t.current.Some? && t.current.value < |t.store|
    ensures t.votes == s.votes
  {
    if s.current.Some? && s.current.value < |s.store| then s
    else s.(store := s.store + [Batch(s.clock, cfg.nodeId, [])], current := Some(|s.store|))
  }

  /** ProposeTimestamp: nothing when the fast path served it, else the end of the current batch, and a timer. */
  function Proposed(cfg: Config, s: State, ts: SignedTimestamp, fastPathOk: bool): (t: State)
    ensures t.votes == s.votes
  {
    if fastPathOk then s else Added(cfg, WithCurrent(cfg, s), ts)
  }

  /** A proposal goes to the end of the current batch, and a timer starts. */
  function Added(cfg: Config, o: State, ts: SignedTimestamp): (t: State)
    requires o.current.Some? && o.current.value < |o.store|
    ensures t.votes == o.votes
  {
    var r := o.current.value;
    o.(store := Appended(o.store, r, ts),
       timers := o.timers + multiset{Timer(o.store[r].batchId, o.clock + cfg.batchWindow)},
       proposals := o.proposals + [ts])
  }

  /** One batch with a timestamp more. */
  function Appended(store: seq<Batch>, r: nat, ts: SignedTimestamp): seq<Batch>
    requires r < |store|
  {
    store[r := store[r].(timestamps := store[r].timestamps + [ts])]
  }

  predicate IsCurrent(s: State, batchId: int) {
    s.current.Some? && s.current.value < |s.store| && s.store[s.current.value].batchId == batchId
  }

  /** A timer wakes up: its batch, if it is still the current one, is detached. */
  function Woken(s: State, t: Timer): (u: State)
    ensures u.votes == s.votes
  {
    var v := s.(timers := s.timers - multiset{t});
    if IsCurrent(s, t.batchId) then v.(current := None, detached := s.detached + {s.current.value}) else v
  }

  /** startConsensus registers a detached batch and broadcasts it. */
  function Registered(cfg: Config, s: State, r: nat): State
    requires r < |s.store|
  {
    var b := s.store[r];
    s.(detached := s.detached - {r},
       batches := s.batches[b.batchId := r],
       votes := s.votes[b.batchId := map[]],
       commits := s.commits[b.batchId := map[]],
       outbox := s.outbox + [Propose(b.batchId, cfg.nodeId, b.timestamps)])
  }

  /** Whether a set of votes emits a commit: a quorum of them, and they aggregate. */
  ghost predicate Commits(cfg: Config, votes: map<string, Bytes>) {
    |votes| >= QuorumSize(|cfg.validators|) && |cfg.thresholdSigs.Verifying(votes)| >= cfg.thresholdSigs.threshold
  }

  /** handleVote: a vote for an unknown batch is ignored; any other replaces its sender's earlier one. */
  ghost function Voted(cfg: Config, s: State, from: string, view: int, data: Bytes): (t: State)
    ensures t.votes == if view in s.votes then s.votes[view := s.votes[view][from := data]] else s.votes
  {
    var u := s.(senders := s.senders + {from});
    if view !in s.votes then u
    else Counted(cfg, u, view, s.votes[view][from := data])
  }

  /** The votes for a batch are now v: from a quorum on, and if they aggregate, a commit is emitted. */
  ghost function Counted(cfg: Config, s: State, view: int, v: map<string, Bytes>): State {
    var w := s.(votes := s.votes[view := v]);
    if Commits(cfg, v)
    then w.(outbox := s.outbox + [Commit(view, cfg.nodeId, Combined(cfg.thresholdSigs, v))],
            committed := s.committed + [CommitRecord(view, v)])
    else w
  }

  datatype Event =
    | Proposal(ts: SignedTimestamp, fastPathOk: bool)
    | Wake(timer: Timer)
    | Register(ref: nat)
    | Vote(from: string, view: int, data: Bytes)
    | Tick(elapsed: nat)

  /** A timer wakes when it is due; a detached batch is registered by the goroutine that detached it. */
  predicate Possible(s: State, e: Event) {
    match e
    case Wake(t) => t in s.timers && t.due <= s.clock
    case Register(r) => r in s.detached && r < |s.store|
    case _ => true
  }

  ghost function Next(cfg: Config, s: State, e: Event): State
    requires Possible(s, e)
  {
    match e
    case Proposal(ts, ok) => Proposed(cfg, s, ts, ok)
    case Wake(t) => Woken(s, t)
    case Register(r) => Registered(cfg, s, r)
    case Vote(from, view, data) => Voted(cfg, s, from, view, data)
    case Tick(elapsed) => s.(clock := s.clock + elapsed)
  }

  // ---------- quorums ----------

  /** getQuorumSize */
  function QuorumSize(n: nat): nat {
    n * 2 / 3 + 1
  }

  /** The faults n validators tolerate. */
  function Faults(n: nat): nat
    requires n >= 1
  {
    (n - 1) / 3
  }

  /** The quorum is exactly all but the tolerated faults. */
  lemma QuorumExact(n: nat)
    requires n >= 1
    ensures QuorumSize(n) == n - Faults(n)
    ensures 3 * Faults(n) + 1 <= n
  {
  }

  lemma UnionBound(a: set<string>, b: set<string>, v: set<string>)
    requires a <= v && b <= v
    ensures |a * b| >= |a| + |b| - |v|
  {
    assert |a + b| == |a| + |b| - |a * b|;
    SubsetSize(a + b, v);
  }

  /** Two quorums of validators share at least one more validator than may be faulty. */
  lemma QuorumsIntersect(a: set<string>, b: set<string>, validators: set<string>)
    requires validators != {} && a <= validators && b <= validators
    requires |a| >= QuorumSize(|validators|) && |b| >= QuorumSize(|validators|)
    ensures |a * b| >= Faults(|validators|) + 1
  {
    QuorumExact(|validators|);
    UnionBound(a, b, validators);
  }

  /** The votes of all but the tolerated faults reach the quorum and, if they verify, aggregate. */
  lemma HonestVotesSuffice(scheme: ThresholdSignature, votes: map<string, Bytes>, honest: set<string>, n: nat)
    requires n >= 1 && honest <= votes.Keys && |honest| >= n - Faults(n)
    requires honest <= scheme.Verifying(votes) && scheme.threshold <= |honest|
    ensures |votes| >= QuorumSize(n) && |scheme.Verifying(votes)| >= scheme.threshold
  {
    QuorumExact(n);
    SubsetSize(honest, votes.Keys);
    SubsetSize(honest, scheme.Verifying(votes));
  }

  // ---------- the invariant ----------

  /** The contents of the batches, in order of creation. */
  function Flatten(store: seq<Batch>): seq<SignedTimestamp> {
    if store == [] then [] else Flatten(store[..|store| - 1]) + store[|store| - 1].timestamps
  }

  predicate IsRegistered(r: nat, batches: map<int, nat>, store: seq<Batch>) {
    r < |store| && store[r].batchId in batches && batches[store[r].batchId] == r
  }

  /** Every batch is in exactly one place: current (and then the newest), detached, or registered under its identifier. */
  ghost predicate Placed(n: nat, current: Option<nat>, detached: set<nat>, batches: map<int, nat>, store: seq<Batch>) {
    && n == |store|
    && (current.Some? ==> n > 0 && current.value == n - 1)
    && (forall r: nat :: r < n ==> current == Some(r) || r in detached || IsRegistered(r, batches, store))
    && (forall r :: r in detached ==> r < n && current != Some(r) && !IsRegistered(r, batches, store))
    && (forall id :: id in batches ==> batches[id] < n && current != Some(batches[id]) && store[batches[id]].batchId == id)
  }

  /** Identifiers are a window or more apart, and a batch that is no longer current is older than a window. */
  ghost predicate Spaced(store: seq<Batch>, current: Option<nat>, clock: int, window: int) {
    && window > 0
    && (forall i, j :: 0 <= i < j < |store| ==> store[i].batchId + window <= store[j].batchId)
    && (forall i :: 0 <= i < |store| ==> store[i].batchId + (if current == Some(i) then 0 else window) <= clock)
  }

  /** No timer fires before its batch's window is over, and the timer of its creation will close the current batch. */
  ghost predicate Timed(timers: multiset<Timer>, store: seq<Batch>, current: Option<nat>, window: int) {
    && (forall t :: t in timers ==> t.batchId + window <= t.due)
    && (current.Some? && current.value < |store| ==>
          Timer(store[current.value].batchId, store[current.value].batchId + window) in timers)
  }

  /** Votes are kept for the registered batches; a commit was emitted for a quorum whose votes are still there. */
  ghost predicate Tallied(registered: set<int>, votes: map<int, map<string, Bytes>>, committable: set<int>,
                          senders: set<string>, committed: seq<CommitRecord>, quorum: nat)
  {
    && votes.Keys == committable == registered
    && (forall id :: id in votes ==> votes[id].Keys <= senders)
    && (forall c :: c in committed ==> c.batchId in votes && c.votes.Keys <= votes[c.batchId].Keys && |c.votes| >= quorum)
  }

  ghost predicate Inv(cfg: Config, s: State) {
    && Placed(|s.store|, s.current, s.detached, s.batches, s.store)
    && Spaced(s.store, s.current, s.clock, cfg.batchWindow)
    && Timed(s.timers, s.store, s.current, cfg.batchWindow)
    && Tallied(s.batches.Keys, s.votes, s.commits.Keys, s.senders, s.committed, QuorumSize(|cfg.validators|))
    && Flatten(s.store) == s.proposals
  }

  /** Identifiers identify. */
  lemma SameBatch(store: seq<Batch>, current: Option<nat>, clock: int, window: int, i: nat, j: nat)
    requires Spaced(store, current, clock, window) && i < |store| && j < |store| && store[i].batchId == store[j].batchId
    ensures i == j
  {
  }

  /** A batch created when there is no current one is the newest. */
  lemma OpenPlaced(store: seq<Batch>, detached: set<nat>, batches: map<int, nat>, b: Batch)
    requires Placed(|store|, None, detached, batches, store)
    ensures Placed(|store| + 1, Some(|store|), detached, batches, store + [b])
  {
    forall r: nat | r < |store| ensures IsRegistered(r, batches, store + [b]) == IsRegistered(r, batches, store) {
    }
  }

  lemma OpenSpaced(store: seq<Batch>, clock: int, window: int, b: Batch)
    requires Spaced(store, None, clock, window) && b.batchId == clock
    ensures Spaced(store + [b], Some(|store|), clock, window)
  {
  }

  lemma OpenFlattens(store: seq<Batch>, b: Batch)
    requires b.timestamps == []
    ensures Flatten(store + [b]) == Flatten(store)
  {
    assert (store + [b])[..|store|] == store;
  }

  /** Appending to the current batch moves no batch and adds the proposal at the end. */
  lemma AppendPlaced(store: seq<Batch>, current: nat, detached: set<nat>, batches: map<int, nat>, ts: SignedTimestamp)
    requires Placed(|store|, Some(current), detached, batches, store)
    ensures Placed(|store|, Some(current), detached, batches, Appended(store, current, ts))
  {
    var grown := Appended(store, current, ts);
    forall r: nat | r < |store| ensures IsRegistered(r, batches, grown) == IsRegistered(r, batches, store) {
      assert grown[r].batchId == store[r].batchId;
    }
  }

  lemma AppendSpaced(store: seq<Batch>, current: nat, clock: int, window: int, ts: SignedTimestamp)
    requires current < |store| && Spaced(store, Some(current), clock, window)
    ensures Spaced(Appended(store, current, ts), Some(current), clock, window)
  {
    assert forall i :: 0 <= i < |store| ==> Appended(store, current, ts)[i].batchId == store[i].batchId;
  }

  lemma AppendFlattens(store: seq<Batch>, current: nat, ts: SignedTimestamp)
    requires current == |store| - 1
    ensures Flatten(Appended(store, current, ts)) == Flatten(store) + [ts]
  {
    assert Appended(store, current, ts)[..current] == store[..current];
  }

  /** The timer a proposal starts comes after its batch's window; the one that creates the batch is the batch's own. */
  lemma TimerAdded(timers: multiset<Timer>, store: seq<Batch>, r: nat, clock: int, window: int, ts: SignedTimestamp)
    requires r < |store| && store[r].batchId <= clock
    requires forall t :: t in timers ==> t.batchId + window <= t.due
    requires store[r].batchId == clock || Timer(store[r].batchId, store[r].batchId + window) in timers
    ensures Timed(timers + multiset{Timer(store[r].batchId, clock + window)}, Appended(store, r, ts), Some(r), window)
  {
    assert Appended(store, r, ts)[r].batchId == store[r].batchId;
  }

  /** A proposal for the current batch. */
  lemma AddedKeeps(cfg: Config, o: State, r: nat, ts: SignedTimestamp)
    requires o.current == Some(r) && r < |o.store|
    requires Placed(|o.store|, o.current, o.detached, o.batches, o.store)
    requires Spaced(o.store, o.current, o.clock, cfg.batchWindow)
    requires Tallied(o.batches.Keys, o.votes, o.commits.Keys, o.senders, o.committed, QuorumSize(|cfg.validators|))
    requires Flatten(o.store) == o.proposals
    requires forall t :: t in o.timers ==> t.batchId + cfg.batchWindow <= t.due
    requires o.store[r].batchId == o.clock || Timer(o.store[r].batchId, o.store[r].batchId + cfg.batchWindow) in o.timers
    ensures Inv(cfg, Added(cfg, o, ts))
  {
    AppendPlaced(o.store, r, o.detached, o.batches, ts);
    AppendSpaced(o.store, r, o.clock, cfg.batchWindow, ts);
    AppendFlattens(o.store, r, ts);
    TimerAdded(o.timers, o.store, r, o.clock, cfg.batchWindow, ts);
  }

  lemma ProposedKeeps(cfg: Config, s: State, ts: SignedTimestamp, fastPathOk: bool)
    requires Inv(cfg, s)
    ensures Inv(cfg, Proposed(cfg, s, ts, fastPathOk))
  {
    if !fastPathOk {
      if s.current.None? {
        AddedToNewKeeps(cfg, s, ts);
      } else {
        AddedKeeps(cfg, s, s.current.value, ts);
      }
    }
  }

  lemma AddedToNewKeeps(cfg: Config, s: State, ts: SignedTimestamp)
    requires s.current.None?
    requires Placed(|s.store|, s.current, s.detached, s.batches, s.store)
    requires Spaced(s.store, s.current, s.clock, cfg.batchWindow)
    requires Tallied(s.batches.Keys, s.votes, s.commits.Keys, s.senders, s.committed, QuorumSize(|cfg.validators|))
    requires Flatten(s.store) == s.proposals
    requires forall t :: t in s.timers ==> t.batchId + cfg.batchWindow <= t.due
    ensures Inv(cfg, Added(cfg, WithCurrent(cfg, s), ts))
  {
    var b := Batch(s.clock, cfg.nodeId, []);
    OpenPlaced(s.store, s.detached, s.batches, b);
    OpenSpaced(s.store, s.clock, cfg.batchWindow, b);
    OpenFlattens(s.store, b);
    AddedKeeps(cfg, WithCurrent(cfg, s), |s.store|, ts);
  }

  lemma WokenKeeps(cfg: Config, s: State, t: Timer)
    requires Inv(cfg, s) && t in s.timers && t.due <= s.clock
    ensures Inv(cfg, Woken(s, t))
  {
    var u := Woken(s, t);
    if IsCurrent(s, t.batchId) {
      ClosePlaced(s.store, s.current.value, s.detached, s.batches);
    } else {
      assert Timed(u.timers, u.store, u.current, cfg.batchWindow);
    }
  }

  lemma ClosePlaced(store: seq<Batch>, current: nat, detached: set<nat>, batches: map<int, nat>)
    requires Placed(|store|, Some(current), detached, batches, store)
    ensures Placed(|store|, None, detached + {current}, batches, store)
  {
  }

  lemma RegisteredKeeps(cfg: Config, s: State, r: nat)
    requires Inv(cfg, s) && r in s.detached
    ensures Inv(cfg, Registered(cfg, s, r))
    ensures s.store[r].batchId !in s.batches && s.store[r].batchId !in s.votes
  {
    RegisterPlaced(s.store, s.current, s.detached, s.batches, s.clock, cfg.batchWindow, r);
  }

  lemma RegisterPlaced(store: seq<Batch>, current: Option<nat>, detached: set<nat>, batches: map<int, nat>,
                       clock: int, window: int, r: nat)
    requires Placed(|store|, current, detached, batches, store) && Spaced(store, current, clock, window)
    requires r in detached
    ensures store[r].batchId !in batches
    ensures Placed(|store|, current, detached - {r}, batches[store[r].batchId := r], store)
  {
    var id := store[r].batchId;
    if id in batches {
      SameBatch(store, current, clock, window, r, batches[id]);
    }
    forall k: nat | k < |store| && k != r
      ensures IsRegistered(k, batches[id := r], store) == IsRegistered(k, batches, store)
    {
      if store[k].batchId == id {
        SameBatch(store, current, clock, window, r, k);
      }
    }
  }

  lemma VotedKeeps(cfg: Config, s: State, from: string, view: int, data: Bytes)
    requires Inv(cfg, s)
    ensures Inv(cfg, Voted(cfg, s, from, view, data))
  {
    if view in s.votes {
      VoteTallied(s.batches.Keys, s.votes, s.commits.Keys, s.senders, s.committed, QuorumSize(|cfg.validators|), from, view, data);
    }
  }

  lemma VoteTallied(registered: set<int>, votes: map<int, map<string, Bytes>>, committable: set<int>, senders: set<string>,
                    committed: seq<CommitRecord>, quorum: nat, from: string, view: int, data: Bytes)
    requires Tallied(registered, votes, committable, senders, committed, quorum) && view in votes
    ensures var v := votes[view][from := data];
            && Tallied(registered, votes[view := v], committable, senders + {from}, committed, quorum)
            && (|v| >= quorum ==>
                  Tallied(registered, votes[view := v], committable, senders + {from}, committed + [CommitRecord(view, v)], quorum))
  {
    var v := votes[view][from := data];
    var votes' := votes[view := v];
    assert |v| == |v.Keys|;
    assert v.Keys == votes[view].Keys + {from};
    assert votes'.Keys == votes.Keys;
    forall c | c in committed ensures c.batchId in votes' && c.votes.Keys <= votes'[c.batchId].Keys {
    }
  }

  lemma NextKeeps(cfg: Config, s: State, e: Event)
    requires Inv(cfg, s) && Possible(s, e)
    ensures Inv(cfg, Next(cfg, s, e))
  {
    match e
    case Proposal(ts, ok) => ProposedKeeps(cfg, s, ts, ok);
    case Wake(t) => WokenKeeps(cfg, s, t);
    case Register(r) => RegisteredKeeps(cfg, s, r);
    case Vote(from, view, data) => VotedKeeps(cfg, s, from, view, data);
    case Tick(elapsed) =>
  }

  // ---------- runs ----------

  ghost predicate Run(cfg: Config, clock: int, events: seq<Event>, states: seq<State>) {
    && |states| == |events| + 1
    && states[0] == Start(clock)
    && forall i :: 0 <= i < |events| ==> StepAt(cfg, events, states, i)
  }

  ghost predicate StepAt(cfg: Config, events: seq<Event>, states: seq<State>, i: nat)
    requires i < |events| && i + 1 < |states|
  {
    Possible(states[i], events[i]) && states[i + 1] == Next(cfg, states[i], events[i])
  }

  lemma {:induction false} RunInv(cfg: Config, clock: int, events: seq<Event>, states: seq<State>, i: nat)
    requires cfg.batchWindow > 0 && Run(cfg, clock, events, states) && i < |states|
    ensures Inv(cfg, states[i])
  {
    if i > 0 {
      assert StepAt(cfg, events, states, i - 1);
      RunInv(cfg, clock, events, states, i - 1);
      NextKeeps(cfg, states[i - 1], events[i - 1]);
    }
  }

  // ---------- conservation ----------

  /** The proposals the fast path did not serve, in order. */
  function Fallbacks(events: seq<Event>): seq<SignedTimestamp> {
    if events == [] then []
    else
      var before := Fallbacks(events[..|events| - 1]);
      var e := events[|events| - 1];
      if e.Proposal? && !e.fastPathOk then before + [e.ts] else before
  }

  lemma {:induction false} RunProposals(cfg: Config, clock: int, events: seq<Event>, states: seq<State>, i: nat)
    requires Run(cfg, clock, events, states) && i < |states|
    ensures states[i].proposals == Fallbacks(events[..i])
  {
    if i > 0 {
      RunProposals(cfg, clock, events, states, i - 1);
      assert StepAt(cfg, events, states, i - 1);
      assert events[..i][..i - 1] == events[..i - 1];
    }
  }

  /** The places a batch can be in. */
  predicate IsPlacedAt(s: State, r: nat, isCurrent: bool, isDetached: bool, isRegistered: bool) {
    && isCurrent == (s.current == Some(r))
    && isDetached == (r in s.detached)
    && isRegistered == IsRegistered(r, s.batches, s.store)
  }

  /**
    In every interleaving the batches, taken in order of creation, hold exactly the fallback
    proposals in the order they were made, and each batch is in exactly one place.
   */
  lemma Conservation(cfg: Config, clock: int, events: seq<Event>, states: seq<State>, i: nat)
    requires cfg.batchWindow > 0 && Run(cfg, clock, events, states) && i < |states|
    ensures Flatten(states[i].store) == Fallbacks(events[..i])
    ensures forall r: nat :: r < |states[i].store| ==>
              (IsPlacedAt(states[i], r, true, false, false) || IsPlacedAt(states[i], r, false, true, false)
               || IsPlacedAt(states[i], r, false, false, true))
  {
    RunInv(cfg, clock, events, states, i);
    RunProposals(cfg, clock, events, states, i);
  }

  /** The clock and the sleep of a window keep batch identifiers distinct, in every interleaving. */
  lemma IdentifiersDistinct(cfg: Config, clock: int, events: seq<Event>, states: seq<State>, k: nat, i: nat, j: nat)
    requires cfg.batchWindow > 0 && Run(cfg, clock, events, states) && k < |states|
    requires i < |states[k].store| && j < |states[k].store| && i != j
    ensures states[k].store[i].batchId != states[k].store[j].batchId
  {
    RunInv(cfg, clock, events, states, k);
  }

  /** A batch that is no longer current keeps its contents; one that is registered stays so, and is not detached again. */
  lemma StepKeepsClosed(cfg: Config, s: State, e: Event, r: nat)
    requires Inv(cfg, s) && Possible(s, e) && r < |s.store| && s.current != Some(r)
    ensures var t := Next(cfg, s, e);
            && r < |t.store| && t.store[r] == s.store[r] && t.current != Some(r)
            && (IsRegistered(r, s.batches, s.store) ==> IsRegistered(r, t.batches, t.store))
  {
    if e.Register? {
      RegisteredKeeps(cfg, s, e.ref);
    }
  }

  lemma {:induction false} ClosedStays(cfg: Config, clock: int, events: seq<Event>, states: seq<State>, i: nat, j: nat, r: nat)
    requires cfg.batchWindow > 0 && Run(cfg, clock, events, states) && i <= j < |states|
    requires r < |states[i].store| && states[i].current != Some(r)
    ensures r < |states[j].store| && states[j].store[r] == states[i].store[r] && states[j].current != Some(r)
    ensures IsRegistered(r, states[i].batches, states[i].store) ==> IsRegistered(r, states[j].batches, states[j].store)
  {
    if i < j {
      assert StepAt(cfg, events, states, j - 1);
      ClosedStays(cfg, clock, events, states, i, j - 1, r);
      RunInv(cfg, clock, events, states, j - 1);
      StepKeepsClosed(cfg, states[j - 1], events[j - 1], r);
    }
  }

  /** A batch is started once at most. */
  lemma StartedOnce(cfg: Config, clock: int, events: seq<Event>, states: seq<State>, i: nat, j: nat, r: nat)
    requires cfg.batchWindow > 0 && Run(cfg, clock, events, states)
    requires i < j < |events| && events[i] == Register(r)
    ensures events[j] != Register(r)
  {
    assert StepAt(cfg, events, states, i) && StepAt(cfg, events, states, j);
    RunInv(cfg, clock, events, states, i);
    RegisteredKeeps(cfg, states[i], r);
    RunInv(cfg, clock, events, states, j);
    ClosedStays(cfg, clock, events, states, i + 1, j, r);
  }

  /** No proposal is stranded: once a window has passed, the timer of the current batch's creation closes it. */
  lemma CurrentCloses(cfg: Config, s: State) returns (t: Timer)
    requires Inv(cfg, s) && s.current.Some?
    ensures var later := Next(cfg, s, Tick(cfg.batchWindow));
            && Possible(later, Wake(t))
            && Next(cfg, later, Wake(t)).current.None?
            && Next(cfg, later, Wake(t)).detached == s.detached + {s.current.value}
  {
    var b := s.store[s.current.value];
    t := Timer(b.batchId, b.batchId + cfg.batchWindow);
  }

  // ---------- agreement ----------

  lemma {:induction false} RunSenders(cfg: Config, clock: int, events: seq<Event>, states: seq<State>, i: nat)
    requires Run(cfg, clock, events, states) && i < |states|
    requires forall k :: 0 <= k < i && events[k].Vote? ==> events[k].from in cfg.validators
    ensures states[i].senders <= cfg.validators
  {
    if i > 0 {
      RunSenders(cfg, clock, events, states, i - 1);
      assert StepAt(cfg, events, states, i - 1);
    }
  }

  /**
    In every run whose votes come from validators, the voter sets of any two commits ever emitted
    share at least one validator more than may be faulty.
   */
  lemma CommitsIntersect(cfg: Config, clock: int, events: seq<Event>, states: seq<State>, i: nat, a: CommitRecord, b: CommitRecord)
    requires cfg.batchWindow > 0 && cfg.validators != {} && Run(cfg, clock, events, states) && i < |states|
    requires forall k :: 0 <= k < i && events[k].Vote? ==> events[k].from in cfg.validators
    requires a in states[i].committed && b in states[i].committed
    ensures |a.votes.Keys * b.votes.Keys| >= Faults(|cfg.validators|) + 1
  {
    RunInv(cfg, clock, events, states, i);
    RunSenders(cfg, clock, events, states, i);
    QuorumsIntersect(a.votes.Keys, b.votes.Keys, cfg.validators);
  }

  /** The vote that completes all but the tolerated faults commits, if those votes verify and the threshold is not larger. */
  lemma HonestQuorumCommits(cfg: Config, s: State, from: string, view: int, data: Bytes, honest: set<string>)
    requires cfg.validators != {} && view in s.votes && honest <= s.votes[view].Keys + {from}
    requires |honest| >= |cfg.validators| - Faults(|cfg.validators|)
    requires honest <= cfg.thresholdSigs.Verifying(s.votes[view][from := data]) && cfg.thresholdSigs.threshold <= |honest|
    ensures Voted(cfg, s, from, view, data).committed ==
            s.committed + [CommitRecord(view, s.votes[view][from := data])]
  {
    var v := s.votes[view][from := data];
    assert v.Keys == s.votes[view].Keys + {from};
    HonestVotesSuffice(cfg.thresholdSigs, v, honest, |cfg.validators|);
  }

  /** Votes that are held and satisfy the commit condition have had a commit emitted for exactly them. */
  ghost predicate Emitted(cfg: Config, votes: map<int, map<string, Bytes>>, committed: seq<CommitRecord>) {
    forall id :: id in votes && Commits(cfg, votes[id]) ==> CommitRecord(id, votes[id]) in committed
  }

  lemma NextEmits(cfg: Config, s: State, e: Event)
    requires Possible(s, e) && Emitted(cfg, s.votes, s.committed)
    ensures Emitted(cfg, Next(cfg, s, e).votes, Next(cfg, s, e).committed)
  {
    match e
    case Register(r) => assert !Commits(cfg, map[]);
    case Vote(from, view, data) =>
      if view in s.votes {
        var v := s.votes[view][from := data];
        VoteEmits(cfg, s.votes, s.committed, view, v);
      }
    case _ =>
  }

  lemma VoteEmits(cfg: Config, votes: map<int, map<string, Bytes>>, committed: seq<CommitRecord>, view: int, v: map<string, Bytes>)
    requires Emitted(cfg, votes, committed)
    ensures Commits(cfg, v) ==> Emitted(cfg, votes[view := v], committed + [CommitRecord(view, v)])
    ensures !Commits(cfg, v) ==> Emitted(cfg, votes[view := v], committed)
  {
    var record := CommitRecord(view, v);
    assert record in committed + [record];
  }

  /** In every run, whenever the votes held for a batch reach a quorum and aggregate, their commit has been emitted. */
  lemma {:induction false} CommitsEmitted(cfg: Config, clock: int, events: seq<Event>, states: seq<State>, i: nat)
    requires Run(cfg, clock, events, states) && i < |states|
    ensures Emitted(cfg, states[i].votes, states[i].committed)
  {
    if i > 0 {
      assert StepAt(cfg, events, states, i - 1);
      CommitsEmitted(cfg, clock, events, states, i - 1);
      NextEmits(cfg, states[i - 1], events[i - 1]);
    }
  }

  /** So in every run a registered batch that all but the tolerated faults have voted for, with votes that verify, is committed. */
  lemma HonestQuorumCommitted(cfg: Config, clock: int, events: seq<Event>, states: seq<State>, i: nat, id: int, honest: set<string>)
    requires cfg.validators != {} && Run(cfg, clock, events, states) && i < |states| && id in states[i].votes
    requires |honest| >= |cfg.validators| - Faults(|cfg.validators|)
    requires honest <= cfg.thresholdSigs.Verifying(states[i].votes[id]) && cfg.thresholdSigs.threshold <= |honest|
    ensures CommitRecord(id, states[i].votes[id]) in states[i].committed
  {
    CommitsEmitted(cfg, clock, events, states, i);
    HonestVotesSuffice(cfg.thresholdSigs, states[i].votes[id], honest, |cfg.validators|);
  }

  // ---------- votes, from the events alone ----------

  /** Event k is a vote of this sender for batch id. */
  predicate IsVote(events: seq<Event>, k: int, id: int, from: string) {
    0 <= k < |events| && events[k].Vote? && events[k].view == id && events[k].from == from
  }

  /** Of the first i events, event k is the sender's last vote for batch id after event j. */
  ghost predicate LastVote(events: seq<Event>, j: int, i: int, id: int, from: string, k: int) {
    j < k < i && IsVote(events, k, id, from) && forall m :: k < m < i ==> !IsVote(events, m, id, from)
  }

  /** Event j registers batch id. */
  predicate Starts(events: seq<Event>, states: seq<State>, j: nat, id: int) {
    && j < |events| && j < |states| && events[j].Register?
    && events[j].ref < |states[j].store| && states[j].store[events[j].ref].batchId == id
  }

  /** Votes are held only for batches that some event has registered. */
  lemma {:induction false} HeldIsStarted(cfg: Config, clock: int, events: seq<Event>, states: seq<State>, i: nat, id: int)
    returns (j: nat)
    requires Run(cfg, clock, events, states) && i < |states| && id in states[i].votes
    ensures j < i && Starts(events, states, j, id)
  {
    assert i > 0;
    assert StepAt(cfg, events, states, i - 1);
    if id in states[i - 1].votes {
      j := HeldIsStarted(cfg, clock, events, states, i - 1, id);
    } else {
      j := i - 1;
    }
  }

  /** What a map of votes holds for a sender is its last vote since event j, of the first i; nothing if it cast none. */
  ghost predicate HoldsLast(events: seq<Event>, j: int, i: int, id: int, from: string, votes: map<string, Bytes>) {
    && (from in votes ==> exists k :: LastVote(events, j, i, id, from, k))
    && (forall k :: LastVote(events, j, i, id, from, k) ==> from in votes && votes[from] == events[k].data)
  }

  /** The sender's entry is set by its own vote for the batch and left alone by any other event. */
  ghost predicate EntryFollows(e: Event, id: int, from: string, before: map<string, Bytes>, after: map<string, Bytes>) {
    if e.Vote? && e.view == id && e.from == from then from in after && after[from] == e.data
    else (from in after <==> from in before) && (from in before ==> after[from] == before[from])
  }

  lemma HoldsLastStep(events: seq<Event>, j: int, i: nat, id: int, from: string, before: map<string, Bytes>, after: map<string, Bytes>)
    requires j < i < |events| && HoldsLast(events, j, i, id, from, before)
    requires EntryFollows(events[i], id, from, before, after)
    ensures HoldsLast(events, j, i + 1, id, from, after)
  {
    if IsVote(events, i, id, from) {
      assert LastVote(events, j, i + 1, id, from, i);
    } else {
      forall k ensures LastVote(events, j, i + 1, id, from, k) <==> LastVote(events, j, i, id, from, k) {
      }
    }
  }

  /** The votes held after an event, if it registers this batch should it register any. */
  function VotesNext(votes: map<int, map<string, Bytes>>, e: Event, started: int): map<int, map<string, Bytes>> {
    match e
    case Register(_) => votes[started := map[]]
    case Vote(from, view, data) => if view in votes then votes[view := votes[view][from := data]] else votes
    case _ => votes
  }

  lemma NextVotes(cfg: Config, s: State, e: Event)
    requires Possible(s, e)
    ensures Next(cfg, s, e).votes == VotesNext(s.votes, e, if e.Register? then s.store[e.ref].batchId else 0)
  {
  }

  lemma EntryStays(votes: map<int, map<string, Bytes>>, e: Event, started: int, id: int, from: string)
    requires id in votes && (e.Register? ==> started != id)
    ensures id in VotesNext(votes, e, started) && EntryFollows(e, id, from, votes[id], VotesNext(votes, e, started)[id])
  {
  }

  lemma JustStarted(cfg: Config, clock: int, events: seq<Event>, states: seq<State>, j: nat, id: int, from: string)
    requires Run(cfg, clock, events, states) && Starts(events, states, j, id)
    ensures id in states[j + 1].votes && HoldsLast(events, j, j + 1, id, from, states[j + 1].votes[id])
  {
    assert StepAt(cfg, events, states, j);
    assert states[j + 1].votes[id] == map[];
  }

  lemma VoteHeldNext(cfg: Config, clock: int, events: seq<Event>, states: seq<State>, i: nat, j: nat, id: int, from: string)
    requires cfg.batchWindow > 0 && Run(cfg, clock, events, states) && j < i < |events|
    requires id in states[i].votes && HoldsLast(events, j, i, id, from, states[i].votes[id])
    ensures id in states[i + 1].votes && HoldsLast(events, j, i + 1, id, from, states[i + 1].votes[id])
  {
    assert StepAt(cfg, events, states, i);
    var s, e := states[i], events[i];
    var started := if e.Register? then s.store[e.ref].batchId else 0;
    if e.Register? {
      RunInv(cfg, clock, events, states, i);
      RegisteredKeeps(cfg, s, e.ref);
    }
    NextVotes(cfg, s, e);
    EntryStays(s.votes, e, started, id, from);
    HoldsLastStep(events, j, i, id, from, s.votes[id], VotesNext(s.votes, e, started)[id]);
  }

  lemma {:induction false} VoteHeld(cfg: Config, clock: int, events: seq<Event>, states: seq<State>, i: nat, j: nat,
                                    id: int, from: string)
    requires cfg.batchWindow > 0 && Run(cfg, clock, events, states) && j < i < |states| && Starts(events, states, j, id)
    ensures id in states[i].votes && HoldsLast(events, j, i, id, from, states[i].votes[id])
  {
    if j == i - 1 {
      JustStarted(cfg, clock, events, states, j, id, from);
    } else {
      VoteHeld(cfg, clock, events, states, i - 1, j, id, from);
      VoteHeldNext(cfg, clock, events, states, i - 1, j, id, from);
    }
  }

  /**
    At every state of every run the votes held for a registered batch map exactly the senders of
    the votes cast for it since its registration to the last data each sent.
   */
  lemma VotesHeldExactly(cfg: Config, clock: int, events: seq<Event>, states: seq<State>, i: nat, j: nat, id: int)
    requires cfg.batchWindow > 0 && Run(cfg, clock, events, states) && j < i < |states| && Starts(events, states, j, id)
    ensures id in states[i].votes
    ensures forall from :: from in states[i].votes[id] <==> exists k :: LastVote(events, j, i, id, from, k)
    ensures forall from, k :: LastVote(events, j, i, id, from, k) ==> states[i].votes[id][from] == events[k].data
  {
    VoteHeld(cfg, clock, events, states, i, j, id, "");
    forall from
      ensures from in states[i].votes[id] <==> exists k :: LastVote(events, j, i, id, from, k)
      ensures forall k :: LastVote(events, j, i, id, from, k) ==> states[i].votes[id][from] == events[k].data
    {
      VoteHeld(cfg, clock, events, states, i, j, id, from);
      assert HoldsLast(events, j, i, id, from, states[i].votes[id]);
    }
  }

  /** This sender's last vote for the batch verifies. */
  ghost predicate CastsVerifying(cfg: Config, events: seq<Event>, j: int, i: int, id: int, from: string) {
    exists k :: LastVote(events, j, i, id, from, k)
      && from in cfg.thresholdSigs.publicKeys
      && cfg.thresholdSigs.ed25519Verify(cfg.thresholdSigs.publicKeys[from], TIMESTAMP_MESSAGE, events[k].data)
  }

  /**
    Liveness from the events: once all but the tolerated faults have cast votes for a batch after
    its registration, and the last of each verifies, a commit for the batch has been emitted with
    them among its voters, if the threshold is not larger.
   */
  lemma VotesCastCommit(cfg: Config, clock: int, events: seq<Event>, states: seq<State>, i: nat, j: nat, id: int,
                        honest: set<string>) returns (c: CommitRecord)
    requires cfg.batchWindow > 0 && cfg.validators != {} && Run(cfg, clock, events, states)
    requires j < i < |states| && Starts(events, states, j, id)
    requires forall from :: from in honest ==> CastsVerifying(cfg, events, j, i, id, from)
    requires |honest| >= |cfg.validators| - (|cfg.validators| - 1) / 3 && cfg.thresholdSigs.threshold <= |honest|
    ensures c in states[i].committed && c.batchId == id && honest <= c.votes.Keys
  {
    VotesHeldExactly(cfg, clock, events, states, i, j, id);
    var held := states[i].votes[id];
    forall from | from in honest ensures from in held && from in cfg.thresholdSigs.Verifying(held) {
      var k :| LastVote(events, j, i, id, from, k)
        && from in cfg.thresholdSigs.publicKeys
        && cfg.thresholdSigs.ed25519Verify(cfg.thresholdSigs.publicKeys[from], TIMESTAMP_MESSAGE, events[k].data);
    }
    HonestQuorumCommitted(cfg, clock, events, states, i, id, honest);
    c := CommitRecord(id, held);
  }

  /** This vote was cast. */
  ghost predicate Cast(events: seq<Event>, i: int, id: int, from: string, data: Bytes) {
    exists k :: 0 <= k < i && IsVote(events, k, id, from) && events[k].data == data
  }

  /** Every vote held or committed was cast by one of the first i events. */
  ghost predicate AllCast(events: seq<Event>, i: int, votes: map<int, map<string, Bytes>>, committed: seq<CommitRecord>) {
    && (forall id, from :: id in votes && from in votes[id] ==> Cast(events, i, id, from, votes[id][from]))
    && (forall c, from :: c in committed && from in c.votes ==> Cast(events, i, c.batchId, from, c.votes[from]))
  }

  lemma {:induction false} RunCast(cfg: Config, clock: int, events: seq<Event>, states: seq<State>, i: nat)
    requires Run(cfg, clock, events, states) && i < |states|
    ensures AllCast(events, i, states[i].votes, states[i].committed)
  {
    if i > 0 {
      RunCast(cfg, clock, events, states, i - 1);
      var s, e, t := states[i - 1], events[i - 1], states[i];
      assert StepAt(cfg, events, states, i - 1);
      CastLater(events, i - 1, s.votes, s.committed);
      if e.Vote? && e.view in s.votes {
        VoteCast(events, i, s.votes, s.committed, e.view, s.votes[e.view][e.from := e.data], e.from, e.data);
      }
    }
  }

  lemma CastLater(events: seq<Event>, i: nat, votes: map<int, map<string, Bytes>>, committed: seq<CommitRecord>)
    requires AllCast(events, i, votes, committed)
    ensures AllCast(events, i + 1, votes, committed)
  {
  }

  lemma VoteCast(events: seq<Event>, i: nat, votes: map<int, map<string, Bytes>>, committed: seq<CommitRecord>,
                 id: int, v: map<string, Bytes>, from: string, data: Bytes)
    requires AllCast(events, i, votes, committed) && id in votes && v == votes[id][from := data]
    requires 0 < i <= |events| && IsVote(events, i - 1, id, from) && events[i - 1].data == data
    ensures AllCast(events, i, votes[id := v], committed)
    ensures AllCast(events, i, votes[id := v], committed + [CommitRecord(id, v)])
  {
    forall other | other in v ensures Cast(events, i, id, other, v[other]) {
      if other != from {
        assert Cast(events, i, id, other, votes[id][other]);
      }
    }
  }

  /** Safety from the events: a commit rests on votes that were cast for its batch, all but F of the validators' number of them. */
  lemma CommitsWereCast(cfg: Config, clock: int, events: seq<Event>, states: seq<State>, i: nat, c: CommitRecord, from: string)
    requires cfg.batchWindow > 0 && cfg.validators != {} && Run(cfg, clock, events, states) && i < |states|
    requires c in states[i].committed
    ensures |c.votes| >= |cfg.validators| - (|cfg.validators| - 1) / 3
    ensures from in c.votes ==> exists k :: 0 <= k < i && IsVote(events, k, c.batchId, from) && events[k].data == c.votes[from]
  {
    RunInv(cfg, clock, events, states, i);
    RunCast(cfg, clock, events, states, i);
    assert from in c.votes ==> Cast(events, i, c.batchId, from, c.votes[from]);
  }

  /** Every batch names the node that created it as its leader. */
  lemma {:induction false} BatchesLed(cfg: Config, clock: int, events: seq<Event>, states: seq<State>, i: nat)
    requires Run(cfg, clock, events, states) && i < |states|
    ensures forall b :: b in states[i].store ==> b.leader == cfg.nodeId
  {
    if i > 0 {
      BatchesLed(cfg, clock, events, states, i - 1);
      assert StepAt(cfg, events, states, i - 1);
      LedKept(cfg, states[i - 1], events[i - 1]);
    }
  }

  lemma LedKept(cfg: Config, s: State, e: Event)
    requires Possible(s, e) && forall b :: b in s.store ==> b.leader == cfg.nodeId
    ensures forall b :: b in Next(cfg, s, e).store ==> b.leader == cfg.nodeId
  {
    if e.Proposal? && !e.fastPathOk {
      var o := WithCurrent(cfg, s);
      assert o.store[o.current.value] in o.store;
    }
  }

  // ---------- messages ----------

  function ProposeMessages(outbox: seq<Message>): seq<Message> {
    if outbox == [] then []
    else
      var before := ProposeMessages(outbox[..|outbox| - 1]);
      if outbox[|outbox| - 1].Propose? then before + [outbox[|outbox| - 1]] else before
  }

  function CommitMessages(outbox: seq<Message>): seq<Message> {
    if outbox == [] then []
    else
      var before := CommitMessages(outbox[..|outbox| - 1]);
      if outbox[|outbox| - 1].Commit? then before + [outbox[|outbox| - 1]] else before
  }

  lemma MessageSent(outbox: seq<Message>, m: Message)
    ensures ProposeMessages(outbox + [m]) == ProposeMessages(outbox) + if m.Propose? then [m] else []
    ensures CommitMessages(outbox + [m]) == CommitMessages(outbox) + if m.Commit? then [m] else []
  {
    assert (outbox + [m])[..|outbox|] == outbox;
  }

  /** The message carries the aggregate of the votes recorded. */
  ghost predicate Carries(cfg: Config, m: Message, c: CommitRecord) {
    && |cfg.thresholdSigs.Verifying(c.votes)| >= cfg.thresholdSigs.threshold
    && m == Commit(c.batchId, cfg.nodeId, Combined(cfg.thresholdSigs, c.votes))
  }

  /** Commit messages match the commits recorded, one by one. */
  ghost predicate CommitsSent(cfg: Config, outbox: seq<Message>, committed: seq<CommitRecord>) {
    && |CommitMessages(outbox)| == |committed|
    && forall k :: 0 <= k < |committed| ==> Carries(cfg, CommitMessages(outbox)[k], committed[k])
  }

  /** Batches proposed, and those registered. */
  ghost predicate ProposesSent(cfg: Config, outbox: seq<Message>, batches: map<int, nat>, store: seq<Batch>) {
    && |ProposeMessages(outbox)| == |batches|
    && forall r: nat :: IsRegistered(r, batches, store) ==>
         Propose(store[r].batchId, cfg.nodeId, store[r].timestamps) in ProposeMessages(outbox)
  }

  /**
    In every run the commit messages are the aggregates of the commits recorded, in order, and the
    propose messages are one for each registered batch, with its contents.
   */
  lemma {:induction false} MessagesExactly(cfg: Config, clock: int, events: seq<Event>, states: seq<State>, i: nat)
    requires cfg.batchWindow > 0 && Run(cfg, clock, events, states) && i < |states|
    ensures CommitsSent(cfg, states[i].outbox, states[i].committed)
    ensures ProposesSent(cfg, states[i].outbox, states[i].batches, states[i].store)
  {
    if i > 0 {
      MessagesExactly(cfg, clock, events, states, i - 1);
      RunInv(cfg, clock, events, states, i - 1);
      assert StepAt(cfg, events, states, i - 1);
      CommitsSentKept(cfg, states[i - 1], events[i - 1]);
      ProposesSentKept(cfg, states[i - 1], events[i - 1]);
    }
  }

  lemma CommitsSentKept(cfg: Config, s: State, e: Event)
    requires Possible(s, e) && CommitsSent(cfg, s.outbox, s.committed)
    ensures CommitsSent(cfg, Next(cfg, s, e).outbox, Next(cfg, s, e).committed)
  {
    match e
    case Register(r) =>
      MessageSent(s.outbox, Propose(s.store[r].batchId, cfg.nodeId, s.store[r].timestamps));
    case Vote(from, view, data) =>
      if view in s.votes && Commits(cfg, s.votes[view][from := data]) {
        CommitSent(cfg, s.outbox, s.committed, view, s.votes[view][from := data]);
      }
    case _ =>
  }

  lemma CommitSent(cfg: Config, outbox: seq<Message>, committed: seq<CommitRecord>, id: int, v: map<string, Bytes>)
    requires CommitsSent(cfg, outbox, committed) && Commits(cfg, v)
    ensures CommitsSent(cfg, outbox + [Commit(id, cfg.nodeId, Combined(cfg.thresholdSigs, v))], committed + [CommitRecord(id, v)])
  {
    var m := Commit(id, cfg.nodeId, Combined(cfg.thresholdSigs, v));
    MessageSent(outbox, m);
    assert Carries(cfg, m, CommitRecord(id, v));
  }

  lemma ProposesSentKept(cfg: Config, s: State, e: Event)
    requires Inv(cfg, s) && Possible(s, e) && ProposesSent(cfg, s.outbox, s.batches, s.store)
    ensures ProposesSent(cfg, Next(cfg, s, e).outbox, Next(cfg, s, e).batches, Next(cfg, s, e).store)
  {
    var t := Next(cfg, s, e);
    match e
    case Proposal(ts, ok) =>
      forall r: nat | IsRegistered(r, t.batches, t.store)
        ensures Propose(t.store[r].batchId, cfg.nodeId, t.store[r].timestamps) in ProposeMessages(t.outbox)
      {
        ProposalFrames(cfg, s, ts, ok, r);
      }
    case Register(r) =>
      RegisteredKeeps(cfg, s, r);
      MessageSent(s.outbox, Propose(s.store[r].batchId, cfg.nodeId, s.store[r].timestamps));
      RegisteredSent(cfg, s, r);
    case Vote(from, view, data) =>
      if view in s.votes && Commits(cfg, s.votes[view][from := data]) {
        MessageSent(s.outbox, Commit(view, cfg.nodeId, Combined(cfg.thresholdSigs, s.votes[view][from := data])));
      }
    case _ =>
  }

  /** A proposal touches no registered batch. */
  lemma ProposalFrames(cfg: Config, s: State, ts: SignedTimestamp, ok: bool, r: nat)
    requires Inv(cfg, s)
    requires IsRegistered(r, s.batches, Proposed(cfg, s, ts, ok).store)
    ensures IsRegistered(r, s.batches, s.store) && Proposed(cfg, s, ts, ok).store[r] == s.store[r]
  {
  }

  lemma RegisteredSent(cfg: Config, s: State, r: nat)
    requires Inv(cfg, s) && r in s.detached && ProposesSent(cfg, s.outbox, s.batches, s.store)
    requires s.store[r].batchId !in s.batches
    requires ProposeMessages(Registered(cfg, s, r).outbox)
          == ProposeMessages(s.outbox) + [Propose(s.store[r].batchId, cfg.nodeId, s.store[r].timestamps)]
    ensures ProposesSent(cfg, Registered(cfg, s, r).outbox, Registered(cfg, s, r).batches, s.store)
  {
    var b := s.store[r];
    var m := Propose(b.batchId, cfg.nodeId, b.timestamps);
    var before, after := ProposeMessages(s.outbox), ProposeMessages(Registered(cfg, s, r).outbox);
    assert after[|before|] == m;
    assert |s.batches[b.batchId := r]| == |s.batches| + 1 by {
      assert s.batches[b.batchId := r].Keys == s.batches.Keys + {b.batchId};
    }
    forall k: nat | IsRegistered(k, s.batches[b.batchId := r], s.store)
      ensures Propose(s.store[k].batchId, cfg.nodeId, s.store[k].timestamps) in after
    {
      if k != r {
        assert IsRegistered(k, s.batches, s.store);
      }
    }
  }

  // ---------- the object ----------

  class BigBFTConsensus {
    const config: Config
    var store: seq<Batch>
    var currentBatch: Option<nat>
    var detached: set<nat>
    var batches: map<int, nat>
    var votes: map<int, map<string, Bytes>>
    var commits: map<int, map<string, Bytes>>
    var timers: multiset<Timer>
    var clock: int
    var outbox: seq<Message>
    ghost var proposals: seq<SignedTimestamp>
    ghost var senders: set<string>
    ghost var committed: seq<CommitRecord>

    ghost function Abs(): State
      reads this
    {
      State(store, currentBatch, detached, batches, votes, commits, timers, clock, outbox, proposals, senders, committed)
    }

    ghost predicate Valid()
      reads this
    {
      Inv(config, Abs())
    }

    predicate InBounds()
      reads this
    {
      currentBatch.Some? ==> currentBatch.value < |store|
    }

    constructor (nodeId: string, validators: set<string>, thresholdSigs: ThresholdSignature, clock: int)
      ensures config == Config(nodeId, validators, thresholdSigs, 1_000_000_000)
      ensures Valid() && Abs() == Start(clock)
    {
      config := Config(nodeId, validators, thresholdSigs, SECOND);
      store, currentBatch, detached, batches := [], None, {}, map[];
      votes, commits, timers, this.clock, outbox := map[], map[], multiset{}, clock, [];
      proposals, senders, committed := [], {}, [];
    }

    method ProposeTimestamp(ts: SignedTimestamp, fastPathOk: bool)
      requires InBounds()
      modifies this
      ensures InBounds() && Abs() == Proposed(config, old(Abs()), ts, fastPathOk)
    {
      if fastPathOk {
        return;
      }
      OpenBatchIfNeeded();
      AddToBatch(ts);
    }

    /** Creates a new batch if there is none. */
    method OpenBatchIfNeeded()
      requires InBounds()
      modifies this`store, this`currentBatch
      ensures Abs() == WithCurrent(config, old(Abs()))
    {
      if currentBatch.None? {
        currentBatch := Some(|store|);
        store := store + [Batch(clock, config.nodeId, [])];
      }
    }

    /** Adds to the current batch and starts the timer. */
    method AddToBatch(ts: SignedTimestamp)
      requires InBounds() && currentBatch.Some?
      modifies this`store, this`timers, this`proposals
      ensures InBounds() && Abs() == Proposed(config, old(Abs()), ts, false)
    {
      var r := currentBatch.value;
      var b := store[r];
      store := store[r := b.(timestamps := b.timestamps + [ts])];
      timers := timers + multiset{Timer(b.batchId, clock + config.batchWindow)};
      proposals := proposals + [ts];
    }

    method ProcessBatchAfterWindow(t: Timer)
      requires InBounds()
      modifies this
      ensures InBounds() && Abs() == Woken(old(Abs()), t)
    {
      timers := timers - multiset{t};
      if currentBatch.Some? && store[currentBatch.value].batchId == t.batchId {
        detached := detached + {currentBatch.value};
        currentBatch := None;
      }
    }

    method StartConsensus(batch: nat)
      requires batch < |store|
      modifies this
      ensures Abs() == Registered(config, old(Abs()), batch)
    {
      var b := store[batch];
      detached := detached - {batch};
      batches := batches[b.batchId := batch];
      votes := votes[b.batchId := map[]];
      commits := commits[b.batchId := map[]];
      outbox := outbox + [Propose(b.batchId, config.nodeId, b.timestamps)];
    }

    method HandleVote(from: string, view: int, data: Bytes) returns (r: VoteResult)
      modifies this
      ensures Abs() == Voted(config, old(Abs()), from, view, data)
      ensures r.Ignored? <==> view !in old(votes)
      ensures r.Committed? <==> view in old(votes) && Commits(config, old(votes)[view][from := data])
      ensures r.Recorded? <==> view in old(votes) && |old(votes)[view][from := data]| < QuorumSize(|config.validators|)
      ensures r.Failed? ==> r.error == Shortage(config.thresholdSigs, old(votes)[view][from := data])
    {
      senders := senders + {from};
      if view !in votes {
        return Ignored;
      }
      r := CountVotes(view, votes[view][from := data]);
    }

    /** Records the votes for a batch, and emits a commit if they reach a quorum and aggregate. */
    method CountVotes(view: int, v: map<string, Bytes>) returns (r: VoteResult)
      modifies this`votes, this`committed, this`outbox
      ensures Abs() == Counted(config, old(Abs()), view, v)
      ensures !r.Ignored?
      ensures r.Committed? <==> Commits(config, v)
      ensures r.Recorded? <==> |v| < QuorumSize(|config.validators|)
      ensures r.Failed? ==> r.error == Shortage(config.thresholdSigs, v)
    {
      votes := votes[view := v];
      var aggregated;
      r, aggregated := Decide(v);
      if r.Committed? {
        committed := committed + [CommitRecord(view, v)];
        outbox := outbox + [Commit(view, config.nodeId, aggregated)];
      }
    }

    /** From a quorum on, the votes are aggregated. */
    method Decide(v: map<string, Bytes>) returns (r: VoteResult, aggregated: Bytes)
      ensures !r.Ignored?
      ensures r.Recorded? <==> |v| < QuorumSize(|config.validators|)
      ensures r.Committed? <==> Commits(config, v)
      ensures r.Committed? ==> aggregated == Combined(config.thresholdSigs, v)
      ensures r.Failed? ==> r.error == Shortage(config.thresholdSigs, v)
    {
      aggregated := [];
      if |v| < QuorumSize(|config.validators|) {
        return Recorded, aggregated;
      }
      var result := Aggregate(config.thresholdSigs, v);
      match result
      case Err(e) => return Failed(e), aggregated;
      case Ok(sig) => return Committed, sig;
    }

    /** Any step of any goroutine keeps the invariant and is the step of the run model. */
    method Step(e: Event)
      requires Valid() && Possible(Abs(), e)
      modifies this
      ensures Valid() && Abs() == Next(config, old(Abs()), e)
    {
      NextKeeps(config, Abs(), e);
      match e {
        case Proposal(ts, ok) => ProposeTimestamp(ts, ok);
        case Wake(t) => ProcessBatchAfterWindow(t);
        case Register(r) => StartConsensus(r);
        case Vote(from, view, data) => var _ := HandleVote(from, view, data);
        case Tick(elapsed) => clock := clock + elapsed;
      }
    }
  }
}
