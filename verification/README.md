# Timeserver core: a verified model

A Dafny model of the consensus, gossip, security and client algorithms of the timeserver core,
with proofs about all inputs, all arrival orders and all interleavings. `dafny verify
dfyconfig.toml` checks everything.

| file | models |
|---|---|
| `Flood.dfy`, `Gossip.dfy` | one gossip node, the flood of one message over a peer graph, and a network carrying many messages |
| `FastPath.dfy`, `Median.dfy` | the fast-path collection loop with its two channels, and its median |
| `Pbft.dfy` | batching with racing timers, registration, voting and commits |
| `Threshold.dfy` | threshold aggregation and its check |
| `HftClient.dfy`, `VerificationCache.dfy`, `TtlCache.dfy` | quorum collection, verification behind a cache, batch reuse, and the TTL caches |
| `RttTracker.dfy`, `ServerOrder.dfy`, `DualFormat.dfy` | the RTT ring and its mean, the order servers are asked in, the dual-format parser |
| `Security.dfy` | the connection rate limiter |
| `Leader.dfy` | leader rotation |
| `TimeTypes.dfy` | the timestamp codec and signing |
| `Sorting.dfy`, `Collections.dfy`, `Wrappers.dfy` | in-place sorting under a comparator, string order, facts about sets and sequences, options and results |

## How the model reads

- Times and durations are integers of nanoseconds. Clock readings come from the environment and
  do not decrease. Go floats are reals.
- Go map iteration is an arbitrary choice of the next key, so what is proved holds for every order.
- A `select` loop takes a schedule of events; a schedule is any sequence, so it covers every
  arrival order, every choice of `select` and every deadline.
- A region under a mutex is one step. Goroutines asleep or between two regions are state.
- Batches are shared by pointer in the program; `Pbft` keeps them in a store and names them by
  index, so that the current batch, a detached one and a registered one could be the same.
- Ed25519 and SHA-256 are arbitrary functions. The one fact used about Ed25519 is that only
  64-byte signatures are accepted (section 5.1.6 of RFC 8032), and only where a contract says so.

## What was found

- `GetVerifiedTimestamp` succeeds exactly when a quorum of the responses that arrived verify, for
  every arrival order, every timeout and both modes. A success carries a timestamp exactly when
  the quorum asked for is at least one, or full mode found one that verifies (`TimestampExactly`),
  so exactly the clients with a quorum of at least one can rely on it (`AlwaysTimestampExactly`):
  with zero or less both modes can succeed with no timestamp (`SilentRound`).
- The verification cache key leaves out the time. Cached answers are the true ones in every
  interleaving of calls exactly when the key decides the verdict, or the ttl is negative and
  nothing is ever found (`CacheAgreesExactly`); `CacheIgnoresTime` and
  `TimesDistinguished` give timestamps for which they are not. What the key does contain is
  server, region and signature, as long as the two identifiers have no colon (`KeyExactly`); with
  colons, different servers can share a key (`KeysCollide`).
- The view index converts to a signed integer: the lookup is defined exactly on the views
  `LookupDefined` names, and panics on the others, all of them 2^63 or more (`LookupPanics`).
- The parser compares lengths as 32-bit numbers; `FramedRoundTrip` gives the exact condition and
  `FramedTooLong` an input of 2^32 bytes that is rejected.
- The order in which replies arrive can decide a fast-path call, because the drift check is made
  against whoever was accepted before: exactly when two replies drift apart, one of them
  acceptable, at least two signatures are needed, and enough servers are acceptable
  (`DriftExactly`, `ArrivalOrderIndependent`).
- Gossip identifiers join their parts with dashes. They identify kind, sender and timestamp but
  for messages without a sender, which decoding allows, and opposite timestamps
  (`IdentifiersExactly`, `IdentifiersCollide`).
- With the scheme the consensus constructor installs (no keys, threshold 5) the fast path never
  signs (`UnconfiguredNeverSigns`), so every proposal falls back to batching.
- Batch identifiers are clock readings; they are distinct because a batch stays current for a
  whole window (`IdentifiersDistinct`). That needs a clock that does not go back.
- The future bound of the fast path is taken from the time read after the lock is held
  (core/consensus/fastpath.go:54), not from the start of the call, and it is `MaxDrift`. The
  repository's README names a separate `futureWindow`; core/config/config.go:49 declares it and
  line 78 gives it a default, but nothing reads it.
- The comment at core/client/hft_client.go:241 says "earliest in case of ties"; the code takes the
  earliest of all, and of equal ones the first to arrive. The model follows the code.
- A flood costs exactly the originator's degree plus, for each forwarding node, its degree less
  one. Nodes without peers would count as -1 in a sum over the whole graph, which is then too
  small (`IsolatedNodeCounts`), so the bound sums over nodes that have a peer.

## Model

| member | source | states |
|---|---|---|
| Flood.Coverage | core/p2p/gossip.go:69-135 | in every run, once no copy is in flight, a node has the message exactly when the originator reaches it through nodes whose handlers did not fail |
| Flood.HandledOnce | core/p2p/gossip.go:94-102 | a node whose handler one delivery runs is not one whose handler a later delivery runs |
| Flood.DeliveryDecreases | core/p2p/gossip.go:94-132 | every delivery informs a new node, or informs none and leaves one copy fewer in flight |
| Flood.NotStuck | core/p2p/gossip.go:88-135 | as long as a copy is in flight some delivery is possible |
| Flood.FloodCost | core/p2p/gossip.go:121-132 | at every point of every run the copies sent are exactly the originator's degree plus degree - 1 for each forwarding node, and a run has at most that many deliveries |
| Flood.FloodBound | core/p2p/gossip.go:69-132 | sends and run length never exceed the originator's degree plus the sum of degree - 1 over the nodes with peers |
| Flood.IsolatedNodeCounts | core/p2p/gossip.go:69-132 | summed over all nodes the bound fails on two peers and a node with none |
| GossipProtocol.IdentifiersExactly | core/p2p/gossip.go:95-95 | two messages have the same identifier exactly when kind, sender and timestamp agree, whatever their data, or one has no sender and the text splits another way |
| GossipProtocol.IdentifiersCollide | core/p2p/gossip.go:95-95 | there are two such messages that differ in kind and sender |
| GossipProtocol.IdentifiersDistinct | core/p2p/gossip.go:95-95 | with senders present, or times from the epoch on, identifiers agree exactly when kind, sender and timestamp do |
| GossipProtocol.ReachedExactly | core/p2p/gossip.go:121-132 | when forwarding, a send that fails stops no other |
| GossipProtocol.DigitsValue | core/p2p/gossip.go:95-95 | the timestamp in an identifier is printed as its decimal digits |
| GossipProtocol.Gossip.Broadcast | core/p2p/gossip.go:69-85 | sends to the peers in order, stopping at the first that cannot be reached, and marks nothing as seen |
| GossipProtocol.Gossip.HandleMessage | core/p2p/gossip.go:88-135 | undecodable and seen messages change nothing; a new one is marked, handled, and forwarded to every reachable peer but the node itself and the sender unless its handler fails; nothing is handled twice between cleanups |
| GossipProtocol.Gossip.CleanupSeenMessages | core/p2p/gossip.go:138-152 | forgets every message |
| GossipProtocol.DeliverCopy | core/p2p/gossip.go:88-135 | a node object that handles a copy while its peers are up takes the network's delivery step, sends exactly the copies put in flight, and leaves every other node alone |
| GossipProtocol.BroadcastCopies | core/p2p/gossip.go:69-85 | a node object that broadcasts while its peers are up sends exactly the copies the network puts in flight |
| GossipProtocol.DeliveryRefines | core/p2p/gossip.go:88-135 | a delivery in the network is a step of that message's flood |
| GossipProtocol.DeliveryFrames | core/p2p/gossip.go:95-102 | and leaves the flood of every other message alone |
| GossipProtocol.NetworkCoverage | core/p2p/gossip.go:69-135 | in every run with any number of messages interleaved, a message no longer in flight is held by exactly the nodes its originator reaches through nodes that did not fail on it |
| GossipProtocol.NetworkCost | core/p2p/gossip.go:69-135 | and has cost exactly what its own flood costs |
| FastPath.GetTimestamp | core/consensus/fastpath.go:44-160 | the result under a schedule is the end of a run over that schedule, in which as many actions happened as it counts |
| FastPath.RunInv | core/consensus/fastpath.go:92-159 | in every run no outcome is lost or duplicated, the two counters are exact, a result means what it should, and at most three actions a server happen before the one that ends the call |
| FastPath.RunReturns | core/consensus/fastpath.go:97-159 | with at least one server, a run in which nothing but the deadline can happen any more has returned |
| FastPath.OnResponse | core/consensus/fastpath.go:99-147 | a drifting response ends the call, one too far ahead is turned into an error, any other is accepted and may finish the call or show that it cannot succeed |
| FastPath.OwnSendNeverBlocks | core/consensus/fastpath.go:111-114 | when the loop posts an error to its own channel there is room for it |
| FastPath.NeverStuck | core/consensus/fastpath.go:97-159 | with at least one server, a loop that has not returned has outcomes outstanding and some action other than the deadline is possible |
| FastPath.AcceptableBound | core/consensus/fastpath.go:144-155 | acceptances made and outcomes outstanding together bound the servers that could ever be accepted |
| FastPath.DriftExactly | core/consensus/fastpath.go:101-108 | some schedule ends in drift exactly when at least two signatures are needed, there are that many servers, and some reply drifts from another server's acceptable one |
| FastPath.ArrivalOrderIndependent | core/consensus/fastpath.go:97-159 | every run that returns before its deadline collects enough signatures exactly when enough servers are acceptable, if and only if no schedule ends in drift or too few servers are acceptable |
| FastPath.DecisionsSound | core/consensus/fastpath.go:121-155 | in every run, even with drifting replies, collecting enough needs enough acceptable servers and giving up means there are too few |
| FastPath.SignedTime | core/consensus/fastpath.go:101-142 | in every run a signed time rests on exactly MinSignatures servers and is the time of one of them, within MaxDrift of every collected time and not later than the bound, and enough signatures verified |
| FastPath.EnoughRepliesCollect | core/consensus/fastpath.go:97-142 | if at least MinSignatures servers replied with times at most MaxDrift after now, and no two replies are more than MaxDrift apart, every run that returns before its deadline collects enough |
| FastPath.CollectedReplies | core/consensus/fastpath.go:97-142 | a run that collects enough has exactly MinSignatures replies at most MaxDrift after now, and those it collected are within MaxDrift of each other |
| FastPath.DriftInTimes | core/consensus/fastpath.go:101-114 | when some schedule ends in drift, as inequalities between reply times |
| FastPath.DeadlineEnds | core/consensus/fastpath.go:157-159 | the deadline ends a call that has not returned, and nothing else times it out |
| FastPath.SignedTimeRobust | core/consensus/fastpath.go:121-131 | with fewer than half of the signers faulty a signed time lies between the times of two that are not |
| FastPath.UnconfiguredNeverSigns | core/consensus/pbft.go:60-64 | with no keys and threshold 5 the fast path never signs |
| Median.MedianTime | core/consensus/fastpath.go:123-131 | listing in map order, sorting in place and indexing at n/2 gives the median of the times, defined by ranks and so independent of order |
| Median.MedianUnique | core/consensus/fastpath.go:123-131 | the ranks determine the median |
| Median.MedianRobust | core/consensus/fastpath.go:123-131 | with fewer than half of the times faulty the median lies between two that are not |
| Median.MedianOfMultiset | core/consensus/fastpath.go:123-131 | the median depends only on the multiset of times, not on who sent which |
| Pbft.Conservation | core/consensus/pbft.go:78-131 | in every interleaving the batches in order of creation hold exactly the fallback proposals in order, and each batch is in exactly one of current, detached, registered |
| Pbft.IdentifiersDistinct | core/consensus/pbft.go:91-97 | in every interleaving batch identifiers are distinct |
| Pbft.ClosedStays | core/consensus/pbft.go:108-131 | a batch that is no longer current is never changed or made current again, and a registered one stays registered |
| Pbft.StartedOnce | core/consensus/pbft.go:112-130 | no batch is started twice |
| Pbft.CurrentCloses | core/consensus/pbft.go:103-117 | a current batch always has a timer that detaches it once a window has passed |
| Pbft.QuorumExact | core/consensus/pbft.go:186-188 | the quorum is all validators but the (N-1)/3 tolerated faults |
| Pbft.CommitsIntersect | core/consensus/pbft.go:151-188 | in every run whose votes come from validators, the voters of any two commits emitted share at least F + 1 validators |
| Pbft.HonestQuorumCommits | core/consensus/pbft.go:160-179 | the vote that completes N - F verifying votes emits a commit, if the threshold is not larger |
| Pbft.VotesHeldExactly | core/consensus/pbft.go:125-161 | at every state of every run the votes held for a registered batch map exactly the senders of the votes cast since its registration to the last data each sent |
| Pbft.HeldIsStarted | core/consensus/pbft.go:127-129 | votes are held only for batches some event has registered |
| Pbft.VotesCastCommit | core/consensus/pbft.go:151-179 | once N - F validators have cast votes for a registered batch whose last data verify, a commit with them among its voters has been emitted, if the threshold is not larger |
| Pbft.CommitsWereCast | core/consensus/pbft.go:151-179 | a commit rests on at least N - F votes, each cast for its batch |
| Pbft.MessagesExactly | core/consensus/pbft.go:139-178 | the commit messages sent are the aggregates of the commits, in order, and the propose messages are one for each registered batch, with its contents |
| Pbft.BatchesLed | core/consensus/pbft.go:91-97 | every batch names the node as its leader |
| Pbft.CommitsEmitted | core/consensus/pbft.go:160-179 | in every run, whenever the votes held for a batch reach a quorum and aggregate, a commit for exactly those votes has been emitted |
| Pbft.HonestQuorumCommitted | core/consensus/pbft.go:160-179 | in every run, a registered batch with N - F verifying votes has had its commit emitted, if the threshold is not larger |
| Pbft.BigBFTConsensus.ProposeTimestamp | core/consensus/pbft.go:78-106 | a proposal the fast path serves changes nothing; another goes to the end of the current or a new batch and starts a timer |
| Pbft.BigBFTConsensus.ProcessBatchAfterWindow | core/consensus/pbft.go:109-122 | a timer detaches its batch if that is still the current one |
| Pbft.BigBFTConsensus.StartConsensus | core/consensus/pbft.go:125-148 | a detached batch is registered with empty votes and proposed |
| Pbft.BigBFTConsensus.HandleVote | core/consensus/pbft.go:151-183 | votes for unknown batches are ignored; others replace their sender's, and from a quorum on each emits a commit exactly when the votes aggregate |
| Pbft.BigBFTConsensus.Step | core/consensus/pbft.go:78-183 | any step of any goroutine keeps the invariant and is a step of the run model |
| Threshold.Aggregate | core/consensus/threshold.go:39-70 | succeeds exactly when at least threshold entries verify, with the canonical combination whatever the map order, and reports the counts otherwise |
| Threshold.VerifyingMeaning | core/consensus/threshold.go:31-51 | an entry verifies exactly when its node has a key that accepts its signature of the text "timestamp" |
| Threshold.CombinedTakesSmallest | core/consensus/threshold.go:56-67 | the output is, piece by piece, the signatures of the threshold smallest verifying identifiers in increasing order, each where those before it end, so at multiples of 64 |
| Threshold.NonVerifyingEntriesIgnored | core/consensus/threshold.go:44-54 | entries that do not verify change neither success nor output |
| Threshold.AggregateAccepted | core/consensus/threshold.go:63-77 | the output has 64 bytes a signature; VerifyAggregated accepts it, and nothing shorter |
| Threshold.UnconfiguredNeverAggregates | core/consensus/threshold.go:31-54 | with no keys nothing aggregates unless the threshold is 0 |
| HftClient.HftClient.GetVerifiedTimestamp | core/client/hft_client.go:169-302 | succeeds exactly when at least min(quorum, n) of the arrivals verify, returns the earliest verified of those used, names the right error and counts exactly, if cached verdicts are true |
| HftClient.HftClient.CollectRest | core/client/hft_client.go:268-301 | after a first quorum that does not decide, the rest of the arrivals decide |
| HftClient.HftClient.DrainInBackground | core/client/hft_client.go:248-263 | the goroutine left behind verifies the other arrivals in turn, each leaving in the cache what the run model says, and changes nothing else |
| HftClient.DrainFills | core/client/hft_client.go:248-263 | every timestamp so verified has a verdict in the cache's log afterwards, and earlier ones stay |
| HftClient.HftClient.VerifyTimestampResponse | core/client/hft_client.go:370-396 | answers and caches as the run model of cached verification does; as Verify does if the key decides the verdict, and without that for a timestamp whose server, region and signature were not asked about before |
| HftClient.HftClient.GetVerifiedTimestampForBatch | core/client/hft_client.go:306-332 | returns a cached timestamp exactly when it is within ttl and maxAge, and then one issued before; otherwise asks the servers and caches a success |
| HftClient.QuorumExactly | core/client/hft_client.go:179-301 | a round succeeds exactly when as many arrivals verify as the quorum asked for, or all servers' do |
| HftClient.QuorumSuffices | core/client/hft_client.go:179-301 | any set of verified arrivals of that size makes a round succeed |
| HftClient.FirstQuorumTaken | core/client/hft_client.go:224-266 | in progressive mode, if the first quorum of arrivals all verify, the earliest of those is returned, whatever comes later |
| HftClient.EarliestTaken | core/client/hft_client.go:224-301 | otherwise the earliest of all arrivals that verify is returned, of equal ones the first |
| HftClient.CountersExactly | core/client/hft_client.go:169-301 | one request more, one failure of the right kind unless the round succeeds, and one verification failure for each response rejected |
| HftClient.RejectedExactly | core/client/hft_client.go:224-285 | which responses count as rejected: none if fewer than the quorum came or the first quorum decides, else all that came without error and do not verify |
| HftClient.OrderAndModeIndependent | core/client/hft_client.go:212-301 | when all answers come, order and mode do not decide success: it takes as many verified servers as the quorum asked for, or all; full mode returns the earliest verified time of all and progressive mode never an earlier one |
| HftClient.SuccessIsVerified | core/client/hft_client.go:224-245 | even with timeouts, a success with quorum 1 or more rests on as many different servers whose arrivals verify as were asked for, or all, and returns the timestamp of one of them |
| HftClient.ReusableMeaning | core/client/hft_client.go:313-321 | when a cached timestamp is reused: it was set last for its key, at most ttl ago, and its own time is at most maxAge ago |
| HftClient.TimestampExactly | core/client/hft_client.go:180-301 | a success carries a timestamp exactly when the quorum is at least one, or full mode found one that verifies |
| HftClient.AlwaysTimestampExactly | core/client/hft_client.go:180-301 | every success of every round carries a timestamp exactly when the quorum is at least one |
| HftClient.SilentRound | core/client/hft_client.go:180-301 | with a quorum of zero or less there is a round that succeeds with none, in either mode |
| HftClient.NoQuorumNoTimestamp | core/client/hft_client.go:180-301 | with a quorum of zero or less, progressive mode always and full mode if nothing verifies succeeds without a timestamp |
| VerificationCache.CacheAgreesExactly | core/client/hft_client.go:376-391 | caching changes no answer in any interleaving of calls exactly when equal keys have equal verdicts or the ttl is negative |
| VerificationCache.KeyDecidesAgrees | core/client/hft_client.go:376-391 | if the key decides the verdict, every answer of every interleaving is the true one |
| VerificationCache.ServeSteps | core/client/hft_client.go:376-391 | the cache object answers every interleaving of lookups, stores and cleanups as the run model does |
| VerificationCache.SequentialCall | core/client/hft_client.go:376-391 | a call that nothing interrupts changes the log as looking and then storing do |
| VerificationCache.KeyExactly | core/client/hft_client.go:378-378 | for identifiers without a colon, keys agree exactly when server, region and signature do |
| VerificationCache.KeysCollide | core/client/hft_client.go:378-378 | with colons, timestamps of different servers and regions can share a key |
| VerificationCache.FreshAnsweredTruly | core/client/hft_client.go:376-391 | in any interleaving, a timestamp whose server, region and signature no other call has is answered as Verify answers it |
| VerificationCache.CacheIgnoresTime | core/client/hft_client.go:378-386 | of two timestamps that differ only in time, the second is accepted after the first although Verify rejects it |
| VerificationCache.TimesDistinguished | core/types/types.go:48-52 | there is a server and two such timestamps |
| TtlCache.TtlCache.Get | core/client/hft_client.go:556-572 | answers the most recent set of the key if it is at most ttl old, else a miss; the batch cache at 642-658 is the same code |
| TtlCache.TtlCache.Set | core/client/hft_client.go:575-581 | the set becomes the key's most recent one |
| TtlCache.TtlCache.Cleanup | core/client/hft_client.go:599-610 | drops exactly the expired entries from both maps and changes no later answer |
| TtlCache.LookupMeaning | core/client/hft_client.go:642-667 | a lookup answers v exactly when the last set of the key set v, at most ttl ago |
| RttTracker.RttTracker.AddSample | core/client/hft_client.go:490-500 | the buffer holds the last m samples |
| RttTracker.RttTracker.GetAverageRtt | core/client/hft_client.go:503-529 | visits exactly the last min(k, m) samples newest first, without an index error, and returns their weighted mean truncated |
| RttTracker.AverageBetween | core/client/hft_client.go:511-528 | for any non-negative decay and samples of any sign, the average lies between the smallest and the largest sample of the window |
| RttTracker.EachOlderDecays | core/client/hft_client.go:511-523 | the newest sample weighs 1 and every older one the decay times what it would weigh without it |
| RttTracker.AverageIsQuotient | core/client/hft_client.go:503-528 | the average is the quotient of the weighted sum and the weights without its fraction, and the largest duration without samples |
| RttTracker.WriteHolds | core/client/hft_client.go:494-499 | writing a slot and moving on keeps the circular buffer in step with the window |
| ServerOrder.RttOrder | core/client/hft_client.go:417-437 | the comparator is a strict weak order whatever has been measured |
| ServerOrder.GetServersByRtt | core/client/hft_client.go:399-440 | the result is a permutation of the regional servers, or of all if no region is asked for or it has none, measured servers first by average, the others by identifier |
| DualFormat.FramedRoundTrip | core/client/hft_client.go:705-735 | a framed payload of 1 to 102400 bytes parses back exactly when the input length modulo 2^32 covers the frame |
| DualFormat.FramedTooLong | core/client/hft_client.go:722-731 | one byte framed and followed by 2^32 - 5 more is rejected |
| DualFormat.OutsideRange | core/client/hft_client.go:720-743 | other lengths are not unframed |
| DualFormat.ParseExactly | core/client/hft_client.go:705-744 | the answer to every input shorter than 2^32 bytes, from its bytes: errors for none and for a frame cut short, the payload of a whole frame, else the input |
| DualFormat.DirectRoundTrip | core/client/hft_client.go:706-743 | direct data comes back unchanged exactly when its first four bytes are not a length in range |
| Security.PeerSecurity.ValidateNewPeer | core/p2p/security.go:70-103 | accepts exactly when fewer than the limit were accepted in the last minute, and keeps the list equal to the acceptance history of that minute |
| Security.RunsAreLimited | core/p2p/security.go:70-103 | over every run no window of a minute, at any instant, holds more acceptances than the limit |
| Security.SpacedApart | core/p2p/security.go:70-103 | an acceptance and the one `limit` places later are at least 60 seconds apart |
| Security.AcceptsExactly | core/p2p/security.go:70-103 | over every run a call is accepted exactly when the limit is positive and the acceptance `limit` places back, if any, is at least 60 seconds old |
| Security.ServeCalls | core/p2p/security.go:70-103 | an object serving a whole run allows exactly the calls that run accepts |
| Security.PruneTwice | core/p2p/security.go:76-84 | pruning a pruned list gives the window of the whole history |
| Leader.LeaderElection.constructor | core/consensus/leader.go:19-32 | the validators are the sorted keys, whatever the map order |
| Leader.ValidatorElection.constructor | core/consensus/election.go:19-31 | the same |
| Leader.NodesAgree | core/consensus/leader.go:56-64 | nodes with the same validator keys agree on the leader of every view, by either class |
| Leader.LookupDefined | core/consensus/leader.go:60-63 | the lookup panics exactly on views from 2^63 up whose wrapped value the list length does not divide |
| Leader.LeaderRank | core/consensus/leader.go:56-64 | view v below 2^63 is led by the validator with v mod N others before it in the order of identifiers |
| Leader.ElectedRank | core/consensus/leader.go:35-53 | the digest elects the validator with digest mod N others before it |
| Leader.LookupPanics | core/consensus/leader.go:60-63 | with three validators view 2^63 panics |
| Leader.ExactlyOneLeader | core/consensus/leader.go:67-71 | exactly one validator considers itself leader of a view |
| Leader.EachLeadsOnce | core/consensus/election.go:34-39 | in any N consecutive views below 2^63 each of the N validators leads exactly once |
| TimeTypes.TimestampRoundTrip | core/types/types.go:75-86 | decoding inverts encoding exactly for the times that fit in an int64, negative ones included |
| TimeTypes.BytesRoundTrip | core/types/types.go:75-86 | any eight bytes decode to an int64 that encodes to them |
| TimeTypes.TimestampBytesExactly | core/types/types.go:75-80 | the bytes are those of the time modulo 2^64, the most significant first |
| TimeTypes.EncodingInjective | core/types/types.go:75-80 | int64 times with the same encoding are equal |
| TimeTypes.TimestampRecord.Sign | core/types/types.go:89-99 | a failure changes nothing; a success keeps the time, fills in signature and signer, and verifies with a server that accepts what it signs |
| TimeTypes.SignatureBindsTime | core/types/types.go:48-52 | a signature a binding server made for one time verifies for that time only |
| Sorting.StringLessExactly | core/consensus/leader.go:25-25 | the string order is lexicographic: the first difference decides, and a proper prefix comes first |
| Sorting.SortKeys | core/consensus/leader.go:21-25 | appending map keys in any order and sorting gives the one increasing enumeration |

## Left out

- REST and gRPC servers, generated code, configuration, metrics, logging and `main`: plumbing around the algorithms.
- libp2p transport, discovery and changing peer sets: the flood runs on a fixed peer graph with reliable sends; `Gossip.Broadcast` and `Gossip.HandleMessage` alone model sends that fail.
- Flood.Coverage: excludes the cleanup tick during a flood, because after it a node may handle and forward the message again.
- JSON encoding of gossip and consensus messages: `HandleMessage` is given the decoded message or none.
- FastPath.GetTimestamp: assumes MinSignatures of at least 1 (a channel of negative size panics) and does not model goroutines left blocked after it returns.
- HftClient.HftClient.VerifyTimestampResponse: looks and stores without another call in between; `VerificationCache` interleaves the two regions of any number of calls.
- HftClient.HftClient.GetVerifiedTimestamp: the deadline is a cut in the order of arrivals; its length is not modelled.
- Pbft.BigBFTConsensus.HandleVote: takes the threshold scheme as given; the constructor leaves that field unset, so the program would dereference nil once a quorum is reached. Membership of voters is not checked, as in the code; it is a hypothesis where it is needed.
- Batch identifiers beyond the range of 64-bit nanoseconds: the clock is an unbounded integer there.
- Ed25519 key lengths: the library panics on a public key that is not 32 bytes.
- RttTracker.RttTracker.GetAverageRtt: floating-point rounding and negative decay factors (a sum of weights could be zero) are not modelled.
- ServerOrder.GetServersByRtt: is given the averages the trackers answer, which cannot change while the read lock is held; the registry's slice is copied, so aliasing with it is not captured.
- Library sorts: `sort.Slice` and `sort.Strings` are represented by an in-place insertion sort with their contract.
- Peer scores, region management, state getters and setters: simple map updates.
- `ValidatorElection.StartViewChange`, view changes, `Consensus.handleMessage` and `updatePeerScores`: unfinished, or unable to complete a run because they re-enter their own lock.
- `LeaderElection.ElectLeader`: SHA-256 of the view is a parameter.
