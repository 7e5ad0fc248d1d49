/**
  Threshold aggregation (core/consensus/threshold.go). Ed25519 itself is a parameter of the
  scheme: `ed25519Verify` may be any predicate.
 */
module Threshold {
  import opened Wrappers
  import opened Sorting
  import opened Collections
  import opened TimeTypes

  const SIGNATURE_SIZE: nat := 64

  /** The fixed message every partial signature is checked against. */
  const TIMESTAMP_MESSAGE: Bytes := [0x74, 0x69, 0x6d, 0x65, 0x73, 0x74, 0x61, 0x6d, 0x70]

  datatype AggregateError =
    | NotEnoughSignatures(got: nat, need: nat)
    | NotEnoughValidSignatures(got: nat, need: nat)

  datatype ThresholdSignature = ThresholdSignature(
    publicKeys: map<string, Bytes>,
    threshold: nat,
    ed25519Verify: (Bytes, Bytes, Bytes) -> bool)
  {
    predicate Verify(nodeId: string, data: Bytes, signature: Bytes) {
      nodeId in publicKeys && ed25519Verify(publicKeys[nodeId], data, signature)
    }

    predicate VerifyAggregated(data: Bytes, aggregated: Bytes) {
      |aggregated| >= threshold * SIGNATURE_SIZE
    }

    /** Section 5.1.6 of RFC 8032: a signature is 64 bytes, so nothing else is accepted. */
    ghost predicate AcceptsOnlySignatures() {
      forall key, data, signature :: ed25519Verify(key, data, signature) ==> |signature| == SIGNATURE_SIZE
    }

    /** The nodes whose entry verifies. */
    ghost function Verifying(signatures: map<string, Bytes>): set<string> {
      set id | id in signatures && Verify(id, TIMESTAMP_MESSAGE, signatures[id])
    }
  }

  /** The listed nodes' signatures, one after the other. */
  ghost function Concatenated(ids: seq<string>, signatures: map<string, Bytes>): (r: Bytes)
    requires forall id :: id in ids ==> id in signatures
  {
    if ids == [] then []
    else Concatenated(ids[..|ids| - 1], signatures) + signatures[ids[|ids| - 1]]
  }

  /** The `threshold` smallest verifying nodes, in increasing order. */
  ghost function Chosen(ts: ThresholdSignature, signatures: map<string, Bytes>): (ids: seq<string>)
    requires |ts.Verifying(signatures)| >= ts.threshold
    ensures |ids| == ts.threshold
    ensures forall id :: id in ids ==> id in ts.Verifying(signatures)
  {
    var all := SortedIds(ts.Verifying(signatures));
    assert forall i :: 0 <= i < ts.threshold ==> all[..ts.threshold][i] == all[i] && all[i] in all;
    all[..ts.threshold]
  }

  /** The value of a successful aggregation. */
  ghost function Combined(ts: ThresholdSignature, signatures: map<string, Bytes>): (r: Bytes)
    requires |ts.Verifying(signatures)| >= ts.threshold
  {
    Concatenated(Chosen(ts, signatures), signatures)
  }

  /** What a failed aggregation reports: whether entries are missing at all, or only verifying ones. */
  ghost function Shortage(ts: ThresholdSignature, signatures: map<string, Bytes>): AggregateError {
    if |signatures| < ts.threshold then NotEnoughSignatures(|signatures|, ts.threshold)
    else NotEnoughValidSignatures(|ts.Verifying(signatures)|, ts.threshold)
  }

  /** Keeps the entries that verify, visiting them in map order. */
  method KeepVerifying(ts: ThresholdSignature, signatures: map<string, Bytes>)
    returns (validSigs: map<string, Bytes>)
    ensures validSigs.Keys == ts.Verifying(signatures)
    ensures forall id :: id in validSigs ==> validSigs[id] == signatures[id]
  {
    validSigs := map[];
    var rest := signatures.Keys;
    while rest != {}
      invariant rest <= signatures.Keys
      invariant validSigs.Keys == ts.Verifying(signatures) - rest
      invariant forall id :: id in validSigs ==> validSigs[id] == signatures[id]
      decreases |rest|
    {
      var nodeId :| nodeId in rest;
      if ts.Verify(nodeId, TIMESTAMP_MESSAGE, signatures[nodeId]) {
        validSigs := validSigs[nodeId := signatures[nodeId]];
      }
      rest := rest - {nodeId};
    }
  }

  /** Appends the listed signatures one after the other. */
  method Append(ids: seq<string>, validSigs: map<string, Bytes>) returns (combined: Bytes)
    requires forall id :: id in ids ==> id in validSigs
    ensures combined == Concatenated(ids, validSigs)
  {
    combined := [];
    for i := 0 to |ids|
      invariant combined == Concatenated(ids[..i], validSigs)
    {
      assert ids[..i + 1][..i] == ids[..i];
      combined := combined + validSigs[ids[i]];
    }
    assert ids[..|ids|] == ids;
  }

  method Aggregate(ts: ThresholdSignature, signatures: map<string, Bytes>)
    returns (r: Result<Bytes, AggregateError>)
    ensures r.Ok? <==> |ts.Verifying(signatures)| >= ts.threshold
    ensures r.Ok? ==> r.value == Combined(ts, signatures)
    ensures r.Err? ==> r.error == Shortage(ts, signatures)
    ensures r.Err? && |signatures| < ts.threshold ==> r.error == NotEnoughSignatures(|signatures|, ts.threshold)
    ensures r.Err? && |signatures| >= ts.threshold ==>
              r.error == NotEnoughValidSignatures(|ts.Verifying(signatures)|, ts.threshold)
  {
    SubsetSize(ts.Verifying(signatures), signatures.Keys);
    if |signatures| < ts.threshold {
      return Err(NotEnoughSignatures(|signatures|, ts.threshold));
    }
    var validSigs := KeepVerifying(ts, signatures);
    assert |validSigs| == |validSigs.Keys|;
    if |validSigs| < ts.threshold {
      return Err(NotEnoughValidSignatures(|validSigs|, ts.threshold));
    }
    var sortedIds := SortKeys(validSigs.Keys);
    assert sortedIds[..ts.threshold] == Chosen(ts, signatures);
    var combined := Append(sortedIds[..ts.threshold], validSigs);
    ConcatenatedAgrees(Chosen(ts, signatures), validSigs, signatures);
    return Ok(combined);
  }

  /** An entry verifies exactly when its node has a key that accepts its signature for the text "timestamp". */
  lemma VerifyingMeaning(ts: ThresholdSignature, signatures: map<string, Bytes>, id: string)
    ensures id in ts.Verifying(signatures) <==>
            id in signatures && id in ts.publicKeys
            && ts.ed25519Verify(ts.publicKeys[id], [116, 105, 109, 101, 115, 116, 97, 109, 112], signatures[id])
  {
  }

  /** The total length of the first k listed signatures. */
  function Offset(ids: seq<string>, signatures: map<string, Bytes>, k: nat): nat
    requires k <= |ids| && forall id :: id in ids ==> id in signatures
  {
    if k == 0 then 0 else Offset(ids, signatures, k - 1) + |signatures[ids[k - 1]]|
  }

  /**
    The output, piece by piece: the signatures of the `threshold` smallest verifying nodes, in
    increasing order of node, each where the ones before it end. Pieces of 64 bytes start at
    multiples of 64.
   */
  lemma CombinedTakesSmallest(ts: ThresholdSignature, signatures: map<string, Bytes>) returns (chosen: seq<string>)
    requires |ts.Verifying(signatures)| >= ts.threshold
    ensures |chosen| == ts.threshold && Increasing(chosen)
    ensures forall id :: id in chosen ==> id in signatures && id in ts.Verifying(signatures)
    ensures forall id, other :: id in chosen && other in ts.Verifying(signatures) && other !in chosen ==> StringLess(id, other)
    ensures |Combined(ts, signatures)| == Offset(chosen, signatures, ts.threshold)
    ensures forall k :: 0 <= k < ts.threshold ==>
              PieceAt(Combined(ts, signatures), Offset(chosen, signatures, k), signatures[chosen[k]])
    ensures ts.AcceptsOnlySignatures() ==>
              |Combined(ts, signatures)| == 64 * ts.threshold
              && forall k :: 0 <= k < ts.threshold ==> Combined(ts, signatures)[64 * k..64 * k + 64] == signatures[chosen[k]]
  {
    chosen := Chosen(ts, signatures);
    ChosenSmallest(ts, signatures);
    WholeLength(chosen, signatures);
    forall k | 0 <= k < ts.threshold
      ensures PieceAt(Combined(ts, signatures), Offset(chosen, signatures, k), signatures[chosen[k]])
    {
      Piece(chosen, signatures, k);
    }
    if ts.AcceptsOnlySignatures() {
      EvenPieces(ts, signatures);
    }
  }

  /** If only 64-byte signatures are accepted the pieces start at multiples of 64. */
  lemma EvenPieces(ts: ThresholdSignature, signatures: map<string, Bytes>)
    requires ts.AcceptsOnlySignatures() && |ts.Verifying(signatures)| >= ts.threshold
    ensures |Combined(ts, signatures)| == 64 * ts.threshold
    ensures forall k :: 0 <= k < ts.threshold ==>
              && Chosen(ts, signatures)[k] in Chosen(ts, signatures)
              && Combined(ts, signatures)[64 * k..64 * k + 64] == signatures[Chosen(ts, signatures)[k]]
  {
    var chosen := Chosen(ts, signatures);
    WholeLength(chosen, signatures);
    EvenOffset(ts, signatures, ts.threshold);
    forall k | 0 <= k < ts.threshold
      ensures chosen[k] in chosen && Combined(ts, signatures)[64 * k..64 * k + 64] == signatures[chosen[k]]
    {
      EvenPiece(ts, signatures, k);
    }
  }

  lemma EvenPiece(ts: ThresholdSignature, signatures: map<string, Bytes>, k: nat)
    requires ts.AcceptsOnlySignatures() && |ts.Verifying(signatures)| >= ts.threshold > k
    ensures Chosen(ts, signatures)[k] in ts.Verifying(signatures) && |signatures[Chosen(ts, signatures)[k]]| == 64
    ensures PieceAt(Combined(ts, signatures), 64 * k, signatures[Chosen(ts, signatures)[k]])
  {
    var id := Chosen(ts, signatures)[k];
    assert id in Chosen(ts, signatures);
    Piece(Chosen(ts, signatures), signatures, k);
    EvenOffset(ts, signatures, k);
  }

  lemma ChosenSmallest(ts: ThresholdSignature, signatures: map<string, Bytes>)
    requires |ts.Verifying(signatures)| >= ts.threshold
    ensures Increasing(Chosen(ts, signatures))
    ensures forall id, other ::
              id in Chosen(ts, signatures) && other in ts.Verifying(signatures) && other !in Chosen(ts, signatures) ==>
              StringLess(id, other)
  {
    var all := SortedIds(ts.Verifying(signatures));
    var chosen := Chosen(ts, signatures);
    forall id, other | id in chosen && other in ts.Verifying(signatures) && other !in chosen
      ensures StringLess(id, other)
    {
      var i :| 0 <= i < |chosen| && chosen[i] == id;
      assert other in all;
      var j :| 0 <= j < |all| && all[j] == other;
      assert forall k :: 0 <= k < ts.threshold ==> all[k] == chosen[k];
    }
  }

  predicate PieceAt(all: Bytes, at: nat, piece: Bytes) {
    at + |piece| <= |all| && all[at..at + |piece|] == piece
  }

  lemma {:induction false} OffsetPrefix(ids: seq<string>, n: nat, signatures: map<string, Bytes>, k: nat)
    requires k <= n <= |ids| && forall id :: id in ids ==> id in signatures
    ensures Offset(ids[..n], signatures, k) == Offset(ids, signatures, k)
  {
    if k > 0 {
      OffsetPrefix(ids, n, signatures, k - 1);
    }
  }

  lemma {:induction false} WholeLength(ids: seq<string>, signatures: map<string, Bytes>)
    requires forall id :: id in ids ==> id in signatures
    ensures |Concatenated(ids, signatures)| == Offset(ids, signatures, |ids|)
  {
    if ids != [] {
      var n := |ids| - 1;
      WholeLength(ids[..n], signatures);
      OffsetPrefix(ids, n, signatures, n);
    }
  }

  /** Signature k is in the concatenation where the ones before it end. */
  lemma {:induction false} Piece(ids: seq<string>, signatures: map<string, Bytes>, k: nat)
    requires k < |ids| && forall id :: id in ids ==> id in signatures
    ensures PieceAt(Concatenated(ids, signatures), Offset(ids, signatures, k), signatures[ids[k]])
  {
    var n := |ids| - 1;
    var front, last := Concatenated(ids[..n], signatures), signatures[ids[n]];
    OffsetPrefix(ids, n, signatures, k);
    if k < n {
      Piece(ids[..n], signatures, k);
      var at, piece := Offset(ids, signatures, k), signatures[ids[k]];
      assert (front + last)[at..at + |piece|] == front[at..at + |piece|];
    } else {
      WholeLength(ids[..n], signatures);
    }
  }

  lemma {:induction false} EvenOffset(ts: ThresholdSignature, signatures: map<string, Bytes>, k: nat)
    requires ts.AcceptsOnlySignatures() && |ts.Verifying(signatures)| >= ts.threshold >= k
    ensures Offset(Chosen(ts, signatures), signatures, k) == 64 * k
  {
    if k > 0 {
      EvenOffset(ts, signatures, k - 1);
      assert Chosen(ts, signatures)[k - 1] in ts.Verifying(signatures);
    }
  }

  /** Entries that do not verify never change whether aggregation succeeds nor what it returns. */
  lemma NonVerifyingEntriesIgnored(ts: ThresholdSignature, signatures: map<string, Bytes>, noise: map<string, Bytes>)
    requires signatures.Keys !! noise.Keys
    requires ts.Verifying(noise) == {}
    ensures ts.Verifying(signatures + noise) == ts.Verifying(signatures)
    ensures |ts.Verifying(signatures)| >= ts.threshold ==> Combined(ts, signatures + noise) == Combined(ts, signatures)
  {
    var both := signatures + noise;
    forall id ensures id in ts.Verifying(both) <==> id in ts.Verifying(signatures) {
      if id in noise {
        assert id !in ts.Verifying(noise);
      }
    }
    assert ts.Verifying(both) == ts.Verifying(signatures);
    if |ts.Verifying(signatures)| >= ts.threshold {
      ConcatenatedAgrees(Chosen(ts, signatures), both, signatures);
    }
  }

  lemma {:induction false} ConcatenatedAgrees(ids: seq<string>, a: map<string, Bytes>, b: map<string, Bytes>)
    requires forall id :: id in ids ==> id in a && id in b && a[id] == b[id]
    ensures Concatenated(ids, a) == Concatenated(ids, b)
  {
    if ids != [] {
      ConcatenatedAgrees(ids[..|ids| - 1], a, b);
    }
  }

  lemma {:induction false} ConcatenatedLength(ids: seq<string>, signatures: map<string, Bytes>, size: nat)
    requires forall id :: id in ids ==> id in signatures && |signatures[id]| == size
    ensures |Concatenated(ids, signatures)| == |ids| * size
  {
    if ids != [] {
      var n := |ids| - 1;
      ConcatenatedLength(ids[..n], signatures, size);
      assert ids[n] in ids;
      assert n * size + size == |ids| * size;
    }
  }

  /** A successful aggregate has 64 bytes a signature; the aggregate check accepts it, and nothing shorter. */
  lemma AggregateAccepted(ts: ThresholdSignature, signatures: map<string, Bytes>, data: Bytes)
    requires ts.AcceptsOnlySignatures()
    requires |ts.Verifying(signatures)| >= ts.threshold
    ensures |Combined(ts, signatures)| == ts.threshold * 64
    ensures ts.VerifyAggregated(data, Combined(ts, signatures))
    ensures forall other: Bytes :: ts.VerifyAggregated(data, other) <==> |other| >= |Combined(ts, signatures)|
  {
    ConcatenatedLength(Chosen(ts, signatures), signatures, SIGNATURE_SIZE);
  }

  /**
    The scheme the consensus constructor installs has no public keys and threshold 5
    (core/consensus/pbft.go:62): with no keys, only threshold 0 ever aggregates.
   */
  lemma UnconfiguredNeverAggregates(ts: ThresholdSignature, signatures: map<string, Bytes>)
    requires ts.publicKeys == map[]
    ensures |ts.Verifying(signatures)| >= ts.threshold <==> ts.threshold == 0
  {
    assert ts.Verifying(signatures) == {};
  }
}
