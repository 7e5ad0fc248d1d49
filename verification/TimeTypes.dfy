/**
  Signed timestamps and their byte encoding (core/types/types.go). A time is its count of
  nanoseconds since the epoch.
 */
module TimeTypes {
  import opened Wrappers

  newtype byte = x: int | 0 <= x < 256

  type Bytes = seq<byte>

  const TWO_63: int := 0x8000_0000_0000_0000
  const TWO_64: int := 0x1_0000_0000_0000_0000

  predicate IsInt64(n: int) {
    -TWO_63 <= n < TWO_63
  }

  // ---------- fixed-width integers ----------

  function Pow256(k: nat): nat {
    if k == 0 then 1 else 256 * Pow256(k - 1)
  }

  /** The k low bytes of v, most significant first. */
  function BigEndian(v: nat, k: nat): (b: Bytes)
    ensures |b| == k
  {
    if k == 0 then [] else BigEndian(v / 256, k - 1) + [(v % 256) as byte]
  }

  function FromBigEndian(b: Bytes): nat {
    if b == [] then 0 else FromBigEndian(b[..|b| - 1]) * 256 + b[|b| - 1] as nat
  }

  /** The k low bytes of v, least significant first. */
  function LittleEndian(v: nat, k: nat): (b: Bytes)
    ensures |b| == k
  {
    if k == 0 then [] else [(v % 256) as byte] + LittleEndian(v / 256, k - 1)
  }

  function FromLittleEndian(b: Bytes): nat {
    if b == [] then 0 else b[0] as nat + 256 * FromLittleEndian(b[1..])
  }

  lemma {:induction false} DecodeEncode(v: nat, k: nat)
    requires v < Pow256(k)
    ensures FromBigEndian(BigEndian(v, k)) == v
    ensures FromLittleEndian(LittleEndian(v, k)) == v
  {
    if k > 0 {
      DecodeEncode(v / 256, k - 1);
      var b := BigEndian(v, k);
      assert b[..k - 1] == BigEndian(v / 256, k - 1);
      assert LittleEndian(v, k)[1..] == LittleEndian(v / 256, k - 1);
    }
  }

  lemma {:induction false} EncodeDecode(b: Bytes)
    ensures FromBigEndian(b) < Pow256(|b|)
    ensures BigEndian(FromBigEndian(b), |b|) == b
  {
    if b != [] {
      var front := b[..|b| - 1];
      var last := b[|b| - 1];
      EncodeDecode(front);
      var v := FromBigEndian(b);
      assert v / 256 == FromBigEndian(front) && v % 256 == last as nat;
      assert b == front + [last];
    }
  }

  lemma Pow256Values()
    ensures Pow256(8) == TWO_64
    ensures Pow256(4) == 0x1_0000_0000
  {
    assert Pow256(2) == 0x1_0000;
    assert Pow256(4) == 0x1_0000_0000;
    assert Pow256(6) == 0x1_0000_0000_0000;
  }

  // ---------- the timestamp codec ----------

  /** uint64(t.UnixNano()) */
  function ToUint64(nanos: int): nat {
    nanos % TWO_64
  }

  function ToInt64(v: nat): int {
    var w := v % TWO_64;
    if w < TWO_63 then w else w - TWO_64
  }

  function TimestampToBytes(time: int): (b: Bytes)
    ensures |b| == 8
  {
    BigEndian(ToUint64(time), 8)
  }

  /** Reads the first eight bytes; fewer are a run-time panic. */
  function BytesToTimestamp(b: Bytes): Option<int> {
    if |b| < 8 then None else Some(ToInt64(FromBigEndian(b[..8])))
  }

  /** Big-endian: the first byte counts most. */
  lemma EightBytes(b: Bytes)
    requires |b| == 8
    ensures FromBigEndian(b) == Word(b[0], b[1], b[2], b[3]) * 0x1_0000_0000 + Word(b[4], b[5], b[6], b[7])
  {
    assert forall k :: 0 < k <= 8 ==> b[..k][..k - 1] == b[..k - 1];
    assert FromBigEndian(b[..0]) == 0;
    assert FromBigEndian(b[..1]) == b[0] as nat;
    assert FromBigEndian(b[..2]) == FromBigEndian(b[..1]) * 256 + b[1] as nat;
    assert FromBigEndian(b[..3]) == FromBigEndian(b[..2]) * 256 + b[2] as nat;
    assert FromBigEndian(b[..4]) == FromBigEndian(b[..3]) * 256 + b[3] as nat;
    assert FromBigEndian(b[..5]) == FromBigEndian(b[..4]) * 256 + b[4] as nat;
    assert FromBigEndian(b[..6]) == FromBigEndian(b[..5]) * 256 + b[5] as nat;
    assert FromBigEndian(b[..7]) == FromBigEndian(b[..6]) * 256 + b[6] as nat;
    assert FromBigEndian(b[..8]) == FromBigEndian(b[..7]) * 256 + b[7] as nat;
    assert b[..8] == b;
  }

  /** Four bytes as a number, the first counting most. */
  function Word(a: byte, b: byte, c: byte, d: byte): nat {
    a as nat * 0x100_0000 + b as nat * 0x1_0000 + c as nat * 0x100 + d as nat
  }

  /** The bytes signed are those of the time modulo 2^64, the most significant first. */
  lemma TimestampBytesExactly(time: int)
    ensures var b := TimestampToBytes(time);
            Word(b[0], b[1], b[2], b[3]) * 0x1_0000_0000 + Word(b[4], b[5], b[6], b[7]) == time % 0x1_0000_0000_0000_0000
  {
    Pow256Values();
    DecodeEncode(ToUint64(time), 8);
    EightBytes(TimestampToBytes(time));
  }

  /** Decoding gives back exactly the times that fit in an int64, negative ones included. */
  lemma TimestampRoundTrip(time: int)
    ensures BytesToTimestamp(TimestampToBytes(time)) == Some(time) <==> IsInt64(time)
  {
    Pow256Values();
    DecodeEncode(ToUint64(time), 8);
    var b := TimestampToBytes(time);
    assert b[..8] == b;
    WrapRoundTrip(time);
  }

  lemma WrapRoundTrip(n: int)
    ensures ToInt64(ToUint64(n)) == n <==> IsInt64(n)
  {
    if 0 <= n < TWO_64 {
      assert ToUint64(n) == n;
    } else if -TWO_63 <= n < 0 {
      assert ToUint64(n) == n + TWO_64;
    }
  }

  /** Eight bytes always decode, and encode back to themselves. */
  lemma BytesRoundTrip(b: Bytes)
    requires |b| == 8
    ensures BytesToTimestamp(b).Some? && IsInt64(BytesToTimestamp(b).value)
    ensures TimestampToBytes(BytesToTimestamp(b).value) == b
  {
    EncodeDecode(b);
    Pow256Values();
    assert b[..8] == b;
    var v := FromBigEndian(b);
    assert v < TWO_64;
    assert ToUint64(ToInt64(v)) == v;
  }

  /** Two times share an encoding exactly when they agree modulo 2^64; within int64, when they are equal. */
  lemma EncodingInjective(s: int, t: int)
    ensures TimestampToBytes(s) == TimestampToBytes(t) <==> s % TWO_64 == t % TWO_64
    ensures IsInt64(s) && IsInt64(t) ==> (TimestampToBytes(s) == TimestampToBytes(t) <==> s == t)
  {
    Pow256Values();
    DecodeEncode(ToUint64(s), 8);
    DecodeEncode(ToUint64(t), 8);
    if IsInt64(s) && IsInt64(t) {
      TimestampRoundTrip(s);
      TimestampRoundTrip(t);
    }
  }

  // ---------- signed timestamps ----------

  /** What a server does with bytes; its keys stay inside. */
  datatype TimeServer = TimeServer(
    id: string,
    region: string,
    sign: Bytes -> Result<Bytes, string>,
    verify: (Bytes, Bytes) -> bool)

  /** A timestamp's fields. */
  datatype SignedTimestamp = SignedTimestamp(time: int, serverId: string, regionId: string, signature: Bytes)

  /** SignedTimestamp.Verify: nil is true. */
  predicate Verify(ts: SignedTimestamp, server: TimeServer) {
    server.verify(BigEndian(ToUint64(ts.time), 8), ts.signature)
  }

  /** The server accepts what it signs. */
  ghost predicate AcceptsOwn(server: TimeServer) {
    forall message :: server.sign(message).Ok? ==> server.verify(message, server.sign(message).value)
  }

  /** The server accepts a signature for one message at most. */
  ghost predicate Binding(server: TimeServer) {
    forall m, n, signature :: server.verify(m, signature) && server.verify(n, signature) ==> m == n
  }

  class TimestampRecord {
    var time: int
    var serverId: string
    var regionId: string
    var signature: Bytes

    constructor (time: int)
      ensures Value() == SignedTimestamp(time, "", "", [])
    {
      this.time := time;
      serverId, regionId, signature := "", "", [];
    }

    function Value(): SignedTimestamp
      reads this
    {
      SignedTimestamp(time, serverId, regionId, signature)
    }

    /**
      Signs in place. A failure leaves every field alone; a success fills in the signature and
      the signer and keeps the time, and the signer then verifies the result.
     */
    method Sign(server: TimeServer) returns (r: Result<(), string>)
      modifies this
      ensures r.Err? <==> server.sign(TimestampToBytes(old(time))).Err?
      ensures r.Err? ==> Value() == old(Value())
      ensures r.Ok? ==> Value() == SignedTimestamp(old(time), server.id, server.region,
                                                   server.sign(TimestampToBytes(old(time))).value)
      ensures r.Ok? && AcceptsOwn(server) ==> Verify(Value(), server)
    {
      var message := TimestampToBytes(time);
      var signed := server.sign(message);
      if signed.Err? {
        return Err(signed.error);
      }
      signature := signed.value;
      serverId := server.id;
      regionId := server.region;
      return Ok(());
    }
  }

  /** A signature a binding server made for one int64 time verifies for that time and no other. */
  lemma SignatureBindsTime(server: TimeServer, time: int, ts: SignedTimestamp)
    requires AcceptsOwn(server) && Binding(server)
    requires IsInt64(time) && IsInt64(ts.time)
    requires server.sign(TimestampToBytes(time)) == Ok(ts.signature)
    ensures Verify(ts, server) <==> ts.time == time
  {
    EncodingInjective(time, ts.time);
  }
}
