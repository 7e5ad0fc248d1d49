/** The dual-format parameter parser (core/client/hft_client.go:705-744). */
module DualFormat {
  import opened Wrappers
  import opened TimeTypes

  const MAX_LENGTH_PREFIX_VALUE: nat := 100 * 1024
  const TWO_32: nat := 0x1_0000_0000

  datatype ParseError = EmptyData | TooShort(expected: nat, got: nat)

  /** Lengths are compared as uint32, so the input's length is taken modulo 2^32. */
  function Parse(data: Bytes): Result<Bytes, ParseError> {
    if |data| == 0 then Err(EmptyData)
    else if |data| < 4 then Ok(data)
    else
      var lengthPrefix := FromLittleEndian(data[..4]);
      if 0 < lengthPrefix <= MAX_LENGTH_PREFIX_VALUE then
        if |data| % TWO_32 < 4 + lengthPrefix then Err(TooShort(4 + lengthPrefix, |data|))
        else Ok(data[4..4 + lengthPrefix])
      else Ok(data)
  }

  /** A payload behind its length, with anything after it. */
  function Framed(payload: Bytes, tail: Bytes): Bytes {
    LittleEndian(|payload|, 4) + payload + tail
  }

  lemma FramedPrefix(payload: Bytes, tail: Bytes)
    requires |payload| < TWO_32
    ensures |Framed(payload, tail)| == 4 + |payload| + |tail|
    ensures FromLittleEndian(Framed(payload, tail)[..4]) == |payload|
    ensures Framed(payload, tail)[4..4 + |payload|] == payload
  {
    Pow256Values();
    DecodeEncode(|payload|, 4);
    assert Framed(payload, tail)[..4] == LittleEndian(|payload|, 4);
  }

  /**
    A framed payload of 1 to 102400 bytes parses back to the payload, whatever follows, exactly
    when the input's length modulo 2^32 still covers the frame; below 2^32 it always does.
   */
  lemma FramedRoundTrip(payload: Bytes, tail: Bytes)
    requires 1 <= |payload| <= MAX_LENGTH_PREFIX_VALUE
    ensures Parse(Framed(payload, tail)) == Ok(payload) <==> (4 + |payload| + |tail|) % TWO_32 >= 4 + |payload|
    ensures 4 + |payload| + |tail| < TWO_32 ==> Parse(Framed(payload, tail)) == Ok(payload)
  {
    FramedPrefix(payload, tail);
  }

  /** One byte followed by 2^32 - 5 more: the input's length reads as 0, which is too short. */
  lemma FramedTooLong() returns (payload: Bytes, tail: Bytes)
    ensures |payload| == 1 && |tail| == TWO_32 - 5
    ensures Parse(Framed(payload, tail)).Err?
  {
    payload, tail := [7], seq(TWO_32 - 5, _ => 0);
    FramedPrefix(payload, tail);
  }

  /** Longer payloads and empty ones are not unframed: the whole input comes back. */
  lemma OutsideRange(payload: Bytes, tail: Bytes)
    requires |payload| == 0 || MAX_LENGTH_PREFIX_VALUE < |payload| < TWO_32
    ensures Parse(Framed(payload, tail)) == Ok(Framed(payload, tail))
  {
    FramedPrefix(payload, tail);
  }

  /**
    The answer to any input shorter than 2^32 bytes: an error for none; a prefix in range promises
    that many bytes more, and is an error that names both lengths if they are not there; anything
    else is the input itself.
   */
  lemma ParseExactly(data: Bytes)
    requires |data| < 0x1_0000_0000
    ensures |data| == 0 ==> Parse(data) == Err(EmptyData)
    ensures 1 <= |data| < 4 ==> Parse(data) == Ok(data)
    ensures |data| >= 4 ==>
              var prefix := data[0] as nat + 0x100 * data[1] as nat + 0x1_0000 * data[2] as nat + 0x100_0000 * data[3] as nat;
              Parse(data) == if 1 <= prefix <= 102400 then
                               if |data| < 4 + prefix then Err(TooShort(4 + prefix, |data|)) else Ok(data[4..4 + prefix])
                             else Ok(data)
  {
    if |data| >= 4 {
      FourBytes(data[..4]);
    }
  }

  /** Little-endian: the first byte counts least. */
  lemma FourBytes(b: Bytes)
    requires |b| == 4
    ensures FromLittleEndian(b) == b[0] as nat + 0x100 * b[1] as nat + 0x1_0000 * b[2] as nat + 0x100_0000 * b[3] as nat
  {
    assert b[1..][1..] == b[2..] && b[2..][1..] == b[3..] && b[3..][1..] == [];
    assert FromLittleEndian(b[3..]) == b[3] as nat;
    assert FromLittleEndian(b[2..]) == b[2] as nat + 256 * FromLittleEndian(b[3..]);
    assert FromLittleEndian(b[1..]) == b[1] as nat + 256 * FromLittleEndian(b[2..]);
  }

  /** Data meant in the direct format comes back unchanged exactly when its first four bytes are not a length in range. */
  lemma DirectRoundTrip(data: Bytes)
    ensures Parse(data) == Ok(data) <==>
            |data| > 0 && (|data| < 4 || FromLittleEndian(data[..4]) == 0
                                      || FromLittleEndian(data[..4]) > MAX_LENGTH_PREFIX_VALUE)
  {
    if |data| >= 4 && 0 < FromLittleEndian(data[..4]) <= MAX_LENGTH_PREFIX_VALUE && Parse(data).Ok? {
      assert |Parse(data).value| == FromLittleEndian(data[..4]);
    }
  }
}
