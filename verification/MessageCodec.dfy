/**
 The message layer of PagerLink v1: a 6-byte header (version, type, id, length)
 in front of the payload.
 */
module MessageCodec {
  import opened Bytes

  const VER: byte := 1
  const HEADER := 6
  const MAX_PAYLOAD := 4096
  const MAX_MESSAGE := HEADER + MAX_PAYLOAD
  const MAX_TYPE := 5

  datatype Reason = Short | Version | Type | Oversize | Length

  /** A decoded message, or why the bytes are not one. */
  datatype Decoded = Decoded(mtype: int, id: int, payload: seq<byte>) | Malformed(reason: Reason)

  /** What the header fields can carry; packing anything else raises an error. */
  predicate Packable(mtype: int, id: int, payload: seq<byte>) {
    0 <= mtype < 256 && 0 <= id < 0x1_0000 && |payload| < 0x1_0000
  }

  function Encode(mtype: int, id: int, payload: seq<byte>): (b: seq<byte>)
    requires Packable(mtype, id, payload)
    ensures |b| == HEADER + |payload|
  {
    [VER, mtype] + U16(id) + U16(|payload|) + payload
  }

  function Decode(b: seq<byte>): Decoded {
    if |b| < HEADER then Malformed(Short)
    else
      var mtype, id, len := b[1] as int, U16At(b, 2), U16At(b, 4);
      if b[0] != VER then Malformed(Version)
      else if mtype > MAX_TYPE then Malformed(Type)
      else if len > MAX_PAYLOAD then Malformed(Oversize)
      else if HEADER + len != |b| then Malformed(Length)
      else Decoded(mtype, id, b[HEADER..])
  }

  /** The messages the link accepts. */
  predicate Sendable(mtype: int, id: int, payload: seq<byte>) {
    0 <= mtype <= MAX_TYPE && 0 <= id < 0x1_0000 && |payload| <= MAX_PAYLOAD
  }

  /** Decoding undoes encoding exactly for the sendable messages; otherwise the reason names the first bad field. */
  lemma DecodeEncode(mtype: int, id: int, payload: seq<byte>)
    requires Packable(mtype, id, payload)
    ensures Decode(Encode(mtype, id, payload)) ==
            if Sendable(mtype, id, payload) then Decoded(mtype, id, payload)
            else Malformed(if mtype > MAX_TYPE then Type else Oversize)
  {
    var b := Encode(mtype, id, payload);
    assert b[2] == id % 256 && b[3] == id / 256;
    assert b[4] == |payload| % 256 && b[5] == |payload| / 256;
    assert U16At(b, 2) == id && U16At(b, 4) == |payload|;
    assert b[HEADER..] == payload;
  }

  /** Every accepted byte string is the encoding of what it decodes to, so no two of them mean the same message. */
  lemma EncodeDecode(b: seq<byte>)
    requires Decode(b).Decoded?
    ensures var d := Decode(b);
            Sendable(d.mtype, d.id, d.payload) && Encode(d.mtype, d.id, d.payload) == b
  {
    var d := Decode(b);
    assert d.id % 256 == b[2] && d.id / 256 == b[3];
    var len := |d.payload|;
    assert len % 256 == b[4] && len / 256 == b[5];
    assert b == b[..HEADER] + b[HEADER..];
    assert b[..HEADER] == [VER, d.mtype] + U16(d.id) + U16(len);
  }

  /** Where the fields of a message are. */
  lemma Layout(mtype: int, id: int, payload: seq<byte>)
    requires Packable(mtype, id, payload)
    ensures var b := Encode(mtype, id, payload);
            b[0] == 1 && b[1] == mtype && b[2] as int + 256 * b[3] as int == id &&
            b[4] as int + 256 * b[5] as int == |payload| && b[6..] == payload
  {
  }

  /** Why bytes are refused: the first of the conditions that fails. */
  lemma DecodeRefuses(b: seq<byte>)
    ensures Decode(b) == Malformed(Short) <==> |b| < 6
    ensures |b| >= 6 ==>
              var len := b[4] as int + 256 * b[5] as int;
              (Decode(b) == Malformed(Version) <==> b[0] != 1) &&
              (Decode(b) == Malformed(Type) <==> b[0] == 1 && b[1] > 5) &&
              (Decode(b) == Malformed(Oversize) <==> b[0] == 1 && b[1] <= 5 && len > 4096) &&
              (Decode(b) == Malformed(Length) <==> b[0] == 1 && b[1] <= 5 && len <= 4096 && 6 + len != |b|)
  {
  }
}
