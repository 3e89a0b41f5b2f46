/**
 The binary frames of the tunnel protocol: `[tag][id_len][id][payload]`, and
 the full-response payload `[json_len: u32 LE][json][body]` nested inside one.
 */
module Frames {
  import opened Common
  import opened Utf8

  const FRAME_RESPONSE_FULL: Byte := 3

  datatype Frame = Frame(tag: Byte, id: string, payload: Bytes)

  datatype Full = Full(json: string, body: Bytes)

  /** `u32::to_le_bytes` of a length cast to `u32`: the cast keeps the low 32 bits. */
  function Le32(n: nat): (bs: Bytes)
    ensures |bs| == 4
  {
    [n % 256, n / 256 % 256, n / 65536 % 256, n / 16777216 % 256]
  }

  function FromLe32(bs: Bytes): (n: nat)
    requires |bs| == 4
    ensures n < U32
  {
    var b0: int, b1: int, b2: int, b3: int := bs[0], bs[1], bs[2], bs[3];
    b0 + 256 * b1 + 65536 * b2 + 16777216 * b3
  }

  lemma Le32RoundTrip(n: nat)
    ensures FromLe32(Le32(n)) == n % U32
  {
    assert n == n / 256 * 256 + n % 256;
    assert n / 256 == n / 65536 * 256 + n / 256 % 256;
    assert n / 65536 == n / 16777216 * 256 + n / 65536 % 256;
    assert n / 16777216 == n / U32 * 256 + n / 16777216 % 256;
  }

  // ---- Encoders: append piece by piece to an output buffer --------------------

  function Encoded(f: Frame): Bytes
    requires ByteLen(f.id) < 256
  {
    [f.tag, ByteLen(f.id)] + Encode(f.id) + f.payload
  }

  function Joined(m: Full): Bytes {
    Le32(ByteLen(m.json)) + Encode(m.json) + m.body
  }

  /** `encode_binary_frame`. */
  method EncodeBinaryFrame(tag: Byte, id: string, payload: Bytes) returns (r: Option<Bytes>)
    ensures r.None? <==> ByteLen(id) > 255
    ensures r.Some? ==> DecodeBinaryFrame(r.value) == Some(Frame(tag, id, payload))
    ensures r.Some? ==> r.value == Encoded(Frame(tag, id, payload))
  {
    if ByteLen(id) > 255 {
      return None;
    }
    var out: Bytes := [];
    out := out + [tag];
    out := out + [ByteLen(id)];
    out := out + Encode(id);
    out := out + payload;
    assert out == Encoded(Frame(tag, id, payload));
    DecodeOfEncoded(Frame(tag, id, payload));
    return Some(out);
  }

  /** `encode_full_response_frame`: both layers in one pass. */
  method EncodeFullResponseFrame(id: string, json: string, body: Bytes) returns (r: Option<Bytes>)
    ensures r.None? <==> ByteLen(id) > 255
    ensures r.Some? ==> DecodeBinaryFrame(r.value) == Some(Frame(3, id, Joined(Full(json, body))))
    ensures r.Some? ==> r.value == Encoded(Frame(3, id, Joined(Full(json, body))))
  {
    if ByteLen(id) > 255 {
      return None;
    }
    var out: Bytes := [];
    out := out + [FRAME_RESPONSE_FULL];
    out := out + [ByteLen(id)];
    out := out + Encode(id);
    out := out + Le32(ByteLen(json));
    out := out + Encode(json);
    out := out + body;
    ghost var f := Frame(FRAME_RESPONSE_FULL, id, Joined(Full(json, body)));
    assert out == Encoded(f);
    DecodeOfEncoded(f);
    return Some(out);
  }

  // ---- Decoders: slicing --------------------------------------------------

  function DecodeBinaryFrame(data: Bytes): Option<Frame> {
    if |data| < 2 then None
    else
      var idLen: int := data[1];
      if |data| < 2 + idLen then None
      else
        match Decode(data[2..2 + idLen])
        case None => None
        case Some(id) => Some(Frame(data[0], id, data[2 + idLen..]))
  }

  function SplitFullResponse(payload: Bytes): Option<Full> {
    if |payload| < 4 then None
    else
      var jsonLen := FromLe32(payload[..4]);
      var rest := payload[4..];
      if |rest| < jsonLen then None
      else
        match Decode(rest[..jsonLen])
        case None => None
        case Some(json) => Some(Full(json, rest[jsonLen..]))
  }

  // ---- The two layers are inverse to each other ------------------------------

  lemma DecodeOfEncoded(f: Frame)
    requires ByteLen(f.id) < 256
    ensures DecodeBinaryFrame(Encoded(f)) == Some(f)
  {
    var data, n := Encoded(f), ByteLen(f.id);
    assert data[2..2 + n] == Encode(f.id) && data[2 + n..] == f.payload;
    DecodeEncode(f.id);
  }

  /** Whatever decodes is the encoding of what it decodes to: a bijection. */
  lemma EncodedOfDecode(data: Bytes)
    requires DecodeBinaryFrame(data).Some?
    ensures var f := DecodeBinaryFrame(data).value;
            ByteLen(f.id) < 256 && Encoded(f) == data
  {
    var n: int := data[1];
    EncodeDecode(data[2..2 + n]);
    assert data == [data[0], data[1]] + data[2..2 + n] + data[2 + n..];
  }

  lemma JoinedParts(m: Full)
    ensures |Joined(m)| >= 4 && Joined(m)[..4] == Le32(ByteLen(m.json)) && Joined(m)[4..] == Encode(m.json) + m.body
  {
  }

  /** The payload splits back exactly when its JSON length fits the prefix. */
  lemma SplitOfJoined(m: Full)
    ensures SplitFullResponse(Joined(m)) == Some(m) <==> ByteLen(m.json) < U32
  {
    JoinedParts(m);
    Le32RoundTrip(ByteLen(m.json));
    if ByteLen(m.json) < U32 {
      SplitOfWhole(m);
    } else if SplitFullResponse(Joined(m)).Some? {
      SplitLength(Joined(m));
    }
  }

  lemma SplitOfWhole(m: Full)
    requires FromLe32(Joined(m)[..4]) == ByteLen(m.json)
    ensures SplitFullResponse(Joined(m)) == Some(m)
  {
    var n, rest := ByteLen(m.json), Joined(m)[4..];
    JoinedParts(m);
    assert rest[..n] == Encode(m.json) && rest[n..] == m.body;
    DecodeEncode(m.json);
  }

  /** A JSON part of exactly 2^32 bytes: the prefix says zero, and all of it is taken for body. */
  lemma LongJsonIsTakenForBody(json: string)
    requires json == seq(U32, _ => 'a')
    ensures SplitFullResponse(Joined(Full(json, []))) == Some(Full("", Encode(json)))
  {
    AsciiByteLen(json);
    var m := Full(json, []);
    JoinedParts(m);
    Le32RoundTrip(ByteLen(json));
    var rest := Joined(m)[4..];
    assert rest == Encode(json) && rest[..0] == [] && rest[0..] == rest;
  }

  /** What splits off has the length its prefix says. */
  lemma SplitLength(payload: Bytes)
    requires SplitFullResponse(payload).Some?
    ensures ByteLen(SplitFullResponse(payload).value.json) == FromLe32(payload[..4])
  {
    EncodeDecode(payload[4..][..FromLe32(payload[..4])]);
  }

  lemma JoinedOfSplit(payload: Bytes)
    requires SplitFullResponse(payload).Some?
    ensures Joined(SplitFullResponse(payload).value) == payload
  {
    var n := FromLe32(payload[..4]);
    var rest := payload[4..];
    EncodeDecode(rest[..n]);
    Le32OfFromLe32(payload[..4]);
    assert payload == payload[..4] + rest[..n] + rest[n..];
  }

  lemma Le32OfFromLe32(bs: Bytes)
    requires |bs| == 4
    ensures Le32(FromLe32(bs)) == bs
  {
    var n := FromLe32(bs);
    var b1: int, b2: int, b3: int := bs[1], bs[2], bs[3];
    assert n / 256 == b1 + 256 * b2 + 65536 * b3;
    assert n / 65536 == n / 256 / 256 == b2 + 256 * b3;
    assert n / 16777216 == n / 65536 / 256 == b3;
  }

  /** The receiver's view of a whole full-response frame. */
  function ReadFull(data: Bytes): Option<(string, Full)> {
    match DecodeBinaryFrame(data)
    case None => None
    case Some(f) =>
      match SplitFullResponse(f.payload)
      case None => None
      case Some(m) => Some((f.id, m))
  }

  /** A full-response frame reads back exactly when its JSON is shorter than 2^32 bytes. */
  lemma FullFrameRoundTrip(id: string, m: Full)
    requires ByteLen(id) < 256
    ensures ReadFull(Encoded(Frame(FRAME_RESPONSE_FULL, id, Joined(m)))) == Some((id, m)) <==> ByteLen(m.json) < U32
  {
    DecodeOfEncoded(Frame(FRAME_RESPONSE_FULL, id, Joined(m)));
    SplitOfJoined(m);
  }

  lemma SplitOfCut(m: Full, cut: nat)
    requires ByteLen(m.json) < U32 && cut < 4 + ByteLen(m.json)
    ensures SplitFullResponse(Joined(m)[..cut]) == None
  {
    var payload := Joined(m)[..cut];
    if cut >= 4 {
      assert payload[..4] == Le32(ByteLen(m.json));
      Le32RoundTrip(ByteLen(m.json));
    }
  }

  lemma CutOfEncoded(f: Frame, cut: nat)
    requires ByteLen(f.id) < 256 && cut <= |Encoded(f)|
    ensures var head := 2 + ByteLen(f.id);
            DecodeBinaryFrame(Encoded(f)[..cut])
              == if cut < head then None else Some(f.(payload := f.payload[..cut - head]))
  {
    var head := 2 + ByteLen(f.id);
    if cut < head {
      assert cut >= 2 ==> Encoded(f)[..cut][1] == ByteLen(f.id);
    } else {
      var short := f.(payload := f.payload[..cut - head]);
      assert Encoded(f)[..cut] == Encoded(short);
      DecodeOfEncoded(short);
    }
  }

  /** A frame cut before the end of its JSON part is always refused. */
  lemma CutIsRefused(id: string, m: Full, cut: nat)
    requires ByteLen(id) < 256 && ByteLen(m.json) < U32
    requires cut < 2 + ByteLen(id) + 4 + ByteLen(m.json)
    ensures ReadFull(Encoded(Frame(FRAME_RESPONSE_FULL, id, Joined(m)))[..cut]) == None
  {
    CutOfEncoded(Frame(FRAME_RESPONSE_FULL, id, Joined(m)), cut);
    if cut >= 2 + ByteLen(id) {
      SplitOfCut(m, cut - 2 - ByteLen(id));
    }
  }

  /** A cut after it shortens the body and changes nothing else. */
  lemma CutOfTheBody(id: string, m: Full, cut: nat)
    requires ByteLen(id) < 256 && ByteLen(m.json) < U32
    requires 2 + ByteLen(id) + 4 + ByteLen(m.json) <= cut <= 2 + ByteLen(id) + |Joined(m)|
    ensures var whole := Encoded(Frame(FRAME_RESPONSE_FULL, id, Joined(m)));
            var kept := cut - 2 - ByteLen(id) - 4 - ByteLen(m.json);
            ReadFull(whole[..cut]) == Some((id, Full(m.json, m.body[..kept])))
  {
    var kept := cut - 2 - ByteLen(id) - 4 - ByteLen(m.json);
    var short := Full(m.json, m.body[..kept]);
    CutOfEncoded(Frame(FRAME_RESPONSE_FULL, id, Joined(m)), cut);
    assert Joined(m)[..cut - 2 - ByteLen(id)] == Joined(short);
    SplitOfJoined(short);
  }

  /** Byte by byte: tag, id length, id, payload. */
  lemma FrameLayout(f: Frame)
    requires ByteLen(f.id) < 256
    ensures var data, n := Encoded(f), ByteLen(f.id);
            && |data| == 2 + n + |f.payload| && data[0] == f.tag && data[1] == n
            && data[2..2 + n] == Encode(f.id) && data[2 + n..] == f.payload
  {
  }

  /** Byte by byte: the JSON length, lowest byte first, the JSON, the body. */
  lemma FullLayout(m: Full)
    ensures var data, n := Joined(m), ByteLen(m.json);
            && |data| == 4 + n + |m.body| && data[4..4 + n] == Encode(m.json) && data[4 + n..] == m.body
            && data[0] == n % 256 && data[1] == n / 256 % 256 && data[2] == n / 65536 % 256
            && data[3] == n / 16777216 % 256
  {
    JoinedParts(m);
    assert Joined(m)[4..][..ByteLen(m.json)] == Encode(m.json);
  }
}
