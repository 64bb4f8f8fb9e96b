/**
 Length-delimited framing of spec envelopes.

 The message codec itself is foreign: `Codec` is any encoder with a decoding left inverse.
 The framing around it (a base-128 varint length, then the message bytes) is modelled byte
 by byte, following the "Base 128 Varints" section of the Protocol Buffers Encoding
 specification and the ten byte limit of its 64-bit readers.
 */
module EnvelopeFraming {
  import opened Common

  type Byte = b: int | 0 <= b < 256

  /** The four control kinds, and every other kind by its wire code. */
  datatype EnvelopeKind = TopLevel | CopyPrev | Checksums | Done | Spec(code: int)

  datatype Envelope = Envelope(kind: EnvelopeKind, name: string, checksum: string, data: Option<seq<Byte>>)

  predicate IsMeta(kind: EnvelopeKind) {
    kind == Done || kind == CopyPrev || kind == TopLevel || kind == Checksums
  }

  datatype Codec = Codec(encode: Envelope -> seq<Byte>, decode: seq<Byte> -> Option<Envelope>) {
    /** Decoding undoes encoding. */
    ghost predicate Lawful() {
      forall e: Envelope :: decode(encode(e)) == Some(e)
    }

    /** The encoding fits the 64-bit length its frame announces. */
    predicate Fits(e: Envelope) {
      |encode(e)| <= U64_MAX
    }

    ghost predicate AllFit(es: seq<Envelope>) {
      forall e | e in es :: Fits(e)
    }
  }

  /** The frames read so far, and whether the buffer was used up. */
  datatype Parsed = Parsed(envelopes: seq<Envelope>, complete: bool) {
    function After(before: seq<Envelope>): Parsed {
      Parsed(before + envelopes, complete)
    }
  }

  datatype DecodeResult = Ok(envelopes: seq<Envelope>) | DecodeError

  // ----- Varints -----

  function EncodeVarint(n: nat): seq<Byte> {
    if n < 128 then [n] else [n % 128 + 128] + EncodeVarint(n / 128)
  }

  /** Reads a varint whose first `count` bytes were already consumed. */
  function DecodeVarint(buf: seq<Byte>, count: nat): (r: Option<(nat, seq<Byte>)>)
    requires count <= 10
    ensures r.Some? ==> |r.value.1| < |buf|
    decreases 10 - count
  {
    if count == 10 || buf == [] then None
    else if buf[0] < 128 then
      if count == 9 && buf[0] >= 2 then None else Some((buf[0], buf[1..]))
    else
      match DecodeVarint(buf[1..], count + 1)
      case None => None
      case Some((high, rest)) => Some((buf[0] - 128 + 128 * high, rest))
  }

  /** One past the largest value that still fits when `count` bytes were consumed; 2^64 at 0. */
  function VarintBound(count: nat): (bound: nat)
    requires count <= 9
    ensures bound >= 2
    decreases 9 - count
  {
    if count == 9 then 2 else 128 * VarintBound(count + 1)
  }

  lemma {:induction false} VarintRoundTrip(n: nat, tail: seq<Byte>, count: nat)
    requires count <= 9 && n < VarintBound(count)
    ensures DecodeVarint(EncodeVarint(n) + tail, count) == Some((n, tail))
    decreases 9 - count
  {
    var buf := EncodeVarint(n) + tail;
    if n < 128 {
      assert buf[1..] == tail;
    } else {
      assert buf[1..] == EncodeVarint(n / 128) + tail;
      VarintRoundTrip(n / 128, tail, count + 1);
    }
  }

  /** The bytes a varint stands for: seven bits each, lowest first. */
  function VarintValue(bytes: seq<Byte>): nat {
    if bytes == [] then 0 else bytes[0] % 128 + 128 * VarintValue(bytes[1..])
  }

  /** The wire format: every byte but the last has its high bit set, the last has not, and no byte is wasted. */
  lemma {:induction false} VarintFormat(n: nat)
    ensures var bytes := EncodeVarint(n);
            && bytes != [] && VarintValue(bytes) == n
            && (forall i | 0 <= i < |bytes| :: bytes[i] >= 0x80 <==> i < |bytes| - 1)
            && (|bytes| > 1 ==> bytes[|bytes| - 1] != 0)
  {
    if n >= 128 {
      VarintFormat(n / 128);
      var rest := EncodeVarint(n / 128);
      assert ([n % 128 + 128] + rest)[1..] == rest;
    }
  }

  /** A length that does not fit 64 bits is refused. */
  lemma {:induction false} VarintFits(buf: seq<Byte>, count: nat)
    requires count <= 9
    ensures var r := DecodeVarint(buf, count); r.Some? ==> r.value.0 < VarintBound(count)
    decreases 9 - count
  {
    if count < 9 && buf != [] {
      VarintFits(buf[1..], count + 1);
    }
  }

  /** A varint cut short never parses. */
  lemma {:induction false} TruncatedVarint(n: nat, cut: nat, count: nat)
    requires count <= 9 && cut < |EncodeVarint(n)|
    ensures DecodeVarint(EncodeVarint(n)[..cut], count) == None
    decreases 9 - count
  {
    if cut > 0 {
      assert EncodeVarint(n)[..cut][1..] == EncodeVarint(n / 128)[..cut - 1];
      if count < 9 {
        TruncatedVarint(n / 128, cut - 1, count + 1);
      }
    }
  }

  // ----- Frames -----

  function Frame(c: Codec, e: Envelope): seq<Byte> {
    EncodeVarint(|c.encode(e)|) + c.encode(e)
  }

  function Frames(c: Codec, es: seq<Envelope>): seq<Byte> {
    if es == [] then [] else Frame(c, es[0]) + Frames(c, es[1..])
  }

  /** `decode_length_delimited`: fails on a bad length, a short buffer or a bad message. */
  function DecodeFrame(c: Codec, buf: seq<Byte>): (r: Option<(Envelope, seq<Byte>)>)
    ensures r.Some? ==> |r.value.1| < |buf|
  {
    match DecodeVarint(buf, 0)
    case None => None
    case Some((length, rest)) =>
      if length > |rest| then None
      else
        match c.decode(rest[..length])
        case None => None
        case Some(e) => Some((e, rest[length..]))
  }

  /** All frames up to the first failure. */
  function ParseFrames(c: Codec, buf: seq<Byte>): Parsed
    decreases |buf|
  {
    if buf == [] then Parsed([], true)
    else
      match DecodeFrame(c, buf)
      case None => Parsed([], false)
      case Some((e, rest)) => ParseFrames(c, rest).After([e])
  }

  lemma ParseStep(c: Codec, buf: seq<Byte>, e: Envelope, rest: seq<Byte>, before: seq<Envelope>)
    requires DecodeFrame(c, buf) == Some((e, rest))
    ensures ParseFrames(c, buf).After(before) == ParseFrames(c, rest).After(before + [e])
  {
    assert before + ([e] + ParseFrames(c, rest).envelopes) == (before + [e]) + ParseFrames(c, rest).envelopes;
  }

  /** What a payload means: its frames, or one bare message when not even the first frame parses. */
  function PayloadMeaning(c: Codec, payload: seq<Byte>): DecodeResult {
    var parsed := ParseFrames(c, payload);
    if parsed.complete then Ok(parsed.envelopes)
    else if parsed.envelopes != [] then DecodeError
    else
      match c.decode(payload)
      case None => DecodeError
      case Some(e) => Ok([e])
  }

  method DecodeEnvelopes(c: Codec, payload: seq<Byte>) returns (r: DecodeResult)
    ensures r == PayloadMeaning(c, payload)
  {
    var envelopes: seq<Envelope> := [];
    var cursor := payload;
    while cursor != []
      invariant ParseFrames(c, payload) == ParseFrames(c, cursor).After(envelopes)
      decreases |cursor|
    {
      var previousLength := |cursor|;
      match DecodeFrame(c, cursor) {
        case Some((e, rest)) =>
          ParseStep(c, cursor, e, rest, envelopes);
          envelopes, cursor := envelopes + [e], rest;
        case None =>
          if envelopes == [] {
            match c.decode(payload) {
              case Some(e) => return Ok([e]);
              case None => return DecodeError;
            }
          }
          return DecodeError;
      }
      if |cursor| == previousLength {
        break;
      }
    }
    return Ok(envelopes);
  }

  // ----- Round trip -----

  lemma FrameRoundTrip(c: Codec, e: Envelope, tail: seq<Byte>)
    requires c.Lawful() && c.Fits(e)
    ensures DecodeFrame(c, Frame(c, e) + tail) == Some((e, tail))
  {
    var body := c.encode(e);
    assert Frame(c, e) + tail == EncodeVarint(|body|) + (body + tail);
    assert c.decode(body) == Some(e);
    assert VarintBound(0) == U64_MAX + 1 by {
      assert VarintBound(6) == 128 * (128 * (128 * 2));
      assert VarintBound(3) == 128 * (128 * (128 * VarintBound(6)));
      assert VarintBound(0) == 128 * (128 * (128 * VarintBound(3)));
    }
    VarintRoundTrip(|body|, body + tail, 0);
    assert (body + tail)[..|body|] == body && (body + tail)[|body|..] == tail;
  }

  /** A frame announces the length of what follows. */
  lemma FrameFormat(c: Codec, e: Envelope)
    requires c.Fits(e)
    ensures DecodeVarint(Frame(c, e), 0) == Some((|c.encode(e)|, c.encode(e)))
  {
    assert VarintBound(6) == 128 * (128 * (128 * 2));
    assert VarintBound(3) == 128 * (128 * (128 * VarintBound(6)));
    assert VarintBound(0) == 128 * (128 * (128 * VarintBound(3)));
    VarintRoundTrip(|c.encode(e)|, c.encode(e), 0);
  }

  lemma ParseOneFrame(c: Codec, e: Envelope, rest: seq<Byte>)
    requires c.Lawful() && c.Fits(e)
    ensures ParseFrames(c, Frame(c, e) + rest) == ParseFrames(c, rest).After([e])
  {
    FrameRoundTrip(c, e, rest);
    ParseStep(c, Frame(c, e) + rest, e, rest, []);
  }

  lemma AfterTwice(p: Parsed, es: seq<Envelope>)
    requires es != []
    ensures p.After(es[1..]).After([es[0]]) == p.After(es)
  {
    assert es + p.envelopes == [es[0]] + (es[1..] + p.envelopes);
  }

  lemma {:induction false} ParseFramesThen(c: Codec, es: seq<Envelope>, tail: seq<Byte>)
    requires c.Lawful() && c.AllFit(es)
    ensures ParseFrames(c, Frames(c, es) + tail) == ParseFrames(c, tail).After(es)
  {
    if es == [] {
      assert Frames(c, es) + tail == tail;
    } else {
      var rest := Frames(c, es[1..]) + tail;
      assert Frames(c, es) + tail == Frame(c, es[0]) + rest;
      ParseFramesThen(c, es[1..], tail);
      ParseOneFrame(c, es[0], rest);
      AfterTwice(ParseFrames(c, tail), es);
    }
  }

  /** Whatever list of envelopes is framed, decoding the bytes gives that list back. */
  lemma FramesRoundTrip(c: Codec, es: seq<Envelope>)
    requires c.Lawful() && c.AllFit(es)
    ensures PayloadMeaning(c, Frames(c, es)) == Ok(es)
  {
    ParseFramesThen(c, es, []);
    assert Frames(c, es) + [] == Frames(c, es);
  }

  lemma TruncatedFrame(c: Codec, e: Envelope, cut: nat)
    requires c.Lawful() && c.Fits(e) && cut < |Frame(c, e)|
    ensures DecodeFrame(c, Frame(c, e)[..cut]) == None
  {
    var body := c.encode(e);
    var head := EncodeVarint(|body|);
    if cut < |head| {
      assert Frame(c, e)[..cut] == head[..cut];
      TruncatedVarint(|body|, cut, 0);
    } else {
      var part := body[..cut - |head|];
      assert Frame(c, e)[..cut] == head + part;
      FrameRoundTrip(c, e, []);
      VarintRoundTrip(|body|, part, 0) by {
        assert c.decode(body) == Some(e);
        assert VarintBound(6) == 128 * (128 * (128 * 2));
        assert VarintBound(3) == 128 * (128 * (128 * VarintBound(6)));
        assert VarintBound(0) == 128 * (128 * (128 * VarintBound(3)));
      }
    }
  }

  /**
   A payload cut inside frame `k` is never mistaken for a shorter list: it is an error, except
   inside the first frame, where the only other reading is that of one bare message.
   */
  lemma TruncationIsDetected(c: Codec, es: seq<Envelope>, k: nat, cut: nat)
    requires c.Lawful() && c.AllFit(es) && k < |es| && 0 < cut < |Frame(c, es[k])|
    ensures var payload := Frames(c, es[..k]) + Frame(c, es[k])[..cut];
            PayloadMeaning(c, payload) ==
            if k > 0 || c.decode(payload).None? then DecodeError else Ok([c.decode(payload).value])
  {
    var part := Frame(c, es[k])[..cut];
    TruncatedFrame(c, es[k], cut);
    ParseFramesThen(c, es[..k], part);
    assert ParseFrames(c, part) == Parsed([], false);
  }

  lemma FramesConcat(c: Codec, a: seq<Envelope>, b: seq<Envelope>)
    ensures Frames(c, a + b) == Frames(c, a) + Frames(c, b)
  {
    if a == [] {
      assert a + b == b;
    } else {
      assert (a + b)[1..] == a[1..] + b;
      FramesConcat(c, a[1..], b);
    }
  }

  lemma FramesSnoc(c: Codec, es: seq<Envelope>, e: Envelope)
    ensures Frames(c, es + [e]) == Frames(c, es) + Frame(c, e)
  {
    FramesConcat(c, es, [e]);
    assert Frames(c, [e]) == Frame(c, e);
  }
}
