/** Length-delimited messages: the server's `ProtobufCodec` and the client's
    end of the connection. */
module Framing {
  import opened Options
  import opened Octets
  import opened Wire
  import opened Framed
  import opened Messages
  import opened MessageRoundTrip
  import opened MessageStreams

  function FrameOf(body: Bytes): (out: Bytes)
    ensures |out| > |body|
  {
    EncodeVarint(|body|) + body
  }

  function Frame(m: ClientRequest): Bytes { FrameOf(EncodeRequest(m)) }

  function ResponseFrame(m: ServerResponse): Bytes { FrameOf(EncodeResponse(m)) }

  /** The body of the first frame and what follows it; truncated exactly when
      the header or the body is incomplete. */
  function SplitFrame(buf: Bytes): Result<(Bytes, Bytes)> {
    var (len, rest) :- ReadVarint32(buf);
    if len > |rest| then Err(Truncated) else Ok((rest[..len], rest[len..]))
  }

  /** `decode`: what is drained is the size of the message written again, which
      panics if the buffer is shorter. Errors other than truncation break the
      stream. */
  function Decode(buf: Bytes): Decoded<ClientRequest> {
    if buf == [] then NeedMore
    else
      match SplitFrame(buf)
      case Err(Truncated) => NeedMore
      case Err(_) => Broken
      case Ok((body, _)) => DecodeBody(body, |buf|)
  }

  function DecodeBody(body: Bytes, available: nat): Decoded<ClientRequest> {
    match Parse(RequestSchema, body)
    case Err(Truncated) => NeedMore
    case Err(_) => Broken
    case Ok(m) => if |Frame(m)| <= available then Message(m, |Frame(m)|) else Broken
  }

  // ----- One frame -----

  lemma {:induction false} SplitWhole(body: Bytes, rest: Bytes)
    requires |body| < U32
    ensures SplitFrame(FrameOf(body) + rest) == Ok((body, rest))
  {
    assert FrameOf(body) + rest == EncodeVarint(|body|) + (body + rest);
    VarintRoundTrip(|body|, body + rest);
    assert (body + rest)[..|body|] == body && (body + rest)[|body|..] == rest;
  }

  lemma {:induction false} SplitPart(body: Bytes, part: Bytes)
    requires |body| < U32 && part < FrameOf(body)
    ensures SplitFrame(part) == Err(Truncated)
  {
    var header := EncodeVarint(|body|);
    if |part| < |header| {
      assert part == header[..|part|] by { assert part == FrameOf(body)[..|part|]; }
      VarintPart(|body|, |part|);
    } else {
      var got := part[|header|..];
      assert part == header + got by { assert part[..|header|] == FrameOf(body)[..|header|] == header; }
      VarintRoundTrip(|body|, got);
    }
  }

  /** Written again, a message has the size it was read with. */
  lemma {:induction false} BareFrame(m: ClientRequest)
    ensures EncodeRequest(BareRequest(m)) == EncodeRequest(m)
  {
    if m.request.Some? && m.request.value.CompileRequest? {
      assert CompileFields(BareCompile(m.request.value.compile)) == CompileFields(m.request.value.compile);
    }
  }

  lemma {:induction false} BodyDecodes(m: ClientRequest, available: nat)
    requires SendableRequest(m) && |Frame(m)| <= available
    ensures DecodeBody(EncodeRequest(m), available) == Message(BareRequest(m), |Frame(m)|)
  {
    RequestRoundTrip(m);
    BareFrame(m);
  }

  const Decoder: Bytes -> Decoded<ClientRequest> := buf => Decode(buf)

  /** A frame decodes to its message whatever follows it, and no proper prefix
      of it decodes to anything. */
  lemma {:induction false} RequestFrames(m: ClientRequest)
    requires SendableRequest(m)
    ensures Frames(Decoder, Frame(m), BareRequest(m))
  {
    var frame := Frame(m);
    forall rest: Bytes ensures Decoder(frame + rest) == Message(BareRequest(m), |frame|) {
      SplitWhole(EncodeRequest(m), rest);
      BodyDecodes(m, |frame + rest|);
    }
    forall part: Bytes | part < frame ensures Decoder(part) == NeedMore {
      SplitPart(EncodeRequest(m), part);
    }
  }

  // ----- The stream of requests -----

  function FrameList(ms: seq<ClientRequest>): seq<Bytes> {
    seq(|ms|, i requires 0 <= i < |ms| => Frame(ms[i]))
  }

  function BareList(ms: seq<ClientRequest>): seq<ClientRequest> {
    seq(|ms|, i requires 0 <= i < |ms| => BareRequest(ms[i]))
  }

  /** Stream decoding is independent of chunking. However the concatenated
      frames of any sendable requests are split into chunks, feeding the chunks
      to the decoder yields exactly those requests in order, each with the
      chunk that completes it, and leaves the buffer empty. */
  lemma {:induction false} DecodingIgnoresChunking(ms: seq<ClientRequest>, chunks: seq<Bytes>)
    requires forall m :: m in ms ==> SendableRequest(m)
    requires Concat(chunks) == Concat(FrameList(ms))
    ensures
      var (found, rest, ok) := Feed(Decoder, [], chunks);
      ok && rest == [] && Flatten(found) == BareList(ms) && Punctual(FrameList(ms), BareList(ms), 0, found, chunks)
  {
    forall i | 0 <= i < |ms| ensures Frames(Decoder, FrameList(ms)[i], BareList(ms)[i]) {
      RequestFrames(ms[i]);
    }
    ChunkingDoesNotMatter(Decoder, FrameList(ms), BareList(ms), chunks);
  }

  // ----- The codec at work -----

  class EasyBuf {
    var bytes: Bytes

    constructor ()
      ensures bytes == []
    {
      bytes := [];
    }
  }

  /** `decode` on the server's side. */
  method DecodeRequest(buf: EasyBuf) returns (d: Decoded<ClientRequest>)
    modifies buf
    ensures d == Decode(old(buf.bytes))
    ensures d.Message? ==> d.size <= |old(buf.bytes)|
    ensures buf.bytes == if d.Message? then old(buf.bytes)[d.size..] else old(buf.bytes)
  {
    if buf.bytes == [] { return NeedMore; }
    var split := SplitFrame(buf.bytes);
    if split.Err? { return if split.error == Truncated then NeedMore else Broken; }
    var input := new CodedInputStream(split.value.0);
    var parsed := input.ParseAll(RequestSchema);
    if parsed.Err? { return if parsed.error == Truncated then NeedMore else Broken; }
    var size := |Frame(parsed.value)|;
    if size > |buf.bytes| { return Broken; }
    d := Message(parsed.value, size);
    buf.bytes := buf.bytes[size..];
  }

  /** `found` and what draining `buf` still gives make up `all`. */
  ghost predicate StillToCome(all: (seq<ClientRequest>, Bytes, bool), found: seq<ClientRequest>, buf: Bytes) {
    var (more, rest, ok) := Drain(Decoder, buf);
    all == (found + more, rest, ok)
  }

  lemma {:induction false} DrainTurn(all: (seq<ClientRequest>, Bytes, bool), found: seq<ClientRequest>, buf: Bytes)
    requires StillToCome(all, found, buf)
    ensures
      match Decode(buf)
      case Message(m, size) => 0 < size <= |buf| && StillToCome(all, found + [m], buf[size..])
      case NeedMore => all == (found, buf, true)
      case Broken => all == (found, buf, false)
  {
    var d := Decode(buf);
    assert Decoder(buf) == d;
    if d.Message? {
      var more := Drain(Decoder, buf[d.size..]).0;
      assert found + ([d.value] + more) == (found + [d.value]) + more;
    } else {
      assert found + [] == found;
    }
  }

  /** The framed transport: append what arrived, decode while messages come. */
  method Receive(buf: EasyBuf, chunk: Bytes) returns (found: seq<ClientRequest>, ok: bool)
    modifies buf
    ensures (found, buf.bytes, ok) == Drain(Decoder, old(buf.bytes) + chunk)
  {
    buf.bytes := buf.bytes + chunk;
    found := [];
    ghost var all := Drain(Decoder, buf.bytes);
    assert StillToCome(all, [], buf.bytes) by { assert [] + all.0 == all.0; }
    while true
      invariant StillToCome(all, found, buf.bytes)
      decreases |buf.bytes|
    {
      DrainTurn(all, found, buf.bytes);
      var d := DecodeRequest(buf);
      match d {
        case Message(m, _) => found := found + [m];
        case NeedMore => return found, true;
        case Broken => return found, false;
      }
    }
  }

  /** `write_length_delimited_to_bytes`: the computed size, then the message
      written with the sizes that computing it left behind. */
  method DelimitedResponse(m: ServerResponse) returns (bytes: Bytes)
    requires |EncodeResponse(m)| < U32
    ensures bytes == ResponseFrame(m)
  {
    var size, sized := ComputeResponseSize(m);
    assert sized == SizedResponse(sized) && EncodeResponse(sized) == EncodeResponse(m) by {
      SizedResponseEncodes(m);
    }
    var os := new CodedOutputStream();
    os.WriteRawVarint(size);
    assert os.bytes == EncodeVarint(size);
    WriteResponse(os, sized);
    bytes := os.bytes;
  }

  method DelimitedRequest(m: ClientRequest) returns (bytes: Bytes)
    requires |EncodeRequest(m)| < U32
    ensures bytes == Frame(m)
  {
    var size, sized := ComputeRequestSize(m);
    assert sized == SizedRequest(sized) && EncodeRequest(sized) == EncodeRequest(m) by {
      SizedRequestEncodes(m);
    }
    var os := new CodedOutputStream();
    os.WriteRawVarint(size);
    assert os.bytes == EncodeVarint(size);
    WriteRequest(os, sized);
    bytes := os.bytes;
  }

  /** `encode` on the server's side. */
  method EncodeTo(out: EasyBuf, m: ServerResponse)
    requires |EncodeResponse(m)| < U32
    modifies out
    ensures out.bytes == old(out.bytes) + ResponseFrame(m)
  {
    var bytes := DelimitedResponse(m);
    out.bytes := out.bytes + bytes;
  }

  /** Reading a response off the front of a stream: what comes of it, and what
      is left. A stream that ends early is used up, and so are the ten bytes of a
      varint that does not end. */
  function ReadResponse(incoming: Bytes): (Result<ServerResponse>, Bytes) {
    match ReadVarint32(incoming)
    case Err(e) => (Err(e), if |incoming| > 10 then incoming[10..] else [])
    case Ok((len, rest)) =>
      if len > |rest| then (Err(Truncated), [])
      else (Parse(ResponseSchema, rest[..len]), rest[len..])
  }

  lemma {:induction false} ResponseReads(m: ServerResponse, rest: Bytes)
    requires SendableResponse(m)
    ensures ReadResponse(ResponseFrame(m) + rest) == (Ok(BareResponse(m)), rest)
  {
    SplitWhole(EncodeResponse(m), rest);
    ResponseRoundTrip(m);
  }

  /** A reply that breaks off anywhere is an error. */
  lemma {:induction false} ResponseBreaksOff(m: ServerResponse, part: Bytes)
    requires SendableResponse(m) && part < ResponseFrame(m)
    ensures ReadResponse(part) == (Err(Truncated), [])
  {
    var body := EncodeResponse(m);
    var header := EncodeVarint(|body|);
    if |part| < |header| {
      assert part == header[..|part|] by { assert part == FrameOf(body)[..|part|]; }
      VarintPart(|body|, |part|);
      assert |header| <= 10 by { VarintSizes(|body|); }
    } else {
      var got := part[|header|..];
      assert part == header + got by { assert part[..|header|] == FrameOf(body)[..|header|] == header; }
      VarintRoundTrip(|body|, got);
    }
  }

  /** The client's end of the connection: bytes still to be read, and bytes
      written. */
  class ServerConnection {
    var incoming: Bytes
    var outgoing: Bytes

    constructor (incoming: Bytes)
      ensures this.incoming == incoming && outgoing == []
    {
      this.incoming, outgoing := incoming, [];
    }

    method Send(m: ClientRequest)
      requires |EncodeRequest(m)| < U32
      modifies this`outgoing
      ensures outgoing == old(outgoing) + Frame(m)
    {
      var bytes := DelimitedRequest(m);
      outgoing := outgoing + bytes;
    }

    /** Reads a length and then exactly that many bytes. */
    method ReadOneResponse() returns (r: Result<ServerResponse>)
      modifies this`incoming
      ensures (r, incoming) == ReadResponse(old(incoming))
      ensures forall reply, rest :: SendableResponse(reply) && old(incoming) == ResponseFrame(reply) + rest
                ==> r == Ok(BareResponse(reply)) && incoming == rest
      ensures forall reply :: SendableResponse(reply) && old(incoming) < ResponseFrame(reply) ==> r == Err(Truncated)
    {
      forall reply | SendableResponse(reply) && incoming < ResponseFrame(reply)
        ensures ReadResponse(incoming).0 == Err(Truncated)
      {
        ResponseBreaksOff(reply, incoming);
      }
      forall reply, rest | SendableResponse(reply) && incoming == ResponseFrame(reply) + rest
        ensures ReadResponse(incoming) == (Ok(BareResponse(reply)), rest)
      {
        ResponseReads(reply, rest);
      }
      var header := ReadVarint32(incoming);
      if header.Err? {
        incoming := if |incoming| > 10 then incoming[10..] else [];
        return Err(header.error);
      }
      var (len, rest) := header.value;
      if len > |rest| {
        incoming := [];
        return Err(Truncated);
      }
      incoming := rest[len..];
      var input := new CodedInputStream(rest[..len]);
      r := input.ParseAll(ResponseSchema);
    }

    /** One exchange. Whatever the stream holds, the request goes out as one
        frame; when the stream continues with a framed response, that is what
        comes back, and exactly its bytes are consumed. */
    method Request(m: ClientRequest) returns (r: Result<ServerResponse>)
      requires |EncodeRequest(m)| < U32
      modifies this
      ensures outgoing == old(outgoing) + Frame(m)
      ensures (r, incoming) == ReadResponse(old(incoming))
      ensures forall reply, rest :: SendableResponse(reply) && old(incoming) == ResponseFrame(reply) + rest
                ==> r == Ok(BareResponse(reply)) && incoming == rest
    {
      Send(m);
      r := ReadOneResponse();
    }
  }
}
