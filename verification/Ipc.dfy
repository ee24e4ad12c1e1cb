/** Framing between Electron and the native sidecar, and Electron's chunk-fed parser. */
module Ipc {
  import opened Prelude

  const MAGIC: bytes := [0x56, 0x48, 0x49, 0x50]
  const VERSION: u8 := 1
  const HEADER_LEN: nat := 24
  const MAX_METADATA_BYTES: nat := 256 * 1024
  const MAX_PAYLOAD_BYTES: nat := 1024 * 1024

  datatype FrameKind = Hello | Request | Response | StreamData | StreamEnd | Cancel | Event | StreamCredit

  function KindCode(k: FrameKind): u8 {
    match k
    case Hello => 1
    case Request => 2
    case Response => 3
    case StreamData => 4
    case StreamEnd => 5
    case Cancel => 6
    case Event => 7
    case StreamCredit => 8
  }

  function KindOf(code: u8): Option<FrameKind> {
    match code
    case 1 => Some(Hello)
    case 2 => Some(Request)
    case 3 => Some(Response)
    case 4 => Some(StreamData)
    case 5 => Some(StreamEnd)
    case 6 => Some(Cancel)
    case 7 => Some(Event)
    case 8 => Some(StreamCredit)
    case _ => None
  }

  datatype IpcFrame = IpcFrame(kind: FrameKind, flags: u16, requestId: u64, metadata: bytes, payload: bytes)

  datatype IpcError = InvalidMagic | UnsupportedVersion | UnknownKind | MetadataTooLarge | PayloadTooLarge | EndOfInput

  // ---- Encoding ----

  predicate Bounded(f: IpcFrame) {
    |f.metadata| <= MAX_METADATA_BYTES && |f.payload| <= MAX_PAYLOAD_BYTES
  }

  function Header(f: IpcFrame): bytes
    requires Bounded(f)
  {
    MAGIC + [VERSION, KindCode(f.kind)] + PutU16(f.flags) + PutU64(f.requestId) + PutU32(|f.metadata|) + PutU32(|f.payload|)
  }

  function Encoding(f: IpcFrame): bytes
    requires Bounded(f)
  {
    Header(f) + f.metadata + f.payload
  }

  function EncodeFrame(f: IpcFrame): Result<bytes, IpcError> {
    if |f.metadata| > MAX_METADATA_BYTES then Err(MetadataTooLarge)
    else if |f.payload| > MAX_PAYLOAD_BYTES then Err(PayloadTooLarge)
    else Ok(Encoding(f))
  }

  method Encode(f: IpcFrame) returns (r: Result<bytes, IpcError>)
    ensures r == EncodeFrame(f)
  {
    if |f.metadata| > MAX_METADATA_BYTES {
      return Err(MetadataTooLarge);
    }
    if |f.payload| > MAX_PAYLOAD_BYTES {
      return Err(PayloadTooLarge);
    }
    var output := MAGIC;
    output := output + [VERSION] + [KindCode(f.kind)];
    output := output + PutU16(f.flags);
    output := output + PutU64(f.requestId);
    output := output + PutU32(|f.metadata|);
    output := output + PutU32(|f.payload|);
    assert output == Header(f);
    output := output + f.metadata;
    output := output + f.payload;
    return Ok(output);
  }

  // ---- Decoding ----

  datatype Fields = Fields(kind: FrameKind, flags: u16, requestId: u64, metadataLen: nat, payloadLen: nat)

  /** The checks on a header, in the order in which they are made. */
  function ReadHeader(h: bytes): Result<Fields, IpcError>
    requires |h| == HEADER_LEN
  {
    var kind := KindOf(h[5]);
    var metadataLen, payloadLen := GetU32(h[16..20]), GetU32(h[20..24]);
    if h[0..4] != MAGIC then Err(InvalidMagic)
    else if h[4] != VERSION then Err(UnsupportedVersion)
    else if kind == None then Err(UnknownKind)
    else if metadataLen > MAX_METADATA_BYTES then Err(MetadataTooLarge)
    else if payloadLen > MAX_PAYLOAD_BYTES then Err(PayloadTooLarge)
    else Ok(Fields(kind.value, GetU16(h[6..8]), GetU64(h[8..16]), metadataLen, payloadLen))
  }

  datatype Cut = NeedMore | Bad(why: IpcError) | Got(frame: IpcFrame, rest: bytes)

  /** Take one frame off the front of the bytes received so far. */
  function CutFrame(input: bytes): Cut {
    if |input| < HEADER_LEN then NeedMore
    else
      match ReadHeader(input[..HEADER_LEN])
      case Err(why) => Bad(why)
      case Ok(f) =>
        var bodyAt, total := HEADER_LEN + f.metadataLen, HEADER_LEN + f.metadataLen + f.payloadLen;
        if |input| < total then NeedMore
        else Got(IpcFrame(f.kind, f.flags, f.requestId, input[HEADER_LEN..bodyAt], input[bodyAt..total]), input[total..])
  }

  /** `read_frame`: the next frame of a byte stream, or why there is none. */
  function ReadFrame(input: bytes): Result<(IpcFrame, bytes), IpcError> {
    match CutFrame(input)
    case NeedMore => Err(EndOfInput)
    case Bad(why) => Err(why)
    case Got(frame, rest) => Ok((frame, rest))
  }

  lemma KindRoundTrip(k: FrameKind, code: u8)
    ensures KindOf(KindCode(k)) == Some(k)
    ensures KindOf(code).Some? ==> KindCode(KindOf(code).value) == code
  {
  }

  lemma HeaderSlices(f: IpcFrame)
    requires Bounded(f)
    ensures |Header(f)| == HEADER_LEN
    ensures Header(f)[0..4] == MAGIC && Header(f)[4] == VERSION && Header(f)[5] == KindCode(f.kind)
    ensures Header(f)[6..8] == PutU16(f.flags) && Header(f)[8..16] == PutU64(f.requestId)
    ensures Header(f)[16..20] == PutU32(|f.metadata|) && Header(f)[20..24] == PutU32(|f.payload|)
  {
  }

  lemma ReadHeaderOf(f: IpcFrame)
    requires Bounded(f)
    ensures |Header(f)| == HEADER_LEN
    ensures ReadHeader(Header(f)) == Ok(Fields(f.kind, f.flags, f.requestId, |f.metadata|, |f.payload|))
  {
    HeaderSlices(f);
    KindRoundTrip(f.kind, 0);
    U16Inverse(f.flags, []);
    GetPutU64(f.requestId);
    U32Inverse(|f.metadata|, []);
    U32Inverse(|f.payload|, []);
  }

  /** Reading what was written gives the frame back, and leaves what follows it. */
  lemma ReadEncoded(f: IpcFrame, rest: bytes)
    requires EncodeFrame(f).Ok?
    ensures CutFrame(EncodeFrame(f).value + rest) == Got(f, rest)
    ensures ReadFrame(EncodeFrame(f).value + rest) == Ok((f, rest))
  {
    ReadHeaderOf(f);
    var input := Encoding(f) + rest;
    assert input == Header(f) + (f.metadata + f.payload + rest);
    assert input[..HEADER_LEN] == Header(f);
    var bodyAt := HEADER_LEN + |f.metadata|;
    assert input[HEADER_LEN..bodyAt] == f.metadata;
    assert input[bodyAt..bodyAt + |f.payload|] == f.payload;
    assert input[bodyAt + |f.payload|..] == rest;
  }

  lemma HeaderOfFields(h: bytes, f: IpcFrame)
    requires |h| == HEADER_LEN && Bounded(f)
    requires ReadHeader(h) == Ok(Fields(f.kind, f.flags, f.requestId, |f.metadata|, |f.payload|))
    ensures Header(f) == h
  {
    KindRoundTrip(f.kind, h[5]);
    U16Inverse(0, h[6..8]);
    PutGetU64(h[8..16]);
    U32Inverse(0, h[16..20]);
    U32Inverse(0, h[20..24]);
    assert h == h[0..4] + [h[4], h[5]] + h[6..8] + h[8..16] + h[16..20] + h[20..24];
  }

  lemma JoinSlices(input: bytes, a: nat, b: nat, c: nat)
    requires a <= b <= c <= |input|
    ensures input[..a] + input[a..b] + input[b..c] + input[c..] == input
  {
  }

  /** And everything read is the encoding of the frame it gave. */
  lemma EncodeRead(input: bytes)
    requires ReadFrame(input).Ok?
    ensures var (f, rest) := ReadFrame(input).value; EncodeFrame(f).Ok? && EncodeFrame(f).value + rest == input
  {
    var (f, rest) := ReadFrame(input).value;
    HeaderOfFields(input[..HEADER_LEN], f);
    var bodyAt: nat, total: nat := HEADER_LEN + |f.metadata|, HEADER_LEN + |f.metadata| + |f.payload|;
    assert f.metadata == input[HEADER_LEN..bodyAt] && f.payload == input[bodyAt..total] && rest == input[total..];
    JoinSlices(input, HEADER_LEN, bodyAt, total);
  }

  // ---- Electron's parser ----

  /** The kinds a sidecar sends. */
  predicate FromSidecar(k: FrameKind) {
    k != Hello && k != Request
  }

  datatype Failure = BadMagic | Unsupported | Oversized

  /** The header as Electron judges it; it does not look at the flags. */
  function Judge(h: bytes): Result<Fields, Failure>
    requires |h| == HEADER_LEN
  {
    var kind := KindOf(h[5]);
    var metadataLen, payloadLen := GetU32(h[16..20]), GetU32(h[20..24]);
    if h[0..4] != MAGIC then Err(BadMagic)
    else if h[4] != VERSION || kind == None || !FromSidecar(kind.value) then Err(Unsupported)
    else if metadataLen > MAX_METADATA_BYTES || payloadLen > MAX_PAYLOAD_BYTES then Err(Oversized)
    else Ok(Fields(kind.value, 0, GetU64(h[8..16]), metadataLen, payloadLen))
  }

  datatype Parsed = Waiting | Failed(why: Failure) | Frame(frame: IpcFrame, rest: bytes)

  function ParseOne(input: bytes): Parsed {
    if |input| < HEADER_LEN then Waiting
    else
      match Judge(input[..HEADER_LEN])
      case Err(why) => Failed(why)
      case Ok(f) =>
        var bodyAt, total := HEADER_LEN + f.metadataLen, HEADER_LEN + f.metadataLen + f.payloadLen;
        if |input| < total then Waiting
        else Frame(IpcFrame(f.kind, 0, f.requestId, input[HEADER_LEN..bodyAt], input[bodyAt..total]), input[total..])
  }

  /** Electron takes exactly the frames the sidecar's own codec reads, of the kinds a sidecar sends; it fails on exactly the
      headers that codec refuses or that are of the other kinds, and otherwise waits for more. */
  lemma ParsesSidecarFrames(input: bytes)
    ensures ParseOne(input).Frame?
       <==> CutFrame(input).Got? && CutFrame(input).frame.kind != Hello && CutFrame(input).frame.kind != Request
    ensures ParseOne(input).Frame? ==>
              ParseOne(input) == Frame(CutFrame(input).frame.(flags := 0), CutFrame(input).rest)
    ensures ParseOne(input).Failed?
       <==> |input| >= HEADER_LEN
            && match ReadHeader(input[..HEADER_LEN])
               case Err(_) => true
               case Ok(f) => f.kind == Hello || f.kind == Request
  {
  }

  /** Frames taken so far, what is left in the buffer, and the failure if there was one. */
  datatype Parser = Parser(frames: seq<IpcFrame>, buffer: bytes, failure: Option<Failure>)

  lemma RestIsShorter(input: bytes)
    requires ParseOne(input).Frame?
    ensures |ParseOne(input).rest| < |input|
  {
  }

  function ParseAll(frames: seq<IpcFrame>, input: bytes): Parser
    decreases |input|
  {
    match ParseOne(input)
    case Waiting => Parser(frames, input, None)
    case Failed(why) => Parser(frames, input, Some(why))
    case Frame(frame, rest) =>
      RestIsShorter(input);
      ParseAll(frames + [frame], rest)
  }

  function Fed(p: Parser, chunk: bytes): Parser {
    if p.failure.Some? then p else ParseAll(p.frames, p.buffer + chunk)
  }

  function FedAll(p: Parser, chunks: seq<bytes>): Parser
    decreases |chunks|
  {
    if chunks == [] then p else Fed(FedAll(p, chunks[..|chunks| - 1]), chunks[|chunks| - 1])
  }

  const FRESH := Parser([], [], None)

  class FrameReceiver {
    var receiveBuffer: bytes
    var frames: seq<IpcFrame>
    var failure: Option<Failure>

    ghost function View(): Parser
      reads this
    {
      Parser(frames, receiveBuffer, failure)
    }

    constructor ()
      ensures View() == FRESH
    {
      receiveBuffer, frames, failure := [], [], None;
    }

    method FailAll(why: Failure)
      modifies this`failure
      ensures failure == Some(why)
    {
      failure := Some(why);
    }

    static method ReadFields(header: bytes) returns (r: Result<Fields, Failure>)
      requires |header| == HEADER_LEN
      ensures r == Judge(header)
    {
      if header[0..4] != MAGIC {
        return Err(BadMagic);
      }
      var version, kind := header[4], header[5];
      var requestId := GetU64(header[8..16]);
      var metadataLength, payloadLength := GetU32(header[16..20]), GetU32(header[20..24]);
      if version != VERSION || kind !in {3, 4, 5, 6, 7, 8} {
        return Err(Unsupported);
      }
      if metadataLength > MAX_METADATA_BYTES || payloadLength > MAX_PAYLOAD_BYTES {
        return Err(Oversized);
      }
      return Ok(Fields(KindOf(kind).value, 0, requestId, metadataLength, payloadLength));
    }

    /** The front frame of the buffer, if it is complete. */
    method ParseFront() returns (p: Parsed)
      ensures p == ParseOne(receiveBuffer)
    {
      if |receiveBuffer| < HEADER_LEN {
        return Waiting;
      }
      var header := ReadFields(receiveBuffer[..HEADER_LEN]);
      if header.Err? {
        return Failed(header.error);
      }
      var bodyAt: nat := HEADER_LEN + header.value.metadataLen;
      var total: nat := bodyAt + header.value.payloadLen;
      if |receiveBuffer| < total {
        return Waiting;
      }
      var metadata, payload := receiveBuffer[HEADER_LEN..bodyAt], receiveBuffer[bodyAt..total];
      return Frame(IpcFrame(header.value.kind, 0, header.value.requestId, metadata, payload), receiveBuffer[total..]);
    }

    method Receive(chunk: bytes)
      modifies this
      ensures View() == Fed(old(View()), chunk)
    {
      if failure.Some? {
        return;
      }
      receiveBuffer := receiveBuffer + chunk;
      ghost var goal := ParseAll(frames, receiveBuffer);
      while |receiveBuffer| >= HEADER_LEN
        invariant failure == None && ParseAll(frames, receiveBuffer) == goal
        decreases |receiveBuffer|
      {
        var front := ParseFront();
        match front {
          case Waiting => return;
          case Failed(why) =>
            FailAll(why);
            return;
          case Frame(frame, rest) =>
            RestIsShorter(receiveBuffer);
            frames := frames + [frame];
            receiveBuffer := rest;
        }
      }
    }
  }
}
