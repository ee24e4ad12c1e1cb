/** Streaming frame semantics: body codecs, final integrity data, acknowledgements, frame encoding and decoding. */
module Stream {
  import opened Prelude
  import opened Wire
  import opened Core

  datatype StreamDirection = Request | Response

  datatype StreamEnd = StreamEnd(direction: StreamDirection, logicalLength: nat, digest: bytes)

  datatype Ack = Ack(direction: StreamDirection, cumulative: Option<nat>, selective: seq<bool>, receiveWindow: nat)

  function FromSnapshot(direction: StreamDirection, snapshot: AckSnapshot, receiveWindow: nat): Ack {
    Ack(direction, snapshot.cumulative, snapshot.selective, receiveWindow)
  }

  function Snapshot(ack: Ack): AckSnapshot {
    AckSnapshot(ack.cumulative, ack.selective)
  }

  datatype StreamError =
    | WireFailure(wire: WireError)
    | MetadataMissing
    | Compression
    | LengthMismatch
    | DigestMismatch
    | LogicalLimit(actual: nat, limit: nat)
    | WrongDirection

  // ---- Body codecs ----

  /** One call to the encoder: the logical bytes and whether a flush was asked for. */
  datatype Write = Write(input: bytes, flush: bool)

  /** An incremental codec. `emitted` and `decoded` are running totals: everything put out after these writes, and
      everything recovered after this compressed prefix. */
  datatype BodyCodec = BodyCodec(
    emitted: seq<Write> -> bytes,
    trailing: seq<Write> -> bytes,
    decoded: bytes -> bytes,
    flushed: bytes -> bytes)

  function Input(writes: seq<Write>): bytes {
    if writes == [] then [] else Input(writes[..|writes| - 1]) + writes[|writes| - 1].input
  }

  function Whole(c: BodyCodec, writes: seq<Write>): bytes {
    c.emitted(writes) + c.trailing(writes)
  }

  ghost predicate LawfulGrowth(c: BodyCodec, writes: seq<Write>, w: Write) {
    c.emitted(writes) <= c.emitted(writes + [w])
  }

  ghost predicate LawfulDecoding(c: BodyCodec, writes: seq<Write>, x: bytes, y: bytes) {
    && (x <= y && y <= Whole(c, writes) ==>
          c.decoded(x) <= c.decoded(y) && c.decoded(y) <= c.flushed(y) && c.flushed(y) <= Input(writes))
    && c.flushed(Whole(c, writes)) == Input(writes)
  }

  /** What is assumed of a codec: output only grows, and decoding all of what was emitted gives all of the input. */
  ghost predicate Lawful(c: BodyCodec) {
    && c.emitted([]) == [] && c.decoded([]) == []
    && (forall writes, w :: LawfulGrowth(c, writes, w))
    && (forall writes, x, y :: LawfulDecoding(c, writes, x, y))
  }

  function Identity(b: bytes): bytes {
    b
  }

  function Nothing(writes: seq<Write>): bytes {
    []
  }

  /** `CompressionMode::None`. */
  const NO_COMPRESSION := BodyCodec(Input, Nothing, Identity, Identity)

  lemma NoCompressionIsLawful()
    ensures Lawful(NO_COMPRESSION)
  {
    forall writes: seq<Write>, w: Write
      ensures LawfulGrowth(NO_COMPRESSION, writes, w)
    {
      assert (writes + [w])[..|writes|] == writes;
    }
    forall writes: seq<Write>
      ensures Whole(NO_COMPRESSION, writes) == Input(writes)
    {
      assert Whole(NO_COMPRESSION, writes) == Input(writes) + [];
    }
  }

  // ---- One stream ----

  /** What both ends of one stream agree on. `packEnd` and `unpackEnd` are MessagePack for the end record, and
      `controlOk` says whether the metadata of a control frame parses. */
  datatype Context = Context(
    transactionId: TxId,
    direction: StreamDirection,
    metadata: MetadataCodec,
    packEnd: StreamEnd -> bytes,
    unpackEnd: bytes -> Option<StreamEnd>,
    controlOk: (FrameType, bytes) -> bool,
    codec: BodyCodec,
    digest: bytes -> bytes)

  ghost predicate Honest(cx: Context) {
    Faithful(cx.metadata) && Lawful(cx.codec) && forall e: StreamEnd :: cx.unpackEnd(cx.packEnd(e)) == Some(e)
  }

  const STREAM_END_EXTENSION := "org.veilidhttp.stream-end/v1"
  const REQUEST_OPEN_EXTENSION := "org.veilidhttp.request-open/v1"

  function ControlExtension(t: FrameType): string {
    match t
    case RequestAccepted => "org.veilidhttp.request-accepted/v1"
    case ResponseOpen => "org.veilidhttp.response-open/v1"
    case AckFrame => "org.veilidhttp.ack/v1"
    case Cancel => "org.veilidhttp.cancel/v1"
    case ErrorFrame => "org.veilidhttp.error/v1"
    case _ => REQUEST_OPEN_EXTENSION
  }

  datatype DecodedFrame =
    | DataFrame(transactionId: TxId, direction: StreamDirection, sequence: nat, payload: bytes)
    | EndFrame(transactionId: TxId, sequence: nat, end: StreamEnd)
    | ControlFrame(transactionId: TxId)
    | OtherFrame(frame: Frame)

  function EncodeData(cx: Context, sequence: u32, payload: bytes): Result<bytes, WireError> {
    var frameType := match cx.direction case Request => RequestData case Response => ResponseData;
    Encode(cx.metadata, Frame(frameType, 0, cx.transactionId, sequence, 0, EMPTY_METADATA, payload),
           DEFAULT_FRAME_LIMIT)
  }

  function EndMetadata(cx: Context, end: StreamEnd): Metadata {
    Metadata(map[], map[], map[STREAM_END_EXTENSION := cx.packEnd(end)])
  }

  function EncodeEnd(cx: Context, sequence: u32, end: StreamEnd): Result<bytes, WireError> {
    var frameType := match end.direction case Request => RequestEnd case Response => ResponseEnd;
    Encode(cx.metadata, Frame(frameType, 0, cx.transactionId, sequence, 0, EndMetadata(cx, end), []),
           DEFAULT_FRAME_LIMIT)
  }

  function DecodeEnd(cx: Context, frame: Frame, expected: StreamDirection): Result<DecodedFrame, StreamError> {
    if STREAM_END_EXTENSION !in frame.metadata.extensions then
      Err(MetadataMissing)
    else
      match cx.unpackEnd(frame.metadata.extensions[STREAM_END_EXTENSION])
      case None => Err(MetadataMissing)
      case Some(end) =>
        if end.direction != expected then
          Err(WrongDirection)
        else
          Ok(EndFrame(frame.transactionId, frame.sequence, end))
  }

  function DecodeControl(cx: Context, frame: Frame): Result<DecodedFrame, StreamError> {
    var extension := ControlExtension(frame.frameType);
    if extension in frame.metadata.extensions && cx.controlOk(frame.frameType, frame.metadata.extensions[extension]) then
      Ok(ControlFrame(frame.transactionId))
    else
      Err(MetadataMissing)
  }

  /** `decode`: the streaming meaning of one encoded frame. */
  function DecodeFrame(cx: Context, encoded: bytes): Result<DecodedFrame, StreamError> {
    match Decode(cx.metadata, encoded)
    case Err(e) => Err(WireFailure(e))
    case Ok(frame) =>
      match frame.frameType
      case RequestData => Ok(DataFrame(frame.transactionId, Request, frame.sequence, frame.payload))
      case ResponseData => Ok(DataFrame(frame.transactionId, Response, frame.sequence, frame.payload))
      case RequestEnd => DecodeEnd(cx, frame, Request)
      case ResponseEnd => DecodeEnd(cx, frame, Response)
      case RequestOpen =>
        if REQUEST_OPEN_EXTENSION in frame.metadata.extensions then DecodeControl(cx, frame) else Ok(OtherFrame(frame))
      case RequestAccepted => DecodeControl(cx, frame)
      case ResponseOpen => DecodeControl(cx, frame)
      case AckFrame => DecodeControl(cx, frame)
      case Cancel => DecodeControl(cx, frame)
      case ErrorFrame => DecodeControl(cx, frame)
      case _ => Ok(OtherFrame(frame))
  }

  /** One thing a sender puts on the wire. */
  datatype Item = Data(payload: bytes) | End(end: StreamEnd)

  function EncodeItem(cx: Context, sequence: u32, item: Item): Result<bytes, WireError> {
    match item
    case Data(payload) => EncodeData(cx, sequence, payload)
    case End(end) => EncodeEnd(cx, sequence, end)
  }

  function DecodedItem(cx: Context, sequence: nat, item: Item): DecodedFrame {
    match item
    case Data(payload) => DataFrame(cx.transactionId, cx.direction, sequence, payload)
    case End(end) => EndFrame(cx.transactionId, sequence, end)
  }

  /** The receiver reads exactly the item and sequence number the sender encoded. */
  lemma DecodeEncodedItem(cx: Context, sequence: u32, item: Item)
    requires Honest(cx) && EncodeItem(cx, sequence, item).Ok?
    ensures DecodeFrame(cx, EncodeItem(cx, sequence, item).value) == Ok(DecodedItem(cx, sequence, item))
  {
    match item
    case Data(payload) =>
      var frameType := match cx.direction case Request => RequestData case Response => ResponseData;
      DecodeEncode(cx.metadata, Frame(frameType, 0, cx.transactionId, sequence, 0, EMPTY_METADATA, payload),
                   DEFAULT_FRAME_LIMIT);
    case End(end) =>
      var frameType := match end.direction case Request => RequestEnd case Response => ResponseEnd;
      DecodeEncode(cx.metadata, Frame(frameType, 0, cx.transactionId, sequence, 0, EndMetadata(cx, end), []),
                   DEFAULT_FRAME_LIMIT);
  }

  /** Encoded size of an item, independent of its sequence number. */
  function EncodedSize(cx: Context, item: Item): nat {
    match item
    case Data(payload) => HEADER_LEN + |cx.metadata.pack(EMPTY_METADATA)| + |payload|
    case End(end) => HEADER_LEN + |cx.metadata.pack(EndMetadata(cx, end))|
  }

  function MetadataSize(cx: Context, item: Item): nat {
    match item
    case Data(payload) => |cx.metadata.pack(EMPTY_METADATA)|
    case End(end) => |cx.metadata.pack(EndMetadata(cx, end))|
  }

  /** Encoding succeeds exactly when the frame and its metadata are within their limits. */
  lemma EncodeItemSize(cx: Context, sequence: u32, item: Item)
    ensures EncodeItem(cx, sequence, item).Ok?
            <==> EncodedSize(cx, item) <= DEFAULT_FRAME_LIMIT && MetadataSize(cx, item) <= MAX_METADATA_LEN
    ensures EncodeItem(cx, sequence, item).Ok? ==> |EncodeItem(cx, sequence, item).value| == EncodedSize(cx, item)
  {
  }

  // ---- Encoder ----

  class StreamEncoder {
    var written: seq<Write>
    var hashed: bytes
    var logicalLength: nat

    ghost predicate Valid()
      reads this
    {
      hashed == Input(written) && logicalLength == |hashed|
    }

    constructor ()
      ensures Valid() && written == []
    {
      written, hashed, logicalLength := [], [], 0;
    }

    method Push(cx: Context, input: bytes, flush: bool) returns (r: Result<bytes, StreamError>)
      requires Valid()
      modifies this
      ensures Valid()
      ensures (written, r) == EncoderPush(cx, old(written), input, flush)
    {
      var actual := logicalLength + |input|;
      if actual > U64_MAX {
        return Err(LogicalLimit(U64_MAX, U64_MAX - 1));
      }
      var before := cx.codec.emitted(written);
      logicalLength := actual;
      hashed := hashed + input;
      written := written + [Write(input, flush)];
      assert written[..|written| - 1] == old(written);
      var after := cx.codec.emitted(written);
      if before <= after {
        r := Ok(after[|before|..]);
      } else {
        r := Err(Compression);
      }
    }

    method Finish(cx: Context) returns (trailing: bytes, end: StreamEnd)
      requires Valid()
      ensures trailing == cx.codec.trailing(written) && end == EndOf(cx, written)
    {
      trailing := cx.codec.trailing(written);
      end := StreamEnd(cx.direction, logicalLength, cx.digest(hashed));
    }
  }

  function EndOf(cx: Context, writes: seq<Write>): StreamEnd {
    StreamEnd(cx.direction, |Input(writes)|, cx.digest(Input(writes)))
  }

  function EncoderPush(cx: Context, writes: seq<Write>, input: bytes, flush: bool)
    : (seq<Write>, Result<bytes, StreamError>)
  {
    if |Input(writes)| + |input| > U64_MAX then
      (writes, Err(LogicalLimit(U64_MAX, U64_MAX - 1)))
    else
      var writes' := writes + [Write(input, flush)];
      var before, after := cx.codec.emitted(writes), cx.codec.emitted(writes');
      (writes', if before <= after then Ok(after[|before|..]) else Err(Compression))
  }

  // ---- Decoder ----

  /** `StreamDecoder` as a value: compressed bytes taken in, logical bytes hashed so far, and the output bound. */
  datatype Decoder = Decoder(consumed: bytes, hashed: bytes, logicalLength: nat, maxLogicalLength: nat)

  function RecordOutput(d: Decoder, output: bytes): (Decoder, Option<StreamError>) {
    var actual := Min(d.logicalLength + |output|, U64_MAX);
    if actual > d.maxLogicalLength then
      (d, Some(LogicalLimit(actual, d.maxLogicalLength)))
    else
      (d.(logicalLength := actual, hashed := d.hashed + output), None)
  }

  function DecoderPush(cx: Context, d: Decoder, input: bytes): (Decoder, Result<bytes, StreamError>) {
    var taken := d.(consumed := d.consumed + input);
    var before, after := cx.codec.decoded(d.consumed), cx.codec.decoded(taken.consumed);
    if !(before <= after) then
      (taken, Err(Compression))
    else
      var output := after[|before|..];
      match RecordOutput(taken, output)
      case (d', Some(e)) => (d', Err(e))
      case (d', None) => (d', Ok(output))
  }

  function DecoderFinish(cx: Context, d: Decoder, expected: StreamEnd): Result<bytes, StreamError> {
    var before, after := cx.codec.decoded(d.consumed), cx.codec.flushed(d.consumed);
    if expected.direction != cx.direction then
      Err(WrongDirection)
    else if !(before <= after) then
      Err(Compression)
    else
      var trailing := after[|before|..];
      match RecordOutput(d, trailing)
      case (_, Some(e)) => Err(e)
      case (d', None) =>
        if d'.logicalLength != expected.logicalLength then
          Err(StreamError.LengthMismatch)
        else if cx.digest(d'.hashed) != expected.digest then
          Err(DigestMismatch)
        else
          Ok(trailing)
  }

  class StreamDecoder {
    var consumed: bytes
    var hashed: bytes
    var logicalLength: nat
    const maxLogicalLength: nat

    ghost function View(): Decoder
      reads this
    {
      Decoder(consumed, hashed, logicalLength, maxLogicalLength)
    }

    constructor (maxLogicalLength: nat)
      ensures View() == Decoder([], [], 0, maxLogicalLength)
    {
      consumed, hashed, logicalLength := [], [], 0;
      this.maxLogicalLength := maxLogicalLength;
    }

    method Record(output: bytes) returns (e: Option<StreamError>)
      modifies this
      ensures (View(), e) == RecordOutput(old(View()), output)
    {
      var actual := Min(logicalLength + |output|, U64_MAX);
      if actual > maxLogicalLength {
        return Some(LogicalLimit(actual, maxLogicalLength));
      }
      logicalLength := actual;
      hashed := hashed + output;
      return None;
    }

    method Push(cx: Context, input: bytes) returns (r: Result<bytes, StreamError>)
      modifies this
      ensures (View(), r) == DecoderPush(cx, old(View()), input)
    {
      var before := cx.codec.decoded(consumed);
      consumed := consumed + input;
      var after := cx.codec.decoded(consumed);
      if !(before <= after) {
        return Err(Compression);
      }
      var output := after[|before|..];
      var e := Record(output);
      match e {
        case Some(error) => return Err(error);
        case None => return Ok(output);
      }
    }

    method Finish(cx: Context, expected: StreamEnd) returns (r: Result<bytes, StreamError>)
      modifies this
      ensures r == DecoderFinish(cx, old(View()), expected)
    {
      if expected.direction != cx.direction {
        return Err(WrongDirection);
      }
      var before, after := cx.codec.decoded(consumed), cx.codec.flushed(consumed);
      if !(before <= after) {
        return Err(Compression);
      }
      var trailing := after[|before|..];
      var e := Record(trailing);
      if e.Some? {
        return Err(e.value);
      }
      if logicalLength != expected.logicalLength {
        return Err(StreamError.LengthMismatch);
      }
      if cx.digest(hashed) != expected.digest {
        return Err(DigestMismatch);
      }
      return Ok(trailing);
    }
  }
}
