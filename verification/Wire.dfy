/** VHTTP/1 frames and transport bundles as byte strings. */
module Wire {
  import opened Prelude

  const VEILID_MESSAGE_LIMIT: nat := 32768
  const DEFAULT_FRAME_LIMIT: nat := 30 * 1024
  const HEADER_LEN: nat := 40
  const MAX_METADATA_LEN: nat := 8 * 1024
  const BUNDLE_HEADER_LEN: nat := 8
  const MAGIC: bytes := [0x56, 0x48, 0x54, 0x50]
  const BUNDLE_MAGIC: bytes := [0x56, 0x48, 0x42, 0x31]
  const VERSION: u8 := 1

  type TxId = id: bytes | |id| == 16 witness seq(16, _ => 0)

  datatype FrameType =
    | Negotiate | RequestOpen | RequestAccepted | RequestData | RequestEnd | ResponseOpen | ResponseData
    | ResponseEnd | AtomicResponse | AckFrame | Cancel | ErrorFrame | Status

  function TypeCode(t: FrameType): (c: u8) {
    match t
    case Negotiate => 1
    case RequestOpen => 2
    case RequestAccepted => 3
    case RequestData => 4
    case RequestEnd => 5
    case ResponseOpen => 6
    case ResponseData => 7
    case ResponseEnd => 8
    case AtomicResponse => 9
    case AckFrame => 10
    case Cancel => 11
    case ErrorFrame => 12
    case Status => 13
  }

  function TypeOfCode(c: u8): (t: Option<FrameType>)
    ensures forall k: FrameType :: t == Some(k) <==> TypeCode(k) == c
  {
    if c == 1 then Some(Negotiate)
    else if c == 2 then Some(RequestOpen)
    else if c == 3 then Some(RequestAccepted)
    else if c == 4 then Some(RequestData)
    else if c == 5 then Some(RequestEnd)
    else if c == 6 then Some(ResponseOpen)
    else if c == 7 then Some(ResponseData)
    else if c == 8 then Some(ResponseEnd)
    else if c == 9 then Some(AtomicResponse)
    else if c == 10 then Some(AckFrame)
    else if c == 11 then Some(Cancel)
    else if c == 12 then Some(ErrorFrame)
    else if c == 13 then Some(Status)
    else None
  }

  datatype WireError =
    | TruncatedHeader
    | TruncatedBundle
    | InvalidBundleMagic
    | EmptyBundle
    | BundleCount
    | InvalidMagic
    | UnsupportedVersion(version: u8)
    | UnknownFrameType(code: u8)
    | ReservedField
    | MetadataTooLarge(actual: nat)
    | FrameTooLarge(length: nat, limit: nat)
    | LengthMismatch
    | MetadataDecode

  /** A frame whose metadata is still MessagePack bytes. */
  datatype RawFrame = RawFrame(
    frameType: FrameType,
    flags: u16,
    transactionId: TxId,
    sequence: u32,
    cumulativeAck: u32,
    metadata: bytes,
    payload: bytes)

  /** What `encode_with_limit` accepts at the hard message limit. */
  predicate InBounds(f: RawFrame, limit: nat) {
    && |f.metadata| <= MAX_METADATA_LEN
    && HEADER_LEN + |f.metadata| + |f.payload| <= Min(limit, VEILID_MESSAGE_LIMIT)
  }

  function Layout(f: RawFrame): (b: bytes)
    requires InBounds(f, VEILID_MESSAGE_LIMIT)
    ensures |b| == HEADER_LEN + |f.metadata| + |f.payload|
  {
    Header(f) + f.metadata + f.payload
  }

  function Header(f: RawFrame): (b: bytes)
    requires InBounds(f, VEILID_MESSAGE_LIMIT)
    ensures |b| == HEADER_LEN
  {
    MAGIC + [VERSION, TypeCode(f.frameType)] + PutU16(f.flags) + f.transactionId + PutU32(f.sequence)
    + PutU32(f.cumulativeAck) + PutU16(|f.metadata|) + PutU16(0) + PutU32(|f.payload|)
  }

  function EncodeRaw(f: RawFrame, limit: nat): Result<bytes, WireError> {
    if |f.metadata| > MAX_METADATA_LEN then
      Err(MetadataTooLarge(|f.metadata|))
    else
      var total := HEADER_LEN + |f.metadata| + |f.payload|;
      if total > Min(limit, VEILID_MESSAGE_LIMIT) then Err(FrameTooLarge(total, limit)) else Ok(Layout(f))
  }

  function DecodeRaw(input: bytes): Result<RawFrame, WireError> {
    if |input| < HEADER_LEN then
      Err(TruncatedHeader)
    else if |input| > VEILID_MESSAGE_LIMIT then
      Err(FrameTooLarge(|input|, VEILID_MESSAGE_LIMIT))
    else if input[0..4] != MAGIC then
      Err(InvalidMagic)
    else if input[4] != VERSION then
      Err(UnsupportedVersion(input[4]))
    else
      match TypeOfCode(input[5])
      case None => Err(UnknownFrameType(input[5]))
      case Some(frameType) =>
        var metadataLen := GetU16(input[32..34]);
        var payloadLen := GetU32(input[36..40]);
        if GetU16(input[34..36]) != 0 then
          Err(ReservedField)
        else if metadataLen > MAX_METADATA_LEN then
          Err(MetadataTooLarge(metadataLen))
        else if HEADER_LEN + metadataLen + payloadLen != |input| then
          Err(LengthMismatch)
        else
          Ok(RawFrame(frameType, GetU16(input[6..8]), input[8..24], GetU32(input[24..28]), GetU32(input[28..32]),
                      input[40..40 + metadataLen], input[40 + metadataLen..]))
  }

  lemma HeaderFields(f: RawFrame)
    requires InBounds(f, VEILID_MESSAGE_LIMIT)
    ensures var h := Header(f);
            && h[0..4] == MAGIC && h[4] == VERSION && h[5] == TypeCode(f.frameType)
            && h[6..8] == PutU16(f.flags) && h[8..24] == f.transactionId && h[24..28] == PutU32(f.sequence)
            && h[28..32] == PutU32(f.cumulativeAck) && h[32..34] == PutU16(|f.metadata|)
            && h[34..36] == PutU16(0) && h[36..40] == PutU32(|f.payload|)
  {
  }

  /** Decoding an encoded frame gives the frame back. */
  lemma DecodeRawEncodeRaw(f: RawFrame)
    requires InBounds(f, VEILID_MESSAGE_LIMIT)
    ensures DecodeRaw(Layout(f)) == Ok(f)
  {
    var h, b := Header(f), Layout(f);
    HeaderFields(f);
    assert forall i, j | 0 <= i <= j <= 40 :: b[i..j] == h[i..j];
    assert b[4] == h[4] && b[5] == h[5];
    U16Inverse(f.flags, []);
    U16Inverse(|f.metadata|, []);
    U16Inverse(0, []);
    U32Inverse(f.sequence, []);
    U32Inverse(f.cumulativeAck, []);
    U32Inverse(|f.payload|, []);
    assert b[40..40 + |f.metadata|] == f.metadata && b[40 + |f.metadata|..] == f.payload;
  }

  /** Every accepted byte string is the encoding of the frame it decodes to. */
  lemma EncodeRawDecodeRaw(input: bytes)
    requires DecodeRaw(input).Ok?
    ensures var f := DecodeRaw(input).value;
            InBounds(f, VEILID_MESSAGE_LIMIT) && Layout(f) == input
  {
    var f := DecodeRaw(input).value;
    HeaderFields(f);
    U16Inverse(0, input[6..8]);
    U32Inverse(0, input[24..28]);
    U32Inverse(0, input[28..32]);
    U16Inverse(0, input[32..34]);
    U16Inverse(0, input[34..36]);
    U32Inverse(0, input[36..40]);
    var h := Header(f);
    forall i | 0 <= i < 40
      ensures h[i] == input[i]
    {
      SameSlices(h, input, i);
    }
    assert input == input[..40] + input[40..40 + |f.metadata|] + input[40 + |f.metadata|..];
    assert h == input[..40];
  }

  lemma SameSlices(h: bytes, input: bytes, i: nat)
    requires |h| == 40 && |input| >= 40 && i < 40
    requires h[0..4] == input[0..4] && h[4] == input[4] && h[5] == input[5]
    requires h[6..8] == input[6..8] && h[8..24] == input[8..24] && h[24..28] == input[24..28]
    requires h[28..32] == input[28..32] && h[32..34] == input[32..34] && h[34..36] == input[34..36]
    requires h[36..40] == input[36..40]
    ensures h[i] == input[i]
  {
    if i < 4 {
      assert h[0..4][i] == input[0..4][i];
    } else if 6 <= i < 8 {
      assert h[6..8][i - 6] == input[6..8][i - 6];
    } else if 8 <= i < 24 {
      assert h[8..24][i - 8] == input[8..24][i - 8];
    } else if 24 <= i < 28 {
      assert h[24..28][i - 24] == input[24..28][i - 24];
    } else if 28 <= i < 32 {
      assert h[28..32][i - 28] == input[28..32][i - 28];
    } else if 32 <= i < 34 {
      assert h[32..34][i - 32] == input[32..34][i - 32];
    } else if 34 <= i < 36 {
      assert h[34..36][i - 34] == input[34..36][i - 34];
    } else if 36 <= i {
      assert h[36..40][i - 36] == input[36..40][i - 36];
    }
  }

  // ---- Metadata: MessagePack is a pair of functions, assumed to round-trip where that is needed ----

  datatype Metadata = Metadata(http: map<string, string>, vhttp: map<string, string>, extensions: map<string, bytes>)

  const EMPTY_METADATA := Metadata(map[], map[], map[])

  datatype MetadataCodec = MetadataCodec(pack: Metadata -> bytes, unpack: bytes -> Option<Metadata>)

  ghost predicate Faithful(mc: MetadataCodec) {
    forall m: Metadata :: mc.unpack(mc.pack(m)) == Some(m)
  }

  datatype Frame = Frame(
    frameType: FrameType,
    flags: u16,
    transactionId: TxId,
    sequence: u32,
    cumulativeAck: u32,
    metadata: Metadata,
    payload: bytes)

  function Raw(mc: MetadataCodec, f: Frame): RawFrame {
    RawFrame(f.frameType, f.flags, f.transactionId, f.sequence, f.cumulativeAck, mc.pack(f.metadata), f.payload)
  }

  function Encode(mc: MetadataCodec, f: Frame, limit: nat): Result<bytes, WireError> {
    EncodeRaw(Raw(mc, f), limit)
  }

  function Decode(mc: MetadataCodec, input: bytes): Result<Frame, WireError> {
    match DecodeRaw(input)
    case Err(e) => Err(e)
    case Ok(raw) =>
      match mc.unpack(raw.metadata)
      case None => Err(MetadataDecode)
      case Some(m) =>
        Ok(Frame(raw.frameType, raw.flags, raw.transactionId, raw.sequence, raw.cumulativeAck, m, raw.payload))
  }

  /** What one side encodes under any limit, the other side decodes to the same frame. */
  lemma DecodeEncode(mc: MetadataCodec, f: Frame, limit: nat)
    requires Faithful(mc)
    requires Encode(mc, f, limit).Ok?
    ensures Decode(mc, Encode(mc, f, limit).value) == Ok(f)
    ensures |Encode(mc, f, limit).value| == HEADER_LEN + |mc.pack(f.metadata)| + |f.payload|
    ensures |Encode(mc, f, limit).value| <= Min(limit, VEILID_MESSAGE_LIMIT)
  {
    DecodeRawEncodeRaw(Raw(mc, f));
  }

  // ---- Bundles ----

  function TotalLength(frames: seq<bytes>): nat {
    if frames == [] then 0 else |frames[0]| + TotalLength(frames[1..])
  }

  /** Every length fits the four-byte entry of the table. */
  ghost predicate Small(frames: seq<bytes>) {
    forall i | 0 <= i < |frames| :: |frames[i]| <= U32_MAX
  }

  function LengthTable(frames: seq<bytes>): (b: bytes)
    requires Small(frames)
    ensures |b| == 4 * |frames|
  {
    if frames == [] then [] else PutU32(|frames[0]|) + LengthTable(frames[1..])
  }

  /** Size of a bundle of these frames on the wire. */
  function BundleSize(frames: seq<bytes>): nat {
    BUNDLE_HEADER_LEN + 4 * |frames| + TotalLength(frames)
  }

  lemma {:induction false} TotalLengthBounds(frames: seq<bytes>)
    ensures forall i | 0 <= i < |frames| :: |frames[i]| <= TotalLength(frames)
    ensures |Concat(frames)| == TotalLength(frames)
  {
    if frames != [] {
      TotalLengthBounds(frames[1..]);
      assert forall i | 0 < i < |frames| :: frames[i] == frames[1..][i - 1];
    }
  }

  lemma {:induction false} TotalLengthSnoc(frames: seq<bytes>, f: bytes)
    ensures TotalLength(frames + [f]) == TotalLength(frames) + |f|
  {
    if frames != [] {
      assert (frames + [f])[1..] == frames[1..] + [f];
      TotalLengthSnoc(frames[1..], f);
    }
  }

  function BundleHeader(count: u16): (b: bytes)
    ensures |b| == BUNDLE_HEADER_LEN
  {
    BUNDLE_MAGIC + PutU16(count) + PutU16(0)
  }

  lemma BundleHeaderFields(count: u16)
    ensures var h := BundleHeader(count); h[0..4] == BUNDLE_MAGIC && GetU16(h[4..6]) == count && GetU16(h[6..8]) == 0
  {
    var h := BundleHeader(count);
    assert h[4..6] == PutU16(count) && h[6..8] == PutU16(0);
    U16Inverse(count, []);
    U16Inverse(0, []);
  }

  lemma FitsTables(frames: seq<bytes>)
    requires BundleSize(frames) <= VEILID_MESSAGE_LIMIT
    ensures Small(frames) && |frames| <= U16_MAX
  {
    TotalLengthBounds(frames);
  }

  function BundleLayout(frames: seq<bytes>): (b: bytes)
    requires BundleSize(frames) <= VEILID_MESSAGE_LIMIT
  {
    FitsTables(frames);
    BundleHeader(|frames|) + LengthTable(frames) + Concat(frames)
  }

  function BundleEncoding(frames: seq<bytes>): Result<bytes, WireError> {
    if frames == [] then
      Err(EmptyBundle)
    else if BundleSize(frames) > VEILID_MESSAGE_LIMIT then
      Err(FrameTooLarge(BundleSize(frames), VEILID_MESSAGE_LIMIT))
    else
      Ok(BundleLayout(frames))
  }

  lemma {:induction false} LengthTableSnoc(frames: seq<bytes>, f: bytes)
    requires Small(frames) && |f| <= U32_MAX
    ensures Small(frames + [f])
    ensures LengthTable(frames + [f]) == LengthTable(frames) + PutU32(|f|)
  {
    if frames != [] {
      assert (frames + [f])[1..] == frames[1..] + [f];
      LengthTableSnoc(frames[1..], f);
    } else {
      assert [] + [f] == [f];
      assert [f][1..] == [];
    }
  }

  method PutLengthTable(header: bytes, frames: seq<bytes>) returns (output: bytes)
    requires Small(frames)
    ensures output == header + LengthTable(frames)
  {
    output := header;
    for i := 0 to |frames|
      invariant output == header + LengthTable(frames[..i])
    {
      assert frames[..i + 1] == frames[..i] + [frames[i]];
      LengthTableSnoc(frames[..i], frames[i]);
      output := output + PutU32(|frames[i]|);
    }
    assert frames[..|frames|] == frames;
  }

  method PutFrames(header: bytes, frames: seq<bytes>) returns (output: bytes)
    ensures output == header + Concat(frames)
  {
    output := header;
    for i := 0 to |frames|
      invariant output == header + Concat(frames[..i])
    {
      assert frames[..i + 1] == frames[..i] + [frames[i]];
      ConcatSnoc(frames[..i], frames[i]);
      output := output + frames[i];
    }
    assert frames[..|frames|] == frames;
  }

  method SumLengths(frames: seq<bytes>) returns (sum: nat)
    ensures sum == TotalLength(frames)
  {
    sum := 0;
    for i := 0 to |frames|
      invariant sum == TotalLength(frames[..i])
    {
      assert frames[..i + 1] == frames[..i] + [frames[i]];
      TotalLengthSnoc(frames[..i], frames[i]);
      sum := sum + |frames[i]|;
    }
    assert frames[..|frames|] == frames;
  }

  /** `FrameBundle::encode`: the header, then the length table, then the frames, appended to one buffer. */
  method EncodeBundle(frames: seq<bytes>) returns (r: Result<bytes, WireError>)
    ensures r == BundleEncoding(frames)
  {
    if |frames| == 0 {
      return Err(EmptyBundle);
    }
    var sum := SumLengths(frames);
    var total := BUNDLE_HEADER_LEN + |frames| * 4 + sum;
    if total > VEILID_MESSAGE_LIMIT {
      return Err(FrameTooLarge(total, VEILID_MESSAGE_LIMIT));
    }
    FitsTables(frames);
    var output := BundleHeader(|frames|);
    output := PutLengthTable(output, frames);
    output := PutFrames(output, frames);
    return Ok(output);
  }

  function ReadLengths(table: bytes, count: nat): (lengths: seq<nat>)
    requires |table| == 4 * count
    ensures |lengths| == count
  {
    if count == 0 then [] else [GetU32(table[..4])] + ReadLengths(table[4..], count - 1)
  }

  function Sum(lengths: seq<nat>): nat {
    if lengths == [] then 0 else lengths[0] + Sum(lengths[1..])
  }

  /** Cut `body` into pieces of the given lengths; each piece must itself be a valid frame. */
  function CutFrames(mc: MetadataCodec, body: bytes, lengths: seq<nat>): Result<seq<bytes>, WireError>
    requires Sum(lengths) == |body|
    decreases |lengths|
  {
    if lengths == [] then
      Ok([])
    else
      match Decode(mc, body[..lengths[0]])
      case Err(e) => Err(e)
      case Ok(_) => Prepend(body[..lengths[0]], CutFrames(mc, body[lengths[0]..], lengths[1..]))
  }

  function Prepend(f: bytes, rest: Result<seq<bytes>, WireError>): Result<seq<bytes>, WireError> {
    match rest
    case Err(e) => Err(e)
    case Ok(fs) => Ok([f] + fs)
  }

  function BundleDecoding(mc: MetadataCodec, input: bytes): Result<seq<bytes>, WireError> {
    if |input| < BUNDLE_HEADER_LEN then
      Err(TruncatedBundle)
    else if |input| > VEILID_MESSAGE_LIMIT then
      Err(FrameTooLarge(|input|, VEILID_MESSAGE_LIMIT))
    else if input[0..4] != BUNDLE_MAGIC then
      Err(InvalidBundleMagic)
    else
      var count: nat := GetU16(input[4..6]);
      if count == 0 then
        Err(EmptyBundle)
      else if GetU16(input[6..8]) != 0 then
        Err(ReservedField)
      else if |input| - 8 < 4 * count then
        Err(TruncatedBundle)
      else
        CutBody(mc, input[8..8 + 4 * count], count, input[8 + 4 * count..])
  }

  function CutBody(mc: MetadataCodec, table: bytes, count: nat, body: bytes): Result<seq<bytes>, WireError>
    requires |table| == 4 * count
  {
    var lengths := ReadLengths(table, count);
    if |body| != Sum(lengths) then Err(LengthMismatch) else CutFrames(mc, body, lengths)
  }

  lemma {:induction false} ReadLengthsSnoc(table: bytes, count: nat)
    requires |table| == 4 * (count + 1)
    ensures ReadLengths(table, count + 1)
         == ReadLengths(table[..4 * count], count) + [GetU32(table[4 * count..])]
  {
    if count > 0 {
      ReadLengthsSnoc(table[4..], count - 1);
      assert table[4..][..4 * (count - 1)] == table[..4 * count][4..];
      assert table[..4] == table[..4 * count][..4];
      assert table[4..][4 * (count - 1)..] == table[4 * count..];
    } else {
      assert table[..4] == table && table[4 * count..] == table;
    }
  }

  lemma {:induction false} SumSnoc(lengths: seq<nat>, n: nat)
    ensures Sum(lengths + [n]) == Sum(lengths) + n
  {
    if lengths != [] {
      assert (lengths + [n])[1..] == lengths[1..] + [n];
      SumSnoc(lengths[1..], n);
    }
  }

  method GetLengthTable(table: bytes, count: nat) returns (lengths: seq<nat>, expected: nat)
    requires |table| == 4 * count
    ensures lengths == ReadLengths(table, count) && expected == Sum(lengths)
  {
    lengths, expected := [], 0;
    for i := 0 to count
      invariant lengths == ReadLengths(table[..4 * i], i) && expected == Sum(lengths)
    {
      var length: nat := GetU32(table[4 * i..4 * i + 4]);
      ghost var next := table[..4 * i + 4];
      ReadLengthsSnoc(next, i);
      assert next[..4 * i] == table[..4 * i] && next[4 * i..] == table[4 * i..4 * i + 4];
      SumSnoc(lengths, length);
      lengths, expected := lengths + [length], expected + length;
    }
    assert table[..4 * count] == table;
  }

  function Prefixed(done: seq<bytes>, rest: Result<seq<bytes>, WireError>): Result<seq<bytes>, WireError> {
    match rest
    case Err(e) => Err(e)
    case Ok(fs) => Ok(done + fs)
  }

  lemma PrefixedPrepend(done: seq<bytes>, f: bytes, rest: Result<seq<bytes>, WireError>)
    ensures Prefixed(done, Prepend(f, rest)) == Prefixed(done + [f], rest)
  {
    if rest.Ok? {
      assert done + ([f] + rest.value) == (done + [f]) + rest.value;
    }
  }

  method GetFrames(mc: MetadataCodec, body: bytes, lengths: seq<nat>) returns (r: Result<seq<bytes>, WireError>)
    requires Sum(lengths) == |body|
    ensures r == CutFrames(mc, body, lengths)
  {
    var frames, cursor, left := [], body, lengths;
    assert CutFrames(mc, body, lengths) == Prefixed([], CutFrames(mc, cursor, left)) by {
      if CutFrames(mc, body, lengths).Ok? {
        assert [] + CutFrames(mc, body, lengths).value == CutFrames(mc, body, lengths).value;
      }
    }
    while left != []
      invariant Sum(left) == |cursor|
      invariant CutFrames(mc, body, lengths) == Prefixed(frames, CutFrames(mc, cursor, left))
      decreases |left|
    {
      var frame := cursor[..left[0]];
      match Decode(mc, frame) {
        case Err(e) => return Err(e);
        case Ok(_) =>
      }
      PrefixedPrepend(frames, frame, CutFrames(mc, cursor[left[0]..], left[1..]));
      frames, cursor, left := frames + [frame], cursor[left[0]..], left[1..];
    }
    assert frames + [] == frames;
    return Ok(frames);
  }

  /** `FrameBundle::decode`: the length table and then the frames are read in loops over the input. */
  method DecodeBundle(mc: MetadataCodec, input: bytes) returns (r: Result<seq<bytes>, WireError>)
    ensures r == BundleDecoding(mc, input)
  {
    if |input| < BUNDLE_HEADER_LEN {
      return Err(TruncatedBundle);
    }
    if |input| > VEILID_MESSAGE_LIMIT {
      return Err(FrameTooLarge(|input|, VEILID_MESSAGE_LIMIT));
    }
    if input[0..4] != BUNDLE_MAGIC {
      return Err(InvalidBundleMagic);
    }
    var count: nat := GetU16(input[4..6]);
    var reserved: nat := GetU16(input[6..8]);
    if count == 0 {
      return Err(EmptyBundle);
    }
    if reserved != 0 {
      return Err(ReservedField);
    }
    if |input| - 8 < 4 * count {
      return Err(TruncatedBundle);
    }
    var lengths, expected := GetLengthTable(input[8..8 + 4 * count], count);
    var body := input[8 + 4 * count..];
    if |body| != expected {
      return Err(LengthMismatch);
    }
    r := GetFrames(mc, body, lengths);
  }

  /** Each element is a complete valid frame. */
  ghost predicate AllValid(mc: MetadataCodec, frames: seq<bytes>) {
    forall i | 0 <= i < |frames| :: Decode(mc, frames[i]).Ok?
  }

  lemma LengthTableHead(frames: seq<bytes>)
    requires frames != [] && Small(frames)
    ensures ReadLengths(LengthTable(frames), |frames|)
         == [|frames[0]|] + ReadLengths(LengthTable(frames[1..]), |frames| - 1)
  {
    U32Inverse(|frames[0]|, []);
    assert LengthTable(frames)[..4] == PutU32(|frames[0]|);
    assert LengthTable(frames)[4..] == LengthTable(frames[1..]);
  }

  lemma {:induction false} ReadLengthsOfTable(frames: seq<bytes>)
    requires Small(frames)
    ensures Sum(ReadLengths(LengthTable(frames), |frames|)) == |Concat(frames)|
  {
    if frames != [] {
      LengthTableHead(frames);
      ReadLengthsOfTable(frames[1..]);
    }
  }

  lemma {:induction false} CutOfConcat(mc: MetadataCodec, frames: seq<bytes>, lengths: seq<nat>)
    requires Small(frames) && AllValid(mc, frames)
    requires lengths == ReadLengths(LengthTable(frames), |frames|)
    ensures Sum(lengths) == |Concat(frames)|
    ensures CutFrames(mc, Concat(frames), lengths) == Ok(frames)
    decreases |frames|
  {
    ReadLengthsOfTable(frames);
    if frames != [] {
      var rest := frames[1..];
      LengthTableHead(frames);
      assert lengths[1..] == ReadLengths(LengthTable(rest), |rest|);
      CutOfConcat(mc, rest, lengths[1..]);
      assert Concat(frames)[..lengths[0]] == frames[0];
      assert Concat(frames)[lengths[0]..] == Concat(rest);
      assert [frames[0]] + rest == frames;
    }
  }

  /** A bundle of valid frames that fits the message limit decodes to exactly those frames. */
  lemma DecodeEncodeBundle(mc: MetadataCodec, frames: seq<bytes>)
    requires AllValid(mc, frames)
    requires BundleEncoding(frames).Ok?
    ensures BundleDecoding(mc, BundleEncoding(frames).value) == Ok(frames)
  {
    var b, n := BundleLayout(frames), |frames|;
    FitsTables(frames);
    TotalLengthBounds(frames);
    var h, table, body := BundleHeader(n), LengthTable(frames), Concat(frames);
    BundleHeaderFields(n);
    assert b[0..4] == h[0..4] && b[4..6] == h[4..6] && b[6..8] == h[6..8];
    assert b[8..8 + 4 * n] == table && b[8 + 4 * n..] == body;
    CutOfConcat(mc, frames, ReadLengths(table, n));
  }

  /** What cutting accepts, put back together, is the body and the table it was read from. */
  ghost predicate Reassembles(mc: MetadataCodec, body: bytes, table: bytes, frames: seq<bytes>) {
    && Concat(frames) == body && Small(frames) && AllValid(mc, frames) && LengthTable(frames) == table
  }

  lemma ReassemblesPrepend(mc: MetadataCodec, piece: bytes, body: bytes, entry: bytes, table: bytes, frames: seq<bytes>)
    requires Reassembles(mc, body, table, frames)
    requires Decode(mc, piece).Ok? && |piece| <= U32_MAX && entry == PutU32(|piece|)
    ensures Reassembles(mc, piece + body, entry + table, [piece] + frames)
  {
    assert ([piece] + frames)[1..] == frames;
  }

  /** A table read entry by entry: the first length, and the table of the rest. */
  lemma CutFirst(mc: MetadataCodec, body: bytes, table: bytes, count: nat)
    requires |table| == 4 * count && count > 0 && CutBody(mc, table, count, body).Ok?
    ensures var n := GetU32(table[..4]);
            && n <= |body| && Decode(mc, body[..n]).Ok? && CutBody(mc, table[4..], count - 1, body[n..]).Ok?
            && CutBody(mc, table, count, body).value
               == [body[..n]] + CutBody(mc, table[4..], count - 1, body[n..]).value
  {
    var lengths := ReadLengths(table, count);
    assert lengths[1..] == ReadLengths(table[4..], count - 1);
  }

  lemma {:induction false} ConcatOfCut(mc: MetadataCodec, body: bytes, table: bytes, count: nat)
    requires |table| == 4 * count
    requires CutBody(mc, table, count, body).Ok?
    ensures |CutBody(mc, table, count, body).value| == count
    ensures Reassembles(mc, body, table, CutBody(mc, table, count, body).value)
    decreases count
  {
    if count > 0 {
      CutFirst(mc, body, table, count);
      var n := GetU32(table[..4]);
      ConcatOfCut(mc, body[n..], table[4..], count - 1);
      U32Inverse(0, table[..4]);
      ReassemblesPrepend(mc, body[..n], body[n..], table[..4], table[4..],
                         CutBody(mc, table[4..], count - 1, body[n..]).value);
      assert table == table[..4] + table[4..] && body == body[..n] + body[n..];
    }
  }

  lemma BundleHeaderOf(input: bytes)
    requires |input| >= 8 && input[0..4] == BUNDLE_MAGIC && GetU16(input[6..8]) == 0
    ensures BundleHeader(GetU16(input[4..6])) == input[..8]
  {
    U16Inverse(0, input[4..6]);
    U16Inverse(0, input[6..8]);
    assert input[..8] == input[0..4] + input[4..6] + input[6..8];
  }

  lemma LayoutOf(input: bytes, count: nat, frames: seq<bytes>)
    requires 8 + 4 * count <= |input| <= VEILID_MESSAGE_LIMIT && 0 < count == |frames| <= U16_MAX
    requires Small(frames) && LengthTable(frames) == input[8..8 + 4 * count]
    requires Concat(frames) == input[8 + 4 * count..] && BundleHeader(count) == input[..8]
    ensures BundleEncoding(frames) == Ok(input)
  {
    TotalLengthBounds(frames);
    assert input == input[..8] + input[8..8 + 4 * count] + input[8 + 4 * count..];
  }

  /** Every accepted bundle is the encoding of the frames it holds, all of them valid. */
  lemma EncodeDecodeBundle(mc: MetadataCodec, input: bytes)
    requires BundleDecoding(mc, input).Ok?
    ensures var frames := BundleDecoding(mc, input).value;
            BundleEncoding(frames) == Ok(input) && AllValid(mc, frames)
  {
    var count: nat := GetU16(input[4..6]);
    ConcatOfCut(mc, input[8 + 4 * count..], input[8..8 + 4 * count], count);
    BundleHeaderOf(input);
    LayoutOf(input, count, BundleDecoding(mc, input).value);
  }

  /** No byte string is accepted both as a frame and as a bundle. */
  lemma FrameIsNotBundle(mc: MetadataCodec, input: bytes)
    ensures !(Decode(mc, input).Ok? && BundleDecoding(mc, input).Ok?)
  {
    assert MAGIC[2] != BUNDLE_MAGIC[2];
    assert |input| >= 4 ==> input[0..4][2] == input[2];
  }
}
