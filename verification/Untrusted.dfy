/** What a receiver keeps to whatever bytes arrive, honest or not. */
module Untrusted {
  import opened Prelude
  import opened Wire
  import opened Core
  import opened Stream
  import opened Sender
  import opened SenderFlow
  import opened Receiver
  import opened ReceiverInvariant
  import opened Coupling
  import opened Protocol
  import opened Delivery

  /** The receiver and its output after any byte strings, one after another. */
  function Arrived(cx: Context, r: Receiver, frames: seq<bytes>): (Receiver, bytes) {
    if frames == [] then (r, [])
    else
      var (before, out) := Arrived(cx, r, frames[..|frames| - 1]);
      var Received(after, result) := Receive(cx, before, frames[|frames| - 1]);
      (after, out + match result case Ok(output) => Concat(output.logicalChunks) case Err(_) => [])
  }

  // ---- What is not for this stream ----

  /** The frame, if it is a data or end frame of this transaction and direction. */
  function ForThis(cx: Context, f: bytes): Option<DecodedFrame> {
    match DecodeFrame(cx, f)
    case Ok(DataFrame(transactionId, direction, k, payload)) =>
      if transactionId == cx.transactionId && direction == cx.direction then
        Some(DataFrame(transactionId, direction, k, payload))
      else None
    case Ok(EndFrame(transactionId, k, end)) =>
      if transactionId == cx.transactionId && end.direction == cx.direction then Some(EndFrame(transactionId, k, end))
      else None
    case _ => None
  }

  /** Everything else is refused, whatever it is, and changes nothing. */
  lemma ForeignChangesNothing(cx: Context, r: Receiver, f: bytes)
    requires ForThis(cx, f) == None
    ensures Receive(cx, r, f).state == r && Receive(cx, r, f).result.Err?
    ensures var error := Receive(cx, r, f).result.error;
            match DecodeFrame(cx, f)
            case Err(e) => error == StreamFailure(e)
            case Ok(DataFrame(transactionId, _, _, _)) =>
              error == if transactionId != cx.transactionId then TransactionMismatch else DirectionMismatch
            case Ok(EndFrame(transactionId, _, _)) =>
              error == if transactionId != cx.transactionId then TransactionMismatch else DirectionMismatch
            case Ok(_) => error == UnexpectedFrame
  {
  }

  /** What a frame of this stream is received as. */
  lemma ForThisIs(cx: Context, r: Receiver, f: bytes)
    ensures match ForThis(cx, f)
            case Some(DataFrame(_, _, k, payload)) => Receive(cx, r, f) == AcceptData(cx, r, k, payload)
            case Some(EndFrame(_, k, end)) => Receive(cx, r, f) == AcceptEnd(cx, r, k, end)
            case _ => Receive(cx, r, f).state == r && Receive(cx, r, f).result.Err?
  {
  }

  // ---- The end record ----

  lemma ErrorsOf(cx: Context, r: Receiver, k: nat, payload: bytes)
    ensures var p := ReceiveData(cx, r, k, payload);
            p.error.Some? ==> p.error.value.ReassemblyLimit? || p.error.value.StreamFailure? || p.error.value.AlreadyFinished?
  {
    var pushed := Reassembled(r.reassembly, k, payload);
    if pushed.Pushed? {
      DecodeErrors(cx, r.decoder, pushed.ready);
    }
  }

  lemma {:induction false} DecodeErrors(cx: Context, d: Option<Decoder>, ready: seq<bytes>)
    ensures var error := DecodeAll(cx, d, ready).2;
            error.Some? ==> error.value.StreamFailure? || error.value.AlreadyFinished?
    decreases |ready|
  {
    if ready != [] && d.Some? {
      var (d', r) := DecoderPush(cx, d.value, ready[0]);
      if r.Ok? {
        DecodeErrors(cx, Some(d'), ready[1..]);
      }
    }
  }

  /** Once an end record is noted no frame replaces it, and a frame conflicts, changing nothing, if and only if it is an end
      frame of this stream with another sequence or record before completion. */
  lemma EndIsFixed(cx: Context, r: Receiver, f: bytes)
    ensures r.pendingEnd.Some? ==> Receive(cx, r, f).state.pendingEnd == r.pendingEnd
    ensures Receive(cx, r, f).result == Err(ConflictingEnd)
       <==> !r.completed && r.pendingEnd.Some?
            && match ForThis(cx, f)
               case Some(EndFrame(_, k, end)) => (k, end) != r.pendingEnd.value
               case _ => false
    ensures Receive(cx, r, f).result == Err(ConflictingEnd) ==> Receive(cx, r, f).state == r
  {
    ForThisIs(cx, r, f);
    match ForThis(cx, f)
    case Some(DataFrame(_, _, k, payload)) => ErrorsOf(cx, r, k, payload);
    case Some(EndFrame(_, k, end)) =>
    case _ => ForeignChangesNothing(cx, r, f);
  }

  lemma {:induction false} ChunksNotEmpty(cx: Context, d: Option<Decoder>, ready: seq<bytes>)
    ensures forall i | 0 <= i < |DecodeAll(cx, d, ready).1| :: DecodeAll(cx, d, ready).1[i] != []
    decreases |ready|
  {
    if ready != [] && d.Some? {
      var (d', r) := DecoderPush(cx, d.value, ready[0]);
      if r.Ok? {
        ChunksNotEmpty(cx, Some(d'), ready[1..]);
      }
    }
  }

  lemma DataNotEmpty(cx: Context, r: Receiver, k: nat, payload: bytes)
    ensures var chunks := ReceiveData(cx, r, k, payload).chunks; forall i | 0 <= i < |chunks| :: chunks[i] != []
  {
    var pushed := Reassembled(r.reassembly, k, payload);
    if pushed.Pushed? {
      ChunksNotEmpty(cx, r.decoder, pushed.ready);
    }
  }

  lemma NoEmptyChunk(cx: Context, r: Receiver, f: bytes)
    ensures var result := Receive(cx, r, f).result;
            result.Ok? ==> forall i | 0 <= i < |result.value.logicalChunks| :: result.value.logicalChunks[i] != []
  {
    ForThisIs(cx, r, f);
    match ForThis(cx, f)
    case Some(DataFrame(_, _, k, payload)) => DataNotEmpty(cx, r, k, payload);
    case _ =>
  }

  /** A receive that succeeds reports the acknowledgement and the completion of the state it leaves, and no empty chunk. */
  lemma ReportsTruly(cx: Context, r: Receiver, f: bytes)
    ensures var Received(r', result) := Receive(cx, r, f);
            result.Ok? ==>
              && result.value.ack == AckOf(cx, r') && (result.value.completed <==> r'.completed)
              && forall i | 0 <= i < |result.value.logicalChunks| :: result.value.logicalChunks[i] != []
  {
    NoEmptyChunk(cx, r, f);
  }

  // ---- What frames mean ----

  /** A data or end frame means what its own type says, and an end frame whose record names the other direction is refused. */
  lemma DirectionsAgree(cx: Context, f: bytes)
    requires Decode(cx.metadata, f).Ok?
    ensures var frame, decoded := Decode(cx.metadata, f).value, DecodeFrame(cx, f);
            && (decoded.Ok? && decoded.value.DataFrame? <==> frame.frameType.RequestData? || frame.frameType.ResponseData?)
            && (decoded.Ok? && decoded.value.DataFrame? ==>
                  && (decoded.value.direction == Request <==> frame.frameType.RequestData?)
                  && decoded.value.sequence == frame.sequence && decoded.value.payload == frame.payload)
            && (decoded.Ok? && decoded.value.EndFrame? ==>
                  && decoded.value.sequence == frame.sequence
                  && frame.frameType == if decoded.value.end.direction == Request then RequestEnd else ResponseEnd)
  {
  }

  /** The extension each control frame has to carry. */
  function NeededExtension(t: FrameType): Option<string> {
    match t
    case RequestOpen => Some("org.veilidhttp.request-open/v1")
    case RequestAccepted => Some("org.veilidhttp.request-accepted/v1")
    case ResponseOpen => Some("org.veilidhttp.response-open/v1")
    case AckFrame => Some("org.veilidhttp.ack/v1")
    case Cancel => Some("org.veilidhttp.cancel/v1")
    case ErrorFrame => Some("org.veilidhttp.error/v1")
    case _ => None
  }

  /** A control frame is read as one if and only if it carries the extension of its own type and that parses; an opening
      request without it is an ordinary frame, and any other control frame without it is malformed. */
  lemma ControlsExactly(cx: Context, f: bytes)
    requires Decode(cx.metadata, f).Ok?
    ensures var frame, decoded := Decode(cx.metadata, f).value, DecodeFrame(cx, f);
            match NeededExtension(frame.frameType)
            case None => !(decoded.Ok? && decoded.value.ControlFrame?)
            case Some(name) =>
              if name in frame.metadata.extensions then
                decoded == if cx.controlOk(frame.frameType, frame.metadata.extensions[name]) then
                             Ok(ControlFrame(frame.transactionId))
                           else Err(MetadataMissing)
              else
                decoded == if frame.frameType == RequestOpen then Ok(OtherFrame(frame)) else Err(MetadataMissing)
  {
  }

  /** A finish succeeds if and only if the record is of this direction and what has come out, with what the codec still puts
      out, is within the bound and has the length and the digest the record says. */
  lemma FinishesExactly(cx: Context, d: Decoder, end: StreamEnd)
    requires cx.codec.decoded(d.consumed) <= cx.codec.flushed(d.consumed)
    ensures var trailing := cx.codec.flushed(d.consumed)[|cx.codec.decoded(d.consumed)|..];
            var length := Min(d.logicalLength + |trailing|, U64_MAX);
            var r := DecoderFinish(cx, d, end);
            && (r.Ok? <==> end.direction == cx.direction && length <= d.maxLogicalLength && length == end.logicalLength
                           && cx.digest(d.hashed + trailing) == end.digest)
            && (r.Ok? ==> r.value == trailing)
  {
  }

  // ---- What is held ----

  /** Bytes held for reassembly. */
  function Held(r: Reassembly): nat {
    WeightBelow(r.pending, Length, U32_MAX + 1)
  }

  /** The counter is what is held, and within the bound. */
  ghost predicate HeldWithin(r: Reassembly, max: nat) {
    && r.pendingBytes == Held(r) <= max && r.maxPendingBytes == max
    && forall k | k in r.pending :: k <= U32_MAX
  }

  lemma {:induction false} DrainedHeld(r: Reassembly, max: nat)
    requires HeldWithin(r, max)
    ensures HeldWithin(Drained(r).0, max)
    decreases r.pending.Keys
  {
    if r.next in r.pending {
      WeightRemove(r.pending, Length, U32_MAX + 1, r.next);
      DrainedHeld(DrainedOnce(r), max);
    }
  }

  lemma ReassembledHeld(r: Reassembly, k: u32, payload: bytes, max: nat)
    requires HeldWithin(r, max)
    ensures match Reassembled(r, k, payload) case Pushed(t, _) => HeldWithin(t, max) case Rejected(_, _) => true
  {
    if r.next <= k && k !in r.pending && r.pendingBytes + |payload| <= max {
      WeightInsert(r.pending, Length, U32_MAX + 1, k, payload);
      DrainedHeld(Inserted(r, k, payload), max);
    }
  }

  lemma SequenceIsU32(cx: Context, f: bytes)
    ensures match ForThis(cx, f) case Some(DataFrame(_, _, k, _)) => k <= U32_MAX case _ => true
  {
  }

  lemma ReceiveHeld(cx: Context, r: Receiver, f: bytes, max: nat)
    requires HeldWithin(r.reassembly, max)
    ensures HeldWithin(Receive(cx, r, f).state.reassembly, max)
  {
    ForThisIs(cx, r, f);
    SequenceIsU32(cx, f);
    match ForThis(cx, f)
    case Some(DataFrame(_, _, k, payload)) => ReassembledHeld(r.reassembly, k, payload, max);
    case _ =>
  }

  /** A frame is refused for lack of reassembly room if and only if it carries a new payload ahead of the cursor that does
      not fit beside what is held. */
  lemma RefusedForRoomIff(cx: Context, r: Receiver, f: bytes)
    requires HeldWithin(r.reassembly, r.reassembly.maxPendingBytes)
    ensures OverReassembly(Receive(cx, r, f).result)
       <==> match ForThis(cx, f)
            case Some(DataFrame(_, _, k, payload)) =>
              && !r.completed && k !in r.window.received && r.reassembly.next <= k && k !in r.reassembly.pending
              && Held(r.reassembly) + |payload| > r.reassembly.maxPendingBytes
            case _ => false
  {
    ForThisIs(cx, r, f);
    match ForThis(cx, f)
    case Some(DataFrame(_, _, k, payload)) =>
      var pushed := Reassembled(r.reassembly, k, payload);
      if pushed.Pushed? {
        DecodeErrors(cx, r.decoder, pushed.ready);
      }
    case Some(EndFrame(_, _, _)) =>
    case _ => ForeignChangesNothing(cx, r, f);
  }

  // ---- What is put out ----

  /** What has been put out was counted, and the count is within the bound. */
  ghost predicate Counted(r: Receiver, out: bytes, max: nat) {
    && Min(|out|, U64_MAX) <= max
    && match r.decoder
       case Some(d) => d.maxLogicalLength == max && |out| <= |d.hashed| && Min(|d.hashed|, U64_MAX) == d.logicalLength <= max
       case None => true
  }

  lemma PushCounts(cx: Context, d: Decoder, chunk: bytes)
    requires Min(|d.hashed|, U64_MAX) == d.logicalLength <= d.maxLogicalLength
    ensures var (d', r) := DecoderPush(cx, d, chunk);
            && d'.maxLogicalLength == d.maxLogicalLength && Min(|d'.hashed|, U64_MAX) == d'.logicalLength <= d.maxLogicalLength
            && |d'.hashed| == |d.hashed| + (if r.Ok? then |r.value| else 0)
  {
  }

  lemma {:induction false} AllCount(cx: Context, d: Decoder, ready: seq<bytes>)
    requires Min(|d.hashed|, U64_MAX) == d.logicalLength <= d.maxLogicalLength
    ensures var (d', chunks, error) := DecodeAll(cx, Some(d), ready);
            && d'.Some? && d'.value.maxLogicalLength == d.maxLogicalLength
            && Min(|d'.value.hashed|, U64_MAX) == d'.value.logicalLength <= d.maxLogicalLength
            && |d'.value.hashed| == |d.hashed| + |Concat(chunks)|
    decreases |ready|
  {
    if ready != [] {
      PushCounts(cx, d, ready[0]);
      var (d', r) := DecoderPush(cx, d, ready[0]);
      if r.Ok? {
        AllCount(cx, d', ready[1..]);
        var more := DecodeAll(cx, Some(d'), ready[1..]).1;
        NonEmptyFirst([], r.value, more);
        assert [] + r.value == r.value && [] + Concat(NonEmpty(r.value) + more) == Concat(NonEmpty(r.value) + more);
      }
    }
  }

  lemma DataCounts(cx: Context, r: Receiver, out: bytes, k: nat, payload: bytes, max: nat)
    requires Counted(r, out, max)
    ensures var p := ReceiveData(cx, r, k, payload);
            && Counted(p.state, out, max) && (p.state.decoder.Some? ==> Counted(p.state, out + Concat(p.chunks), max))
            && (p.state.decoder == None ==> p.chunks == [])
  {
    var pushed := Reassembled(r.reassembly, k, payload);
    if pushed.Pushed? && r.decoder.Some? {
      AllCount(cx, r.decoder.value, pushed.ready);
    } else {
      assert out + [] == out;
    }
  }

  lemma FinishCounts(cx: Context, r: Receiver, out: bytes, chunks: seq<bytes>, max: nat)
    requires Counted(r, out, max) && Counted(r, out + Concat(chunks), max)
    ensures var p := TryFinish(cx, r, chunks); Counted(p.state, Delivered(out, p), max)
  {
    if r.pendingEnd.Some? && DataComplete(r.window, r.pendingEnd.value.0) && r.decoder.Some? {
      var trailing := DecoderFinish(cx, r.decoder.value, r.pendingEnd.value.1);
      if trailing.Ok? {
        NonEmptyLast(out, chunks, trailing.value);
      }
    }
  }

  lemma AcceptDataCounts(cx: Context, r: Receiver, out: bytes, k: nat, payload: bytes, max: nat)
    requires Counted(r, out, max) && !r.completed && k !in r.window.received
    ensures var p := ThenFinish(cx, ReceiveData(cx, r, k, payload)); Counted(p.state, Delivered(out, p), max)
  {
    DataCounts(cx, r, out, k, payload, max);
    var p := ReceiveData(cx, r, k, payload);
    assert out + [] == out;
    if p.error == None {
      FinishCounts(cx, p.state, out, p.chunks, max);
    }
  }

  function Grown(out: bytes, result: Result<ReceiveOutput, EngineError>): bytes {
    out + match result case Ok(output) => Concat(output.logicalChunks) case Err(_) => []
  }

  lemma ReceiveCounts(cx: Context, r: Receiver, out: bytes, f: bytes, max: nat)
    requires Counted(r, out, max)
    ensures var Received(r', result) := Receive(cx, r, f); Counted(r', Grown(out, result), max)
  {
    ForThisIs(cx, r, f);
    assert out + [] == out && Concat<u8>([]) == [];
    match ForThis(cx, f)
    case Some(DataFrame(_, _, k, payload)) =>
      if !r.completed && k !in r.window.received {
        AcceptDataCounts(cx, r, out, k, payload, max);
      }
    case Some(EndFrame(_, k, end)) =>
      if !r.completed {
        FinishCounts(cx, r.(pendingEnd := Some((k, end))), out, [], max);
      }
    case _ =>
  }

  // ---- Any arrivals ----

  /** What every arrival keeps. */
  ghost predicate Contained(r: Receiver, out: bytes, maxHeld: nat, maxOut: nat) {
    HeldWithin(r.reassembly, maxHeld) && Counted(r, out, maxOut)
  }

  lemma StartsContained(capacity: nat, maxHeld: nat, maxOut: nat)
    ensures Contained(InitialReceiver(capacity, maxHeld, maxOut), [], maxHeld, maxOut)
  {
    NothingHeld(U32_MAX + 1);
  }

  lemma {:induction false} NothingHeld(n: nat)
    ensures WeightBelow(map[], Length, n) == 0
  {
    if n > 0 {
      NothingHeld(n - 1);
    }
  }

  lemma {:induction false} ArrivedContained(cx: Context, r: Receiver, frames: seq<bytes>, maxHeld: nat, maxOut: nat)
    requires Contained(r, [], maxHeld, maxOut)
    ensures var (after, out) := Arrived(cx, r, frames); Contained(after, out, maxHeld, maxOut)
    decreases |frames|
  {
    if frames != [] {
      var front, f := frames[..|frames| - 1], frames[|frames| - 1];
      ArrivedContained(cx, r, front, maxHeld, maxOut);
      var (before, out) := Arrived(cx, r, front);
      ReceiveHeld(cx, before, f, maxHeld);
      ReceiveCounts(cx, before, out, f, maxOut);
    }
  }

  /** Whatever byte strings arrive, in whatever order: the payloads held for reassembly never exceed the reassembly bound,
      and the bytes put out never exceed the output bound. */
  lemma StaysWithinBounds(cx: Context, capacity: nat, maxHeld: nat, maxOut: nat, frames: seq<bytes>)
    ensures var (r, out) := Arrived(cx, InitialReceiver(capacity, maxHeld, maxOut), frames);
            && Held(r.reassembly) <= maxHeld && r.reassembly.pendingBytes == Held(r.reassembly)
            && (maxOut < U64_MAX ==> |out| <= maxOut)
  {
    StartsContained(capacity, maxHeld, maxOut);
    ArrivedContained(cx, InitialReceiver(capacity, maxHeld, maxOut), frames, maxHeld, maxOut);
  }
}
