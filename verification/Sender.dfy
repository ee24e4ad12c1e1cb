/** The outgoing half of a stream: `OutboundBody` and its state as a value. */
module Sender {
  import opened Prelude
  import opened Wire
  import opened Core
  import opened Stream

  datatype EngineError =
    | StreamFailure(cause: StreamError)
    | ReassemblyLimit(actual: nat, limit: nat)
    | InvalidWindow(window: nat)
    | InvalidPendingBound(bound: nat)
    | InputChunkTooLarge(actual: nat, limit: nat)
    | PendingLimit(actual: nat, limit: nat)
    | SequenceExhausted
    | AlreadyFinished
    | TransactionMismatch
    | DirectionMismatch
    | UnexpectedFrame
    | ConflictingEnd

  /** One encoded frame kept until it is acknowledged. */
  datatype Retained = Retained(sequence: nat, encoded: bytes, lastSentMs: Option<nat>, attempts: nat)

  function EncodedLength(f: Retained): nat {
    |f.encoded|
  }

  function RetainedBytes(item: Item): nat {
    match item
    case Data(payload) => |payload|
    case End(_) => 64
  }

  /** `OutboundBody` as a value. `log` is a history variable: the items given a sequence number so far, in order. */
  datatype Sender = Sender(
    target: pos,
    buffer: bytes,
    encoder: Option<seq<Write>>,
    pending: seq<Item>,
    pendingBytes: nat,
    inFlightBytes: nat,
    maxBufferedBytes: nat,
    localWindow: nat,
    peerWindow: nat,
    nextSequence: u32,
    inFlight: map<nat, Retained>,
    inputFinished: bool,
    log: seq<Item>)

  /** The state after an operation, whether or not it failed, and the error if it did. */
  datatype Outcome = Outcome(state: Sender, error: Option<EngineError>)

  function BufferedBytes(s: Sender): nat {
    s.pendingBytes + s.inFlightBytes
  }

  function EffectiveWindow(s: Sender): nat {
    Min(s.localWindow, s.peerWindow)
  }

  predicate IsBackpressured(s: Sender) {
    BufferedBytes(s) >= s.maxBufferedBytes || |s.inFlight| >= EffectiveWindow(s)
  }

  predicate SenderComplete(s: Sender) {
    s.inputFinished && s.pending == [] && s.inFlight == map[]
  }

  function Queue(s: Sender, item: Item): Outcome {
    var actual := BufferedBytes(s) + RetainedBytes(item);
    if actual > s.maxBufferedBytes then
      Outcome(s, Some(PendingLimit(actual, s.maxBufferedBytes)))
    else
      Outcome(s.(pending := s.pending + [item], pendingBytes := s.pendingBytes + RetainedBytes(item)), None)
  }

  function QueueAll(s: Sender, payloads: seq<bytes>): Outcome
    decreases |payloads|
  {
    if payloads == [] then
      Outcome(s, None)
    else
      var first := Queue(s, Data(payloads[0]));
      if first.error.Some? then first else QueueAll(first.state, payloads[1..])
  }

  function QueueCompressed(s: Sender, compressed: bytes): Outcome {
    var (payloads, rest) := Batches(s.buffer + compressed, s.target);
    QueueAll(s.(buffer := rest), payloads)
  }

  function FlushBuffer(s: Sender): Outcome {
    if s.buffer == [] then Outcome(s, None) else Queue(s.(buffer := []), Data(s.buffer))
  }

  /** Move the front item, encoded as `encoded`, into flight under the next sequence number. */
  function Launch(s: Sender, encoded: bytes): Outcome
    requires s.pending != []
  {
    var item := s.pending[0];
    var projected := SaturatingSub(BufferedBytes(s), RetainedBytes(item)) + |encoded|;
    if projected > s.maxBufferedBytes then
      Outcome(s, Some(PendingLimit(projected, s.maxBufferedBytes)))
    else
      var popped := s.(pending := s.pending[1..], pendingBytes := SaturatingSub(s.pendingBytes, RetainedBytes(item)));
      if s.nextSequence == U32_MAX then
        Outcome(popped, Some(SequenceExhausted))
      else
        Outcome(popped.(nextSequence := s.nextSequence + 1,
                        inFlightBytes := s.inFlightBytes + |encoded|,
                        inFlight := s.inFlight[s.nextSequence := Retained(s.nextSequence, encoded, None, 0)],
                        log := s.log + [item]),
                None)
  }

  function PumpOne(cx: Context, s: Sender): Outcome
    requires s.pending != []
  {
    match EncodeItem(cx, s.nextSequence, s.pending[0])
    case Err(e) => Outcome(s, Some(StreamFailure(WireFailure(e))))
    case Ok(encoded) => Launch(s, encoded)
  }

  function Pump(cx: Context, s: Sender): Outcome
    decreases |s.pending|
  {
    if |s.inFlight| < EffectiveWindow(s) && s.pending != [] then
      var one := PumpOne(cx, s);
      if one.error.Some? then one else Pump(cx, one.state)
    else
      Outcome(s, None)
  }

  /** Everything `push` does before pumping: encode, batch, queue, and flush if asked. */
  function Loaded(cx: Context, s: Sender, logical: bytes, flush: bool): Outcome {
    if s.inputFinished then
      Outcome(s, Some(AlreadyFinished))
    else if |logical| > s.target then
      Outcome(s, Some(InputChunkTooLarge(|logical|, s.target)))
    else if s.encoder == None then
      Outcome(s, Some(AlreadyFinished))
    else
      var (writes, encoded) := EncoderPush(cx, s.encoder.value, logical, flush);
      match encoded
      case Err(e) => Outcome(s.(encoder := Some(writes)), Some(StreamFailure(e)))
      case Ok(compressed) =>
        var queued := QueueCompressed(s.(encoder := Some(writes)), compressed);
        if queued.error.Some? || !flush then queued else FlushBuffer(queued.state)
  }

  function Push(cx: Context, s: Sender, logical: bytes, flush: bool): Outcome {
    var queued := Loaded(cx, s, logical, flush);
    if queued.error.Some? then queued else Pump(cx, queued.state)
  }

  /** Everything `finish_input` does before pumping. */
  function LoadedEnd(cx: Context, s: Sender): Outcome
    requires s.encoder.Some?
  {
    var writes := s.encoder.value;
    var queued := QueueCompressed(s.(encoder := None), cx.codec.trailing(writes));
    if queued.error.Some? then queued
    else
      var flushed := FlushBuffer(queued.state);
      if flushed.error.Some? then flushed
      else
        var ended := Queue(flushed.state, End(EndOf(cx, writes)));
        if ended.error.Some? then ended else Outcome(ended.state.(inputFinished := true), None)
  }

  function FinishInput(cx: Context, s: Sender): Outcome {
    if s.inputFinished then
      Outcome(s, None)
    else if s.encoder == None then
      Outcome(s, Some(AlreadyFinished))
    else
      var queued := LoadedEnd(cx, s);
      if queued.error.Some? then queued else Pump(cx, queued.state)
  }

  function SetPeerWindow(cx: Context, s: Sender, receiveWindow: nat): Outcome {
    if receiveWindow > 64 then
      Outcome(s, Some(InvalidWindow(receiveWindow)))
    else
      Pump(cx, s.(peerWindow := receiveWindow))
  }

  /** Sequences in flight below `n` that the snapshot acknowledges, in ascending order. */
  function AckedKeys(inFlight: map<nat, Retained>, snapshot: AckSnapshot, n: nat): seq<nat> {
    if n == 0 then []
    else
      AckedKeys(inFlight, snapshot, n - 1)
      + (if n - 1 in inFlight && Acknowledges(snapshot, n - 1) then [n - 1] else [])
  }

  function Released(s: Sender, sequence: nat): Sender {
    if sequence in s.inFlight then
      s.(inFlight := s.inFlight - {sequence},
         inFlightBytes := SaturatingSub(s.inFlightBytes, |s.inFlight[sequence].encoded|))
    else
      s
  }

  function ReleasedAll(s: Sender, sequences: seq<nat>): Sender
    decreases |sequences|
  {
    if sequences == [] then s else ReleasedAll(Released(s, sequences[0]), sequences[1..])
  }

  /** The in-flight set after an acknowledgement, before the window is refilled. */
  function AfterRelease(s: Sender, ack: Ack): Sender {
    ReleasedAll(s.(peerWindow := ack.receiveWindow), AckedKeys(s.inFlight, Snapshot(ack), s.nextSequence))
  }

  function Acknowledge(cx: Context, s: Sender, ack: Ack): Outcome {
    if ack.direction != cx.direction then
      Outcome(s, Some(DirectionMismatch))
    else if ack.receiveWindow > 64 then
      Outcome(s, Some(InvalidWindow(ack.receiveWindow)))
    else
      Pump(cx, AfterRelease(s, ack))
  }

  predicate Due(f: Retained, nowMs: nat, policy: RetryPolicy) {
    f.lastSentMs.Some? ==>
      SaturatingSub(nowMs, f.lastSentMs.value) >= DelayMs(policy, SaturatingSub(f.attempts, 1))
  }

  function Sent(f: Retained, nowMs: nat): Retained {
    f.(lastSentMs := Some(nowMs), attempts := SaturatingAdd32(f.attempts, 1))
  }

  function DueKeys(inFlight: map<nat, Retained>, nowMs: nat, policy: RetryPolicy, n: nat): seq<nat> {
    if n == 0 then []
    else
      DueKeys(inFlight, nowMs, policy, n - 1)
      + (if n - 1 in inFlight && Due(inFlight[n - 1], nowMs, policy) then [n - 1] else [])
  }

  /** Mark the given frames as sent, one after another, collecting copies. */
  function SentAll(inFlight: map<nat, Retained>, nowMs: nat, sequences: seq<nat>): (map<nat, Retained>, seq<Retained>)
    decreases |sequences|
  {
    if sequences == [] then
      (inFlight, [])
    else
      var k := sequences[0];
      if k in inFlight then
        var f := Sent(inFlight[k], nowMs);
        var (last, out) := SentAll(inFlight[k := f], nowMs, sequences[1..]);
        (last, [f] + out)
      else
        SentAll(inFlight, nowMs, sequences[1..])
  }

  function TakeSendable(s: Sender, nowMs: nat, policy: RetryPolicy): (Sender, seq<Retained>) {
    var (inFlight, out) := SentAll(s.inFlight, nowMs, DueKeys(s.inFlight, nowMs, policy, s.nextSequence));
    (s.(inFlight := inFlight), out)
  }

  function InitialSender(frameLimit: nat, reservedMetadata: nat, windowFrames: nat, maxPendingBytes: nat): Sender {
    Sender(TargetPayload(frameLimit, reservedMetadata), [], Some([]), [], 0, 0, maxPendingBytes, windowFrames,
           windowFrames, 0, map[], false, [])
  }

  /** What `new` insists on. */
  function CheckNew(frameLimit: nat, reservedMetadata: nat, windowFrames: nat, maxPendingBytes: nat): Option<EngineError> {
    if windowFrames == 0 || windowFrames > 64 then
      Some(InvalidWindow(windowFrames))
    else if maxPendingBytes < Min(frameLimit, DEFAULT_FRAME_LIMIT) * windowFrames
              || maxPendingBytes < TargetPayload(frameLimit, reservedMetadata) then
      Some(InvalidPendingBound(maxPendingBytes))
    else
      None
  }

  class OutboundBody {
    const cx: Context
    const batcher: FrameBatcher
    var encoder: StreamEncoder?
    var pending: seq<Item>
    var pendingBytes: nat
    var inFlightBytes: nat
    const maxBufferedBytes: nat
    const localWindow: nat
    var peerWindow: nat
    var nextSequence: u32
    var inFlight: map<nat, Retained>
    var inputFinished: bool
    ghost var log: seq<Item>

    ghost predicate Valid()
      reads this, batcher, encoder
    {
      batcher.Valid() && (encoder != null ==> encoder.Valid())
    }

    ghost function View(): Sender
      reads this, batcher, encoder
    {
      Sender(batcher.targetPayload, batcher.buffer, if encoder == null then None else Some(encoder.written), pending,
             pendingBytes, inFlightBytes, maxBufferedBytes, localWindow, peerWindow, nextSequence, inFlight,
             inputFinished, log)
    }

    constructor Checked(cx: Context, frameLimit: nat, reservedMetadata: nat, windowFrames: nat, maxPendingBytes: nat)
      ensures Valid() && fresh(batcher) && fresh(encoder) && this.cx == cx
      ensures View() == InitialSender(frameLimit, reservedMetadata, windowFrames, maxPendingBytes)
    {
      this.cx := cx;
      batcher := new FrameBatcher(frameLimit, reservedMetadata);
      encoder := new StreamEncoder();
      pending, pendingBytes, inFlightBytes := [], 0, 0;
      maxBufferedBytes, localWindow, peerWindow := maxPendingBytes, windowFrames, windowFrames;
      nextSequence, inFlight, inputFinished, log := 0, map[], false, [];
    }

    static method New(cx: Context, frameLimit: nat, reservedMetadata: nat, windowFrames: nat, maxPendingBytes: nat)
      returns (r: Result<OutboundBody, EngineError>)
      ensures r.Ok? <==> 1 <= windowFrames <= 64 && Min(frameLimit, DEFAULT_FRAME_LIMIT) * windowFrames <= maxPendingBytes
                         && TargetPayload(frameLimit, reservedMetadata) <= maxPendingBytes
      ensures match CheckNew(frameLimit, reservedMetadata, windowFrames, maxPendingBytes)
              case Some(e) => r == Err(e)
              case None => (
                && r.Ok? && fresh(r.value) && fresh(r.value.batcher) && r.value.Valid() && r.value.cx == cx
                && r.value.View() == InitialSender(frameLimit, reservedMetadata, windowFrames, maxPendingBytes))
    {
      if windowFrames == 0 || windowFrames > 64 {
        return Err(InvalidWindow(windowFrames));
      }
      if maxPendingBytes < Min(frameLimit, DEFAULT_FRAME_LIMIT) * windowFrames
        || maxPendingBytes < TargetPayload(frameLimit, reservedMetadata)
      {
        return Err(InvalidPendingBound(maxPendingBytes));
      }
      var body := new OutboundBody.Checked(cx, frameLimit, reservedMetadata, windowFrames, maxPendingBytes);
      return Ok(body);
    }

    method QueueItem(item: Item) returns (e: Option<EngineError>)
      requires Valid()
      modifies this`pending, this`pendingBytes
      ensures Valid() && Outcome(View(), e) == Queue(old(View()), item)
    {
      var actual := pendingBytes + inFlightBytes + RetainedBytes(item);
      if actual > maxBufferedBytes {
        return Some(PendingLimit(actual, maxBufferedBytes));
      }
      pendingBytes := pendingBytes + RetainedBytes(item);
      pending := pending + [item];
      return None;
    }

    method QueueCompressedBytes(compressed: bytes) returns (e: Option<EngineError>)
      requires Valid()
      modifies this`pending, this`pendingBytes, batcher
      ensures Valid() && Outcome(View(), e) == QueueCompressed(old(View()), compressed)
    {
      var left := batcher.Push(compressed);
      while left != []
        invariant Valid()
        invariant QueueAll(View(), left) == QueueCompressed(old(View()), compressed)
        decreases |left|
      {
        var failed := QueueItem(Data(left[0]));
        if failed.Some? {
          return failed;
        }
        left := left[1..];
      }
      return None;
    }

    method FlushBatcher() returns (e: Option<EngineError>)
      requires Valid()
      modifies this`pending, this`pendingBytes, batcher
      ensures Valid() && Outcome(View(), e) == FlushBuffer(old(View()))
    {
      var payload := batcher.Flush();
      match payload {
        case None => return None;
        case Some(bytes) => e := QueueItem(Data(bytes));
      }
    }

    method LaunchFront(encoded: bytes) returns (e: Option<EngineError>)
      requires Valid() && pending != []
      modifies this
      ensures Valid() && encoder == old(encoder) && Outcome(View(), e) == Launch(old(View()), encoded)
    {
      var item, sequence := pending[0], nextSequence;
      var projected := SaturatingSub(pendingBytes + inFlightBytes, RetainedBytes(item)) + |encoded|;
      if projected > maxBufferedBytes {
        return Some(PendingLimit(projected, maxBufferedBytes));
      }
      pending := pending[1..];
      pendingBytes := SaturatingSub(pendingBytes, RetainedBytes(item));
      if nextSequence == U32_MAX {
        return Some(SequenceExhausted);
      }
      nextSequence := nextSequence + 1;
      inFlightBytes := inFlightBytes + |encoded|;
      inFlight := inFlight[sequence := Retained(sequence, encoded, None, 0)];
      log := log + [item];
      return None;
    }

    method PumpFrames() returns (e: Option<EngineError>)
      requires Valid()
      modifies this
      ensures Valid() && encoder == old(encoder) && Outcome(View(), e) == Pump(cx, old(View()))
    {
      while |inFlight| < Min(localWindow, peerWindow) && pending != []
        invariant Valid() && encoder == old(encoder)
        invariant Pump(cx, View()) == Pump(cx, old(View()))
        decreases |pending|
      {
        var frame := EncodeItem(cx, nextSequence, pending[0]);
        if frame.Err? {
          return Some(StreamFailure(WireFailure(frame.error)));
        }
        e := LaunchFront(frame.value);
        if e.Some? {
          return;
        }
      }
      return None;
    }

    method PushBytes(logical: bytes, flush: bool) returns (e: Option<EngineError>)
      requires Valid()
      modifies this, batcher, encoder
      ensures Valid() && encoder == old(encoder) && Outcome(View(), e) == Push(cx, old(View()), logical, flush)
    {
      if inputFinished {
        return Some(AlreadyFinished);
      }
      if |logical| > batcher.targetPayload {
        return Some(InputChunkTooLarge(|logical|, batcher.targetPayload));
      }
      if encoder == null {
        return Some(AlreadyFinished);
      }
      var encoded := encoder.Push(cx, logical, flush);
      if encoded.Err? {
        return Some(StreamFailure(encoded.error));
      }
      e := QueueCompressedBytes(encoded.value);
      if e.Some? {
        return;
      }
      if flush {
        e := FlushBatcher();
        if e.Some? {
          return;
        }
      }
      e := PumpFrames();
    }

    method Finish() returns (e: Option<EngineError>)
      requires Valid()
      modifies this, batcher
      ensures Valid() && (encoder == old(encoder) || encoder == null)
      ensures Outcome(View(), e) == FinishInput(cx, old(View()))
    {
      if inputFinished {
        return None;
      }
      if encoder == null {
        return Some(AlreadyFinished);
      }
      var taken: StreamEncoder := encoder;
      encoder := null;
      var trailing, end := taken.Finish(cx);
      e := QueueCompressedBytes(trailing);
      if e.Some? {
        return;
      }
      e := FlushBatcher();
      if e.Some? {
        return;
      }
      e := QueueItem(End(end));
      if e.Some? {
        return;
      }
      inputFinished := true;
      e := PumpFrames();
    }

    method AdvertisePeerWindow(receiveWindow: nat) returns (e: Option<EngineError>)
      requires Valid()
      modifies this
      ensures Valid() && encoder == old(encoder) && Outcome(View(), e) == SetPeerWindow(cx, old(View()), receiveWindow)
    {
      if receiveWindow > 64 {
        return Some(InvalidWindow(receiveWindow));
      }
      peerWindow := receiveWindow;
      e := PumpFrames();
    }

    method ApplyAck(ack: Ack) returns (r: Result<seq<nat>, EngineError>)
      requires Valid()
      modifies this
      ensures Valid() && encoder == old(encoder)
      ensures View() == Acknowledge(cx, old(View()), ack).state
      ensures r == match Acknowledge(cx, old(View()), ack).error
                   case Some(e) => Err(e)
                   case None => Ok(AckedKeys(old(inFlight), Snapshot(ack), old(nextSequence)))
    {
      if ack.direction != cx.direction {
        return Err(DirectionMismatch);
      }
      if ack.receiveWindow > 64 {
        return Err(InvalidWindow(ack.receiveWindow));
      }
      peerWindow := ack.receiveWindow;
      var acknowledged := AckedKeys(inFlight, Snapshot(ack), nextSequence);
      var left := acknowledged;
      while left != []
        invariant Valid() && encoder == old(encoder)
        invariant ReleasedAll(View(), left) == AfterRelease(old(View()), ack)
        decreases |left|
      {
        ghost var next := Released(View(), left[0]);
        var sequence := left[0];
        if sequence in inFlight {
          inFlightBytes := SaturatingSub(inFlightBytes, |inFlight[sequence].encoded|);
          inFlight := inFlight - {sequence};
        }
        assert View() == next;
        left := left[1..];
      }
      var e := PumpFrames();
      if e.Some? {
        return Err(e.value);
      }
      return Ok(acknowledged);
    }

    method TakeDueFrames(nowMs: nat, policy: RetryPolicy) returns (output: seq<Retained>)
      requires Valid()
      modifies this`inFlight
      ensures Valid() && (View(), output) == TakeSendable(old(View()), nowMs, policy)
    {
      var left := DueKeys(inFlight, nowMs, policy, nextSequence);
      output := [];
      ghost var all := SentAll(inFlight, nowMs, left);
      while left != []
        invariant Valid() && View() == old(View()).(inFlight := inFlight)
        invariant SentAll(inFlight, nowMs, left).0 == all.0
        invariant output + SentAll(inFlight, nowMs, left).1 == all.1
        decreases |left|
      {
        var sequence := left[0];
        if sequence in inFlight {
          var frame := Sent(inFlight[sequence], nowMs);
          ghost var rest := SentAll(inFlight[sequence := frame], nowMs, left[1..]).1;
          assert output + ([frame] + rest) == (output + [frame]) + rest;
          inFlight := inFlight[sequence := frame];
          output := output + [frame];
        }
        left := left[1..];
      }
      assert output + [] == output;
    }
  }
}
