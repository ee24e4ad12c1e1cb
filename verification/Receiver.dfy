/** The incoming half of a stream: `InboundBody` and its state as a value. */
module Receiver {
  import opened Prelude
  import opened Core
  import opened Stream
  import opened Sender

  datatype Receiver = Receiver(
    decoder: Option<Decoder>,
    window: Window,
    reassembly: Reassembly,
    capacity: nat,
    pendingEnd: Option<(nat, StreamEnd)>,
    completed: bool)

  datatype ReceiveOutput = ReceiveOutput(logicalChunks: seq<bytes>, ack: Ack, completed: bool)

  /** The state after part of a receive, the chunks produced so far, and the error if there was one. */
  datatype Progress = Progress(state: Receiver, chunks: seq<bytes>, error: Option<EngineError>)

  datatype Received = Received(state: Receiver, result: Result<ReceiveOutput, EngineError>)

  function Ones(bits: seq<bool>): nat {
    if bits == [] then 0 else Ones(bits[..|bits| - 1]) + (if bits[|bits| - 1] then 1 else 0)
  }

  function AckOf(cx: Context, r: Receiver): Ack {
    var snapshot := SnapshotOf(r.window);
    FromSnapshot(cx.direction, snapshot, SaturatingSub(r.capacity, Ones(snapshot.selective)))
  }

  function NonEmpty(chunk: bytes): seq<bytes> {
    if chunk == [] then [] else [chunk]
  }

  /** Decompress contiguous chunks in order; an error stops at the failing chunk. */
  function DecodeAll(cx: Context, d: Option<Decoder>, ready: seq<bytes>)
    : (Option<Decoder>, seq<bytes>, Option<EngineError>)
    decreases |ready|
  {
    if ready == [] then
      (d, [], None)
    else if d == None then
      (d, [], Some(AlreadyFinished))
    else
      match DecoderPush(cx, d.value, ready[0])
      case (d', Err(e)) => (Some(d'), [], Some(StreamFailure(e)))
      case (d', Ok(logical)) =>
        var (last, chunks, error) := DecodeAll(cx, Some(d'), ready[1..]);
        (last, NonEmpty(logical) + chunks, error)
  }

  /** The outcome of decoding once `chunks` have already been produced. */
  function After(chunks: seq<bytes>, rest: (Option<Decoder>, seq<bytes>, Option<EngineError>))
    : (Option<Decoder>, seq<bytes>, Option<EngineError>)
  {
    (rest.0, chunks + rest.1, rest.2)
  }

  lemma AfterOne(cx: Context, chunks: seq<bytes>, d: Decoder, left: seq<bytes>)
    requires left != []
    ensures var (d', r) := DecoderPush(cx, d, left[0]);
            After(chunks, DecodeAll(cx, Some(d), left))
            == match r
               case Err(e) => (Some(d'), chunks, Some(StreamFailure(e)))
               case Ok(logical) => After(chunks + NonEmpty(logical), DecodeAll(cx, Some(d'), left[1..]))
  {
    var (d', r) := DecoderPush(cx, d, left[0]);
    if r.Ok? {
      var more := DecodeAll(cx, Some(d'), left[1..]).1;
      assert chunks + (NonEmpty(r.value) + more) == (chunks + NonEmpty(r.value)) + more;
    } else {
      assert chunks + [] == chunks;
    }
  }

  function ReceiveData(cx: Context, r: Receiver, sequence: nat, payload: bytes): Progress {
    var recorded := r.(window := Recorded(r.window, sequence));
    match Reassembled(r.reassembly, sequence, payload)
    case Rejected(actual, limit) => Progress(recorded, [], Some(ReassemblyLimit(actual, limit)))
    case Pushed(reassembly, ready) =>
      var (decoder, chunks, error) := DecodeAll(cx, r.decoder, ready);
      Progress(recorded.(reassembly := reassembly, decoder := decoder), chunks, error)
  }

  predicate DataComplete(w: Window, endSequence: nat) {
    match SnapshotOf(w).cumulative
    case Some(sequence) => sequence < U32_MAX && sequence + 1 == endSequence
    case None => endSequence == 0
  }

  function TryFinish(cx: Context, r: Receiver, chunks: seq<bytes>): Progress {
    match r.pendingEnd
    case None => Progress(r, chunks, None)
    case Some((endSequence, end)) =>
      if !DataComplete(r.window, endSequence) then
        Progress(r, chunks, None)
      else if r.decoder == None then
        Progress(r, chunks, Some(AlreadyFinished))
      else
        match DecoderFinish(cx, r.decoder.value, end)
        case Err(e) => Progress(r.(decoder := None), chunks, Some(StreamFailure(e)))
        case Ok(trailing) =>
          Progress(r.(decoder := None, window := Recorded(r.window, endSequence), completed := true),
                   chunks + NonEmpty(trailing), None)
  }

  function Report(cx: Context, p: Progress): Received {
    match p.error
    case Some(e) => Received(p.state, Err(e))
    case None => Received(p.state, Ok(ReceiveOutput(p.chunks, AckOf(cx, p.state), p.state.completed)))
  }

  function Validate(cx: Context, transactionId: bytes, direction: StreamDirection): Option<EngineError> {
    if transactionId != cx.transactionId then Some(TransactionMismatch)
    else if direction != cx.direction then Some(DirectionMismatch)
    else None
  }

  function ThenFinish(cx: Context, p: Progress): Progress {
    if p.error.Some? then p else TryFinish(cx, p.state, p.chunks)
  }

  function AcceptData(cx: Context, r: Receiver, sequence: nat, payload: bytes): Received {
    if r.completed then
      Report(cx, Progress(r, [], None))
    else if sequence in r.window.received then
      Report(cx, Progress(r.(window := Recorded(r.window, sequence)), [], None))
    else
      Report(cx, ThenFinish(cx, ReceiveData(cx, r, sequence, payload)))
  }

  function AcceptEnd(cx: Context, r: Receiver, sequence: nat, end: StreamEnd): Received {
    if r.completed then
      Report(cx, Progress(r, [], None))
    else if r.pendingEnd.Some? && r.pendingEnd.value != (sequence, end) then
      Received(r, Err(ConflictingEnd))
    else
      Report(cx, TryFinish(cx, r.(pendingEnd := Some((sequence, end))), []))
  }

  function Accept(cx: Context, r: Receiver, frame: DecodedFrame): Received {
    match frame
    case DataFrame(transactionId, direction, sequence, payload) =>
      (match Validate(cx, transactionId, direction)
       case Some(e) => Received(r, Err(e))
       case None => AcceptData(cx, r, sequence, payload))
    case EndFrame(transactionId, sequence, end) =>
      (match Validate(cx, transactionId, end.direction)
       case Some(e) => Received(r, Err(e))
       case None => AcceptEnd(cx, r, sequence, end))
    case _ => Received(r, Err(UnexpectedFrame))
  }

  function Receive(cx: Context, r: Receiver, encoded: bytes): Received {
    match DecodeFrame(cx, encoded)
    case Err(e) => Received(r, Err(StreamFailure(e)))
    case Ok(frame) => Accept(cx, r, frame)
  }

  function InitialReceiver(capacity: nat, maxOutOfOrderBytes: nat, maxLogicalLength: nat): Receiver {
    Receiver(Some(Decoder([], [], 0, maxLogicalLength)), EMPTY_WINDOW, Reassembly(0, map[], 0, maxOutOfOrderBytes),
             capacity, None, false)
  }

  class InboundBody {
    const cx: Context
    var decoder: StreamDecoder?
    const receive: ReceiveWindow
    const reassembler: Reassembler
    const capacity: nat
    var pendingEnd: Option<(nat, StreamEnd)>
    var completed: bool

    ghost function View(): Receiver
      reads this, decoder, receive, reassembler
    {
      Receiver(if decoder == null then None else Some(decoder.View()), receive.View(), reassembler.View(), capacity,
               pendingEnd, completed)
    }

    constructor Checked(cx: Context, capacity: nat, maxOutOfOrderBytes: nat, maxLogicalLength: nat)
      ensures fresh(receive) && fresh(reassembler) && fresh(decoder) && this.cx == cx
      ensures View() == InitialReceiver(capacity, maxOutOfOrderBytes, maxLogicalLength)
    {
      this.cx, this.capacity := cx, capacity;
      decoder := new StreamDecoder(maxLogicalLength);
      receive := new ReceiveWindow();
      reassembler := new Reassembler(maxOutOfOrderBytes);
      pendingEnd, completed := None, false;
    }

    static method New(cx: Context, capacity: nat, maxOutOfOrderBytes: nat, maxLogicalLength: nat)
      returns (r: Result<InboundBody, EngineError>)
      ensures if capacity == 0 || capacity > 64 then r == Err(InvalidWindow(capacity))
              else r.Ok? && fresh(r.value) && r.value.cx == cx
                   && r.value.View() == InitialReceiver(capacity, maxOutOfOrderBytes, maxLogicalLength)
    {
      if capacity == 0 || capacity > 64 {
        return Err(InvalidWindow(capacity));
      }
      var body := new InboundBody.Checked(cx, capacity, maxOutOfOrderBytes, maxLogicalLength);
      return Ok(body);
    }

    method CurrentAck() returns (ack: Ack)
      ensures ack == AckOf(cx, View())
    {
      var snapshot := receive.Snapshot();
      ack := FromSnapshot(cx.direction, snapshot, SaturatingSub(capacity, Ones(snapshot.selective)));
    }

    method DecodeReady(ready: seq<bytes>) returns (chunks: seq<bytes>, e: Option<EngineError>)
      modifies decoder
      ensures View() == old(View()).(decoder := View().decoder)
      ensures var (d, all, error) := DecodeAll(cx, old(View()).decoder, ready);
              View().decoder == d && e == error && (e == None ==> chunks == all)
    {
      chunks := [];
      var left := ready;
      ghost var goal := DecodeAll(cx, View().decoder, ready);
      assert [] + goal.1 == goal.1;
      while left != []
        invariant View() == old(View()).(decoder := View().decoder)
        invariant goal == After(chunks, DecodeAll(cx, View().decoder, left))
        decreases |left|
      {
        if decoder == null {
          return chunks, Some(AlreadyFinished);
        }
        ghost var d := decoder.View();
        var logical := decoder.Push(cx, left[0]);
        AfterOne(cx, chunks, d, left);
        if logical.Err? {
          return chunks, Some(StreamFailure(logical.error));
        }
        chunks := chunks + NonEmpty(logical.value);
        left := left[1..];
      }
      e := None;
    }

    method FinishIfComplete(chunks: seq<bytes>) returns (output: seq<bytes>, e: Option<EngineError>)
      modifies this, decoder, receive
      ensures Progress(View(), output, e) == TryFinish(cx, old(View()), chunks)
      ensures decoder == old(decoder) || decoder == null
    {
      match pendingEnd {
        case None => return chunks, None;
        case Some((endSequence, end)) =>
          var contiguous := receive.Snapshot();
          var dataComplete := match contiguous.cumulative
            case Some(sequence) => sequence < U32_MAX && sequence + 1 == endSequence
            case None => endSequence == 0;
          if !dataComplete {
            return chunks, None;
          }
          if decoder == null {
            return chunks, Some(AlreadyFinished);
          }
          var taken: StreamDecoder := decoder;
          decoder := null;
          var trailing := taken.Finish(cx, end);
          if trailing.Err? {
            return chunks, Some(StreamFailure(trailing.error));
          }
          var _ := receive.Record(endSequence);
          completed := true;
          return chunks + NonEmpty(trailing.value), None;
      }
    }

    method Output(chunks: seq<bytes>) returns (r: Result<ReceiveOutput, EngineError>)
      ensures Received(View(), r) == Report(cx, Progress(View(), chunks, None))
    {
      var ack := CurrentAck();
      return Ok(ReceiveOutput(chunks, ack, completed));
    }

    method AcceptDataFrame(sequence: nat, payload: bytes) returns (r: Result<ReceiveOutput, EngineError>)
      modifies this, decoder, receive, reassembler
      ensures Received(View(), r) == AcceptData(cx, old(View()), sequence, payload)
      ensures decoder == old(decoder) || decoder == null
    {
      if completed {
        r := Output([]);
        return;
      }
      var inserted := receive.Record(sequence);
      if !inserted {
        r := Output([]);
        return;
      }
      var ready := reassembler.Push(sequence, payload);
      if ready.Err? {
        return Err(ReassemblyLimit(ready.error.0, ready.error.1));
      }
      var chunks, failed := DecodeReady(ready.value);
      if failed.Some? {
        return Err(failed.value);
      }
      var output, e := FinishIfComplete(chunks);
      if e.Some? {
        return Err(e.value);
      }
      r := Output(output);
    }

    method AcceptEndFrame(sequence: nat, end: StreamEnd) returns (r: Result<ReceiveOutput, EngineError>)
      modifies this, decoder, receive
      ensures Received(View(), r) == AcceptEnd(cx, old(View()), sequence, end)
      ensures decoder == old(decoder) || decoder == null
    {
      if completed {
        r := Output([]);
        return;
      }
      match pendingEnd {
        case Some(existing) =>
          if existing != (sequence, end) {
            return Err(ConflictingEnd);
          }
        case None =>
          pendingEnd := Some((sequence, end));
      }
      var output, e := FinishIfComplete([]);
      if e.Some? {
        return Err(e.value);
      }
      r := Output(output);
    }

    method ReceiveFrame(encoded: bytes) returns (r: Result<ReceiveOutput, EngineError>)
      modifies this, decoder, receive, reassembler
      ensures Received(View(), r) == Receive(cx, old(View()), encoded)
      ensures decoder == old(decoder) || decoder == null
    {
      var frame := DecodeFrame(cx, encoded);
      if frame.Err? {
        return Err(StreamFailure(frame.error));
      }
      match frame.value {
        case DataFrame(transactionId, direction, sequence, payload) =>
          var mismatch := Validate(cx, transactionId, direction);
          if mismatch.Some? {
            return Err(mismatch.value);
          }
          r := AcceptDataFrame(sequence, payload);
        case EndFrame(transactionId, sequence, end) =>
          var mismatch := Validate(cx, transactionId, end.direction);
          if mismatch.Some? {
            return Err(mismatch.value);
          }
          r := AcceptEndFrame(sequence, end);
        case _ =>
          return Err(UnexpectedFrame);
      }
    }
  }
}
