/** A caller that respects backpressure never exceeds the sender's byte budget. */
module Budget {
  import opened Prelude
  import opened Wire
  import opened Core
  import opened Stream
  import opened Sender
  import opened SenderInvariant
  import opened SenderFlow
  import opened Receiver
  import opened ReceiverInvariant
  import opened Protocol
  import opened Delivery

  function FrameBytes(l: Limits): nat {
    Min(l.frameLimit, DEFAULT_FRAME_LIMIT)
  }

  function EmptyMetadataSize(cx: Context): nat {
    |cx.metadata.pack(EMPTY_METADATA)|
  }

  /** No compression, a frame limit above header and reserve, and a reserve that covers what an end record's estimate and
      the metadata of a data frame need. */
  ghost predicate Spacious(cx: Context, l: Limits) {
    && cx.codec == NO_COMPRESSION
    && CheckNew(l.frameLimit, l.reservedMetadata, l.windowFrames, l.maxPendingBytes) == None
    && FrameBytes(l) > HEADER_LEN + l.reservedMetadata
    && l.reservedMetadata >= 63 + EmptyMetadataSize(cx) && EmptyMetadataSize(cx) <= MAX_METADATA_LEN
  }

  /** And an end frame within the frame limit, for every length a stream can have. */
  ghost predicate Roomy(cx: Context, l: Limits) {
    && Spacious(cx, l)
    && forall writes | |Input(writes)| <= U64_MAX :: Small(cx, End(EndOf(cx, writes)), FrameBytes(l))
  }

  /** Between calls only an end record can be left waiting. */
  ghost predicate Tidy(cx: Context, l: Limits, s: Sender, writes: seq<Write>) {
    && SenderOk(cx, s) && s.target == TargetPayload(l.frameLimit, l.reservedMetadata)
    && s.localWindow == l.windowFrames && s.maxBufferedBytes == l.maxPendingBytes
    && SmallFrames(s, FrameBytes(l))
    && (s.pending == [] || (s.inputFinished && s.pending == [End(EndOf(cx, writes))]))
  }

  ghost predicate Small(cx: Context, item: Item, limit: nat) {
    EncodedSize(cx, item) <= limit && MetadataSize(cx, item) <= MAX_METADATA_LEN
  }

  predicate OverBudget(o: Outcome) {
    o.error.Some? && o.error.value.PendingLimit?
  }

  ghost predicate SmallFrames(s: Sender, limit: nat) {
    forall k | k in s.inFlight :: |s.inFlight[k].encoded| <= limit
  }

  // ---- Arithmetic of the budget ----

  lemma {:induction false} WeightCount(m: map<nat, Retained>, n: nat, limit: nat)
    requires forall k | k in m :: |m[k].encoded| <= limit
    ensures WeightBelow(m, EncodedLength, n) <= CountBelow(m.Keys, n) * limit
  {
    if n > 0 {
      WeightCount(m, n - 1, limit);
      assert (CountBelow(m.Keys, n - 1) + 1) * limit == CountBelow(m.Keys, n - 1) * limit + limit;
    }
  }

  /** The frames in flight weigh no more than their number times the largest, and one more fits the whole window. */
  lemma FlightBytes(cx: Context, s: Sender, window: nat, limit: nat)
    requires Accounted(s) && SmallFrames(s, limit) && |s.inFlight| < window
    ensures s.inFlightBytes + limit <= window * limit
  {
    WeightCount(s.inFlight, s.nextSequence, limit);
    CountIsSize(s.inFlight.Keys, s.nextSequence);
    assert |s.inFlight.Keys| == |s.inFlight|;
    OneMore(|s.inFlight|, window, limit);
  }

  lemma OneMore(n: nat, window: nat, frame: nat)
    requires n < window
    ensures (n + 1) * frame == n * frame + frame && n * frame + frame <= window * frame
  {
    assert (n + 1) * frame <= window * frame;
  }

  /** What the sender keeps to itself: the parameters, and the weight of the frames in flight. */
  ghost predicate Fixed(cx: Context, l: Limits, s: Sender) {
    && SenderOk(cx, s) && s.localWindow == l.windowFrames && s.maxBufferedBytes == l.maxPendingBytes
    && SmallFrames(s, FrameBytes(l))
    && FrameBytes(l) <= DEFAULT_FRAME_LIMIT && l.windowFrames * FrameBytes(l) <= l.maxPendingBytes
  }

  // ---- Launching ----

  lemma LaunchSmall(s: Sender, encoded: bytes, limit: nat)
    requires Accounted(s) && s.pending != [] && SmallFrames(s, limit) && |encoded| <= limit
    requires s.inFlightBytes + PendingTotal(s.pending[1..]) + |encoded| <= s.maxBufferedBytes
    ensures var o := Launch(s, encoded);
            !OverBudget(o) && o.state.pending == s.pending[1..] && SmallFrames(o.state, limit)
            && o.state.inputFinished == s.inputFinished && o.state.peerWindow == s.peerWindow
  {
  }

  /** Launching a small frame into a window with room, when the rest of the queue leaves it enough budget. */
  lemma LaunchWithin(cx: Context, l: Limits, s: Sender)
    requires Fixed(cx, l, s) && s.pending != [] && |s.inFlight| < EffectiveWindow(s)
    requires Small(cx, s.pending[0], FrameBytes(l))
    requires s.inFlightBytes + PendingTotal(s.pending[1..]) + EncodedSize(cx, s.pending[0]) <= s.maxBufferedBytes
    ensures var o := PumpOne(cx, s);
            !OverBudget(o) && o.state.pending == s.pending[1..] && Fixed(cx, l, o.state)
            && o.state.inputFinished == s.inputFinished && o.state.peerWindow == s.peerWindow
  {
    EncodeItemSize(cx, s.nextSequence, s.pending[0]);
    LaunchSmall(s, EncodeItem(cx, s.nextSequence, s.pending[0]).value, FrameBytes(l));
    PumpOneOk(cx, s);
  }

  lemma PumpSingle(cx: Context, l: Limits, s: Sender)
    requires Fixed(cx, l, s) && |s.pending| <= 1 && (s.pending != [] ==> Small(cx, s.pending[0], FrameBytes(l)))
    ensures var o := Pump(cx, s);
            !OverBudget(o) && Fixed(cx, l, o.state) && (o.state.pending == [] || o.state.pending == s.pending)
            && (|s.inFlight| < EffectiveWindow(s) ==> o.state.pending == [])
  {
    if |s.inFlight| < EffectiveWindow(s) && s.pending != [] {
      FlightBytes(cx, s, l.windowFrames, FrameBytes(l));
      assert s.pending[1..] == [];
      LaunchWithin(cx, l, s);
    }
  }

  lemma PumpPair(cx: Context, l: Limits, s: Sender, end: StreamEnd)
    requires Fixed(cx, l, s) && |s.pending| == 2 && s.pending[1] == End(end) && |s.inFlight| < EffectiveWindow(s)
    requires Small(cx, s.pending[0], FrameBytes(l)) && Small(cx, End(end), FrameBytes(l))
    requires s.inFlightBytes + 64 + EncodedSize(cx, s.pending[0]) <= s.maxBufferedBytes
    ensures var o := Pump(cx, s);
            !OverBudget(o) && Fixed(cx, l, o.state) && (o.state.pending == [] || o.state.pending == [End(end)])
  {
    assert s.pending[1..] == [End(end)];
    assert [End(end)][1..] == [];
    assert PendingTotal([End(end)]) == 64;
    LaunchWithin(cx, l, s);
    var one := PumpOne(cx, s);
    if one.error == None {
      PumpSingle(cx, l, one.state);
    }
  }

  // ---- Queueing ----

  lemma BatchesOfShort(data: bytes, target: pos)
    requires |data| < 2 * target
    ensures Batches(data, target) == if |data| < target then ([], data) else ([data[..target]], data[target..])
  {
    if |data| >= target {
      assert Batches(data[target..], target) == ([], data[target..]);
      assert [data[..target]] + [] == [data[..target]];
    }
  }

  lemma UncompressedPush(cx: Context, writes: seq<Write>, input: bytes, flush: bool)
    requires cx.codec == NO_COMPRESSION
    ensures var (writes', r) := EncoderPush(cx, writes, input, flush);
            match r
            case Ok(compressed) => compressed == input && writes' == writes + [Write(input, flush)]
            case Err(e) => e.LogicalLimit? && writes' == writes
  {
    assert (writes + [Write(input, flush)])[..|writes|] == writes;
  }

  lemma TidyIsFixed(cx: Context, l: Limits, s: Sender, writes: seq<Write>)
    requires Spacious(cx, l) && Tidy(cx, l, s, writes)
    ensures Fixed(cx, l, s) && s.target == FrameBytes(l) - HEADER_LEN - l.reservedMetadata
    ensures forall b: bytes | |b| <= s.target :: Small(cx, Data(b), FrameBytes(l))
  {
  }

  /** Queueing at most one payload when nothing waits and the window has room. */
  lemma QueueOne(cx: Context, l: Limits, s: Sender, compressed: bytes)
    requires Fixed(cx, l, s) && s.pending == [] && |s.inFlight| < EffectiveWindow(s)
    requires |compressed| <= s.target <= FrameBytes(l)
    ensures var o := QueueCompressed(s, compressed);
            && o.error == None && |o.state.pending| <= 1
            && (o.state.pending != [] ==> o.state.pending[0].Data? && |o.state.pending[0].payload| == s.target)
            && o.state == s.(buffer := o.state.buffer, pending := o.state.pending, pendingBytes := o.state.pendingBytes)
  {
    var data := s.buffer + compressed;
    BatchesOfShort(data, s.target);
    if |data| >= s.target {
      FlightBytes(cx, s, l.windowFrames, FrameBytes(l));
      var payloads := [data[..s.target]];
      assert payloads[1..] == [];
      var queued := Queue(s.(buffer := data[s.target..]), Data(data[..s.target]));
      assert QueueAll(queued.state, []) == Outcome(queued.state, None);
    }
  }

  // ---- The calls ----

  /** Queueing what one push emitted, and launching it. */
  lemma QueuedTidy(cx: Context, l: Limits, s: Sender, compressed: bytes)
    requires Fixed(cx, l, s) && s.pending == [] && |s.inFlight| < EffectiveWindow(s)
    requires |compressed| <= s.target <= FrameBytes(l)
    requires forall b: bytes | |b| <= s.target :: Small(cx, Data(b), FrameBytes(l))
    ensures var q := QueueCompressed(s, compressed);
            && q.error == None && !OverBudget(Pump(cx, q.state)) && Pump(cx, q.state).state.pending == []
            && Fixed(cx, l, Pump(cx, q.state).state) && Pump(cx, q.state).state.target == s.target
  {
    QueueOne(cx, l, s, compressed);
    QueueCompressedOk(cx, s, compressed);
    var queued := QueueCompressed(s, compressed).state;
    PumpSingle(cx, l, queued);
    PumpOk(cx, queued);
  }

  /** An unflushed push queues what was emitted and refills, or fails before queueing anything. */
  lemma PushIs(cx: Context, s: Sender, logical: bytes)
    requires cx.codec == NO_COMPRESSION && !s.inputFinished && s.encoder.Some?
    ensures var queued := QueueCompressed(s.(encoder := Some(s.encoder.value + [Write(logical, false)])), logical);
            var o := Push(cx, s, logical, false);
            || o == (if queued.error.Some? then queued else Pump(cx, queued.state))
            || (o.state == s && !OverBudget(o))
    ensures |logical| > s.target ==> Push(cx, s, logical, false).state == s && !OverBudget(Push(cx, s, logical, false))
  {
    UncompressedPush(cx, s.encoder.value, logical, false);
  }

  lemma PushTidy(cx: Context, l: Limits, s: Sender, writes: seq<Write>, logical: bytes)
    requires Spacious(cx, l) && Tidy(cx, l, s, writes) && !IsBackpressured(s) && !s.inputFinished && s.encoder.Some?
    ensures var o := Push(cx, s, logical, false);
            !OverBudget(o) && o.state.pending == [] && Fixed(cx, l, o.state) && o.state.target == s.target
  {
    TidyIsFixed(cx, l, s, writes);
    PushIs(cx, s, logical);
    if |logical| <= s.target {
      QueuedTidy(cx, l, s.(encoder := Some(s.encoder.value + [Write(logical, false)])), logical);
    }
  }

  /** Finishing first queues a partial payload, then the end record. */
  lemma QueueTail(s: Sender, end: StreamEnd)
    requires s.pending == [] && s.pendingBytes == 0 && |s.buffer| < s.target
    requires s.inFlightBytes + |s.buffer| + 64 <= s.maxBufferedBytes
    ensures QueueCompressed(s, []) == Outcome(s, None)
    ensures FlushBuffer(s).error == None && Queue(FlushBuffer(s).state, End(end)).error == None
    ensures var t := Queue(FlushBuffer(s).state, End(end)).state;
            && t == s.(buffer := [], pending := t.pending, pendingBytes := t.pendingBytes)
            && t.pending == (if s.buffer == [] then [End(end)] else [Data(s.buffer), End(end)])
  {
    assert s.buffer + [] == s.buffer;
    assert QueueCompressed(s, []) == Outcome(s, None);
  }

  lemma FlushedEnd(cx: Context, l: Limits, s: Sender, writes: seq<Write>)
    requires Spacious(cx, l) && Tidy(cx, l, s, writes) && !IsBackpressured(s) && !s.inputFinished && s.encoder.Some?
    ensures var o := LoadedEnd(cx, s);
            var end := End(EndOf(cx, s.encoder.value));
            && o.error == None && o.state.inFlight == s.inFlight && o.state.inFlightBytes == s.inFlightBytes
            && EffectiveWindow(o.state) == EffectiveWindow(s) && o.state.target == s.target
            && o.state.localWindow == s.localWindow && o.state.maxBufferedBytes == s.maxBufferedBytes
            && o.state.pending == (if s.buffer == [] then [end] else [Data(s.buffer), end])
  {
    TidyIsFixed(cx, l, s, writes);
    FlightBytes(cx, s, l.windowFrames, FrameBytes(l));
    QueueTail(s.(encoder := None), EndOf(cx, s.encoder.value));
  }

  lemma FinishTidy(cx: Context, l: Limits, s: Sender, writes: seq<Write>)
    requires Roomy(cx, l) && Tidy(cx, l, s, writes) && !IsBackpressured(s) && !s.inputFinished && s.encoder.Some?
    requires |Input(s.encoder.value)| <= U64_MAX
    ensures var o := FinishInput(cx, s);
            !OverBudget(o) && Fixed(cx, l, o.state) && o.state.target == s.target
            && (o.state.pending == [] || (o.state.pending == [End(EndOf(cx, s.encoder.value))]))
  {
    TidyIsFixed(cx, l, s, writes);
    FlushedEnd(cx, l, s, writes);
    LoadedEndOk(cx, s);
    var queued := LoadedEnd(cx, s).state;
    FlightBytes(cx, s, l.windowFrames, FrameBytes(l));
    EndIsSmall(cx, l, s.encoder.value);
    if s.buffer == [] {
      PumpSingle(cx, l, queued);
    } else {
      PumpPair(cx, l, queued, EndOf(cx, s.encoder.value));
    }
    PumpOk(cx, queued);
  }

  lemma EndIsSmall(cx: Context, l: Limits, writes: seq<Write>)
    requires Roomy(cx, l) && |Input(writes)| <= U64_MAX
    ensures Small(cx, End(EndOf(cx, writes)), FrameBytes(l))
  {
  }

  lemma RefillTidy(cx: Context, l: Limits, s: Sender, writes: seq<Write>)
    requires Roomy(cx, l) && Tidy(cx, l, s, writes) && |Input(writes)| <= U64_MAX
    ensures !OverBudget(Pump(cx, s)) && Tidy(cx, l, Pump(cx, s).state, writes)
  {
    TidyIsFixed(cx, l, s, writes);
    EndIsSmall(cx, l, writes);
    PumpSingle(cx, l, s);
    PumpOk(cx, s);
    PumpKeepsEncoder(cx, s);
  }

  lemma AckTidy(cx: Context, l: Limits, s: Sender, ack: Ack, writes: seq<Write>)
    requires Roomy(cx, l) && Tidy(cx, l, s, writes) && |Input(writes)| <= U64_MAX
    ensures !OverBudget(Acknowledge(cx, s, ack)) && Tidy(cx, l, Acknowledge(cx, s, ack).state, writes)
  {
    AfterReleaseIs(cx, s, ack);
    RefillTidy(cx, l, AfterRelease(s, ack), writes);
  }

  lemma WiderTidy(cx: Context, l: Limits, s: Sender, n: nat, writes: seq<Write>)
    requires Tidy(cx, l, s, writes)
    ensures Tidy(cx, l, s.(peerWindow := n), writes)
  {
  }

  lemma WindowTidy(cx: Context, l: Limits, s: Sender, n: nat, writes: seq<Write>)
    requires Roomy(cx, l) && Tidy(cx, l, s, writes) && |Input(writes)| <= U64_MAX
    ensures !OverBudget(SetPeerWindow(cx, s, n)) && Tidy(cx, l, SetPeerWindow(cx, s, n).state, writes)
  {
    if n <= 64 {
      WiderTidy(cx, l, s, n, writes);
      RefillTidy(cx, l, s.(peerWindow := n), writes);
    }
  }

  lemma DispatchTidy(cx: Context, l: Limits, s: Sender, nowMs: nat, policy: RetryPolicy, writes: seq<Write>)
    requires Tidy(cx, l, s, writes)
    ensures Tidy(cx, l, TakeSendable(s, nowMs, policy).0, writes)
  {
    TakeSendableOk(cx, s, nowMs, policy);
  }

  lemma PushStep(cx: Context, l: Limits, s: Sender, writes: seq<Write>, logical: bytes, lost: bool)
    requires Spacious(cx, l) && Tidy(cx, l, s, writes) && Flow(cx, s, writes, lost) && !IsBackpressured(s)
    ensures var o := Push(cx, s, logical, false);
            !OverBudget(o) && Tidy(cx, l, o.state, History(o.state, writes))
  {
    if !s.inputFinished && s.encoder.Some? {
      PushTidy(cx, l, s, writes, logical);
    } else {
      HistoryIs(cx, s, s, writes, lost);
    }
  }

  lemma FinishStep(cx: Context, l: Limits, s: Sender, writes: seq<Write>, lost: bool)
    requires Roomy(cx, l) && Tidy(cx, l, s, writes) && Flow(cx, s, writes, lost) && !IsBackpressured(s)
    requires |Input(writes)| <= U64_MAX
    ensures var o := FinishInput(cx, s);
            !OverBudget(o) && Tidy(cx, l, o.state, History(o.state, writes))
  {
    if !s.inputFinished && s.encoder.Some? {
      FinishTidy(cx, l, s, writes);
      FlushedEnd(cx, l, s, writes);
      LoadedEndEncoder(cx, s);
      PumpKeepsEncoder(cx, LoadedEnd(cx, s).state);
    } else {
      HistoryIs(cx, s, s, writes, lost);
    }
  }

  // ---- Runs ----

  /** Pushes without a flush and finishes only while the sender is not backpressured. */
  predicate Considerate(s: Sender, a: Action) {
    match a
    case DoPush(_, flush) => !flush && !IsBackpressured(s)
    case DoFinish => !IsBackpressured(s)
    case _ => true
  }

  ghost predicate IsConsiderateRun(cx: Context, l: Limits, run: Run) {
    && IsRun(cx, run, Initial(l))
    && forall i {:trigger run.actions[i]} | 0 <= i < |run.actions| :: Considerate(run.worlds[i].s, run.actions[i])
  }

  /** The sender call an action makes, with its error. */
  function SenderCall(cx: Context, w: World, a: Action): Outcome {
    match a
    case DoPush(logical, flush) => Push(cx, w.s, logical, flush)
    case DoFinish => FinishInput(cx, w.s)
    case DoSetWindow(n) => SetPeerWindow(cx, w.s, n)
    case DoAck(i) => if i < |w.acks| then Acknowledge(cx, w.s, w.acks[i]) else Outcome(w.s, None)
    case _ => Outcome(SenderAfter(cx, w, a), None)
  }

  lemma CallTidy(cx: Context, l: Limits, w: World, a: Action)
    requires Roomy(cx, l) && Inv(cx, w) && Tidy(cx, l, w.s, w.writes) && Considerate(w.s, a) && Enabled(w, a)
    ensures !OverBudget(SenderCall(cx, w, a)) && Tidy(cx, l, SenderAfter(cx, w, a), History(SenderAfter(cx, w, a), w.writes))
  {
    match a
    case DoPush(logical, flush) => PushStep(cx, l, w.s, w.writes, logical, w.lost);
    case DoFinish => FinishStep(cx, l, w.s, w.writes, w.lost);
    case DoSetWindow(n) =>
      WindowTidy(cx, l, w.s, n, w.writes);
      SetWindowFlow(cx, w.s, n, w.writes, w.lost);
      HistoryIs(cx, w.s, SenderAfter(cx, w, a), w.writes, w.lost);
    case DoDispatch(nowMs, policy) =>
      DispatchTidy(cx, l, w.s, nowMs, policy, w.writes);
      HistoryIs(cx, w.s, SenderAfter(cx, w, a), w.writes, w.lost);
    case DoAck(i) =>
      AckTidy(cx, l, w.s, w.acks[i], w.writes);
      AckFlow(cx, w.s, w.acks[i], w.writes, w.lost);
      HistoryIs(cx, w.s, SenderAfter(cx, w, a), w.writes, w.lost);
    case _ =>
      HistoryIs(cx, w.s, w.s, w.writes, w.lost);
  }

  lemma NextTidy(cx: Context, l: Limits, w: World, a: Action)
    requires Roomy(cx, l) && Inv(cx, w) && Tidy(cx, l, w.s, w.writes) && Considerate(w.s, a)
    ensures Tidy(cx, l, Next(cx, w, a).s, Next(cx, w, a).writes)
  {
    if Enabled(w, a) {
      CallTidy(cx, l, w, a);
    }
  }

  lemma RunTidy(cx: Context, l: Limits, run: Run, n: nat)
    requires Honest(cx) && Roomy(cx, l) && IsConsiderateRun(cx, l, run) && n < |run.worlds|
    ensures Inv(cx, run.worlds[n]) && Tidy(cx, l, run.worlds[n].s, run.worlds[n].writes)
  {
    var keeps := (i: nat, w: World) => Inv(cx, w) && Tidy(cx, l, w.s, w.writes);
    forall i | 0 <= i < |run.actions| && keeps(i, run.worlds[i])
      ensures keeps(i + 1, Next(cx, run.worlds[i], run.actions[i]))
    {
      NextInv(cx, run.worlds[i], run.actions[i]);
      NextTidy(cx, l, run.worlds[i], run.actions[i]);
    }
    InitialInv(cx, l);
    RunKeeps(cx, run, Initial(l), n, keeps);
  }

  /** A caller without compression that pushes unflushed, and finishes, only when not backpressured never meets the byte
      budget: not in that call, and not in any acknowledgement or window change after it. */
  lemma NeverOverBudget(cx: Context, l: Limits, run: Run, n: nat, a: Action)
    requires Honest(cx) && Roomy(cx, l) && IsConsiderateRun(cx, l, run) && n < |run.worlds|
    requires Considerate(run.worlds[n].s, a) && Enabled(run.worlds[n], a)
    ensures !OverBudget(SenderCall(cx, run.worlds[n], a))
  {
    RunTidy(cx, l, run, n);
    CallTidy(cx, l, run.worlds[n], a);
  }

  // ---- The conditions are needed ----

  /** A sender with a window and budget of one frame of `frame` bytes, nothing queued and nothing in flight. */
  ghost predicate OneFrame(cx: Context, s: Sender, frame: nat, reserved: nat) {
    && cx.codec == NO_COMPRESSION && frame <= DEFAULT_FRAME_LIMIT && HEADER_LEN + reserved < frame
    && s.target == TargetPayload(frame, reserved) && s.maxBufferedBytes == frame && s.localWindow == 1 <= s.peerWindow
    && s.pending == [] && s.pendingBytes == 0 && s.inFlight == map[] && s.inFlightBytes == 0
    && !s.inputFinished && s.encoder.Some? && s.nextSequence < U32_MAX && |s.buffer| < s.target
    && EmptyMetadataSize(cx) <= MAX_METADATA_LEN && EmptyMetadataSize(cx) <= reserved
  }

  lemma OneFrameQueued(cx: Context, s: Sender, frame: nat, reserved: nat)
    requires OneFrame(cx, s, frame, reserved) && s.buffer != [] && |s.buffer| + 64 <= frame
    ensures var o := LoadedEnd(cx, s);
            var end := End(EndOf(cx, s.encoder.value));
            && o.error == None
            && o.state == s.(encoder := None, buffer := [], pending := [Data(s.buffer), end],
                             pendingBytes := |s.buffer| + 64, inputFinished := true)
  {
    assert s.buffer + [] == s.buffer;
    assert QueueCompressed(s.(encoder := None), []) == Outcome(s.(encoder := None), None);
    assert [Data(s.buffer)] + [End(EndOf(cx, s.encoder.value))] == [Data(s.buffer), End(EndOf(cx, s.encoder.value))];
  }

  lemma FullWindowStops(cx: Context, s: Sender)
    requires |s.inFlight| >= EffectiveWindow(s)
    ensures Pump(cx, s) == Outcome(s, None)
  {
  }

  lemma LaunchFirst(cx: Context, s: Sender, u: Sender, frame: nat, reserved: nat, end: StreamEnd)
    requires OneFrame(cx, s, frame, reserved) && s.buffer != []
    requires u == s.(encoder := None, buffer := [], pending := [Data(s.buffer), End(end)],
                     pendingBytes := |s.buffer| + 64, inputFinished := true)
    ensures OverBudget(Pump(cx, u)) <==> 64 + HEADER_LEN + EmptyMetadataSize(cx) + |s.buffer| > frame
  {
    EncodeItemSize(cx, u.nextSequence, u.pending[0]);
    var one := PumpOne(cx, u);
    if one.error == None {
      FullWindowStops(cx, one.state);
    }
  }

  /** The reserve is exactly what finishing with a nearly full buffer needs. */
  lemma ReserveIsExact(cx: Context, s: Sender, frame: nat, reserved: nat)
    requires OneFrame(cx, s, frame, reserved) && |s.buffer| == s.target - 1 && s.buffer != []
    ensures !IsBackpressured(s)
    ensures OverBudget(FinishInput(cx, s)) <==> reserved < 63 + EmptyMetadataSize(cx)
  {
    if |s.buffer| + 64 <= frame {
      OneFrameQueued(cx, s, frame, reserved);
      LaunchFirst(cx, s, LoadedEnd(cx, s).state, frame, reserved, EndOf(cx, s.encoder.value));
    } else {
      assert s.buffer + [] == s.buffer;
      assert QueueCompressed(s.(encoder := None), []) == Outcome(s.(encoder := None), None);
    }
  }

  /** A flushed push can exceed the budget of a sender that is not backpressured: it may queue two payloads at once. */
  lemma FlushedPushCanFail(cx: Context, s: Sender, frame: nat, reserved: nat, logical: bytes)
    requires OneFrame(cx, s, frame, reserved) && |logical| <= s.target
    requires |Input(s.encoder.value)| + |logical| <= U64_MAX
    requires s.target < |s.buffer| + |logical|
    ensures !IsBackpressured(s)
    ensures OverBudget(Loaded(cx, s, logical, true)) <==> |s.buffer| + |logical| > frame
  {
    UncompressedPush(cx, s.encoder.value, logical, true);
    var data := s.buffer + logical;
    BatchesOfShort(data, s.target);
    var s' := s.(encoder := Some(EncoderPush(cx, s.encoder.value, logical, true).0), buffer := data[s.target..]);
    assert [data[..s.target]][1..] == [];
    assert QueueAll(s', [data[..s.target]]) == Queue(s', Data(data[..s.target]));
  }
}
