/** A sender and a receiver joined by a network that may lose, duplicate and reorder frames and acknowledgements. */
module Protocol {
  import opened Prelude
  import opened Core
  import opened Stream
  import opened Sender
  import opened SenderInvariant
  import opened SenderFlow
  import opened Receiver
  import opened ReceiverInvariant

  /** `frames` and `acks` hold everything ever sent, so delivering any of them at any time, any number of times or never
      is loss, duplication and reordering. `writes`, `out`, `lost`, `broken` and `clean` are history: what was pushed,
      what was delivered, and whether a call dropped encoded bytes, a decoder failed, or any receive failed. */
  datatype World = World(
    s: Sender,
    r: Receiver,
    frames: set<bytes>,
    acks: seq<Ack>,
    lastAck: Option<nat>,
    writes: seq<Write>,
    out: bytes,
    lost: bool,
    broken: bool,
    clean: bool)

  datatype Action =
    | DoPush(logical: bytes, flush: bool)
    | DoFinish
    | DoSetWindow(receiveWindow: nat)
    | DoDispatch(nowMs: nat, policy: RetryPolicy)
    | DoDeliver(frame: bytes)
    | DoEmitAck
    | DoAck(index: nat)

  /** Only what was sent can be delivered or processed. */
  predicate Possible(w: World, a: Action) {
    match a
    case DoDeliver(f) => f in w.frames
    case DoAck(i) => i < |w.acks|
    case _ => true
  }

  /** A caller that pushes on after a call has lost encoded bytes, or receives on after the decoder has failed. */
  predicate GoesOn(w: World, a: Action) {
    match a
    case DoPush(_, _) => w.lost
    case DoFinish => w.lost
    case DoDeliver(_) => w.broken
    case _ => false
  }

  /** What a caller that heeds both does. */
  predicate Enabled(w: World, a: Action) {
    Possible(w, a) && !GoesOn(w, a)
  }

  function LoadedBy(cx: Context, s: Sender, a: Action): Outcome {
    match a
    case DoPush(logical, flush) => Loaded(cx, s, logical, flush)
    case DoFinish => if s.inputFinished || s.encoder == None then Outcome(s, None) else LoadedEnd(cx, s)
    case _ => Outcome(s, None)
  }

  function SenderAfter(cx: Context, w: World, a: Action): Sender {
    match a
    case DoPush(logical, flush) => Push(cx, w.s, logical, flush).state
    case DoFinish => FinishInput(cx, w.s).state
    case DoSetWindow(n) => SetPeerWindow(cx, w.s, n).state
    case DoDispatch(nowMs, policy) => TakeSendable(w.s, nowMs, policy).0
    case DoAck(i) => if i < |w.acks| then Acknowledge(cx, w.s, w.acks[i]).state else w.s
    case _ => w.s
  }

  /** The bytes of a dispatch. */
  function Encodings(out: seq<Retained>): set<bytes> {
    set f | f in out :: f.encoded
  }

  function SenderStep(cx: Context, w: World, a: Action): World {
    var s := SenderAfter(cx, w, a);
    w.(s := s,
       writes := History(s, w.writes),
       lost := w.lost || Lost(LoadedBy(cx, w.s, a)),
       frames := w.frames + (if a.DoDispatch? then Encodings(TakeSendable(w.s, a.nowMs, a.policy).1) else {}),
       lastAck := if a.DoAck? then Some(a.index) else w.lastAck)
  }

  function ReceiverStep(cx: Context, w: World, f: bytes): World {
    var Received(r, result) := Receive(cx, w.r, f);
    match result
    case Ok(output) =>
      w.(r := r, out := w.out + Concat(output.logicalChunks), acks := w.acks + [output.ack])
    case Err(e) =>
      w.(r := r, broken := w.broken || (e.StreamFailure? && r.decoder.Some?), clean := false)
  }

  /** One step of the source, whatever the caller heeds. */
  function Step(cx: Context, w: World, a: Action): World {
    if !Possible(w, a) then w
    else
      match a
      case DoDeliver(f) => ReceiverStep(cx, w, f)
      case DoEmitAck => w.(acks := w.acks + [AckOf(cx, w.r)])
      case _ => SenderStep(cx, w, a)
  }

  /** One step with a caller that heeds both. */
  function Next(cx: Context, w: World, a: Action): World {
    if GoesOn(w, a) then w else Step(cx, w, a)
  }

  /** The worlds passed through, one more than the actions taken. */
  datatype Run = Run(worlds: seq<World>, actions: seq<Action>)

  ghost predicate IsRun(cx: Context, run: Run, first: World) {
    && |run.worlds| == |run.actions| + 1 && run.worlds[0] == first
    && forall i {:trigger run.actions[i]} | 0 <= i < |run.actions| ::
         run.worlds[i + 1] == Next(cx, run.worlds[i], run.actions[i])
  }

  /** A run of the source with any caller. */
  ghost predicate IsFreeRun(cx: Context, run: Run, first: World) {
    && |run.worlds| == |run.actions| + 1 && run.worlds[0] == first
    && forall i {:trigger run.actions[i]} | 0 <= i < |run.actions| ::
         run.worlds[i + 1] == Step(cx, run.worlds[i], run.actions[i])
  }

  /** Up to action `n` the caller heeds dropped bytes and decoder failures. */
  ghost predicate Heedful(run: Run, n: nat)
    requires n <= |run.actions| < |run.worlds|
  {
    forall i {:trigger run.actions[i]} | 0 <= i < n :: !GoesOn(run.worlds[i], run.actions[i])
  }

  lemma HeededIsRun(cx: Context, run: Run, first: World, n: nat)
    requires IsFreeRun(cx, run, first) && n <= |run.actions| && Heedful(run, n)
    ensures IsRun(cx, Run(run.worlds[..n + 1], run.actions[..n]), first)
  {
    var part := Run(run.worlds[..n + 1], run.actions[..n]);
    forall i | 0 <= i < n
      ensures part.worlds[i + 1] == Next(cx, part.worlds[i], part.actions[i])
    {
      assert part.actions[i] == run.actions[i];
    }
  }

  /** Every sequence of actions is some run's, with a heeding caller and with any caller. */
  lemma {:induction false} EveryScheduleRuns(cx: Context, first: World, actions: seq<Action>, heeding: bool)
    returns (run: Run)
    ensures run.actions == actions && if heeding then IsRun(cx, run, first) else IsFreeRun(cx, run, first)
    decreases |actions|
  {
    if actions == [] {
      run := Run([first], []);
    } else {
      var front, last := actions[..|actions| - 1], actions[|actions| - 1];
      var before := EveryScheduleRuns(cx, first, front, heeding);
      var w := before.worlds[|front|];
      var next := if heeding then Next(cx, w, last) else Step(cx, w, last);
      run := Run(before.worlds + [next], actions);
      forall i | 0 <= i < |actions|
        ensures run.worlds[i + 1]
             == if heeding then Next(cx, run.worlds[i], run.actions[i]) else Step(cx, run.worlds[i], run.actions[i])
      {
        assert i < |front| ==> before.actions[i] == actions[i];
      }
    }
  }

  /** A fresh pair, with the limits each side was constructed with. */
  datatype Limits = Limits(
    frameLimit: nat,
    reservedMetadata: nat,
    windowFrames: nat,
    maxPendingBytes: nat,
    capacity: nat,
    maxOutOfOrderBytes: nat,
    maxLogicalLength: nat)

  function Initial(l: Limits): World {
    World(InitialSender(l.frameLimit, l.reservedMetadata, l.windowFrames, l.maxPendingBytes),
          InitialReceiver(l.capacity, l.maxOutOfOrderBytes, l.maxLogicalLength), {}, [], None, [], [], false, false, true)
  }

  // ---- Safety ----

  /** Every frame on the network is the encoding of a logged item under its own sequence number. */
  ghost predicate FramesHonest(cx: Context, log: seq<Item>, frames: set<bytes>) {
    forall f | f in frames :: exists k :: WireForm(cx, log, k, f)
  }

  ghost predicate ReceiverSafe(cx: Context, w: World) {
    if w.broken then w.out <= Input(w.writes) && !w.r.completed else Safe(cx, w.r, w.s.log, w.writes, w.out)
  }

  ghost predicate Inv(cx: Context, w: World) {
    && SenderOk(cx, w.s) && Flow(cx, w.s, w.writes, w.lost) && |Input(w.writes)| <= U64_MAX
    && FramesHonest(cx, w.s.log, w.frames) && ReceiverSafe(cx, w)
    && (w.r.completed ==> w.s.encoder == None)
  }

  lemma EmittedInWhole(cx: Context, s: Sender, writes: seq<Write>)
    ensures Encoded(cx, s, writes) <= Whole(cx.codec, writes)
  {
  }

  lemma FrontIsData(items: seq<Item>)
    requires items != [] && OnlyData(items[..|items| - 1])
    ensures forall i | 0 <= i < |items| - 1 :: items[i].Data?
  {
    assert forall i | 0 <= i < |items| - 1 :: items[i] == items[..|items| - 1][i];
  }

  lemma LoggedEnd(cx: Context, s: Sender, writes: seq<Write>, k: nat)
    requires EndLast(cx, s, writes) && k < |s.log| && s.log[k].End?
    ensures k == |s.log| - 1 && s.log[k] == End(EndOf(cx, writes)) && Payloads(s.log) == Whole(cx.codec, writes)
  {
    if !OnlyData(s.log) {
      FrontIsData(s.log);
    }
  }

  lemma LogIsHonest(cx: Context, s: Sender, writes: seq<Write>, lost: bool)
    requires Lawful(cx.codec) && SenderOk(cx, s) && Flow(cx, s, writes, lost) && |Input(writes)| <= U64_MAX
    ensures HonestLog(cx, s.log, writes)
  {
    EmittedInWhole(cx, s, writes);
    forall k | 0 <= k < |s.log| && s.log[k].End?
      ensures k == |s.log| - 1 && s.log[k] == End(EndOf(cx, writes)) && Payloads(s.log) == Whole(cx.codec, writes)
    {
      LoggedEnd(cx, s, writes, k);
    }
  }

  lemma InitialInv(cx: Context, l: Limits)
    requires Honest(cx)
    ensures Inv(cx, Initial(l))
  {
    var w := Initial(l);
    InitialOk(cx, l.frameLimit, l.reservedMetadata, l.windowFrames, l.maxPendingBytes);
    InitialFlow(cx, l.frameLimit, l.reservedMetadata, l.windowFrames, l.maxPendingBytes);
    assert Payloads([]) == [];
    assert w.s.log[..0] == [];
  }

  lemma SenderAfterOk(cx: Context, w: World, a: Action)
    requires SenderOk(cx, w.s)
    ensures SenderOk(cx, SenderAfter(cx, w, a)) && Follows(w.s, SenderAfter(cx, w, a))
  {
    match a
    case DoPush(logical, flush) => PushOk(cx, w.s, logical, flush);
    case DoFinish => FinishInputOk(cx, w.s);
    case DoSetWindow(n) => SetPeerWindowOk(cx, w.s, n);
    case DoDispatch(nowMs, policy) => TakeSendableOk(cx, w.s, nowMs, policy);
    case DoAck(i) => if i < |w.acks| { AcknowledgeOk(cx, w.s, w.acks[i]); }
    case _ =>
  }

  /** Changes that leave the log, the waiting items and the encoder alone leave the flow relation alone. */
  lemma FlowUntouched(cx: Context, s: Sender, t: Sender, writes: seq<Write>, lost: bool)
    requires Flow(cx, s, writes, lost)
    requires t == s.(peerWindow := t.peerWindow, inFlight := t.inFlight, inFlightBytes := t.inFlightBytes)
    ensures Flow(cx, t, writes, lost)
  {
  }

  lemma {:induction false} PumpKeepsEncoder(cx: Context, s: Sender)
    ensures Pump(cx, s).state.encoder == s.encoder && Pump(cx, s).state.inputFinished == s.inputFinished
    decreases |s.pending|
  {
    if |s.inFlight| < EffectiveWindow(s) && s.pending != [] {
      var one := PumpOne(cx, s);
      if one.error == None {
        PumpKeepsEncoder(cx, one.state);
      }
    }
  }

  lemma PushFlow(cx: Context, s: Sender, writes: seq<Write>, logical: bytes, flush: bool)
    requires Lawful(cx.codec) && Flow(cx, s, writes, false)
    ensures var t := Push(cx, s, logical, flush).state;
            Flow(cx, t, History(t, writes), Lost(Loaded(cx, s, logical, flush)))
  {
    LoadedFlow(cx, s, writes, logical, flush);
    var o := Loaded(cx, s, logical, flush);
    if o.error == None {
      PumpFlow(cx, o.state, History(o.state, writes), false);
      PumpKeepsEncoder(cx, o.state);
    }
  }

  lemma FinishFlow(cx: Context, s: Sender, writes: seq<Write>)
    requires Flow(cx, s, writes, false) && !s.inputFinished && s.encoder.Some?
    ensures var t := FinishInput(cx, s).state;
            Flow(cx, t, writes, Lost(LoadedEnd(cx, s))) && t.encoder == None
  {
    LoadedEndFlow(cx, s, writes);
    LoadedEndErrors(cx, s);
    var o := LoadedEnd(cx, s);
    if o.error == None {
      PumpFlow(cx, o.state, writes, false);
      PumpKeepsEncoder(cx, o.state);
    }
  }

  lemma RefillFlow(cx: Context, s: Sender, t: Sender, writes: seq<Write>, lost: bool)
    requires Flow(cx, s, writes, lost)
    requires t == s.(peerWindow := t.peerWindow, inFlight := t.inFlight, inFlightBytes := t.inFlightBytes)
    ensures Flow(cx, Pump(cx, t).state, writes, lost) && Pump(cx, t).state.encoder == s.encoder
  {
    FlowUntouched(cx, s, t, writes, lost);
    PumpFlow(cx, t, writes, lost);
    PumpKeepsEncoder(cx, t);
  }

  lemma AckFlow(cx: Context, s: Sender, ack: Ack, writes: seq<Write>, lost: bool)
    requires SenderOk(cx, s) && Flow(cx, s, writes, lost)
    ensures Flow(cx, Acknowledge(cx, s, ack).state, writes, lost)
    ensures Acknowledge(cx, s, ack).state.encoder == s.encoder
  {
    AfterReleaseIs(cx, s, ack);
    RefillFlow(cx, s, AfterRelease(s, ack), writes, lost);
  }

  lemma SetWindowFlow(cx: Context, s: Sender, n: nat, writes: seq<Write>, lost: bool)
    requires Flow(cx, s, writes, lost)
    ensures Flow(cx, SetPeerWindow(cx, s, n).state, writes, lost)
    ensures SetPeerWindow(cx, s, n).state.encoder == s.encoder
  {
    RefillFlow(cx, s, s.(peerWindow := n), writes, lost);
  }

  lemma DispatchFlow(cx: Context, s: Sender, nowMs: nat, policy: RetryPolicy, writes: seq<Write>, lost: bool)
    requires SenderOk(cx, s) && Flow(cx, s, writes, lost)
    ensures Flow(cx, TakeSendable(s, nowMs, policy).0, writes, lost)
    ensures TakeSendable(s, nowMs, policy).0.encoder == s.encoder
  {
    FlowUntouched(cx, s, TakeSendable(s, nowMs, policy).0, writes, lost);
  }

  lemma HistoryIs(cx: Context, s: Sender, t: Sender, writes: seq<Write>, lost: bool)
    requires Flow(cx, s, writes, lost) && t.encoder == s.encoder
    ensures History(t, writes) == writes
  {
  }

  lemma SenderAfterFlow(cx: Context, w: World, a: Action)
    requires Honest(cx) && SenderOk(cx, w.s) && Flow(cx, w.s, w.writes, w.lost) && Enabled(w, a)
    ensures var s := SenderAfter(cx, w, a);
            Flow(cx, s, History(s, w.writes), w.lost || Lost(LoadedBy(cx, w.s, a)))
  {
    match a
    case DoPush(logical, flush) => PushFlow(cx, w.s, w.writes, logical, flush);
    case DoFinish =>
      if w.s.inputFinished || w.s.encoder == None {
        HistoryIs(cx, w.s, w.s, w.writes, w.lost);
      } else {
        FinishFlow(cx, w.s, w.writes);
      }
    case DoSetWindow(n) =>
      SetWindowFlow(cx, w.s, n, w.writes, w.lost);
      HistoryIs(cx, w.s, SenderAfter(cx, w, a), w.writes, w.lost);
    case DoDispatch(nowMs, policy) =>
      DispatchFlow(cx, w.s, nowMs, policy, w.writes, w.lost);
      HistoryIs(cx, w.s, SenderAfter(cx, w, a), w.writes, w.lost);
    case DoAck(i) =>
      AckFlow(cx, w.s, w.acks[i], w.writes, w.lost);
      HistoryIs(cx, w.s, SenderAfter(cx, w, a), w.writes, w.lost);
    case _ =>
      HistoryIs(cx, w.s, w.s, w.writes, w.lost);
  }

  lemma LoadedEndErrors(cx: Context, s: Sender)
    requires s.encoder.Some?
    ensures LoadedEnd(cx, s).error.Some? ==> LoadedEnd(cx, s).error.value.PendingLimit?
    ensures LoadedEnd(cx, s).error.Some? ==> LoadedEnd(cx, s).state.encoder == None
  {
    var trailing := cx.codec.trailing(s.encoder.value);
    QueueCompressedFlow(s.(encoder := None), trailing);
    FlushBufferFlow(QueueCompressed(s.(encoder := None), trailing).state);
  }

  /** What a sender step may do to the history of writes. */
  ghost predicate WritesGrow(s: Sender, t: Sender, writes: seq<Write>) {
    && Input(writes) <= Input(History(t, writes)) && |Input(History(t, writes))| <= U64_MAX
    && (s.encoder == None ==> t.encoder == None)
  }

  lemma PushWrites(cx: Context, s: Sender, writes: seq<Write>, logical: bytes, flush: bool)
    requires History(s, writes) == writes && |Input(writes)| <= U64_MAX
    ensures WritesGrow(s, Push(cx, s, logical, flush).state, writes)
  {
    LoadedWrites(cx, s, logical, flush);
    PumpKeepsEncoder(cx, Loaded(cx, s, logical, flush).state);
  }

  lemma FinishWrites(cx: Context, s: Sender, writes: seq<Write>)
    requires History(s, writes) == writes && |Input(writes)| <= U64_MAX
    ensures WritesGrow(s, FinishInput(cx, s).state, writes)
  {
    if !s.inputFinished && s.encoder.Some? {
      LoadedEndEncoder(cx, s);
      PumpKeepsEncoder(cx, LoadedEnd(cx, s).state);
    }
  }

  lemma AckWritesGrow(cx: Context, s: Sender, ack: Ack, writes: seq<Write>)
    requires SenderOk(cx, s) && History(s, writes) == writes && |Input(writes)| <= U64_MAX
    ensures WritesGrow(s, Acknowledge(cx, s, ack).state, writes)
  {
    AfterReleaseIs(cx, s, ack);
    PumpKeepsEncoder(cx, AfterRelease(s, ack));
  }

  /** The writes only grow, and stay within the length the encoder accepts. */
  lemma SenderAfterWrites(cx: Context, w: World, a: Action)
    requires SenderOk(cx, w.s) && Flow(cx, w.s, w.writes, w.lost) && |Input(w.writes)| <= U64_MAX
    ensures WritesGrow(w.s, SenderAfter(cx, w, a), w.writes)
  {
    HistoryIs(cx, w.s, w.s, w.writes, w.lost);
    match a
    case DoPush(logical, flush) => PushWrites(cx, w.s, w.writes, logical, flush);
    case DoFinish => FinishWrites(cx, w.s, w.writes);
    case DoSetWindow(n) => PumpKeepsEncoder(cx, w.s.(peerWindow := n));
    case DoAck(i) => if i < |w.acks| { AckWritesGrow(cx, w.s, w.acks[i], w.writes); }
    case _ =>
  }

  lemma StepInput(cx: Context, w: World, a: Action)
    requires SenderOk(cx, w.s) && Flow(cx, w.s, w.writes, w.lost) && |Input(w.writes)| <= U64_MAX
    ensures |Input(w.writes)| <= |Input(SenderStep(cx, w, a).writes)|
  {
    SenderAfterWrites(cx, w, a);
  }

  lemma NextWritesAre(cx: Context, w: World, a: Action)
    ensures Next(cx, w, a).writes == w.writes || Next(cx, w, a).writes == SenderStep(cx, w, a).writes
  {
    if Enabled(w, a) {
      match a
      case DoDeliver(f) =>
      case DoEmitAck =>
      case _ => assert Next(cx, w, a) == SenderStep(cx, w, a);
    }
  }

  /** No step shortens what was pushed. */
  lemma NextInput(cx: Context, w: World, a: Action)
    requires SenderOk(cx, w.s) && Flow(cx, w.s, w.writes, w.lost) && |Input(w.writes)| <= U64_MAX
    ensures |Input(w.writes)| <= |Input(Next(cx, w, a).writes)|
  {
    NextWritesAre(cx, w, a);
    StepInput(cx, w, a);
  }

  lemma LoadedEndEncoder(cx: Context, s: Sender)
    requires s.encoder.Some?
    ensures LoadedEnd(cx, s).state.encoder == None
  {
    var trailing := cx.codec.trailing(s.encoder.value);
    QueueCompressedFlow(s.(encoder := None), trailing);
    FlushBufferFlow(QueueCompressed(s.(encoder := None), trailing).state);
  }

  lemma LoadedWrites(cx: Context, s: Sender, logical: bytes, flush: bool)
    ensures var t := Loaded(cx, s, logical, flush).state;
            match s.encoder
            case None => t.encoder == None
            case Some(writes) => (
              && t.encoder.Some? && Input(writes) <= Input(t.encoder.value)
              && (|Input(writes)| <= U64_MAX ==> |Input(t.encoder.value)| <= U64_MAX))
  {
    if !s.inputFinished && |logical| <= s.target && s.encoder.Some? {
      var writes := s.encoder.value;
      assert (writes + [Write(logical, flush)])[..|writes|] == writes;
      var (writes', encoded) := EncoderPush(cx, writes, logical, flush);
      var s' := s.(encoder := Some(writes'));
      if encoded.Ok? {
        QueueCompressedFlow(s', encoded.value);
        FlushBufferFlow(QueueCompressed(s', encoded.value).state);
      }
    }
  }

  lemma FramesStayHonest(cx: Context, log: seq<Item>, log': seq<Item>, frames: set<bytes>)
    requires FramesHonest(cx, log, frames) && log <= log'
    ensures FramesHonest(cx, log', frames)
  {
    forall f | f in frames
      ensures exists k :: WireForm(cx, log', k, f)
    {
      var k :| WireForm(cx, log, k, f);
      assert WireForm(cx, log', k, f);
    }
  }

  lemma DispatchHonest(cx: Context, s: Sender, nowMs: nat, policy: RetryPolicy)
    requires SenderOk(cx, s)
    ensures FramesHonest(cx, s.log, Encodings(TakeSendable(s, nowMs, policy).1))
  {
    TakeSendableOk(cx, s, nowMs, policy);
    var out := TakeSendable(s, nowMs, policy).1;
    forall f | f in Encodings(out)
      ensures exists k :: WireForm(cx, s.log, k, f)
    {
      var g :| g in out && g.encoded == f;
      assert Carried(s.inFlight, g.encoded);
      var k :| k in s.inFlight && s.inFlight[k].encoded == f;
      assert WireForm(cx, s.log, k, f);
    }
  }

  /** The receiver's relation to the log survives the log and the input growing. */
  lemma SafeGrows(cx: Context, r: Receiver, log: seq<Item>, log': seq<Item>, writes: seq<Write>, writes': seq<Write>,
                  out: bytes)
    requires Safe(cx, r, log, writes, out) && log <= log' && |log'| <= U32_MAX
    requires Input(writes) <= Input(writes') && (r.completed ==> writes == writes')
    ensures Safe(cx, r, log', writes', out)
  {
    assert log'[..r.reassembly.next] == log[..r.reassembly.next];
  }

  lemma SenderStepInv(cx: Context, w: World, a: Action)
    requires Honest(cx) && Inv(cx, w) && Enabled(w, a) && !a.DoDeliver? && !a.DoEmitAck?
    ensures Inv(cx, SenderStep(cx, w, a))
  {
    var t := SenderStep(cx, w, a);
    SenderAfterOk(cx, w, a);
    SenderAfterFlow(cx, w, a);
    SenderAfterWrites(cx, w, a);
    FramesStayHonest(cx, w.s.log, t.s.log, w.frames);
    if a.DoDispatch? {
      DispatchHonest(cx, w.s, a.nowMs, a.policy);
      FramesStayHonest(cx, w.s.log, t.s.log, Encodings(TakeSendable(w.s, a.nowMs, a.policy).1));
    }
    if !w.broken {
      SafeGrows(cx, w.r, w.s.log, t.s.log, w.writes, t.writes, w.out);
    }
  }

  /** What a receive amounts to for a frame that decodes to a logged item. */
  function ReceiveItem(cx: Context, r: Receiver, k: nat, item: Item): Received {
    match item
    case Data(payload) => AcceptData(cx, r, k, payload)
    case End(end) => AcceptEnd(cx, r, k, end)
  }

  lemma ReceiveIs(cx: Context, r: Receiver, log: seq<Item>, writes: seq<Write>, k: nat, f: bytes)
    requires Honest(cx) && HonestLog(cx, log, writes) && WireForm(cx, log, k, f)
    ensures Receive(cx, r, f) == ReceiveItem(cx, r, k, log[k])
  {
    DecodeEncodedItem(cx, k, log[k]);
    assert log[k].End? ==> log[k] == End(EndOf(cx, writes));
  }

  lemma ReceiveItemSafe(cx: Context, r: Receiver, log: seq<Item>, writes: seq<Write>, out: bytes, k: nat)
    requires HonestLog(cx, log, writes) && Safe(cx, r, log, writes, out) && k < |log|
    ensures var Received(r', result) := ReceiveItem(cx, r, k, log[k]);
            match result
            case Ok(output) => Safe(cx, r', log, writes, out + Concat(output.logicalChunks))
            case Err(e) => if e.StreamFailure? && r'.decoder.Some? then !r'.completed else Safe(cx, r', log, writes, out)
  {
    assert out + [] == out && out + Concat<u8>([]) == out;
    DeliveredIsPrefix(cx, r, log, writes, out);
    match log[k]
    case Data(payload) =>
      if !r.completed {
        if k in r.window.received {
          RecordedSafe(cx, r, log, writes, out, k);
        } else {
          ReceiveDataSafe(cx, r, log, writes, out, k, payload);
          var p := ReceiveData(cx, r, k, payload);
          if p.error == None {
            TryFinishSafe(cx, p.state, log, writes, out, p.chunks);
          }
        }
      }
    case End(end) =>
      if !r.completed && !(r.pendingEnd.Some? && r.pendingEnd.value != (k, end)) {
        TryFinishSafe(cx, r.(pendingEnd := Some((k, end))), log, writes, out, []);
      }
  }

  lemma DeliverInv(cx: Context, w: World, f: bytes)
    requires Honest(cx) && Inv(cx, w) && Enabled(w, DoDeliver(f))
    ensures Inv(cx, ReceiverStep(cx, w, f))
  {
    LogIsHonest(cx, w.s, w.writes, w.lost);
    var k :| WireForm(cx, w.s.log, k, f);
    ReceiveIs(cx, w.r, w.s.log, w.writes, k, f);
    ReceiveItemSafe(cx, w.r, w.s.log, w.writes, w.out, k);
    DeliveredIsPrefix(cx, w.r, w.s.log, w.writes, w.out);
    CompletionNeedsEnd(cx, w, k);
  }

  /** A receiver completes only on an end record, which the sender logs only after its encoder is finished. */
  lemma CompletionNeedsEnd(cx: Context, w: World, k: nat)
    requires Inv(cx, w) && !w.broken && k < |w.s.log| && HonestLog(cx, w.s.log, w.writes)
    ensures ReceiveItem(cx, w.r, k, w.s.log[k]).state.completed ==> w.s.encoder == None
  {
    var r' := ReceiveItem(cx, w.r, k, w.s.log[k]).state;
    if w.s.encoder.Some? {
      assert OnlyData(w.s.log);
      assert w.r.pendingEnd == None;
    }
  }

  lemma NextInv(cx: Context, w: World, a: Action)
    requires Honest(cx) && Inv(cx, w)
    ensures Inv(cx, Next(cx, w, a))
  {
    if Enabled(w, a) {
      match a
      case DoDeliver(f) => DeliverInv(cx, w, f);
      case DoEmitAck =>
      case _ => SenderStepInv(cx, w, a);
    }
  }

  /** What the first world has and every step passes on, every world of a run has. */
  lemma {:induction false} RunKeeps(cx: Context, run: Run, first: World, n: nat, keeps: (nat, World) -> bool)
    requires IsRun(cx, run, first) && n < |run.worlds| && keeps(0, first)
    requires forall i {:trigger run.actions[i]} | 0 <= i < |run.actions| && keeps(i, run.worlds[i]) ::
               keeps(i + 1, Next(cx, run.worlds[i], run.actions[i]))
    ensures keeps(n, run.worlds[n])
  {
    if n > 0 {
      RunKeeps(cx, run, first, n - 1, keeps);
      assert run.worlds[n] == Next(cx, run.worlds[n - 1], run.actions[n - 1]);
    }
  }

  lemma {:induction false} FreeRunKeeps(cx: Context, run: Run, first: World, n: nat, keeps: (nat, World) -> bool)
    requires IsFreeRun(cx, run, first) && n < |run.worlds| && keeps(0, first)
    requires forall i {:trigger run.actions[i]} | 0 <= i < |run.actions| && keeps(i, run.worlds[i]) ::
               keeps(i + 1, Step(cx, run.worlds[i], run.actions[i]))
    ensures keeps(n, run.worlds[n])
  {
    if n > 0 {
      FreeRunKeeps(cx, run, first, n - 1, keeps);
      assert run.worlds[n] == Step(cx, run.worlds[n - 1], run.actions[n - 1]);
    }
  }

  lemma RunInv(cx: Context, run: Run, first: World, n: nat)
    requires Honest(cx) && IsRun(cx, run, first) && Inv(cx, first) && n < |run.worlds|
    ensures Inv(cx, run.worlds[n])
  {
    var keeps := (i: nat, w: World) => Inv(cx, w);
    forall i | 0 <= i < |run.actions| && keeps(i, run.worlds[i])
      ensures keeps(i + 1, Next(cx, run.worlds[i], run.actions[i]))
    {
      NextInv(cx, run.worlds[i], run.actions[i]);
    }
    RunKeeps(cx, run, first, n, keeps);
  }

  lemma HeededPrefix(cx: Context, l: Limits, run: Run, n: nat)
    requires Honest(cx) && IsRun(cx, run, Initial(l)) && n < |run.worlds|
    ensures var w := run.worlds[n];
            && w.out <= Input(w.writes)
            && (w.r.completed ==> w.out == Input(w.writes) && w.s.encoder == None)
  {
    InitialInv(cx, l);
    RunInv(cx, run, Initial(l), n);
    var w := run.worlds[n];
    LogIsHonest(cx, w.s, w.writes, w.lost);
    if !w.broken {
      DeliveredIsPrefix(cx, w.r, w.s.log, w.writes, w.out);
    }
  }

  /** On every run of the source, with any loss, duplication and reordering of frames and acknowledgements, for as long as
      the caller does not push on after a call that dropped bytes nor receive on after the decoder failed: what was
      delivered is a prefix of what was pushed, and a receiver that reports completion delivered exactly all of it,
      after the sender's input was finished. */
  lemma DeliveredPrefixOfPushed(cx: Context, l: Limits, run: Run, n: nat)
    requires Honest(cx) && IsFreeRun(cx, run, Initial(l)) && n <= |run.actions| && Heedful(run, n)
    ensures var w := run.worlds[n];
            && w.out <= Input(w.writes)
            && (w.r.completed ==> w.out == Input(w.writes) && w.s.encoder == None)
  {
    HeededIsRun(cx, run, Initial(l), n);
    HeededPrefix(cx, l, Run(run.worlds[..n + 1], run.actions[..n]), n);
  }
}
