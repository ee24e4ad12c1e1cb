/** Nothing is lost: what the sender lets go of, the receiver has. */
module Delivery {
  import opened Prelude
  import opened Core
  import opened Stream
  import opened Sender
  import opened SenderInvariant
  import opened SenderFlow
  import opened Receiver
  import opened ReceiverInvariant
  import opened Coupling
  import opened Protocol

  /** The acknowledgement claims nothing the receiver has not recorded. */
  ghost predicate AckHonest(cx: Context, ack: Ack, w: Window) {
    ack.direction == cx.direction && forall k | 0 <= k < U32_MAX && Acknowledges(Snapshot(ack), k) :: Seen(w, k)
  }

  ghost predicate AcksHonest(cx: Context, acks: seq<Ack>, w: Window) {
    forall i | 0 <= i < |acks| :: AckHonest(cx, acks[i], w)
  }

  /** Every sequence number handed out is still kept by the sender or recorded by the receiver. */
  ghost predicate NoneMissing(s: Sender, w: Window) {
    forall k | 0 <= k < |s.log| :: k in s.inFlight || Seen(w, k)
  }

  ghost predicate SeenGrows(w: Window, w': Window) {
    forall k :: Seen(w, k) ==> Seen(w', k)
  }

  /** Unless a payload was refused for lack of room: the two cursors agree until completion. */
  ghost predicate Paired(r: Receiver) {
    r.completed || SameSequences(r.window, r.reassembly)
  }

  /** What the receiver has recorded and holds, against the log. */
  ghost predicate Recorder(r: Receiver, log: seq<Item>) {
    && WindowOk(r.window) && (forall k | k in r.window.received :: k < |log|) && r.window.next <= |log|
    && ReassemblyOf(r.reassembly, log) && (r.pendingEnd.Some? ==> r.pendingEnd.value.0 < |log|)
  }

  /** What every step of the source keeps, whatever its callers do. */
  ghost predicate Secured(cx: Context, w: World) {
    && SenderOk(cx, w.s) && FramesHonest(cx, w.s.log, w.frames) && NoneMissing(w.s, w.r.window)
    && AcksHonest(cx, w.acks, w.r.window) && Recorder(w.r, w.s.log) && (w.clean ==> !w.broken && Paired(w.r))
  }

  /** And with callers that heed drops and decoder failures. */
  ghost predicate Kept(cx: Context, w: World) {
    Inv(cx, w) && Secured(cx, w) && (w.clean ==> Coupled(w.r))
  }

  lemma FreshAckHonest(cx: Context, r: Receiver)
    requires WindowOk(r.window)
    ensures AckHonest(cx, AckOf(cx, r), r.window)
  {
    forall k | 0 <= k < U32_MAX && Acknowledges(Snapshot(AckOf(cx, r)), k)
      ensures Seen(r.window, k)
    {
      AckIsExact(r.window, k);
    }
  }

  lemma AcksStayHonest(cx: Context, acks: seq<Ack>, w: Window, w': Window)
    requires AcksHonest(cx, acks, w) && SeenGrows(w, w')
    ensures AcksHonest(cx, acks, w')
  {
    forall i | 0 <= i < |acks|
      ensures AckHonest(cx, acks[i], w')
    {
      assert AckHonest(cx, acks[i], w);
    }
  }

  // ---- The sender's side ----

  lemma LaunchKeeps(s: Sender, encoded: bytes, w: Window)
    requires s.pending != [] && |s.log| == s.nextSequence && NoneMissing(s, w)
    ensures NoneMissing(Launch(s, encoded).state, w)
  {
  }

  /** Refilling the window puts every newly numbered frame in flight and drops none. */
  lemma {:induction false} PumpKeeps(cx: Context, s: Sender, w: Window)
    requires SenderOk(cx, s) && NoneMissing(s, w)
    ensures NoneMissing(Pump(cx, s).state, w)
    decreases |s.pending|
  {
    if |s.inFlight| < EffectiveWindow(s) && s.pending != [] {
      PumpOneOk(cx, s);
      var frame := EncodeItem(cx, s.nextSequence, s.pending[0]);
      if frame.Ok? {
        LaunchKeeps(s, frame.value, w);
        if Launch(s, frame.value).error == None {
          PumpKeeps(cx, Launch(s, frame.value).state, w);
        }
      }
    }
  }

  /** Loading input touches neither the log nor the frames in flight. */
  lemma LoadedKeeps(cx: Context, s: Sender, a: Action)
    ensures var t := LoadedBy(cx, s, a).state;
            t.log == s.log && t.inFlight == s.inFlight && t.peerWindow == s.peerWindow && t.nextSequence == s.nextSequence
            && t.localWindow == s.localWindow
  {
    match a
    case DoPush(logical, flush) =>
      if !s.inputFinished && |logical| <= s.target && s.encoder.Some? {
        var (writes, encoded) := EncoderPush(cx, s.encoder.value, logical, flush);
        var s' := s.(encoder := Some(writes));
        if encoded.Ok? {
          QueueCompressedFlow(s', encoded.value);
          FlushBufferFlow(QueueCompressed(s', encoded.value).state);
        }
      }
    case DoFinish =>
      if s.encoder.Some? {
        var s', trailing := s.(encoder := None), cx.codec.trailing(s.encoder.value);
        QueueCompressedFlow(s', trailing);
        FlushBufferFlow(QueueCompressed(s', trailing).state);
      }
    case _ =>
  }

  lemma AckKeeps(cx: Context, s: Sender, ack: Ack, w: Window)
    requires SenderOk(cx, s) && NoneMissing(s, w) && AckHonest(cx, ack, w)
    ensures NoneMissing(Acknowledge(cx, s, ack).state, w)
  {
    AfterReleaseIs(cx, s, ack);
    var t := AfterRelease(s, ack);
    assert NoneMissing(t, w);
    PumpKeeps(cx, t, w);
  }

  lemma LoadKeeps(cx: Context, s: Sender, a: Action, w: Window)
    requires SenderOk(cx, s) && NoneMissing(s, w) && SenderOk(cx, LoadedBy(cx, s, a).state)
    ensures NoneMissing(LoadedBy(cx, s, a).state, w)
    ensures NoneMissing(Pump(cx, LoadedBy(cx, s, a).state).state, w)
  {
    LoadedKeeps(cx, s, a);
    PumpKeeps(cx, LoadedBy(cx, s, a).state, w);
  }

  lemma DispatchKeeps(cx: Context, s: Sender, nowMs: nat, policy: RetryPolicy, w: Window)
    requires SenderOk(cx, s) && NoneMissing(s, w)
    ensures NoneMissing(TakeSendable(s, nowMs, policy).0, w)
  {
    TakeSendableOk(cx, s, nowMs, policy);
  }

  lemma SenderAfterKeeps(cx: Context, w: World, a: Action)
    requires SenderOk(cx, w.s) && NoneMissing(w.s, w.r.window) && AcksHonest(cx, w.acks, w.r.window)
    ensures NoneMissing(SenderAfter(cx, w, a), w.r.window)
  {
    match a
    case DoPush(logical, flush) =>
      LoadedOk(cx, w.s, logical, flush);
      LoadKeeps(cx, w.s, a, w.r.window);
    case DoFinish =>
      if !w.s.inputFinished && w.s.encoder.Some? {
        LoadedEndOk(cx, w.s);
        LoadKeeps(cx, w.s, a, w.r.window);
      }
    case DoSetWindow(n) => PumpKeeps(cx, w.s.(peerWindow := n), w.r.window);
    case DoDispatch(nowMs, policy) => DispatchKeeps(cx, w.s, nowMs, policy, w.r.window);
    case DoAck(i) =>
      if i < |w.acks| {
        AckKeeps(cx, w.s, w.acks[i], w.r.window);
      }
    case _ =>
  }

  // ---- The receiver's side ----

  /** A receive never forgets a recorded sequence, whether or not it fails. */
  ghost predicate WindowMoves(w: Window, w': Window, bound: nat) {
    && WindowOk(w') && SeenGrows(w, w') && (w.next <= bound ==> w'.next <= bound)
    && forall k | k in w'.received :: k in w.received || k < bound
  }

  lemma RecordedMoves(w: Window, k: nat, bound: nat)
    requires WindowOk(w) && k < bound <= U32_MAX
    requires forall j | j in w.received :: j < bound
    ensures WindowMoves(w, Recorded(w, k), bound)
  {
    RecordedSeen(w, k);
    var w' := Recorded(w, k);
    assert w'.next > 0 ==> Seen(w', w'.next - 1);
  }

  lemma TryFinishMoves(cx: Context, r: Receiver, chunks: seq<bytes>, bound: nat)
    requires WindowOk(r.window) && bound <= U32_MAX && forall j | j in r.window.received :: j < bound
    requires r.pendingEnd.Some? ==> r.pendingEnd.value.0 < bound
    ensures WindowMoves(r.window, TryFinish(cx, r, chunks).state.window, bound)
  {
    if r.pendingEnd.Some? {
      RecordedMoves(r.window, r.pendingEnd.value.0, bound);
    }
  }

  lemma ReceiveItemMoves(cx: Context, r: Receiver, k: nat, item: Item, bound: nat)
    requires WindowOk(r.window) && k < bound <= U32_MAX && forall j | j in r.window.received :: j < bound
    requires r.pendingEnd.Some? ==> r.pendingEnd.value.0 < bound
    ensures WindowMoves(r.window, ReceiveItem(cx, r, k, item).state.window, bound)
  {
    match item
    case Data(payload) =>
      RecordedMoves(r.window, k, bound);
      var p := ReceiveData(cx, r, k, payload);
      TryFinishMoves(cx, p.state, p.chunks, bound);
    case End(end) =>
      TryFinishMoves(cx, r.(pendingEnd := Some((k, end))), [], bound);
  }

  // ---- The two views of what has arrived ----

  predicate OverReassembly(result: Result<ReceiveOutput, EngineError>) {
    result.Err? && result.error.ReassemblyLimit?
  }

  lemma FinishPaired(cx: Context, r: Receiver, chunks: seq<bytes>)
    requires SameSequences(r.window, r.reassembly)
    ensures var p := TryFinish(cx, r, chunks); Paired(p.state) && (p.error.Some? ==> !p.error.value.ReassemblyLimit?)
  {
  }

  lemma {:induction false} DecodeAllErrors(cx: Context, d: Option<Decoder>, ready: seq<bytes>)
    ensures var error := DecodeAll(cx, d, ready).2; error.Some? ==> !error.value.ReassemblyLimit?
    decreases |ready|
  {
    if ready != [] && d.Some? {
      var (d', r) := DecoderPush(cx, d.value, ready[0]);
      if r.Ok? {
        DecodeAllErrors(cx, Some(d'), ready[1..]);
      }
    }
  }

  lemma NewDataPaired(cx: Context, r: Receiver, log: seq<Item>, k: nat, payload: bytes)
    requires WindowOk(r.window) && ReassemblyOf(r.reassembly, log) && k < |log| && log[k] == Data(payload)
    requires SameSequences(r.window, r.reassembly) && r.window.next <= k && k !in r.window.received
    requires Reassembled(r.reassembly, k, payload).Pushed?
    ensures var p := ReceiveData(cx, r, k, payload);
            SameSequences(p.state.window, p.state.reassembly) && (p.error.Some? ==> !p.error.value.ReassemblyLimit?)
  {
    BothAdvance(r.window, r.reassembly, log, k, payload);
    DecodeAllErrors(cx, r.decoder, Drained(Inserted(r.reassembly, k, payload)).1);
  }

  lemma LateDataPaired(cx: Context, r: Receiver, k: nat, payload: bytes)
    requires WindowOk(r.window) && SameSequences(r.window, r.reassembly) && k < r.window.next
    ensures var p := ReceiveData(cx, r, k, payload);
            SameSequences(p.state.window, p.state.reassembly) && (p.error.Some? ==> !p.error.value.ReassemblyLimit?)
  {
    RecordedBelow(r.window, k);
  }

  /** Only a payload that is refused for lack of room sets the two views apart, whatever becomes of the decoder. */
  lemma ItemPaired(cx: Context, r: Receiver, log: seq<Item>, k: nat)
    requires WindowOk(r.window) && ReassemblyOf(r.reassembly, log) && Paired(r) && k < |log|
    ensures var Received(r', result) := ReceiveItem(cx, r, k, log[k]);
            if OverReassembly(result) then
              && log[k].Data? && r.window.next <= k && k !in r.window.received && !r.completed
              && Reassembled(r.reassembly, k, log[k].payload).Rejected?
            else
              Paired(r')
  {
    if !r.completed {
      match log[k]
      case End(end) => FinishPaired(cx, r.(pendingEnd := Some((k, end))), []);
      case Data(payload) =>
        if k in r.window.received {
          HeldDuplicateIsSilent(cx, r, k, payload);
        } else if k < r.window.next {
          LateDataPaired(cx, r, k, payload);
          var p := ReceiveData(cx, r, k, payload);
          FinishPaired(cx, p.state, p.chunks);
        } else if Reassembled(r.reassembly, k, payload).Pushed? {
          NewDataPaired(cx, r, log, k, payload);
          var p := ReceiveData(cx, r, k, payload);
          FinishPaired(cx, p.state, p.chunks);
        }
    }
  }

  lemma ReassembledOf(r: Reassembly, log: seq<Item>, k: nat, payload: bytes)
    requires ReassemblyOf(r, log) && k < |log| && log[k] == Data(payload)
    ensures Reassembled(r, k, payload).Pushed? ==> ReassemblyOf(Reassembled(r, k, payload).state, log)
  {
    if r.next <= k {
      InsertedOf(r, log, k, payload);
      DrainedIs(Inserted(r, k, payload), log);
    }
  }

  /** The reassembler stays a part of the log, and the end record a logged one. */
  lemma ItemReassembly(cx: Context, r: Receiver, log: seq<Item>, k: nat)
    requires ReassemblyOf(r.reassembly, log) && k < |log|
    ensures var r' := ReceiveItem(cx, r, k, log[k]).state;
            ReassemblyOf(r'.reassembly, log) && (r'.pendingEnd == r.pendingEnd || r'.pendingEnd.value.0 == k)
  {
    if log[k].Data? {
      ReassembledOf(r.reassembly, log, k, log[k].payload);
    }
  }

  // ---- Steps ----

  /** A frame that encodes a logged item is received as that item, or refused for its direction. */
  lemma ReceiveWire(cx: Context, r: Receiver, log: seq<Item>, k: nat, f: bytes)
    requires Honest(cx) && WireForm(cx, log, k, f)
    ensures Receive(cx, r, f) == ReceiveItem(cx, r, k, log[k])
         || Receive(cx, r, f) == Received(r, Err(DirectionMismatch))
  {
    DecodeEncodedItem(cx, k, log[k]);
  }

  lemma ItemRecorder(cx: Context, r: Receiver, log: seq<Item>, k: nat)
    requires Recorder(r, log) && k < |log|
    ensures var r' := ReceiveItem(cx, r, k, log[k]).state;
            Recorder(r', log) && WindowMoves(r.window, r'.window, |log|)
  {
    ReceiveItemMoves(cx, r, k, log[k], |log|);
    ItemReassembly(cx, r, log, k);
  }

  /** What delivering the wire form of a logged item does to the receiver. */
  lemma DeliverMoves(cx: Context, w: World, k: nat, f: bytes)
    requires Honest(cx) && Secured(cx, w) && WireForm(cx, w.s.log, k, f)
    ensures var Received(r', result) := Receive(cx, w.r, f);
            && Recorder(r', w.s.log) && WindowMoves(w.r.window, r'.window, |w.s.log|)
            && (result.Ok? ==> result.value.ack == AckOf(cx, r') && (Paired(w.r) ==> Paired(r')))
  {
    ReceiveWire(cx, w.r, w.s.log, k, f);
    ItemRecorder(cx, w.r, w.s.log, k);
    ReceivedAck(cx, w.r, k, w.s.log[k]);
    if Paired(w.r) {
      ItemPaired(cx, w.r, w.s.log, k);
    }
  }

  lemma DeliverCoupled(cx: Context, w: World, k: nat, f: bytes)
    requires Honest(cx) && Kept(cx, w) && w.clean && WireForm(cx, w.s.log, k, f)
    ensures var Received(r', result) := Receive(cx, w.r, f);
            match result
            case Ok(_) => Coupled(r')
            case Err(e) => OnlyLimits(w.r, w.s.log[k], w.writes, e)
  {
    LogIsHonest(cx, w.s, w.writes, w.lost);
    ReceiveIs(cx, w.r, w.s.log, w.writes, k, f);
    ItemCoupled(cx, w.r, w.s.log, w.writes, w.out, k);
  }

  lemma NoneMissingMoves(s: Sender, w: Window, w': Window)
    requires NoneMissing(s, w) && SeenGrows(w, w')
    ensures NoneMissing(s, w')
  {
  }

  lemma AcksSnoc(cx: Context, acks: seq<Ack>, ack: Ack, w: Window)
    requires AcksHonest(cx, acks, w) && AckHonest(cx, ack, w)
    ensures AcksHonest(cx, acks + [ack], w)
  {
  }

  /** A receive that fails is no longer clean. */
  lemma ReceiverStepIs(cx: Context, w: World, f: bytes)
    ensures var Received(r', result) := Receive(cx, w.r, f);
            var t := ReceiverStep(cx, w, f);
            && t.s == w.s && t.frames == w.frames && t.r == r' && t.clean == (w.clean && result.Ok?)
            && (t.clean ==> t.broken == w.broken)
            && t.acks == if result.Ok? then w.acks + [result.value.ack] else w.acks
  {
  }

  lemma DeliverSecured(cx: Context, w: World, f: bytes)
    requires Honest(cx) && Secured(cx, w) && f in w.frames
    ensures Secured(cx, ReceiverStep(cx, w, f))
  {
    var k :| WireForm(cx, w.s.log, k, f);
    DeliverMoves(cx, w, k, f);
    var r' := Receive(cx, w.r, f).state;
    NoneMissingMoves(w.s, w.r.window, r'.window);
    AcksStayHonest(cx, w.acks, w.r.window, r'.window);
    FreshAckHonest(cx, r');
    AcksSnoc(cx, w.acks, AckOf(cx, r'), r'.window);
    ReceiverStepIs(cx, w, f);
  }

  /** The receiver's side survives the log growing. */
  lemma RecorderGrows(r: Receiver, log: seq<Item>, log': seq<Item>)
    requires Recorder(r, log) && log <= log' && |log'| <= U32_MAX
    ensures Recorder(r, log')
  {
    assert log'[..r.reassembly.next] == log[..r.reassembly.next];
  }

  lemma SenderStepFrames(cx: Context, w: World, a: Action)
    requires SenderOk(cx, w.s) && FramesHonest(cx, w.s.log, w.frames)
    ensures FramesHonest(cx, SenderStep(cx, w, a).s.log, SenderStep(cx, w, a).frames)
  {
    var t := SenderStep(cx, w, a);
    SenderAfterOk(cx, w, a);
    FramesStayHonest(cx, w.s.log, t.s.log, w.frames);
    if a.DoDispatch? {
      DispatchHonest(cx, w.s, a.nowMs, a.policy);
      FramesStayHonest(cx, w.s.log, t.s.log, Encodings(TakeSendable(w.s, a.nowMs, a.policy).1));
    }
  }

  lemma SenderStepSecured(cx: Context, w: World, a: Action)
    requires Secured(cx, w) && !a.DoDeliver? && !a.DoEmitAck?
    ensures Secured(cx, SenderStep(cx, w, a))
  {
    SenderAfterOk(cx, w, a);
    SenderAfterKeeps(cx, w, a);
    SenderStepFrames(cx, w, a);
    RecorderGrows(w.r, w.s.log, SenderAfter(cx, w, a).log);
  }

  lemma EmitAckSecured(cx: Context, w: World)
    requires Secured(cx, w)
    ensures Secured(cx, w.(acks := w.acks + [AckOf(cx, w.r)]))
  {
    FreshAckHonest(cx, w.r);
    AcksSnoc(cx, w.acks, AckOf(cx, w.r), w.r.window);
  }

  /** Every step of the source keeps it, whatever its callers do. */
  lemma StepSecured(cx: Context, w: World, a: Action)
    requires Honest(cx) && Secured(cx, w)
    ensures Secured(cx, Step(cx, w, a))
  {
    if Possible(w, a) {
      match a
      case DoDeliver(f) => DeliverSecured(cx, w, f);
      case DoEmitAck => EmitAckSecured(cx, w);
      case _ => SenderStepSecured(cx, w, a);
    }
  }

  lemma DeliverKept(cx: Context, w: World, f: bytes)
    requires Honest(cx) && Kept(cx, w) && Enabled(w, DoDeliver(f))
    ensures Kept(cx, ReceiverStep(cx, w, f))
  {
    DeliverInv(cx, w, f);
    DeliverSecured(cx, w, f);
    ReceiverStepIs(cx, w, f);
    if w.clean {
      var k: nat :| WireForm(cx, w.s.log, k, f);
      DeliverCoupled(cx, w, k, f);
    }
  }

  /** A successful receive reports the acknowledgement of the state it leaves. */
  lemma ReceivedAck(cx: Context, r: Receiver, k: nat, item: Item)
    ensures var Received(r', result) := ReceiveItem(cx, r, k, item); result.Ok? ==> result.value.ack == AckOf(cx, r')
  {
  }

  lemma ItemCoupled(cx: Context, r: Receiver, log: seq<Item>, writes: seq<Write>, out: bytes, k: nat)
    requires HonestLog(cx, log, writes) && Safe(cx, r, log, writes, out) && Coupled(r) && k < |log|
    ensures var Received(r', result) := ReceiveItem(cx, r, k, log[k]);
            match result
            case Ok(_) => Coupled(r')
            case Err(e) => OnlyLimits(r, log[k], writes, e)
  {
    match log[k]
    case Data(payload) => DataCoupled(cx, r, log, writes, out, k, payload);
    case End(end) => EndCoupled(cx, r, log, writes, out, k, end);
  }

  lemma SenderStepKept(cx: Context, w: World, a: Action)
    requires Honest(cx) && Kept(cx, w) && Enabled(w, a) && !a.DoDeliver? && !a.DoEmitAck?
    ensures Kept(cx, SenderStep(cx, w, a))
  {
    SenderStepInv(cx, w, a);
    SenderStepSecured(cx, w, a);
  }

  lemma EmitAckKept(cx: Context, w: World)
    requires Kept(cx, w)
    ensures Kept(cx, w.(acks := w.acks + [AckOf(cx, w.r)]))
  {
    EmitAckSecured(cx, w);
  }

  lemma NextKept(cx: Context, w: World, a: Action)
    requires Honest(cx) && Kept(cx, w)
    ensures Kept(cx, Next(cx, w, a))
  {
    if Enabled(w, a) {
      match a
      case DoDeliver(f) => DeliverKept(cx, w, f);
      case DoEmitAck => EmitAckKept(cx, w);
      case _ => SenderStepKept(cx, w, a);
    }
  }

  // ---- Runs ----

  lemma InitialSecured(cx: Context, l: Limits)
    ensures Secured(cx, Initial(l))
  {
    InitialOk(cx, l.frameLimit, l.reservedMetadata, l.windowFrames, l.maxPendingBytes);
  }

  lemma InitialKept(cx: Context, l: Limits)
    requires Honest(cx)
    ensures Kept(cx, Initial(l))
  {
    InitialInv(cx, l);
    InitialSecured(cx, l);
  }

  lemma FreeRunSecured(cx: Context, run: Run, first: World, n: nat)
    requires Honest(cx) && IsFreeRun(cx, run, first) && Secured(cx, first) && n < |run.worlds|
    ensures Secured(cx, run.worlds[n])
  {
    var keeps := (i: nat, w: World) => Secured(cx, w);
    forall i | 0 <= i < |run.actions| && keeps(i, run.worlds[i])
      ensures keeps(i + 1, Step(cx, run.worlds[i], run.actions[i]))
    {
      StepSecured(cx, run.worlds[i], run.actions[i]);
    }
    FreeRunKeeps(cx, run, first, n, keeps);
  }

  lemma RunKept(cx: Context, run: Run, first: World, n: nat)
    requires Honest(cx) && IsRun(cx, run, first) && Kept(cx, first) && n < |run.worlds|
    ensures Kept(cx, run.worlds[n])
  {
    var keeps := (i: nat, w: World) => Kept(cx, w);
    forall i | 0 <= i < |run.actions| && keeps(i, run.worlds[i])
      ensures keeps(i + 1, Next(cx, run.worlds[i], run.actions[i]))
    {
      NextKept(cx, run.worlds[i], run.actions[i]);
    }
    RunKeeps(cx, run, first, n, keeps);
  }

  lemma HeededKept(cx: Context, l: Limits, run: Run, n: nat)
    requires Honest(cx) && IsFreeRun(cx, run, Initial(l)) && n <= |run.actions| && Heedful(run, n)
    ensures Kept(cx, run.worlds[n])
  {
    HeededIsRun(cx, run, Initial(l), n);
    InitialKept(cx, l);
    RunKept(cx, Run(run.worlds[..n + 1], run.actions[..n]), Initial(l), n);
  }

  /** At every point of every run of the source, with stale, duplicated and reordered acknowledgements and whatever the
      callers do: each sequence number handed out is still kept by the sender or recorded by the receiver, and until a
      receive fails each recorded data frame is held for reassembly or already delivered. */
  lemma NothingIsLost(cx: Context, l: Limits, run: Run, n: nat, k: nat)
    requires Honest(cx) && IsFreeRun(cx, run, Initial(l)) && n < |run.worlds|
    ensures var w := run.worlds[n];
            && (k < |w.s.log| ==> k in w.s.inFlight || Seen(w.r.window, k))
            && (w.clean && !w.r.completed && Seen(w.r.window, k) ==> k < w.r.reassembly.next || k in w.r.reassembly.pending)
  {
    InitialSecured(cx, l);
    FreeRunSecured(cx, run, Initial(l), n);
  }

  /** On a run of the source without a receive failure, as long as the callers heed drops, the next frame off the network
      fails only on one of the receiver's own limits: never on the length or digest of an honest end record, never as a
      conflict, never as malformed. */
  lemma HonestFramesVerify(cx: Context, l: Limits, run: Run, n: nat, f: bytes)
    requires Honest(cx) && IsFreeRun(cx, run, Initial(l)) && n <= |run.actions| && Heedful(run, n)
    requires run.worlds[n].clean && f in run.worlds[n].frames
    ensures var w := run.worlds[n];
            Receive(cx, w.r, f).result.Err? ==>
              exists k: nat :: WireForm(cx, w.s.log, k, f)
                               && OnlyLimits(w.r, w.s.log[k], w.writes, Receive(cx, w.r, f).result.error)
  {
    HeededKept(cx, l, run, n);
    var w := run.worlds[n];
    var k: nat :| WireForm(cx, w.s.log, k, f);
    DeliverCoupled(cx, w, k, f);
  }

  lemma FrontData(items: seq<Item>, n: nat)
    requires n <= |items| && OnlyData(items[..n])
    ensures forall i | 0 <= i < n :: items[i].Data?
  {
    assert forall i | 0 <= i < n :: items[i] == items[..n][i];
  }

  /** Until completion the end record's sequence is not recorded. */
  lemma EndIsUnseen(cx: Context, w: World, e: nat)
    requires Kept(cx, w) && w.clean && !w.r.completed && e < |w.s.log| && w.s.log[e].End?
    ensures !Seen(w.r.window, e)
  {
    FrontData(w.s.log, w.r.reassembly.next);
  }

  lemma LastEnd(cx: Context, s: Sender, writes: seq<Write>) returns (e: nat)
    requires EndLast(cx, s, writes) && s.pending == [] && !OnlyData(s.log)
    ensures e < |s.log| && s.log[e].End?
  {
    e := |s.log| - 1;
  }

  lemma AllSeen(s: Sender, w: Window, k: nat)
    requires NoneMissing(s, w) && s.inFlight == map[] && k < |s.log|
    ensures Seen(w, k)
  {
  }

  lemma KeptEndLast(cx: Context, w: World)
    requires Kept(cx, w)
    ensures EndLast(cx, w.s, w.writes) && NoneMissing(w.s, w.r.window)
  {
  }

  lemma UnendedWithout(cx: Context, w: World)
    requires Kept(cx, w) && w.clean && SenderComplete(w.s) && !w.r.completed
    ensures OnlyData(w.s.log)
  {
    KeptEndLast(cx, w);
    if !OnlyData(w.s.log) {
      var e := LastEnd(cx, w.s, w.writes);
      AllSeen(w.s, w.r.window, e);
      EndIsUnseen(cx, w, e);
    }
  }

  /** A sender that holds nothing has had everything recorded; whether that includes the end decides completion. */
  lemma CompleteWhenEnded(cx: Context, w: World)
    requires Kept(cx, w) && w.clean && SenderComplete(w.s)
    ensures w.r.completed <==> !OnlyData(w.s.log)
  {
    if w.r.completed {
      CompletedEnd(cx, w);
    } else {
      UnendedWithout(cx, w);
    }
  }

  lemma CompletedEnd(cx: Context, w: World)
    requires Kept(cx, w) && w.clean && w.r.completed
    ensures !OnlyData(w.s.log)
  {
    assert w.s.log[w.r.pendingEnd.value.0].End?;
  }

  /** On every run of the source whose callers heed drops and decoder failures: when the sender reports completion and has
      not used up its sequence numbers, the receiver is complete and has delivered exactly what was pushed. */
  lemma SenderCompleteMeansDelivered(cx: Context, l: Limits, run: Run, n: nat)
    requires Honest(cx) && IsFreeRun(cx, run, Initial(l)) && n <= |run.actions| && Heedful(run, n)
    requires var w := run.worlds[n]; w.clean && SenderComplete(w.s) && w.s.nextSequence < U32_MAX
    ensures var w := run.worlds[n]; w.r.completed && w.out == Input(w.writes)
  {
    HeededKept(cx, l, run, n);
    var w := run.worlds[n];
    assert Intact(cx, w.s, w.writes);
    CompleteWhenEnded(cx, w);
  }

  /** The sequence bound is needed: at the last sequence number the waiting end record is dropped with an error, and the
      sender then reports completion without having sent it. */
  lemma ExhaustionDropsTheEnd(cx: Context, s: Sender, end: StreamEnd)
    requires s.pending == [End(end)] && s.pendingBytes == 64 && s.inFlight == map[] && s.inFlightBytes == 0
    requires s.nextSequence == U32_MAX && s.inputFinished && EffectiveWindow(s) > 0
    requires EncodeEnd(cx, U32_MAX, end).Ok? && |EncodeEnd(cx, U32_MAX, end).value| <= s.maxBufferedBytes
    ensures Pump(cx, s).error == Some(SequenceExhausted) && SenderComplete(Pump(cx, s).state)
    ensures Pump(cx, s).state.log == s.log
  {
    assert s.pending[1..] == [];
  }
}
