/** A run in full: a caller that pushes on after a drop, and what is delivered. */
module Scenarios {
  import opened Prelude
  import opened Wire
  import opened Core
  import opened Stream
  import opened Sender
  import opened SenderInvariant
  import opened SenderFlow
  import opened Receiver
  import opened ReceiverInvariant
  import opened Protocol
  import opened Delivery
  import opened Dispatch
  import opened Progress
  import opened Loss
  import opened Budget
  import opened Overrun
  import opened Edges
  import opened Heeding

  // ---- One byte at a time ----

  /** No compression, and metadata small enough for every frame to be encoded. */
  ghost predicate Plain(cx: Context) {
    Honest(cx) && cx.codec == NO_COMPRESSION && EmptyMetadataSize(cx) <= MAX_METADATA_LEN
  }

  /** Size of a frame that carries one byte. */
  function ByteFrame(cx: Context): nat {
    HEADER_LEN + EmptyMetadataSize(cx) + 1
  }

  /** Payloads of one byte, and a window and budget of `window` such frames. */
  function ByteLimits(cx: Context, window: nat): Limits {
    Limits(HEADER_LEN + 1, 0, window, Times(window, ByteFrame(cx)), window, 100, 100)
  }

  function Byte(cx: Context, k: u32, b: u8): bytes
    requires EncodeItem(cx, k, Data([b])).Ok?
  {
    EncodeItem(cx, k, Data([b])).value
  }

  lemma ByteEncodes(cx: Context, k: u32, b: u8)
    requires Plain(cx)
    ensures EncodeItem(cx, k, Data([b])).Ok? && |Byte(cx, k, b)| == ByteFrame(cx)
  {
    EncodeItemSize(cx, k, Data([b]));
  }

  /** A sender of one-byte payloads with nothing waiting. */
  ghost predicate ByteSender(s: Sender, writes: seq<Write>) {
    && s.target == 1 && s.buffer == [] && s.pending == [] && s.pendingBytes == 0
    && s.encoder == Some(writes) && !s.inputFinished && |Input(writes)| < 100 && s.nextSequence < 100
  }

  /** The sender after a byte has gone into flight. */
  function ByteSent(cx: Context, s: Sender, writes: seq<Write>, b: u8): Sender
    requires s.nextSequence < U32_MAX && EncodeItem(cx, s.nextSequence, Data([b])).Ok?
  {
    var frame := Byte(cx, s.nextSequence, b);
    s.(encoder := Some(writes + [Write([b], false)]), nextSequence := s.nextSequence + 1,
       inFlightBytes := s.inFlightBytes + |frame|,
       inFlight := s.inFlight[s.nextSequence := Retained(s.nextSequence, frame, None, 0)],
       log := s.log + [Data([b])])
  }

  /** Without compression and with an empty batcher, a push of one whole payload queues exactly it. */
  lemma WholePayload(cx: Context, s: Sender, a: bytes)
    requires cx.codec == NO_COMPRESSION && s.encoder.Some? && !s.inputFinished && s.pending == [] && s.buffer == []
    requires |a| == s.target && |Input(s.encoder.value)| + |a| <= U64_MAX
    ensures var writes' := s.encoder.value + [Write(a, false)];
            && Input(writes') == Input(s.encoder.value) + a
            && Loaded(cx, s, a, false) == Queue(s.(encoder := Some(writes')), Data(a))
  {
    UncompressedPush(cx, s.encoder.value, a, false);
    var s' := s.(encoder := Some(s.encoder.value + [Write(a, false)]));
    assert (s.encoder.value + [Write(a, false)])[..|s.encoder.value|] == s.encoder.value;
    BatchesOfShort(a, s.target);
    assert s.buffer + a == a && a[..s.target] == a && a[s.target..] == [];
    assert [a][1..] == [];
    assert QueueAll(s', [a]) == Queue(s', Data(a));
  }

  lemma LaunchByte(cx: Context, s: Sender, q: Sender, writes: seq<Write>, b: u8)
    requires Plain(cx) && ByteSender(s, writes) && |s.inFlight| < EffectiveWindow(s)
    requires s.inFlightBytes + ByteFrame(cx) <= s.maxBufferedBytes
    requires q == s.(encoder := Some(writes + [Write([b], false)]), pending := [Data([b])], pendingBytes := 1)
    ensures EncodeItem(cx, s.nextSequence, Data([b])).Ok?
    ensures Pump(cx, q) == Outcome(ByteSent(cx, s, writes, b), None)
  {
    ByteEncodes(cx, s.nextSequence, b);
    var frame := Byte(cx, s.nextSequence, b);
    assert q.pending[1..] == [];
    assert Launch(q, frame) == Outcome(ByteSent(cx, s, writes, b), None);
    PumpOnce(cx, q, frame);
  }

  /** A byte pushed into an open window with room in the budget goes straight into flight. */
  lemma PushByte(cx: Context, s: Sender, writes: seq<Write>, b: u8)
    requires Plain(cx) && ByteSender(s, writes) && |s.inFlight| < EffectiveWindow(s)
    requires s.inFlightBytes + ByteFrame(cx) <= s.maxBufferedBytes
    ensures EncodeItem(cx, s.nextSequence, Data([b])).Ok?
    ensures Push(cx, s, [b], false) == Outcome(ByteSent(cx, s, writes, b), None)
    ensures Input(writes + [Write([b], false)]) == Input(writes) + [b] && !Lost(Loaded(cx, s, [b], false))
  {
    WholePayload(cx, s, [b]);
    var q := s.(encoder := Some(writes + [Write([b], false)]), pending := [Data([b])], pendingBytes := 1);
    assert s.pending + [Data([b])] == [Data([b])];
    LaunchByte(cx, s, q, writes, b);
  }

  /** A byte pushed when the budget is used up is dropped. */
  lemma DropByte(cx: Context, s: Sender, writes: seq<Write>, b: u8)
    requires Plain(cx) && ByteSender(s, writes) && s.inFlightBytes == s.maxBufferedBytes
    ensures Push(cx, s, [b], false).state == s.(encoder := Some(writes + [Write([b], false)]))
    ensures Input(writes + [Write([b], false)]) == Input(writes) + [b] && Lost(Loaded(cx, s, [b], false))
  {
    WholePayload(cx, s, [b]);
  }

  /** A receiver that has delivered everything it has seen. */
  function ByteReceiver(k: nat, out: bytes, capacity: nat): Receiver {
    Receiver(Some(Decoder(out, out, |out|, 100)), Window({}, k), Reassembly(k, map[], 0, 100), capacity, None, false)
  }

  lemma NextByteReady(k: nat, b: u8)
    requires k < 100
    ensures Reassembled(Reassembly(k, map[], 0, 100), k, [b]) == Pushed(Reassembly(k + 1, map[], 0, 100), [[b]])
  {
    var inserted := Inserted(Reassembly(k, map[], 0, 100), k, [b]);
    assert inserted.pending - {k} == map[];
    assert [[b]] + [] == [[b]];
    assert Drained(Reassembly(k + 1, map[], 0, 100)) == (Reassembly(k + 1, map[], 0, 100), []);
  }

  lemma NextRecorded(k: nat)
    requires k < 100
    ensures Recorded(Window({}, k), k) == Window({}, k + 1)
  {
    assert {} + {k} - {k} == {};
    assert Advance(Window({}, k + 1)) == Window({}, k + 1);
    assert Advance(Window({k}, k)) == Window({}, k + 1);
  }

  /** The next byte in order is delivered at once. */
  lemma ReceiveByte(cx: Context, k: nat, out: bytes, capacity: nat, b: u8)
    requires cx.codec == NO_COMPRESSION && k < 100 && |out| < 100
    ensures var r := ByteReceiver(k + 1, out + [b], capacity);
            AcceptData(cx, ByteReceiver(k, out, capacity), k, [b])
            == Received(r, Ok(ReceiveOutput([[b]], AckOf(cx, r), false)))
  {
    var r := ByteReceiver(k, out, capacity);
    NextByteReady(k, b);
    NextRecorded(k);
    DecodeSingle(cx, r.decoder.value, [b]);
    assert (out + [b])[|out|..] == [b];
    assert DecoderPush(cx, r.decoder.value, [b]) == (Decoder(out + [b], out + [b], |out| + 1, 100), Ok([b]));
  }

  // ---- The same as steps of a run ----

  lemma StepPush(cx: Context, w: World, b: u8)
    requires Plain(cx) && ByteSender(w.s, w.writes) && |w.s.inFlight| < EffectiveWindow(w.s)
    requires w.s.inFlightBytes + ByteFrame(cx) <= w.s.maxBufferedBytes
    ensures EncodeItem(cx, w.s.nextSequence, Data([b])).Ok?
    ensures Step(cx, w, DoPush([b], false))
         == w.(s := ByteSent(cx, w.s, w.writes, b), writes := w.writes + [Write([b], false)])
    ensures Input(w.writes + [Write([b], false)]) == Input(w.writes) + [b]
  {
    PushByte(cx, w.s, w.writes, b);
    assert w.frames + {} == w.frames;
  }

  lemma StepDrop(cx: Context, w: World, b: u8)
    requires Plain(cx) && ByteSender(w.s, w.writes) && w.s.inFlightBytes == w.s.maxBufferedBytes
    ensures var writes := w.writes + [Write([b], false)];
            && Step(cx, w, DoPush([b], false)) == w.(s := w.s.(encoder := Some(writes)), writes := writes, lost := true)
            && Input(writes) == Input(w.writes) + [b]
  {
    DropByte(cx, w.s, w.writes, b);
    assert w.frames + {} == w.frames;
  }

  /** One frame in flight, never sent. */
  lemma TakeOne(cx: Context, s: Sender, k: nat, f: bytes, nowMs: nat, policy: RetryPolicy)
    requires SenderOk(cx, s) && s.inFlight == map[k := Retained(k, f, None, 0)]
    ensures var (t, out) := TakeSendable(s, nowMs, policy);
            t == s.(inFlight := map[k := Retained(k, f, Some(nowMs), 1)]) && Encodings(out) == {f}
  {
    DispatchIs(cx, s, nowMs, policy);
    var (t, out) := TakeSendable(s, nowMs, policy);
    assert t.inFlight == map[k := Retained(k, f, Some(nowMs), 1)];
    assert t.inFlight[k] in out;
    forall g | g in Encodings(out)
      ensures g == f
    {
    }
  }

  lemma StepDispatch(cx: Context, w: World, k: nat, f: bytes, nowMs: nat, policy: RetryPolicy)
    requires SenderOk(cx, w.s) && w.s.inFlight == map[k := Retained(k, f, None, 0)] && w.s.encoder == Some(w.writes)
    ensures Step(cx, w, DoDispatch(nowMs, policy))
         == w.(s := w.s.(inFlight := map[k := Retained(k, f, Some(nowMs), 1)]), frames := w.frames + {f})
  {
    TakeOne(cx, w.s, k, f, nowMs, policy);
  }

  lemma ReceiveFrame(cx: Context, r: Receiver, k: u32, b: u8)
    requires Plain(cx) && EncodeItem(cx, k, Data([b])).Ok?
    ensures Receive(cx, r, Byte(cx, k, b)) == AcceptData(cx, r, k, [b])
  {
    DecodeEncodedItem(cx, k, Data([b]));
  }

  lemma StepDeliver(cx: Context, w: World, k: u32, b: u8, capacity: nat)
    requires Plain(cx) && EncodeItem(cx, k, Data([b])).Ok? && k < 100 && |w.out| < 100
    requires Byte(cx, k, b) in w.frames && w.r == ByteReceiver(k, w.out, capacity)
    ensures var r := ByteReceiver(k + 1, w.out + [b], capacity);
            Step(cx, w, DoDeliver(Byte(cx, k, b))) == w.(r := r, out := w.out + [b], acks := w.acks + [AckOf(cx, r)])
  {
    ReceiveFrame(cx, w.r, k, b);
    ReceiveByte(cx, k, w.out, capacity, b);
    assert Concat([[b]]) == [b];
  }

  lemma StepFullAck(cx: Context, w: World, i: nat, out: bytes, capacity: nat)
    requires SenderOk(cx, w.s) && w.s.pending == [] && w.s.encoder == Some(w.writes) && w.s.nextSequence <= 100
    requires i < |w.acks| && w.acks[i] == AckOf(cx, ByteReceiver(w.s.nextSequence, out, capacity)) && capacity <= 64
    ensures Step(cx, w, DoAck(i))
         == w.(s := w.s.(peerWindow := capacity, inFlight := map[], inFlightBytes := 0), lastAck := Some(i))
  {
    FullAck(cx, ByteReceiver(w.s.nextSequence, out, capacity), w.s.nextSequence);
    FullRelease(cx, w.s, w.acks[i]);
    assert w.frames + {} == w.frames;
  }

  /** Worlds joined by steps of the source. */
  ghost predicate Linked(cx: Context, worlds: seq<World>, actions: seq<Action>) {
    && |worlds| == |actions| + 1
    && forall i {:trigger actions[i]} | 0 <= i < |actions| :: worlds[i + 1] == Step(cx, worlds[i], actions[i])
  }

  lemma LinkOne(cx: Context, w: World, a: Action, t: World)
    requires t == Step(cx, w, a)
    ensures Linked(cx, [w, t], [a])
  {
  }

  lemma LinkMore(cx: Context, xs: seq<World>, a: seq<Action>, ys: seq<World>, b: seq<Action>)
    requires Linked(cx, xs, a) && Linked(cx, ys, b) && xs[|a|] == ys[0]
    ensures Linked(cx, xs + ys[1..], a + b)
    ensures (xs + ys[1..])[0] == xs[0] && (xs + ys[1..])[|a| + |b|] == ys[|b|]
  {
    var worlds, actions := xs + ys[1..], a + b;
    forall i | 0 <= i < |actions|
      ensures worlds[i + 1] == Step(cx, worlds[i], actions[i])
    {
      if i < |a| {
        assert actions[i] == a[i];
      } else {
        assert actions[i] == b[i - |a|] && worlds[i + 1] == ys[i + 1 - |a|];
        assert worlds[i] == ys[i - |a|];
      }
    }
  }

  /** Two steps, the world between them given. */
  lemma LinkTwo(cx: Context, w: World, a: Action, t: World, b: Action, u: World)
    requires Linked(cx, [w, t], [a]) && Linked(cx, [t, u], [b])
    ensures Linked(cx, [w, t, u], [a, b])
  {
    LinkMore(cx, [w, t], [a], [t, u], [b]);
    assert [w, t] + [t, u][1..] == [w, t, u] && [a] + [b] == [a, b];
  }

  // ---- A caller that pushes on after a drop ----

  const EAGER := RetryPolicy(0, 0)

  lemma StartsOk(cx: Context, l: Limits)
    ensures SenderOk(cx, Initial(l).s)
  {
    InitialOk(cx, l.frameLimit, l.reservedMetadata, l.windowFrames, l.maxPendingBytes);
  }

  /** A byte sent from an idle sender. */
  lemma SendsByte(cx: Context, w: World, b: u8) returns (t: World)
    requires Plain(cx) && SenderOk(cx, w.s) && ByteSender(w.s, w.writes) && |w.s.inFlight| < EffectiveWindow(w.s)
    requires w.s.inFlightBytes + ByteFrame(cx) <= w.s.maxBufferedBytes
    ensures EncodeItem(cx, w.s.nextSequence, Data([b])).Ok? && SenderOk(cx, t.s)
    ensures t == w.(s := ByteSent(cx, w.s, w.writes, b), writes := w.writes + [Write([b], false)])
    ensures Linked(cx, [w, t], [DoPush([b], false)])
    ensures Input(t.writes) == Input(w.writes) + [b]
    ensures |Byte(cx, w.s.nextSequence, b)| == ByteFrame(cx)
  {
    StepPush(cx, w, b);
    StepLoses(cx, w, DoPush([b], false));
    t := Step(cx, w, DoPush([b], false));
    LinkOne(cx, w, DoPush([b], false), t);
    ByteEncodes(cx, w.s.nextSequence, b);
  }

  lemma DropsByte(cx: Context, w: World, b: u8) returns (t: World)
    requires Plain(cx) && SenderOk(cx, w.s) && ByteSender(w.s, w.writes) && w.s.inFlightBytes == w.s.maxBufferedBytes
    ensures SenderOk(cx, t.s)
    ensures t == w.(s := w.s.(encoder := Some(w.writes + [Write([b], false)])), writes := w.writes + [Write([b], false)],
                    lost := true)
    ensures Linked(cx, [w, t], [DoPush([b], false)])
    ensures Input(t.writes) == Input(w.writes) + [b]
  {
    StepDrop(cx, w, b);
    StepLoses(cx, w, DoPush([b], false));
    t := Step(cx, w, DoPush([b], false));
    LinkOne(cx, w, DoPush([b], false), t);
  }

  lemma Dispatches(cx: Context, w: World, k: nat, f: bytes) returns (t: World)
    requires Honest(cx) && SenderOk(cx, w.s) && w.s.inFlight == map[k := Retained(k, f, None, 0)]
    requires w.s.encoder == Some(w.writes)
    ensures SenderOk(cx, t.s) && Linked(cx, [w, t], [DoDispatch(0, EAGER)])
    ensures t == w.(s := w.s.(inFlight := map[k := Retained(k, f, Some(0), 1)]), frames := w.frames + {f})
  {
    StepDispatch(cx, w, k, f, 0, EAGER);
    StepLoses(cx, w, DoDispatch(0, EAGER));
    t := Step(cx, w, DoDispatch(0, EAGER));
    LinkOne(cx, w, DoDispatch(0, EAGER), t);
  }

  lemma Delivers(cx: Context, w: World, k: u32, b: u8, capacity: nat) returns (t: World)
    requires Plain(cx) && EncodeItem(cx, k, Data([b])).Ok? && k < 100 && |w.out| < 100
    requires Byte(cx, k, b) in w.frames && w.r == ByteReceiver(k, w.out, capacity)
    ensures Linked(cx, [w, t], [DoDeliver(Byte(cx, k, b))])
    ensures var r := ByteReceiver(k + 1, w.out + [b], capacity);
            t == w.(r := r, out := w.out + [b], acks := w.acks + [AckOf(cx, r)])
  {
    StepDeliver(cx, w, k, b, capacity);
    t := Step(cx, w, DoDeliver(Byte(cx, k, b)));
    LinkOne(cx, w, DoDeliver(Byte(cx, k, b)), t);
  }

  lemma TakesAck(cx: Context, w: World, i: nat, out: bytes, capacity: nat, r: Receiver) returns (t: World)
    requires Honest(cx) && SenderOk(cx, w.s) && w.s.pending == [] && w.s.encoder == Some(w.writes)
    requires w.s.nextSequence <= 100 && i < |w.acks| && capacity <= 64
    requires w.acks[i] == AckOf(cx, r) && r == ByteReceiver(w.s.nextSequence, out, capacity)
    ensures SenderOk(cx, t.s) && Linked(cx, [w, t], [DoAck(i)])
    ensures t == w.(s := w.s.(peerWindow := capacity, inFlight := map[], inFlightBytes := 0), lastAck := Some(i))
  {
    StepFullAck(cx, w, i, out, capacity);
    StepLoses(cx, w, DoAck(i));
    t := Step(cx, w, DoAck(i));
    LinkOne(cx, w, DoAck(i), t);
  }

  /** The first byte is sent and the second dropped. */
  lemma FirstDrops(cx: Context, a: u8, b: u8) returns (v: World, w: World)
    requires Plain(cx)
    ensures var start := Initial(ByteLimits(cx, 1));
            Linked(cx, [start, v, w], [DoPush([a], false), DoPush([b], false)])
    ensures EncodeItem(cx, 0, Data([a])).Ok? && SenderOk(cx, w.s) && ByteSender(w.s, w.writes)
    ensures w.s.inFlight == map[0 := Retained(0, Byte(cx, 0, a), None, 0)] && w.s.nextSequence == 1
    ensures w.s.localWindow == 1 && w.s.maxBufferedBytes == ByteFrame(cx)
    ensures w.r == ByteReceiver(0, [], 1) && w.out == [] && w.acks == [] && Input(w.writes) == [a, b]
  {
    var l := ByteLimits(cx, 1);
    assert Times(1, ByteFrame(cx)) == ByteFrame(cx);
    StartsOk(cx, l);
    v := SendsByte(cx, Initial(l), a);
    w := DropsByte(cx, v, b);
    LinkTwo(cx, Initial(l), DoPush([a], false), v, DoPush([b], false), w);
  }

  /** The frame in flight is dispatched and delivered. */
  lemma Arrives(cx: Context, w: World, k: u32, b: u8) returns (x: World, y: World)
    requires Plain(cx) && EncodeItem(cx, k, Data([b])).Ok? && SenderOk(cx, w.s) && w.s.encoder == Some(w.writes)
    requires w.s.inFlight == map[k as nat := Retained(k, Byte(cx, k, b), None, 0)] && k < 100 && |w.out| < 100
    requires w.r == ByteReceiver(k, w.out, 1)
    ensures Linked(cx, [w, x, y], [DoDispatch(0, EAGER), DoDeliver(Byte(cx, k, b))]) && SenderOk(cx, y.s)
    ensures y.s == w.s.(inFlight := y.s.inFlight) && y.writes == w.writes
    ensures y.r == ByteReceiver(k + 1, w.out + [b], 1) && y.out == w.out + [b] && y.acks == w.acks + [AckOf(cx, y.r)]
  {
    var f := Byte(cx, k, b);
    x := Dispatches(cx, w, k, f);
    y := Delivers(cx, x, k, b, 1);
    LinkTwo(cx, w, DoDispatch(0, EAGER), x, DoDeliver(f), y);
  }

  /** The first byte arrives and is acknowledged. */
  lemma FirstArrives(cx: Context, w: World, a: u8) returns (x: World, y: World, z: World)
    requires Plain(cx) && EncodeItem(cx, 0, Data([a])).Ok? && SenderOk(cx, w.s) && ByteSender(w.s, w.writes)
    requires w.s.inFlight == map[0 := Retained(0, Byte(cx, 0, a), None, 0)] && w.s.nextSequence == 1
    requires w.r == ByteReceiver(0, [], 1) && w.out == [] && w.acks == []
    ensures Linked(cx, [w, x, y], [DoDispatch(0, EAGER), DoDeliver(Byte(cx, 0, a))]) && Linked(cx, [y, z], [DoAck(0)])
    ensures SenderOk(cx, z.s) && z.s == w.s.(peerWindow := 1, inFlight := map[], inFlightBytes := 0)
    ensures z.r == ByteReceiver(1, [a], 1) && z.out == [a] && z.writes == w.writes
  {
    assert [] + [a] == [a];
    x, y := Arrives(cx, w, 0, a);
    assert y.r == ByteReceiver(1, [a], 1) && |y.acks| == 1;
    z := TakesAck(cx, y, 0, [a], 1, y.r);
  }

  /** And then a third byte is pushed, and arrives. */
  lemma ThirdArrives(cx: Context, w: World, a: u8, b: u8, c: u8) returns (x: World, y: World, z: World)
    requires Plain(cx) && SenderOk(cx, w.s)
    requires ByteSender(w.s, w.writes) && Input(w.writes) == [a, b] && w.s.inFlight == map[] && w.s.inFlightBytes == 0
    requires EffectiveWindow(w.s) == 1 && w.s.nextSequence == 1 && w.s.maxBufferedBytes == ByteFrame(cx)
    requires w.r == ByteReceiver(1, [a], 1) && w.out == [a]
    ensures EncodeItem(cx, 1, Data([c])).Ok? && Linked(cx, [w, x], [DoPush([c], false)])
    ensures Linked(cx, [x, y, z], [DoDispatch(0, EAGER), DoDeliver(Byte(cx, 1, c))])
    ensures z.out == [a, c] && Input(z.writes) == [a, b, c]
  {
    x := SendsByte(cx, w, c);
    assert x.s.inFlight == map[1 := Retained(1, Byte(cx, 1, c), None, 0)];
    y, z := Arrives(cx, x, 1, c);
  }

  lemma LinkedIsRun(cx: Context, worlds: seq<World>, actions: seq<Action>)
    requires Linked(cx, worlds, actions)
    ensures IsFreeRun(cx, Run(worlds, actions), worlds[0])
  {
  }

  /** Two steps at a time, one after another. */
  lemma LinkPairs(cx: Context, first: World, p: seq<World>, a: seq<Action>, q: seq<World>, b: seq<Action>, r: seq<World>,
                  c: seq<Action>, s: seq<World>, d: seq<Action>) returns (run: Run)
    requires Linked(cx, p, a) && Linked(cx, q, b) && Linked(cx, r, c) && Linked(cx, s, d) && p[0] == first
    requires |a| == |b| == |c| == |d| == 2 && p[2] == q[0] && q[2] == r[0] && r[2] == s[0]
    ensures IsFreeRun(cx, run, first) && |run.actions| == 8 && run.worlds[8] == s[2]
    ensures run.actions[..2] == a && run.actions[4..6] == c
  {
    LinkMore(cx, p, a, q, b);
    LinkMore(cx, r, c, s, d);
    LinkMore(cx, p + q[1..], a + b, r + s[1..], c + d);
    run := Run(p + q[1..] + (r + s[1..])[1..], a + b + (c + d));
    LinkedIsRun(cx, run.worlds, run.actions);
  }

  /** Pushing on after a drop breaks the prefix property: on this run of the source the second of three bytes is dropped
      for lack of budget, the first is acknowledged, and the third, pushed after that, is delivered in its place. */
  lemma GoingOnSkipsBytes(cx: Context, a: u8, b: u8, c: u8) returns (run: Run)
    requires Plain(cx) && b != c
    ensures IsFreeRun(cx, run, Initial(ByteLimits(cx, 1))) && |run.actions| == 8
    ensures run.actions[..2] == [DoPush([a], false), DoPush([b], false)]
    ensures run.actions[4..6] == [DoAck(0), DoPush([c], false)]
    ensures var w := run.worlds[8];
            w.out == [a, c] && Input(w.writes) == [a, b, c] && !(w.out <= Input(w.writes))
  {
    var start := Initial(ByteLimits(cx, 1));
    var v, w := FirstDrops(cx, a, b);
    var x, y, z := FirstArrives(cx, w, a);
    var x', y', z' := ThirdArrives(cx, z, a, b, c);
    var pushes := [DoPush([a], false), DoPush([b], false)];
    var first, last := Byte(cx, 0, a), Byte(cx, 1, c);
    LinkTwo(cx, y, DoAck(0), z, DoPush([c], false), x');
    run := LinkPairs(cx, start, [start, v, w], pushes, [w, x, y], [DoDispatch(0, EAGER), DoDeliver(first)],
                     [y, z, x'], [DoAck(0), DoPush([c], false)], [x', y', z'], [DoDispatch(0, EAGER), DoDeliver(last)]);
    assert [a, c][1] != [a, b, c][1];
  }
}
