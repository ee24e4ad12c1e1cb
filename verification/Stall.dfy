/** A sender that waits for ever: the adapters' sparse acknowledgements joined to whole runs. */
module Stall {
  import opened Prelude
  import opened Wire
  import opened Core
  import opened Stream
  import opened Sender
  import opened SenderInvariant
  import opened SenderFlow
  import opened Receiver
  import opened ReceiverInvariant
  import opened Coupling
  import opened Protocol
  import opened Delivery
  import opened Dispatch
  import opened Progress
  import opened Span
  import opened Edges
  import opened Heeding
  import opened Budget
  import opened Scenarios

  /** Whether the adapter answers the receive of this frame with an acknowledgement. */
  predicate Answers(cx: Context, r: Receiver, f: bytes) {
    var result := Receive(cx, r, f).result;
    result.Ok? && match DecodeFrame(cx, f)
                  case Ok(DataFrame(_, _, k, _)) => ShouldAck(result.value, k)
                  case Ok(EndFrame(_, k, _)) => ShouldAck(result.value, k)
                  case _ => false
  }

  lemma {:induction false} SomeOne(bits: seq<bool>)
    ensures Ones(bits) != 0 <==> exists i :: 0 <= i < |bits| && bits[i]
  {
    if bits != [] {
      SomeOne(bits[..|bits| - 1]);
      assert forall i | 0 <= i < |bits| - 1 :: bits[..|bits| - 1][i] == bits[i];
    }
  }

  /** Some sequence within the bitmap above the cursor is held. */
  ghost predicate HoldsAbove(w: Window) {
    exists i :: 0 <= i < ACK_BITMAP_BITS && SaturatingAdd32(w.next, i) in w.received
  }

  lemma OnesAre(w: Window)
    ensures Ones(SnapshotOf(w).selective) != 0 <==> HoldsAbove(w)
  {
    var bits := SnapshotOf(w).selective;
    SomeOne(bits);
    assert forall i | 0 <= i < |bits| :: bits[i] <==> SaturatingAdd32(w.next, i) in w.received;
  }

  /** The adapter answers a frame that was received exactly when the stream is then complete, or something is held above a
      gap, or its sequence is 3 modulo 4. */
  lemma AnswersIff(cx: Context, r: Receiver, f: bytes)
    ensures var Received(r', result) := Receive(cx, r, f);
            Answers(cx, r, f)
            <==> result.Ok? && (r'.completed || HoldsAbove(r'.window)
                                || match DecodeFrame(cx, f)
                                   case Ok(DataFrame(_, _, k, _)) => k % 4 == 3
                                   case Ok(EndFrame(_, k, _)) => k % 4 == 3
                                   case _ => false)
  {
    OnesAre(Receive(cx, r, f).state.window);
  }

  /** A delivery that the adapter answers. */
  predicate Answered(cx: Context, w: World, a: Action) {
    a.DoDeliver? && a.frame in w.frames && Answers(cx, w.r, a.frame)
  }

  /** Nothing more fits the window, and no sequence in flight is 3 modulo 4. */
  ghost predicate Stuck(s: Sender) {
    && s.inFlight != map[] && |s.inFlight| >= EffectiveWindow(s)
    && forall k | k in s.inFlight :: k % 4 != 3
  }

  /** A stuck sender whose frames have all arrived. */
  ghost predicate Stalled(cx: Context, w: World) {
    Kept(cx, w) && w.clean && CaughtUp(w.r, |w.s.log|) && Stuck(w.s)
  }

  /** What sender and network can do without an acknowledgement: push, finish, dispatch, and deliver retransmissions. */
  ghost predicate Unacknowledged(w: World, a: Action) {
    match a
    case DoPush(_, _) => true
    case DoFinish => true
    case DoDispatch(_, _) => true
    case DoDeliver(f) => Carried(w.s.inFlight, f)
    case _ => false
  }

  lemma SenderStaysStalled(cx: Context, w: World, a: Action)
    requires Honest(cx) && Stalled(cx, w) && (a.DoPush? || a.DoFinish? || a.DoDispatch?)
    ensures Stalled(cx, Next(cx, w, a))
  {
    NextKept(cx, w, a);
    if Enabled(w, a) {
      FullWindowWaits(cx, w, a);
    }
  }

  /** Every sequence numbered so far is data. */
  lemma StalledIsData(cx: Context, w: World, k: nat)
    requires Stalled(cx, w) && k < |w.s.log|
    ensures w.s.log[k].Data?
  {
    if w.s.log[k].End? {
      EndIsUnseen(cx, w, k);
    }
  }

  lemma RetransmissionIsDuplicate(cx: Context, w: World, k: nat)
    requires Honest(cx) && Stalled(cx, w) && k in w.s.inFlight
    ensures k < |w.s.log| && w.s.log[k].Data? && WireForm(cx, w.s.log, k, w.s.inFlight[k].encoded)
    ensures Receive(cx, w.r, w.s.inFlight[k].encoded) == AcceptData(cx, w.r, k, w.s.log[k].payload)
    ensures DecodeFrame(cx, w.s.inFlight[k].encoded) == Ok(DataFrame(cx.transactionId, cx.direction, k, w.s.log[k].payload))
  {
    StalledIsData(cx, w, k);
    LogIsHonest(cx, w.s, w.writes, w.lost);
    ReceiveIs(cx, w.r, w.s.log, w.writes, k, w.s.inFlight[k].encoded);
    DecodeEncodedItem(cx, k, w.s.log[k]);
  }

  /** A retransmission is received, changes nothing that matters, and is not answered. */
  lemma RetransmissionUnanswered(cx: Context, w: World, f: bytes)
    requires Honest(cx) && Stalled(cx, w) && Carried(w.s.inFlight, f)
    ensures var received := Receive(cx, w.r, f);
            received.result.Ok? && CaughtUp(received.state, |w.s.log|) && !Answers(cx, w.r, f)
  {
    var k :| k in w.s.inFlight && w.s.inFlight[k].encoded == f;
    RetransmissionIsDuplicate(cx, w, k);
    DuplicateOfCaughtUp(cx, w.r, |w.s.log|, k, w.s.log[k].payload);
  }

  lemma OkDelivery(cx: Context, w: World, f: bytes)
    requires Receive(cx, w.r, f).result.Ok?
    ensures var t := ReceiverStep(cx, w, f); t.r == Receive(cx, w.r, f).state && t.s == w.s && t.clean == w.clean
  {
  }

  lemma SameSenderStalled(cx: Context, w: World, t: World)
    requires Stalled(cx, w) && Kept(cx, t) && t.s == w.s && t.clean && CaughtUp(t.r, |w.s.log|)
    ensures Stalled(cx, t)
  {
  }

  lemma DeliveryStaysStalled(cx: Context, w: World, f: bytes)
    requires Honest(cx) && Stalled(cx, w) && Carried(w.s.inFlight, f)
    ensures Stalled(cx, Next(cx, w, DoDeliver(f))) && !Answered(cx, w, DoDeliver(f))
  {
    RetransmissionUnanswered(cx, w, f);
    if f in w.frames {
      DeliverKept(cx, w, f);
      OkDelivery(cx, w, f);
      var t := ReceiverStep(cx, w, f);
      SameSenderStalled(cx, w, t);
      assert Next(cx, w, DoDeliver(f)) == t;
    }
  }

  /** Without an acknowledgement a stalled pair stays stalled, and nothing it does is answered with one. */
  lemma StaysStalled(cx: Context, w: World, a: Action)
    requires Honest(cx) && Stalled(cx, w) && Unacknowledged(w, a)
    ensures Stalled(cx, Next(cx, w, a)) && !Answered(cx, w, a)
  {
    match a
    case DoDeliver(f) => DeliveryStaysStalled(cx, w, f);
    case _ => SenderStaysStalled(cx, w, a);
  }

  ghost predicate AnsweredBefore(cx: Context, run: Run, n: nat)
    requires n <= |run.actions| < |run.worlds|
  {
    exists i :: 0 <= i < n && Answered(cx, run.worlds[i], run.actions[i])
  }

  ghost predicate ByAdapters(cx: Context, run: Run, i: nat)
    requires i < |run.actions| < |run.worlds|
  {
    Unacknowledged(run.worlds[i], run.actions[i]) || AnsweredBefore(cx, run, i)
  }

  /** A run on which an acknowledgement is processed only after the adapter has answered some delivery of it. */
  ghost predicate IsAdapterRun(cx: Context, run: Run, first: World) {
    IsRun(cx, run, first) && forall i | 0 <= i < |run.actions| :: ByAdapters(cx, run, i)
  }

  ghost predicate StillStalled(cx: Context, run: Run, i: nat, w: World) {
    i <= |run.actions| < |run.worlds| && Stalled(cx, w) && !AnsweredBefore(cx, run, i)
  }

  lemma StallStep(cx: Context, run: Run, i: nat)
    requires Honest(cx) && i < |run.actions| < |run.worlds| && StillStalled(cx, run, i, run.worlds[i])
    requires ByAdapters(cx, run, i)
    ensures StillStalled(cx, run, i + 1, Next(cx, run.worlds[i], run.actions[i]))
  {
    StaysStalled(cx, run.worlds[i], run.actions[i]);
  }

  lemma StillStalledIs(cx: Context, run: Run, n: nat, w: World, keeps: (nat, World) -> bool)
    requires keeps == ((i: nat, w: World) => StillStalled(cx, run, i, w)) && keeps(n, w)
    ensures n <= |run.actions| < |run.worlds| && Stalled(cx, w) && !AnsweredBefore(cx, run, n)
  {
  }

  /** A stalled pair stalls for ever: however often and in whatever order the sender retransmits, pushes or finishes, no
      delivery is ever answered, and the sender keeps frames in flight. */
  lemma StallsForEver(cx: Context, run: Run, first: World, n: nat)
    requires Honest(cx) && Stalled(cx, first) && IsAdapterRun(cx, run, first) && n <= |run.actions|
    ensures Stalled(cx, run.worlds[n]) && !AnsweredBefore(cx, run, n) && !SenderComplete(run.worlds[n].s)
  {
    var keeps := (i: nat, w: World) => StillStalled(cx, run, i, w);
    forall i | 0 <= i < |run.actions| && keeps(i, run.worlds[i])
      ensures keeps(i + 1, Next(cx, run.worlds[i], run.actions[i]))
    {
      assert ByAdapters(cx, run, i);
      StallStep(cx, run, i);
    }
    RunKeeps(cx, run, first, n, keeps);
    StillStalledIs(cx, run, n, run.worlds[n], keeps);
  }

  // ---- A run that stalls ----

  /** The receiver once the second of two bytes has arrived before the first. */
  function HoldsSecond(b: u8): Receiver {
    InitialReceiver(2, 100, 100).(window := Window({1}, 0), reassembly := Reassembly(0, map[1 := [b]], 1, 100))
  }

  lemma SecondHeld(cx: Context, b: u8)
    ensures AcceptData(cx, InitialReceiver(2, 100, 100), 1, [b])
         == Received(HoldsSecond(b), Ok(ReceiveOutput([], AckOf(cx, HoldsSecond(b)), false)))
  {
    var r := InitialReceiver(2, 100, 100);
    assert {} + {1} == {1};
    assert Recorded(r.window, 1) == Window({1}, 0);
    assert Drained(Inserted(r.reassembly, 1, [b])) == (Reassembly(0, map[1 := [b]], 1, 100), []);
  }

  /** Its acknowledgement names the second sequence only and takes one place off the window. */
  lemma SecondAck(cx: Context, b: u8)
    ensures var ack := AckOf(cx, HoldsSecond(b));
            && ack.direction == cx.direction && ack.receiveWindow == 1 && Ones(ack.selective) == 1
            && Acknowledges(Snapshot(ack), 1) && !Acknowledges(Snapshot(ack), 0)
  {
    var r := HoldsSecond(b);
    var bits := SnapshotOf(r.window).selective;
    assert forall i | 0 <= i < |bits| :: bits[i] == SelectiveBit(r.window, i);
    assert forall i | 0 <= i < |bits| :: bits[i] <==> i == 1;
    OnesBeyond(bits, 2);
    assert bits[..2] == [false, true] && [false, true][..1] == [false] && [false][..0] == [];
    AckIsExact(r.window, 0);
    AckIsExact(r.window, 1);
  }

  lemma GapFills(a: u8, b: u8)
    ensures Recorded(Window({1}, 0), 0) == Window({}, 2)
    ensures Reassembled(Reassembly(0, map[1 := [b]], 1, 100), 0, [a])
         == Pushed(Reassembly(2, map[], 0, 100), [[a], [b]])
  {
    assert {1} + {0} - {0} == {1} && {1} - {1} == {};
    assert Advance(Window({}, 2)) == Window({}, 2);
    assert Advance(Window({1}, 1)) == Window({}, 2);
    assert Advance(Window({1} + {0}, 0)) == Window({}, 2);
    var r := Reassembly(0, map[1 := [b]], 1, 100);
    var inserted := Inserted(r, 0, [a]);
    assert inserted.pending - {0} == map[1 := [b]] && map[1 := [b]] - {1} == map[];
    assert Drained(Reassembly(2, map[], 0, 100)) == (Reassembly(2, map[], 0, 100), []);
    assert Drained(Reassembly(1, map[1 := [b]], 1, 100)) == (Reassembly(2, map[], 0, 100), [[b]] + []);
    assert [[a]] + ([[b]] + []) == [[a], [b]];
  }

  lemma BothDecode(cx: Context, a: u8, b: u8)
    requires cx.codec == NO_COMPRESSION
    ensures DecodeAll(cx, Some(Decoder([], [], 0, 100)), [[a], [b]])
         == (Some(Decoder([a, b], [a, b], 2, 100)), [[a], [b]], None)
  {
    var d, d' := Decoder([], [], 0, 100), Decoder([a], [a], 1, 100);
    assert [] + [a] == [a] && [a] + [b] == [a, b] && [a, b][1..] == [b];
    assert DecoderPush(cx, d, [a]) == (d', Ok([a]));
    assert DecoderPush(cx, d', [b]) == (Decoder([a, b], [a, b], 2, 100), Ok([b]));
    DecodeSingle(cx, d', [b]);
    assert [[a], [b]][1..] == [[b]];
    assert [[a]] + [[b]] == [[a], [b]];
  }

  /** The first byte fills the gap: both are delivered, and the receiver holds nothing back. */
  lemma FirstFillsGap(cx: Context, a: u8, b: u8)
    requires cx.codec == NO_COMPRESSION
    ensures AcceptData(cx, HoldsSecond(b), 0, [a])
         == Received(ByteReceiver(2, [a, b], 2), Ok(ReceiveOutput([[a], [b]], AckOf(cx, ByteReceiver(2, [a, b], 2)), false)))
  {
    GapFills(a, b);
    BothDecode(cx, a, b);
  }

  lemma ByteReceiverCaughtUp(k: nat, out: bytes, capacity: nat)
    requires k < 100
    ensures CaughtUp(ByteReceiver(k, out, capacity), k)
  {
  }

  lemma BothSent(m: map<nat, Retained>, t: map<nat, Retained>, out: seq<Retained>, f: bytes, g: bytes)
    requires m == map[0 := Retained(0, f, None, 0), 1 := Retained(1, g, None, 0)] && Dispatched(m, 0, EAGER, t, out)
    ensures t == map[0 := Retained(0, f, Some(0), 1), 1 := Retained(1, g, Some(0), 1)]
    ensures f in Encodings(out) && g in Encodings(out)
  {
    assert 0 in m && 1 in m;
    assert t[0] == Retained(0, f, Some(0), 1) && t[1] == Retained(1, g, Some(0), 1);
    assert t[0] in out && t[1] in out;
  }

  lemma TakeBoth(cx: Context, s: Sender, f: bytes, g: bytes)
    requires SenderOk(cx, s)
    requires s.inFlight == map[0 := Retained(0, f, None, 0), 1 := Retained(1, g, None, 0)]
    ensures var (t, out) := TakeSendable(s, 0, EAGER);
            && t == s.(inFlight := map[0 := Retained(0, f, Some(0), 1), 1 := Retained(1, g, Some(0), 1)])
            && f in Encodings(out) && g in Encodings(out)
  {
    DispatchIs(cx, s, 0, EAGER);
    var (t, out) := TakeSendable(s, 0, EAGER);
    BothSent(s.inFlight, t.inFlight, out, f, g);
  }

  lemma DispatchStepIs(cx: Context, w: World, nowMs: nat, policy: RetryPolicy)
    requires w.s.encoder == Some(w.writes)
    ensures var (s, out) := TakeSendable(w.s, nowMs, policy);
            Step(cx, w, DoDispatch(nowMs, policy)) == w.(s := s, frames := w.frames + Encodings(out))
  {
  }

  /** Both frames are put on the network. */
  lemma DispatchesBoth(cx: Context, w: World, f: bytes, g: bytes) returns (t: World)
    requires Honest(cx) && SenderOk(cx, w.s) && w.s.encoder == Some(w.writes)
    requires w.s.inFlight == map[0 := Retained(0, f, None, 0), 1 := Retained(1, g, None, 0)]
    ensures SenderOk(cx, t.s) && Linked(cx, [w, t], [DoDispatch(0, EAGER)])
    ensures t == w.(s := w.s.(inFlight := t.s.inFlight), frames := t.frames) && f in t.frames && g in t.frames
    ensures t.s.inFlight == map[0 := Retained(0, f, Some(0), 1), 1 := Retained(1, g, Some(0), 1)]
  {
    t := Step(cx, w, DoDispatch(0, EAGER));
    StepLoses(cx, w, DoDispatch(0, EAGER));
    LinkOne(cx, w, DoDispatch(0, EAGER), t);
    DispatchStepIs(cx, w, 0, EAGER);
    TakeBoth(cx, w.s, f, g);
  }

  lemma DeliversSecond(cx: Context, w: World, b: u8) returns (t: World)
    requires Plain(cx) && EncodeItem(cx, 1, Data([b])).Ok? && Byte(cx, 1, b) in w.frames
    requires w.r == InitialReceiver(2, 100, 100)
    ensures Linked(cx, [w, t], [DoDeliver(Byte(cx, 1, b))])
    ensures t == w.(r := HoldsSecond(b), acks := w.acks + [AckOf(cx, HoldsSecond(b))])
    ensures Answered(cx, w, DoDeliver(Byte(cx, 1, b)))
  {
    var f := Byte(cx, 1, b);
    ReceiveFrame(cx, w.r, 1, b);
    SecondHeld(cx, b);
    SecondAck(cx, b);
    DecodeEncodedItem(cx, 1, Data([b]));
    assert w.out + [] == w.out;
    t := Step(cx, w, DoDeliver(f));
    LinkOne(cx, w, DoDeliver(f), t);
  }

  /** What the sender is left with after that acknowledgement. */
  lemma SecondReleased(cx: Context, s: Sender, ack: Ack, f: bytes, g: bytes)
    requires SenderOk(cx, s) && ack.direction == cx.direction && ack.receiveWindow == 1 && s.pending == []
    requires s.inFlight == map[0 := Retained(0, f, Some(0), 1), 1 := Retained(1, g, Some(0), 1)]
    requires Acknowledges(Snapshot(ack), 1) && !Acknowledges(Snapshot(ack), 0)
    ensures var t := Acknowledge(cx, s, ack).state;
            && t == s.(peerWindow := 1, inFlight := t.inFlight, inFlightBytes := t.inFlightBytes)
            && t.inFlight == map[0 := Retained(0, f, Some(0), 1)]
  {
    AfterReleaseIs(cx, s, ack);
    assert AfterRelease(s, ack).inFlight == map[0 := Retained(0, f, Some(0), 1)];
  }

  lemma AckStepIs(cx: Context, w: World, i: nat)
    requires i < |w.acks| && w.s.encoder == Some(w.writes)
    ensures var s := Acknowledge(cx, w.s, w.acks[i]).state;
            s.encoder == w.s.encoder ==> Step(cx, w, DoAck(i)) == w.(s := s, lastAck := Some(i))
  {
    assert w.frames + {} == w.frames;
  }

  lemma TakesSecondAck(cx: Context, w: World, b: u8, f: bytes, g: bytes) returns (t: World)
    requires Honest(cx) && SenderOk(cx, w.s) && w.s.pending == [] && w.s.encoder == Some(w.writes)
    requires w.s.inFlight == map[0 := Retained(0, f, Some(0), 1), 1 := Retained(1, g, Some(0), 1)]
    requires w.acks == [AckOf(cx, HoldsSecond(b))]
    ensures SenderOk(cx, t.s) && Linked(cx, [w, t], [DoAck(0)])
    ensures t == w.(s := w.s.(peerWindow := 1, inFlight := t.s.inFlight, inFlightBytes := t.s.inFlightBytes),
                    lastAck := Some(0))
    ensures t.s.inFlight == map[0 := Retained(0, f, Some(0), 1)]
  {
    t := Step(cx, w, DoAck(0));
    var ack := w.acks[0];
    SecondAck(cx, b);
    SecondReleased(cx, w.s, ack, f, g);
    AckStepIs(cx, w, 0);
    StepLoses(cx, w, DoAck(0));
    LinkOne(cx, w, DoAck(0), t);
  }

  lemma DeliversFirst(cx: Context, w: World, a: u8, b: u8) returns (t: World)
    requires Plain(cx) && EncodeItem(cx, 0, Data([a])).Ok? && Byte(cx, 0, a) in w.frames && w.r == HoldsSecond(b)
    ensures Linked(cx, [w, t], [DoDeliver(Byte(cx, 0, a))])
    ensures t == w.(r := ByteReceiver(2, [a, b], 2), out := t.out, acks := t.acks)
    ensures !Answered(cx, w, DoDeliver(Byte(cx, 0, a)))
  {
    var f := Byte(cx, 0, a);
    ReceiveFrame(cx, w.r, 0, a);
    FirstFillsGap(cx, a, b);
    ByteReceiverCaughtUp(2, [a, b], 2);
    NoGapNoBits(ByteReceiver(2, [a, b], 2), 2);
    DecodeEncodedItem(cx, 0, Data([a]));
    t := Step(cx, w, DoDeliver(f));
    LinkOne(cx, w, DoDeliver(f), t);
  }

  /** Two bytes are sent. */
  lemma SendsTwo(cx: Context, a: u8, b: u8) returns (v: World, w: World)
    requires Plain(cx)
    ensures Linked(cx, [Initial(ByteLimits(cx, 2)), v, w], [DoPush([a], false), DoPush([b], false)])
    ensures EncodeItem(cx, 0, Data([a])).Ok? && EncodeItem(cx, 1, Data([b])).Ok?
    ensures SenderOk(cx, w.s) && w == Initial(ByteLimits(cx, 2)).(s := w.s, writes := w.writes)
    ensures v == Initial(ByteLimits(cx, 2)).(s := v.s, writes := v.writes)
    ensures w.s.inFlight == map[0 := Retained(0, Byte(cx, 0, a), None, 0), 1 := Retained(1, Byte(cx, 1, b), None, 0)]
    ensures w.s.encoder == Some(w.writes) && w.s.pending == [] && |w.s.log| == 2 && w.s.localWindow == 2
  {
    var l := ByteLimits(cx, 2);
    assert Times(1, ByteFrame(cx)) == ByteFrame(cx);
    assert Times(2, ByteFrame(cx)) == ByteFrame(cx) + ByteFrame(cx);
    StartsOk(cx, l);
    v := SendsByte(cx, Initial(l), a);
    w := SendsByte(cx, v, b);
    LinkTwo(cx, Initial(l), DoPush([a], false), v, DoPush([b], false), w);
  }

  /** Three pairs of steps, one after another. */
  lemma LinkTriple(cx: Context, p: seq<World>, a: seq<Action>, q: seq<World>, b: seq<Action>, r: seq<World>,
                   c: seq<Action>) returns (run: Run)
    requires Linked(cx, p, a) && Linked(cx, q, b) && Linked(cx, r, c)
    requires |a| == |b| == |c| == 2 && p[2] == q[0] && q[2] == r[0]
    ensures IsFreeRun(cx, run, p[0])
    ensures run.actions == [a[0], a[1], b[0], b[1], c[0], c[1]]
    ensures run.worlds == [p[0], p[1], q[0], q[1], r[0], r[1], r[2]]
  {
    LinkMore(cx, p, a, q, b);
    LinkMore(cx, p + q[1..], a + b, r, c);
    run := Run(p + q[1..] + r[1..], a + b + c);
    LinkedIsRun(cx, run.worlds, run.actions);
  }

  /** Nothing was ever dropped or broken. */
  ghost predicate Calm(w: World) {
    !w.lost && !w.broken
  }

  ghost predicate AllCalm(worlds: seq<World>) {
    forall i | 0 <= i < |worlds| :: Calm(worlds[i])
  }

  /** A free run on which nothing was ever dropped or broken is a run. */
  lemma CalmIsRun(cx: Context, run: Run, first: World)
    requires IsFreeRun(cx, run, first) && AllCalm(run.worlds)
    ensures IsRun(cx, run, first)
  {
    forall i | 0 <= i < |run.actions|
      ensures run.worlds[i + 1] == Next(cx, run.worlds[i], run.actions[i])
    {
      assert !GoesOn(run.worlds[i], run.actions[i]);
    }
  }

  lemma OneLeft(s: Sender, f: bytes)
    requires s.inFlight == map[0 := Retained(0, f, Some(0), 1)] && s.peerWindow == 1
    ensures Stuck(s)
  {
    assert 0 in s.inFlight && |s.inFlight| == 1;
  }

  /** The six steps, with the frames they carry in flight. */
  ghost predicate SixSteps(run: Run, a: u8, b: u8, f: bytes, g: bytes) {
    && run.actions == [DoPush([a], false), DoPush([b], false), DoDispatch(0, EAGER), DoDeliver(g), DoAck(0), DoDeliver(f)]
    && |run.worlds| == 7 && Carried(run.worlds[3].s.inFlight, g) && Carried(run.worlds[5].s.inFlight, f)
  }

  lemma SixByAdapters(cx: Context, run: Run, i: nat, a: u8, b: u8, f: bytes, g: bytes)
    requires SixSteps(run, a, b, f, g) && i < 6 && (i == 4 ==> AnsweredBefore(cx, run, 4))
    ensures ByAdapters(cx, run, i)
  {
  }

  lemma AnsweredAtThree(cx: Context, run: Run, w: World, a: Action)
    requires 4 <= |run.actions| < |run.worlds| && run.worlds[3] == w && run.actions[3] == a && Answered(cx, w, a)
    ensures AnsweredBefore(cx, run, 4)
  {
  }

  /** The receiver has everything, and the first frame is left in flight. */
  ghost predicate FirstLeft(u: World, a: u8, b: u8, f: bytes) {
    && u.clean && u.r == ByteReceiver(2, [a, b], 2) && |u.s.log| == 2 && u.s.peerWindow == 1
    && u.s.inFlight == map[0 := Retained(0, f, Some(0), 1)]
  }

  /** Both bytes are sent, the second arrives first and is acknowledged, and then the first. */
  lemma StallSteps(cx: Context, a: u8, b: u8, f: bytes, g: bytes)
    returns (v: World, w: World, x: World, y: World, z: World, u: World)
    requires Plain(cx)
    requires EncodeItem(cx, 0, Data([a])) == Ok(f) && EncodeItem(cx, 1, Data([b])) == Ok(g)
    ensures Linked(cx, [Initial(ByteLimits(cx, 2)), v, w], [DoPush([a], false), DoPush([b], false)])
    ensures Linked(cx, [w, x, y], [DoDispatch(0, EAGER), DoDeliver(g)]) && Linked(cx, [y, z, u], [DoAck(0), DoDeliver(f)])
    ensures Calm(v) && Calm(w) && Calm(x) && Calm(y) && Calm(z) && Calm(u)
    ensures Carried(x.s.inFlight, g) && Carried(z.s.inFlight, f) && Answered(cx, x, DoDeliver(g))
    ensures FirstLeft(u, a, b, f)
  {
    v, w := SendsTwo(cx, a, b);
    x := DispatchesBoth(cx, w, f, g);
    assert x.s.inFlight[1].encoded == g;
    y := DeliversSecond(cx, x, b);
    z := TakesSecondAck(cx, y, b, f, g);
    assert z.s.inFlight[0].encoded == f;
    u := DeliversFirst(cx, z, a, b);
    LinkTwo(cx, w, DoDispatch(0, EAGER), x, DoDeliver(g), y);
    LinkTwo(cx, y, DoAck(0), z, DoDeliver(f), u);
  }

  /** The three pairs joined. */
  lemma JoinPairs(cx: Context, start: World, v: World, w: World, x: World, y: World, z: World, u: World, p: Action,
                  q: Action, f: bytes, g: bytes) returns (run: Run)
    requires Linked(cx, [start, v, w], [p, q]) && Linked(cx, [w, x, y], [DoDispatch(0, EAGER), DoDeliver(g)])
    requires Linked(cx, [y, z, u], [DoAck(0), DoDeliver(f)])
    ensures IsFreeRun(cx, run, start)
    ensures run == Run([start, v, w, x, y, z, u], [p, q, DoDispatch(0, EAGER), DoDeliver(g), DoAck(0), DoDeliver(f)])
  {
    run := LinkTriple(cx, [start, v, w], [p, q], [w, x, y], [DoDispatch(0, EAGER), DoDeliver(g)],
                      [y, z, u], [DoAck(0), DoDeliver(f)]);
  }

  /** What the six steps pass through. */
  ghost predicate StallPasses(run: Run, a: u8, b: u8, f: bytes, g: bytes) {
    && SixSteps(run, a, b, f, g) && FirstLeft(run.worlds[6], a, b, f)
    && AllCalm(run.worlds)
  }

  lemma CalmThroughout(worlds: seq<World>, start: World, v: World, w: World, x: World, y: World, z: World, u: World)
    requires worlds == [start, v, w, x, y, z, u]
    requires Calm(start) && Calm(v) && Calm(w) && Calm(x) && Calm(y) && Calm(z) && Calm(u)
    ensures AllCalm(worlds)
  {
  }

  lemma SixStepsIs(run: Run, x: World, z: World, a: u8, b: u8, f: bytes, g: bytes)
    requires |run.worlds| == 7 && run.worlds[3] == x && run.worlds[5] == z
    requires run.actions == [DoPush([a], false), DoPush([b], false), DoDispatch(0, EAGER), DoDeliver(g), DoAck(0),
                             DoDeliver(f)]
    requires Carried(x.s.inFlight, g) && Carried(z.s.inFlight, f)
    ensures SixSteps(run, a, b, f, g)
  {
  }

  lemma PassesIs(run: Run, start: World, v: World, w: World, x: World, y: World, z: World, u: World, a: u8,
                 b: u8, f: bytes, g: bytes)
    requires run.worlds == [start, v, w, x, y, z, u]
    requires run.actions == [DoPush([a], false), DoPush([b], false), DoDispatch(0, EAGER), DoDeliver(g), DoAck(0),
                             DoDeliver(f)]
    requires Calm(start) && Calm(v) && Calm(w) && Calm(x) && Calm(y) && Calm(z) && Calm(u)
    requires Carried(x.s.inFlight, g) && Carried(z.s.inFlight, f) && FirstLeft(u, a, b, f)
    ensures StallPasses(run, a, b, f, g)
  {
    SixStepsIs(run, x, z, a, b, f, g);
    CalmThroughout(run.worlds, start, v, w, x, y, z, u);
  }

  lemma StallRuns(cx: Context, a: u8, b: u8) returns (run: Run, f: bytes, g: bytes)
    requires Plain(cx)
    ensures IsFreeRun(cx, run, Initial(ByteLimits(cx, 2))) && StallPasses(run, a, b, f, g)
    ensures AnsweredBefore(cx, run, 4)
  {
    var start := Initial(ByteLimits(cx, 2));
    ByteEncodes(cx, 0, a);
    ByteEncodes(cx, 1, b);
    f, g := Byte(cx, 0, a), Byte(cx, 1, b);
    var v, w, x, y, z, u := StallSteps(cx, a, b, f, g);
    run := JoinPairs(cx, start, v, w, x, y, z, u, DoPush([a], false), DoPush([b], false), f, g);
    AnsweredAtThree(cx, run, x, DoDeliver(g));
    PassesIs(run, start, v, w, x, y, z, u, a, b, f, g);
  }

  lemma SixAreByAdapters(cx: Context, run: Run, a: u8, b: u8, f: bytes, g: bytes)
    requires SixSteps(run, a, b, f, g) && AnsweredBefore(cx, run, 4)
    ensures forall i | 0 <= i < |run.actions| :: ByAdapters(cx, run, i)
  {
    forall i | 0 <= i < |run.actions|
      ensures ByAdapters(cx, run, i)
    {
      SixByAdapters(cx, run, i, a, b, f, g);
    }
  }

  lemma StalledAtEnd(cx: Context, run: Run, l: Limits, a: u8, b: u8, f: bytes)
    requires Honest(cx) && IsRun(cx, run, Initial(l)) && |run.worlds| == 7 && FirstLeft(run.worlds[6], a, b, f)
    ensures Stalled(cx, run.worlds[6])
  {
    InitialKept(cx, l);
    RunKept(cx, run, Initial(l), 6);
    ByteReceiverCaughtUp(2, [a, b], 2);
    OneLeft(run.worlds[6].s, f);
  }

  lemma StallPassesGive(cx: Context, run: Run, a: u8, b: u8, f: bytes, g: bytes)
    requires StallPasses(run, a, b, f, g) && AnsweredBefore(cx, run, 4)
    ensures |run.worlds| == 7 && |run.actions| == 6 && AllCalm(run.worlds) && FirstLeft(run.worlds[6], a, b, f)
    ensures run.actions[..2] == [DoPush([a], false), DoPush([b], false)]
    ensures forall i | 0 <= i < |run.actions| :: ByAdapters(cx, run, i)
  {
    SixAreByAdapters(cx, run, a, b, f, g);
  }

  /** On this run of the adapters the pair stalls, and by `StallsForEver` it stays so: the last frame fills the only gap and
      is not answered. */
  lemma AdaptersStall(cx: Context, a: u8, b: u8) returns (run: Run)
    requires Plain(cx)
    ensures IsAdapterRun(cx, run, Initial(ByteLimits(cx, 2))) && |run.actions| == 6 && Stalled(cx, run.worlds[6])
    ensures run.actions[..2] == [DoPush([a], false), DoPush([b], false)]
  {
    var f, g;
    run, f, g := StallRuns(cx, a, b);
    StallPassesGive(cx, run, a, b, f, g);
    CalmIsRun(cx, run, Initial(ByteLimits(cx, 2)));
    StalledAtEnd(cx, run, ByteLimits(cx, 2), a, b, f);
  }
}
