/** Rounds of delivery: what one round clears, and how many rounds a finished sender needs. */
module Progress {
  import opened Prelude
  import opened Wire
  import opened Core
  import opened Stream
  import opened Sender
  import opened SenderInvariant
  import opened SenderFlow
  import opened Receiver
  import opened ReceiverInvariant
  import opened Coupling
  import opened Protocol
  import opened Delivery
  import opened Dispatch
  import opened Span
  import opened Windowed
  import opened Capacity

  // ---- Refilling an empty window ----

  /** Every waiting item can be framed, with at most `overhead` bytes beyond what was budgeted for it. */
  ghost predicate Sendable(cx: Context, items: seq<Item>, overhead: nat) {
    forall i | 0 <= i < |items| ::
      && EncodedSize(cx, items[i]) <= DEFAULT_FRAME_LIMIT && MetadataSize(cx, items[i]) <= MAX_METADATA_LEN
      && EncodedSize(cx, items[i]) <= RetainedBytes(items[i]) + overhead
  }

  function Room(s: Sender): nat {
    SaturatingSub(EffectiveWindow(s), |s.inFlight|)
  }

  /** How many waiting items the window has room for. */
  function Launchable(s: Sender): nat {
    Min(Room(s), |s.pending|)
  }

  /** Budget for the framing overhead of what the window still has room for. */
  ghost predicate Affordable(cx: Context, s: Sender, overhead: nat) {
    && Sendable(cx, s.pending, overhead) && s.nextSequence + Launchable(s) <= U32_MAX
    && BufferedBytes(s) + Times(Launchable(s), overhead) <= s.maxBufferedBytes
  }

  ghost predicate Launched(s: Sender, t: Sender, n: nat) {
    && n <= |s.pending| && t.pending == s.pending[n..] && t.log == s.log + s.pending[..n]
    && |t.inFlight| == |s.inFlight| + n && t.nextSequence == s.nextSequence + n
    && forall k | k in t.inFlight && k < s.nextSequence :: k in s.inFlight
  }

  lemma BudgetAfterOne(used: nat, used': nat, room: nat, overhead: nat, limit: nat)
    requires room > 0 && used + Times(room, overhead) <= limit && used' <= used + overhead
    ensures used + overhead <= limit && used' + Times(room - 1, overhead) <= limit
  {
  }

  lemma LaunchSucceeds(s: Sender, encoded: bytes, overhead: nat)
    requires s.pending != [] && s.nextSequence < U32_MAX
    requires s.pendingBytes == PendingTotal(s.pending)
    requires |encoded| <= RetainedBytes(s.pending[0]) + overhead && BufferedBytes(s) + overhead <= s.maxBufferedBytes
    ensures Launch(s, encoded).error == None && BufferedBytes(Launch(s, encoded).state) <= BufferedBytes(s) + overhead
  {
  }

  lemma LaunchIs(s: Sender, encoded: bytes)
    requires Accounted(s) && s.pending != [] && Launch(s, encoded).error == None
    ensures Launched(s, Launch(s, encoded).state, 1)
    ensures EffectiveWindow(Launch(s, encoded).state) == EffectiveWindow(s)
    ensures Launch(s, encoded).state.maxBufferedBytes == s.maxBufferedBytes
  {
    assert s.nextSequence !in s.inFlight;
  }

  lemma SendableRest(cx: Context, items: seq<Item>, n: nat, overhead: nat)
    requires Sendable(cx, items, overhead) && n <= |items|
    ensures Sendable(cx, items[n..], overhead)
  {
  }

  lemma LaunchOne(cx: Context, s: Sender, encoded: bytes, overhead: nat)
    requires Accounted(s) && Affordable(cx, s, overhead) && s.pending != [] && Room(s) > 0
    requires |encoded| == EncodedSize(cx, s.pending[0])
    ensures var o := Launch(s, encoded);
            o.error == None && Launched(s, o.state, 1) && Affordable(cx, o.state, overhead) && Room(o.state) == Room(s) - 1
  {
    BudgetAfterOne(BufferedBytes(s), BufferedBytes(s), Launchable(s), overhead, s.maxBufferedBytes);
    LaunchSucceeds(s, encoded, overhead);
    LaunchIs(s, encoded);
    SendableRest(cx, s.pending, 1, overhead);
    var t := Launch(s, encoded).state;
    assert Launchable(t) == Launchable(s) - 1;
    BudgetAfterOne(BufferedBytes(s), BufferedBytes(t), Launchable(s), overhead, s.maxBufferedBytes);
  }

  lemma MoveMore(log: seq<Item>, pending: seq<Item>, n: nat)
    requires pending != [] && n + 1 <= |pending|
    ensures log + pending[..1] + pending[1..][..n] == log + pending[..n + 1]
    ensures pending[1..][n..] == pending[n + 1..]
  {
  }

  lemma LaunchedMore(s: Sender, t: Sender, u: Sender, n: nat)
    requires Launched(s, t, 1) && Launched(t, u, n)
    ensures Launched(s, u, n + 1)
  {
    MoveMore(s.log, s.pending, n);
  }

  lemma PumpOnce(cx: Context, s: Sender, encoded: bytes)
    requires |s.inFlight| < EffectiveWindow(s) && s.pending != []
    requires EncodeItem(cx, s.nextSequence, s.pending[0]) == Ok(encoded) && Launch(s, encoded).error == None
    ensures Pump(cx, s) == Pump(cx, Launch(s, encoded).state) && PumpOne(cx, s) == Launch(s, encoded)
  {
  }

  lemma LaunchedToTheEnd(s: Sender, t: Sender, u: Sender)
    requires Launched(s, t, 1) && Room(s) > 0 && Room(t) == Room(s) - 1 && s.pending != []
    requires Launched(t, u, Min(Room(t), |t.pending|))
    ensures Launched(s, u, Min(Room(s), |s.pending|))
  {
    LaunchedMore(s, t, u, Min(Room(t), |t.pending|));
    assert Min(Room(t), |t.pending|) + 1 == Min(Room(s), |s.pending|);
  }

  /** With budget to spare, refilling fills the window or empties the queue, in order and without an error. */
  lemma {:induction false} PumpLaunches(cx: Context, s: Sender, overhead: nat)
    requires SenderOk(cx, s) && Affordable(cx, s, overhead)
    ensures Pump(cx, s).error == None && Launched(s, Pump(cx, s).state, Min(Room(s), |s.pending|))
    decreases |s.pending|
  {
    if Room(s) > 0 && s.pending != [] {
      EncodeItemSize(cx, s.nextSequence, s.pending[0]);
      var encoded := EncodeItem(cx, s.nextSequence, s.pending[0]).value;
      LaunchOne(cx, s, encoded, overhead);
      PumpOnce(cx, s, encoded);
      PumpOneOk(cx, s);
      var t := Launch(s, encoded).state;
      PumpLaunches(cx, t, overhead);
      LaunchedToTheEnd(s, t, Pump(cx, t).state);
    }
  }

  // ---- What is on the network ----

  /** Every frame ever sent and still in flight is on the network. */
  ghost predicate Announced(m: map<nat, Retained>, frames: set<bytes>) {
    forall k | k in m && m[k].lastSentMs.Some? :: m[k].encoded in frames
  }

  lemma {:induction false} PumpAnnounced(cx: Context, s: Sender, frames: set<bytes>)
    requires Announced(s.inFlight, frames)
    ensures Announced(Pump(cx, s).state.inFlight, frames)
    decreases |s.pending|
  {
    if |s.inFlight| < EffectiveWindow(s) && s.pending != [] {
      var one := PumpOne(cx, s);
      assert Announced(one.state.inFlight, frames);
      if one.error == None {
        PumpAnnounced(cx, one.state, frames);
      }
    }
  }

  /** After a dispatch everything in flight is on the network. */
  lemma DispatchAnnounces(cx: Context, s: Sender, nowMs: nat, policy: RetryPolicy, frames: set<bytes>)
    requires SenderOk(cx, s) && Announced(s.inFlight, frames)
    ensures var (t, out) := TakeSendable(s, nowMs, policy);
            forall k | k in t.inFlight :: t.inFlight[k].lastSentMs.Some? && t.inFlight[k].encoded in frames + Encodings(out)
  {
    DispatchIs(cx, s, nowMs, policy);
    var (t, out) := TakeSendable(s, nowMs, policy);
    forall k | k in t.inFlight
      ensures t.inFlight[k].lastSentMs.Some? && t.inFlight[k].encoded in frames + Encodings(out)
    {
      if Due(s.inFlight[k], nowMs, policy) {
        assert t.inFlight[k] in out;
      }
    }
  }

  lemma LoadAnnounced(cx: Context, s: Sender, a: Action, frames: set<bytes>)
    requires Announced(s.inFlight, frames)
    ensures Announced(LoadedBy(cx, s, a).state.inFlight, frames)
    ensures Announced(Pump(cx, LoadedBy(cx, s, a).state).state.inFlight, frames)
  {
    LoadedKeeps(cx, s, a);
    PumpAnnounced(cx, LoadedBy(cx, s, a).state, frames);
  }

  lemma AckAnnounced(cx: Context, s: Sender, ack: Ack, frames: set<bytes>)
    requires SenderOk(cx, s) && Announced(s.inFlight, frames)
    ensures Announced(Acknowledge(cx, s, ack).state.inFlight, frames)
  {
    AfterReleaseIs(cx, s, ack);
    PumpAnnounced(cx, AfterRelease(s, ack), frames);
  }

  /** What a sender step leaves on the network. */
  function FramesAfter(w: World, a: Action): set<bytes> {
    w.frames + (if a.DoDispatch? then Encodings(TakeSendable(w.s, a.nowMs, a.policy).1) else {})
  }

  lemma PushAnnounced(cx: Context, w: World, a: Action)
    requires Announced(w.s.inFlight, w.frames) && (a.DoPush? || a.DoFinish?)
    ensures Announced(SenderAfter(cx, w, a).inFlight, w.frames)
  {
    LoadAnnounced(cx, w.s, a, w.frames);
  }

  lemma OtherAnnounced(cx: Context, w: World, a: Action)
    requires SenderOk(cx, w.s) && Announced(w.s.inFlight, w.frames) && !a.DoDispatch?
    ensures Announced(SenderAfter(cx, w, a).inFlight, w.frames)
  {
    match a
    case DoPush(_, _) => PushAnnounced(cx, w, a);
    case DoFinish => PushAnnounced(cx, w, a);
    case DoSetWindow(n) => PumpAnnounced(cx, w.s.(peerWindow := n), w.frames);
    case DoAck(i) => if i < |w.acks| { AckAnnounced(cx, w.s, w.acks[i], w.frames); }
    case _ =>
  }

  lemma AllAnnounced(m: map<nat, Retained>, frames: set<bytes>)
    requires forall k | k in m :: m[k].lastSentMs.Some? && m[k].encoded in frames
    ensures Announced(m, frames)
  {
  }

  lemma SenderAnnounced(cx: Context, w: World, a: Action)
    requires SenderOk(cx, w.s) && Announced(w.s.inFlight, w.frames)
    ensures Announced(SenderAfter(cx, w, a).inFlight, FramesAfter(w, a))
  {
    if a.DoDispatch? {
      DispatchAnnounces(cx, w.s, a.nowMs, a.policy, w.frames);
      AllAnnounced(TakeSendable(w.s, a.nowMs, a.policy).0.inFlight, FramesAfter(w, a));
    } else {
      OtherAnnounced(cx, w, a);
    }
  }

  lemma NextAnnounced(cx: Context, w: World, a: Action)
    requires SenderOk(cx, w.s) && Announced(w.s.inFlight, w.frames)
    ensures Announced(Next(cx, w, a).s.inFlight, Next(cx, w, a).frames)
  {
    if Enabled(w, a) && !a.DoDeliver? && !a.DoEmitAck? {
      SenderAnnounced(cx, w, a);
    }
  }

  lemma RunAnnounced(cx: Context, l: Limits, run: Run, n: nat)
    requires Honest(cx) && 1 <= l.capacity <= ACK_BITMAP_BITS && IsOrderedRun(cx, l, run) && n < |run.worlds|
    ensures Announced(run.worlds[n].s.inFlight, run.worlds[n].frames)
  {
    var keeps := (i: nat, w: World) => Inv(cx, w) && Announced(w.s.inFlight, w.frames);
    forall i | 0 <= i < |run.actions| && keeps(i, run.worlds[i])
      ensures keeps(i + 1, Next(cx, run.worlds[i], run.actions[i]))
    {
      NextInv(cx, run.worlds[i], run.actions[i]);
      NextAnnounced(cx, run.worlds[i], run.actions[i]);
    }
    OpenedWindowed(cx, l);
    RunKeeps(cx, run, Opened(l), n, keeps);
  }

  // ---- Delivering a batch ----

  /** The state after taking the items one by one. */
  function Fold<S, A>(step: (S, A) -> S, s: S, items: seq<A>): S
    decreases |items|
  {
    if items == [] then s else step(Fold(step, s, items[..|items| - 1]), items[|items| - 1])
  }

  lemma {:induction false} FoldKeeps<S(!new), A(!new)>(step: (S, A) -> S, s: S, items: seq<A>, keeps: (S, seq<A>) -> bool)
    requires keeps(s, [])
    requires forall t, done, i | 0 <= i < |items| && keeps(t, done) :: keeps(step(t, items[i]), done + [items[i]])
    ensures keeps(Fold(step, s, items), items)
    decreases |items|
  {
    if items != [] {
      var front := items[..|items| - 1];
      FoldKeeps(step, s, front, keeps);
      assert front + [items[|items| - 1]] == items;
    }
  }

  /** Deliver the given frames in the given order. */
  function AfterDeliveries(cx: Context, w: World, order: seq<bytes>): World {
    Fold((t: World, f: bytes) => Next(cx, t, DoDeliver(f)), w, order)
  }

  ghost predicate Covered(order: seq<bytes>, f: bytes) {
    exists i :: 0 <= i < |order| && order[i] == f
  }

  /** The receiver has taken note of sequence `k`: recorded its data, or holds the end record. */
  ghost predicate Taken(r: Receiver, log: seq<Item>, k: nat) {
    r.completed || (k < |log| && if log[k].Data? then Seen(r.window, k) else r.pendingEnd.Some?)
  }

  lemma ReceiveTakes(cx: Context, r: Receiver, log: seq<Item>, k: nat)
    requires WindowOk(r.window) && k < |log| <= U32_MAX && (r.pendingEnd.Some? ==> r.pendingEnd.value.0 < |log|)
    requires forall j | j in r.window.received :: j < |log|
    requires ReceiveItem(cx, r, k, log[k]).result.Ok?
    ensures Taken(ReceiveItem(cx, r, k, log[k]).state, log, k)
  {
    match log[k]
    case Data(payload) =>
      RecordedSeen(r.window, k);
      RecordedMoves(r.window, k, |log|);
      var p := ReceiveData(cx, r, k, payload);
      TryFinishMoves(cx, p.state, p.chunks, |log|);
    case End(end) =>
  }

  /** Receiving never loses an end record or completion. */
  lemma EndStays(cx: Context, r: Receiver, k: nat, item: Item)
    ensures var r' := ReceiveItem(cx, r, k, item).state;
            (r.pendingEnd.Some? ==> r'.pendingEnd.Some?) && (r.completed ==> r'.completed)
  {
  }

  /** A delivery takes note of its own sequence and keeps note of the others. */
  lemma DeliverTakes(cx: Context, l: Limits, w: World, k: nat, f: bytes)
    requires Honest(cx) && Healthy(cx, l, w) && Ample(l, w.writes) && WireForm(cx, w.s.log, k, f)
    ensures var r' := Receive(cx, w.r, f).state;
            Taken(r', w.s.log, k) && forall j: nat | Taken(w.r, w.s.log, j) :: Taken(r', w.s.log, j)
  {
    DeliverAccepted(cx, l, w, k, f);
    ReceiveTakes(cx, w.r, w.s.log, k);
    EndStays(cx, w.r, k, w.s.log[k]);
    ReceiveItemMoves(cx, w.r, k, w.s.log[k], |w.s.log|);
  }

  ghost predicate OnNetwork(order: seq<bytes>, frames: set<bytes>) {
    forall i | 0 <= i < |order| :: order[i] in frames
  }

  ghost predicate AllTaken(cx: Context, w: World, order: seq<bytes>) {
    forall k: nat, i | 0 <= i < |order| && WireForm(cx, w.s.log, k, order[i]) :: Taken(w.r, w.s.log, k)
  }

  lemma DeliveredTakes(cx: Context, l: Limits, w: World, front: seq<bytes>, f: bytes, k: nat)
    requires Honest(cx) && Healthy(cx, l, w) && Ample(l, w.writes) && f in w.frames && AllTaken(cx, w, front)
    requires WireForm(cx, w.s.log, k, f) || Taken(w.r, w.s.log, k)
    ensures Taken(Receive(cx, w.r, f).state, w.s.log, k)
  {
    if WireForm(cx, w.s.log, k, f) {
      DeliverTakes(cx, l, w, k, f);
    } else {
      var j :| WireForm(cx, w.s.log, j, f);
      DeliverTakes(cx, l, w, j, f);
    }
  }

  /** `t` is `w` after the given deliveries: only the receiver, the output and the acknowledgements have changed. */
  ghost predicate Batch(cx: Context, l: Limits, w: World, t: World, order: seq<bytes>) {
    && Healthy(cx, l, t) && AllTaken(cx, t, order)
    && t.s == w.s && t.frames == w.frames && t.writes == w.writes && t.lost == w.lost
  }

  lemma TakenSnoc(cx: Context, log: seq<Item>, r: Receiver, front: seq<bytes>, f: bytes)
    requires forall k: nat, i | 0 <= i < |front| && WireForm(cx, log, k, front[i]) :: Taken(r, log, k)
    requires forall k: nat | WireForm(cx, log, k, f) :: Taken(r, log, k)
    ensures forall k: nat, i | 0 <= i < |front + [f]| && WireForm(cx, log, k, (front + [f])[i]) :: Taken(r, log, k)
  {
  }

  lemma MoreTaken(cx: Context, l: Limits, t: World, front: seq<bytes>, f: bytes)
    requires Honest(cx) && Healthy(cx, l, t) && Ample(l, t.writes) && f in t.frames && AllTaken(cx, t, front)
    ensures AllTaken(cx, ReceiverStep(cx, t, f), front + [f])
  {
    var r' := Receive(cx, t.r, f).state;
    forall k: nat | WireForm(cx, t.s.log, k, f) || Taken(t.r, t.s.log, k)
      ensures Taken(r', t.s.log, k)
    {
      DeliveredTakes(cx, l, t, front, f, k);
    }
    TakenSnoc(cx, t.s.log, r', front, f);
  }

  lemma DeliverOne(cx: Context, l: Limits, w: World, t: World, front: seq<bytes>, f: bytes)
    requires Honest(cx) && Batch(cx, l, w, t, front) && Ample(l, w.writes) && f in w.frames
    ensures Batch(cx, l, w, ReceiverStep(cx, t, f), front + [f])
  {
    DeliverHealthy(cx, l, t, f);
    MoreTaken(cx, l, t, front, f);
  }

  lemma BatchNext(cx: Context, l: Limits, w: World, t: World, front: seq<bytes>, f: bytes)
    requires Honest(cx) && Batch(cx, l, w, t, front) && Ample(l, w.writes) && f in w.frames
    ensures Batch(cx, l, w, Next(cx, t, DoDeliver(f)), front + [f])
  {
    DeliverOne(cx, l, w, t, front, f);
  }

  lemma DeliveredHealthy(cx: Context, l: Limits, w: World, order: seq<bytes>)
    requires Honest(cx) && Healthy(cx, l, w) && Ample(l, w.writes) && OnNetwork(order, w.frames)
    ensures Batch(cx, l, w, AfterDeliveries(cx, w, order), order)
  {
    var keeps := (t: World, done: seq<bytes>) => Batch(cx, l, w, t, done);
    var step := (t: World, f: bytes) => Next(cx, t, DoDeliver(f));
    forall t: World, done, i | 0 <= i < |order| && keeps(t, done)
      ensures keeps(step(t, order[i]), done + [order[i]])
    {
      BatchNext(cx, l, w, t, done, order[i]);
    }
    FoldKeeps(step, w, order, keeps);
  }

  // ---- One round ----

  /** A completed receiver's cursor is past the end record, which is the last thing logged. */
  lemma CompletedIsPast(cx: Context, w: World)
    requires Honest(cx) && Kept(cx, w) && w.clean && w.r.completed
    ensures w.r.window.next == |w.s.log|
  {
    LogIsHonest(cx, w.s, w.writes, w.lost);
  }

  lemma NextIsNotEnd(cx: Context, w: World, e: nat)
    requires Honest(cx) && Kept(cx, w) && w.clean && !w.r.completed && w.r.pendingEnd.Some?
    requires e < |w.s.log| && w.s.log[e].End?
    ensures w.r.window.next != e
  {
    LogIsHonest(cx, w.s, w.writes, w.lost);
  }

  /** With every sequence noted, the cursor is past everything. */
  lemma EverythingSeen(cx: Context, w: World)
    requires Honest(cx) && Kept(cx, w) && w.clean && forall k: nat | k < |w.s.log| :: Taken(w.r, w.s.log, k)
    ensures w.r.window.next == |w.s.log|
    ensures forall k | k in w.r.window.received :: k < w.r.window.next
  {
    var next := w.r.window.next;
    if w.r.completed {
      CompletedIsPast(cx, w);
    } else if next < |w.s.log| {
      assert Taken(w.r, w.s.log, next);
      assert w.s.log[next].Data? ==> !Seen(w.r.window, next);
      NextIsNotEnd(cx, w, next);
    }
  }

  ghost predicate InFlightCovered(s: Sender, order: seq<bytes>) {
    forall k {:trigger Covered(order, s.inFlight[k].encoded)} | k in s.inFlight :: Covered(order, s.inFlight[k].encoded)
  }

  lemma TakenWhenCovered(cx: Context, w: World, order: seq<bytes>, k: nat)
    requires Honest(cx) && Kept(cx, w) && w.clean && AllTaken(cx, w, order) && InFlightCovered(w.s, order)
    requires k < |w.s.log|
    ensures Taken(w.r, w.s.log, k)
  {
    if k in w.s.inFlight {
      assert WireForm(cx, w.s.log, k, w.s.inFlight[k].encoded) && Covered(order, w.s.inFlight[k].encoded);
      var i :| 0 <= i < |order| && order[i] == w.s.inFlight[k].encoded;
    } else if !w.r.completed {
      assert Seen(w.r.window, k);
      if w.s.log[k].End? {
        EndIsUnseen(cx, w, k);
      }
    }
  }

  /** The acknowledgement of a receiver with nothing out of order covers everything and offers the whole capacity. */
  lemma FullAck(cx: Context, r: Receiver, bound: nat)
    requires WindowOk(r.window) && r.window.next == bound <= U32_MAX && forall k | k in r.window.received :: k < bound
    ensures var ack := AckOf(cx, r);
            && ack.direction == cx.direction && ack.receiveWindow == r.capacity
            && forall k: nat | k < bound :: Acknowledges(Snapshot(ack), k)
  {
    var bits := AckOf(cx, r).selective;
    assert forall i | 0 <= i < |bits| :: bits[i] == SelectiveBit(r.window, i);
    OnesBeyond(bits, 0);
    assert bits[..0] == [];
  }

  /** Such an acknowledgement empties the in-flight set and opens the window. */
  lemma FullRelease(cx: Context, s: Sender, ack: Ack)
    requires SenderOk(cx, s) && forall k: nat | k < s.nextSequence :: Acknowledges(Snapshot(ack), k)
    ensures AfterRelease(s, ack).inFlight == map[] && AfterRelease(s, ack).inFlightBytes == 0
    ensures SenderOk(cx, AfterRelease(s, ack))
    ensures AfterRelease(s, ack) == s.(inFlight := map[], inFlightBytes := 0, peerWindow := ack.receiveWindow)
  {
    AfterReleaseIs(cx, s, ack);
    assert AfterRelease(s, ack).inFlight == map[];
    WeightNoneInFlight(s.nextSequence);
  }

  lemma {:induction false} WeightNoneInFlight(n: nat)
    ensures WeightBelow(map[], EncodedLength, n) == 0
  {
    if n > 0 {
      WeightNoneInFlight(n - 1);
    }
  }

  /** One round: dispatch what is due, deliver frames in the given order, and process the resulting acknowledgement. */
  datatype Plan = Plan(nowMs: nat, policy: RetryPolicy, order: seq<bytes>)

  function AfterDispatch(cx: Context, w: World, p: Plan): World {
    Next(cx, w, DoDispatch(p.nowMs, p.policy))
  }

  function AfterAck(cx: Context, w: World): World {
    Next(cx, Next(cx, w, DoEmitAck), DoAck(|w.acks|))
  }

  function Round(cx: Context, w: World, p: Plan): World {
    AfterAck(cx, AfterDeliveries(cx, AfterDispatch(cx, w, p), p.order))
  }

  /** The order names only frames that are on the network, in any order and with any repetition, and every frame in
      flight at least once. */
  ghost predicate Fair(cx: Context, w: World, p: Plan) {
    var sent := AfterDispatch(cx, w, p);
    OnNetwork(p.order, sent.frames) && InFlightCovered(sent.s, p.order)
  }

  lemma AckWrites(cx: Context, w: World, ack: Ack)
    requires Honest(cx) && Kept(cx, w)
    ensures History(Acknowledge(cx, w.s, ack).state, w.writes) == w.writes
  {
    AckFlow(cx, w.s, ack, w.writes, w.lost);
    HistoryIs(cx, w.s, Acknowledge(cx, w.s, ack).state, w.writes, w.lost);
  }

  lemma AfterAckIs(cx: Context, w: World)
    ensures AfterAck(cx, w) == w.(s := Acknowledge(cx, w.s, AckOf(cx, w.r)).state, acks := w.acks + [AckOf(cx, w.r)],
                                  lastAck := Some(|w.acks|),
                                  writes := History(Acknowledge(cx, w.s, AckOf(cx, w.r)).state, w.writes))
  {
    var t := w.(acks := w.acks + [AckOf(cx, w.r)]);
    assert t.acks[|w.acks|] == AckOf(cx, w.r);
    assert w.frames + {} == w.frames;
  }

  lemma LatestAckHealthy(cx: Context, l: Limits, t: World, i: nat)
    requires Honest(cx) && Healthy(cx, l, t) && |t.acks| == i + 1
    ensures Healthy(cx, l, Next(cx, t, DoAck(i)))
  {
    SenderHealthy(cx, l, t, DoAck(i));
  }

  lemma EmitIs(cx: Context, w: World)
    ensures Next(cx, w, DoEmitAck) == w.(acks := w.acks + [AckOf(cx, w.r)])
  {
  }

  lemma EmittedHealthy(cx: Context, l: Limits, w: World, t: World)
    requires Healthy(cx, l, w) && t == w.(acks := w.acks + [AckOf(cx, w.r)])
    ensures Healthy(cx, l, t) && |t.acks| == |w.acks| + 1
  {
    EmitHealthy(cx, l, w);
  }

  lemma AfterAckHealthy(cx: Context, l: Limits, w: World)
    requires Honest(cx) && Healthy(cx, l, w)
    ensures Healthy(cx, l, AfterAck(cx, w))
  {
    EmitIs(cx, w);
    var t := Next(cx, w, DoEmitAck);
    EmittedHealthy(cx, l, w, t);
    LatestAckHealthy(cx, l, t, |w.acks|);
  }

  lemma DispatchedIs(cx: Context, l: Limits, w: World, p: Plan)
    requires Honest(cx) && Healthy(cx, l, w)
    ensures var t := AfterDispatch(cx, w, p);
            && Healthy(cx, l, t) && t.s == w.s.(inFlight := t.s.inFlight) && t.s.inFlight.Keys == w.s.inFlight.Keys
            && t.r == w.r && t.lost == w.lost && t.writes == w.writes
  {
    SenderHealthy(cx, l, w, DoDispatch(p.nowMs, p.policy));
    TakeSendableOk(cx, w.s, p.nowMs, p.policy);
    HistoryIs(cx, w.s, TakeSendable(w.s, p.nowMs, p.policy).0, w.writes, w.lost);
  }

  /** After the deliveries of a fair round, everything numbered so far has been seen. */
  lemma RoundDelivers(cx: Context, l: Limits, w: World, p: Plan)
    requires Honest(cx) && Healthy(cx, l, w) && Ample(l, w.writes) && Fair(cx, w, p)
    ensures var t := AfterDeliveries(cx, AfterDispatch(cx, w, p), p.order);
            && Healthy(cx, l, t) && t.r.window.next == |w.s.log| && t.lost == w.lost && t.writes == w.writes
            && t.s == w.s.(inFlight := t.s.inFlight) && t.s.inFlight.Keys == w.s.inFlight.Keys
            && forall k | k in t.r.window.received :: k < t.r.window.next
  {
    var sent := AfterDispatch(cx, w, p);
    DispatchedIs(cx, l, w, p);
    DeliveredHealthy(cx, l, sent, p.order);
    var t := AfterDeliveries(cx, sent, p.order);
    forall k: nat | k < |t.s.log|
      ensures Taken(t.r, t.s.log, k)
    {
      TakenWhenCovered(cx, t, p.order, k);
    }
    EverythingSeen(cx, t);
  }

  /** The sender with nothing in flight and the whole capacity offered. */
  function Emptied(s: Sender, capacity: nat): Sender {
    s.(inFlight := map[], inFlightBytes := 0, peerWindow := capacity)
  }

  lemma FullAckRefills(cx: Context, d: World, capacity: nat)
    requires Kept(cx, d) && d.r.capacity == capacity <= ACK_BITMAP_BITS && d.r.window.next == |d.s.log|
    requires forall k | k in d.r.window.received :: k < d.r.window.next
    ensures SenderOk(cx, Emptied(d.s, capacity))
    ensures Acknowledge(cx, d.s, AckOf(cx, d.r)) == Pump(cx, Emptied(d.s, capacity))
  {
    FullAck(cx, d.r, |d.s.log|);
    FullRelease(cx, d.s, AckOf(cx, d.r));
  }

  lemma AfterAckRefills(cx: Context, l: Limits, d: World)
    requires Honest(cx) && Healthy(cx, l, d) && d.r.window.next == |d.s.log|
    requires forall k | k in d.r.window.received :: k < d.r.window.next
    ensures var t := AfterAck(cx, d);
            Healthy(cx, l, t) && t.s == Pump(cx, Emptied(d.s, l.capacity)).state && t.writes == d.writes
            && t.lost == d.lost
    ensures SenderOk(cx, Emptied(d.s, l.capacity))
  {
    FullAckRefills(cx, d, l.capacity);
    AfterAckHealthy(cx, l, d);
    AfterAckIs(cx, d);
    AckWrites(cx, d, AckOf(cx, d.r));
  }

  /** A fair round takes everything in flight off the sender's hands: what is left is what refilling an emptied window
      of the full capacity gives. */
  lemma RoundClears(cx: Context, l: Limits, w: World, p: Plan)
    requires Honest(cx) && Healthy(cx, l, w) && Ample(l, w.writes) && Fair(cx, w, p)
    ensures var t := Round(cx, w, p);
            Healthy(cx, l, t) && t.s == Pump(cx, Emptied(w.s, l.capacity)).state && t.writes == w.writes
            && t.lost == w.lost
    ensures SenderOk(cx, Emptied(w.s, l.capacity))
  {
    RoundDelivers(cx, l, w, p);
    var d := AfterDeliveries(cx, AfterDispatch(cx, w, p), p.order);
    AfterAckRefills(cx, l, d);
    assert Emptied(d.s, l.capacity) == Emptied(w.s, l.capacity);
  }

  // ---- Several rounds ----

  function Rounds(cx: Context, w: World, plans: seq<Plan>): World
    decreases |plans|
  {
    if plans == [] then w else Rounds(cx, Round(cx, w, plans[0]), plans[1..])
  }

  ghost predicate FairAll(cx: Context, w: World, plans: seq<Plan>)
    decreases |plans|
  {
    plans != [] ==> Fair(cx, w, plans[0]) && FairAll(cx, Round(cx, w, plans[0]), plans[1..])
  }

  /** Room in the byte budget for the framing overhead of one window, and enough sequence numbers. */
  ghost predicate Budgeted(cx: Context, s: Sender, capacity: nat, overhead: nat) {
    && Sendable(cx, s.pending, overhead) && s.nextSequence + |s.pending| < U32_MAX
    && s.pendingBytes + Min(s.localWindow, capacity) * overhead <= s.maxBufferedBytes
  }

  lemma {:induction false} PendingTotalRest(items: seq<Item>, n: nat)
    requires n <= |items|
    ensures PendingTotal(items[n..]) <= PendingTotal(items)
    decreases n
  {
    if n > 0 {
      PendingTotalRest(items[1..], n - 1);
      assert items[1..][n - 1..] == items[n..];
    }
  }

  lemma {:induction false} TimesGrows(a: nat, b: nat, k: nat)
    requires a <= b
    ensures Times(a, k) <= Times(b, k)
    decreases b
  {
    if a < b {
      TimesGrows(a, b - 1, k);
    }
  }

  /** With the budget, an emptied window refills with as many waiting items as the smaller window allows. */
  lemma RefillLaunches(cx: Context, s: Sender, capacity: nat, overhead: nat)
    requires SenderOk(cx, Emptied(s, capacity)) && Budgeted(cx, s, capacity, overhead)
    ensures var e := Emptied(s, capacity);
            Launched(e, Pump(cx, e).state, Min(Min(s.localWindow, capacity), |s.pending|))
            && Budgeted(cx, Pump(cx, e).state, capacity, overhead)
  {
    var e := Emptied(s, capacity);
    var n := Min(Min(s.localWindow, capacity), |s.pending|);
    TimesIs(Min(s.localWindow, capacity), overhead);
    TimesGrows(n, Min(s.localWindow, capacity), overhead);
    PumpLaunches(cx, e, overhead);
    PumpOk(cx, e);
    PendingTotalRest(s.pending, n);
    SendableRest(cx, s.pending, n, overhead);
  }

  /** Everything a round needs of the sender, and what it leaves for the next. */
  ghost predicate Finishing(cx: Context, l: Limits, w: World, overhead: nat) {
    && Healthy(cx, l, w) && Ample(l, w.writes) && Budgeted(cx, w.s, l.capacity, overhead) && w.s.inputFinished && !w.lost
  }

  lemma RoundLaunches(cx: Context, l: Limits, w: World, p: Plan, overhead: nat)
    requires Honest(cx) && Finishing(cx, l, w, overhead) && Fair(cx, w, p)
    ensures var t := Round(cx, w, p);
            var n := Min(Min(w.s.localWindow, l.capacity), |w.s.pending|);
            && Finishing(cx, l, t, overhead) && t.writes == w.writes && t.s.localWindow == w.s.localWindow
            && t.s.pending == w.s.pending[n..] && |t.s.inFlight| == n
  {
    RoundClears(cx, l, w, p);
    RefillLaunches(cx, w.s, l.capacity, overhead);
    PumpKeepsEncoder(cx, Emptied(w.s, l.capacity));
    PumpOk(cx, Emptied(w.s, l.capacity));
  }

  /** A sender with nothing left: the receiver is complete and has delivered everything. */
  lemma FinishedIsDelivered(cx: Context, l: Limits, w: World, overhead: nat)
    requires Honest(cx) && Finishing(cx, l, w, overhead) && w.s.pending == [] && |w.s.inFlight| == 0
    ensures SenderComplete(w.s) && w.r.completed && w.out == Input(w.writes)
  {
    assert w.s.inFlight == map[];
    assert Intact(cx, w.s, w.writes);
    CompleteWhenEnded(cx, w);
  }

  lemma FewerRounds(pending: nat, rounds: nat, window: nat)
    requires rounds >= 2 && pending <= (rounds - 1) * window
    ensures pending - Min(window, pending) <= (rounds - 2) * window
  {
    assert (rounds - 1) * window == (rounds - 2) * window + window;
    assert 0 <= (rounds - 2) * window;
  }

  /** One of several rounds still needed leaves few enough items for the rest. */
  lemma RoundCounts(cx: Context, l: Limits, w: World, p: Plan, rounds: nat, overhead: nat)
    requires Honest(cx) && Finishing(cx, l, w, overhead) && Fair(cx, w, p) && rounds > 0
    requires |w.s.pending| <= (rounds - 1) * Min(w.s.localWindow, l.capacity)
    ensures var t := Round(cx, w, p);
            && Finishing(cx, l, t, overhead) && t.writes == w.writes
            && (rounds == 1 ==> t.s.pending == [] && |t.s.inFlight| == 0)
            && (rounds > 1 ==> |t.s.pending| <= (rounds - 2) * Min(t.s.localWindow, l.capacity))
  {
    RoundLaunches(cx, l, w, p, overhead);
    if rounds > 1 {
      FewerRounds(|w.s.pending|, rounds, Min(w.s.localWindow, l.capacity));
    }
  }

  /** The next step of a schedule, with the world after its first round named. */
  lemma RoundsStep(cx: Context, w: World, plans: seq<Plan>, t: World)
    requires plans != [] && t == Round(cx, w, plans[0])
    ensures Rounds(cx, w, plans) == Rounds(cx, t, plans[1..])
    ensures FairAll(cx, w, plans) ==> Fair(cx, w, plans[0]) && FairAll(cx, t, plans[1..])
  {
  }

  /** What finishing delivers, as one statement about the last world. */
  ghost predicate AllDelivered(t: World, input: bytes) {
    SenderComplete(t.s) && t.r.completed && t.out == input
  }

  lemma LastRound(cx: Context, l: Limits, t: World, overhead: nat)
    requires Honest(cx) && Finishing(cx, l, t, overhead) && t.s.pending == [] && |t.s.inFlight| == 0
    ensures AllDelivered(Rounds(cx, t, []), Input(t.writes))
  {
    FinishedIsDelivered(cx, l, t, overhead);
  }

  lemma {:induction false} RoundsFinish(cx: Context, l: Limits, w: World, plans: seq<Plan>, overhead: nat)
    requires Honest(cx) && Finishing(cx, l, w, overhead) && FairAll(cx, w, plans) && plans != []
    requires |w.s.pending| <= (|plans| - 1) * Min(w.s.localWindow, l.capacity)
    ensures AllDelivered(Rounds(cx, w, plans), Input(w.writes))
    decreases |plans|
  {
    var t := Round(cx, w, plans[0]);
    RoundsStep(cx, w, plans, t);
    RoundCounts(cx, l, w, plans[0], |plans|, overhead);
    if |plans| == 1 {
      LastRound(cx, l, t, overhead);
    } else {
      RoundsFinish(cx, l, t, plans[1..], overhead);
    }
  }

  /** After any run without reordered acknowledgements, a finished sender with k items waiting completes within
      1 + ceil(k / window) fair rounds, the window being the smaller of the two sides', whatever the order of
      deliveries and however often frames are repeated; the receiver is then complete and has delivered exactly what
      was pushed. */
  lemma CompletesWithinRounds(cx: Context, l: Limits, run: Run, n: nat, plans: seq<Plan>, overhead: nat)
    requires Honest(cx) && 1 <= l.capacity <= ACK_BITMAP_BITS && IsOrderedRun(cx, l, run) && n < |run.worlds|
    requires var w := run.worlds[n];
             && Ample(l, w.writes) && w.s.inputFinished && Budgeted(cx, w.s, l.capacity, overhead)
             && FairAll(cx, w, plans) && plans != []
             && |w.s.pending| <= (|plans| - 1) * Min(l.windowFrames, l.capacity)
    ensures AllDelivered(Rounds(cx, run.worlds[n], plans), Input(run.worlds[n].writes))
  {
    RunHealthy(cx, l, run, n);
    RunWindow(cx, l, run, n);
    InputNotLost(cx, run.worlds[n]);
    RoundsFinish(cx, l, run.worlds[n], plans, overhead);
  }

  /** A finished sender has dropped nothing. */
  lemma InputNotLost(cx: Context, w: World)
    requires Kept(cx, w) && w.s.inputFinished
    ensures !w.lost
  {
  }

  /** The local window is fixed when the sender is made. */
  lemma RunWindow(cx: Context, l: Limits, run: Run, n: nat)
    requires Honest(cx) && 1 <= l.capacity <= ACK_BITMAP_BITS && IsOrderedRun(cx, l, run) && n < |run.worlds|
    ensures run.worlds[n].s.localWindow == l.windowFrames
  {
    var keeps := (i: nat, w: World) => SenderOk(cx, w.s) && w.s.localWindow == l.windowFrames;
    forall i | 0 <= i < |run.actions| && keeps(i, run.worlds[i])
      ensures keeps(i + 1, Next(cx, run.worlds[i], run.actions[i]))
    {
      NextWindow(cx, run.worlds[i], run.actions[i]);
    }
    InitialOk(cx, l.frameLimit, l.reservedMetadata, l.windowFrames, l.maxPendingBytes);
    RunKeeps(cx, run, Opened(l), n, keeps);
  }

  lemma NextWindow(cx: Context, w: World, a: Action)
    requires SenderOk(cx, w.s)
    ensures SenderOk(cx, Next(cx, w, a).s) && Next(cx, w, a).s.localWindow == w.s.localWindow
  {
    SenderAfterOk(cx, w, a);
  }

  /** After the dispatch every frame in flight is on the network, so an order made of them that covers them is fair. */
  lemma FairOrder(cx: Context, w: World, p: Plan)
    requires Kept(cx, w) && Announced(w.s.inFlight, w.frames)
    requires InFlightCovered(AfterDispatch(cx, w, p).s, p.order)
    requires forall i | 0 <= i < |p.order| :: Carried(AfterDispatch(cx, w, p).s.inFlight, p.order[i])
    ensures Fair(cx, w, p)
  {
    DispatchAnnounces(cx, w.s, p.nowMs, p.policy, w.frames);
  }

  /** And so it does after every ordered run and after every fair round. */
  lemma RoundAnnounced(cx: Context, l: Limits, w: World, p: Plan)
    requires Honest(cx) && Healthy(cx, l, w) && Ample(l, w.writes) && Fair(cx, w, p) && Announced(w.s.inFlight, w.frames)
    ensures Announced(Round(cx, w, p).s.inFlight, Round(cx, w, p).frames)
  {
    var sent := AfterDispatch(cx, w, p);
    NextAnnounced(cx, w, DoDispatch(p.nowMs, p.policy));
    DispatchedIs(cx, l, w, p);
    DeliveredHealthy(cx, l, sent, p.order);
    var d := AfterDeliveries(cx, sent, p.order);
    AfterAckIs(cx, d);
    AckAnnounced(cx, d.s, AckOf(cx, d.r), d.frames);
  }

  // ---- Fair schedules exist ----

  /** The frames in flight below `n`, in sequence order. */
  function FlightOrder(m: map<nat, Retained>, n: nat): seq<bytes> {
    if n == 0 then [] else FlightOrder(m, n - 1) + (if n - 1 in m then [m[n - 1].encoded] else [])
  }

  lemma CoveredMore(order: seq<bytes>, more: seq<bytes>, f: bytes)
    requires Covered(order, f) || f in more
    ensures Covered(order + more, f)
  {
    if f in more {
      var j :| 0 <= j < |more| && more[j] == f;
      assert (order + more)[|order| + j] == f;
    } else {
      var i :| 0 <= i < |order| && order[i] == f;
      assert (order + more)[i] == f;
    }
  }

  lemma {:induction false} FlightOrderIs(m: map<nat, Retained>, n: nat)
    ensures forall k | k in m && k < n :: Covered(FlightOrder(m, n), m[k].encoded)
    ensures forall i | 0 <= i < |FlightOrder(m, n)| :: Carried(m, FlightOrder(m, n)[i])
  {
    if n > 0 {
      FlightOrderIs(m, n - 1);
      var more := if n - 1 in m then [m[n - 1].encoded] else [];
      forall k | k in m && k < n
        ensures Covered(FlightOrder(m, n), m[k].encoded)
      {
        CoveredMore(FlightOrder(m, n - 1), more, m[k].encoded);
      }
    }
  }

  /** In sequence order, each once: with this order any dispatch starts a fair round. */
  lemma FairPlan(cx: Context, w: World, nowMs: nat, policy: RetryPolicy) returns (p: Plan)
    requires Kept(cx, w) && Announced(w.s.inFlight, w.frames)
    ensures Fair(cx, w, p) && p.nowMs == nowMs && p.policy == policy
  {
    var sent := Next(cx, w, DoDispatch(nowMs, policy)).s;
    p := Plan(nowMs, policy, FlightOrder(sent.inFlight, sent.nextSequence));
    FlightOrderIs(sent.inFlight, sent.nextSequence);
    TakeSendableOk(cx, w.s, nowMs, policy);
    FairOrder(cx, w, p);
  }

  ghost predicate SameTimes(plans: seq<Plan>, times: seq<nat>, policy: RetryPolicy) {
    && |plans| == |times| && forall i | 0 <= i < |plans| :: plans[i].nowMs == times[i] && plans[i].policy == policy
  }

  lemma FairAllIs(cx: Context, w: World, p: Plan, t: World, rest: seq<Plan>)
    requires Fair(cx, w, p) && t == Round(cx, w, p) && FairAll(cx, t, rest)
    ensures FairAll(cx, w, [p] + rest)
  {
    assert ([p] + rest)[1..] == rest;
  }

  /** All that a schedule of fair rounds needs of a world. */
  ghost predicate Steady(cx: Context, l: Limits, w: World) {
    Healthy(cx, l, w) && Ample(l, w.writes) && Announced(w.s.inFlight, w.frames)
  }

  lemma RoundSteady(cx: Context, l: Limits, w: World, p: Plan) returns (t: World)
    requires Honest(cx) && Steady(cx, l, w) && Fair(cx, w, p)
    ensures t == Round(cx, w, p) && Steady(cx, l, t)
  {
    t := Round(cx, w, p);
    RoundClears(cx, l, w, p);
    RoundAnnounced(cx, l, w, p);
  }

  lemma SameTimesMore(p: Plan, rest: seq<Plan>, times: seq<nat>, policy: RetryPolicy)
    requires times != [] && p.nowMs == times[0] && p.policy == policy && SameTimes(rest, times[1..], policy)
    ensures SameTimes([p] + rest, times, policy)
  {
  }

  /** From any healthy world, whenever the dispatches take place and whatever the retry policy, there are fair rounds. */
  lemma {:induction false} FairPlans(cx: Context, l: Limits, w: World, times: seq<nat>, policy: RetryPolicy)
    returns (plans: seq<Plan>)
    requires Honest(cx) && Steady(cx, l, w)
    ensures SameTimes(plans, times, policy) && FairAll(cx, w, plans)
    decreases |times|
  {
    plans := [];
    if times != [] {
      var p := FairPlan(cx, w, times[0], policy);
      var t := RoundSteady(cx, l, w, p);
      var rest := FairPlans(cx, l, t, times[1..], policy);
      FairAllIs(cx, w, p, t, rest);
      SameTimesMore(p, rest, times, policy);
      plans := [p] + rest;
    }
  }

  /** After any run without reordered acknowledgements, fair rounds exist for dispatches at any times under any retry
      policy, and as many as `CompletesWithinRounds` asks for complete the transfer. */
  lemma FairRoundsComplete(cx: Context, l: Limits, run: Run, n: nat, times: seq<nat>, policy: RetryPolicy, overhead: nat)
    returns (plans: seq<Plan>)
    requires Honest(cx) && 1 <= l.capacity <= ACK_BITMAP_BITS && IsOrderedRun(cx, l, run) && n < |run.worlds|
    requires var w := run.worlds[n];
             && Ample(l, w.writes) && w.s.inputFinished && Budgeted(cx, w.s, l.capacity, overhead) && times != []
             && |w.s.pending| <= (|times| - 1) * Min(l.windowFrames, l.capacity)
    ensures SameTimes(plans, times, policy) && FairAll(cx, run.worlds[n], plans)
    ensures AllDelivered(Rounds(cx, run.worlds[n], plans), Input(run.worlds[n].writes))
  {
    RunHealthy(cx, l, run, n);
    RunAnnounced(cx, l, run, n);
    plans := FairPlans(cx, l, run.worlds[n], times, policy);
    CompletesWithinRounds(cx, l, run, n, plans, overhead);
  }
}
