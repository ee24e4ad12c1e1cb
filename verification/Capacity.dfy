/** With reassembly room for one window of full payloads, no receive of an ordered run ever fails. */
module Capacity {
  import opened Prelude
  import opened Core
  import opened Stream
  import opened Sender
  import opened SenderInvariant
  import opened SenderFlow
  import opened Receiver
  import opened ReceiverInvariant
  import opened Coupling
  import opened Protocol
  import opened Delivery
  import opened Span
  import opened Windowed

  /** The reassembler's byte counter is the exact sum of what it holds. */
  ghost predicate HeldBytes(r: Reassembly, n: nat) {
    r.pendingBytes == WeightBelow(r.pending, Length, n)
  }

  lemma {:induction false} WeightSpan(m: map<nat, bytes>, base: nat, n: nat, target: nat)
    requires forall k | k in m :: base <= k && |m[k]| <= target
    ensures WeightBelow(m, Length, base + n) <= Times(n, target)
    decreases base + n
  {
    if n > 0 {
      WeightSpan(m, base, n - 1, target);
    } else if base > 0 {
      WeightNone(m, base);
    }
  }

  lemma {:induction false} WeightNone(m: map<nat, bytes>, base: nat)
    requires forall k | k in m :: base <= k
    ensures WeightBelow(m, Length, base) == 0
  {
    if base > 0 {
      WeightNone(m, base - 1);
    }
  }

  /** Where the sum stops does not matter beyond the last key. */
  lemma WeightUpTo(m: map<nat, bytes>, a: nat, b: nat)
    requires forall k | k in m :: k < a && k < b
    ensures WeightBelow(m, Length, a) == WeightBelow(m, Length, b)
  {
    if a <= b {
      WeightBeyond(m, Length, a, b);
    } else {
      WeightBeyond(m, Length, b, a);
    }
  }

  /** One more payload within `capacity` of the cursor fits in `capacity` full payloads. */
  lemma InsertFits(r: Reassembly, log: seq<Item>, k: nat, payload: bytes, capacity: nat, target: nat)
    requires ReassemblyOf(r, log) && HeldBytes(r, |log|) && Fits(target, log)
    requires r.next <= k < |log| && k < r.next + capacity && k !in r.pending && log[k] == Data(payload)
    requires forall j | j in r.pending :: j < r.next + capacity
    ensures r.pendingBytes + |payload| <= Times(capacity, target)
  {
    var m := r.pending[k := payload];
    WeightInsert(r.pending, Length, |log|, k, payload);
    WeightUpTo(m, |log|, r.next + capacity);
    WeightSpan(m, r.next, capacity, target);
  }

  lemma ReassembledHeld(r: Reassembly, log: seq<Item>, k: nat, payload: bytes)
    requires ReassemblyOf(r, log) && HeldBytes(r, |log|) && k < |log| && log[k] == Data(payload)
    ensures match Reassembled(r, k, payload)
            case Pushed(t, _) => HeldBytes(t, |log|) && t.maxPendingBytes == r.maxPendingBytes
            case Rejected(_, _) => true
  {
    if r.next <= k && k !in r.pending {
      var inserted := Inserted(r, k, payload);
      WeightInsert(r.pending, Length, |log|, k, payload);
      InsertedOf(r, log, k, payload);
      DrainedBytes(inserted, |log|);
      DrainedIs(inserted, log);
    }
  }

  lemma {:induction false} DecodeAllLimit(cx: Context, d: Decoder, ready: seq<bytes>)
    ensures var d' := DecodeAll(cx, Some(d), ready).0; d'.Some? && d'.value.maxLogicalLength == d.maxLogicalLength
    decreases |ready|
  {
    if ready != [] {
      var (d', r) := DecoderPush(cx, d, ready[0]);
      if r.Ok? {
        DecodeAllLimit(cx, d', ready[1..]);
      }
    }
  }

  /** The receiver still has the limits it was made with, and its byte counter is exact. */
  ghost predicate Provisioned(l: Limits, r: Receiver, n: nat) {
    && r.reassembly.maxPendingBytes == l.maxOutOfOrderBytes && HeldBytes(r.reassembly, n)
    && (r.decoder.Some? ==> r.decoder.value.maxLogicalLength == l.maxLogicalLength)
  }

  lemma DataProvisioned(cx: Context, l: Limits, r: Receiver, log: seq<Item>, k: nat, payload: bytes)
    requires Provisioned(l, r, |log|) && ReassemblyOf(r.reassembly, log) && k < |log| && log[k] == Data(payload)
    ensures Provisioned(l, ReceiveData(cx, r, k, payload).state, |log|)
  {
    ReassembledHeld(r.reassembly, log, k, payload);
    var pushed := Reassembled(r.reassembly, k, payload);
    if pushed.Pushed? && r.decoder.Some? {
      DecodeAllLimit(cx, r.decoder.value, pushed.ready);
    }
  }

  lemma FinishProvisioned(cx: Context, l: Limits, r: Receiver, n: nat, chunks: seq<bytes>)
    requires Provisioned(l, r, n)
    ensures Provisioned(l, TryFinish(cx, r, chunks).state, n)
  {
  }

  lemma ItemProvisioned(cx: Context, l: Limits, r: Receiver, log: seq<Item>, k: nat)
    requires Provisioned(l, r, |log|) && ReassemblyOf(r.reassembly, log) && k < |log|
    ensures Provisioned(l, ReceiveItem(cx, r, k, log[k]).state, |log|)
  {
    match log[k]
    case Data(payload) =>
      var p := ReceiveData(cx, r, k, payload);
      DataProvisioned(cx, l, r, log, k, payload);
      FinishProvisioned(cx, l, p.state, |log|, p.chunks);
    case End(end) =>
      FinishProvisioned(cx, l, r.(pendingEnd := Some((k, end))), |log|, []);
  }

  /** Reassembly room for a window of full payloads. */
  predicate WindowFits(l: Limits) {
    l.maxOutOfOrderBytes >= Times(l.capacity, TargetPayload(l.frameLimit, l.reservedMetadata))
  }

  /** That, and an output bound the pushed bytes respect. */
  ghost predicate Ample(l: Limits, writes: seq<Write>) {
    WindowFits(l) && |Input(writes)| <= l.maxLogicalLength
  }

  /** Everything known of an ordered run without failures. */
  ghost predicate Healthy(cx: Context, l: Limits, w: World) {
    && Kept(cx, w) && WindowedInv(cx, w, l.capacity) && w.clean
    && w.s.target == TargetPayload(l.frameLimit, l.reservedMetadata) && Provisioned(l, w.r, |w.s.log|)
  }

  /** What the receiver holds, and what may still arrive, lies within the capacity of its cursor. */
  lemma Reach(cx: Context, w: World, capacity: nat)
    requires Kept(cx, w) && WindowedInv(cx, w, capacity)
    ensures |w.s.log| <= w.r.window.next + capacity
  {
    BaseNotPassed(cx, LastAckOf(cx, w), w.r.window);
  }

  lemma DataAccepted(cx: Context, l: Limits, w: World, k: nat, payload: bytes)
    requires Honest(cx) && Healthy(cx, l, w) && Ample(l, w.writes)
    requires k < |w.s.log| && w.s.log[k] == Data(payload)
    ensures AcceptData(cx, w.r, k, payload).result.Ok?
  {
    if w.r.completed {
    } else if k < w.r.window.next {
      LateDuplicateIsSilent(cx, w.r, k, payload);
    } else if k in w.r.window.received {
      HeldDuplicateIsSilent(cx, w.r, k, payload);
    } else {
      Reach(cx, w, l.capacity);
      InsertFits(w.r.reassembly, w.s.log, k, payload, l.capacity, w.s.target);
      LogIsHonest(cx, w.s, w.writes, w.lost);
      DataCoupled(cx, w.r, w.s.log, w.writes, w.out, k, payload);
    }
  }

  lemma ItemAccepted(cx: Context, l: Limits, w: World, k: nat)
    requires Honest(cx) && Healthy(cx, l, w) && Ample(l, w.writes) && k < |w.s.log|
    ensures ReceiveItem(cx, w.r, k, w.s.log[k]).result.Ok?
  {
    match w.s.log[k]
    case Data(payload) => DataAccepted(cx, l, w, k, payload);
    case End(end) =>
      LogIsHonest(cx, w.s, w.writes, w.lost);
      EndCoupled(cx, w.r, w.s.log, w.writes, w.out, k, end);
  }

  lemma DeliverAccepted(cx: Context, l: Limits, w: World, k: nat, f: bytes)
    requires Honest(cx) && Healthy(cx, l, w) && Ample(l, w.writes) && WireForm(cx, w.s.log, k, f)
    ensures Receive(cx, w.r, f) == ReceiveItem(cx, w.r, k, w.s.log[k]) && Receive(cx, w.r, f).result.Ok?
    ensures Provisioned(l, Receive(cx, w.r, f).state, |w.s.log|)
  {
    LogIsHonest(cx, w.s, w.writes, w.lost);
    ReceiveIs(cx, w.r, w.s.log, w.writes, k, f);
    ItemAccepted(cx, l, w, k);
    ItemProvisioned(cx, l, w.r, w.s.log, k);
  }

  lemma SenderProvisioned(cx: Context, l: Limits, w: World, a: Action)
    requires Kept(cx, w) && w.clean && Provisioned(l, w.r, |w.s.log|) && Follows(w.s, SenderAfter(cx, w, a))
    ensures Provisioned(l, w.r, |SenderAfter(cx, w, a).log|)
  {
    WeightUpTo(w.r.reassembly.pending, |w.s.log|, |SenderAfter(cx, w, a).log|);
  }

  lemma DeliverHealthy(cx: Context, l: Limits, w: World, f: bytes)
    requires Honest(cx) && Healthy(cx, l, w) && Ample(l, w.writes) && f in w.frames
    ensures Healthy(cx, l, ReceiverStep(cx, w, f))
  {
    DeliverKept(cx, w, f);
    DeliverWindowed(cx, w, f, l.capacity);
    var k :| WireForm(cx, w.s.log, k, f);
    DeliverAccepted(cx, l, w, k, f);
  }

  lemma SenderHealthy(cx: Context, l: Limits, w: World, a: Action)
    requires Honest(cx) && Healthy(cx, l, w) && InOrder(w, a) && Enabled(w, a) && !a.DoDeliver? && !a.DoEmitAck?
    ensures Healthy(cx, l, SenderStep(cx, w, a)) && Input(w.writes) <= Input(SenderStep(cx, w, a).writes)
  {
    SenderStepKept(cx, w, a);
    NextWindowed(cx, w, a, l.capacity);
    SenderAfterOk(cx, w, a);
    SenderProvisioned(cx, l, w, a);
    SenderAfterWrites(cx, w, a);
  }

  lemma EmitHealthy(cx: Context, l: Limits, w: World)
    requires Healthy(cx, l, w)
    ensures Healthy(cx, l, w.(acks := w.acks + [AckOf(cx, w.r)]))
  {
    EmitAckKept(cx, w);
    EmitWindowed(cx, w, l.capacity);
  }

  lemma NextHealthy(cx: Context, l: Limits, w: World, a: Action)
    requires Honest(cx) && Healthy(cx, l, w) && InOrder(w, a) && Ample(l, w.writes)
    ensures Healthy(cx, l, Next(cx, w, a))
  {
    if Enabled(w, a) {
      match a
      case DoDeliver(f) => DeliverHealthy(cx, l, w, f);
      case DoEmitAck => EmitHealthy(cx, l, w);
      case _ => SenderHealthy(cx, l, w, a);
    }
  }

  lemma OpenedHealthy(cx: Context, l: Limits)
    requires Honest(cx) && 1 <= l.capacity <= ACK_BITMAP_BITS
    ensures Healthy(cx, l, Opened(l))
  {
    OpenedWindowed(cx, l);
  }

  /** Healthy as long as the limits are ample for what has been pushed. */
  ghost predicate Sound(cx: Context, l: Limits, w: World) {
    Kept(cx, w) && WindowedInv(cx, w, l.capacity) && (Ample(l, w.writes) ==> Healthy(cx, l, w))
  }

  lemma NextSound(cx: Context, l: Limits, w: World, a: Action)
    requires Honest(cx) && Sound(cx, l, w) && InOrder(w, a)
    ensures Sound(cx, l, Next(cx, w, a))
  {
    NextKept(cx, w, a);
    NextWindowed(cx, w, a, l.capacity);
    NextInput(cx, w, a);
    if Ample(l, Next(cx, w, a).writes) {
      NextHealthy(cx, l, w, a);
    }
  }

  lemma RunHealthy(cx: Context, l: Limits, run: Run, n: nat)
    requires Honest(cx) && 1 <= l.capacity <= ACK_BITMAP_BITS && IsOrderedRun(cx, l, run) && n < |run.worlds|
    requires Ample(l, run.worlds[n].writes)
    ensures Healthy(cx, l, run.worlds[n])
  {
    var keeps := (i: nat, w: World) => Sound(cx, l, w);
    forall i | 0 <= i < |run.actions| && keeps(i, run.worlds[i])
      ensures keeps(i + 1, Next(cx, run.worlds[i], run.actions[i]))
    {
      NextSound(cx, l, run.worlds[i], run.actions[i]);
    }
    OpenedHealthy(cx, l);
    RunKeeps(cx, run, Opened(l), n, keeps);
  }

  /** On a run whose acknowledgements are not reordered, with reassembly room for one window of full payloads and an
      output bound that the pushed bytes respect, no receive fails. */
  lemma NoReceiveFails(cx: Context, l: Limits, run: Run, n: nat)
    requires Honest(cx) && 1 <= l.capacity <= ACK_BITMAP_BITS && IsOrderedRun(cx, l, run) && n < |run.worlds|
    requires Ample(l, run.worlds[n].writes)
    ensures run.worlds[n].clean && !run.worlds[n].broken
  {
    RunHealthy(cx, l, run, n);
  }

  // ---- The reassembly limit alone ----

  /** Where sequence `k` may lie, given the capacity. */
  ghost predicate Within(r: Receiver, log: seq<Item>, k: nat, capacity: nat, target: nat) {
    && ReassemblyOf(r.reassembly, log) && WindowOk(r.window) && Fits(target, log) && k < |log| <= r.window.next + capacity
    && HeldBytes(r.reassembly, |log|) && Times(capacity, target) <= r.reassembly.maxPendingBytes
  }

  lemma ItemFits(cx: Context, r: Receiver, log: seq<Item>, k: nat, capacity: nat, target: nat)
    requires Within(r, log, k, capacity, target) && Paired(r)
    ensures var Received(r', result) := ReceiveItem(cx, r, k, log[k]); Paired(r') && !OverReassembly(result)
  {
    ItemPaired(cx, r, log, k);
    if !r.completed && log[k].Data? && r.window.next <= k && k !in r.window.received {
      InsertFits(r.reassembly, log, k, log[k].payload, capacity, target);
    }
  }

  /** What an ordered run keeps whatever the output bound. */
  ghost predicate Holding(cx: Context, l: Limits, w: World) {
    && Kept(cx, w) && WindowedInv(cx, w, l.capacity) && w.s.target == TargetPayload(l.frameLimit, l.reservedMetadata)
    && (!w.broken ==> Paired(w.r) && Provisioned(l, w.r, |w.s.log|))
  }

  lemma HoldingWithin(cx: Context, l: Limits, w: World, k: nat)
    requires Holding(cx, l, w) && WindowFits(l) && !w.broken && k < |w.s.log|
    ensures Within(w.r, w.s.log, k, l.capacity, w.s.target)
  {
    Reach(cx, w, l.capacity);
  }

  /** The next frame off the network, in a world that holds. */
  lemma DeliveryFits(cx: Context, l: Limits, w: World, f: bytes)
    requires Honest(cx) && Holding(cx, l, w) && WindowFits(l) && !w.broken && f in w.frames
    ensures var Received(r', result) := Receive(cx, w.r, f);
            Paired(r') && Provisioned(l, r', |w.s.log|) && !OverReassembly(result)
  {
    LogIsHonest(cx, w.s, w.writes, w.lost);
    var k: nat :| WireForm(cx, w.s.log, k, f);
    ReceiveIs(cx, w.r, w.s.log, w.writes, k, f);
    HoldingWithin(cx, l, w, k);
    ItemFits(cx, w.r, w.s.log, k, l.capacity, w.s.target);
    ItemProvisioned(cx, l, w.r, w.s.log, k);
  }

  lemma SenderHolding(cx: Context, l: Limits, w: World, a: Action)
    requires Honest(cx) && Holding(cx, l, w) && Enabled(w, a) && !a.DoDeliver? && !a.DoEmitAck? && InOrder(w, a)
    ensures Holding(cx, l, SenderStep(cx, w, a))
  {
    SenderStepKept(cx, w, a);
    NextWindowed(cx, w, a, l.capacity);
    SenderAfterOk(cx, w, a);
    if !w.broken {
      WeightUpTo(w.r.reassembly.pending, |w.s.log|, |SenderAfter(cx, w, a).log|);
    }
  }

  lemma HoldingIs(cx: Context, l: Limits, w: World, t: World)
    requires w.s.target == TargetPayload(l.frameLimit, l.reservedMetadata)
    requires Kept(cx, t) && WindowedInv(cx, t, l.capacity) && t.s == w.s
    requires Paired(t.r) && Provisioned(l, t.r, |t.s.log|)
    ensures Holding(cx, l, t)
  {
  }

  lemma DeliverHolding(cx: Context, l: Limits, w: World, f: bytes)
    requires Honest(cx) && Holding(cx, l, w) && WindowFits(l) && !w.broken && f in w.frames
    ensures Holding(cx, l, ReceiverStep(cx, w, f))
  {
    var t := ReceiverStep(cx, w, f);
    HoldingGives(cx, l, w);
    DeliverKept(cx, w, f);
    DeliverWindowed(cx, w, f, l.capacity);
    DeliveryFits(cx, l, w, f);
    ReceiverStepIs(cx, w, f);
    HoldingIs(cx, l, w, t);
  }

  lemma HoldingGives(cx: Context, l: Limits, w: World)
    requires Holding(cx, l, w)
    ensures Kept(cx, w) && WindowedInv(cx, w, l.capacity)
  {
  }

  lemma ReceiverStepIs(cx: Context, w: World, f: bytes)
    ensures ReceiverStep(cx, w, f).s == w.s && ReceiverStep(cx, w, f).r == Receive(cx, w.r, f).state
  {
  }

  lemma EmitHolding(cx: Context, l: Limits, w: World)
    requires Holding(cx, l, w)
    ensures Holding(cx, l, w.(acks := w.acks + [AckOf(cx, w.r)]))
  {
    EmitAckKept(cx, w);
    EmitWindowed(cx, w, l.capacity);
  }

  lemma NextHolding(cx: Context, l: Limits, w: World, a: Action)
    requires Honest(cx) && Holding(cx, l, w) && WindowFits(l) && InOrder(w, a)
    ensures Holding(cx, l, Next(cx, w, a))
  {
    if Enabled(w, a) {
      match a
      case DoDeliver(f) => DeliverHolding(cx, l, w, f);
      case DoEmitAck => EmitHolding(cx, l, w);
      case _ => SenderHolding(cx, l, w, a);
    }
  }

  lemma RunHolding(cx: Context, l: Limits, run: Run, n: nat)
    requires Honest(cx) && 1 <= l.capacity <= ACK_BITMAP_BITS && IsOrderedRun(cx, l, run) && n < |run.worlds|
    requires WindowFits(l)
    ensures Holding(cx, l, run.worlds[n])
  {
    var keeps := (i: nat, w: World) => Holding(cx, l, w);
    forall i | 0 <= i < |run.actions| && keeps(i, run.worlds[i])
      ensures keeps(i + 1, Next(cx, run.worlds[i], run.actions[i]))
    {
      NextHolding(cx, l, run.worlds[i], run.actions[i]);
    }
    OpenedHealthy(cx, l);
    RunKeeps(cx, run, Opened(l), n, keeps);
  }

  /** On a run whose acknowledgements are not reordered, with reassembly room for one window of full payloads, no frame is
      ever refused for lack of reassembly room, however much is pushed and whatever the output bound. */
  lemma NoReassemblyLimit(cx: Context, l: Limits, run: Run, n: nat, f: bytes)
    requires Honest(cx) && 1 <= l.capacity <= ACK_BITMAP_BITS && IsOrderedRun(cx, l, run) && n < |run.worlds|
    requires WindowFits(l) && !run.worlds[n].broken && f in run.worlds[n].frames
    ensures !OverReassembly(Receive(cx, run.worlds[n].r, f).result)
  {
    RunHolding(cx, l, run, n);
    DeliveryFits(cx, l, run.worlds[n], f);
  }
}
