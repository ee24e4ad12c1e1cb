/** Runs on which acknowledgements may be lost or repeated but are not reordered. */
module Windowed {
  import opened Prelude
  import opened Core
  import opened Stream
  import opened Sender
  import opened SenderInvariant
  import opened SenderFlow
  import opened Receiver
  import opened ReceiverInvariant
  import opened Coupling
  import opened Protocol
  import opened Delivery
  import opened Span

  /** The acknowledgement the sender processed last; before any, one that covers nothing and offers the capacity. */
  function LastAckOf(cx: Context, w: World): Ack
    requires w.lastAck.Some? ==> w.lastAck.value < |w.acks|
  {
    match w.lastAck
    case None => Ack(cx.direction, None, seq(ACK_BITMAP_BITS, _ => false), w.r.capacity)
    case Some(i) => w.acks[i]
  }

  /** No acknowledgement is processed after a later one, and the peer window is not set again. */
  predicate InOrder(w: World, a: Action) {
    match a
    case DoAck(i) => w.lastAck.Some? ==> w.lastAck.value <= i
    case DoSetWindow(_) => false
    case _ => true
  }

  /** A run from an opened pair whose acknowledgements are processed in order. */
  ghost predicate IsOrderedRun(cx: Context, l: Limits, run: Run) {
    && IsRun(cx, run, Opened(l))
    && forall i {:trigger run.actions[i]} | 0 <= i < |run.actions| :: InOrder(run.worlds[i], run.actions[i])
  }

  /** The same with any caller. */
  ghost predicate IsFreeOrderedRun(cx: Context, l: Limits, run: Run) {
    && IsFreeRun(cx, run, Opened(l))
    && forall i {:trigger run.actions[i]} | 0 <= i < |run.actions| :: InOrder(run.worlds[i], run.actions[i])
  }

  /** The pair once the sender has been told the receiver's capacity. */
  function Opened(l: Limits): World {
    Initial(l).(s := Initial(l).s.(peerWindow := l.capacity))
  }

  ghost predicate Covers(a: Ack, b: Ack) {
    forall k: nat :: Acknowledges(Snapshot(a), k) ==> Acknowledges(Snapshot(b), k)
  }

  ghost predicate AckOk(cx: Context, ack: Ack, capacity: nat, bound: nat) {
    WellFormed(ack, capacity, bound) && CursorBelowTop(ack) && ack.direction == cx.direction
  }

  ghost predicate AcksOk(cx: Context, acks: seq<Ack>, capacity: nat, bound: nat) {
    && (forall i | 0 <= i < |acks| :: AckOk(cx, acks[i], capacity, bound))
    && (forall i, j | 0 <= i <= j < |acks| :: Covers(acks[i], acks[j]))
  }

  /** Every sequence kept above the cursor is within the capacity of it. */
  ghost predicate NearCursor(w: Window, capacity: nat) {
    forall k | k in w.received :: k < w.next + capacity
  }

  ghost predicate WindowedInv(cx: Context, w: World, capacity: nat) {
    && 1 <= capacity <= ACK_BITMAP_BITS && w.r.capacity == capacity
    && (w.lastAck.Some? ==> w.lastAck.value < |w.acks|)
    && AcksOk(cx, w.acks, capacity, |w.s.log|)
    && AckOk(cx, LastAckOf(cx, w), capacity, |w.s.log|) && AckHonest(cx, LastAckOf(cx, w), w.r.window)
    && Spans(w.s, LastAckOf(cx, w), capacity)
  }

  // ---- What the receiver advertises ----

  lemma OnesWithin(bits: seq<bool>, d: nat)
    requires 0 < d <= |bits| && !bits[0] && forall i | d <= i < |bits| :: !bits[i]
    ensures Ones(bits) < d
  {
    OnesBeyond(bits, d);
    OnesAtMost(bits[..d]);
  }

  lemma AckBits(cx: Context, r: Receiver, capacity: nat)
    requires WindowOk(r.window) && NearCursor(r.window, capacity) && 1 <= capacity <= ACK_BITMAP_BITS
    ensures var bits := AckOf(cx, r).selective;
            |bits| == ACK_BITMAP_BITS && !bits[0] && forall i | capacity <= i < ACK_BITMAP_BITS :: !bits[i]
  {
    var bits := AckOf(cx, r).selective;
    assert forall i | 0 <= i < ACK_BITMAP_BITS :: bits[i] == SelectiveBit(r.window, i);
  }

  /** The advertised window is the capacity less what is held out of order, and is never zero. */
  lemma AdvertisedWindow(cx: Context, r: Receiver)
    requires WindowOk(r.window) && 1 <= r.capacity <= ACK_BITMAP_BITS && NearCursor(r.window, r.capacity)
    ensures 1 <= AckOf(cx, r).receiveWindow <= r.capacity
    ensures AckOf(cx, r).receiveWindow == r.capacity - Ones(AckOf(cx, r).selective)
  {
    AckBits(cx, r, r.capacity);
    OnesWithin(AckOf(cx, r).selective, r.capacity);
  }

  /** An acknowledgement of the current window covers exactly what was recorded. */
  lemma CurrentAckCovers(cx: Context, r: Receiver, k: nat)
    requires WindowOk(r.window) && r.capacity <= ACK_BITMAP_BITS && NearCursor(r.window, r.capacity)
    requires k <= U32_MAX
    ensures Acknowledges(Snapshot(AckOf(cx, r)), k) <==> Seen(r.window, k)
  {
    AckIsExact(r.window, k);
  }

  lemma CurrentAckOk(cx: Context, r: Receiver, bound: nat)
    requires WindowOk(r.window) && 1 <= r.capacity <= ACK_BITMAP_BITS && NearCursor(r.window, r.capacity)
    requires r.window.next <= bound <= U32_MAX && forall k | k in r.window.received :: k < bound
    ensures AckOk(cx, AckOf(cx, r), r.capacity, bound)
  {
    var ack := AckOf(cx, r);
    assert |ack.selective| == ACK_BITMAP_BITS;
    assert Base(Snapshot(ack)) == r.window.next;
    CurrentAckCovers(cx, r, r.window.next);
    forall k: nat | k >= bound
      ensures !Acknowledges(Snapshot(ack), k)
    {
      if k <= U32_MAX {
        CurrentAckCovers(cx, r, k);
      } else {
        AboveTop(cx, r, k);
      }
    }
  }

  lemma AboveTop(cx: Context, r: Receiver, k: nat)
    requires WindowOk(r.window) && k > U32_MAX
    ensures !Acknowledges(Snapshot(AckOf(cx, r)), k)
  {
    var w := r.window;
    if w.next <= k && k - w.next < ACK_BITMAP_BITS {
      assert SnapshotOf(w).selective[k - w.next] == SelectiveBit(w, k - w.next);
    }
  }

  lemma BaseNotPassed(cx: Context, ack: Ack, w: Window)
    requires AckHonest(cx, ack, w) && CursorBelowTop(ack) && WindowOk(w)
    ensures Base(Snapshot(ack)) <= w.next
  {
    if w.next < Base(Snapshot(ack)) {
      BelowBase(ack, w.next);
    }
  }

  /** The last processed base has not passed the receiver's cursor, so what is kept is near the cursor. */
  lemma SecuredNearCursor(cx: Context, w: World, capacity: nat)
    requires Secured(cx, w) && WindowedInv(cx, w, capacity)
    ensures NearCursor(w.r.window, capacity)
  {
    BaseNotPassed(cx, LastAckOf(cx, w), w.r.window);
  }

  // ---- Steps ----

  lemma AckOkGrows(cx: Context, ack: Ack, capacity: nat, bound: nat, bound': nat)
    requires AckOk(cx, ack, capacity, bound) && bound <= bound'
    ensures AckOk(cx, ack, capacity, bound')
  {
  }

  lemma AcksOkGrow(cx: Context, acks: seq<Ack>, capacity: nat, bound: nat, bound': nat)
    requires AcksOk(cx, acks, capacity, bound) && bound <= bound'
    ensures AcksOk(cx, acks, capacity, bound')
  {
    forall i | 0 <= i < |acks|
      ensures AckOk(cx, acks[i], capacity, bound')
    {
      AckOkGrows(cx, acks[i], capacity, bound, bound');
    }
  }

  /** A new acknowledgement of the current window covers everything acknowledged before. */
  lemma NewAckCovers(cx: Context, r: Receiver, ack: Ack, bound: nat)
    requires WindowOk(r.window) && r.capacity <= ACK_BITMAP_BITS && NearCursor(r.window, r.capacity)
    requires AckOk(cx, ack, r.capacity, bound) && bound <= U32_MAX && AckHonest(cx, ack, r.window)
    ensures Covers(ack, AckOf(cx, r))
  {
    forall k: nat | Acknowledges(Snapshot(ack), k)
      ensures Acknowledges(Snapshot(AckOf(cx, r)), k)
    {
      assert k < bound;
      CurrentAckCovers(cx, r, k);
    }
  }

  lemma AppendAck(cx: Context, acks: seq<Ack>, r: Receiver, bound: nat)
    requires AcksOk(cx, acks, r.capacity, bound) && AcksHonest(cx, acks, r.window)
    requires WindowOk(r.window) && 1 <= r.capacity <= ACK_BITMAP_BITS && NearCursor(r.window, r.capacity)
    requires r.window.next <= bound <= U32_MAX && forall k | k in r.window.received :: k < bound
    ensures AcksOk(cx, acks + [AckOf(cx, r)], r.capacity, bound)
  {
    CurrentAckOk(cx, r, bound);
    var all := acks + [AckOf(cx, r)];
    forall i, j | 0 <= i <= j < |all|
      ensures Covers(all[i], all[j])
    {
      if j < |acks| {
        assert Covers(acks[i], acks[j]);
      } else if i < |acks| {
        NewAckCovers(cx, r, acks[i], bound);
      }
    }
  }

  lemma ReceiveCapacity(cx: Context, r: Receiver, f: bytes)
    ensures Receive(cx, r, f).state.capacity == r.capacity
  {
  }

  lemma LastAckHonest(cx: Context, ack: Ack, w: Window, w': Window)
    requires AckHonest(cx, ack, w) && SeenGrows(w, w')
    ensures AckHonest(cx, ack, w')
  {
  }

  /** Appending the acknowledgement of a receiver that has only moved forward. */
  lemma MovedWindowed(cx: Context, w: World, r: Receiver, capacity: nat)
    requires WindowedInv(cx, w, capacity) && AcksHonest(cx, w.acks, w.r.window) && |w.s.log| <= U32_MAX
    requires WindowOk(r.window) && SeenGrows(w.r.window, r.window) && r.capacity == capacity
    requires r.window.next <= |w.s.log| && forall k | k in r.window.received :: k < |w.s.log|
    ensures WindowedInv(cx, w.(r := r, acks := w.acks + [AckOf(cx, r)]), capacity)
    ensures WindowedInv(cx, w.(r := r), capacity)
  {
    var ack := LastAckOf(cx, w);
    LastAckHonest(cx, ack, w.r.window, r.window);
    BaseNotPassed(cx, ack, r.window);
    AcksStayHonest(cx, w.acks, w.r.window, r.window);
    AppendAck(cx, w.acks, r, |w.s.log|);
    assert LastAckOf(cx, w.(r := r)) == ack;
    assert LastAckOf(cx, w.(r := r, acks := w.acks + [AckOf(cx, r)])) == ack;
  }

  lemma WindowedSame(cx: Context, w: World, t: World, capacity: nat)
    requires WindowedInv(cx, w, capacity)
    requires t == w.(out := t.out, broken := t.broken, clean := t.clean)
    ensures WindowedInv(cx, t, capacity)
  {
    assert LastAckOf(cx, t) == LastAckOf(cx, w);
  }

  lemma DeliverWindowed(cx: Context, w: World, f: bytes, capacity: nat)
    requires Honest(cx) && Secured(cx, w) && WindowedInv(cx, w, capacity) && f in w.frames
    ensures WindowedInv(cx, ReceiverStep(cx, w, f), capacity)
  {
    var t := ReceiverStep(cx, w, f);
    var k :| WireForm(cx, w.s.log, k, f);
    DeliverMoves(cx, w, k, f);
    ReceiveCapacity(cx, w.r, f);
    MovedWindowed(cx, w, t.r, capacity);
    if Receive(cx, w.r, f).result.Ok? {
      WindowedSame(cx, w.(r := t.r, acks := w.acks + [AckOf(cx, t.r)]), t, capacity);
    } else {
      WindowedSame(cx, w.(r := t.r), t, capacity);
    }
  }

  lemma EmitWindowed(cx: Context, w: World, capacity: nat)
    requires Secured(cx, w) && WindowedInv(cx, w, capacity)
    ensures WindowedInv(cx, w.(acks := w.acks + [AckOf(cx, w.r)]), capacity)
  {
    SecuredNearCursor(cx, w, capacity);
    AppendAck(cx, w.acks, w.r, |w.s.log|);
  }

  lemma LoadSpans(cx: Context, s: Sender, a: Action, ack: Ack, capacity: nat)
    requires Spans(s, ack, capacity) && capacity <= ACK_BITMAP_BITS && CursorBelowTop(ack)
    requires SenderOk(cx, LoadedBy(cx, s, a).state)
    ensures Spans(LoadedBy(cx, s, a).state, ack, capacity)
    ensures Spans(Pump(cx, LoadedBy(cx, s, a).state).state, ack, capacity)
  {
    LoadedKeeps(cx, s, a);
    PumpSpans(cx, LoadedBy(cx, s, a).state, ack, capacity);
  }

  lemma LoadStepSpans(cx: Context, w: World, a: Action, ack: Ack, capacity: nat)
    requires SenderOk(cx, w.s) && Spans(w.s, ack, capacity) && capacity <= ACK_BITMAP_BITS && CursorBelowTop(ack)
    requires a.DoPush? || a.DoFinish? || a.DoDispatch?
    ensures Spans(SenderAfter(cx, w, a), ack, capacity)
  {
    match a
    case DoPush(logical, flush) =>
      LoadedOk(cx, w.s, logical, flush);
      LoadSpans(cx, w.s, a, ack, capacity);
    case DoFinish =>
      if !w.s.inputFinished && w.s.encoder.Some? {
        LoadedEndOk(cx, w.s);
        LoadSpans(cx, w.s, a, ack, capacity);
      }
    case DoDispatch(nowMs, policy) =>
      TakeSendableOk(cx, w.s, nowMs, policy);
    case _ =>
  }

  lemma LoadWindowed(cx: Context, w: World, a: Action, capacity: nat)
    requires Secured(cx, w) && WindowedInv(cx, w, capacity)
    requires a.DoPush? || a.DoFinish? || a.DoDispatch?
    ensures WindowedInv(cx, SenderStep(cx, w, a), capacity)
  {
    var t := SenderStep(cx, w, a);
    SenderAfterOk(cx, w, a);
    LoadStepSpans(cx, w, a, LastAckOf(cx, w), capacity);
    AcksOkGrow(cx, w.acks, capacity, |w.s.log|, |t.s.log|);
    AckOkGrows(cx, LastAckOf(cx, w), capacity, |w.s.log|, |t.s.log|);
  }

  lemma AckCoversLast(cx: Context, w: World, i: nat, capacity: nat)
    requires WindowedInv(cx, w, capacity) && i < |w.acks| && InOrder(w, DoAck(i))
    ensures Covers(LastAckOf(cx, w), w.acks[i])
  {
    if w.lastAck.Some? {
      assert Covers(w.acks[w.lastAck.value], w.acks[i]);
    }
  }

  /** Processing a later acknowledgement re-establishes the span. */
  lemma AcknowledgeSpans(cx: Context, s: Sender, ack: Ack, later: Ack, capacity: nat)
    requires SenderOk(cx, s) && Spans(s, ack, capacity) && CursorBelowTop(ack) && capacity <= ACK_BITMAP_BITS
    requires AckOk(cx, later, capacity, |s.log|) && Covers(ack, later)
    ensures Spans(Acknowledge(cx, s, later).state, later, capacity)
  {
    ReleaseSpans(cx, s, ack, later, capacity);
    AfterReleaseIs(cx, s, later);
    PumpSpans(cx, AfterRelease(s, later), later, capacity);
  }

  /** The windowed invariant, put together from its parts after an acknowledgement. */
  lemma WindowedAfterAck(cx: Context, w: World, t: World, i: nat, capacity: nat)
    requires WindowedInv(cx, w, capacity) && i < |w.acks| && AckHonest(cx, w.acks[i], w.r.window)
    requires t.r == w.r && t.acks == w.acks && t.lastAck == Some(i) && |w.s.log| <= |t.s.log|
    requires Spans(t.s, w.acks[i], capacity)
    ensures WindowedInv(cx, t, capacity)
  {
    AcksOkGrow(cx, w.acks, capacity, |w.s.log|, |t.s.log|);
    assert LastAckOf(cx, t) == w.acks[i];
  }

  lemma AckSpans(cx: Context, w: World, i: nat, capacity: nat)
    requires SenderOk(cx, w.s) && WindowedInv(cx, w, capacity) && i < |w.acks| && InOrder(w, DoAck(i))
    ensures var s := Acknowledge(cx, w.s, w.acks[i]).state; Spans(s, w.acks[i], capacity) && |w.s.log| <= |s.log|
  {
    AckCoversLast(cx, w, i, capacity);
    AcknowledgeSpans(cx, w.s, LastAckOf(cx, w), w.acks[i], capacity);
    AcknowledgeOk(cx, w.s, w.acks[i]);
  }

  lemma AckWindowed(cx: Context, w: World, i: nat, capacity: nat)
    requires Secured(cx, w) && WindowedInv(cx, w, capacity) && i < |w.acks| && InOrder(w, DoAck(i))
    ensures WindowedInv(cx, SenderStep(cx, w, DoAck(i)), capacity)
  {
    AckSpans(cx, w, i, capacity);
    assert AckHonest(cx, w.acks[i], w.r.window);
    WindowedAfterAck(cx, w, SenderStep(cx, w, DoAck(i)), i, capacity);
  }

  lemma StepWindowed(cx: Context, w: World, a: Action, capacity: nat)
    requires Honest(cx) && Secured(cx, w) && WindowedInv(cx, w, capacity) && InOrder(w, a)
    ensures WindowedInv(cx, Step(cx, w, a), capacity)
  {
    if Possible(w, a) {
      match a
      case DoDeliver(f) => DeliverWindowed(cx, w, f, capacity);
      case DoEmitAck => EmitWindowed(cx, w, capacity);
      case DoAck(i) => AckWindowed(cx, w, i, capacity);
      case _ => LoadWindowed(cx, w, a, capacity);
    }
  }

  lemma NextWindowed(cx: Context, w: World, a: Action, capacity: nat)
    requires Honest(cx) && Secured(cx, w) && WindowedInv(cx, w, capacity) && InOrder(w, a)
    ensures WindowedInv(cx, Next(cx, w, a), capacity)
  {
    StepWindowed(cx, w, a, capacity);
  }

  // ---- Runs ----

  lemma OpenedIs(cx: Context, l: Limits)
    requires l.capacity <= ACK_BITMAP_BITS
    ensures Next(cx, Initial(l), DoSetWindow(l.capacity)) == Opened(l)
  {
    assert Initial(l).frames + {} == Initial(l).frames;
  }

  lemma OpenedWindowed(cx: Context, l: Limits)
    requires Honest(cx) && 1 <= l.capacity <= ACK_BITMAP_BITS
    ensures Kept(cx, Opened(l)) && WindowedInv(cx, Opened(l), l.capacity)
  {
    InitialKept(cx, l);
    NextKept(cx, Initial(l), DoSetWindow(l.capacity));
    OpenedIs(cx, l);
    var ack := LastAckOf(cx, Opened(l));
    OnesBeyond(ack.selective, 0);
    assert ack.selective[..0] == [];
  }

  lemma FreeRunWindowed(cx: Context, l: Limits, run: Run, n: nat)
    requires Honest(cx) && 1 <= l.capacity <= ACK_BITMAP_BITS && IsFreeOrderedRun(cx, l, run) && n < |run.worlds|
    ensures Secured(cx, run.worlds[n]) && WindowedInv(cx, run.worlds[n], l.capacity)
  {
    var keeps := (i: nat, w: World) => Secured(cx, w) && WindowedInv(cx, w, l.capacity);
    forall i | 0 <= i < |run.actions| && keeps(i, run.worlds[i])
      ensures keeps(i + 1, Step(cx, run.worlds[i], run.actions[i]))
    {
      StepSecured(cx, run.worlds[i], run.actions[i]);
      StepWindowed(cx, run.worlds[i], run.actions[i], l.capacity);
    }
    OpenedWindowed(cx, l);
    FreeRunKeeps(cx, run, Opened(l), n, keeps);
  }

  /** At every point of every such run of the source, whatever the callers do, the sender is never more than the capacity
      ahead of the last base it was told; what the receiver keeps out of order fits its bitmap, so its acknowledgement
      covers exactly what it recorded; and the window it advertises is between one and the capacity. */
  lemma NeverAheadOfCapacity(cx: Context, l: Limits, run: Run, n: nat)
    requires Honest(cx) && 1 <= l.capacity <= ACK_BITMAP_BITS && IsFreeOrderedRun(cx, l, run) && n < |run.worlds|
    ensures var w := run.worlds[n];
            && (w.lastAck.Some? ==> w.lastAck.value < |w.acks|)
            && w.s.nextSequence <= Base(Snapshot(LastAckOf(cx, w))) + l.capacity
            && (forall k | k in w.r.window.received :: k < w.r.window.next + l.capacity)
            && (forall k | 0 <= k <= U32_MAX :: Acknowledges(Snapshot(AckOf(cx, w.r)), k) <==> Seen(w.r.window, k))
            && 1 <= AckOf(cx, w.r).receiveWindow <= l.capacity
  {
    FreeRunWindowed(cx, l, run, n);
    NearItsBase(cx, l, run.worlds[n]);
  }

  lemma NearItsBase(cx: Context, l: Limits, w: World)
    requires Secured(cx, w) && WindowedInv(cx, w, l.capacity)
    ensures w.lastAck.Some? ==> w.lastAck.value < |w.acks|
    ensures w.s.nextSequence <= Base(Snapshot(LastAckOf(cx, w))) + l.capacity
    ensures forall k | k in w.r.window.received :: k < w.r.window.next + l.capacity
    ensures forall k | 0 <= k <= U32_MAX :: Acknowledges(Snapshot(AckOf(cx, w.r)), k) <==> Seen(w.r.window, k)
    ensures 1 <= AckOf(cx, w.r).receiveWindow <= l.capacity
  {
    SecuredNearCursor(cx, w, l.capacity);
    AdvertisedWindow(cx, w.r);
    forall k | 0 <= k <= U32_MAX
      ensures Acknowledges(Snapshot(AckOf(cx, w.r)), k) <==> Seen(w.r.window, k)
    {
      CurrentAckCovers(cx, w.r, k);
    }
  }
}
