/** How much may be pushed in parts after a single look at the backpressure. */
module Parts {
  import opened Prelude
  import opened Wire
  import opened Core
  import opened Stream
  import opened Sender
  import opened SenderInvariant
  import opened SenderFlow
  import opened Protocol
  import opened Delivery
  import opened Progress
  import opened Loss
  import opened Budget
  import opened Overrun

  // ---- Adding up ----

  lemma {:induction false} TimesAdd(a: nat, b: nat, k: nat)
    ensures Times(a + b, k) == Times(a, k) + Times(b, k)
  {
    if b > 0 {
      TimesAdd(a, b - 1, k);
    }
  }

  /** Cutting bytes into payloads in two goes is cutting them in one. */
  lemma {:induction false} WholeAdd(a: nat, b: nat, target: pos)
    ensures WholePayloads(a, target) <= a
    ensures WholePayloads(a + b, target)
         == WholePayloads(a, target) + WholePayloads(a - WholePayloads(a, target) + b, target)
    ensures WholeCount(a + b, target)
         == WholeCount(a, target) + WholeCount(a - WholePayloads(a, target) + b, target)
    decreases a
  {
    if a >= target {
      WholeAdd(a - target, b, target);
    }
  }

  // ---- One refill of data frames ----

  lemma DataCosts(cx: Context, target: nat, items: seq<Item>)
    requires Framable(cx, target) && Fits(target, items) && OnlyData(items)
    ensures Sendable(cx, items, Framing(cx))
  {
  }

  lemma LaunchSpends(cx: Context, s: Sender, encoded: bytes)
    requires Accounted(s) && s.pending != [] && s.pending[0].Data? && |encoded| == EncodedSize(cx, s.pending[0])
    requires Launch(s, encoded).error == None
    ensures var t := Launch(s, encoded).state;
            && BufferedBytes(t) == BufferedBytes(s) + Framing(cx) && Accounted(t) && t.pending == s.pending[1..]
  {
    LaunchAccounted(s, encoded);
  }

  lemma {:induction false} PumpShrinks(cx: Context, s: Sender)
    ensures |Pump(cx, s).state.pending| <= |s.pending|
    decreases |s.pending|
  {
    if |s.inFlight| < EffectiveWindow(s) && s.pending != [] {
      var one := PumpOne(cx, s);
      if one.error == None {
        PumpShrinks(cx, one.state);
      }
    }
  }

  lemma SpendOnce(cx: Context, s: Sender, ok: Sender -> bool) returns (t: Sender)
    requires ok == ((x: Sender) => Accounted(x) && OnlyData(x.pending)) && ok(s)
    requires Pump(cx, s).error == None && Room(s) > 0 && s.pending != []
    ensures Pump(cx, s) == Pump(cx, t) && ok(t) && |t.pending| + 1 == |s.pending|
    ensures BufferedBytes(t) == BufferedBytes(s) + Framing(cx)
  {
    EncodeItemSize(cx, s.nextSequence, s.pending[0]);
    var encoded := EncodeItem(cx, s.nextSequence, s.pending[0]).value;
    PumpOnce(cx, s, encoded);
    LaunchSpends(cx, s, encoded);
    t := Launch(s, encoded).state;
  }

  lemma NoRefill(cx: Context, s: Sender)
    requires Room(s) == 0 || s.pending == []
    ensures Pump(cx, s) == Outcome(s, None)
  {
  }

  /** A refill of data frames without an error uses up the framing of each one it launches. */
  lemma {:induction false} PumpSpends(cx: Context, s: Sender, u: Sender, n: nat, ok: Sender -> bool)
    requires ok == ((x: Sender) => Accounted(x) && OnlyData(x.pending)) && ok(s)
    requires Pump(cx, s) == Outcome(u, None) && |u.pending| + n == |s.pending|
    ensures BufferedBytes(u) == BufferedBytes(s) + Times(n, Framing(cx))
    decreases |s.pending|
  {
    if Room(s) == 0 || s.pending == [] {
      NoRefill(cx, s);
    } else {
      var t := SpendOnce(cx, s, ok);
      PumpShrinks(cx, t);
      PumpSpends(cx, t, u, n - 1, ok);
    }
  }

  // ---- The sender in numbers ----

  /** What the budget depends on: bytes counted, places in the window, items waiting, the next sequence number and the
      length of the partial payload. */
  datatype Tally = Tally(used: nat, room: nat, waiting: nat, next: nat, partial: nat)

  function TallyOf(s: Sender): Tally {
    Tally(BufferedBytes(s), Room(s), |s.pending|, s.nextSequence, |s.buffer|)
  }

  /** After `queued` more bytes in `count` more items of a partial payload and new bytes of `all`, and a refill. */
  function Refill(t: Tally, all: nat, queued: nat, count: nat, framing: nat): Tally {
    var launched := Min(t.room, t.waiting + count);
    Tally(t.used + queued + Times(launched, framing), t.room - launched, t.waiting + count - launched, t.next + launched,
          SaturatingSub(all, queued))
  }

  /** After so many more encoded bytes have been queued and the window refilled. */
  function AfterBytes(t: Tally, emitted: nat, flush: bool, target: pos, framing: nat): Tally {
    var all := t.partial + emitted;
    Refill(t, all, QueuedOf(all, flush, target), PayloadCount(all, target, flush), framing)
  }

  lemma RefillAdds(t: Tally, all: nat, b: nat, q: nat, c: nat, q': nat, c': nat, framing: nat)
    requires q <= all
    ensures var mid := Refill(t, all, q, c, framing);
            mid.partial == all - q && Refill(mid, all - q + b, q', c', framing) == Refill(t, all + b, q + q', c + c', framing)
  {
    LaunchedAdds(t.room, t.waiting, c, c');
    var first := Min(t.room, t.waiting + c);
    TimesAdd(first, Min(t.room - first, t.waiting + c - first + c'), framing);
  }

  function QueuedOf(all: nat, flush: bool, target: pos): nat {
    if flush then all else WholePayloads(all, target)
  }

  lemma QueuedAdds(all: nat, b: nat, flush: bool, target: pos)
    ensures WholePayloads(all, target) <= all
    ensures var left := all - WholePayloads(all, target);
            && QueuedOf(all + b, flush, target) == WholePayloads(all, target) + QueuedOf(left + b, flush, target)
            && PayloadCount(all + b, target, flush) == WholeCount(all, target) + PayloadCount(left + b, target, flush)
  {
    WholeAdd(all, b, target);
  }

  lemma LaunchedAdds(room: nat, waiting: nat, a: nat, b: nat)
    ensures var first := Min(room, waiting + a);
            Min(room, waiting + a + b) == first + Min(room - first, waiting + a - first + b)
  {
  }

  /** Queueing in two goes is queueing in one. */
  lemma AfterBytesAdds(t: Tally, a: nat, b: nat, flush: bool, target: pos, framing: nat)
    ensures AfterBytes(AfterBytes(t, a, false, target, framing), b, flush, target, framing)
         == AfterBytes(t, a + b, flush, target, framing)
  {
    var all := t.partial + a;
    QueuedAdds(all, b, flush, target);
    var q, c := WholePayloads(all, target), WholeCount(all, target);
    var q', c' := QueuedOf(all - q + b, flush, target), PayloadCount(all - q + b, target, flush);
    RefillAdds(t, all, b, q, c, q', c', framing);
    assert t.partial + (a + b) == all + b;
  }

  lemma AfterBytesGrows(t: Tally, a: nat, flush: bool, target: pos, framing: nat)
    ensures AfterBytes(t, a, flush, target, framing).used >= t.used
    ensures AfterBytes(t, a, flush, target, framing).next >= t.next
  {
  }

  function AfterPush(cx: Context, s: Sender, logical: bytes, flush: bool): Tally
    requires s.encoder.Some?
  {
    AfterBytes(TallyOf(s), Emits(cx, s.encoder.value, logical, flush), flush, s.target, Framing(cx))
  }

  /** A sender whose input is open, with only data waiting. */
  ghost predicate Feeding(cx: Context, s: Sender) {
    SenderOk(cx, s) && OnlyData(s.pending) && Framable(cx, s.target) && !s.inputFinished && s.encoder.Some?
  }

  lemma RefillLeaves(cx: Context, s: Sender)
    requires SenderOk(cx, s) && OnlyData(s.pending) && Framable(cx, s.target)
    requires s.nextSequence + Launchable(s) <= U32_MAX
    requires BufferedBytes(s) + Times(Launchable(s), Framing(cx)) <= s.maxBufferedBytes
    ensures var o, n := Pump(cx, s), Launchable(s);
            && o.error == None && OnlyData(o.state.pending)
            && TallyOf(o.state) == Tally(BufferedBytes(s) + Times(n, Framing(cx)), Room(s) - n, |s.pending| - n,
                                         s.nextSequence + n, |s.buffer|)
  {
    DataCosts(cx, s.target, s.pending);
    PumpLaunches(cx, s, Framing(cx));
    PumpSpends(cx, s, Pump(cx, s).state, Launchable(s), (x: Sender) => Accounted(x) && OnlyData(x.pending));
    PumpKeepsRest(cx, s);
  }

  /** A refill leaves alone what is not about frames. */
  lemma {:induction false} PumpKeepsRest(cx: Context, s: Sender)
    ensures var t := Pump(cx, s).state;
            && t.buffer == s.buffer && t.encoder == s.encoder && t.inputFinished == s.inputFinished
            && t.target == s.target && t.maxBufferedBytes == s.maxBufferedBytes
            && EffectiveWindow(t) == EffectiveWindow(s)
    decreases |s.pending|
  {
    if |s.inFlight| < EffectiveWindow(s) && s.pending != [] {
      var one := PumpOne(cx, s);
      if one.error == None {
        PumpKeepsRest(cx, one.state);
      }
    }
  }

  // ---- One push that fits ----

  /** The sender after a load, before the refill. */
  ghost predicate LoadedAs(cx: Context, s: Sender, t: Sender, writes: seq<Write>, all: nat, queued: nat, count: nat) {
    && Feeding(cx, t) && t.maxBufferedBytes == s.maxBufferedBytes && t.target == s.target && t.encoder == Some(writes)
    && TallyOf(t) == Tally(BufferedBytes(s) + queued, Room(s), |s.pending| + count, s.nextSequence,
                           SaturatingSub(all, queued))
  }

  lemma QueueingPartial(s: Sender, compressed: bytes, flush: bool)
    requires BufferedBytes(s) <= s.maxBufferedBytes && Queueing(s, compressed, flush).error == None
    ensures var t, all := Queueing(s, compressed, flush).state, |s.buffer| + |compressed|;
            && |t.buffer| == SaturatingSub(all, QueuedOf(all, flush, s.target)) && t.target == s.target
            && t.encoder == s.encoder && t.inputFinished == s.inputFinished
  {
    QueueCompressedFlow(s, compressed);
    QueueCompressedFailsIff(s, compressed);
    FlushBufferFlow(QueueCompressed(s, compressed).state);
  }

  lemma LoadedPartial(cx: Context, s: Sender, logical: bytes, flush: bool)
    requires Lawful(cx.codec) && BufferedBytes(s) <= s.maxBufferedBytes
    requires Accepts(s, logical) && Loaded(cx, s, logical, flush).error == None
    ensures var t, all := Loaded(cx, s, logical, flush).state, |s.buffer| + Emits(cx, s.encoder.value, logical, flush);
            && |t.buffer| == SaturatingSub(all, QueuedOf(all, flush, s.target)) && t.target == s.target
            && t.encoder == Some(s.encoder.value + [Write(logical, flush)]) && !t.inputFinished
  {
    LoadedQueueing(cx, s, logical, flush);
    var (writes, r) := EncoderPush(cx, s.encoder.value, logical, flush);
    QueueingPartial(s.(encoder := Some(writes)), r.value, flush);
  }

  lemma LoadLeaves(cx: Context, s: Sender, logical: bytes, flush: bool, all: nat, queued: nat, count: nat)
    returns (t: Sender)
    requires Lawful(cx.codec) && Feeding(cx, s) && Accepts(s, logical) && !Exceeds(cx, s, DoPush(logical, flush))
    requires all == |s.buffer| + Emits(cx, s.encoder.value, logical, flush)
    requires queued == QueuedBy(cx, s, logical, flush) && count == NewPayloads(cx, s, logical, flush)
    ensures Push(cx, s, logical, flush) == Pump(cx, t)
    ensures LoadedAs(cx, s, t, s.encoder.value + [Write(logical, flush)], all, queued, count)
  {
    AcceptedQueues(cx, s, logical, flush);
    LoadedOk(cx, s, logical, flush);
    LoadedPartial(cx, s, logical, flush);
    t := Loaded(cx, s, logical, flush).state;
  }

  /** The refill after a load, as the numbers say. */
  lemma RefillTally(cx: Context, t: Sender, before: Tally, all: nat, queued: nat, count: nat)
    requires Feeding(cx, t)
    requires TallyOf(t) == Tally(before.used + queued, before.room, before.waiting + count, before.next,
                                 SaturatingSub(all, queued))
    requires var after := Refill(before, all, queued, count, Framing(cx));
             after.next <= U32_MAX && after.used <= t.maxBufferedBytes
    ensures var o := Pump(cx, t);
            && o.error == None && Feeding(cx, o.state)
            && TallyOf(o.state) == Refill(before, all, queued, count, Framing(cx))
            && o.state.maxBufferedBytes == t.maxBufferedBytes && o.state.target == t.target
            && o.state.encoder == t.encoder
  {
    RefillLeaves(cx, t);
    PumpKeepsRest(cx, t);
    PumpOk(cx, t);
  }

  lemma QueuedWithin(cx: Context, s: Sender, logical: bytes, flush: bool)
    requires s.encoder.Some? && AfterPush(cx, s, logical, flush).used <= s.maxBufferedBytes
    ensures !Exceeds(cx, s, DoPush(logical, flush))
  {
  }

  /** The sender after a push that fitted. */
  ghost predicate PushedAs(cx: Context, s: Sender, o: Outcome, writes: seq<Write>, after: Tally) {
    && o.error == None && Feeding(cx, o.state) && TallyOf(o.state) == after
    && o.state.maxBufferedBytes == s.maxBufferedBytes && o.state.target == s.target && o.state.encoder == Some(writes)
  }

  lemma RefillAs(cx: Context, s: Sender, t: Sender, writes: seq<Write>, all: nat, queued: nat, count: nat)
    requires LoadedAs(cx, s, t, writes, all, queued, count)
    requires var after := Refill(TallyOf(s), all, queued, count, Framing(cx));
             after.next <= U32_MAX && after.used <= s.maxBufferedBytes
    ensures PushedAs(cx, s, Pump(cx, t), writes, Refill(TallyOf(s), all, queued, count, Framing(cx)))
  {
    RefillTally(cx, t, TallyOf(s), all, queued, count);
  }

  lemma AfterPushIs(cx: Context, s: Sender, logical: bytes, flush: bool)
    requires s.encoder.Some?
    ensures AfterPush(cx, s, logical, flush)
         == Refill(TallyOf(s), |s.buffer| + Emits(cx, s.encoder.value, logical, flush), QueuedBy(cx, s, logical, flush),
                   NewPayloads(cx, s, logical, flush), Framing(cx))
  {
  }

  /** A push that fits leaves the sender as the numbers say. */
  lemma PushLeaves(cx: Context, s: Sender, logical: bytes, flush: bool, after: Tally)
    requires Lawful(cx.codec) && Feeding(cx, s) && Accepts(s, logical) && after == AfterPush(cx, s, logical, flush)
    requires after.next <= U32_MAX && after.used <= s.maxBufferedBytes
    ensures PushedAs(cx, s, Push(cx, s, logical, flush), s.encoder.value + [Write(logical, flush)], after)
  {
    QueuedWithin(cx, s, logical, flush);
    AfterPushIs(cx, s, logical, flush);
    var writes, all := s.encoder.value + [Write(logical, flush)], |s.buffer| + Emits(cx, s.encoder.value, logical, flush);
    var queued, count := QueuedBy(cx, s, logical, flush), NewPayloads(cx, s, logical, flush);
    var t := LoadLeaves(cx, s, logical, flush, all, queued, count);
    RefillFrom(cx, s, t, writes, all, queued, count, after, Push(cx, s, logical, flush));
  }

  lemma RefillFrom(cx: Context, s: Sender, t: Sender, writes: seq<Write>, all: nat, queued: nat, count: nat,
                   after: Tally, o: Outcome)
    requires LoadedAs(cx, s, t, writes, all, queued, count) && o == Pump(cx, t)
    requires after == Refill(TallyOf(s), all, queued, count, Framing(cx))
    requires after.next <= U32_MAX && after.used <= s.maxBufferedBytes
    ensures PushedAs(cx, s, o, writes, after)
  {
    RefillAs(cx, s, t, writes, all, queued, count);
  }

  // ---- Several pushes after one look at the backpressure ----

  /** One chunk handed over in parts, the last of them flushed if asked. */
  function PushParts(cx: Context, s: Sender, parts: seq<bytes>, flushLast: bool): Outcome
    decreases |parts|
  {
    if parts == [] then Outcome(s, None)
    else
      var o := Push(cx, s, parts[0], flushLast && |parts| == 1);
      if o.error.Some? then o else PushParts(cx, o.state, parts[1..], flushLast)
  }

  /** Every part in turn is one the encoder accepts. */
  predicate AcceptsAll(target: nat, writes: seq<Write>, parts: seq<bytes>, flushLast: bool)
    decreases |parts|
  {
    parts != [] ==>
      && |parts[0]| <= target && |Input(writes)| + |parts[0]| <= U64_MAX
      && AcceptsAll(target, writes + [Write(parts[0], flushLast && |parts| == 1)], parts[1..], flushLast)
  }

  /** Bytes the encoder puts out for all of them. */
  function EmitsAll(cx: Context, writes: seq<Write>, parts: seq<bytes>, flushLast: bool): nat
    decreases |parts|
  {
    if parts == [] then 0
    else
      var flush := flushLast && |parts| == 1;
      Emits(cx, writes, parts[0], flush) + EmitsAll(cx, writes + [Write(parts[0], flush)], parts[1..], flushLast)
  }

  function AfterParts(cx: Context, s: Sender, parts: seq<bytes>, flushLast: bool): Tally
    requires s.encoder.Some?
  {
    AfterBytes(TallyOf(s), EmitsAll(cx, s.encoder.value, parts, flushLast), flushLast, s.target, Framing(cx))
  }

  /** The most that one push of so many encoded bytes needs: as many launches are attempted as the window has places and
      there are sequence numbers, and one more. */
  function PushPeak(t: Tally, emitted: nat, flush: bool, target: pos, framing: nat): nat {
    var all := t.partial + emitted;
    var attempts := Min(t.room, SaturatingSub(U32_MAX + 1, t.next));
    t.used + QueuedOf(all, flush, target) + Times(Min(attempts, t.waiting + PayloadCount(all, target, flush)), framing)
  }

  /** The most that pushing all parts needs, up to the part that uses up the sequence numbers if one does. */
  function PartsPeak(cx: Context, t: Tally, writes: seq<Write>, parts: seq<bytes>, flushLast: bool, target: pos): nat
    decreases |parts|
  {
    if parts == [] then t.used
    else
      var flush := flushLast && |parts| == 1;
      var emitted := Emits(cx, writes, parts[0], flush);
      var after := AfterBytes(t, emitted, flush, target, Framing(cx));
      if |parts| == 1 || after.next > U32_MAX then PushPeak(t, emitted, flush, target, Framing(cx))
      else PartsPeak(cx, after, writes + [Write(parts[0], flush)], parts[1..], flushLast, target)
  }

  lemma PushPeakIs(t: Tally, emitted: nat, flush: bool, target: pos, framing: nat)
    ensures PushPeak(t, emitted, flush, target, framing) >= t.used
    ensures var after := AfterBytes(t, emitted, flush, target, framing);
            after.next <= U32_MAX ==> PushPeak(t, emitted, flush, target, framing) == after.used
  {
  }

  lemma {:induction false} PartsPeakGrows(cx: Context, t: Tally, writes: seq<Write>, parts: seq<bytes>, flushLast: bool,
                                          target: pos)
    ensures PartsPeak(cx, t, writes, parts, flushLast, target) >= t.used
    decreases |parts|
  {
    if parts != [] {
      var flush := flushLast && |parts| == 1;
      var emitted := Emits(cx, writes, parts[0], flush);
      var after := AfterBytes(t, emitted, flush, target, Framing(cx));
      PushPeakIs(t, emitted, flush, target, Framing(cx));
      AfterBytesGrows(t, emitted, flush, target, Framing(cx));
      PartsPeakGrows(cx, after, writes + [Write(parts[0], flush)], parts[1..], flushLast, target);
    }
  }

  lemma PushPeakNeeds(cx: Context, s: Sender, logical: bytes, flush: bool)
    requires s.encoder.Some?
    ensures PushPeak(TallyOf(s), Emits(cx, s.encoder.value, logical, flush), flush, s.target, Framing(cx))
         == BufferedBytes(s) + PushNeeds(cx, s, logical, flush)
  {
  }

  lemma PushOverPeak(cx: Context, s: Sender, logical: bytes, flush: bool)
    requires Lawful(cx.codec) && Feeding(cx, s) && Accepts(s, logical)
    ensures OverBudget(Push(cx, s, logical, flush))
       <==> PushPeak(TallyOf(s), Emits(cx, s.encoder.value, logical, flush), flush, s.target, Framing(cx))
            > s.maxBufferedBytes
  {
    PushPeakNeeds(cx, s, logical, flush);
    FramedPushOverIff(cx, s, logical, flush);
  }

  /** A refill that would launch more than there are sequence numbers fails. */
  lemma {:induction false} PumpExhausts(cx: Context, s: Sender)
    requires SenderOk(cx, s) && s.nextSequence + Launchable(s) > U32_MAX
    ensures Pump(cx, s).error.Some?
    decreases |s.pending|
  {
    PumpFirst(cx, s);
    var frame := EncodeItem(cx, s.nextSequence, s.pending[0]);
    if frame.Ok? && Launch(s, frame.value).error == None {
      PumpOneOk(cx, s);
      LaunchTakesPlace(s, frame.value);
      PumpExhausts(cx, Launch(s, frame.value).state);
    }
  }

  lemma LaunchTakesPlace(s: Sender, encoded: bytes)
    requires Accounted(s) && s.pending != [] && Room(s) > 0 && Launch(s, encoded).error == None
    ensures var t := Launch(s, encoded).state;
            Launchable(t) == Launchable(s) - 1 && t.nextSequence == s.nextSequence + 1 && |t.pending| == |s.pending| - 1
  {
    assert s.nextSequence !in s.inFlight;
  }

  /** A push that would use up the sequence numbers fails. */
  lemma PushExhausts(cx: Context, s: Sender, logical: bytes, flush: bool)
    requires Lawful(cx.codec) && Feeding(cx, s) && Accepts(s, logical) && AfterPush(cx, s, logical, flush).next > U32_MAX
    ensures Push(cx, s, logical, flush).error.Some?
  {
    PushLosesIff(cx, s, logical, flush);
    if !Exceeds(cx, s, DoPush(logical, flush)) {
      var all := |s.buffer| + Emits(cx, s.encoder.value, logical, flush);
      var t := LoadLeaves(cx, s, logical, flush, all, QueuedBy(cx, s, logical, flush), NewPayloads(cx, s, logical, flush));
      AfterPushIs(cx, s, logical, flush);
      PumpExhausts(cx, t);
    }
  }

  /** Pushing a chunk in parts after a single look at the backpressure exceeds the budget exactly when the most it needs
      does not fit. */
  lemma {:induction false} PartsOverIff(cx: Context, s: Sender, parts: seq<bytes>, flushLast: bool)
    requires Lawful(cx.codec) && Feeding(cx, s) && parts != [] && AcceptsAll(s.target, s.encoder.value, parts, flushLast)
    ensures OverBudget(PushParts(cx, s, parts, flushLast))
       <==> PartsPeak(cx, TallyOf(s), s.encoder.value, parts, flushLast, s.target) > s.maxBufferedBytes
    decreases |parts|
  {
    var flush := flushLast && |parts| == 1;
    var after := AfterPush(cx, s, parts[0], flush);
    PushOverPeak(cx, s, parts[0], flush);
    if |parts| > 1 {
      if after.next > U32_MAX {
        PushExhausts(cx, s, parts[0], flush);
      } else {
        RestOverIff(cx, s, parts, flushLast, after);
      }
    }
  }

  lemma {:induction false} RestOverIff(cx: Context, s: Sender, parts: seq<bytes>, flushLast: bool, after: Tally)
    requires Lawful(cx.codec) && Feeding(cx, s) && |parts| > 1 && AcceptsAll(s.target, s.encoder.value, parts, flushLast)
    requires after == AfterPush(cx, s, parts[0], false) && after.next <= U32_MAX
    ensures OverBudget(PushParts(cx, s, parts, flushLast))
       <==> PartsPeak(cx, TallyOf(s), s.encoder.value, parts, flushLast, s.target) > s.maxBufferedBytes
    decreases |parts|, 0
  {
    var writes := s.encoder.value + [Write(parts[0], false)];
    PushOverPeak(cx, s, parts[0], false);
    PushPeakIs(TallyOf(s), Emits(cx, s.encoder.value, parts[0], false), false, s.target, Framing(cx));
    PartsPeakGrows(cx, after, writes, parts[1..], flushLast, s.target);
    if after.used <= s.maxBufferedBytes {
      PushLeaves(cx, s, parts[0], false, after);
      PartsOverIff(cx, Push(cx, s, parts[0], false).state, parts[1..], flushLast);
    }
  }

  /** While sequence numbers last, that is what all of it needs, queued and launched in one go. */
  lemma {:induction false} PartsPeakIs(cx: Context, t: Tally, writes: seq<Write>, parts: seq<bytes>, flushLast: bool,
                                       target: pos)
    requires parts != []
    requires AfterBytes(t, EmitsAll(cx, writes, parts, flushLast), flushLast, target, Framing(cx)).next <= U32_MAX
    ensures PartsPeak(cx, t, writes, parts, flushLast, target)
         == AfterBytes(t, EmitsAll(cx, writes, parts, flushLast), flushLast, target, Framing(cx)).used
    decreases |parts|
  {
    var flush := flushLast && |parts| == 1;
    var emitted := Emits(cx, writes, parts[0], flush);
    PushPeakIs(t, emitted, flush, target, Framing(cx));
    if |parts| == 1 {
      assert EmitsAll(cx, writes, parts, flushLast) == emitted;
    } else {
      var rest := EmitsAll(cx, writes + [Write(parts[0], flush)], parts[1..], flushLast);
      AfterBytesAdds(t, emitted, rest, flushLast, target, Framing(cx));
      var after := AfterBytes(t, emitted, false, target, Framing(cx));
      AfterBytesGrows(after, rest, flushLast, target, Framing(cx));
      PartsPeakIs(cx, after, writes + [Write(parts[0], flush)], parts[1..], flushLast, target);
    }
  }

  lemma PushPeakAtMost(t: Tally, emitted: nat, flush: bool, target: pos, framing: nat)
    ensures PushPeak(t, emitted, flush, target, framing) <= AfterBytes(t, emitted, flush, target, framing).used
  {
    var count := t.waiting + PayloadCount(t.partial + emitted, target, flush);
    TimesGrows(Min(Min(t.room, SaturatingSub(U32_MAX + 1, t.next)), count), Min(t.room, count), framing);
  }

  lemma PartsPeakFirst(cx: Context, t: Tally, writes: seq<Write>, parts: seq<bytes>, flushLast: bool, target: pos,
                       emitted: nat, after: Tally)
    requires |parts| > 1 && emitted == Emits(cx, writes, parts[0], false)
    requires after == AfterBytes(t, emitted, false, target, Framing(cx))
    ensures PartsPeak(cx, t, writes, parts, flushLast, target)
         == if after.next > U32_MAX then PushPeak(t, emitted, false, target, Framing(cx))
            else PartsPeak(cx, after, writes + [Write(parts[0], false)], parts[1..], flushLast, target)
    ensures EmitsAll(cx, writes, parts, flushLast)
         == emitted + EmitsAll(cx, writes + [Write(parts[0], false)], parts[1..], flushLast)
  {
  }

  /** And never more, should they run out. */
  lemma {:induction false} PartsPeakAtMost(cx: Context, t: Tally, writes: seq<Write>, parts: seq<bytes>, flushLast: bool,
                                           target: pos)
    requires parts != []
    ensures PartsPeak(cx, t, writes, parts, flushLast, target)
         <= AfterBytes(t, EmitsAll(cx, writes, parts, flushLast), flushLast, target, Framing(cx)).used
    decreases |parts|
  {
    if |parts| == 1 {
      var emitted := Emits(cx, writes, parts[0], flushLast);
      assert EmitsAll(cx, writes, parts, flushLast) == emitted;
      PushPeakAtMost(t, emitted, flushLast, target, Framing(cx));
    } else {
      var emitted := Emits(cx, writes, parts[0], false);
      var after := AfterBytes(t, emitted, false, target, Framing(cx));
      var rest := EmitsAll(cx, writes + [Write(parts[0], false)], parts[1..], flushLast);
      PartsPeakFirst(cx, t, writes, parts, flushLast, target, emitted, after);
      PushPeakAtMost(t, emitted, false, target, Framing(cx));
      AfterBytesAdds(t, emitted, rest, flushLast, target, Framing(cx));
      AfterBytesGrows(after, rest, flushLast, target, Framing(cx));
      PartsPeakAtMost(cx, after, writes + [Write(parts[0], false)], parts[1..], flushLast, target);
    }
  }

  /** While sequence numbers last: exactly when all of what the parts emit, queued and launched in one go, would not fit. */
  lemma PartsOverInOneGo(cx: Context, s: Sender, parts: seq<bytes>, flushLast: bool)
    requires Lawful(cx.codec) && Feeding(cx, s) && parts != []
    requires AcceptsAll(s.target, s.encoder.value, parts, flushLast) && AfterParts(cx, s, parts, flushLast).next <= U32_MAX
    ensures OverBudget(PushParts(cx, s, parts, flushLast))
       <==> AfterParts(cx, s, parts, flushLast).used > s.maxBufferedBytes
  {
    PartsOverIff(cx, s, parts, flushLast);
    PartsPeakIs(cx, TallyOf(s), s.encoder.value, parts, flushLast, s.target);
  }

  // ---- Without compression ----

  function TotalLength(parts: seq<bytes>): nat {
    if parts == [] then 0 else |parts[0]| + TotalLength(parts[1..])
  }

  lemma {:induction false} EmitsTotal(cx: Context, writes: seq<Write>, parts: seq<bytes>, flushLast: bool)
    requires cx.codec == NO_COMPRESSION
    ensures EmitsAll(cx, writes, parts, flushLast) == TotalLength(parts)
    decreases |parts|
  {
    if parts != [] {
      var next := writes + [Write(parts[0], flushLast && |parts| == 1)];
      assert next[..|writes|] == writes;
      EmitsTotal(cx, next, parts[1..], flushLast);
    }
  }

  lemma {:induction false} WholeIsTimes(n: nat, target: pos)
    ensures WholePayloads(n, target) == Times(WholeCount(n, target), target)
  {
    if n >= target {
      WholeIsTimes(n - target, target);
    }
  }

  lemma {:induction false} TimesSum(n: nat, a: nat, b: nat, c: nat)
    requires a + b <= c
    ensures Times(n, a) + Times(n, b) <= Times(n, c)
  {
    if n > 0 {
      TimesSum(n - 1, a, b, c);
    }
  }

  lemma FlightWeight(s: Sender, limit: nat)
    requires Accounted(s) && SmallFrames(s, limit)
    ensures s.inFlightBytes <= Times(|s.inFlight|, limit)
  {
    WeightCount(s.inFlight, s.nextSequence, limit);
    CountIsSize(s.inFlight.Keys, s.nextSequence);
    assert |s.inFlight.Keys| == |s.inFlight|;
    TimesIs(|s.inFlight|, limit);
  }

  lemma BudgetHoldsWindow(l: Limits)
    requires CheckNew(l.frameLimit, l.reservedMetadata, l.windowFrames, l.maxPendingBytes) == None
    ensures Times(l.windowFrames, FrameBytes(l)) <= l.maxPendingBytes
  {
    TimesIs(l.windowFrames, FrameBytes(l));
  }

  lemma FlightAndPayloads(window: nat, frame: nat, flight: nat, count: nat, target: nat, framing: nat)
    requires flight + count <= window && target + framing <= frame
    ensures Times(flight, frame) + Times(count, target) + Times(count, framing) <= Times(window, frame)
  {
    TimesSum(count, target, framing, frame);
    TimesAdd(flight, count, frame);
    TimesGrows(flight + count, window, frame);
  }

  lemma WindowHolds(l: Limits, flight: nat, count: nat, target: nat, framing: nat)
    requires CheckNew(l.frameLimit, l.reservedMetadata, l.windowFrames, l.maxPendingBytes) == None
    requires flight + count <= l.windowFrames && target + framing <= FrameBytes(l)
    ensures Times(flight, FrameBytes(l)) + Times(count, target) + Times(count, framing) <= l.maxPendingBytes
  {
    BudgetHoldsWindow(l);
    FlightAndPayloads(l.windowFrames, FrameBytes(l), flight, count, target, framing);
  }

  lemma CountFits(all: nat, target: pos, room: nat)
    requires all < Times(room + 1, target)
    ensures WholeCount(all, target) <= room && WholePayloads(all, target) == Times(WholeCount(all, target), target)
  {
    WholeAtMost(all, target);
    WholeIsTimes(all, target);
    if WholeCount(all, target) > room {
      TimesGrows(room + 1, WholeCount(all, target), target);
    }
  }

  lemma TidyFeeds(cx: Context, l: Limits, s: Sender, writes: seq<Write>)
    requires Spacious(cx, l) && Tidy(cx, l, s, writes) && !s.inputFinished && s.encoder.Some?
    ensures Feeding(cx, s) && s.pending == [] && BufferedBytes(s) <= Times(|s.inFlight|, FrameBytes(l))
    ensures s.target + Framing(cx) <= FrameBytes(l) && |s.inFlight| + Room(s) <= l.windowFrames
    ensures s.maxBufferedBytes == l.maxPendingBytes && Lawful(cx.codec)
  {
    NoCompressionIsLawful();
    TidyIsFixed(cx, l, s, writes);
    FlightWeight(s, FrameBytes(l));
  }

  lemma CountsOnly(t: Tally, emitted: nat, target: pos, framing: nat, count: nat)
    requires t.waiting == 0 && count == WholeCount(t.partial + emitted, target) && count <= t.room
    requires WholePayloads(t.partial + emitted, target) == Times(count, target)
    ensures var after := AfterBytes(t, emitted, false, target, framing);
            after.used == t.used + Times(count, target) + Times(count, framing) && after.next == t.next + count
  {
  }

  lemma UsedIs(cx: Context, s: Sender, parts: seq<bytes>, count: nat)
    requires cx.codec == NO_COMPRESSION && s.encoder.Some? && s.pending == []
    requires var all := |s.buffer| + TotalLength(parts);
             count == WholeCount(all, s.target) && count <= Room(s) && WholePayloads(all, s.target) == Times(count, s.target)
    ensures var after := AfterParts(cx, s, parts, false);
            && after.used == BufferedBytes(s) + Times(count, s.target) + Times(count, Framing(cx))
            && after.next == s.nextSequence + count
  {
    EmitsTotal(cx, s.encoder.value, parts, false);
    CountsOnly(TallyOf(s), TotalLength(parts), s.target, Framing(cx), count);
  }

  /** After one look at the backpressure, a caller without compression may push, in unflushed parts, as many bytes as fill
      the open places of the window and do not complete one payload more. */
  lemma RoomForParts(cx: Context, l: Limits, s: Sender, writes: seq<Write>, parts: seq<bytes>)
    requires Spacious(cx, l) && Tidy(cx, l, s, writes) && !s.inputFinished && s.encoder.Some? && parts != []
    requires AcceptsAll(s.target, s.encoder.value, parts, false)
    requires |s.buffer| + TotalLength(parts) < Times(Room(s) + 1, s.target)
    ensures !OverBudget(PushParts(cx, s, parts, false))
  {
    var all := |s.buffer| + TotalLength(parts);
    var count := WholeCount(all, s.target);
    TidyFeeds(cx, l, s, writes);
    CountFits(all, s.target, Room(s));
    UsedIs(cx, s, parts, count);
    WindowHolds(l, |s.inFlight|, count, s.target, Framing(cx));
    PartsOverIff(cx, s, parts, false);
    PartsPeakAtMost(cx, TallyOf(s), s.encoder.value, parts, false, s.target);
  }

  // ---- What backpressure means ----

  /** The push puts the next sequence in flight, without an error. */
  ghost predicate Launches(cx: Context, s: Sender, logical: bytes) {
    var o := Push(cx, s, logical, false);
    |logical| <= s.target && o.error == None && s.nextSequence in o.state.inFlight
  }

  /** The bytes that complete the payload being filled. */
  function Filler(s: Sender): bytes {
    seq(SaturatingSub(s.target, |s.buffer|), _ => 0)
  }

  lemma TimesOnce(k: nat)
    ensures Times(1, k) == k
  {
    assert Times(0, k) == 0;
  }

  lemma OnePayload(target: pos)
    ensures WholeCount(target, target) == 1 && WholePayloads(target, target) == target
  {
    assert WholeCount(0, target) == 0 && WholePayloads(0, target) == 0;
  }

  lemma FillerFits(cx: Context, l: Limits, s: Sender, writes: seq<Write>) returns (after: Tally)
    requires Spacious(cx, l) && Tidy(cx, l, s, writes) && !s.inputFinished && s.encoder.Some?
    requires Room(s) > 0 && s.nextSequence < U32_MAX
    ensures after == AfterPush(cx, s, Filler(s), false) && after.used <= s.maxBufferedBytes
    ensures after.next == s.nextSequence + 1
  {
    TidyFeeds(cx, l, s, writes);
    var logical := Filler(s);
    assert |s.buffer| + |logical| == s.target;
    assert s.encoder.value == (s.encoder.value + [Write(logical, false)])[..|s.encoder.value|];
    assert Emits(cx, s.encoder.value, logical, false) == |logical|;
    OnePayload(s.target);
    TimesOnce(s.target);
    TimesOnce(Framing(cx));
    CountsOnly(TallyOf(s), |logical|, s.target, Framing(cx), 1);
    WindowHolds(l, |s.inFlight|, 1, s.target, Framing(cx));
    after := AfterPush(cx, s, logical, false);
  }

  /** The first number a push hands out goes to a frame in flight. */
  lemma NumberedIsInFlight(cx: Context, s: Sender, logical: bytes)
    requires SenderOk(cx, s) && Push(cx, s, logical, false).error == None
    requires Push(cx, s, logical, false).state.nextSequence > s.nextSequence
    ensures s.nextSequence in Push(cx, s, logical, false).state.inFlight
  {
    var w := Window({}, s.nextSequence);
    assert NoneMissing(s, w);
    LoadedOk(cx, s, logical, false);
    LoadKeeps(cx, s, DoPush(logical, false), w);
    PushOk(cx, s, logical, false);
    assert !Seen(w, s.nextSequence);
  }

  lemma OpenLaunches(cx: Context, l: Limits, s: Sender, writes: seq<Write>)
    requires Spacious(cx, l) && Tidy(cx, l, s, writes) && !s.inputFinished && s.encoder.Some?
    requires Room(s) > 0 && s.nextSequence < U32_MAX && |Input(s.encoder.value)| + s.target <= U64_MAX
    ensures Launches(cx, s, Filler(s))
  {
    TidyFeeds(cx, l, s, writes);
    var after := FillerFits(cx, l, s, writes);
    PushLeaves(cx, s, Filler(s), false, after);
    NumberedIsInFlight(cx, s, Filler(s));
  }

  lemma FullLaunchesNone(cx: Context, s: Sender, logical: bytes)
    requires SenderOk(cx, s) && Room(s) == 0
    ensures !Launches(cx, s, logical)
  {
    LoadedKeeps(cx, s, DoPush(logical, false));
    NoRefill(cx, Loaded(cx, s, logical, false).state);
  }

  /** A tidy sender has budget to spare whenever its window has room. */
  lemma BackpressuredIff(cx: Context, l: Limits, s: Sender, writes: seq<Write>)
    requires Spacious(cx, l) && Tidy(cx, l, s, writes) && !s.inputFinished && s.encoder.Some?
    ensures IsBackpressured(s) <==> Room(s) == 0
  {
    TidyFeeds(cx, l, s, writes);
    if Room(s) > 0 {
      TimesOnce(s.target);
      WindowHolds(l, |s.inFlight|, 1, s.target, Framing(cx));
    }
  }

  /** In general, for any codec: a sender is not backpressured if and only if its window has room and one more byte could be
      queued. */
  lemma BackpressureMeans(cx: Context, s: Sender)
    requires SenderOk(cx, s)
    ensures !IsBackpressured(s) <==> Room(s) > 0 && Queue(s, Data([0])).error == None
  {
  }

  /** Backpressure is exact: a sender that still takes input, with sequence numbers and stream length to spare, is not
      backpressured if and only if some unflushed push of at most one payload puts a new frame in flight. */
  lemma OpenIff(cx: Context, l: Limits, s: Sender, writes: seq<Write>)
    requires Spacious(cx, l) && Tidy(cx, l, s, writes) && !s.inputFinished && s.encoder.Some?
    requires s.nextSequence < U32_MAX && |Input(s.encoder.value)| + s.target <= U64_MAX
    ensures !IsBackpressured(s) <==> exists logical :: Launches(cx, s, logical)
  {
    BackpressuredIff(cx, l, s, writes);
    if Room(s) > 0 {
      OpenLaunches(cx, l, s, writes);
    } else {
      forall logical
        ensures !Launches(cx, s, logical)
      {
        FullLaunchesNone(cx, s, logical);
      }
    }
  }
}
