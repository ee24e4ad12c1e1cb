/** Exactly when a push or a finish exceeds the byte budget, for every sender, window and budget. */
module Overrun {
  import opened Prelude
  import opened Wire
  import opened Core
  import opened Stream
  import opened Sender
  import opened SenderInvariant
  import opened SenderFlow
  import opened Protocol
  import opened Delivery
  import opened Progress
  import opened Loss
  import opened Budget

  // ---- Refilling ----

  predicate Encodable(cx: Context, item: Item) {
    EncodedSize(cx, item) <= DEFAULT_FRAME_LIMIT && MetadataSize(cx, item) <= MAX_METADATA_LEN
  }

  /** What launching an item adds to the bytes it was counted for; an end record may take some away. */
  function LaunchCost(cx: Context, item: Item): int {
    EncodedSize(cx, item) - RetainedBytes(item)
  }

  /** How many waiting items a refill gets to look at: as many as the window has room for, and one more than there are
      sequence numbers. */
  function Attempts(s: Sender): nat {
    Min(Room(s), U32_MAX - s.nextSequence + 1)
  }

  /** The most that launching the first `n` items adds at any moment. */
  function Peak(cx: Context, items: seq<Item>, n: nat): nat
    decreases n
  {
    if n == 0 || items == [] || !Encodable(cx, items[0]) then 0
    else
      var cost := LaunchCost(cx, items[0]) + Peak(cx, items[1..], n - 1);
      if cost < 0 then 0 else cost
  }

  lemma LaunchOverIff(cx: Context, s: Sender, encoded: bytes)
    requires Accounted(s) && s.pending != [] && |encoded| == EncodedSize(cx, s.pending[0])
    ensures OverBudget(Launch(s, encoded)) <==> BufferedBytes(s) + LaunchCost(cx, s.pending[0]) > s.maxBufferedBytes
  {
  }

  lemma LaunchLeaves(cx: Context, s: Sender, encoded: bytes)
    requires Accounted(s) && s.pending != [] && |encoded| == EncodedSize(cx, s.pending[0]) && Room(s) > 0
    requires Launch(s, encoded).error == None
    ensures var t := Launch(s, encoded).state;
            && t.pending == s.pending[1..] && t.maxBufferedBytes == s.maxBufferedBytes
            && BufferedBytes(t) == BufferedBytes(s) + LaunchCost(cx, s.pending[0])
            && Attempts(t) == Attempts(s) - 1 && Attempts(s) > 0
  {
    assert s.nextSequence !in s.inFlight;
  }

  lemma PumpFirst(cx: Context, s: Sender)
    requires Room(s) > 0 && s.pending != []
    ensures var one := PumpOne(cx, s);
            Pump(cx, s) == if one.error.Some? then one else Pump(cx, one.state)
    ensures Attempts(s) > 0
  {
  }

  /** A refill exceeds the budget exactly when the peak of what it launches does not fit. */
  lemma {:induction false} PumpOverIff(cx: Context, s: Sender)
    requires Accounted(s) && BufferedBytes(s) <= s.maxBufferedBytes
    ensures OverBudget(Pump(cx, s)) <==> BufferedBytes(s) + Peak(cx, s.pending, Attempts(s)) > s.maxBufferedBytes
    decreases |s.pending|
  {
    if Room(s) > 0 && s.pending != [] {
      PumpFirst(cx, s);
      EncodeItemSize(cx, s.nextSequence, s.pending[0]);
      var frame := EncodeItem(cx, s.nextSequence, s.pending[0]);
      if frame.Ok? {
        PumpRest(cx, s, frame.value);
      }
    }
  }

  lemma {:induction false} PumpRest(cx: Context, s: Sender, encoded: bytes)
    requires Accounted(s) && BufferedBytes(s) <= s.maxBufferedBytes && Room(s) > 0 && s.pending != []
    requires EncodeItem(cx, s.nextSequence, s.pending[0]) == Ok(encoded)
    ensures OverBudget(Pump(cx, s)) <==> BufferedBytes(s) + Peak(cx, s.pending, Attempts(s)) > s.maxBufferedBytes
    decreases |s.pending|, 0
  {
    PumpFirst(cx, s);
    EncodeItemSize(cx, s.nextSequence, s.pending[0]);
    LaunchOverIff(cx, s, encoded);
    var one := Launch(s, encoded);
    if one.error == None {
      LaunchLeaves(cx, s, encoded);
      LaunchAccounted(s, encoded);
      PumpOverIff(cx, one.state);
    } else if one.error == Some(SequenceExhausted) {
      assert Peak(cx, s.pending[1..], 0) == 0;
    }
  }

  // ---- Data frames, and an end record last ----

  /** Header and metadata of a data frame. */
  function Framing(cx: Context): nat {
    HEADER_LEN + EmptyMetadataSize(cx)
  }

  /** Every full payload can be framed. */
  predicate Framable(cx: Context, target: nat) {
    Framing(cx) + target <= DEFAULT_FRAME_LIMIT && EmptyMetadataSize(cx) <= MAX_METADATA_LEN
  }

  lemma {:induction false} DataPeak(cx: Context, target: nat, items: seq<Item>, n: nat)
    requires Framable(cx, target) && Fits(target, items) && OnlyData(items)
    ensures Peak(cx, items, n) == Times(Min(n, |items|), Framing(cx))
    decreases n
  {
    if n > 0 && items != [] {
      DataPeak(cx, target, items[1..], n - 1);
      assert Min(n, |items|) - 1 == Min(n - 1, |items[1..]|);
    }
  }

  /** What an end record adds at its peak. */
  function EndPeak(cx: Context, end: StreamEnd): nat {
    if Encodable(cx, End(end)) && LaunchCost(cx, End(end)) > 0 then LaunchCost(cx, End(end)) else 0
  }

  /** What the refill of so many data items and an end record adds at its peak. */
  function EndedPeak(cx: Context, data: nat, n: nat, end: StreamEnd): nat {
    if n <= data then Times(n, Framing(cx)) else Times(data, Framing(cx)) + EndPeak(cx, end)
  }

  lemma {:induction false} DataThenEndPeak(cx: Context, target: nat, data: seq<Item>, n: nat, end: StreamEnd)
    requires Framable(cx, target) && Fits(target, data) && OnlyData(data)
    ensures Peak(cx, data + [End(end)], n) == EndedPeak(cx, |data|, n, end)
    decreases n
  {
    if data == [] {
      assert data + [End(end)] == [End(end)] && [End(end)][1..] == [];
    } else if n > 0 {
      assert (data + [End(end)])[1..] == data[1..] + [End(end)];
      DataThenEndPeak(cx, target, data[1..], n - 1, end);
    }
  }

  // ---- Push ----

  function WholeCount(n: nat, target: pos): nat {
    if n < target then 0 else 1 + WholeCount(n - target, target)
  }

  lemma {:induction false} BatchesCount(data: bytes, target: pos)
    ensures |Batches(data, target).0| == WholeCount(|data|, target)
    decreases |data|
  {
    if |data| >= target {
      BatchesCount(data[target..], target);
    }
  }

  lemma {:induction false} QueueAllCount(s: Sender, payloads: seq<bytes>)
    ensures QueueAll(s, payloads).error == None ==>
              |QueueAll(s, payloads).state.pending| == |s.pending| + |payloads|
    decreases |payloads|
  {
    if payloads != [] {
      var first := Queue(s, Data(payloads[0]));
      if first.error == None {
        QueueAllCount(first.state, payloads[1..]);
      }
    }
  }

  lemma QueueCompressedCount(s: Sender, compressed: bytes)
    ensures var o := QueueCompressed(s, compressed);
            o.error == None ==>
              |o.state.pending| == |s.pending| + WholeCount(|s.buffer| + |compressed|, s.target)
  {
    var (payloads, rest) := Batches(s.buffer + compressed, s.target);
    BatchesCount(s.buffer + compressed, s.target);
    QueueAllCount(s.(buffer := rest), payloads);
  }

  /** Payloads that so many bytes make, the last one short when they are flushed. */
  function PayloadCount(n: nat, target: pos, flush: bool): nat {
    WholeCount(n, target) + (if flush && WholePayloads(n, target) < n then 1 else 0)
  }

  lemma FlushCount(s: Sender)
    ensures FlushBuffer(s).error == None ==>
              |FlushBuffer(s).state.pending| == |s.pending| + (if s.buffer == [] then 0 else 1)
  {
  }

  /** Payloads an accepted push would queue. */
  function NewPayloads(cx: Context, s: Sender, logical: bytes, flush: bool): nat
    requires s.encoder.Some?
  {
    PayloadCount(|s.buffer| + Emits(cx, s.encoder.value, logical, flush), s.target, flush)
  }

  /** Batching and queueing so many compressed bytes, flushing what is left if asked. */
  function Queueing(s: Sender, compressed: bytes, flush: bool): Outcome {
    var queued := QueueCompressed(s, compressed);
    if queued.error.Some? || !flush then queued else FlushBuffer(queued.state)
  }

  /** The queue after `queued` more bytes in `count` more items; nothing else the budget depends on has changed. */
  ghost predicate QueuedUp(s: Sender, t: Sender, queued: nat, count: nat) {
    && t.inFlight == s.inFlight && t.nextSequence == s.nextSequence && t.inFlightBytes == s.inFlightBytes
    && EffectiveWindow(t) == EffectiveWindow(s) && t.maxBufferedBytes == s.maxBufferedBytes && t.target == s.target
    && BufferedBytes(t) == BufferedBytes(s) + queued && |t.pending| == |s.pending| + count
    && (OnlyData(s.pending) ==> OnlyData(t.pending))
  }

  lemma QueueingUp(s: Sender, compressed: bytes, flush: bool)
    requires BufferedBytes(s) <= s.maxBufferedBytes && Queueing(s, compressed, flush).error == None
    ensures var n := |s.buffer| + |compressed|;
            QueuedUp(s, Queueing(s, compressed, flush).state, if flush then n else WholePayloads(n, s.target),
                     PayloadCount(n, s.target, flush))
  {
    QueueCompressedFlow(s, compressed);
    QueueCompressedFailsIff(s, compressed);
    QueueCompressedCount(s, compressed);
    if flush {
      QueueFlushFailsIff(s, compressed);
      FlushBufferFlow(QueueCompressed(s, compressed).state);
      FlushCount(QueueCompressed(s, compressed).state);
    }
  }

  lemma LoadedQueueing(cx: Context, s: Sender, logical: bytes, flush: bool)
    requires Lawful(cx.codec) && Accepts(s, logical)
    ensures var (writes, r) := EncoderPush(cx, s.encoder.value, logical, flush);
            r.Ok? && |r.value| == Emits(cx, s.encoder.value, logical, flush)
            && Loaded(cx, s, logical, flush) == Queueing(s.(encoder := Some(writes)), r.value, flush)
  {
    AcceptedPush(cx, s, logical, flush);
  }

  lemma AcceptedQueues(cx: Context, s: Sender, logical: bytes, flush: bool)
    requires Lawful(cx.codec) && BufferedBytes(s) <= s.maxBufferedBytes
    requires Accepts(s, logical) && !Exceeds(cx, s, DoPush(logical, flush))
    ensures var o := Loaded(cx, s, logical, flush);
            o.error == None && QueuedUp(s, o.state, QueuedBy(cx, s, logical, flush), NewPayloads(cx, s, logical, flush))
  {
    PushLosesIff(cx, s, logical, flush);
    LoadedQueueing(cx, s, logical, flush);
    var (writes, r) := EncoderPush(cx, s.encoder.value, logical, flush);
    var s' := s.(encoder := Some(writes));
    QueueingFailsOnLimit(s', r.value, flush);
    QueueingUp(s', r.value, flush);
  }

  lemma QueueingFailsOnLimit(s: Sender, compressed: bytes, flush: bool)
    ensures Queueing(s, compressed, flush).error.Some? ==> Lost(Queueing(s, compressed, flush))
  {
    QueueCompressedFlow(s, compressed);
    FlushBufferFlow(QueueCompressed(s, compressed).state);
  }

  lemma RefusedPush(cx: Context, s: Sender, logical: bytes, flush: bool)
    requires Lawful(cx.codec) && !Accepts(s, logical)
    ensures Push(cx, s, logical, flush).state == s && !OverBudget(Push(cx, s, logical, flush))
  {
  }

  function AsData(payloads: seq<bytes>): seq<Item> {
    if payloads == [] then [] else [Data(payloads[0])] + AsData(payloads[1..])
  }

  /** The items that batching makes of so many bytes, the last one short when they are flushed. */
  function ItemsOf(data: bytes, target: pos, flush: bool): seq<Item> {
    var (payloads, rest) := Batches(data, target);
    AsData(payloads) + (if flush && rest != [] then [Data(rest)] else [])
  }

  /** The bytes the encoder puts out for one push. */
  function Emission(cx: Context, writes: seq<Write>, logical: bytes, flush: bool): bytes {
    var before, after := cx.codec.emitted(writes), cx.codec.emitted(writes + [Write(logical, flush)]);
    if before <= after then after[|before|..] else []
  }

  /** The items an accepted push would queue. */
  function NewItems(cx: Context, s: Sender, logical: bytes, flush: bool): seq<Item>
    requires s.encoder.Some?
  {
    ItemsOf(s.buffer + Emission(cx, s.encoder.value, logical, flush), s.target, flush)
  }

  lemma {:induction false} QueueAllItems(s: Sender, payloads: seq<bytes>)
    ensures var o := QueueAll(s, payloads);
            o.error == None ==> o.state.pending == s.pending + AsData(payloads) && o.state.buffer == s.buffer
    decreases |payloads|
  {
    if payloads != [] {
      var first := Queue(s, Data(payloads[0]));
      if first.error == None {
        QueueAllItems(first.state, payloads[1..]);
        assert s.pending + ([Data(payloads[0])] + AsData(payloads[1..]))
            == s.pending + [Data(payloads[0])] + AsData(payloads[1..]);
      }
    }
  }

  lemma QueueingItems(s: Sender, compressed: bytes, flush: bool)
    ensures var o := Queueing(s, compressed, flush);
            o.error == None ==> o.state.pending == s.pending + ItemsOf(s.buffer + compressed, s.target, flush)
  {
    var (payloads, rest) := Batches(s.buffer + compressed, s.target);
    QueueAllItems(s.(buffer := rest), payloads);
  }

  /** A push of any codec, with payloads of any size, exceeds the budget exactly when it is accepted and what it queues,
      with the most that launching what then waits adds at any moment, does not fit. */
  lemma PushOverIff(cx: Context, s: Sender, logical: bytes, flush: bool)
    requires Lawful(cx.codec) && SenderOk(cx, s)
    ensures OverBudget(Push(cx, s, logical, flush))
       <==> Accepts(s, logical)
            && BufferedBytes(s) + QueuedBy(cx, s, logical, flush)
               + Peak(cx, s.pending + NewItems(cx, s, logical, flush), Attempts(s)) > s.maxBufferedBytes
  {
    if !Accepts(s, logical) {
      RefusedPush(cx, s, logical, flush);
    } else {
      PushLosesIff(cx, s, logical, flush);
      if !Exceeds(cx, s, DoPush(logical, flush)) {
        LoadedItems(cx, s, logical, flush);
        var queued, items := QueuedBy(cx, s, logical, flush), NewItems(cx, s, logical, flush);
        RefillOverIff(cx, s, Loaded(cx, s, logical, flush).state, queued, items);
      }
    }
  }

  /** Everything the budget depends on, once so many bytes in these items have been queued. */
  ghost predicate Filled(cx: Context, s: Sender, t: Sender, queued: nat, items: seq<Item>) {
    && SenderOk(cx, t) && t.pending == s.pending + items && Attempts(t) == Attempts(s)
    && BufferedBytes(t) == BufferedBytes(s) + queued && t.maxBufferedBytes == s.maxBufferedBytes
  }

  lemma RefillOverIff(cx: Context, s: Sender, t: Sender, queued: nat, items: seq<Item>)
    requires Filled(cx, s, t, queued, items)
    ensures OverBudget(Pump(cx, t))
       <==> BufferedBytes(s) + queued + Peak(cx, s.pending + items, Attempts(s)) > s.maxBufferedBytes
  {
    PumpOverIff(cx, t);
  }

  lemma LoadedItems(cx: Context, s: Sender, logical: bytes, flush: bool)
    requires Lawful(cx.codec) && SenderOk(cx, s) && Accepts(s, logical) && !Exceeds(cx, s, DoPush(logical, flush))
    ensures var o := Loaded(cx, s, logical, flush);
            && o.error == None && Push(cx, s, logical, flush) == Pump(cx, o.state)
            && Filled(cx, s, o.state, QueuedBy(cx, s, logical, flush), NewItems(cx, s, logical, flush))
  {
    AcceptedQueues(cx, s, logical, flush);
    LoadedOk(cx, s, logical, flush);
    LoadedQueueing(cx, s, logical, flush);
    var (writes, r) := EncoderPush(cx, s.encoder.value, logical, flush);
    QueueingItems(s.(encoder := Some(writes)), r.value, flush);
  }

  /** What a push adds to the budget in all, at its peak: the bytes it queues and the framing of what then launches. */
  function PushNeeds(cx: Context, s: Sender, logical: bytes, flush: bool): nat
    requires s.encoder.Some?
  {
    QueuedBy(cx, s, logical, flush)
    + Times(Min(Attempts(s), |s.pending| + NewPayloads(cx, s, logical, flush)), Framing(cx))
  }

  /** In numbers, when every payload can be framed. */
  lemma FramedPushOverIff(cx: Context, s: Sender, logical: bytes, flush: bool)
    requires Lawful(cx.codec) && SenderOk(cx, s) && (s.inputFinished || OnlyData(s.pending)) && Framable(cx, s.target)
    ensures OverBudget(Push(cx, s, logical, flush))
       <==> Accepts(s, logical) && BufferedBytes(s) + PushNeeds(cx, s, logical, flush) > s.maxBufferedBytes
  {
    if !Accepts(s, logical) {
      RefusedPush(cx, s, logical, flush);
    } else {
      PushLosesIff(cx, s, logical, flush);
      if !Exceeds(cx, s, DoPush(logical, flush)) {
        AcceptedQueues(cx, s, logical, flush);
        LoadedOk(cx, s, logical, flush);
        var t := Loaded(cx, s, logical, flush).state;
        PumpOverIff(cx, t);
        DataPeak(cx, t.target, t.pending, Attempts(t));
      }
    }
  }

  // ---- Finish ----

  /** Payloads a finish would queue. */
  function LastPayloads(cx: Context, s: Sender): nat
    requires s.encoder.Some?
  {
    PayloadCount(|s.buffer| + |cx.codec.trailing(s.encoder.value)|, s.target, true)
  }

  function FinishNeeds(cx: Context, s: Sender): nat
    requires s.encoder.Some?
  {
    QueuedByFinish(cx, s)
    + EndedPeak(cx, |s.pending| + LastPayloads(cx, s), Attempts(s), EndOf(cx, s.encoder.value))
  }

  lemma EndedQueue(s: Sender, tail: Sender, end: StreamEnd, queued: nat, count: nat)
    requires QueuedUp(s, tail, queued, count) && Queue(tail, End(end)).error == None && OnlyData(s.pending)
    ensures var t := Queue(tail, End(end)).state;
            && t.pending == tail.pending + [End(end)] && Attempts(t) == Attempts(s)
            && BufferedBytes(t) == BufferedBytes(s) + queued + 64 && t.maxBufferedBytes == s.maxBufferedBytes
  {
  }

  /** Everything a finish queues ahead of the end record. */
  function Tail(cx: Context, s: Sender): Sender
    requires s.encoder.Some?
  {
    Queueing(s.(encoder := None), cx.codec.trailing(s.encoder.value), true).state
  }

  lemma FinishQueues(cx: Context, s: Sender)
    requires BufferedBytes(s) <= s.maxBufferedBytes && s.encoder.Some? && LoadedEnd(cx, s).error == None
    ensures var tail, end := Tail(cx, s), End(EndOf(cx, s.encoder.value));
            && QueuedUp(s, tail, |s.buffer| + |cx.codec.trailing(s.encoder.value)|, LastPayloads(cx, s))
            && Queue(tail, end).error == None
            && LoadedEnd(cx, s).state == Queue(tail, end).state.(inputFinished := true)
  {
    QueueingUp(s.(encoder := None), cx.codec.trailing(s.encoder.value), true);
  }

  lemma TailFits(cx: Context, s: Sender)
    requires SenderOk(cx, s) && s.encoder.Some?
    ensures Fits(s.target, Tail(cx, s).pending) && Tail(cx, s).target == s.target
  {
    var s', trailing := s.(encoder := None), cx.codec.trailing(s.encoder.value);
    QueueCompressedOk(cx, s', trailing);
    FlushBufferOk(cx, QueueCompressed(s', trailing).state);
  }

  lemma EndedRefill(cx: Context, t: Sender, data: seq<Item>, end: StreamEnd)
    requires Accounted(t) && BufferedBytes(t) <= t.maxBufferedBytes && t.pending == data + [End(end)]
    requires Framable(cx, t.target) && Fits(t.target, data) && OnlyData(data)
    ensures OverBudget(Pump(cx, t))
       <==> BufferedBytes(t) + EndedPeak(cx, |data|, Attempts(t), end) > t.maxBufferedBytes
  {
    PumpOverIff(cx, t);
    DataThenEndPeak(cx, t.target, data, Attempts(t), end);
  }

  /** What a finish that could be queued leaves to refill from. */
  ghost predicate ReadyToEnd(cx: Context, s: Sender, t: Sender, tail: Sender) {
    && s.encoder.Some? && SenderOk(cx, t) && t.target == s.target && t.maxBufferedBytes == s.maxBufferedBytes
    && OnlyData(tail.pending) && Fits(s.target, tail.pending) && |tail.pending| == |s.pending| + LastPayloads(cx, s)
    && t.pending == tail.pending + [End(EndOf(cx, s.encoder.value))] && Attempts(t) == Attempts(s)
    && BufferedBytes(t) == BufferedBytes(s) + QueuedByFinish(cx, s)
  }

  lemma FinishReady(cx: Context, s: Sender)
    requires SenderOk(cx, s) && OnlyData(s.pending) && s.encoder.Some? && LoadedEnd(cx, s).error == None
    ensures ReadyToEnd(cx, s, LoadedEnd(cx, s).state, Tail(cx, s))
  {
    FinishQueues(cx, s);
    TailFits(cx, s);
    LoadedEndOk(cx, s);
    EndedQueue(s, Tail(cx, s), EndOf(cx, s.encoder.value), |s.buffer| + |cx.codec.trailing(s.encoder.value)|,
               LastPayloads(cx, s));
  }

  /** The refill after a finish that could be queued. */
  lemma FinishRefills(cx: Context, s: Sender, t: Sender, tail: Sender)
    requires ReadyToEnd(cx, s, t, tail) && Framable(cx, s.target)
    ensures OverBudget(Pump(cx, t)) <==> BufferedBytes(s) + FinishNeeds(cx, s) > s.maxBufferedBytes
  {
    EndedRefill(cx, t, tail.pending, EndOf(cx, s.encoder.value));
  }

  lemma FinishIs(cx: Context, s: Sender)
    requires !s.inputFinished && s.encoder.Some?
    ensures var o := LoadedEnd(cx, s); FinishInput(cx, s) == if o.error.Some? then o else Pump(cx, o.state)
  {
  }

  /** The items a finish would queue. */
  function LastItems(cx: Context, s: Sender): seq<Item>
    requires s.encoder.Some?
  {
    ItemsOf(s.buffer + cx.codec.trailing(s.encoder.value), s.target, true) + [End(EndOf(cx, s.encoder.value))]
  }

  lemma EndedItems(cx: Context, s: Sender)
    requires SenderOk(cx, s) && s.encoder.Some? && LoadedEnd(cx, s).error == None
    ensures Filled(cx, s, LoadedEnd(cx, s).state, QueuedByFinish(cx, s), LastItems(cx, s))
  {
    LoadedEndOk(cx, s);
    FinishQueues(cx, s);
    QueueingItems(s.(encoder := None), cx.codec.trailing(s.encoder.value), true);
    var items := ItemsOf(s.buffer + cx.codec.trailing(s.encoder.value), s.target, true);
    var end := End(EndOf(cx, s.encoder.value));
    assert s.pending + (items + [end]) == s.pending + items + [end];
  }

  /** A finish exceeds the budget exactly when input is still open and what it queues, with the most that launching what
      then waits adds at any moment, does not fit. */
  lemma FinishOverIff(cx: Context, s: Sender)
    requires SenderOk(cx, s)
    ensures OverBudget(FinishInput(cx, s))
       <==> !s.inputFinished && s.encoder.Some?
            && BufferedBytes(s) + QueuedByFinish(cx, s) + Peak(cx, s.pending + LastItems(cx, s), Attempts(s))
               > s.maxBufferedBytes
  {
    if !s.inputFinished && s.encoder.Some? {
      FinishIs(cx, s);
      FinishLosesIff(cx, s);
      LoadedEndErrors(cx, s);
      if LoadedEnd(cx, s).error == None {
        EndedItems(cx, s);
        RefillOverIff(cx, s, LoadedEnd(cx, s).state, QueuedByFinish(cx, s), LastItems(cx, s));
      }
    }
  }

  /** In numbers, when every payload can be framed. */
  lemma FramedFinishOverIff(cx: Context, s: Sender)
    requires SenderOk(cx, s) && (s.inputFinished || OnlyData(s.pending)) && Framable(cx, s.target)
    ensures OverBudget(FinishInput(cx, s))
       <==> !s.inputFinished && s.encoder.Some? && BufferedBytes(s) + FinishNeeds(cx, s) > s.maxBufferedBytes
  {
    if !s.inputFinished && s.encoder.Some? {
      FinishIs(cx, s);
      FinishLosesIff(cx, s);
      LoadedEndErrors(cx, s);
      if LoadedEnd(cx, s).error == None {
        var queued, tail := LoadedEnd(cx, s).state, Tail(cx, s);
        FinishReady(cx, s);
        FinishRefills(cx, s, queued, tail);
      }
    }
  }
}
