/** When a push or a finish drops what it has already taken in: the byte budget before the call decides. */
module Loss {
  import opened Prelude
  import opened Core
  import opened Stream
  import opened Sender
  import opened SenderInvariant
  import opened SenderFlow
  import opened Receiver
  import opened ReceiverInvariant
  import opened Protocol
  import opened Delivery

  // ---- What a call would queue ----

  /** Of `n` bytes, those that fill whole payloads. */
  function WholePayloads(n: nat, target: pos): nat {
    if n < target then 0 else target + WholePayloads(n - target, target)
  }

  lemma {:induction false} TimesGap(d: nat, q: nat, t: pos)
    requires d > q
    ensures Times(d, t) >= Times(q, t) + t
    decreases d
  {
    if d - 1 > q {
      TimesGap(d - 1, q, t);
    }
  }

  lemma ProductGap(d: nat, q: nat, t: pos)
    requires d > q
    ensures d * t >= q * t + t
  {
    TimesGap(d, q, t);
    TimesIs(d, t);
    TimesIs(q, t);
  }

  lemma QuotientIs(n: nat, q: nat, r: nat, t: pos)
    requires n == q * t + r && r < t
    ensures n / t == q
  {
    var d := n / t;
    assert n == d * t + n % t;
    if d > q {
      ProductGap(d, q, t);
    } else if d < q {
      ProductGap(q, d, t);
    }
  }

  /** The whole payloads are those of the integer quotient. */
  lemma {:induction false} WholePayloadsIs(n: nat, target: pos)
    ensures WholePayloads(n, target) == n / target * target
  {
    if n >= target {
      WholePayloadsIs(n - target, target);
      var q, r := (n - target) / target, (n - target) % target;
      assert n - target == q * target + r;
      assert (q + 1) * target == q * target + target;
      QuotientIs(n, q + 1, r, target);
    } else {
      QuotientIs(n, 0, n, target);
    }
  }

  lemma {:induction false} BatchesLength(data: bytes, target: pos)
    ensures |Concat(Batches(data, target).0)| == WholePayloads(|data|, target)
    ensures |Batches(data, target).1| == |data| - WholePayloads(|data|, target)
    decreases |data|
  {
    if |data| >= target {
      BatchesLength(data[target..], target);
      var (payloads, rest) := Batches(data[target..], target);
      assert ([data[..target]] + payloads)[1..] == payloads;
    }
  }

  /** Bytes the encoder puts out for one push. */
  function Emits(cx: Context, writes: seq<Write>, logical: bytes, flush: bool): nat {
    SaturatingSub(|cx.codec.emitted(writes + [Write(logical, flush)])|, |cx.codec.emitted(writes)|)
  }

  /** A push that gets as far as encoding. */
  predicate Accepts(s: Sender, logical: bytes) {
    !s.inputFinished && |logical| <= s.target && s.encoder.Some? && |Input(s.encoder.value)| + |logical| <= U64_MAX
  }

  /** Bytes such a push would queue: everything buffered when it flushes, whole payloads when it does not. */
  function QueuedBy(cx: Context, s: Sender, logical: bytes, flush: bool): nat
    requires s.encoder.Some?
  {
    var all := |s.buffer| + Emits(cx, s.encoder.value, logical, flush);
    if flush then all else WholePayloads(all, s.target)
  }

  /** Bytes a finish would queue, the end record counted as the source counts it. */
  function QueuedByFinish(cx: Context, s: Sender): nat
    requires s.encoder.Some?
  {
    |s.buffer| + |cx.codec.trailing(s.encoder.value)| + 64
  }

  /** The budget has no room for what the call would queue. */
  predicate Exceeds(cx: Context, s: Sender, a: Action) {
    match a
    case DoPush(logical, flush) =>
      Accepts(s, logical) && BufferedBytes(s) + QueuedBy(cx, s, logical, flush) > s.maxBufferedBytes
    case DoFinish =>
      !s.inputFinished && s.encoder.Some? && BufferedBytes(s) + QueuedByFinish(cx, s) > s.maxBufferedBytes
    case _ => false
  }

  // ---- Queueing ----

  /** Queueing fails exactly when the budget has no room for all of it, and otherwise uses up exactly that much. */
  lemma {:induction false} QueueAllFailsIff(s: Sender, payloads: seq<bytes>)
    requires BufferedBytes(s) <= s.maxBufferedBytes
    ensures var o := QueueAll(s, payloads);
            && (o.error.Some? <==> BufferedBytes(s) + |Concat(payloads)| > s.maxBufferedBytes)
            && (o.error == None ==> BufferedBytes(o.state) == BufferedBytes(s) + |Concat(payloads)|)
            && o.state.maxBufferedBytes == s.maxBufferedBytes
    decreases |payloads|
  {
    if payloads != [] {
      var first := Queue(s, Data(payloads[0]));
      if first.error == None {
        QueueAllFailsIff(first.state, payloads[1..]);
      }
    }
  }

  lemma QueueCompressedFailsIff(s: Sender, compressed: bytes)
    requires BufferedBytes(s) <= s.maxBufferedBytes
    ensures var o, queued := QueueCompressed(s, compressed), WholePayloads(|s.buffer| + |compressed|, s.target);
            && (o.error.Some? <==> BufferedBytes(s) + queued > s.maxBufferedBytes)
            && (o.error == None ==> BufferedBytes(o.state) == BufferedBytes(s) + queued)
            && (o.error == None ==> |o.state.buffer| == |s.buffer| + |compressed| - queued)
            && o.state.maxBufferedBytes == s.maxBufferedBytes
  {
    var (payloads, rest) := Batches(s.buffer + compressed, s.target);
    BatchesLength(s.buffer + compressed, s.target);
    QueueAllFailsIff(s.(buffer := rest), payloads);
    QueueAllShape(s.(buffer := rest), payloads);
  }

  lemma FlushFailsIff(s: Sender)
    requires BufferedBytes(s) <= s.maxBufferedBytes
    ensures var o := FlushBuffer(s);
            && (o.error.Some? <==> BufferedBytes(s) + |s.buffer| > s.maxBufferedBytes)
            && (o.error == None ==> BufferedBytes(o.state) == BufferedBytes(s) + |s.buffer|)
            && o.state.maxBufferedBytes == s.maxBufferedBytes
  {
  }

  lemma WholeAtMost(n: nat, target: pos)
    ensures WholePayloads(n, target) <= n
    decreases n
  {
    if n >= target {
      WholeAtMost(n - target, target);
    }
  }

  lemma QueueFlushFailsIff(s: Sender, compressed: bytes)
    requires BufferedBytes(s) <= s.maxBufferedBytes
    ensures var queued := QueueCompressed(s, compressed);
            var all := |s.buffer| + |compressed|;
            && (queued.error.Some? || FlushBuffer(queued.state).error.Some? <==> BufferedBytes(s) + all > s.maxBufferedBytes)
            && (queued.error == None && FlushBuffer(queued.state).error == None ==>
                  BufferedBytes(FlushBuffer(queued.state).state) == BufferedBytes(s) + all
                  && FlushBuffer(queued.state).state.maxBufferedBytes == s.maxBufferedBytes)
  {
    WholeAtMost(|s.buffer| + |compressed|, s.target);
    QueueCompressedFailsIff(s, compressed);
    var queued := QueueCompressed(s, compressed);
    if queued.error == None {
      FlushFailsIff(queued.state);
    }
  }

  lemma AcceptedPush(cx: Context, s: Sender, logical: bytes, flush: bool)
    requires Lawful(cx.codec) && Accepts(s, logical)
    ensures var (writes, r) := EncoderPush(cx, s.encoder.value, logical, flush);
            r.Ok? && |r.value| == Emits(cx, s.encoder.value, logical, flush)
  {
    assert LawfulGrowth(cx.codec, s.encoder.value, Write(logical, flush));
  }

  /** A push drops bytes exactly when the budget has no room for what it would queue. */
  lemma PushLosesIff(cx: Context, s: Sender, logical: bytes, flush: bool)
    requires Lawful(cx.codec) && BufferedBytes(s) <= s.maxBufferedBytes
    ensures Lost(Loaded(cx, s, logical, flush)) <==> Exceeds(cx, s, DoPush(logical, flush))
  {
    if Accepts(s, logical) {
      AcceptedPush(cx, s, logical, flush);
      var (writes, r) := EncoderPush(cx, s.encoder.value, logical, flush);
      var s' := s.(encoder := Some(writes));
      QueueCompressedFlow(s', r.value);
      QueueCompressedFailsIff(s', r.value);
      QueueFlushFailsIff(s', r.value);
      FlushBufferFlow(QueueCompressed(s', r.value).state);
    }
  }

  /** A finish drops bytes, or the end record, exactly when the budget has no room for what it would queue. */
  lemma FinishLosesIff(cx: Context, s: Sender)
    requires BufferedBytes(s) <= s.maxBufferedBytes && s.encoder.Some? && !s.inputFinished
    ensures Lost(LoadedEnd(cx, s)) <==> Exceeds(cx, s, DoFinish)
  {
    var s', trailing := s.(encoder := None), cx.codec.trailing(s.encoder.value);
    QueueCompressedFlow(s', trailing);
    QueueFlushFailsIff(s', trailing);
    FlushBufferFlow(QueueCompressed(s', trailing).state);
  }

  /** Without compression, in lengths alone. */
  lemma UncompressedExceeds(cx: Context, s: Sender, logical: bytes, flush: bool)
    requires cx.codec == NO_COMPRESSION && Accepts(s, logical)
    ensures Emits(cx, s.encoder.value, logical, flush) == |logical|
    ensures QueuedBy(cx, s, logical, flush)
         == if flush then |s.buffer| + |logical| else (|s.buffer| + |logical|) / s.target * s.target
    ensures QueuedByFinish(cx, s) == |s.buffer| + 64
  {
    assert (s.encoder.value + [Write(logical, flush)])[..|s.encoder.value|] == s.encoder.value;
    WholePayloadsIs(|s.buffer| + |logical|, s.target);
  }

  // ---- What is missing ----

  lemma {:induction false} FailedQueueShrinks(s: Sender, payloads: seq<bytes>)
    requires forall i | 0 <= i < |payloads| :: payloads[i] != []
    ensures var o := QueueAll(s, payloads);
            o.error.Some? ==> |Payloads(o.state.pending)| < |Payloads(s.pending)| + |Concat(payloads)|
    decreases |payloads|
  {
    if payloads != [] {
      var first := Queue(s, Data(payloads[0]));
      if first.error == None {
        PayloadsSnoc(s.pending, Data(payloads[0]));
        FailedQueueShrinks(first.state, payloads[1..]);
      }
    }
  }

  lemma FailedCompressedShrinks(s: Sender, compressed: bytes)
    ensures var o := QueueCompressed(s, compressed);
            o.error.Some? ==>
              |Payloads(o.state.pending)| + |o.state.buffer| < |Payloads(s.pending)| + |s.buffer| + |compressed|
  {
    var data := s.buffer + compressed;
    var (payloads, rest) := Batches(data, s.target);
    BatchesKeepBytes(data, s.target);
    FailedQueueShrinks(s.(buffer := rest), payloads);
    QueueAllShape(s.(buffer := rest), payloads);
  }

  lemma FailedFlushShrinks(s: Sender)
    ensures var o := FlushBuffer(s);
            o.error.Some? ==> |Payloads(o.state.pending)| + |o.state.buffer| < |Payloads(s.pending)| + |s.buffer|
  {
  }

  lemma FailedLoadShrinks(cx: Context, s: Sender, writes: seq<Write>, logical: bytes, flush: bool)
    requires Lawful(cx.codec) && s.encoder == Some(writes) && Lost(Loaded(cx, s, logical, flush))
    ensures var o := Loaded(cx, s, logical, flush);
            && o.state.log == s.log && o.state.encoder == Some(writes + [Write(logical, flush)])
            && |Payloads(o.state.pending)| + |o.state.buffer| + |cx.codec.emitted(writes)|
               < |Payloads(s.pending)| + |s.buffer| + |cx.codec.emitted(writes + [Write(logical, flush)])|
  {
    var (writes', encoded) := EncoderPush(cx, writes, logical, flush);
    var s' := s.(encoder := Some(writes'));
    assert LawfulGrowth(cx.codec, writes, Write(logical, flush));
    QueueCompressedFlow(s', encoded.value);
    FailedCompressedShrinks(s', encoded.value);
    var queued := QueueCompressed(s', encoded.value);
    if queued.error == None {
      FlushBufferFlow(queued.state);
      FailedFlushShrinks(queued.state);
      assert |Payloads(queued.state.pending) + queued.state.buffer|
          == |Payloads(s'.pending) + s'.buffer + encoded.value|;
    }
  }

  /** After a push, bytes are missing from what will be sent exactly when the budget had no room for what the push would
      queue. */
  lemma PushDropsIff(cx: Context, s: Sender, writes: seq<Write>, logical: bytes, flush: bool)
    requires Lawful(cx.codec) && Flow(cx, s, writes, false) && s.nextSequence < U32_MAX
    requires BufferedBytes(s) <= s.maxBufferedBytes
    ensures var t := Loaded(cx, s, logical, flush).state;
            Queued(t) + t.buffer != Encoded(cx, t, History(t, writes)) <==> Exceeds(cx, s, DoPush(logical, flush))
  {
    var o := Loaded(cx, s, logical, flush);
    PushLosesIff(cx, s, logical, flush);
    LoadedFlow(cx, s, writes, logical, flush);
    LoadedKeeps(cx, s, DoPush(logical, flush));
    if Lost(o) {
      FailedLoadShrinks(cx, s, writes, logical, flush);
      assert |Queued(s) + s.buffer| == |Encoded(cx, s, writes)|;
      assert |Queued(o.state) + o.state.buffer| < |Encoded(cx, o.state, History(o.state, writes))|;
    }
  }

  /** What will be sent is the whole encoding with its end record. */
  ghost predicate Ended(cx: Context, s: Sender, writes: seq<Write>) {
    Queued(s) == Whole(cx.codec, writes) && EndsWith(s.pending, EndOf(cx, writes))
  }

  lemma FailedEndUnended(cx: Context, s: Sender)
    requires s.encoder.Some? && OnlyData(s.pending) && LoadedEnd(cx, s).error.Some?
    ensures OnlyData(LoadedEnd(cx, s).state.pending)
  {
    var s', trailing := s.(encoder := None), cx.codec.trailing(s.encoder.value);
    QueueCompressedFlow(s', trailing);
    FlushBufferFlow(QueueCompressed(s', trailing).state);
  }

  lemma LoadedEndIs(cx: Context, s: Sender)
    requires s.encoder.Some? && LoadedEnd(cx, s).error == None
    ensures EndsWith(LoadedEnd(cx, s).state.pending, EndOf(cx, s.encoder.value))
  {
  }

  /** After a finish, part of the encoding or the end record is missing exactly when the budget had no room for what the
      finish would queue. */
  lemma FinishDropsIff(cx: Context, s: Sender, writes: seq<Write>)
    requires Flow(cx, s, writes, false) && s.nextSequence < U32_MAX && s.encoder.Some?
    requires BufferedBytes(s) <= s.maxBufferedBytes
    ensures !Ended(cx, LoadedEnd(cx, s).state, writes) <==> Exceeds(cx, s, DoFinish)
  {
    var o := LoadedEnd(cx, s);
    FinishLosesIff(cx, s);
    LoadedEndFlow(cx, s, writes);
    LoadedKeeps(cx, s, DoFinish);
    LoadedEndErrors(cx, s);
    if o.error == None {
      LoadedEndIs(cx, s);
      assert Queued(o.state) + o.state.buffer == Whole(cx.codec, writes);
    } else {
      FailedEndUnended(cx, s);
    }
  }
}
