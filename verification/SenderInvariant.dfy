/** What every operation of the sender keeps, failed operations included. */
module SenderInvariant {
  import opened Prelude
  import opened Wire
  import opened Core
  import opened Stream
  import opened Sender

  function PendingTotal(items: seq<Item>): nat {
    if items == [] then 0 else RetainedBytes(items[0]) + PendingTotal(items[1..])
  }

  lemma {:induction false} PendingTotalSnoc(items: seq<Item>, item: Item)
    ensures PendingTotal(items + [item]) == PendingTotal(items) + RetainedBytes(item)
  {
    if items == [] {
      assert items + [item] == [item];
    } else {
      assert (items + [item])[1..] == items[1..] + [item];
      PendingTotalSnoc(items[1..], item);
    }
  }

  /** Both byte counters are the exact sums over their containers. */
  ghost predicate Accounted(s: Sender) {
    && s.pendingBytes == PendingTotal(s.pending)
    && s.inFlightBytes == WeightBelow(s.inFlight, EncodedLength, s.nextSequence)
    && forall k | k in s.inFlight :: k < s.nextSequence
  }

  /** The byte budget and the local window are respected. */
  ghost predicate Bounded(s: Sender) {
    BufferedBytes(s) <= s.maxBufferedBytes && |s.inFlight| <= s.localWindow
  }

  /** `f` is what sequence `k` looks like on the wire. */
  ghost predicate WireForm(cx: Context, log: seq<Item>, k: nat, f: bytes) {
    k < |log| && k <= U32_MAX && EncodeItem(cx, k, log[k]) == Ok(f)
  }

  /** Every frame in flight is the encoding of the item its sequence number was given to. */
  ghost predicate Retains(cx: Context, s: Sender) {
    && |s.log| == s.nextSequence
    && forall k | k in s.inFlight :: s.inFlight[k].sequence == k && WireForm(cx, s.log, k, s.inFlight[k].encoded)
  }

  /** No payload is longer than the batching target. */
  ghost predicate Fits(target: nat, items: seq<Item>) {
    forall i | 0 <= i < |items| :: items[i].Data? ==> |items[i].payload| <= target
  }

  ghost predicate SenderOk(cx: Context, s: Sender) {
    && Accounted(s) && Bounded(s) && Retains(cx, s) && |s.buffer| < s.target
    && Fits(s.target, s.log) && Fits(s.target, s.pending)
  }

  /** The fixed parameters and the history kept from `s` to `t`. */
  ghost predicate Follows(s: Sender, t: Sender) {
    && s.log <= t.log && s.target == t.target && s.localWindow == t.localWindow
    && s.maxBufferedBytes == t.maxBufferedBytes && s.nextSequence <= t.nextSequence
  }

  /** Without an error, nothing waits while the window has room. */
  ghost predicate Saturated(s: Sender) {
    s.pending == [] || |s.inFlight| >= EffectiveWindow(s)
  }

  lemma InitialOk(cx: Context, frameLimit: nat, reservedMetadata: nat, windowFrames: nat, maxPendingBytes: nat)
    ensures SenderOk(cx, InitialSender(frameLimit, reservedMetadata, windowFrames, maxPendingBytes))
  {
  }

  lemma QueueOk(cx: Context, s: Sender, item: Item)
    requires SenderOk(cx, s) && (item.Data? ==> |item.payload| <= s.target)
    ensures SenderOk(cx, Queue(s, item).state) && Follows(s, Queue(s, item).state)
  {
    PendingTotalSnoc(s.pending, item);
  }

  lemma {:induction false} QueueAllOk(cx: Context, s: Sender, payloads: seq<bytes>)
    requires SenderOk(cx, s) && forall i | 0 <= i < |payloads| :: |payloads[i]| <= s.target
    ensures SenderOk(cx, QueueAll(s, payloads).state) && Follows(s, QueueAll(s, payloads).state)
    decreases |payloads|
  {
    if payloads != [] {
      QueueOk(cx, s, Data(payloads[0]));
      QueueAllOk(cx, Queue(s, Data(payloads[0])).state, payloads[1..]);
    }
  }

  lemma QueueCompressedOk(cx: Context, s: Sender, compressed: bytes)
    requires SenderOk(cx, s)
    ensures SenderOk(cx, QueueCompressed(s, compressed).state) && Follows(s, QueueCompressed(s, compressed).state)
  {
    var (payloads, rest) := Batches(s.buffer + compressed, s.target);
    QueueAllOk(cx, s.(buffer := rest), payloads);
  }

  lemma FlushBufferOk(cx: Context, s: Sender)
    requires SenderOk(cx, s)
    ensures SenderOk(cx, FlushBuffer(s).state) && Follows(s, FlushBuffer(s).state)
  {
    if s.buffer != [] {
      QueueOk(cx, s.(buffer := []), Data(s.buffer));
    }
  }

  lemma LaunchAccounted(s: Sender, encoded: bytes)
    requires Accounted(s) && s.pending != []
    ensures Accounted(Launch(s, encoded).state)
  {
    var n := s.nextSequence;
    if Launch(s, encoded).error == None {
      var f := Retained(n, encoded, None, 0);
      WeightBeyond(s.inFlight, EncodedLength, n, n + 1);
      WeightInsert(s.inFlight, EncodedLength, n + 1, n, f);
    }
  }

  lemma LaunchBounded(s: Sender, encoded: bytes)
    requires Accounted(s) && Bounded(s) && s.pending != [] && |s.inFlight| < s.localWindow
    ensures Bounded(Launch(s, encoded).state)
  {
  }

  lemma LaunchRetains(cx: Context, s: Sender, encoded: bytes)
    requires Retains(cx, s) && s.pending != []
    requires EncodeItem(cx, s.nextSequence, s.pending[0]) == Ok(encoded)
    ensures Retains(cx, Launch(s, encoded).state) && Follows(s, Launch(s, encoded).state)
  {
    var t := Launch(s, encoded).state;
    forall k | k in t.inFlight
      ensures t.inFlight[k].sequence == k && WireForm(cx, t.log, k, t.inFlight[k].encoded)
    {
      if k in s.inFlight && k < s.nextSequence {
        assert WireForm(cx, s.log, k, s.inFlight[k].encoded);
        assert t.log[k] == s.log[k];
      } else {
        assert t.log[k] == s.pending[0];
      }
    }
  }

  lemma LaunchFits(s: Sender, encoded: bytes)
    requires s.pending != [] && Fits(s.target, s.log) && Fits(s.target, s.pending)
    ensures var t := Launch(s, encoded).state; Fits(t.target, t.log) && Fits(t.target, t.pending)
  {
  }

  lemma PumpOneOk(cx: Context, s: Sender)
    requires SenderOk(cx, s) && s.pending != [] && |s.inFlight| < s.localWindow
    ensures SenderOk(cx, PumpOne(cx, s).state) && Follows(s, PumpOne(cx, s).state)
  {
    var frame := EncodeItem(cx, s.nextSequence, s.pending[0]);
    if frame.Ok? {
      LaunchAccounted(s, frame.value);
      LaunchBounded(s, frame.value);
      LaunchRetains(cx, s, frame.value);
      LaunchFits(s, frame.value);
    }
  }

  /** Refilling the window keeps the invariant; without an error it leaves nothing pending or a full window. */
  lemma {:induction false} PumpOk(cx: Context, s: Sender)
    requires SenderOk(cx, s)
    ensures SenderOk(cx, Pump(cx, s).state) && Follows(s, Pump(cx, s).state)
    ensures Pump(cx, s).error == None ==> Saturated(Pump(cx, s).state)
    decreases |s.pending|
  {
    if |s.inFlight| < EffectiveWindow(s) && s.pending != [] {
      PumpOneOk(cx, s);
      var one := PumpOne(cx, s);
      if one.error == None {
        PumpOk(cx, one.state);
      }
    }
  }

  lemma LoadedOk(cx: Context, s: Sender, logical: bytes, flush: bool)
    requires SenderOk(cx, s)
    ensures SenderOk(cx, Loaded(cx, s, logical, flush).state) && Follows(s, Loaded(cx, s, logical, flush).state)
  {
    if !s.inputFinished && |logical| <= s.target && s.encoder.Some? {
      var (writes, encoded) := EncoderPush(cx, s.encoder.value, logical, flush);
      var s' := s.(encoder := Some(writes));
      if encoded.Ok? {
        QueueCompressedOk(cx, s', encoded.value);
        FlushBufferOk(cx, QueueCompressed(s', encoded.value).state);
      }
    }
  }

  /** `push` keeps the invariant even when it fails. */
  lemma PushOk(cx: Context, s: Sender, logical: bytes, flush: bool)
    requires SenderOk(cx, s)
    ensures var o := Push(cx, s, logical, flush);
            SenderOk(cx, o.state) && Follows(s, o.state) && (o.error == None ==> Saturated(o.state))
  {
    LoadedOk(cx, s, logical, flush);
    PumpOk(cx, Loaded(cx, s, logical, flush).state);
  }

  lemma LoadedEndOk(cx: Context, s: Sender)
    requires SenderOk(cx, s) && s.encoder.Some?
    ensures SenderOk(cx, LoadedEnd(cx, s).state) && Follows(s, LoadedEnd(cx, s).state)
  {
    var writes := s.encoder.value;
    var s' := s.(encoder := None);
    QueueCompressedOk(cx, s', cx.codec.trailing(writes));
    var queued := QueueCompressed(s', cx.codec.trailing(writes));
    FlushBufferOk(cx, queued.state);
    QueueOk(cx, FlushBuffer(queued.state).state, End(EndOf(cx, writes)));
  }

  /** `finish_input` keeps the invariant even when it fails. */
  lemma FinishInputOk(cx: Context, s: Sender)
    requires SenderOk(cx, s)
    ensures var o := FinishInput(cx, s);
            SenderOk(cx, o.state) && Follows(s, o.state)
            && (o.error == None && !s.inputFinished ==> Saturated(o.state))
  {
    if !s.inputFinished && s.encoder.Some? {
      LoadedEndOk(cx, s);
      PumpOk(cx, LoadedEnd(cx, s).state);
    }
  }

  lemma SetPeerWindowOk(cx: Context, s: Sender, receiveWindow: nat)
    requires SenderOk(cx, s)
    ensures var o := SetPeerWindow(cx, s, receiveWindow);
            SenderOk(cx, o.state) && Follows(s, o.state) && (o.error == None ==> Saturated(o.state))
  {
    PumpOk(cx, s.(peerWindow := receiveWindow));
  }

  lemma ReleasedOk(cx: Context, s: Sender, sequence: nat)
    requires SenderOk(cx, s)
    ensures SenderOk(cx, Released(s, sequence)) && Follows(s, Released(s, sequence))
  {
    if sequence in s.inFlight {
      WeightRemove(s.inFlight, EncodedLength, s.nextSequence, sequence);
      assert |s.inFlight - {sequence}| <= |s.inFlight| by {
        assert (s.inFlight - {sequence}).Keys == s.inFlight.Keys - {sequence};
      }
    }
  }

  lemma {:induction false} ReleasedAllOk(cx: Context, s: Sender, sequences: seq<nat>)
    requires SenderOk(cx, s)
    ensures SenderOk(cx, ReleasedAll(s, sequences)) && Follows(s, ReleasedAll(s, sequences))
    decreases |sequences|
  {
    if sequences != [] {
      ReleasedOk(cx, s, sequences[0]);
      ReleasedAllOk(cx, Released(s, sequences[0]), sequences[1..]);
    }
  }

  /** Releasing a list of sequences removes exactly those, and nothing else changes but the byte counter. */
  lemma {:induction false} ReleasedAllIs(s: Sender, sequences: seq<nat>)
    ensures var t := ReleasedAll(s, sequences);
            && t == s.(inFlight := t.inFlight, inFlightBytes := t.inFlightBytes)
            && t.inFlight == map k | k in s.inFlight && k !in sequences :: s.inFlight[k]
    decreases |sequences|
  {
    if sequences == [] {
      assert s.inFlight == map k | k in s.inFlight && k !in sequences :: s.inFlight[k];
    } else {
      ReleasedAllIs(Released(s, sequences[0]), sequences[1..]);
    }
  }

  lemma {:induction false} AckedKeysAre(inFlight: map<nat, Retained>, snapshot: AckSnapshot, n: nat)
    ensures forall k :: k in AckedKeys(inFlight, snapshot, n) <==> k in inFlight && k < n && Acknowledges(snapshot, k)
  {
    if n > 0 {
      AckedKeysAre(inFlight, snapshot, n - 1);
    }
  }

  lemma ReleasedKeys(inFlight: map<nat, Retained>, snapshot: AckSnapshot, acked: seq<nat>)
    requires forall k :: k in acked <==> k in inFlight && Acknowledges(snapshot, k)
    ensures (map k | k in inFlight && k !in acked :: inFlight[k])
         == map k | k in inFlight && !Acknowledges(snapshot, k) :: inFlight[k]
  {
  }

  /** An acknowledgement releases exactly the acknowledged frames. */
  lemma AfterReleaseIs(cx: Context, s: Sender, ack: Ack)
    requires SenderOk(cx, s)
    ensures var t := AfterRelease(s, ack);
            && SenderOk(cx, t) && Follows(s, t) && t.peerWindow == ack.receiveWindow
            && t == s.(peerWindow := ack.receiveWindow, inFlight := t.inFlight, inFlightBytes := t.inFlightBytes)
            && t.inFlight == map k | k in s.inFlight && !Acknowledges(Snapshot(ack), k) :: s.inFlight[k]
  {
    AckedKeysAre(s.inFlight, Snapshot(ack), s.nextSequence);
    var s', acked := s.(peerWindow := ack.receiveWindow), AckedKeys(s.inFlight, Snapshot(ack), s.nextSequence);
    ReleasedAllOk(cx, s', acked);
    ReleasedAllIs(s', acked);
    ReleasedKeys(s.inFlight, Snapshot(ack), acked);
  }

  lemma AcknowledgeOk(cx: Context, s: Sender, ack: Ack)
    requires SenderOk(cx, s)
    ensures var o := Acknowledge(cx, s, ack);
            SenderOk(cx, o.state) && Follows(s, o.state) && (o.error == None ==> Saturated(o.state))
  {
    AfterReleaseIs(cx, s, ack);
    PumpOk(cx, AfterRelease(s, ack));
  }

  /** Two in-flight sets that differ only in when and how often frames were sent. */
  ghost predicate SameFrames(m: map<nat, Retained>, m': map<nat, Retained>) {
    && m.Keys == m'.Keys
    && forall k | k in m :: m[k].sequence == m'[k].sequence && m[k].encoded == m'[k].encoded
  }

  /** `b` is the encoded form of some frame in flight. */
  ghost predicate Carried(m: map<nat, Retained>, b: bytes) {
    exists k :: k in m && m[k].encoded == b
  }

  lemma {:induction false} SentAllSame(m: map<nat, Retained>, nowMs: nat, sequences: seq<nat>)
    ensures SameFrames(m, SentAll(m, nowMs, sequences).0)
    ensures forall f | f in SentAll(m, nowMs, sequences).1 :: Carried(m, f.encoded)
    decreases |sequences|
  {
    if sequences != [] {
      var k := sequences[0];
      if k in m {
        var m' := m[k := Sent(m[k], nowMs)];
        SentAllSame(m', nowMs, sequences[1..]);
        forall f | f in SentAll(m, nowMs, sequences).1
          ensures Carried(m, f.encoded)
        {
          if f in SentAll(m', nowMs, sequences[1..]).1 {
            var j :| j in m' && m'[j].encoded == f.encoded;
            assert m[j].encoded == f.encoded;
          } else {
            assert m[k].encoded == f.encoded;
          }
        }
      } else {
        SentAllSame(m, nowMs, sequences[1..]);
      }
    }
  }

  /** Taking the due frames changes only their send times and counts, and hands out frames in flight. */
  lemma TakeSendableOk(cx: Context, s: Sender, nowMs: nat, policy: RetryPolicy)
    requires SenderOk(cx, s)
    ensures var (t, out) := TakeSendable(s, nowMs, policy);
            && SenderOk(cx, t) && Follows(s, t) && SameFrames(s.inFlight, t.inFlight)
            && t == s.(inFlight := t.inFlight)
            && forall f | f in out :: Carried(s.inFlight, f.encoded)
  {
    var due := DueKeys(s.inFlight, nowMs, policy, s.nextSequence);
    SentAllSame(s.inFlight, nowMs, due);
    var t := TakeSendable(s, nowMs, policy).0;
    WeightFrame(s.inFlight, t.inFlight, EncodedLength, s.nextSequence);
    assert |t.inFlight.Keys| == |t.inFlight| && |s.inFlight.Keys| == |s.inFlight|;
    forall k | k in t.inFlight
      ensures WireForm(cx, t.log, k, t.inFlight[k].encoded)
    {
      assert WireForm(cx, s.log, k, s.inFlight[k].encoded);
    }
  }
}
