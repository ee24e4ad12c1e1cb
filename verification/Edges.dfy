/** Where the guarantees end: decoder failures, and acknowledgements held back by the adapters. */
module Edges {
  import opened Prelude
  import opened Core
  import opened Stream
  import opened Sender
  import opened SenderInvariant
  import opened SenderFlow
  import opened Receiver
  import opened ReceiverInvariant
  import opened Coupling
  import opened Protocol
  import opened Delivery
  import opened Capacity
  import opened Budget

  // ---- Decoder failures ----

  /** Feeding a receiver after its decoder has failed delivers bytes that are no prefix of what was pushed: the chunk that
      exceeded the output bound is skipped, and the next one comes out in its place. */
  lemma ContinuingSkipsBytes(cx: Context, a: u8, b: u8, c: u8)
    requires cx.codec == NO_COMPRESSION && a != c
    ensures var first := AcceptData(cx, InitialReceiver(4, 100, 1), 0, [a, b]);
            var second := AcceptData(cx, first.state, 1, [c]);
            && first.result == Err(StreamFailure(LogicalLimit(2, 1)))
            && second.result.Ok? && second.result.value.logicalChunks == [[c]] && !([c] <= [a, b, c])
  {
    var r := InitialReceiver(4, 100, 1);
    FirstFails(cx, r, a, b);
    var r' := AcceptData(cx, r, 0, [a, b]).state;
    var inserted := Inserted(r'.reassembly, 1, [c]);
    assert inserted.pending - {1} == map[];
    assert Drained(inserted) == (Reassembly(2, map[], 0, 100), [[c]] + []);
    DecodeSingle(cx, r'.decoder.value, [c]);
    assert [a, b] + [c] == [a, b, c];
    assert [c][0] != [a, b, c][0];
    assert DecoderPush(cx, r'.decoder.value, [c]).1 == Ok([c]);
    assert r'.reassembly.next == 1 && ReceiveData(cx, r', 1, [c]).chunks == [[c]];
    assert ReceiveData(cx, r', 1, [c]).error == None;
  }

  lemma FirstFails(cx: Context, r: Receiver, a: u8, b: u8)
    requires cx.codec == NO_COMPRESSION && r == InitialReceiver(4, 100, 1)
    ensures AcceptData(cx, r, 0, [a, b]).result == Err(StreamFailure(LogicalLimit(2, 1)))
    ensures var r' := AcceptData(cx, r, 0, [a, b]).state;
            && r' == r.(window := Window({}, 1), reassembly := Reassembly(1, map[], 0, 100),
                        decoder := Some(Decoder([a, b], [], 0, 1)))
  {
    var inserted := Inserted(r.reassembly, 0, [a, b]);
    assert inserted.pending - {0} == map[];
    assert Drained(inserted) == (Reassembly(1, map[], 0, 100), [[a, b]] + []);
    assert {} + {0} - {0} == {};
    assert Advance(Window({}, 1)) == Window({}, 1);
    assert Advance(Window({0}, 0)) == Window({}, 1);
    assert [] + [a, b] == [a, b];
  }

  lemma DecodeSingle(cx: Context, d: Decoder, chunk: bytes)
    ensures DecodeAll(cx, Some(d), [chunk])
            == match DecoderPush(cx, d, chunk)
               case (d', Err(e)) => (Some(d'), [], Some(StreamFailure(e)))
               case (d', Ok(logical)) => (Some(d'), NonEmpty(logical), None)
  {
    assert [chunk][1..] == [];
    var (d', r) := DecoderPush(cx, d, chunk);
    if r.Ok? {
      assert NonEmpty(r.value) + [] == NonEmpty(r.value);
    }
  }

  /** Decompressing what became contiguous fails exactly when the output so far would exceed the bound. */
  lemma {:induction false} DecodingFailsIff(cx: Context, d: Decoder, consumed: bytes, out: bytes, ready: seq<bytes>,
                                            writes: seq<Write>)
    requires Lawful(cx.codec) && DecoderOf(cx, d, consumed, out) && ready != []
    requires consumed + Concat(ready) <= Whole(cx.codec, writes) && |Input(writes)| <= U64_MAX
    ensures DecodeAll(cx, Some(d), ready).2.Some?
            <==> |cx.codec.decoded(consumed + Concat(ready))| > d.maxLogicalLength
    decreases |ready|
  {
    var chunk, rest := ready[0], Concat(ready[1..]);
    assert (consumed + chunk) + rest == consumed + (chunk + rest);
    assert LawfulDecoding(cx.codec, writes, consumed, consumed + chunk);
    assert LawfulDecoding(cx.codec, writes, consumed + chunk, consumed + chunk + rest);
    DecodeOne(cx, d, consumed, out, chunk, writes);
    var (d', r) := DecoderPush(cx, d, chunk);
    if r.Ok? && ready[1..] != [] {
      DecodingFailsIff(cx, d', consumed + chunk, out + r.value, ready[1..], writes);
    } else {
      assert ready[1..] == [] ==> consumed + chunk + rest == consumed + chunk;
    }
  }

  /** A data frame breaks the decoder exactly when it makes more of the stream contiguous than the bound allows. */
  lemma BreaksExactlyAtTheBound(cx: Context, r: Receiver, log: seq<Item>, writes: seq<Write>, out: bytes, k: nat,
                                payload: bytes)
    requires HonestLog(cx, log, writes) && Safe(cx, r, log, writes, out) && r.decoder.Some?
    requires r.reassembly.next <= k < |log| && k !in r.reassembly.pending && log[k] == Data(payload)
    ensures var pushed := Reassembled(r.reassembly, k, payload);
            pushed.Pushed? && pushed.ready != [] ==>
              pushed.state.next <= |log|
              && (Breaks(ReceiveData(cx, r, k, payload))
               <==> |cx.codec.decoded(Payloads(log[..pushed.state.next]))| > r.decoder.value.maxLogicalLength)
  {
    var pushed := Reassembled(r.reassembly, k, payload);
    if pushed.Pushed? && pushed.ready != [] {
      InsertedOf(r.reassembly, log, k, payload);
      DrainedPayloads(Inserted(r.reassembly, k, payload), log);
      PayloadsPrefix(log, pushed.state.next);
      var consumed := Payloads(log[..r.reassembly.next]);
      DecodingFailsIff(cx, r.decoder.value, consumed, out, pushed.ready, writes);
      DecodeMany(cx, r.decoder.value, consumed, out, pushed.ready, writes);
    }
  }

  ghost predicate DecoderLimit(r: Receiver, limit: nat) {
    r.decoder.Some? ==> r.decoder.value.maxLogicalLength == limit
  }

  lemma DataLimit(cx: Context, r: Receiver, k: nat, payload: bytes, limit: nat)
    requires DecoderLimit(r, limit)
    ensures DecoderLimit(ReceiveData(cx, r, k, payload).state, limit)
  {
    var pushed := Reassembled(r.reassembly, k, payload);
    if pushed.Pushed? && r.decoder.Some? {
      DecodeAllLimit(cx, r.decoder.value, pushed.ready);
    }
  }

  lemma DataUnbroken(cx: Context, r: Receiver, log: seq<Item>, writes: seq<Write>, out: bytes, k: nat, payload: bytes,
                     limit: nat)
    requires HonestLog(cx, log, writes) && Safe(cx, r, log, writes, out) && !r.completed
    requires k < |log| && log[k] == Data(payload) && DecoderLimit(r, limit) && |Input(writes)| <= limit
    ensures var p := ReceiveData(cx, r, k, payload); DecoderLimit(p.state, limit) && !Breaks(p)
  {
    DataLimit(cx, r, k, payload, limit);
    ReceiveDataSafe(cx, r, log, writes, out, k, payload);
  }

  lemma FinishUnbroken(cx: Context, r: Receiver, chunks: seq<bytes>, limit: nat)
    requires DecoderLimit(r, limit)
    ensures DecoderLimit(TryFinish(cx, r, chunks).state, limit) && !Breaks(TryFinish(cx, r, chunks))
  {
  }

  /** The decoder of an honest stream fails only for a receiver whose output bound is below what was pushed. */
  lemma ItemUnbroken(cx: Context, r: Receiver, log: seq<Item>, writes: seq<Write>, out: bytes, k: nat, limit: nat)
    requires HonestLog(cx, log, writes) && Safe(cx, r, log, writes, out) && k < |log|
    requires DecoderLimit(r, limit) && |Input(writes)| <= limit
    ensures var Received(r', result) := ReceiveItem(cx, r, k, log[k]);
            DecoderLimit(r', limit) && !(result.Err? && result.error.StreamFailure? && r'.decoder.Some?)
  {
    match log[k]
    case Data(payload) =>
      if !r.completed && k !in r.window.received {
        DataUnbroken(cx, r, log, writes, out, k, payload, limit);
        var p := ReceiveData(cx, r, k, payload);
        FinishUnbroken(cx, p.state, p.chunks, limit);
      }
    case End(end) =>
      FinishUnbroken(cx, r.(pendingEnd := Some((k, end))), [], limit);
  }

  lemma DeliverUnbroken(cx: Context, w: World, f: bytes, limit: nat)
    requires Honest(cx) && Inv(cx, w) && f in w.frames && !w.broken
    requires DecoderLimit(w.r, limit) && |Input(w.writes)| <= limit
    ensures var t := ReceiverStep(cx, w, f); !t.broken && DecoderLimit(t.r, limit) && t.writes == w.writes
  {
    LogIsHonest(cx, w.s, w.writes, w.lost);
    var k :| WireForm(cx, w.s.log, k, f);
    ReceiveIs(cx, w.r, w.s.log, w.writes, k, f);
    ItemUnbroken(cx, w.r, w.s.log, w.writes, w.out, k, limit);
  }

  /** Not broken as long as the bound is respected. */
  ghost predicate Unbroken(cx: Context, w: World, limit: nat) {
    Inv(cx, w) && (|Input(w.writes)| <= limit ==> !w.broken && DecoderLimit(w.r, limit))
  }

  lemma NextUnbroken(cx: Context, w: World, a: Action, limit: nat)
    requires Honest(cx) && Unbroken(cx, w, limit)
    ensures Unbroken(cx, Next(cx, w, a), limit)
  {
    NextInv(cx, w, a);
    NextInput(cx, w, a);
    if |Input(Next(cx, w, a).writes)| <= limit && a.DoDeliver? && Enabled(w, a) {
      DeliverUnbroken(cx, w, a.frame, limit);
    }
  }

  /** With an output bound that the pushed bytes respect, no decoder ever fails, on any run; so such a caller may go on
      receiving after any error and still only ever delivers a prefix of what was pushed. */
  lemma AmpleBoundNeverBreaks(cx: Context, l: Limits, run: Run, n: nat)
    requires Honest(cx) && IsRun(cx, run, Initial(l)) && n < |run.worlds|
    requires |Input(run.worlds[n].writes)| <= l.maxLogicalLength
    ensures !run.worlds[n].broken
  {
    var keeps := (i: nat, w: World) => Unbroken(cx, w, l.maxLogicalLength);
    forall i | 0 <= i < |run.actions| && keeps(i, run.worlds[i])
      ensures keeps(i + 1, Next(cx, run.worlds[i], run.actions[i]))
    {
      NextUnbroken(cx, run.worlds[i], run.actions[i], l.maxLogicalLength);
    }
    InitialInv(cx, l);
    RunKeeps(cx, run, Initial(l), n, keeps);
  }

  // ---- Acknowledgements held back ----

  /** When the adapters send the acknowledgement of a receive. */
  predicate ShouldAck(output: ReceiveOutput, sequence: nat) {
    output.completed || Ones(output.ack.selective) != 0 || sequence % 4 == 3
  }

  /** The receiver holds everything that was sent, with no gap, and has seen no end record. */
  ghost predicate CaughtUp(r: Receiver, sent: nat) {
    && Coupled(r) && !r.completed && WindowOk(r.window) && r.pendingEnd == None && r.window.next == sent
    && forall k | k in r.window.received :: k < sent
  }

  lemma NoGapNoBits(r: Receiver, sent: nat)
    requires CaughtUp(r, sent)
    ensures Ones(SnapshotOf(r.window).selective) == 0
  {
    var bits := SnapshotOf(r.window).selective;
    assert forall i | 0 <= i < |bits| :: bits[i] == SelectiveBit(r.window, i);
    NoOnes(bits);
  }

  lemma {:induction false} NoOnes(bits: seq<bool>)
    requires forall i | 0 <= i < |bits| :: !bits[i]
    ensures Ones(bits) == 0
    decreases |bits|
  {
    if bits != [] {
      NoOnes(bits[..|bits| - 1]);
    }
  }

  /** Retransmissions of data the receiver already has, in any order, and whether each one made the adapter send an
      acknowledgement. */
  function Retransmitted(cx: Context, r: Receiver, frames: seq<(nat, bytes)>): (Receiver, seq<bool>)
    decreases |frames|
  {
    if frames == [] then (r, [])
    else
      var (r', acks) := Retransmitted(cx, r, frames[..|frames| - 1]);
      var (k, payload) := frames[|frames| - 1];
      var received := AcceptData(cx, r', k, payload);
      (received.state, acks + [received.result.Ok? && ShouldAck(received.result.value, k)])
  }

  lemma DuplicateOfCaughtUp(cx: Context, r: Receiver, sent: nat, k: nat, payload: bytes)
    requires CaughtUp(r, sent) && k < sent
    ensures var received := AcceptData(cx, r, k, payload);
            && received.result.Ok? && CaughtUp(received.state, sent)
            && (ShouldAck(received.result.value, k) <==> k % 4 == 3)
  {
    LateDuplicateIsSilent(cx, r, k, payload);
    NoGapNoBits(r, sent);
  }

  /** Once the receiver holds everything the sender has in flight and there is no gap and no end record, a retransmission
      brings an acknowledgement exactly when its sequence is 3 modulo 4; so if none in flight is, none ever comes. */
  lemma {:induction false} RetriesGoUnanswered(cx: Context, r: Receiver, sent: nat, frames: seq<(nat, bytes)>)
    requires CaughtUp(r, sent) && forall i | 0 <= i < |frames| :: frames[i].0 < sent
    ensures var (r', acks) := Retransmitted(cx, r, frames);
            && CaughtUp(r', sent) && |acks| == |frames|
            && forall i | 0 <= i < |frames| :: acks[i] <==> frames[i].0 % 4 == 3
    decreases |frames|
  {
    if frames != [] {
      var front, last := frames[..|frames| - 1], frames[|frames| - 1];
      RetriesGoUnanswered(cx, r, sent, front);
      DuplicateOfCaughtUp(cx, Retransmitted(cx, r, front).0, sent, last.0, last.1);
    }
  }

  /** And without one, a sender whose window is full keeps the same frames in flight, whatever it is asked to do. */
  lemma FullWindowWaits(cx: Context, w: World, a: Action)
    requires SenderOk(cx, w.s) && |w.s.inFlight| >= EffectiveWindow(w.s) && (a.DoPush? || a.DoFinish? || a.DoDispatch?)
    ensures var t := SenderAfter(cx, w, a);
            t.inFlight.Keys == w.s.inFlight.Keys && t.log == w.s.log && |t.inFlight| >= EffectiveWindow(t)
  {
    match a
    case DoDispatch(nowMs, policy) => TakeSendableOk(cx, w.s, nowMs, policy);
    case _ => LoadedWaits(cx, w.s, a);
  }

  lemma LoadedWaits(cx: Context, s: Sender, a: Action)
    requires |s.inFlight| >= EffectiveWindow(s)
    ensures var t := LoadedBy(cx, s, a).state;
            Pump(cx, t) == Outcome(t, None) && t.inFlight == s.inFlight && t.log == s.log
            && EffectiveWindow(t) == EffectiveWindow(s)
  {
    LoadedKeeps(cx, s, a);
  }
}
