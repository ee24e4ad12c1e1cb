/** What the receiver holds and has delivered, relative to the sender's log. */
module ReceiverInvariant {
  import opened Prelude
  import opened Core
  import opened Stream
  import opened Sender
  import opened SenderInvariant
  import opened SenderFlow
  import opened Receiver

  // ---- Reassembly against the log ----

  /** Everything before the cursor was data, and everything kept is the logged payload of its sequence. */
  ghost predicate ReassemblyOf(r: Reassembly, log: seq<Item>) {
    && r.next <= |log| <= U32_MAX && OnlyData(log[..r.next])
    && forall k | k in r.pending :: r.next <= k < |log| && log[k] == Data(r.pending[k])
  }

  /** What draining leaves: the cursor stops at the first missing sequence, and the rest is untouched. */
  ghost predicate DrainedTo(r: Reassembly, t: Reassembly) {
    && r.next <= t.next && t.next !in r.pending && t.maxPendingBytes == r.maxPendingBytes
    && (forall k | r.next <= k < t.next :: k in r.pending)
    && (forall k :: k in t.pending <==> k in r.pending && !(r.next <= k < t.next))
    && (forall k | k in t.pending :: t.pending[k] == r.pending[k])
  }

  /** One turn of the drain. */
  function DrainedOnce(r: Reassembly): Reassembly
    requires r.next in r.pending
  {
    Reassembly(SaturatingAdd32(r.next, 1), r.pending - {r.next}, SaturatingSub(r.pendingBytes, |r.pending[r.next]|),
               r.maxPendingBytes)
  }

  lemma DrainedOnceOf(r: Reassembly, log: seq<Item>)
    requires ReassemblyOf(r, log) && r.next in r.pending
    ensures ReassemblyOf(DrainedOnce(r), log) && DrainedOnce(r).next == r.next + 1
    ensures Payloads(log[..r.next + 1]) == Payloads(log[..r.next]) + r.pending[r.next]
  {
    assert log[..r.next + 1] == log[..r.next] + [log[r.next]];
    PayloadsSnoc(log[..r.next], log[r.next]);
  }

  lemma {:induction false} DrainedIs(r: Reassembly, log: seq<Item>)
    requires ReassemblyOf(r, log)
    ensures DrainedTo(r, Drained(r).0) && ReassemblyOf(Drained(r).0, log)
    decreases r.pending.Keys
  {
    if r.next in r.pending {
      DrainedOnceOf(r, log);
      DrainedIs(DrainedOnce(r), log);
    }
  }

  lemma {:induction false} DrainedPayloads(r: Reassembly, log: seq<Item>)
    requires ReassemblyOf(r, log)
    ensures DrainedTo(r, Drained(r).0) && ReassemblyOf(Drained(r).0, log)
    ensures Payloads(log[..Drained(r).0.next]) == Payloads(log[..r.next]) + Concat(Drained(r).1)
    decreases r.pending.Keys
  {
    DrainedIs(r, log);
    if r.next in r.pending {
      var chunk, rest := r.pending[r.next], Drained(DrainedOnce(r)).1;
      DrainedOnceOf(r, log);
      DrainedPayloads(DrainedOnce(r), log);
      assert (Payloads(log[..r.next]) + chunk) + Concat(rest) == Payloads(log[..r.next]) + (chunk + Concat(rest));
      assert ([chunk] + rest)[1..] == rest;
    }
  }

  lemma InsertedOf(r: Reassembly, log: seq<Item>, sequence: nat, chunk: bytes)
    requires ReassemblyOf(r, log) && r.next <= sequence < |log| && log[sequence] == Data(chunk)
    ensures ReassemblyOf(Inserted(r, sequence, chunk), log)
  {
  }

  // ---- The decoder against the encoded stream ----

  /** The decoder has taken in a prefix of the encoded stream and given out exactly what decoding it yields. */
  ghost predicate DecoderOf(cx: Context, d: Decoder, consumed: bytes, out: bytes) {
    d.consumed == consumed && d.hashed == cx.codec.decoded(consumed) == out && d.logicalLength == |out|
  }

  /** Decoding one more piece of an honest stream: it succeeds unless the output bound is hit. */
  lemma DecodeOne(cx: Context, d: Decoder, consumed: bytes, out: bytes, chunk: bytes, writes: seq<Write>)
    requires Lawful(cx.codec) && DecoderOf(cx, d, consumed, out)
    requires consumed + chunk <= Whole(cx.codec, writes) && |Input(writes)| <= U64_MAX
    ensures var (d', r) := DecoderPush(cx, d, chunk);
            match r
            case Ok(logical) => DecoderOf(cx, d', consumed + chunk, out + logical) && d'.maxLogicalLength == d.maxLogicalLength
            case Err(e) => e.LogicalLimit? && d.maxLogicalLength < |Input(writes)|
  {
    assert LawfulDecoding(cx.codec, writes, consumed, consumed + chunk);
  }

  lemma NonEmptyFirst(out: bytes, chunk: bytes, more: seq<bytes>)
    ensures out + chunk + Concat(more) == out + Concat(NonEmpty(chunk) + more)
  {
    if chunk == [] {
      assert NonEmpty(chunk) + more == more;
    } else {
      assert (NonEmpty(chunk) + more)[1..] == more;
      assert out + chunk + Concat(more) == out + (chunk + Concat(more));
    }
  }

  lemma NonEmptyLast(out: bytes, chunks: seq<bytes>, chunk: bytes)
    ensures out + Concat(chunks) + chunk == out + Concat(chunks + NonEmpty(chunk))
  {
    if chunk == [] {
      assert chunks + NonEmpty(chunk) == chunks;
    } else {
      ConcatSnoc(chunks, chunk);
      assert out + Concat(chunks) + chunk == out + (Concat(chunks) + chunk);
    }
  }

  lemma {:induction false} DecodeMany(cx: Context, d: Decoder, consumed: bytes, out: bytes, ready: seq<bytes>,
                                      writes: seq<Write>)
    requires Lawful(cx.codec) && DecoderOf(cx, d, consumed, out)
    requires consumed + Concat(ready) <= Whole(cx.codec, writes) && |Input(writes)| <= U64_MAX
    ensures var (d', chunks, error) := DecodeAll(cx, Some(d), ready);
            && d'.Some?
            && match error
               case None => DecoderOf(cx, d'.value, consumed + Concat(ready), out + Concat(chunks))
                         && d'.value.maxLogicalLength == d.maxLogicalLength
               case Some(e) => e.StreamFailure? && e.cause.LogicalLimit? && d.maxLogicalLength < |Input(writes)|
    decreases |ready|
  {
    if ready == [] {
      assert consumed + [] == consumed && out + [] == out;
    } else {
      var chunk, rest := ready[0], Concat(ready[1..]);
      assert (consumed + chunk) + rest == consumed + (chunk + rest);
      DecodeOne(cx, d, consumed, out, chunk, writes);
      var (d', r) := DecoderPush(cx, d, chunk);
      if r.Ok? {
        DecodeMany(cx, d', consumed + chunk, out + r.value, ready[1..], writes);
        var more := DecodeAll(cx, Some(d'), ready[1..]).1;
        NonEmptyFirst(out, r.value, more);
      }
    }
  }

  /** Finishing on any prefix of an honest stream: success means every byte of the input came out. */
  lemma FinishIsWhole(cx: Context, d: Decoder, consumed: bytes, out: bytes, writes: seq<Write>)
    requires Lawful(cx.codec) && DecoderOf(cx, d, consumed, out)
    requires consumed <= Whole(cx.codec, writes) && |Input(writes)| <= U64_MAX
    ensures var r := DecoderFinish(cx, d, EndOf(cx, writes));
            r.Ok? ==> out + r.value == Input(writes)
  {
    assert LawfulDecoding(cx.codec, writes, consumed, consumed);
  }

  /** Finishing on the whole honest stream fails only on the output bound. */
  lemma FinishSucceeds(cx: Context, d: Decoder, consumed: bytes, out: bytes, writes: seq<Write>)
    requires Lawful(cx.codec) && DecoderOf(cx, d, consumed, out)
    requires consumed == Whole(cx.codec, writes) && |Input(writes)| <= U64_MAX
    ensures match DecoderFinish(cx, d, EndOf(cx, writes))
            case Ok(trailing) => out + trailing == Input(writes)
            case Err(e) => e.LogicalLimit? && d.maxLogicalLength < |Input(writes)|
  {
    assert LawfulDecoding(cx.codec, writes, consumed, consumed);
    var before, after := cx.codec.decoded(consumed), cx.codec.flushed(consumed);
    assert out + after[|before|..] == Input(writes);
  }

  // ---- The receiver ----

  /** The receiver relative to the log, the writes and the bytes delivered so far, while it has not been broken by a
      decoder failure. */
  ghost predicate Safe(cx: Context, r: Receiver, log: seq<Item>, writes: seq<Write>, out: bytes) {
    && ReassemblyOf(r.reassembly, log) && WindowOk(r.window)
    && (forall k | k in r.window.received :: k < |log|) && r.window.next <= |log|
    && (r.pendingEnd.Some? ==>
          r.pendingEnd.value.0 < |log| && log[r.pendingEnd.value.0] == End(r.pendingEnd.value.1))
    && (match r.decoder
        case Some(d) => DecoderOf(cx, d, Payloads(log[..r.reassembly.next]), out)
        case None => out <= Input(writes))
    && (r.completed ==> r.decoder == None && out == Input(writes))
  }

  /** The log is an honest sender's: its payloads lie on the encoded stream and its end record is the true one. */
  ghost predicate HonestLog(cx: Context, log: seq<Item>, writes: seq<Write>) {
    && Lawful(cx.codec) && |Input(writes)| <= U64_MAX && |log| <= U32_MAX
    && Payloads(log) <= Whole(cx.codec, writes)
    && (forall k | 0 <= k < |log| && log[k].End? :: k == |log| - 1 && log[k] == End(EndOf(cx, writes))
                                                    && Payloads(log) == Whole(cx.codec, writes))
  }

  lemma DeliveredIsPrefix(cx: Context, r: Receiver, log: seq<Item>, writes: seq<Write>, out: bytes)
    requires HonestLog(cx, log, writes) && Safe(cx, r, log, writes, out)
    ensures out <= Input(writes)
  {
    if r.decoder.Some? {
      var consumed := Payloads(log[..r.reassembly.next]);
      PayloadsPrefix(log, r.reassembly.next);
      assert LawfulDecoding(cx.codec, writes, consumed, consumed);
    }
  }

  /** What one partial receive delivered: the chunks count only if it did not fail. */
  function Delivered(out: bytes, p: Progress): bytes {
    if p.error.Some? then out else out + Concat(p.chunks)
  }

  /** A decoder failure leaves the decoder in place but out of step; no later frame may be fed to it. */
  predicate Breaks(p: Progress) {
    p.error.Some? && p.error.value.StreamFailure? && p.state.decoder.Some?
  }

  lemma RecordedSafe(cx: Context, r: Receiver, log: seq<Item>, writes: seq<Write>, out: bytes, sequence: nat)
    requires Safe(cx, r, log, writes, out) && sequence < |log| <= U32_MAX
    ensures Safe(cx, r.(window := Recorded(r.window, sequence)), log, writes, out)
  {
    RecordedSeen(r.window, sequence);
    var w := Recorded(r.window, sequence);
    assert w.next > 0 ==> Seen(w, w.next - 1);
  }

  /** Putting a logged payload into reassembly and decoding what became contiguous. */
  lemma ReceiveDataSafe(cx: Context, r: Receiver, log: seq<Item>, writes: seq<Write>, out: bytes, sequence: nat,
                        payload: bytes)
    requires HonestLog(cx, log, writes) && Safe(cx, r, log, writes, out) && !r.completed
    requires sequence < |log| && log[sequence] == Data(payload)
    ensures var p := ReceiveData(cx, r, sequence, payload);
            && !p.state.completed
            && (!Breaks(p) ==> Safe(cx, p.state, log, writes, Delivered(out, p)))
            && (p.error.Some? && r.decoder.Some? ==> p.error.value.ReassemblyLimit? || Breaks(p))
            && (Breaks(p) ==> p.error.value.cause.LogicalLimit? && r.decoder.value.maxLogicalLength < |Input(writes)|)
  {
    RecordedSafe(cx, r, log, writes, out, sequence);
    var p := ReceiveData(cx, r, sequence, payload);
    match Reassembled(r.reassembly, sequence, payload)
    case Rejected(_, _) =>
    case Pushed(reassembly, ready) =>
      if sequence < r.reassembly.next || sequence in r.reassembly.pending {
        assert out + [] == out;
      } else {
        InsertedOf(r.reassembly, log, sequence, payload);
        DrainedPayloads(Inserted(r.reassembly, sequence, payload), log);
        if r.decoder.Some? {
          PayloadsPrefix(log, reassembly.next);
          DecodeMany(cx, r.decoder.value, Payloads(log[..r.reassembly.next]), out, ready, writes);
        } else {
          assert out + [] == out;
        }
      }
  }

  /** The attempt to finish: if it reports completion, exactly the input has been delivered. */
  lemma TryFinishSafe(cx: Context, r: Receiver, log: seq<Item>, writes: seq<Write>, before: bytes, chunks: seq<bytes>)
    requires HonestLog(cx, log, writes) && Safe(cx, r, log, writes, before + Concat(chunks)) && !r.completed
    requires before <= Input(writes)
    ensures Safe(cx, TryFinish(cx, r, chunks).state, log, writes, Delivered(before, TryFinish(cx, r, chunks)))
    ensures !Breaks(TryFinish(cx, r, chunks))
  {
    if r.pendingEnd.Some? && DataComplete(r.window, r.pendingEnd.value.0) && r.decoder.Some? {
      var endSequence := r.pendingEnd.value.0;
      var out := before + Concat(chunks);
      assert log[endSequence] == End(EndOf(cx, writes));
      PayloadsPrefix(log, r.reassembly.next);
      FinishIsWhole(cx, r.decoder.value, Payloads(log[..r.reassembly.next]), out, writes);
      var trailing := DecoderFinish(cx, r.decoder.value, EndOf(cx, writes));
      if trailing.Ok? {
        RecordedSafe(cx, r, log, writes, out, endSequence);
        NonEmptyLast(before, chunks, trailing.value);
      }
    }
  }
}
