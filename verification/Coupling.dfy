/** While no receive has failed, the receive window and the reassembler describe the same sequences. */
module Coupling {
  import opened Prelude
  import opened Core
  import opened Stream
  import opened Sender
  import opened SenderInvariant
  import opened SenderFlow
  import opened Receiver
  import opened ReceiverInvariant

  /** Same cursor, and the same sequences kept above it. */
  ghost predicate SameSequences(w: Window, r: Reassembly) {
    w.next == r.next && forall k | w.next <= k :: k in w.received <==> k in r.pending
  }

  ghost predicate Coupled(r: Receiver) {
    if r.completed then
      r.pendingEnd.Some? && r.window.next == r.pendingEnd.value.0 + 1 && r.reassembly.next == r.pendingEnd.value.0
    else
      && r.decoder.Some? && SameSequences(r.window, r.reassembly)
      && (r.pendingEnd.Some? ==> r.window.next != r.pendingEnd.value.0)
  }

  lemma {:induction false} DrainedBytes(r: Reassembly, n: nat)
    requires r.pendingBytes == WeightBelow(r.pending, Length, n) && forall k | k in r.pending :: k < n
    ensures Drained(r).0.pendingBytes == WeightBelow(Drained(r).0.pending, Length, n)
    decreases r.pending.Keys
  {
    if r.next in r.pending {
      WeightRemove(r.pending, Length, n, r.next);
      DrainedBytes(DrainedOnce(r), n);
    }
  }

  /** Recording a new sequence and reassembling its payload move both cursors to the same gap. */
  lemma BothAdvance(w: Window, r: Reassembly, log: seq<Item>, k: nat, payload: bytes)
    requires WindowOk(w) && ReassemblyOf(r, log) && SameSequences(w, r)
    requires w.next <= k < |log| && k !in w.received && log[k] == Data(payload)
    ensures SameSequences(Recorded(w, k), Drained(Inserted(r, k, payload)).0)
  {
    var before := Window(w.received + {k}, w.next);
    var a, t := Recorded(w, k), Drained(Inserted(r, k, payload)).0;
    AdvanceKeeps(before);
    InsertedOf(r, log, k, payload);
    DrainedIs(Inserted(r, k, payload), log);
    assert a.next < t.next ==> a.next in Inserted(r, k, payload).pending;
    assert t.next < a.next ==> t.next in before.received;
  }

  /** Recording a sequence below the cursor changes nothing an acknowledgement shows. */
  lemma RecordedBelow(w: Window, k: nat)
    requires WindowOk(w) && k < w.next
    ensures Recorded(w, k) == Window(w.received + {k}, w.next)
    ensures SnapshotOf(Recorded(w, k)) == SnapshotOf(w)
  {
    var a := Window(w.received + {k}, w.next);
    assert forall offset | 0 <= offset < ACK_BITMAP_BITS :: SelectiveBit(a, offset) == SelectiveBit(w, offset);
  }

  lemma DataCompleteIs(w: Window, endSequence: nat)
    requires w.next <= U32_MAX
    ensures DataComplete(w, endSequence) <==> w.next == endSequence
  {
  }

  lemma RecordAtCursor(w: Window)
    requires WindowOk(w) && w.next < U32_MAX && w.next + 1 !in w.received
    ensures Recorded(w, w.next).next == w.next + 1
  {
    assert w.received + {w.next} - {w.next} == w.received;
    assert Advance(Window(w.received, w.next + 1)) == Window(w.received, w.next + 1);
  }

  /** The only failures an honest stream can meet: the receiver's own limits. */
  ghost predicate OnlyLimits(r: Receiver, item: Item, writes: seq<Write>, e: EngineError) {
    || (item.Data? && r.reassembly.pendingBytes + |item.payload| > r.reassembly.maxPendingBytes
        && e == ReassemblyLimit(r.reassembly.pendingBytes + |item.payload|, r.reassembly.maxPendingBytes))
    || (e.StreamFailure? && e.cause.LogicalLimit?
        && r.decoder.Some? && r.decoder.value.maxLogicalLength < |Input(writes)|)
  }

  /** With all data contiguous, an honest end record verifies unless the output bound is hit. */
  lemma FinishCoupled(cx: Context, r: Receiver, log: seq<Item>, writes: seq<Write>, before: bytes, chunks: seq<bytes>)
    requires HonestLog(cx, log, writes) && Safe(cx, r, log, writes, before + Concat(chunks)) && !r.completed
    requires r.decoder.Some? && SameSequences(r.window, r.reassembly)
    ensures var p := TryFinish(cx, r, chunks);
            match p.error
            case None => Coupled(p.state)
            case Some(e) => e.StreamFailure? && e.cause.LogicalLimit? && r.decoder.value.maxLogicalLength < |Input(writes)|
  {
    if r.pendingEnd.Some? {
      var e := r.pendingEnd.value.0;
      DataCompleteIs(r.window, e);
      if r.window.next == e {
        var out := before + Concat(chunks);
        assert log[e] == End(EndOf(cx, writes));
        assert log == log[..e] + [log[e]];
        PayloadsSnoc(log[..e], log[e]);
        assert Payloads(log[..e]) + [] == Payloads(log[..e]);
        FinishSucceeds(cx, r.decoder.value, Payloads(log[..e]), out, writes);
        RecordAtCursor(r.window);
      }
    }
  }

  /** A late duplicate of a delivered sequence changes neither the output nor the acknowledgement. */
  lemma LateDuplicateIsSilent(cx: Context, r: Receiver, k: nat, payload: bytes)
    requires Coupled(r) && !r.completed && WindowOk(r.window) && k < r.window.next
    ensures var Received(r', result) := AcceptData(cx, r, k, payload);
            && r' == r.(window := r'.window) && r'.window == Window(r.window.received + {k}, r.window.next)
            && result == Ok(ReceiveOutput([], AckOf(cx, r), false))
  {
    RecordedBelow(r.window, k);
    if r.pendingEnd.Some? {
      DataCompleteIs(Recorded(r.window, k), r.pendingEnd.value.0);
    }
  }

  /** So does a duplicate of a sequence that is still being held. */
  lemma HeldDuplicateIsSilent(cx: Context, r: Receiver, k: nat, payload: bytes)
    requires WindowOk(r.window) && !r.completed && k in r.window.received
    ensures AcceptData(cx, r, k, payload) == Received(r, Ok(ReceiveOutput([], AckOf(cx, r), false)))
  {
    assert r.window.received + {k} == r.window.received;
  }

  lemma NewDataDecodes(cx: Context, r: Receiver, log: seq<Item>, writes: seq<Write>, out: bytes, k: nat, payload: bytes)
    requires HonestLog(cx, log, writes) && Safe(cx, r, log, writes, out) && Coupled(r) && !r.completed
    requires r.window.next <= k < |log| && k !in r.window.received && log[k] == Data(payload)
    ensures var p := ReceiveData(cx, r, k, payload);
            match p.error
            case None => SameSequences(p.state.window, p.state.reassembly) && p.state.decoder.Some? && !p.state.completed
                      && p.state.decoder.value.maxLogicalLength == r.decoder.value.maxLogicalLength
            case Some(e) => OnlyLimits(r, Data(payload), writes, e)
  {
    BothAdvance(r.window, r.reassembly, log, k, payload);
    InsertedOf(r.reassembly, log, k, payload);
    DrainedPayloads(Inserted(r.reassembly, k, payload), log);
    var (reassembly, ready) := Drained(Inserted(r.reassembly, k, payload));
    PayloadsPrefix(log, reassembly.next);
    DecodeMany(cx, r.decoder.value, Payloads(log[..r.reassembly.next]), out, ready, writes);
  }

  /** Receiving an honest data frame keeps the two views together, and fails only on the receiver's own limits. */
  lemma DataCoupled(cx: Context, r: Receiver, log: seq<Item>, writes: seq<Write>, out: bytes, k: nat, payload: bytes)
    requires HonestLog(cx, log, writes) && Safe(cx, r, log, writes, out) && Coupled(r)
    requires k < |log| && log[k] == Data(payload)
    ensures var Received(r', result) := AcceptData(cx, r, k, payload);
            match result
            case Ok(_) => Coupled(r')
            case Err(e) => OnlyLimits(r, Data(payload), writes, e)
  {
    if r.completed {
    } else if k < r.window.next {
      LateDuplicateIsSilent(cx, r, k, payload);
    } else if k in r.window.received {
      HeldDuplicateIsSilent(cx, r, k, payload);
    } else {
      NewDataDecodes(cx, r, log, writes, out, k, payload);
      ReceiveDataSafe(cx, r, log, writes, out, k, payload);
      var p := ReceiveData(cx, r, k, payload);
      if p.error == None {
        FinishCoupled(cx, p.state, log, writes, out, p.chunks);
      }
    }
  }

  /** Receiving the honest end frame never conflicts and never fails its length or digest check. */
  lemma EndCoupled(cx: Context, r: Receiver, log: seq<Item>, writes: seq<Write>, out: bytes, k: nat, end: StreamEnd)
    requires HonestLog(cx, log, writes) && Safe(cx, r, log, writes, out) && Coupled(r)
    requires k < |log| && log[k] == End(end)
    ensures var Received(r', result) := AcceptEnd(cx, r, k, end);
            match result
            case Ok(_) => Coupled(r')
            case Err(e) => OnlyLimits(r, End(end), writes, e)
  {
    if !r.completed {
      assert r.pendingEnd.Some? ==> r.pendingEnd.value == (k, end);
      assert out + Concat<u8>([]) == out;
      FinishCoupled(cx, r.(pendingEnd := Some((k, end))), log, writes, out, []);
    }
  }
}
