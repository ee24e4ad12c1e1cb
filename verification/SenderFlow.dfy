/** What the bytes held by the sender are: a stretch of the encoded stream, in order, with the end record last. */
module SenderFlow {
  import opened Prelude
  import opened Core
  import opened Stream
  import opened Sender
  import opened SenderInvariant

  function Payload(item: Item): bytes {
    match item
    case Data(payload) => payload
    case End(_) => []
  }

  function Payloads(items: seq<Item>): bytes {
    if items == [] then [] else Payloads(items[..|items| - 1]) + Payload(items[|items| - 1])
  }

  lemma PayloadsSnoc(items: seq<Item>, item: Item)
    ensures Payloads(items + [item]) == Payloads(items) + Payload(item)
  {
    assert (items + [item])[..|items|] == items;
  }

  lemma {:induction false} PayloadsAppend(a: seq<Item>, b: seq<Item>)
    ensures Payloads(a + b) == Payloads(a) + Payloads(b)
    decreases |b|
  {
    if b == [] {
      assert a + b == a;
    } else {
      assert (a + b)[..|a + b| - 1] == a + b[..|b| - 1];
      PayloadsAppend(a, b[..|b| - 1]);
    }
  }

  lemma PayloadsPrefix(a: seq<Item>, n: nat)
    requires n <= |a|
    ensures Payloads(a[..n]) <= Payloads(a)
  {
    var front, back := a[..n], a[n..];
    assert front + back == a;
    PayloadsAppend(front, back);
  }

  lemma PayloadsCons(item: Item, rest: seq<Item>)
    ensures Payloads([item] + rest) == Payload(item) + Payloads(rest)
  {
    PayloadsSnoc([], item);
    assert [] + [item] == [item];
    PayloadsAppend([item], rest);
  }

  /** All bytes the codec has put out: with the trailing bytes once the encoder is finished. */
  function Encoded(cx: Context, s: Sender, writes: seq<Write>): bytes {
    if s.encoder.Some? then cx.codec.emitted(writes) else Whole(cx.codec, writes)
  }

  /** Bytes given to the wire or waiting for it. */
  function Queued(s: Sender): bytes {
    Payloads(s.log) + Payloads(s.pending)
  }

  /** `items` ends a stream: its last element is the end record, and it is the only one. */
  ghost predicate EndsWith(items: seq<Item>, end: StreamEnd) {
    items != [] && items[|items| - 1] == End(end)
  }

  ghost predicate OnlyData(items: seq<Item>) {
    forall i | 0 <= i < |items| :: items[i].Data?
  }

  /** End records are last, are the true one, and appear only after input finished. */
  ghost predicate EndLast(cx: Context, s: Sender, writes: seq<Write>) {
    || (OnlyData(s.log) && OnlyData(s.pending))
    || (s.inputFinished && OnlyData(s.log) && s.pending != [] && OnlyData(s.pending[..|s.pending| - 1])
        && EndsWith(s.pending, EndOf(cx, writes)))
    || (s.inputFinished && s.pending == [] && s.log != [] && OnlyData(s.log[..|s.log| - 1])
        && EndsWith(s.log, EndOf(cx, writes)) && Payloads(s.log) == Whole(cx.codec, writes))
  }

  /** Nothing was lost: neither by a failed queueing nor by running out of sequence numbers. */
  ghost predicate Intact(cx: Context, s: Sender, writes: seq<Write>) {
    && Queued(s) + s.buffer == Encoded(cx, s, writes)
    && s.inputFinished == s.encoder.None?
    && (s.inputFinished ==> s.buffer == [] && !(OnlyData(s.log) && OnlyData(s.pending)))
  }

  /** The relation between the sender and the writes made so far. `lost` records that a call failed to queue what it
      had already encoded, after which no more input may be pushed. */
  ghost predicate Flow(cx: Context, s: Sender, writes: seq<Write>, lost: bool) {
    && (s.encoder.Some? ==> s.encoder.value == writes && !s.inputFinished)
    && Payloads(s.log) <= Encoded(cx, s, writes)
    && EndLast(cx, s, writes)
    && (s.nextSequence < U32_MAX ==> Queued(s) <= Encoded(cx, s, writes))
    && (s.nextSequence < U32_MAX && !lost ==> Intact(cx, s, writes))
    && (if lost then OnlyData(s.pending) && !s.inputFinished else s.inputFinished == s.encoder.None?)
  }

  lemma InitialFlow(cx: Context, frameLimit: nat, reservedMetadata: nat, windowFrames: nat, maxPendingBytes: nat)
    requires Lawful(cx.codec)
    ensures Flow(cx, InitialSender(frameLimit, reservedMetadata, windowFrames, maxPendingBytes), [], false)
  {
  }

  lemma {:induction false} QueueAllShape(s: Sender, payloads: seq<bytes>)
    ensures var o := QueueAll(s, payloads);
            && o.state == s.(pending := o.state.pending, pendingBytes := o.state.pendingBytes)
            && (OnlyData(s.pending) ==> OnlyData(o.state.pending))
            && (o.error.Some? ==> o.error.value.PendingLimit?)
    decreases |payloads|
  {
    if payloads != [] {
      var first := Queue(s, Data(payloads[0]));
      if first.error == None {
        QueueAllShape(first.state, payloads[1..]);
      }
    }
  }

  /** What queueing payloads does to the waiting bytes: all of them on success, a prefix on failure. */
  lemma {:induction false} QueueAllFlow(s: Sender, payloads: seq<bytes>)
    ensures var o := QueueAll(s, payloads);
            && (o.error == None ==> Payloads(o.state.pending) == Payloads(s.pending) + Concat(payloads))
            && Payloads(o.state.pending) <= Payloads(s.pending) + Concat(payloads)
    decreases |payloads|
  {
    if payloads != [] {
      var first := Queue(s, Data(payloads[0]));
      if first.error == None {
        PayloadsSnoc(s.pending, Data(payloads[0]));
        var before, head, tail := Payloads(s.pending), payloads[0], Concat(payloads[1..]);
        assert before + head + tail == before + (head + tail);
        QueueAllFlow(first.state, payloads[1..]);
      }
    }
  }

  /** Batching and queueing compressed bytes extends the waiting stream by exactly those bytes. */
  lemma QueueCompressedFlow(s: Sender, compressed: bytes)
    ensures var o := QueueCompressed(s, compressed);
            var all := Payloads(s.pending) + s.buffer + compressed;
            && o.state == s.(buffer := o.state.buffer, pending := o.state.pending, pendingBytes := o.state.pendingBytes)
            && (o.error == None ==> Payloads(o.state.pending) + o.state.buffer == all)
            && Payloads(o.state.pending) <= all
            && (OnlyData(s.pending) ==> OnlyData(o.state.pending))
            && (o.error.Some? ==> o.error.value.PendingLimit?)
  {
    var data := s.buffer + compressed;
    var (payloads, rest) := Batches(data, s.target);
    BatchesKeepBytes(data, s.target);
    QueueAllShape(s.(buffer := rest), payloads);
    QueueAllFlow(s.(buffer := rest), payloads);
    assert Payloads(s.pending) + Concat(payloads) + rest == Payloads(s.pending) + (Concat(payloads) + rest);
    assert Payloads(s.pending) + s.buffer + compressed == Payloads(s.pending) + data;
  }

  lemma FlushBufferFlow(s: Sender)
    ensures var o := FlushBuffer(s);
            && o.state == s.(buffer := o.state.buffer, pending := o.state.pending, pendingBytes := o.state.pendingBytes)
            && (o.error == None ==> Payloads(o.state.pending) == Payloads(s.pending) + s.buffer)
            && o.state.buffer == []
            && Payloads(o.state.pending) <= Payloads(s.pending) + s.buffer
            && (OnlyData(s.pending) ==> OnlyData(o.state.pending))
            && (o.error.Some? ==> o.error.value.PendingLimit?)
  {
    PayloadsSnoc(s.pending, Data(s.buffer));
  }

  lemma PrefixAppend(a: bytes, b: bytes, c: bytes)
    requires b <= c
    ensures a + b <= a + c
  {
  }

  /** After queueing more data on a live encoder, the flow relation holds for the longer history. */
  lemma Extend(cx: Context, s: Sender, t: Sender, writes: seq<Write>, more: bytes, failed: bool)
    requires Flow(cx, s, writes, false) && s.encoder.Some?
    requires t == s.(encoder := t.encoder, buffer := t.buffer, pending := t.pending, pendingBytes := t.pendingBytes)
    requires OnlyData(s.pending) ==> OnlyData(t.pending)
    requires t.encoder.Some?
    requires cx.codec.emitted(t.encoder.value) == cx.codec.emitted(writes) + more
    requires Payloads(t.pending) <= Payloads(s.pending) + s.buffer + more
    requires !failed ==> Payloads(t.pending) + t.buffer == Payloads(s.pending) + s.buffer + more
    ensures Flow(cx, t, t.encoder.value, failed)
  {
    var all := Payloads(s.pending) + s.buffer + more;
    if s.nextSequence < U32_MAX {
      assert Payloads(s.log) + all == Queued(s) + s.buffer + more;
      PrefixAppend(Payloads(s.log), Payloads(t.pending), all);
      if !failed {
        assert Queued(t) + t.buffer == Payloads(s.log) + (Payloads(t.pending) + t.buffer);
      }
    }
  }

  /** Whether a load lost bytes it had already taken from the encoder. */
  predicate Lost(o: Outcome) {
    o.error.Some? && o.error.value.PendingLimit?
  }

  /** The history after a call: the encoder's own while it lives, unchanged once it is gone. */
  function History(s: Sender, writes: seq<Write>): seq<Write> {
    if s.encoder.Some? then s.encoder.value else writes
  }

  lemma LoadedFlow(cx: Context, s: Sender, writes: seq<Write>, logical: bytes, flush: bool)
    requires Lawful(cx.codec) && Flow(cx, s, writes, false)
    ensures var o := Loaded(cx, s, logical, flush);
            Flow(cx, o.state, History(o.state, writes), Lost(o))
  {
    if !s.inputFinished && |logical| <= s.target && s.encoder.Some? {
      var (writes', encoded) := EncoderPush(cx, writes, logical, flush);
      var s' := s.(encoder := Some(writes'));
      if encoded.Ok? {
        assert LawfulGrowth(cx.codec, writes, Write(logical, flush));
        assert cx.codec.emitted(writes') == cx.codec.emitted(writes) + encoded.value;
        QueueCompressedFlow(s', encoded.value);
        var queued := QueueCompressed(s', encoded.value);
        if queued.error == None && flush {
          FlushBufferFlow(queued.state);
          var o := FlushBuffer(queued.state);
          Extend(cx, s, o.state, writes, encoded.value, Lost(o));
        } else {
          Extend(cx, s, queued.state, writes, encoded.value, Lost(queued));
        }
      } else {
        assert LawfulGrowth(cx.codec, writes, Write(logical, flush));
        assert writes' == writes;
      }
    }
  }

  /** After a failed finish the encoder is gone and what waits is still a prefix of the whole encoded stream. */
  lemma FailedEnd(cx: Context, s: Sender, t: Sender, writes: seq<Write>)
    requires Flow(cx, s, writes, false) && s.encoder.Some?
    requires t == s.(encoder := None, buffer := t.buffer, pending := t.pending, pendingBytes := t.pendingBytes)
    requires OnlyData(s.pending) ==> OnlyData(t.pending)
    requires Payloads(t.pending) <= Payloads(s.pending) + s.buffer + cx.codec.trailing(writes)
    ensures Flow(cx, t, writes, true)
  {
    var all := Payloads(s.pending) + s.buffer + cx.codec.trailing(writes);
    if s.nextSequence < U32_MAX {
      assert Payloads(s.log) + all == Queued(s) + s.buffer + cx.codec.trailing(writes);
      PrefixAppend(Payloads(s.log), Payloads(t.pending), all);
    }
  }

  lemma QueueEnd(cx: Context, u: Sender, end: StreamEnd)
    requires OnlyData(u.pending)
    ensures var t := Queue(u, End(end)).state;
            && t == u.(pending := t.pending, pendingBytes := t.pendingBytes)
            && Payloads(t.pending) == Payloads(u.pending)
            && (Queue(u, End(end)).error == None ==>
                  t.pending != [] && OnlyData(t.pending[..|t.pending| - 1]) && EndsWith(t.pending, end))
  {
    PayloadsSnoc(u.pending, End(end));
    assert (u.pending + [End(end)])[..|u.pending|] == u.pending;
  }

  lemma EndQueued(cx: Context, s: Sender, u: Sender, writes: seq<Write>)
    requires Flow(cx, s, writes, false) && s.encoder.Some?
    requires u == s.(encoder := None, buffer := [], pending := u.pending, pendingBytes := u.pendingBytes)
    requires OnlyData(u.pending)
    requires Payloads(u.pending) == Payloads(s.pending) + s.buffer + cx.codec.trailing(writes)
    ensures var o := Queue(u, End(EndOf(cx, writes)));
            Flow(cx, if o.error.Some? then o.state else o.state.(inputFinished := true), writes, o.error.Some?)
  {
    QueueEnd(cx, u, EndOf(cx, writes));
    var o := Queue(u, End(EndOf(cx, writes)));
    var v := if o.error.Some? then o.state else o.state.(inputFinished := true);
    assert Encoded(cx, v, writes) == Encoded(cx, s, writes) + cx.codec.trailing(writes);
    if s.nextSequence < U32_MAX {
      QueuedAfterEnd(Payloads(s.log), Payloads(s.pending), s.buffer, cx.codec.trailing(writes));
      assert Queued(v) == Encoded(cx, v, writes);
      assert Queued(v) + v.buffer == Queued(v);
    }
  }

  lemma QueuedAfterEnd(log: bytes, pending: bytes, buffer: bytes, trailing: bytes)
    ensures log + (pending + buffer + trailing) == log + pending + buffer + trailing
  {
  }

  lemma LoadedEndFlow(cx: Context, s: Sender, writes: seq<Write>)
    requires Flow(cx, s, writes, false) && s.encoder.Some?
    ensures var o := LoadedEnd(cx, s); Flow(cx, o.state, writes, o.error.Some?) && o.state.encoder == None
  {
    var s' := s.(encoder := None);
    var trailing := cx.codec.trailing(writes);
    QueueCompressedFlow(s', trailing);
    var queued := QueueCompressed(s', trailing);
    if queued.error.Some? {
      FailedEnd(cx, s, queued.state, writes);
    } else {
      FlushBufferFlow(queued.state);
      var flushed := FlushBuffer(queued.state);
      if flushed.error.Some? {
        FailedEnd(cx, s, flushed.state, writes);
      } else {
        EndQueued(cx, s, flushed.state, writes);
      }
    }
  }

  /** Launching the front item moves its bytes from the waiting side to the sent side. */
  lemma LaunchMoves(s: Sender, encoded: bytes)
    requires s.pending != [] && Launch(s, encoded).error == None
    ensures Queued(Launch(s, encoded).state) == Queued(s)
  {
    PayloadsMove(s.log, s.pending[0], s.pending[1..]);
    assert s.pending == [s.pending[0]] + s.pending[1..];
  }

  lemma PayloadsMove(log: seq<Item>, item: Item, rest: seq<Item>)
    ensures Payloads(log + [item]) + Payloads(rest) == Payloads(log) + Payloads([item] + rest)
  {
    PayloadsSnoc(log, item);
    PayloadsCons(item, rest);
    var a, b, c := Payloads(log), Payload(item), Payloads(rest);
    assert (a + b) + c == a + (b + c);
  }

  lemma LaunchEndLast(cx: Context, s: Sender, writes: seq<Write>, encoded: bytes, lost: bool)
    requires Flow(cx, s, writes, lost) && s.pending != []
    requires Launch(s, encoded).error == None
    requires s.pending == [End(EndOf(cx, writes))] ==> Payloads(s.log) == Whole(cx.codec, writes)
    ensures EndLast(cx, Launch(s, encoded).state, writes)
  {
    var t := Launch(s, encoded).state;
    var item := s.pending[0];
    if OnlyData(s.pending) {
    } else if |s.pending| == 1 {
      assert t.log[..|t.log| - 1] == s.log;
      PayloadsSnoc(s.log, item);
    } else {
      assert s.pending[..|s.pending| - 1][0] == item;
      assert t.pending[..|t.pending| - 1] == s.pending[..|s.pending| - 1][1..];
    }
  }

  lemma LaunchFlow(cx: Context, s: Sender, writes: seq<Write>, encoded: bytes, lost: bool)
    requires Flow(cx, s, writes, lost) && s.pending != []
    ensures Flow(cx, Launch(s, encoded).state, writes, lost)
  {
    var o := Launch(s, encoded);
    if o.error == None {
      LaunchMoves(s, encoded);
      if s.pending == [End(EndOf(cx, writes))] {
        assert s.nextSequence < U32_MAX;
        PayloadsSnoc([], s.pending[0]);
        assert [] + [s.pending[0]] == s.pending;
        assert !OnlyData(s.pending);
        assert Queued(s) + s.buffer == Payloads(s.log);
      }
      LaunchEndLast(cx, s, writes, encoded, lost);
      assert Payloads(o.state.log) <= Queued(o.state);
      if !lost && o.state.nextSequence < U32_MAX && s.inputFinished {
        NotOnlyData(s, encoded);
      }
    } else if o.error == Some(SequenceExhausted) {
      DropEndLast(cx, s, o.state, writes);
    }
  }

  lemma NotOnlyData(s: Sender, encoded: bytes)
    requires s.pending != [] && Launch(s, encoded).error == None
    ensures var t := Launch(s, encoded).state;
            OnlyData(t.log) && OnlyData(t.pending) ==> OnlyData(s.log) && OnlyData(s.pending)
  {
    var t := Launch(s, encoded).state;
    assert forall i | 0 <= i < |s.log| :: s.log[i] == t.log[i];
    assert forall i | 1 <= i < |s.pending| :: s.pending[i] == t.pending[i - 1];
    assert s.pending[0] == t.log[|s.log|];
  }

  lemma DropEndLast(cx: Context, s: Sender, t: Sender, writes: seq<Write>)
    requires EndLast(cx, s, writes) && s.pending != []
    requires t == s.(pending := s.pending[1..], pendingBytes := t.pendingBytes)
    ensures EndLast(cx, t, writes)
    ensures OnlyData(s.pending) ==> OnlyData(t.pending)
  {
    if !OnlyData(s.pending) && |s.pending| > 1 {
      assert t.pending[..|t.pending| - 1] == s.pending[..|s.pending| - 1][1..];
    }
  }

  lemma {:induction false} PumpFlow(cx: Context, s: Sender, writes: seq<Write>, lost: bool)
    requires Flow(cx, s, writes, lost)
    ensures Flow(cx, Pump(cx, s).state, writes, lost)
    decreases |s.pending|
  {
    if |s.inFlight| < EffectiveWindow(s) && s.pending != [] {
      var frame := EncodeItem(cx, s.nextSequence, s.pending[0]);
      if frame.Ok? {
        LaunchFlow(cx, s, writes, frame.value, lost);
        var one := Launch(s, frame.value);
        if one.error == None {
          PumpFlow(cx, one.state, writes, lost);
        }
      }
    }
  }
}
