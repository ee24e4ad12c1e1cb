/** What is left for callers that carry on after a drop: the output is still what was numbered, and completion is still
    verified. */
module Careless {
  import opened Prelude
  import opened Core
  import opened Stream
  import opened Sender
  import opened SenderInvariant
  import opened SenderFlow
  import opened Receiver
  import opened ReceiverInvariant
  import opened Coupling
  import opened Protocol
  import opened Delivery
  import opened Loss

  // ---- The sender's end record ----

  ghost predicate TrueEnds(cx: Context, items: seq<Item>, writes: seq<Write>) {
    forall i | 0 <= i < |items| && items[i].End? :: items[i] == End(EndOf(cx, writes))
  }

  /** An end record is only ever numbered or queued for all that was pushed, and nothing is pushed after it. */
  ghost predicate EndsTrue(cx: Context, s: Sender, writes: seq<Write>) {
    && (s.encoder.Some? ==> s.encoder.value == writes && !s.inputFinished && OnlyData(s.log) && OnlyData(s.pending))
    && TrueEnds(cx, s.log, writes) && TrueEnds(cx, s.pending, writes)
    && (s.inputFinished && s.nextSequence < U32_MAX ==> !(OnlyData(s.log) && OnlyData(s.pending)))
  }

  lemma LaunchEndsTrue(cx: Context, s: Sender, writes: seq<Write>, encoded: bytes)
    requires EndsTrue(cx, s, writes) && s.pending != []
    ensures EndsTrue(cx, Launch(s, encoded).state, writes)
  {
    if Launch(s, encoded).error == None {
      NotOnlyData(s, encoded);
    }
  }

  lemma {:induction false} PumpEndsTrue(cx: Context, s: Sender, writes: seq<Write>)
    requires EndsTrue(cx, s, writes)
    ensures EndsTrue(cx, Pump(cx, s).state, writes)
    decreases |s.pending|
  {
    if |s.inFlight| < EffectiveWindow(s) && s.pending != [] {
      var frame := EncodeItem(cx, s.nextSequence, s.pending[0]);
      if frame.Ok? {
        LaunchEndsTrue(cx, s, writes, frame.value);
        if Launch(s, frame.value).error == None {
          PumpEndsTrue(cx, Launch(s, frame.value).state, writes);
        }
      }
    }
  }

  /** Loading input before the end leaves data waiting, whether or not it fails. */
  lemma LoadedEndsTrue(cx: Context, s: Sender, writes: seq<Write>, logical: bytes, flush: bool)
    requires EndsTrue(cx, s, writes)
    ensures var t := Loaded(cx, s, logical, flush).state; EndsTrue(cx, t, History(t, writes))
  {
    if !s.inputFinished && |logical| <= s.target && s.encoder.Some? {
      var (writes', encoded) := EncoderPush(cx, s.encoder.value, logical, flush);
      var s' := s.(encoder := Some(writes'));
      if encoded.Ok? {
        QueueCompressedFlow(s', encoded.value);
        FlushBufferFlow(QueueCompressed(s', encoded.value).state);
      }
    }
  }

  lemma LoadedEndEndsTrue(cx: Context, s: Sender, writes: seq<Write>)
    requires EndsTrue(cx, s, writes) && s.encoder.Some?
    ensures EndsTrue(cx, LoadedEnd(cx, s).state, writes) && LoadedEnd(cx, s).state.encoder == None
  {
    var s', trailing := s.(encoder := None), cx.codec.trailing(writes);
    QueueCompressedFlow(s', trailing);
    var queued := QueueCompressed(s', trailing);
    if queued.error == None {
      FlushBufferFlow(queued.state);
      QueueEnd(cx, FlushBuffer(queued.state).state, EndOf(cx, writes));
    }
  }

  /** Changes that leave the log, the waiting items and the encoder alone. */
  lemma EndsTrueUntouched(cx: Context, s: Sender, t: Sender, writes: seq<Write>)
    requires EndsTrue(cx, s, writes)
    requires t == s.(inFlight := t.inFlight, inFlightBytes := t.inFlightBytes, peerWindow := t.peerWindow)
    ensures EndsTrue(cx, t, writes) && History(t, writes) == writes
  {
  }

  lemma RefillEndsTrue(cx: Context, s: Sender, t: Sender, writes: seq<Write>)
    requires EndsTrue(cx, s, writes)
    requires t == s.(inFlight := t.inFlight, inFlightBytes := t.inFlightBytes, peerWindow := t.peerWindow)
    ensures var u := Pump(cx, t).state; EndsTrue(cx, u, writes) && History(u, writes) == writes
  {
    EndsTrueUntouched(cx, s, t, writes);
    PumpEndsTrue(cx, t, writes);
    PumpKeepsEncoder(cx, t);
  }

  lemma PushEndsTrue(cx: Context, s: Sender, writes: seq<Write>, logical: bytes, flush: bool)
    requires EndsTrue(cx, s, writes)
    ensures var t := Push(cx, s, logical, flush).state; EndsTrue(cx, t, History(t, writes))
  {
    LoadedEndsTrue(cx, s, writes, logical, flush);
    var t := Loaded(cx, s, logical, flush).state;
    PumpEndsTrue(cx, t, History(t, writes));
    PumpKeepsEncoder(cx, t);
  }

  lemma FinishEndsTrue(cx: Context, s: Sender, writes: seq<Write>)
    requires EndsTrue(cx, s, writes)
    ensures var t := FinishInput(cx, s).state; EndsTrue(cx, t, History(t, writes))
  {
    if !s.inputFinished && s.encoder.Some? {
      LoadedEndEndsTrue(cx, s, writes);
      PumpEndsTrue(cx, LoadedEnd(cx, s).state, writes);
      PumpKeepsEncoder(cx, LoadedEnd(cx, s).state);
    }
  }

  lemma WindowEndsTrue(cx: Context, s: Sender, writes: seq<Write>, n: nat)
    requires EndsTrue(cx, s, writes)
    ensures var t := SetPeerWindow(cx, s, n).state; EndsTrue(cx, t, writes) && History(t, writes) == writes
  {
    EndsTrueUntouched(cx, s, s, writes);
    RefillEndsTrue(cx, s, s.(peerWindow := n), writes);
  }

  lemma AckEndsTrue(cx: Context, s: Sender, writes: seq<Write>, ack: Ack)
    requires SenderOk(cx, s) && EndsTrue(cx, s, writes)
    ensures var t := Acknowledge(cx, s, ack).state; EndsTrue(cx, t, writes) && History(t, writes) == writes
  {
    EndsTrueUntouched(cx, s, s, writes);
    AfterReleaseIs(cx, s, ack);
    RefillEndsTrue(cx, s, AfterRelease(s, ack), writes);
  }

  lemma DispatchEndsTrue(cx: Context, s: Sender, writes: seq<Write>, nowMs: nat, policy: RetryPolicy)
    requires EndsTrue(cx, s, writes)
    ensures var t := TakeSendable(s, nowMs, policy).0; EndsTrue(cx, t, writes) && History(t, writes) == writes
  {
    EndsTrueUntouched(cx, s, TakeSendable(s, nowMs, policy).0, writes);
  }

  lemma SenderAfterEndsTrue(cx: Context, w: World, a: Action)
    requires SenderOk(cx, w.s) && EndsTrue(cx, w.s, w.writes)
    ensures var s := SenderAfter(cx, w, a); EndsTrue(cx, s, History(s, w.writes))
  {
    EndsTrueUntouched(cx, w.s, w.s, w.writes);
    match a
    case DoPush(logical, flush) => PushEndsTrue(cx, w.s, w.writes, logical, flush);
    case DoFinish => FinishEndsTrue(cx, w.s, w.writes);
    case DoSetWindow(n) => WindowEndsTrue(cx, w.s, w.writes, n);
    case DoDispatch(nowMs, policy) => DispatchEndsTrue(cx, w.s, w.writes, nowMs, policy);
    case DoAck(i) => if i < |w.acks| { AckEndsTrue(cx, w.s, w.writes, w.acks[i]); }
    case _ =>
  }

  /** A finished encoder stays finished. */
  lemma StaysFinished(cx: Context, w: World, a: Action)
    requires SenderOk(cx, w.s) && w.s.encoder == None
    ensures SenderAfter(cx, w, a).encoder == None
  {
    match a
    case DoPush(logical, flush) => NoEncoderPush(cx, w.s, logical, flush);
    case DoSetWindow(n) => PumpKeepsEncoder(cx, w.s.(peerWindow := n));
    case DoAck(i) =>
      if i < |w.acks| {
        AfterReleaseIs(cx, w.s, w.acks[i]);
        PumpKeepsEncoder(cx, AfterRelease(w.s, w.acks[i]));
      }
    case _ =>
  }

  lemma NoEncoderPush(cx: Context, s: Sender, logical: bytes, flush: bool)
    requires s.encoder == None
    ensures Push(cx, s, logical, flush).state == s
  {
  }

  // ---- The receiver's decoder ----

  /** What came out is what decoding all that went in gives, and it is what the digest and the length are taken of. */
  ghost predicate Decodes(cx: Context, d: Decoder, consumed: bytes, out: bytes) {
    d.consumed == consumed && d.hashed == out == cx.codec.decoded(consumed) && d.logicalLength == Min(|out|, U64_MAX)
  }

  /** What a finish checks. */
  ghost predicate Matches(cx: Context, writes: seq<Write>, out: bytes) {
    Min(|out|, U64_MAX) == |Input(writes)| && cx.digest(out) == cx.digest(Input(writes))
  }

  ghost predicate OutputAt(cx: Context, log: seq<Item>, m: nat, out: bytes) {
    && m <= |log|
    && (out == cx.codec.decoded(Payloads(log[..m])) || out == cx.codec.flushed(Payloads(log[..m])))
  }

  /** The output is what the first so many numbered items decode to. */
  ghost predicate Output(cx: Context, log: seq<Item>, out: bytes) {
    exists m :: OutputAt(cx, log, m, out)
  }

  ghost predicate Deciphered(cx: Context, r: Receiver, log: seq<Item>, writes: seq<Write>, out: bytes) {
    match r.decoder
    case Some(d) =>
      !r.completed && r.reassembly.next <= |log| && Decodes(cx, d, Payloads(log[..r.reassembly.next]), out)
    case None => Output(cx, log, out) && (r.completed ==> Matches(cx, writes, out))
  }

  lemma DecipheredOutput(cx: Context, r: Receiver, log: seq<Item>, writes: seq<Write>, out: bytes)
    requires Deciphered(cx, r, log, writes, out)
    ensures Output(cx, log, out)
  {
    if r.decoder.Some? {
      assert OutputAt(cx, log, r.reassembly.next, out);
    }
  }

  lemma DecodeStep(cx: Context, d: Decoder, consumed: bytes, out: bytes, chunk: bytes)
    requires Decodes(cx, d, consumed, out)
    ensures var (d', r) := DecoderPush(cx, d, chunk); r.Ok? ==> Decodes(cx, d', consumed + chunk, out + r.value)
  {
    var (d', r) := DecoderPush(cx, d, chunk);
    if r.Ok? {
      var before, after := cx.codec.decoded(consumed), cx.codec.decoded(consumed + chunk);
      assert before + after[|before|..] == after;
    }
  }

  lemma {:induction false} DecodeAllDecodes(cx: Context, d: Decoder, consumed: bytes, out: bytes, ready: seq<bytes>)
    requires Decodes(cx, d, consumed, out)
    ensures var (d', chunks, error) := DecodeAll(cx, Some(d), ready);
            && d'.Some?
            && match error
               case None => Decodes(cx, d'.value, consumed + Concat(ready), out + Concat(chunks))
               case Some(e) => e.StreamFailure?
    decreases |ready|
  {
    if ready == [] {
      assert consumed + [] == consumed && out + [] == out;
    } else {
      var chunk, rest := ready[0], Concat(ready[1..]);
      assert (consumed + chunk) + rest == consumed + (chunk + rest);
      DecodeStep(cx, d, consumed, out, chunk);
      var (d', r) := DecoderPush(cx, d, chunk);
      if r.Ok? {
        DecodeAllDecodes(cx, d', consumed + chunk, out + r.value, ready[1..]);
        NonEmptyFirst(out, r.value, DecodeAll(cx, Some(d'), ready[1..]).1);
      }
    }
  }

  /** Decoding what became contiguous, unless the decoder fails. */
  lemma ReadyDecodes(cx: Context, r: Receiver, log: seq<Item>, writes: seq<Write>, out: bytes, t: Reassembly,
                     ready: seq<bytes>)
    requires Deciphered(cx, r, log, writes, out) && !r.completed && t.next <= |log|
    requires r.reassembly.next <= |log| && Payloads(log[..t.next]) == Payloads(log[..r.reassembly.next]) + Concat(ready)
    ensures var (decoder, chunks, error) := DecodeAll(cx, r.decoder, ready);
            var r' := r.(decoder := decoder, reassembly := t);
            || (error.Some? && error.value.StreamFailure? && decoder.Some?)
            || Deciphered(cx, r', log, writes, if error.Some? then out else out + Concat(chunks))
  {
    match r.decoder
    case Some(d) => DecodeAllDecodes(cx, d, Payloads(log[..r.reassembly.next]), out, ready);
    case None => assert out + [] == out;
  }

  lemma DataDeciphered(cx: Context, r: Receiver, log: seq<Item>, writes: seq<Write>, out: bytes, k: nat, payload: bytes)
    requires ReassemblyOf(r.reassembly, log) && k < |log| && log[k] == Data(payload)
    requires Deciphered(cx, r, log, writes, out) && !r.completed
    ensures var p := ReceiveData(cx, r, k, payload);
            Breaks(p) || (!p.state.completed && Deciphered(cx, p.state, log, writes, Delivered(out, p)))
  {
    var pushed := Reassembled(r.reassembly, k, payload);
    if pushed.Pushed? {
      if k < r.reassembly.next || k in r.reassembly.pending {
        assert Payloads(log[..r.reassembly.next]) + [] == Payloads(log[..r.reassembly.next]);
      } else {
        InsertedOf(r.reassembly, log, k, payload);
        DrainedPayloads(Inserted(r.reassembly, k, payload), log);
      }
      ReadyDecodes(cx, r, log, writes, out, pushed.state, pushed.ready);
    }
  }

  /** A finish that succeeds has checked the length and the digest of all the output. */
  lemma FinishMatches(cx: Context, d: Decoder, consumed: bytes, out: bytes, writes: seq<Write>)
    requires Decodes(cx, d, consumed, out)
    ensures var r := DecoderFinish(cx, d, EndOf(cx, writes));
            r.Ok? ==> Matches(cx, writes, out + r.value) && out + r.value == cx.codec.flushed(consumed)
  {
    var before, after := cx.codec.decoded(consumed), cx.codec.flushed(consumed);
    if before <= after {
      assert before + after[|before|..] == after;
    }
  }

  /** An attempt to finish with a true end record. */
  lemma FinishDeciphered(cx: Context, r: Receiver, log: seq<Item>, writes: seq<Write>, before: bytes, chunks: seq<bytes>)
    requires Deciphered(cx, r, log, writes, before + Concat(chunks)) && !r.completed && Output(cx, log, before)
    requires r.pendingEnd.Some? ==> r.pendingEnd.value.1 == EndOf(cx, writes)
    ensures var p := TryFinish(cx, r, chunks);
            && Deciphered(cx, p.state, log, writes, Delivered(before, p)) && !Breaks(p)
            && (p.state.completed ==> r.pendingEnd.Some?)
  {
    if r.pendingEnd.Some? && DataComplete(r.window, r.pendingEnd.value.0) && r.decoder.Some? {
      var out, consumed := before + Concat(chunks), Payloads(log[..r.reassembly.next]);
      FinishMatches(cx, r.decoder.value, consumed, out, writes);
      var trailing := DecoderFinish(cx, r.decoder.value, EndOf(cx, writes));
      if trailing.Ok? {
        NonEmptyLast(before, chunks, trailing.value);
        assert OutputAt(cx, log, r.reassembly.next, out + trailing.value);
      }
    }
  }

  /** The receiver against the log, with true end records. */
  ghost predicate Deciphers(cx: Context, r: Receiver, log: seq<Item>, writes: seq<Write>, out: bytes) {
    && Deciphered(cx, r, log, writes, out) && (r.completed ==> r.pendingEnd.Some?)
    && (r.pendingEnd.Some? ==> r.pendingEnd.value.1 == EndOf(cx, writes))
  }

  lemma DataDeciphers(cx: Context, r: Receiver, log: seq<Item>, writes: seq<Write>, out: bytes, k: nat, payload: bytes)
    requires ReassemblyOf(r.reassembly, log) && k < |log| && log[k] == Data(payload)
    requires Deciphers(cx, r, log, writes, out) && !r.completed
    ensures var p := ThenFinish(cx, ReceiveData(cx, r, k, payload));
            Breaks(p) || Deciphers(cx, p.state, log, writes, Delivered(out, p))
  {
    DataDeciphered(cx, r, log, writes, out, k, payload);
    DecipheredOutput(cx, r, log, writes, out);
    var p := ReceiveData(cx, r, k, payload);
    if p.error == None {
      FinishDeciphered(cx, p.state, log, writes, out, p.chunks);
    }
  }

  lemma EndDeciphers(cx: Context, r: Receiver, log: seq<Item>, writes: seq<Write>, out: bytes, k: nat)
    requires Deciphers(cx, r, log, writes, out) && !r.completed
    ensures var p := TryFinish(cx, r.(pendingEnd := Some((k, EndOf(cx, writes)))), []);
            !Breaks(p) && Deciphers(cx, p.state, log, writes, Delivered(out, p))
  {
    DecipheredOutput(cx, r, log, writes, out);
    assert out + Concat<u8>([]) == out;
    var ended := r.(pendingEnd := Some((k, EndOf(cx, writes))));
    assert Deciphered(cx, ended, log, writes, out);
    FinishDeciphered(cx, ended, log, writes, out, []);
  }

  predicate BreaksOff(r: Received) {
    r.result.Err? && r.result.error.StreamFailure? && r.state.decoder.Some?
  }

  function OutAfter(out: bytes, result: Result<ReceiveOutput, EngineError>): bytes {
    if result.Ok? then out + Concat(result.value.logicalChunks) else out
  }

  lemma ItemDeciphers(cx: Context, r: Receiver, log: seq<Item>, writes: seq<Write>, out: bytes, k: nat)
    requires ReassemblyOf(r.reassembly, log) && TrueEnds(cx, log, writes) && k < |log|
    requires Deciphers(cx, r, log, writes, out)
    ensures var t := ReceiveItem(cx, r, k, log[k]);
            BreaksOff(t) || Deciphers(cx, t.state, log, writes, OutAfter(out, t.result))
  {
    assert out + Concat<u8>([]) == out;
    if !r.completed {
      match log[k]
      case Data(payload) =>
        if k !in r.window.received {
          DataDeciphers(cx, r, log, writes, out, k, payload);
        }
      case End(end) =>
        if !(r.pendingEnd.Some? && r.pendingEnd.value != (k, end)) {
          EndDeciphers(cx, r, log, writes, out, k);
        }
    }
  }

  // ---- Steps ----

  /** What every step of the source keeps: until a decoder fails, the output is what the numbered items decode to, and
      what a completed receiver has delivered passed the checks against what was pushed. */
  ghost predicate Traced(cx: Context, w: World) {
    && Secured(cx, w) && EndsTrue(cx, w.s, w.writes)
    && (!w.broken ==> Deciphers(cx, w.r, w.s.log, w.writes, w.out))
    && (w.r.pendingEnd.Some? ==> w.s.encoder == None)
  }

  lemma ReceiverOutput(cx: Context, w: World, f: bytes)
    ensures var t, u := Receive(cx, w.r, f), ReceiverStep(cx, w, f);
            && u.out == OutAfter(w.out, t.result) && u.broken == (w.broken || BreaksOff(t)) && u.writes == w.writes
  {
  }

  lemma EndLogged(cx: Context, r: Receiver, log: seq<Item>, k: nat)
    requires k < |log| && r.pendingEnd == None && ReceiveItem(cx, r, k, log[k]).state.pendingEnd.Some?
    ensures !OnlyData(log)
  {
    assert log[k].End?;
  }

  lemma DeliverTraced(cx: Context, w: World, f: bytes)
    requires Honest(cx) && Traced(cx, w) && f in w.frames
    ensures Traced(cx, ReceiverStep(cx, w, f))
  {
    DeliverSecured(cx, w, f);
    ReceiverStepIs(cx, w, f);
    ReceiverOutput(cx, w, f);
    var k :| WireForm(cx, w.s.log, k, f);
    ReceiveWire(cx, w.r, w.s.log, k, f);
    var t := Receive(cx, w.r, f);
    if w.r.pendingEnd == None && t.state.pendingEnd.Some? {
      EndLogged(cx, w.r, w.s.log, k);
    }
    if !w.broken {
      ItemDeciphers(cx, w.r, w.s.log, w.writes, w.out, k);
    }
  }

  lemma DeciphersGrows(cx: Context, r: Receiver, log: seq<Item>, log': seq<Item>, writes: seq<Write>, writes': seq<Write>,
                       out: bytes)
    requires Deciphers(cx, r, log, writes, out) && log <= log' && (r.pendingEnd.Some? ==> writes' == writes)
    ensures Deciphers(cx, r, log', writes', out)
  {
    match r.decoder
    case Some(_) => assert log'[..r.reassembly.next] == log[..r.reassembly.next];
    case None =>
      var m: nat :| OutputAt(cx, log, m, out);
      assert log'[..m] == log[..m];
      assert OutputAt(cx, log', m, out);
  }

  lemma SenderStepTraced(cx: Context, w: World, a: Action)
    requires Traced(cx, w) && !a.DoDeliver? && !a.DoEmitAck?
    ensures Traced(cx, SenderStep(cx, w, a))
  {
    SenderStepSecured(cx, w, a);
    SenderAfterOk(cx, w, a);
    SenderAfterEndsTrue(cx, w, a);
    if w.s.encoder == None {
      StaysFinished(cx, w, a);
    }
    if !w.broken {
      var s := SenderAfter(cx, w, a);
      DeciphersGrows(cx, w.r, w.s.log, s.log, w.writes, History(s, w.writes), w.out);
    }
  }

  lemma StepTraced(cx: Context, w: World, a: Action)
    requires Honest(cx) && Traced(cx, w)
    ensures Traced(cx, Step(cx, w, a))
  {
    if Possible(w, a) {
      match a
      case DoDeliver(f) => DeliverTraced(cx, w, f);
      case DoEmitAck => EmitAckSecured(cx, w);
      case _ => SenderStepTraced(cx, w, a);
    }
  }

  lemma InitialTraced(cx: Context, l: Limits)
    requires Honest(cx)
    ensures Traced(cx, Initial(l))
  {
    InitialSecured(cx, l);
    assert Initial(l).s.log[..0] == [];
  }

  lemma RunTraced(cx: Context, l: Limits, run: Run, n: nat)
    requires Honest(cx) && IsFreeRun(cx, run, Initial(l)) && n < |run.worlds|
    ensures Traced(cx, run.worlds[n])
  {
    var keeps := (i: nat, w: World) => Traced(cx, w);
    forall i | 0 <= i < |run.actions| && keeps(i, run.worlds[i])
      ensures keeps(i + 1, Step(cx, run.worlds[i], run.actions[i]))
    {
      StepTraced(cx, run.worlds[i], run.actions[i]);
    }
    InitialTraced(cx, l);
    FreeRunKeeps(cx, run, Initial(l), n, keeps);
  }

  // ---- What callers that carry on can rely on ----

  lemma UncompressedOutput(cx: Context, log: seq<Item>, out: bytes)
    requires cx.codec == NO_COMPRESSION && Output(cx, log, out)
    ensures out <= Payloads(log)
  {
    var m: nat :| OutputAt(cx, log, m, out);
    PayloadsPrefix(log, m);
  }

  /** On every run of the source, with any callers, until a decoder fails: the output is what some first part of the
      numbered items decodes to, everything contiguous while the decoder lives, and without compression a prefix of the
      numbered payloads. */
  lemma OutputIsNumbered(cx: Context, l: Limits, run: Run, n: nat)
    requires Honest(cx) && IsFreeRun(cx, run, Initial(l)) && n < |run.worlds| && !run.worlds[n].broken
    ensures var w := run.worlds[n];
            && Output(cx, w.s.log, w.out)
            && (w.r.decoder.Some? ==> w.r.reassembly.next <= |w.s.log|
                                      && w.out == cx.codec.decoded(Payloads(w.s.log[..w.r.reassembly.next])))
            && (cx.codec == NO_COMPRESSION ==> w.out <= Payloads(w.s.log))
  {
    RunTraced(cx, l, run, n);
    var w := run.worlds[n];
    DecipheredOutput(cx, w.r, w.s.log, w.writes, w.out);
    if cx.codec == NO_COMPRESSION {
      UncompressedOutput(cx, w.s.log, w.out);
    }
  }

  /** On every run of the source, with any callers, until a decoder fails: a completed receiver has delivered bytes of the
      length and the digest of all that was pushed, after the input was finished. */
  lemma CompletionIsVerified(cx: Context, l: Limits, run: Run, n: nat)
    requires Honest(cx) && IsFreeRun(cx, run, Initial(l)) && n < |run.worlds| && !run.worlds[n].broken
    ensures var w := run.worlds[n]; w.r.completed ==> Matches(cx, w.writes, w.out) && w.s.encoder == None
  {
    RunTraced(cx, l, run, n);
  }

  lemma EndRecorded(cx: Context, w: World) returns (e: nat)
    requires Traced(cx, w) && SenderComplete(w.s) && w.s.nextSequence < U32_MAX
    ensures e < |w.s.log| && w.s.log[e].End? && Seen(w.r.window, e)
  {
    e :| e < |w.s.log| && w.s.log[e].End?;
    AllSeen(w.s, w.r.window, e);
  }

  /** What has been recorded before completion is data. */
  lemma RecordedIsData(r: Receiver, log: seq<Item>, e: nat)
    requires Recorder(r, log) && Paired(r) && !r.completed && e < |log| && Seen(r.window, e)
    ensures log[e].Data?
  {
    FrontData(log, r.reassembly.next);
  }

  /** On every run of the source without a failed receive, with any callers: when the sender reports completion and has
      not used up its sequence numbers, the receiver is complete, and what it delivered has the length and the digest of
      all that was pushed. */
  lemma SenderCompleteIsVerified(cx: Context, l: Limits, run: Run, n: nat)
    requires Honest(cx) && IsFreeRun(cx, run, Initial(l)) && n < |run.worlds|
    requires var w := run.worlds[n]; w.clean && SenderComplete(w.s) && w.s.nextSequence < U32_MAX
    ensures var w := run.worlds[n]; w.r.completed && Matches(cx, w.writes, w.out)
  {
    RunTraced(cx, l, run, n);
    var w := run.worlds[n];
    var e := EndRecorded(cx, w);
    if !w.r.completed {
      RecordedIsData(w.r, w.s.log, e);
    }
  }
}
