/** What holds at every point of every run: the window is kept full, the receiver's two views agree, completion is final. */
module Always {
  import opened Prelude
  import opened Wire
  import opened Core
  import opened Stream
  import opened Sender
  import opened SenderInvariant
  import opened SenderFlow
  import opened Receiver
  import opened ReceiverInvariant
  import opened Coupling
  import opened Protocol
  import opened Delivery
  import opened Budget
  import opened Heeding
  import opened Loss

  // ---- The sender's window is kept full ----

  /** A failure of queueing or launching. Every other error refuses the call before the queue or the window is touched. */
  predicate FailsMidway(error: Option<EngineError>) {
    match error
    case Some(PendingLimit(_, _)) => true
    case Some(SequenceExhausted) => true
    case Some(StreamFailure(cause)) => cause.WireFailure?
    case _ => false
  }

  lemma {:induction false} PumpFailsMidway(cx: Context, s: Sender)
    ensures Pump(cx, s).error.Some? ==> FailsMidway(Pump(cx, s).error)
    decreases |s.pending|
  {
    if |s.inFlight| < EffectiveWindow(s) && s.pending != [] {
      var one := PumpOne(cx, s);
      if one.error == None {
        PumpFailsMidway(cx, one.state);
      }
    }
  }

  lemma SaturatedFrom(s: Sender, t: Sender)
    requires Saturated(s) && t.pending == s.pending && |t.inFlight| == |s.inFlight| && EffectiveWindow(t) == EffectiveWindow(s)
    ensures Saturated(t)
  {
  }

  /** What a push refuses before the queue leaves the queue alone. */
  lemma RefusedPush(cx: Context, s: Sender, logical: bytes, flush: bool)
    requires var o := Loaded(cx, s, logical, flush); o.error.Some? && !FailsMidway(o.error)
    ensures var t := Loaded(cx, s, logical, flush).state; t == s.(encoder := t.encoder)
  {
    if !s.inputFinished && |logical| <= s.target && s.encoder.Some? {
      var (writes, encoded) := EncoderPush(cx, s.encoder.value, logical, flush);
      var s' := s.(encoder := Some(writes));
      if encoded.Ok? {
        QueueCompressedFlow(s', encoded.value);
        FlushBufferFlow(QueueCompressed(s', encoded.value).state);
      }
    }
  }

  lemma PushSaturates(cx: Context, s: Sender, logical: bytes, flush: bool)
    requires SenderOk(cx, s) && Saturated(s) && !FailsMidway(Push(cx, s, logical, flush).error)
    ensures Saturated(Push(cx, s, logical, flush).state)
  {
    PushOk(cx, s, logical, flush);
    var queued := Loaded(cx, s, logical, flush);
    if queued.error.Some? {
      RefusedPush(cx, s, logical, flush);
    } else {
      PumpFailsMidway(cx, queued.state);
    }
  }

  lemma FinishSaturates(cx: Context, s: Sender)
    requires SenderOk(cx, s) && Saturated(s) && !FailsMidway(FinishInput(cx, s).error)
    ensures Saturated(FinishInput(cx, s).state)
  {
    FinishInputOk(cx, s);
    if !s.inputFinished && s.encoder.Some? {
      LoadedEndErrors(cx, s);
      PumpFailsMidway(cx, LoadedEnd(cx, s).state);
    }
  }

  lemma SetWindowSaturates(cx: Context, s: Sender, n: nat)
    requires SenderOk(cx, s) && Saturated(s) && !FailsMidway(SetPeerWindow(cx, s, n).error)
    ensures Saturated(SetPeerWindow(cx, s, n).state)
  {
    SetPeerWindowOk(cx, s, n);
    PumpFailsMidway(cx, s.(peerWindow := n));
  }

  lemma AckSaturates(cx: Context, s: Sender, ack: Ack)
    requires SenderOk(cx, s) && Saturated(s) && !FailsMidway(Acknowledge(cx, s, ack).error)
    ensures Saturated(Acknowledge(cx, s, ack).state)
  {
    AcknowledgeOk(cx, s, ack);
    PumpFailsMidway(cx, AfterRelease(s, ack));
  }

  lemma DispatchSaturates(cx: Context, s: Sender, nowMs: nat, policy: RetryPolicy)
    requires SenderOk(cx, s) && Saturated(s)
    ensures Saturated(TakeSendable(s, nowMs, policy).0)
  {
    TakeSendableOk(cx, s, nowMs, policy);
    var t := TakeSendable(s, nowMs, policy).0;
    assert t.inFlight.Keys == s.inFlight.Keys;
    assert |t.inFlight| == |t.inFlight.Keys| == |s.inFlight.Keys| == |s.inFlight|;
    SaturatedFrom(s, t);
  }

  lemma CallSaturates(cx: Context, w: World, a: Action)
    requires SenderOk(cx, w.s) && Saturated(w.s) && !FailsMidway(SenderCall(cx, w, a).error)
    ensures Saturated(SenderAfter(cx, w, a))
  {
    match a
    case DoPush(logical, flush) => PushSaturates(cx, w.s, logical, flush);
    case DoFinish => FinishSaturates(cx, w.s);
    case DoSetWindow(n) => SetWindowSaturates(cx, w.s, n);
    case DoDispatch(nowMs, policy) => DispatchSaturates(cx, w.s, nowMs, policy);
    case DoAck(i) => if i < |w.acks| { AckSaturates(cx, w.s, w.acks[i]); }
    case _ =>
  }

  lemma StepSenderIs(cx: Context, w: World, a: Action)
    ensures Step(cx, w, a).s == w.s || Step(cx, w, a).s == SenderAfter(cx, w, a)
  {
  }

  ghost predicate Filled(cx: Context, s: Sender) {
    SenderOk(cx, s) && Saturated(s)
  }

  lemma StepSaturates(cx: Context, w: World, a: Action)
    requires Filled(cx, w.s) && !FailsMidway(SenderCall(cx, w, a).error)
    ensures Filled(cx, Step(cx, w, a).s)
  {
    CallSaturates(cx, w, a);
    SenderAfterOk(cx, w, a);
    StepSenderIs(cx, w, a);
  }

  /** No call before the `n`-th failed while queueing or launching. */
  ghost predicate NoneFailsMidway(cx: Context, run: Run, n: nat)
    requires n <= |run.actions| < |run.worlds|
  {
    forall i {:trigger run.actions[i]} | 0 <= i < n :: !FailsMidway(SenderCall(cx, run.worlds[i], run.actions[i]).error)
  }

  lemma FilledIs(cx: Context, n: nat, w: World, keeps: (nat, World) -> bool)
    requires keeps == ((i: nat, w: World) => Filled(cx, w.s)) && keeps(n, w)
    ensures Saturated(w.s)
  {
  }

  lemma FilledUntil(cx: Context, run: Run, first: World, n: nat)
    requires IsFreeRun(cx, run, first) && Filled(cx, first.s) && n == |run.actions| && NoneFailsMidway(cx, run, n)
    ensures Saturated(run.worlds[n].s)
  {
    var keeps := (i: nat, w: World) => Filled(cx, w.s);
    forall i | 0 <= i < |run.actions| && keeps(i, run.worlds[i])
      ensures keeps(i + 1, Step(cx, run.worlds[i], run.actions[i]))
    {
      StepSaturates(cx, run.worlds[i], run.actions[i]);
    }
    FreeRunKeeps(cx, run, first, n, keeps);
    FilledIs(cx, n, run.worlds[n], keeps);
  }

  lemma PrefixOfFreeRun(cx: Context, run: Run, first: World, n: nat)
    requires IsFreeRun(cx, run, first) && n <= |run.actions|
    ensures IsFreeRun(cx, Run(run.worlds[..n + 1], run.actions[..n]), first)
  {
    var part := Run(run.worlds[..n + 1], run.actions[..n]);
    forall i | 0 <= i < n
      ensures part.worlds[i + 1] == Step(cx, part.worlds[i], part.actions[i])
    {
      assert part.actions[i] == run.actions[i];
    }
  }

  lemma PrefixFailsNot(cx: Context, run: Run, n: nat)
    requires n <= |run.actions| < |run.worlds| && NoneFailsMidway(cx, run, n)
    ensures NoneFailsMidway(cx, Run(run.worlds[..n + 1], run.actions[..n]), n)
  {
    forall i | 0 <= i < n
      ensures !FailsMidway(SenderCall(cx, run.worlds[..n + 1][i], run.actions[..n][i]).error)
    {
      assert run.actions[..n][i] == run.actions[i];
    }
  }

  /** At every point of every run of the source, until a call fails while queueing or launching, nothing waits while the
      window has room. */
  lemma WindowKeptFull(cx: Context, l: Limits, run: Run, n: nat)
    requires IsFreeRun(cx, run, Initial(l)) && n <= |run.actions| && NoneFailsMidway(cx, run, n)
    ensures Saturated(run.worlds[n].s)
  {
    PrefixOfFreeRun(cx, run, Initial(l), n);
    PrefixFailsNot(cx, run, n);
    InitialOk(cx, l.frameLimit, l.reservedMetadata, l.windowFrames, l.maxPendingBytes);
    FilledUntil(cx, Run(run.worlds[..n + 1], run.actions[..n]), Initial(l), n);
  }

  // ---- Refused calls ----

  /** An acknowledgement of the other direction, or one that offers a window no bitmap can cover, is refused and changes
      nothing; no other is refused for these reasons. */
  lemma AckRefusedIff(cx: Context, s: Sender, ack: Ack)
    ensures var o := Acknowledge(cx, s, ack);
            && (o.error == Some(DirectionMismatch) <==> ack.direction != cx.direction)
            && (o.error == Some(InvalidWindow(ack.receiveWindow))
                <==> ack.direction == cx.direction && ack.receiveWindow > 64)
            && (ack.direction != cx.direction || ack.receiveWindow > 64 ==> o.state == s)
  {
    PumpFailsMidway(cx, AfterRelease(s, ack));
  }

  lemma WindowRefusedIff(cx: Context, s: Sender, n: nat)
    ensures var o := SetPeerWindow(cx, s, n);
            (o.error == Some(InvalidWindow(n)) <==> n > 64) && (n > 64 ==> o.state == s)
  {
    PumpFailsMidway(cx, s.(peerWindow := n));
  }

  lemma QueuedFailsOnLimit(cx: Context, s: Sender, logical: bytes, flush: bool)
    requires Accepts(s, logical) && Lawful(cx.codec) && Loaded(cx, s, logical, flush).error.Some?
    ensures Loaded(cx, s, logical, flush).error.value.PendingLimit?
  {
    AcceptedPush(cx, s, logical, flush);
    var (writes, r) := EncoderPush(cx, s.encoder.value, logical, flush);
    var s' := s.(encoder := Some(writes));
    QueueCompressedFlow(s', r.value);
    FlushBufferFlow(QueueCompressed(s', r.value).state);
  }

  /** A push is refused, and changes nothing, exactly when the input is finished, the piece is longer than one payload, or
      the stream would become longer than its length field can say. */
  lemma PushRefusedIff(cx: Context, s: Sender, logical: bytes, flush: bool)
    requires Lawful(cx.codec)
    ensures var o := Push(cx, s, logical, flush);
            && (o.error == Some(AlreadyFinished) <==> s.inputFinished || (|logical| <= s.target && s.encoder == None))
            && (o.error == Some(InputChunkTooLarge(|logical|, s.target)) <==> !s.inputFinished && |logical| > s.target)
            && (o.error.Some? && o.error.value.StreamFailure? && o.error.value.cause.LogicalLimit?
                <==> !s.inputFinished && |logical| <= s.target && s.encoder.Some?
                     && |Input(s.encoder.value)| + |logical| > U64_MAX)
            && (!Accepts(s, logical) ==> o.state == s && o.error.Some?)
  {
    if Accepts(s, logical) {
      if Loaded(cx, s, logical, flush).error.Some? {
        QueuedFailsOnLimit(cx, s, logical, flush);
      } else {
        PumpFailsMidway(cx, Loaded(cx, s, logical, flush).state);
      }
    }
  }

  /** Finishing again is harmless; finishing is refused only after a finish that failed. */
  lemma FinishRefusedIff(cx: Context, s: Sender)
    ensures var o := FinishInput(cx, s);
            && (s.inputFinished ==> o == Outcome(s, None))
            && (o.error == Some(AlreadyFinished) <==> !s.inputFinished && s.encoder == None)
            && (o.error == Some(AlreadyFinished) ==> o.state == s)
            && (!s.inputFinished && s.encoder.Some? ==> o.state.encoder == None)
  {
    if !s.inputFinished && s.encoder.Some? {
      LoadedEndErrors(cx, s);
      LoadedEndEncoder(cx, s);
      PumpFailsMidway(cx, LoadedEnd(cx, s).state);
      PumpKeepsEncoder(cx, LoadedEnd(cx, s).state);
    }
  }

  // ---- The receiver's two views ----

  /** Sequences recorded above the cursor. */
  function Ahead(w: Window): set<nat> {
    set k | k in w.received && w.next <= k
  }

  /** The window and the reassembler stand at the same gap and hold the same sequences above it; once the stream is
      complete, the window stands past the end record and nothing is held. */
  ghost predicate Aligned(r: Receiver) {
    if r.completed then
      r.window.next == r.reassembly.next + 1 && Ahead(r.window) == {} && r.reassembly.pending == map[]
    else
      r.window.next == r.reassembly.next && Ahead(r.window) == r.reassembly.pending.Keys
  }

  lemma CoupledAligned(cx: Context, r: Receiver, log: seq<Item>, writes: seq<Write>, out: bytes)
    requires Safe(cx, r, log, writes, out) && HonestLog(cx, log, writes) && Coupled(r)
    ensures Aligned(r)
  {
    if r.completed {
      assert r.reassembly.next == |log| - 1;
      assert forall k | k in r.reassembly.pending :: k == |log| - 1;
    }
  }

  /** At every point of every run without a failed receive, the receiver's two views agree. */
  lemma AlwaysAligned(cx: Context, l: Limits, run: Run, n: nat)
    requires Honest(cx) && IsRun(cx, run, Initial(l)) && n < |run.worlds| && run.worlds[n].clean
    ensures Aligned(run.worlds[n].r)
  {
    InitialKept(cx, l);
    RunKept(cx, run, Initial(l), n);
    var w := run.worlds[n];
    LogIsHonest(cx, w.s, w.writes, w.lost);
    CoupledAligned(cx, w.r, w.s.log, w.writes, w.out);
  }

  // ---- Completion ----

  /** A data or end frame of this stream. */
  predicate Addressed(cx: Context, f: bytes) {
    match DecodeFrame(cx, f)
    case Ok(DataFrame(transactionId, direction, _, _)) => Validate(cx, transactionId, direction) == None
    case Ok(EndFrame(transactionId, _, end)) => Validate(cx, transactionId, end.direction) == None
    case _ => false
  }

  /** After completion any byte string at all leaves the receiver as it is; a data or end frame of this stream, and nothing
      else, is answered, with the same acknowledgement and no output. */
  lemma SilentAfterCompletion(cx: Context, r: Receiver, f: bytes)
    requires r.completed
    ensures var Received(r', result) := Receive(cx, r, f);
            r' == r && if Addressed(cx, f) then result == Ok(ReceiveOutput([], AckOf(cx, r), true)) else result.Err?
  {
  }

  ghost predicate Finished(w: World, r: Receiver, out: bytes) {
    w.r == r && w.out == out
  }

  lemma StepFinished(cx: Context, w: World, a: Action)
    requires w.r.completed
    ensures Finished(Step(cx, w, a), w.r, w.out)
  {
    match a
    case DoDeliver(f) =>
      SilentAfterCompletion(cx, w.r, f);
      assert w.out + [] == w.out;
    case _ =>
  }

  /** On every run of the source completion is final: whatever arrives later, the receiver's state and
      what was delivered stay as they are. */
  lemma {:induction false} CompletionIsFinal(cx: Context, run: Run, first: World, n: nat, m: nat)
    requires IsFreeRun(cx, run, first) && n <= m < |run.worlds| && run.worlds[n].r.completed
    ensures run.worlds[m].r == run.worlds[n].r && run.worlds[m].out == run.worlds[n].out
  {
    if n < m {
      CompletionIsFinal(cx, run, first, n, m - 1);
      assert run.worlds[m] == Step(cx, run.worlds[m - 1], run.actions[m - 1]);
      StepFinished(cx, run.worlds[m - 1], run.actions[m - 1]);
    }
  }
}
