/** What a caller has to look at before each call so that everything delivered is a prefix of everything pushed. */
module Heeding {
  import opened Prelude
  import opened Wire
  import opened Core
  import opened Stream
  import opened Sender
  import opened SenderInvariant
  import opened SenderFlow
  import opened Receiver
  import opened ReceiverInvariant
  import opened Protocol
  import opened Loss
  import opened Edges

  // ---- Dropped bytes ----

  lemma SenderStepLoses(cx: Context, w: World, a: Action)
    requires Honest(cx) && SenderOk(cx, w.s)
    ensures Lost(LoadedBy(cx, w.s, a)) <==> Exceeds(cx, w.s, a)
  {
    match a
    case DoPush(logical, flush) => PushLosesIff(cx, w.s, logical, flush);
    case DoFinish => if !w.s.inputFinished && w.s.encoder.Some? { FinishLosesIff(cx, w.s); }
    case _ =>
  }

  /** A step of any caller keeps the sender's invariant, and drops something exactly when the budget before it says so. */
  lemma StepLoses(cx: Context, w: World, a: Action)
    requires Honest(cx) && SenderOk(cx, w.s)
    ensures SenderOk(cx, Step(cx, w, a).s)
    ensures Step(cx, w, a).lost <==> w.lost || Exceeds(cx, w.s, a)
  {
    SenderAfterOk(cx, w, a);
    SenderStepLoses(cx, w, a);
  }

  /** Some call before the `n`-th had no room in the budget for what it would queue. */
  ghost predicate ExceededBefore(cx: Context, run: Run, n: nat)
    requires n <= |run.actions| < |run.worlds|
  {
    exists i :: 0 <= i < n && Exceeds(cx, run.worlds[i].s, run.actions[i])
  }

  ghost predicate LossKnown(cx: Context, run: Run, i: nat, w: World) {
    i <= |run.actions| < |run.worlds| && SenderOk(cx, w.s) && (w.lost <==> ExceededBefore(cx, run, i))
  }

  lemma LossStep(cx: Context, run: Run, i: nat)
    requires Honest(cx) && i < |run.actions| < |run.worlds| && LossKnown(cx, run, i, run.worlds[i])
    ensures LossKnown(cx, run, i + 1, Step(cx, run.worlds[i], run.actions[i]))
  {
    StepLoses(cx, run.worlds[i], run.actions[i]);
    OneMoreCall(cx, run, i);
  }

  lemma LossKnownIs(cx: Context, run: Run, n: nat, w: World, keeps: (nat, World) -> bool)
    requires keeps == ((i: nat, w: World) => LossKnown(cx, run, i, w)) && keeps(n, w) && n <= |run.actions| < |run.worlds|
    ensures w.lost <==> ExceededBefore(cx, run, n)
  {
  }

  /** On every run of the source, a call has dropped something exactly when some call exceeded the budget. */
  lemma LostIff(cx: Context, l: Limits, run: Run, n: nat)
    requires Honest(cx) && IsFreeRun(cx, run, Initial(l)) && n <= |run.actions|
    ensures run.worlds[n].lost <==> ExceededBefore(cx, run, n)
  {
    var keeps := (i: nat, w: World) => LossKnown(cx, run, i, w);
    forall i | 0 <= i < |run.actions| && keeps(i, run.worlds[i])
      ensures keeps(i + 1, Step(cx, run.worlds[i], run.actions[i]))
    {
      LossStep(cx, run, i);
    }
    InitialOk(cx, l.frameLimit, l.reservedMetadata, l.windowFrames, l.maxPendingBytes);
    FreeRunKeeps(cx, run, Initial(l), n, keeps);
    LossKnownIs(cx, run, n, run.worlds[n], keeps);
  }

  lemma OneMoreCall(cx: Context, run: Run, n: nat)
    requires n < |run.actions| < |run.worlds|
    ensures ExceededBefore(cx, run, n + 1)
       <==> ExceededBefore(cx, run, n) || Exceeds(cx, run.worlds[n].s, run.actions[n])
  {
  }

  // ---- Decoder failures ----

  /** The frame makes more of the stream contiguous than the receiver's output bound allows. */
  predicate ExceedsBound(cx: Context, r: Receiver, f: bytes) {
    match DecodeFrame(cx, f)
    case Ok(DataFrame(transactionId, direction, k, payload)) =>
      && Validate(cx, transactionId, direction) == None && !r.completed && k !in r.window.received && r.decoder.Some?
      && BoundExceeded(cx, r.decoder.value, Reassembled(r.reassembly, k, payload))
    case _ => false
  }

  predicate BoundExceeded(cx: Context, d: Decoder, pushed: Pushed) {
    pushed.Pushed? && pushed.ready != []
    && |cx.codec.decoded(d.consumed + Concat(pushed.ready))| > d.maxLogicalLength
  }

  lemma DataBreaksIff(cx: Context, r: Receiver, log: seq<Item>, writes: seq<Write>, out: bytes, k: nat, payload: bytes)
    requires HonestLog(cx, log, writes) && Safe(cx, r, log, writes, out) && r.decoder.Some? && !r.completed
    requires k < |log| && log[k] == Data(payload)
    ensures Breaks(ReceiveData(cx, r, k, payload))
       <==> BoundExceeded(cx, r.decoder.value, Reassembled(r.reassembly, k, payload))
  {
    var pushed := Reassembled(r.reassembly, k, payload);
    if pushed.Pushed? && pushed.ready != [] {
      BreaksExactlyAtTheBound(cx, r, log, writes, out, k, payload);
      InsertedOf(r.reassembly, log, k, payload);
      DrainedPayloads(Inserted(r.reassembly, k, payload), log);
    }
  }

  /** What one item does to the decoder. */
  lemma ItemBreaksIff(cx: Context, r: Receiver, log: seq<Item>, writes: seq<Write>, out: bytes, k: nat)
    requires HonestLog(cx, log, writes) && Safe(cx, r, log, writes, out) && k < |log|
    ensures var Received(r', result) := ReceiveItem(cx, r, k, log[k]);
            (result.Err? && result.error.StreamFailure? && r'.decoder.Some?)
            <==> (log[k].Data? && !r.completed && k !in r.window.received && r.decoder.Some?
                  && BoundExceeded(cx, r.decoder.value, Reassembled(r.reassembly, k, log[k].payload)))
  {
    match log[k]
    case Data(payload) =>
      if !r.completed && k !in r.window.received {
        var p := ReceiveData(cx, r, k, payload);
        FinishBreaksNothing(cx, p.state, p.chunks);
        ReceiveDataSafe(cx, r, log, writes, out, k, payload);
        if r.decoder.Some? {
          DataBreaksIff(cx, r, log, writes, out, k, payload);
        }
      }
    case End(end) =>
      FinishBreaksNothing(cx, r.(pendingEnd := Some((k, end))), []);
  }

  lemma FinishBreaksNothing(cx: Context, r: Receiver, chunks: seq<bytes>)
    ensures !Breaks(TryFinish(cx, r, chunks))
  {
  }

  lemma ExceedsBoundIs(cx: Context, r: Receiver, log: seq<Item>, writes: seq<Write>, k: nat, f: bytes)
    requires Honest(cx) && HonestLog(cx, log, writes) && WireForm(cx, log, k, f)
    ensures ExceedsBound(cx, r, f)
       <==> (log[k].Data? && !r.completed && k !in r.window.received && r.decoder.Some?
             && BoundExceeded(cx, r.decoder.value, Reassembled(r.reassembly, k, log[k].payload)))
  {
    DecodeEncodedItem(cx, k, log[k]);
  }

  predicate BreaksOn(received: Received) {
    received.result.Err? && received.result.error.StreamFailure? && received.state.decoder.Some?
  }

  lemma ReceiveBreaksIff(cx: Context, w: World, k: nat, f: bytes)
    requires Honest(cx) && Inv(cx, w) && !w.broken && WireForm(cx, w.s.log, k, f)
    ensures BreaksOn(Receive(cx, w.r, f)) <==> ExceedsBound(cx, w.r, f)
  {
    LogIsHonest(cx, w.s, w.writes, w.lost);
    ReceiveIs(cx, w.r, w.s.log, w.writes, k, f);
    ItemBreaksIff(cx, w.r, w.s.log, w.writes, w.out, k);
    ExceedsBoundIs(cx, w.r, w.s.log, w.writes, k, f);
  }

  lemma BrokenIs(cx: Context, w: World, f: bytes)
    ensures ReceiverStep(cx, w, f).broken <==> w.broken || BreaksOn(Receive(cx, w.r, f))
  {
  }

  /** A delivery breaks the decoder exactly when it exceeds the bound. */
  lemma DeliverBreaksIff(cx: Context, w: World, f: bytes)
    requires Honest(cx) && Inv(cx, w) && !w.broken && f in w.frames
    ensures ReceiverStep(cx, w, f).broken <==> ExceedsBound(cx, w.r, f)
  {
    var k: nat :| WireForm(cx, w.s.log, k, f);
    ReceiveBreaksIff(cx, w, k, f);
    BrokenIs(cx, w, f);
  }

  /** A delivery that exceeds the bound. */
  predicate BoundMet(cx: Context, w: World, a: Action) {
    a.DoDeliver? && a.frame in w.frames && ExceedsBound(cx, w.r, a.frame)
  }

  ghost predicate BoundMetBefore(cx: Context, run: Run, n: nat)
    requires n <= |run.actions| < |run.worlds|
  {
    exists i :: 0 <= i < n && BoundMet(cx, run.worlds[i], run.actions[i])
  }

  lemma OneMoreDelivery(cx: Context, run: Run, n: nat)
    requires n < |run.actions| < |run.worlds|
    ensures BoundMetBefore(cx, run, n + 1)
       <==> BoundMetBefore(cx, run, n) || BoundMet(cx, run.worlds[n], run.actions[n])
  {
  }

  lemma StepBreaks(cx: Context, w: World, a: Action)
    requires Honest(cx) && Inv(cx, w) && !GoesOn(w, a)
    ensures Step(cx, w, a).broken <==> w.broken || BoundMet(cx, w, a)
  {
    if a.DoDeliver? && a.frame in w.frames {
      DeliverBreaksIff(cx, w, a.frame);
    }
  }

  lemma StepInv(cx: Context, w: World, a: Action)
    requires Honest(cx) && Inv(cx, w) && !GoesOn(w, a)
    ensures Inv(cx, Step(cx, w, a))
  {
    NextInv(cx, w, a);
  }

  ghost predicate BreakKnown(cx: Context, run: Run, n: nat, i: nat, w: World) {
    i <= n <= |run.actions| < |run.worlds| ==> Inv(cx, w) && (w.broken <==> BoundMetBefore(cx, run, i))
  }

  lemma BreakStep(cx: Context, run: Run, n: nat, i: nat)
    requires Honest(cx) && i < n <= |run.actions| < |run.worlds| && Heedful(run, n)
    requires BreakKnown(cx, run, n, i, run.worlds[i])
    ensures BreakKnown(cx, run, n, i + 1, Step(cx, run.worlds[i], run.actions[i]))
  {
    StepInv(cx, run.worlds[i], run.actions[i]);
    StepBreaks(cx, run.worlds[i], run.actions[i]);
    OneMoreDelivery(cx, run, i);
  }

  lemma BreakKnownIs(cx: Context, run: Run, n: nat, w: World, keeps: (nat, World) -> bool)
    requires keeps == ((i: nat, w: World) => BreakKnown(cx, run, n, i, w)) && keeps(n, w)
    requires n <= |run.actions| < |run.worlds|
    ensures w.broken <==> BoundMetBefore(cx, run, n)
  {
  }

  lemma InitialBreak(cx: Context, l: Limits, run: Run, n: nat)
    requires Honest(cx)
    ensures BreakKnown(cx, run, n, 0, Initial(l))
  {
    InitialInv(cx, l);
  }

  /** As long as the caller heeds what happened, the decoder has failed exactly when some delivery exceeded the bound. */
  lemma BrokenIff(cx: Context, l: Limits, run: Run, n: nat)
    requires Honest(cx) && IsFreeRun(cx, run, Initial(l)) && n <= |run.actions| && Heedful(run, n)
    ensures run.worlds[n].broken <==> BoundMetBefore(cx, run, n)
  {
    var keeps := (i: nat, w: World) => BreakKnown(cx, run, n, i, w);
    forall i | 0 <= i < |run.actions| && keeps(i, run.worlds[i])
      ensures keeps(i + 1, Step(cx, run.worlds[i], run.actions[i]))
    {
      if i < n {
        BreakStep(cx, run, n, i);
      }
    }
    InitialBreak(cx, l, run, n);
    FreeRunKeeps(cx, run, Initial(l), n, keeps);
    BreakKnownIs(cx, run, n, run.worlds[n], keeps);
  }

  // ---- The condition for every run ----

  /** Nothing is pushed or finished after a call whose input the budget had no room for, and nothing is received after a
      delivery that exceeded the output bound. Every part of it is known before the call it concerns. */
  ghost predicate StopsInTime(cx: Context, run: Run, n: nat)
    requires n <= |run.actions| < |run.worlds|
  {
    forall j {:trigger run.actions[j]} | 0 <= j < n ::
      && (run.actions[j].DoPush? || run.actions[j].DoFinish? ==> !ExceededBefore(cx, run, j))
      && (run.actions[j].DoDeliver? ==> !BoundMetBefore(cx, run, j))
  }

  lemma GoesOnIff(cx: Context, l: Limits, run: Run, j: nat)
    requires Honest(cx) && IsFreeRun(cx, run, Initial(l)) && j < |run.actions| && Heedful(run, j)
    ensures GoesOn(run.worlds[j], run.actions[j])
       <==> ((run.actions[j].DoPush? || run.actions[j].DoFinish?) && ExceededBefore(cx, run, j))
            || (run.actions[j].DoDeliver? && BoundMetBefore(cx, run, j))
  {
    LostIff(cx, l, run, j);
    BrokenIff(cx, l, run, j);
  }

  /** The last action decides alike for both. */
  ghost predicate SameForNext(cx: Context, run: Run, n: nat)
    requires n < |run.actions| < |run.worlds|
  {
    Heedful(run, n) ==>
      (GoesOn(run.worlds[n], run.actions[n])
       <==> ((run.actions[n].DoPush? || run.actions[n].DoFinish?) && ExceededBefore(cx, run, n))
            || (run.actions[n].DoDeliver? && BoundMetBefore(cx, run, n)))
  }

  lemma AllSame(cx: Context, l: Limits, run: Run, n: nat)
    requires Honest(cx) && IsFreeRun(cx, run, Initial(l)) && n < |run.actions|
    ensures SameForNext(cx, run, n)
  {
    if Heedful(run, n) {
      GoesOnIff(cx, l, run, n);
    }
  }

  lemma {:induction false} SameAll(cx: Context, run: Run, n: nat, same: nat -> bool)
    requires n <= |run.actions| < |run.worlds|
    requires forall i: nat | same(i) && i < |run.actions| :: SameForNext(cx, run, i)
    requires forall i: nat | i < n :: same(i)
    ensures Heedful(run, n) <==> StopsInTime(cx, run, n)
  {
    if n > 0 {
      SameAll(cx, run, n - 1, same);
      HeedfulSplits(cx, run, n - 1);
      assert same(n - 1);
    }
  }

  /** Heeding what happened and stopping in time are the same. */
  lemma HeedfulIff(cx: Context, l: Limits, run: Run, n: nat)
    requires Honest(cx) && IsFreeRun(cx, run, Initial(l)) && n <= |run.actions|
    ensures Heedful(run, n) <==> StopsInTime(cx, run, n)
  {
    var same := (i: nat) => i < n;
    forall i: nat | same(i) && i < |run.actions|
      ensures SameForNext(cx, run, i)
    {
      AllSame(cx, l, run, i);
    }
    SameAll(cx, run, n, same);
  }

  lemma HeedfulSplits(cx: Context, run: Run, n: nat)
    requires n < |run.actions| < |run.worlds|
    ensures Heedful(run, n + 1) <==> Heedful(run, n) && !GoesOn(run.worlds[n], run.actions[n])
    ensures StopsInTime(cx, run, n + 1)
       <==> StopsInTime(cx, run, n)
            && (run.actions[n].DoPush? || run.actions[n].DoFinish? ==> !ExceededBefore(cx, run, n))
            && (run.actions[n].DoDeliver? ==> !BoundMetBefore(cx, run, n))
  {
    assert run.actions[n] == run.actions[n];
  }

  /** On every run of the source whose caller stops in time, by conditions it can check before each call, what was delivered
      is a prefix of what was pushed, and completion means exactly all of it. */
  lemma PrefixWhenStoppingInTime(cx: Context, l: Limits, run: Run, n: nat)
    requires Honest(cx) && IsFreeRun(cx, run, Initial(l)) && n <= |run.actions| && StopsInTime(cx, run, n)
    ensures var w := run.worlds[n];
            && w.out <= Input(w.writes)
            && (w.r.completed ==> w.out == Input(w.writes) && w.s.encoder == None)
  {
    HeedfulIff(cx, l, run, n);
    DeliveredPrefixOfPushed(cx, l, run, n);
  }
}
