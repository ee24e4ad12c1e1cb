/** How far apart the repeated transmissions of one frame are. */
module Retry {
  import opened Prelude
  import opened Core
  import opened Stream
  import opened Sender
  import opened SenderInvariant
  import opened Protocol
  import opened Delivery
  import opened Dispatch

  /** Whether an action puts sequence `k` on the network. */
  ghost predicate Sends(w: World, a: Action, k: nat) {
    a.DoDispatch? && exists f :: f in TakeSendable(w.s, a.nowMs, a.policy).1 && f.sequence == k
  }

  /** `times[i]` lists the times at which the first `i` actions of a run put sequence `k` on the network. */
  ghost predicate AreSendTimes(run: Run, k: nat, times: seq<seq<nat>>) {
    && |run.worlds| == |run.actions| + 1 == |times| && times[0] == []
    && forall i {:trigger run.actions[i]} | 0 <= i < |run.actions| ::
         times[i + 1] == times[i] + (if Sends(run.worlds[i], run.actions[i], k) then [run.actions[i].nowMs] else [])
  }

  /** The first `n` delays added up. */
  function DelaySum(p: RetryPolicy, n: nat): nat {
    if n == 0 then 0 else DelaySum(p, n - 1) + DelayMs(p, n - 1)
  }

  /** One policy, and a clock that does not run backwards or past `now`. */
  predicate Clocked(actions: seq<Action>, p: RetryPolicy, now: nat) {
    && (forall i | 0 <= i < |actions| && actions[i].DoDispatch? :: actions[i].policy == p && actions[i].nowMs <= now)
    && (forall i, j | 0 <= i < j < |actions| && actions[i].DoDispatch? && actions[j].DoDispatch? ::
          actions[i].nowMs <= actions[j].nowMs)
  }

  predicate Unsent(f: Retained) {
    f.lastSentMs == None && f.attempts == 0
  }

  /** A refill or a release leaves the old frames alone, and new frames have not been sent. */
  ghost predicate SameOrNew(s: Sender, t: Sender) {
    && s.nextSequence <= t.nextSequence
    && forall k | k in t.inFlight ::
         if k < s.nextSequence then k in s.inFlight && t.inFlight[k] == s.inFlight[k] else Unsent(t.inFlight[k])
  }

  lemma {:induction false} PumpSameOrNew(cx: Context, s: Sender)
    requires forall k | k in s.inFlight :: k < s.nextSequence
    ensures SameOrNew(s, Pump(cx, s).state)
    ensures forall k | k in Pump(cx, s).state.inFlight :: k < Pump(cx, s).state.nextSequence
    decreases |s.pending|
  {
    if |s.inFlight| < EffectiveWindow(s) && s.pending != [] {
      var one := PumpOne(cx, s);
      assert SameOrNew(s, one.state);
      if one.error == None {
        PumpSameOrNew(cx, one.state);
      }
    }
  }

  lemma LoadSameOrNew(cx: Context, s: Sender, a: Action)
    requires forall k | k in s.inFlight :: k < s.nextSequence
    ensures SameOrNew(s, LoadedBy(cx, s, a).state) && SameOrNew(s, Pump(cx, LoadedBy(cx, s, a).state).state)
  {
    LoadedKeeps(cx, s, a);
    PumpSameOrNew(cx, LoadedBy(cx, s, a).state);
  }

  lemma AckSameOrNew(cx: Context, s: Sender, ack: Ack)
    requires SenderOk(cx, s)
    ensures SameOrNew(s, Acknowledge(cx, s, ack).state)
  {
    AfterReleaseIs(cx, s, ack);
    PumpSameOrNew(cx, AfterRelease(s, ack));
  }

  lemma SenderSameOrNew(cx: Context, w: World, a: Action)
    requires SenderOk(cx, w.s) && !a.DoDispatch?
    ensures SameOrNew(w.s, SenderAfter(cx, w, a))
  {
    match a
    case DoPush(_, _) => LoadSameOrNew(cx, w.s, a);
    case DoFinish => LoadSameOrNew(cx, w.s, a);
    case DoSetWindow(n) => PumpSameOrNew(cx, w.s.(peerWindow := n));
    case DoAck(i) => if i < |w.acks| { AckSameOrNew(cx, w.s, w.acks[i]); }
    case _ =>
  }

  lemma StepSameOrNew(cx: Context, w: World, a: Action)
    requires SenderOk(cx, w.s) && !a.DoDispatch?
    ensures SameOrNew(w.s, Step(cx, w, a).s)
  {
    SenderSameOrNew(cx, w, a);
  }

  /** A dispatch sends exactly the frames that are due. */
  lemma SendsIffDue(cx: Context, w: World, a: Action, k: nat)
    requires SenderOk(cx, w.s) && a.DoDispatch?
    ensures Sends(w, a, k) <==> k in w.s.inFlight && Due(w.s.inFlight[k], a.nowMs, a.policy)
  {
    DispatchIs(cx, w.s, a.nowMs, a.policy);
    var (t, out) := TakeSendable(w.s, a.nowMs, a.policy);
    if k in w.s.inFlight && Due(w.s.inFlight[k], a.nowMs, a.policy) {
      assert t.inFlight[k] in out && t.inFlight[k].sequence == k;
    }
  }

  /** What a frame remembers of its transmissions. */
  ghost predicate Remembers(s: Sender, k: nat, times: seq<nat>) {
    && (k >= s.nextSequence ==> times == [])
    && (k in s.inFlight ==>
          && k < s.nextSequence
          && s.inFlight[k].attempts == Min(|times|, U32_MAX)
          && s.inFlight[k].lastSentMs == if times == [] then None else Some(times[|times| - 1]))
  }

  ghost predicate Spaced(times: seq<nat>, p: RetryPolicy) {
    forall i | 0 <= i < |times| - 1 :: times[i] + DelayMs(p, i) <= times[i + 1]
  }

  /** The attempt counter saturates where the delay no longer changes. */
  lemma SaturatedDelay(p: RetryPolicy, n: nat)
    requires n > 0
    ensures DelayMs(p, SaturatingSub(Min(n, U32_MAX), 1)) == DelayMs(p, n - 1)
  {
  }

  lemma SpacedSnoc(f: Retained, times: seq<nat>, now: nat, p: RetryPolicy)
    requires Spaced(times, p) && f.attempts == Min(|times|, U32_MAX) && Due(f, now, p)
    requires f.lastSentMs == if times == [] then None else Some(times[|times| - 1])
    requires forall i | 0 <= i < |times| :: times[i] <= now
    ensures Spaced(times + [now], p)
  {
    if times != [] {
      SaturatedDelay(p, |times|);
    }
  }

  lemma RememberNew(s: Sender, t: Sender, k: nat, times: seq<nat>)
    requires Remembers(s, k, times) && SameOrNew(s, t) && forall j | j in t.inFlight :: j < t.nextSequence
    ensures Remembers(t, k, times)
  {
  }

  /** The transmissions so far are remembered, far enough apart, and not later than `now`. */
  ghost predicate BackedOff(s: Sender, k: nat, times: seq<nat>, p: RetryPolicy, now: nat) {
    Remembers(s, k, times) && Spaced(times, p) && forall i | 0 <= i < |times| :: times[i] <= now
  }

  lemma DispatchedBacksOff(s: Sender, t: Sender, out: seq<Retained>, k: nat, times: seq<nat>, p: RetryPolicy, now: nat,
                           sent: bool)
    requires Dispatched(s.inFlight, now, p, t.inFlight, out) && t == s.(inFlight := t.inFlight)
    requires sent <==> k in s.inFlight && Due(s.inFlight[k], now, p)
    requires BackedOff(s, k, times, p, now)
    ensures BackedOff(t, k, times + (if sent then [now] else []), p, now)
  {
    if sent {
      SpacedSnoc(s.inFlight[k], times, now, p);
    } else {
      assert times + [] == times;
    }
  }

  lemma DispatchBacksOff(cx: Context, w: World, a: Action, k: nat, times: seq<nat>)
    requires SenderOk(cx, w.s) && a.DoDispatch? && BackedOff(w.s, k, times, a.policy, a.nowMs)
    ensures BackedOff(Step(cx, w, a).s, k, times + (if Sends(w, a, k) then [a.nowMs] else []), a.policy, a.nowMs)
  {
    SendsIffDue(cx, w, a, k);
    DispatchIs(cx, w.s, a.nowMs, a.policy);
    var (t, out) := TakeSendable(w.s, a.nowMs, a.policy);
    DispatchedBacksOff(w.s, t, out, k, times, a.policy, a.nowMs, Sends(w, a, k));
  }

  lemma StepOk(cx: Context, w: World, a: Action)
    requires SenderOk(cx, w.s)
    ensures SenderOk(cx, Step(cx, w, a).s)
  {
    SenderAfterOk(cx, w, a);
  }

  lemma OtherRemembers(cx: Context, w: World, a: Action, k: nat, times: seq<nat>)
    requires SenderOk(cx, w.s) && !a.DoDispatch? && Remembers(w.s, k, times)
    ensures Remembers(Step(cx, w, a).s, k, times)
  {
    StepSameOrNew(cx, w, a);
    StepOk(cx, w, a);
    RememberNew(w.s, Step(cx, w, a).s, k, times);
  }

  /** Before action `i`: remembered, spaced, and not later than any dispatch still to come. */
  ghost predicate BackedOffAt(actions: seq<Action>, i: nat, w: World, k: nat, p: RetryPolicy, times: seq<nat>) {
    && Remembers(w.s, k, times) && Spaced(times, p)
    && forall x, j | 0 <= x < |times| && i <= j < |actions| && actions[j].DoDispatch? :: times[x] <= actions[j].nowMs
  }

  lemma StepBackedOffAt(cx: Context, actions: seq<Action>, i: nat, w: World, k: nat, p: RetryPolicy, times: seq<nat>,
                        now: nat)
    requires i < |actions| && Clocked(actions, p, now)
    requires SenderOk(cx, w.s) && BackedOffAt(actions, i, w, k, p, times)
    ensures BackedOffAt(actions, i + 1, Step(cx, w, actions[i]), k, p,
                        times + (if Sends(w, actions[i], k) then [actions[i].nowMs] else []))
  {
    var a := actions[i];
    if a.DoDispatch? {
      DispatchBacksOff(cx, w, a, k, times);
    } else {
      OtherRemembers(cx, w, a, k, times);
      assert times + [] == times;
    }
  }

  /** What holds of the world before action `i`. */
  ghost predicate SendsRemembered(cx: Context, actions: seq<Action>, i: nat, w: World, k: nat, p: RetryPolicy,
                                  times: seq<seq<nat>>)
  {
    i < |times| && SenderOk(cx, w.s) && BackedOffAt(actions, i, w, k, p, times[i])
  }

  lemma StepRemembered(cx: Context, actions: seq<Action>, i: nat, w: World, k: nat, p: RetryPolicy,
                       times: seq<seq<nat>>, now: nat)
    requires i < |actions| && Clocked(actions, p, now) && i + 1 < |times|
    requires SendsRemembered(cx, actions, i, w, k, p, times)
    requires times[i + 1] == times[i] + (if Sends(w, actions[i], k) then [actions[i].nowMs] else [])
    ensures SendsRemembered(cx, actions, i + 1, Step(cx, w, actions[i]), k, p, times)
  {
    StepOk(cx, w, actions[i]);
    StepBackedOffAt(cx, actions, i, w, k, p, times[i], now);
  }

  lemma SendsStep(cx: Context, run: Run, i: nat, k: nat, times: seq<seq<nat>>, p: RetryPolicy, now: nat)
    requires AreSendTimes(run, k, times) && Clocked(run.actions, p, now) && i < |run.actions|
    requires SendsRemembered(cx, run.actions, i, run.worlds[i], k, p, times)
    ensures SendsRemembered(cx, run.actions, i + 1, Step(cx, run.worlds[i], run.actions[i]), k, p, times)
  {
    StepRemembered(cx, run.actions, i, run.worlds[i], k, p, times, now);
  }

  /** What is remembered of sequence `k` decides whether a dispatch sends it. */
  lemma SendsIfWaited(cx: Context, actions: seq<Action>, i: nat, w: World, k: nat, p: RetryPolicy, times: seq<nat>,
                      now: nat)
    requires i < |actions| && actions[i].DoDispatch? && Clocked(actions, p, now) && SenderOk(cx, w.s)
    requires BackedOffAt(actions, i, w, k, p, times)
    ensures Sends(w, actions[i], k)
       <==> k in w.s.inFlight
            && (times == [] || times[|times| - 1] + DelayMs(p, |times| - 1) <= actions[i].nowMs)
  {
    SendsIffDue(cx, w, actions[i], k);
    if k in w.s.inFlight && times != [] {
      SaturatedDelay(p, |times|);
    }
  }

  /** At every point of a run the transmissions so far are remembered. */
  lemma RunRemembers(cx: Context, l: Limits, run: Run, k: nat, times: seq<seq<nat>>, p: RetryPolicy, now: nat, n: nat)
    returns (keeps: (nat, World) -> bool)
    requires IsFreeRun(cx, run, Initial(l)) && AreSendTimes(run, k, times) && Clocked(run.actions, p, now)
    requires n < |run.worlds|
    ensures keeps == ((i: nat, w: World) => SendsRemembered(cx, run.actions, i, w, k, p, times)) && keeps(n, run.worlds[n])
  {
    keeps := (i: nat, w: World) => SendsRemembered(cx, run.actions, i, w, k, p, times);
    forall i | 0 <= i < |run.actions| && keeps(i, run.worlds[i])
      ensures keeps(i + 1, Step(cx, run.worlds[i], run.actions[i]))
    {
      SendsStep(cx, run, i, k, times, p, now);
    }
    InitialRemembered(cx, l, run.actions, k, p, times);
    FreeRunKeeps(cx, run, Initial(l), n, keeps);
  }

  lemma RememberedIs(cx: Context, actions: seq<Action>, n: nat, w: World, k: nat, p: RetryPolicy, times: seq<seq<nat>>,
                     keeps: (nat, World) -> bool)
    requires keeps == ((i: nat, w: World) => SendsRemembered(cx, actions, i, w, k, p, times)) && keeps(n, w)
    ensures n < |times| && SenderOk(cx, w.s) && BackedOffAt(actions, n, w, k, p, times[n])
  {
  }

  lemma SendsSpaced(cx: Context, l: Limits, run: Run, k: nat, times: seq<seq<nat>>, p: RetryPolicy, now: nat)
    requires IsFreeRun(cx, run, Initial(l)) && AreSendTimes(run, k, times) && Clocked(run.actions, p, now)
    ensures Spaced(times[|run.actions|], p)
  {
    var n := |run.actions|;
    var keeps := RunRemembers(cx, l, run, k, times, p, now, n);
    RememberedIs(cx, run.actions, n, run.worlds[n], k, p, times, keeps);
  }

  /** On every run of the source with one policy and a clock that does not run backwards, a dispatch sends a frame if and
      only if it is in flight and has not been sent, or was last sent at least as long ago as the delay its transmissions
      so far have earned it. */
  lemma RetransmitsIff(cx: Context, l: Limits, run: Run, k: nat, times: seq<seq<nat>>, p: RetryPolicy, now: nat, i: nat)
    requires IsFreeRun(cx, run, Initial(l)) && AreSendTimes(run, k, times) && Clocked(run.actions, p, now)
    requires i < |run.actions| && run.actions[i].DoDispatch?
    ensures Sends(run.worlds[i], run.actions[i], k)
       <==> k in run.worlds[i].s.inFlight
            && (times[i] == []
                || times[i][|times[i]| - 1] + DelayMs(p, |times[i]| - 1) <= run.actions[i].nowMs)
  {
    var keeps := RunRemembers(cx, l, run, k, times, p, now, i);
    RememberedIs(cx, run.actions, i, run.worlds[i], k, p, times, keeps);
    SendsIfWaited(cx, run.actions, i, run.worlds[i], k, p, times[i], now);
  }

  /** A frame is never given up: as long as it is in flight, every dispatch that comes the maximum delay after its last
      transmission sends it again. */
  lemma NeverGivenUp(cx: Context, l: Limits, run: Run, k: nat, times: seq<seq<nat>>, p: RetryPolicy, now: nat, i: nat)
    requires IsFreeRun(cx, run, Initial(l)) && AreSendTimes(run, k, times) && Clocked(run.actions, p, now)
    requires i < |run.actions| && run.actions[i].DoDispatch? && k in run.worlds[i].s.inFlight
    requires times[i] != [] ==> times[i][|times[i]| - 1] + p.maximumMs <= run.actions[i].nowMs
    ensures Sends(run.worlds[i], run.actions[i], k)
  {
    RetransmitsIff(cx, l, run, k, times, p, now, i);
    if times[i] != [] {
      DelayGrows(p, |times[i]| - 1, |times[i]|);
    }
  }

  lemma InitialRemembered(cx: Context, l: Limits, actions: seq<Action>, k: nat, p: RetryPolicy, times: seq<seq<nat>>)
    requires |times| > 0 && times[0] == []
    ensures SendsRemembered(cx, actions, 0, Initial(l), k, p, times)
  {
    InitialOk(cx, l.frameLimit, l.reservedMetadata, l.windowFrames, l.maxPendingBytes);
  }

  lemma {:induction false} SpacedSum(times: seq<nat>, p: RetryPolicy, n: nat)
    requires Spaced(times, p) && n < |times|
    ensures times[0] + DelaySum(p, n) <= times[n]
  {
    if n > 0 {
      SpacedSum(times, p, n - 1);
    }
  }

  /** On every run of the source with one policy and a clock that does not run backwards, the transmission number `n` of any frame
      comes no earlier than its first plus the first `n` delays, and those delays never shrink nor exceed the maximum. */
  lemma RetriesBackOff(cx: Context, l: Limits, run: Run, k: nat, times: seq<seq<nat>>, p: RetryPolicy, now: nat, n: nat)
    requires IsFreeRun(cx, run, Initial(l)) && Clocked(run.actions, p, now)
    requires AreSendTimes(run, k, times) && n < |times[|run.actions|]|
    ensures var sent := times[|run.actions|]; sent[0] + DelaySum(p, n) <= sent[n]
    ensures DelayMs(p, n) <= DelayMs(p, n + 1) <= p.maximumMs
  {
    SendsSpaced(cx, l, run, k, times, p, now);
    SpacedSum(times[|run.actions|], p, n);
    DelayGrows(p, n, n + 1);
  }
}
