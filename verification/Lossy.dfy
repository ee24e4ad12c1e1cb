/** Progress over a network that keeps nothing: every round delivers only what that round itself has sent. */
module Lossy {
  import opened Prelude
  import opened Core
  import opened Stream
  import opened Sender
  import opened SenderInvariant
  import opened SenderFlow
  import opened Protocol
  import opened Delivery
  import opened Windowed
  import opened Capacity
  import opened Dispatch
  import opened Progress
  import opened Retry

  /** Every frame in flight was last sent at least the maximum delay ago, if at all. */
  ghost predicate Overdue(s: Sender, nowMs: nat, policy: RetryPolicy) {
    forall k | k in s.inFlight && s.inFlight[k].lastSentMs.Some? ::
      s.inFlight[k].lastSentMs.value + policy.maximumMs <= nowMs
  }

  /** The frames this round's dispatch sends. */
  function SentNow(w: World, p: Plan): set<bytes> {
    Encodings(TakeSendable(w.s, p.nowMs, p.policy).1)
  }

  /** The round delivers nothing but what its own dispatch sends. */
  ghost predicate Fresh(w: World, p: Plan) {
    forall i | 0 <= i < |p.order| :: p.order[i] in SentNow(w, p)
  }

  ghost predicate FreshAll(cx: Context, w: World, plans: seq<Plan>)
    decreases |plans|
  {
    plans != [] ==> Fresh(w, plans[0]) && FreshAll(cx, Round(cx, w, plans[0]), plans[1..])
  }

  /** A dispatch sends everything that is overdue. */
  lemma OverdueIsSent(cx: Context, s: Sender, nowMs: nat, policy: RetryPolicy, k: nat)
    requires SenderOk(cx, s) && Overdue(s, nowMs, policy) && k in s.inFlight
    ensures var (t, out) := TakeSendable(s, nowMs, policy);
            k in t.inFlight && t.inFlight[k].encoded in Encodings(out)
  {
    DispatchIs(cx, s, nowMs, policy);
    DelayGrows(policy, SaturatingSub(s.inFlight[k].attempts, 1), s.inFlight[k].attempts);
    var (t, out) := TakeSendable(s, nowMs, policy);
    assert t.inFlight[k] in out;
  }

  /** The plan that delivers every frame in flight once, in order, is then fresh. */
  lemma FreshPlan(cx: Context, w: World, nowMs: nat, policy: RetryPolicy) returns (p: Plan)
    requires Kept(cx, w) && Announced(w.s.inFlight, w.frames) && Overdue(w.s, nowMs, policy)
    ensures Fair(cx, w, p) && Fresh(w, p) && p.nowMs == nowMs && p.policy == policy
  {
    var t := TakeSendable(w.s, nowMs, policy).0;
    TakeSendableOk(cx, w.s, nowMs, policy);
    p := Plan(nowMs, policy, FlightOrder(t.inFlight, t.nextSequence));
    FlightOrderIs(t.inFlight, t.nextSequence);
    DispatchedSender(cx, w, nowMs, policy);
    FairOrder(cx, w, p);
    forall i | 0 <= i < |p.order|
      ensures p.order[i] in SentNow(w, p)
    {
      assert Carried(t.inFlight, p.order[i]);
      var k :| k in t.inFlight && t.inFlight[k].encoded == p.order[i];
      OverdueIsSent(cx, w.s, nowMs, policy, k);
    }
  }

  lemma DispatchedSender(cx: Context, w: World, nowMs: nat, policy: RetryPolicy)
    ensures Next(cx, w, DoDispatch(nowMs, policy)).s == TakeSendable(w.s, nowMs, policy).0
  {
  }

  /** After a fair round nothing in flight has been sent yet. */
  lemma RoundOverdue(cx: Context, l: Limits, w: World, p: Plan, nowMs: nat, policy: RetryPolicy)
    requires Honest(cx) && Steady(cx, l, w) && Fair(cx, w, p)
    ensures Overdue(Round(cx, w, p).s, nowMs, policy)
  {
    RoundClears(cx, l, w, p);
    PumpSameOrNew(cx, Emptied(w.s, l.capacity));
  }

  lemma FreshAllIs(cx: Context, w: World, p: Plan, t: World, rest: seq<Plan>)
    requires Fresh(w, p) && t == Round(cx, w, p) && FreshAll(cx, t, rest)
    ensures FreshAll(cx, w, [p] + rest)
  {
    assert ([p] + rest)[1..] == rest;
  }

  lemma {:induction false} FreshPlans(cx: Context, l: Limits, w: World, times: seq<nat>, policy: RetryPolicy)
    returns (plans: seq<Plan>)
    requires Honest(cx) && Steady(cx, l, w) && (times != [] ==> Overdue(w.s, times[0], policy))
    ensures SameTimes(plans, times, policy) && FairAll(cx, w, plans) && FreshAll(cx, w, plans)
    decreases |times|
  {
    plans := [];
    if times != [] {
      var p := FreshPlan(cx, w, times[0], policy);
      var t := RoundSteady(cx, l, w, p);
      if |times| > 1 {
        RoundOverdue(cx, l, w, p, times[1], policy);
      }
      var rest := FreshPlans(cx, l, t, times[1..], policy);
      FairAllIs(cx, w, p, t, rest);
      FreshAllIs(cx, w, p, t, rest);
      SameTimesMore(p, rest, times, policy);
      plans := [p] + rest;
    }
  }

  /** After any run without reordered acknowledgements, even if the network has lost everything sent so far: when the first
      dispatch comes the maximum delay after the last transmissions, as many rounds as `CompletesWithinRounds` asks for, each
      delivering only what its own dispatch sends, complete the transfer. */
  lemma FreshRoundsComplete(cx: Context, l: Limits, run: Run, n: nat, times: seq<nat>, policy: RetryPolicy, overhead: nat)
    returns (plans: seq<Plan>)
    requires Honest(cx) && 1 <= l.capacity <= ACK_BITMAP_BITS && IsOrderedRun(cx, l, run) && n < |run.worlds|
    requires var w := run.worlds[n];
             && Ample(l, w.writes) && w.s.inputFinished && Budgeted(cx, w.s, l.capacity, overhead) && times != []
             && |w.s.pending| <= (|times| - 1) * Min(l.windowFrames, l.capacity) && Overdue(w.s, times[0], policy)
    ensures SameTimes(plans, times, policy) && FreshAll(cx, run.worlds[n], plans)
    ensures AllDelivered(Rounds(cx, run.worlds[n], plans), Input(run.worlds[n].writes))
  {
    RunHealthy(cx, l, run, n);
    RunAnnounced(cx, l, run, n);
    plans := FreshPlans(cx, l, run.worlds[n], times, policy);
    CompletesWithinRounds(cx, l, run, n, plans, overhead);
  }
}
