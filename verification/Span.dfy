/** When acknowledgements are not reordered, the sender never runs further ahead than the receiver's capacity. */
module Span {
  import opened Prelude
  import opened Core
  import opened Stream
  import opened Sender
  import opened SenderInvariant
  import opened Receiver

  // ---- Counting ----

  lemma {:induction false} OnesBeyond(bits: seq<bool>, d: nat)
    requires d <= |bits| && forall i | d <= i < |bits| :: !bits[i]
    ensures Ones(bits) == Ones(bits[..d])
    decreases |bits|
  {
    if d == |bits| {
      assert bits[..d] == bits;
    } else {
      OnesBeyond(bits[..|bits| - 1], d);
      assert bits[..|bits| - 1][..d] == bits[..d];
    }
  }

  lemma {:induction false} OnesAtMost(bits: seq<bool>)
    ensures Ones(bits) <= |bits|
    ensures bits != [] && !bits[0] ==> Ones(bits) < |bits|
    decreases |bits|
  {
    if bits != [] {
      OnesAtMost(bits[..|bits| - 1]);
    }
  }

  /** From the base up, each sequence is either in flight or marked in the bitmap, so the two counts add up. */
  lemma {:induction false} FlightAndBits(m: map<nat, Retained>, b: nat, bits: seq<bool>)
    requires CountBelow(m.Keys, b) == 0
    requires forall i | 0 <= i < |bits| :: bits[i] <==> b + i !in m
    ensures CountBelow(m.Keys, b + |bits|) + Ones(bits) == |bits|
    decreases |bits|
  {
    if bits != [] {
      var d := |bits| - 1;
      assert forall i | 0 <= i < d :: bits[..d][i] == bits[i];
      FlightAndBits(m, b, bits[..d]);
    }
  }

  // ---- One sender, one acknowledgement ----

  /** An acknowledgement as a receiver of this capacity builds it, covering sequences below `bound` only. */
  ghost predicate WellFormed(ack: Ack, capacity: nat, bound: nat) {
    var snapshot := Snapshot(ack);
    && |ack.selective| == ACK_BITMAP_BITS && Base(snapshot) <= bound
    && ack.receiveWindow == SaturatingSub(capacity, Ones(ack.selective))
    && !Acknowledges(snapshot, Base(snapshot))
    && forall k: nat | k >= bound :: !Acknowledges(snapshot, k)
  }

  /** The sender as the last processed acknowledgement left it: exactly the unacknowledged sequences are in flight, the
      peer window is the advertised one, and nothing beyond the base plus the capacity has been numbered. */
  ghost predicate Spans(s: Sender, ack: Ack, capacity: nat) {
    && WellFormed(ack, capacity, |s.log|)
    && s.peerWindow == ack.receiveWindow
    && (forall k: nat :: k in s.inFlight <==> k < |s.log| && !Acknowledges(Snapshot(ack), k))
    && |s.log| <= Base(Snapshot(ack)) + capacity
  }

  ghost predicate CursorBelowTop(ack: Ack) {
    ack.cumulative.Some? ==> ack.cumulative.value < U32_MAX
  }

  lemma BelowBase(ack: Ack, k: nat)
    requires CursorBelowTop(ack) && k < Base(Snapshot(ack))
    ensures Acknowledges(Snapshot(ack), k)
  {
  }

  lemma BitIs(ack: Ack, i: nat)
    requires CursorBelowTop(ack)
    ensures Acknowledges(Snapshot(ack), Base(Snapshot(ack)) + i) <==> i < |ack.selective| && ack.selective[i]
  {
  }

  lemma SpanBits(s: Sender, ack: Ack, capacity: nat, d: nat)
    requires Spans(s, ack, capacity) && CursorBelowTop(ack) && d == |s.log| - Base(Snapshot(ack)) <= ACK_BITMAP_BITS
    ensures var b := Base(Snapshot(ack));
            && (forall i | 0 <= i < d :: ack.selective[..d][i] <==> b + i !in s.inFlight)
            && (forall i | d <= i < ACK_BITMAP_BITS :: !ack.selective[i])
  {
    forall i | 0 <= i < d
      ensures ack.selective[..d][i] <==> Base(Snapshot(ack)) + i !in s.inFlight
    {
      BitIs(ack, i);
    }
    forall i | d <= i < ACK_BITMAP_BITS
      ensures !ack.selective[i]
    {
      BitIs(ack, i);
    }
  }

  lemma FlightFromBase(s: Sender, ack: Ack, capacity: nat)
    requires Spans(s, ack, capacity) && CursorBelowTop(ack)
    ensures CountBelow(s.inFlight.Keys, Base(Snapshot(ack))) == 0
    ensures CountBelow(s.inFlight.Keys, |s.log|) == |s.inFlight|
  {
    forall k | k in s.inFlight
      ensures Base(Snapshot(ack)) <= k
    {
      if k < Base(Snapshot(ack)) {
        BelowBase(ack, k);
      }
    }
    NoneBelow(s.inFlight.Keys, Base(Snapshot(ack)));
    CountIsSize(s.inFlight.Keys, |s.log|);
  }

  /** In flight plus marked in the bitmap is everything numbered from the base up. */
  lemma SpanCount(s: Sender, ack: Ack, capacity: nat)
    requires Spans(s, ack, capacity) && capacity <= ACK_BITMAP_BITS && CursorBelowTop(ack)
    ensures |s.inFlight| + Ones(ack.selective) == |s.log| - Base(Snapshot(ack))
  {
    var d := |s.log| - Base(Snapshot(ack));
    SpanBits(s, ack, capacity, d);
    FlightFromBase(s, ack, capacity);
    OnesBeyond(ack.selective, d);
    FlightAndBits(s.inFlight, Base(Snapshot(ack)), ack.selective[..d]);
  }

  lemma LaunchSpans(s: Sender, encoded: bytes, ack: Ack, capacity: nat)
    requires Spans(s, ack, capacity) && capacity <= ACK_BITMAP_BITS && CursorBelowTop(ack)
    requires s.pending != [] && |s.log| == s.nextSequence && |s.inFlight| < EffectiveWindow(s)
    ensures Spans(Launch(s, encoded).state, ack, capacity)
  {
    SpanCount(s, ack, capacity);
    assert |s.log| < Base(Snapshot(ack)) + capacity;
  }

  lemma {:induction false} PumpSpans(cx: Context, s: Sender, ack: Ack, capacity: nat)
    requires SenderOk(cx, s) && Spans(s, ack, capacity) && capacity <= ACK_BITMAP_BITS && CursorBelowTop(ack)
    ensures Spans(Pump(cx, s).state, ack, capacity)
    decreases |s.pending|
  {
    if |s.inFlight| < EffectiveWindow(s) && s.pending != [] {
      PumpOneOk(cx, s);
      var frame := EncodeItem(cx, s.nextSequence, s.pending[0]);
      if frame.Ok? {
        LaunchSpans(s, frame.value, ack, capacity);
        if Launch(s, frame.value).error == None {
          PumpSpans(cx, Launch(s, frame.value).state, ack, capacity);
        }
      }
    }
  }

  /** Processing a later acknowledgement, one that covers all the earlier one did, re-establishes the span. */
  lemma ReleaseSpans(cx: Context, s: Sender, ack: Ack, later: Ack, capacity: nat)
    requires SenderOk(cx, s) && Spans(s, ack, capacity) && CursorBelowTop(ack)
    requires WellFormed(later, capacity, |s.log|) && CursorBelowTop(later)
    requires forall k: nat :: Acknowledges(Snapshot(ack), k) ==> Acknowledges(Snapshot(later), k)
    ensures Spans(AfterRelease(s, later), later, capacity)
  {
    AfterReleaseIs(cx, s, later);
    if Base(Snapshot(later)) < Base(Snapshot(ack)) {
      BelowBase(ack, Base(Snapshot(later)));
    }
  }
}
