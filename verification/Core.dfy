/** Shared transfer state: the receive window, bounded reassembly, payload batching and retry delays. */
module Core {
  import opened Prelude
  import opened Wire

  const ACK_BITMAP_BITS: nat := 64

  // ---- Receive window ----

  /** `selective` holds the 64 bits of the bitmap, lowest first. */
  datatype AckSnapshot = AckSnapshot(cumulative: Option<nat>, selective: seq<bool>)

  /** `ReceiveWindow` as a value: sequences kept above (or late duplicates below) the contiguous cursor. */
  datatype Window = Window(received: set<nat>, next: nat)

  const EMPTY_WINDOW := Window({}, 0)

  /** Move the cursor over everything contiguous. It saturates at the largest sequence number. */
  function Advance(w: Window): Window
    decreases w.received
  {
    if w.next in w.received then Advance(Window(w.received - {w.next}, SaturatingAdd32(w.next, 1))) else w
  }

  function Recorded(w: Window, sequence: nat): Window {
    Advance(Window(w.received + {sequence}, w.next))
  }

  function SelectiveBit(w: Window, offset: nat): bool {
    SaturatingAdd32(w.next, offset) in w.received
  }

  function SnapshotOf(w: Window): AckSnapshot {
    AckSnapshot(if w.next == 0 then None else Some(w.next - 1),
                seq(ACK_BITMAP_BITS, offset requires 0 <= offset => SelectiveBit(w, offset)))
  }

  /** First sequence a snapshot does not acknowledge cumulatively. */
  function Base(snapshot: AckSnapshot): nat {
    match snapshot.cumulative
    case None => 0
    case Some(value) => SaturatingAdd32(value, 1)
  }

  predicate Acknowledges(snapshot: AckSnapshot, sequence: nat) {
    || (snapshot.cumulative.Some? && sequence <= snapshot.cumulative.value)
    || (var base := Base(snapshot);
        base <= sequence && sequence - base < |snapshot.selective| && snapshot.selective[sequence - base])
  }

  /** A sequence that was recorded at some point. */
  predicate Seen(w: Window, sequence: nat) {
    sequence < w.next || sequence in w.received
  }

  class ReceiveWindow {
    var received: set<nat>
    var nextContiguous: nat

    ghost function View(): Window
      reads this
    {
      Window(received, nextContiguous)
    }

    constructor ()
      ensures View() == EMPTY_WINDOW
    {
      received, nextContiguous := {}, 0;
    }

    method Record(sequence: nat) returns (inserted: bool)
      modifies this
      ensures View() == Recorded(old(View()), sequence)
      ensures inserted <==> sequence !in old(received)
    {
      inserted := sequence !in received;
      received := received + {sequence};
      while nextContiguous in received
        invariant Advance(View()) == Recorded(old(View()), sequence)
        decreases received
      {
        received := received - {nextContiguous};
        nextContiguous := SaturatingAdd32(nextContiguous, 1);
      }
    }

    method Snapshot() returns (s: AckSnapshot)
      ensures s == SnapshotOf(View())
    {
      var cumulative := if nextContiguous == 0 then None else Some(nextContiguous - 1);
      var selective: seq<bool> := [];
      for offset := 0 to ACK_BITMAP_BITS
        invariant selective == SnapshotOf(View()).selective[..offset]
      {
        selective := selective + [SaturatingAdd32(nextContiguous, offset) in received];
      }
      s := AckSnapshot(cumulative, selective);
    }
  }

  /** Advancing keeps what was seen, stops at the first gap, and only moves the cursor forward. */
  lemma {:induction false} AdvanceKeeps(w: Window)
    requires w.next <= U32_MAX && U32_MAX !in w.received
    ensures var a := Advance(w);
            && w.next <= a.next <= U32_MAX && a.next !in a.received && U32_MAX !in a.received
            && a.next !in w.received
            && (forall s :: Seen(a, s) <==> Seen(w, s))
            && (forall s :: s in a.received <==> s in w.received && (s < w.next || a.next < s))
            && (forall s :: w.next <= s < a.next ==> s in w.received)
    decreases w.received
  {
    if w.next in w.received {
      AdvanceKeeps(Window(w.received - {w.next}, w.next + 1));
    }
  }

  /** A window in use: the cursor is at a gap, and the sequence the sender never uses is absent. */
  predicate WindowOk(w: Window) {
    w.next <= U32_MAX && w.next !in w.received && U32_MAX !in w.received
  }

  /** Recording adds exactly one sequence to what was seen, below the top sequence number. */
  lemma RecordedSeen(w: Window, sequence: nat)
    requires WindowOk(w) && sequence < U32_MAX
    ensures WindowOk(Recorded(w, sequence))
    ensures forall s :: Seen(Recorded(w, sequence), s) <==> Seen(w, s) || s == sequence
    ensures w.next <= Recorded(w, sequence).next
    ensures forall s :: s in Recorded(w, sequence).received
                    <==> (s in w.received || s == sequence) && (s < w.next || Recorded(w, sequence).next < s)
  {
    AdvanceKeeps(Window(w.received + {sequence}, w.next));
  }

  function RecordedAll(w: Window, sequences: seq<nat>): Window
    decreases |sequences|
  {
    if sequences == [] then w else Recorded(RecordedAll(w, sequences[..|sequences| - 1]), sequences[|sequences| - 1])
  }

  /** An acknowledgement built from a window covers exactly the cursor and the kept sequences within 64 of it. */
  lemma AckIsExact(w: Window, s: nat)
    requires w.next <= U32_MAX && s <= U32_MAX
    ensures Acknowledges(SnapshotOf(w), s) <==> s < w.next || (s in w.received && s - w.next < ACK_BITMAP_BITS)
  {
    if w.next <= s && s - w.next < ACK_BITMAP_BITS {
      assert SnapshotOf(w).selective[s - w.next] == SelectiveBit(w, s - w.next);
    }
  }

  /** Over any history of recorded sequences: the acknowledged ones were recorded, and the recorded ones within reach
      of the bitmap are acknowledged. */
  lemma {:induction false} AckOfHistory(sequences: seq<nat>, s: nat)
    requires forall i | 0 <= i < |sequences| :: sequences[i] < U32_MAX
    requires s <= U32_MAX
    ensures var w := RecordedAll(EMPTY_WINDOW, sequences);
            && WindowOk(w) && (Seen(w, s) <==> s in sequences)
            && (Acknowledges(SnapshotOf(w), s) <==> s in sequences && s < w.next + ACK_BITMAP_BITS)
    decreases |sequences|
  {
    var w := RecordedAll(EMPTY_WINDOW, sequences);
    if sequences != [] {
      var front, last := sequences[..|sequences| - 1], sequences[|sequences| - 1];
      assert sequences == front + [last];
      AckOfHistory(front, s);
      RecordedSeen(RecordedAll(EMPTY_WINDOW, front), last);
    }
    AckIsExact(w, s);
  }

  /** A later snapshot acknowledges at least what an earlier one does, except for the top sequence number. */
  lemma {:induction false} AckGrows(w: Window, later: seq<nat>, s: nat)
    requires WindowOk(w) && forall i | 0 <= i < |later| :: later[i] < U32_MAX
    requires Acknowledges(SnapshotOf(w), s) && s < U32_MAX
    ensures Acknowledges(SnapshotOf(RecordedAll(w, later)), s)
    ensures WindowOk(RecordedAll(w, later)) && w.next <= RecordedAll(w, later).next
    decreases |later|
  {
    AckIsExact(w, s);
    if later != [] {
      var front := later[..|later| - 1];
      AckGrows(w, front, s);
      AckIsExact(RecordedAll(w, front), s);
      RecordedSeen(RecordedAll(w, front), later[|later| - 1]);
      assert Seen(RecordedAll(w, front), s);
      assert Seen(RecordedAll(w, later), s);
      AckIsExact(RecordedAll(w, later), s);
    }
  }

  /** Why the top sequence number is excluded: the saturating cursor forgets that it was received. */
  lemma TopSequenceIsForgotten()
    ensures var w := Window({U32_MAX}, U32_MAX - 1);
            && Acknowledges(SnapshotOf(w), U32_MAX)
            && !Acknowledges(SnapshotOf(Recorded(w, U32_MAX - 1)), U32_MAX)
  {
    var w := Window({U32_MAX}, U32_MAX - 1);
    AckIsExact(w, U32_MAX);
    var a := Window({U32_MAX - 1, U32_MAX}, U32_MAX - 1);
    assert w.received + {U32_MAX - 1} == a.received;
    assert a.received - {U32_MAX - 1} == {U32_MAX};
    assert {U32_MAX} - {U32_MAX} == {};
    assert Advance(Window({}, U32_MAX)) == Window({}, U32_MAX);
    assert Advance(Window({U32_MAX}, U32_MAX)) == Window({}, U32_MAX);
    assert Recorded(w, U32_MAX - 1) == Window({}, U32_MAX);
    AckIsExact(Window({}, U32_MAX), U32_MAX);
  }

  // ---- Sums over the sequences below a bound ----

  /** Total weight of the entries of `m` with keys below `n`. */
  function WeightBelow<T>(m: map<nat, T>, weight: T -> nat, n: nat): nat {
    if n == 0 then 0 else WeightBelow(m, weight, n - 1) + (if n - 1 in m then weight(m[n - 1]) else 0)
  }

  lemma {:induction false} WeightFrame<T>(m: map<nat, T>, m': map<nat, T>, weight: T -> nat, n: nat)
    requires forall k | 0 <= k < n :: (k in m <==> k in m') && (k in m ==> weight(m[k]) == weight(m'[k]))
    ensures WeightBelow(m, weight, n) == WeightBelow(m', weight, n)
  {
    if n > 0 {
      WeightFrame(m, m', weight, n - 1);
    }
  }

  lemma {:induction false} WeightBeyond<T>(m: map<nat, T>, weight: T -> nat, n: nat, n': nat)
    requires n <= n' && forall k | k in m :: k < n
    ensures WeightBelow(m, weight, n') == WeightBelow(m, weight, n)
    decreases n'
  {
    if n < n' {
      WeightBeyond(m, weight, n, n' - 1);
    }
  }

  lemma {:induction false} WeightRemove<T>(m: map<nat, T>, weight: T -> nat, n: nat, k: nat)
    requires k in m && k < n
    ensures WeightBelow(m, weight, n) == WeightBelow(m - {k}, weight, n) + weight(m[k])
  {
    if n - 1 == k {
      WeightFrame(m, m - {k}, weight, k);
    } else {
      WeightRemove(m, weight, n - 1, k);
    }
  }

  lemma {:induction false} WeightInsert<T>(m: map<nat, T>, weight: T -> nat, n: nat, k: nat, v: T)
    requires k !in m && k < n
    ensures WeightBelow(m[k := v], weight, n) == WeightBelow(m, weight, n) + weight(v)
  {
    WeightRemove(m[k := v], weight, n, k);
    WeightFrame(m[k := v] - {k}, m, weight, n);
  }

  function Length(b: bytes): nat {
    |b|
  }

  /** How many numbers below `n` the set holds. */
  function CountBelow(s: set<nat>, n: nat): nat {
    if n == 0 then 0 else CountBelow(s, n - 1) + (if n - 1 in s then 1 else 0)
  }

  lemma {:induction false} NoneBelow(s: set<nat>, b: nat)
    requires forall k | k in s :: b <= k
    ensures CountBelow(s, b) == 0
  {
    if b > 0 {
      NoneBelow(s, b - 1);
    }
  }

  lemma {:induction false} CountFrame(s: set<nat>, t: set<nat>, n: nat)
    requires forall k | 0 <= k < n :: k in s <==> k in t
    ensures CountBelow(s, n) == CountBelow(t, n)
  {
    if n > 0 {
      CountFrame(s, t, n - 1);
    }
  }

  /** Counting number by number gives the size of the set. */
  lemma {:induction false} CountIsSize(s: set<nat>, n: nat)
    requires forall k | k in s :: k < n
    ensures CountBelow(s, n) == |s|
    decreases n
  {
    if n == 0 {
      assert s == {};
    } else {
      var t := s - {n - 1};
      CountIsSize(t, n - 1);
      CountFrame(s, t, n - 1);
      assert n - 1 in s ==> s == t + {n - 1};
      assert n - 1 !in s ==> s == t;
    }
  }

  // ---- Reassembly ----

  datatype Reassembly = Reassembly(next: nat, pending: map<nat, bytes>, pendingBytes: nat, maxPendingBytes: nat)

  datatype Pushed = Pushed(state: Reassembly, ready: seq<bytes>) | Rejected(actual: nat, limit: nat)

  /** Take every contiguous chunk off the front. */
  function Drained(r: Reassembly): (Reassembly, seq<bytes>)
    decreases r.pending.Keys
  {
    if r.next in r.pending then
      var chunk := r.pending[r.next];
      var (last, ready) := Drained(Reassembly(SaturatingAdd32(r.next, 1), r.pending - {r.next},
                                              SaturatingSub(r.pendingBytes, |chunk|), r.maxPendingBytes));
      (last, [chunk] + ready)
    else
      (r, [])
  }

  function Inserted(r: Reassembly, sequence: nat, chunk: bytes): Reassembly {
    r.(pending := r.pending[sequence := chunk], pendingBytes := r.pendingBytes + |chunk|)
  }

  function Reassembled(r: Reassembly, sequence: nat, chunk: bytes): Pushed {
    if sequence < r.next || sequence in r.pending then
      Pushed(r, [])
    else if r.pendingBytes + |chunk| > r.maxPendingBytes then
      Rejected(r.pendingBytes + |chunk|, r.maxPendingBytes)
    else
      var (last, ready) := Drained(Inserted(r, sequence, chunk));
      Pushed(last, ready)
  }

  class Reassembler {
    var nextSequence: nat
    var pending: map<nat, bytes>
    var pendingBytes: nat
    const maxPendingBytes: nat

    ghost function View(): Reassembly
      reads this
    {
      Reassembly(nextSequence, pending, pendingBytes, maxPendingBytes)
    }

    constructor (maxPendingBytes: nat)
      ensures View() == Reassembly(0, map[], 0, maxPendingBytes)
    {
      nextSequence, pending, pendingBytes := 0, map[], 0;
      this.maxPendingBytes := maxPendingBytes;
    }

    method Push(sequence: nat, chunk: bytes) returns (r: Result<seq<bytes>, (nat, nat)>)
      modifies this
      ensures match Reassembled(old(View()), sequence, chunk)
              case Pushed(state, ready) => View() == state && r == Ok(ready)
              case Rejected(actual, limit) => View() == old(View()) && r == Err((actual, limit))
    {
      if sequence < nextSequence || sequence in pending {
        return Ok([]);
      }
      var newTotal := pendingBytes + |chunk|;
      if newTotal > maxPendingBytes {
        return Err((newTotal, maxPendingBytes));
      }
      pendingBytes := newTotal;
      pending := pending[sequence := chunk];
      var ready: seq<bytes> := [];
      while nextSequence in pending
        invariant var (last, all) := Drained(Inserted(old(View()), sequence, chunk));
                  var (last', more) := Drained(View());
                  last == last' && all == ready + more
        decreases pending.Keys
      {
        var next := pending[nextSequence];
        ghost var (_, more) := Drained(View());
        assert ready + more == (ready + [next]) + more[1..];
        pending := pending - {nextSequence};
        pendingBytes := SaturatingSub(pendingBytes, |next|);
        ready := ready + [next];
        nextSequence := SaturatingAdd32(nextSequence, 1);
      }
      assert ready + [] == ready;
      return Ok(ready);
    }
  }

  // ---- Batching ----

  /** Full payloads of `target` bytes from the front of `data`, and what is left over. */
  function Batches(data: bytes, target: pos): (r: (seq<bytes>, bytes))
    ensures |r.1| < target
    ensures forall i | 0 <= i < |r.0| :: |r.0[i]| == target
  {
    if |data| < target then
      ([], data)
    else
      var (payloads, rest) := Batches(data[target..], target);
      ([data[..target]] + payloads, rest)
  }

  /** Batching neither adds nor loses bytes. */
  lemma {:induction false} BatchesKeepBytes(data: bytes, target: pos)
    ensures Concat(Batches(data, target).0) + Batches(data, target).1 == data
    decreases |data|
  {
    if |data| >= target {
      BatchesKeepBytes(data[target..], target);
      var (payloads, rest) := Batches(data[target..], target);
      assert ([data[..target]] + payloads)[1..] == payloads;
      assert data == data[..target] + data[target..];
    }
  }

  function TargetPayload(frameLimit: nat, reservedMetadata: nat): pos {
    var room := SaturatingSub(Min(frameLimit, DEFAULT_FRAME_LIMIT), HEADER_LEN + reservedMetadata);
    if room == 0 then 1 else room
  }

  class FrameBatcher {
    const targetPayload: pos
    var buffer: bytes

    ghost predicate Valid()
      reads this
    {
      |buffer| < targetPayload
    }

    constructor (frameLimit: nat, reservedMetadata: nat)
      ensures Valid() && targetPayload == TargetPayload(frameLimit, reservedMetadata) && buffer == []
    {
      targetPayload := TargetPayload(frameLimit, reservedMetadata);
      buffer := [];
    }

    method Push(input: bytes) returns (output: seq<bytes>)
      requires Valid()
      modifies this
      ensures Valid()
      ensures (output, buffer) == Batches(old(buffer) + input, targetPayload)
    {
      output := [];
      var left := input;
      ghost var whole := buffer + input;
      while left != []
        invariant Valid()
        invariant Batches(whole, targetPayload).0 == output + Batches(buffer + left, targetPayload).0
        invariant Batches(whole, targetPayload).1 == Batches(buffer + left, targetPayload).1
        decreases |left|
      {
        var remaining := targetPayload - |buffer|;
        var take := Min(remaining, |left|);
        ghost var data := buffer + left;
        buffer := buffer + left[..take];
        left := left[take..];
        assert data == buffer + left;
        if |buffer| == targetPayload {
          assert data[..targetPayload] == buffer && data[targetPayload..] == [] + left;
          output := output + [buffer];
          buffer := [];
        }
      }
      assert buffer + left == buffer && output + [] == output;
    }

    method Flush() returns (payload: Option<bytes>)
      requires Valid()
      modifies this
      ensures Valid() && buffer == []
      ensures payload == if old(buffer) == [] then None else Some(old(buffer))
    {
      if buffer == [] {
        payload := None;
      } else {
        payload := Some(buffer);
        buffer := [];
      }
    }
  }

  // ---- Retry delays ----

  datatype RetryPolicy = RetryPolicy(initialMs: nat, maximumMs: nat)

  function Pow2(n: nat): nat {
    if n == 0 then 1 else 2 * Pow2(n - 1)
  }

  /** `initial` doubled `n` times. */
  function Doubled(initial: nat, n: nat): nat {
    if n == 0 then initial else 2 * Doubled(initial, n - 1)
  }

  /** Doubling is the source's multiplication by a shifted one. */
  lemma {:induction false} DoubledIs(initial: nat, n: nat)
    ensures Doubled(initial, n) == initial * Pow2(n)
  {
    if n > 0 {
      DoubledIs(initial, n - 1);
      assert initial * (2 * Pow2(n - 1)) == 2 * (initial * Pow2(n - 1));
    }
  }

  function DelayMs(p: RetryPolicy, attempts: nat): nat {
    Min(Min(Doubled(p.initialMs, Min(attempts, 20)), U64_MAX), p.maximumMs)
  }

  lemma {:induction false} DoubledGrows(initial: nat, a: nat, b: nat)
    requires a <= b
    ensures Doubled(initial, a) <= Doubled(initial, b)
    decreases b
  {
    if a < b {
      DoubledGrows(initial, a, b - 1);
    }
  }

  /** Delays never shrink from one attempt to a later one, never exceed the maximum, and are the initial delay times a
      power of two below it. */
  lemma DelayGrows(p: RetryPolicy, a: nat, b: nat)
    requires a <= b
    ensures DelayMs(p, a) <= DelayMs(p, b) <= p.maximumMs
    ensures DelayMs(p, a) == Min(Min(p.initialMs * Pow2(Min(a, 20)), U64_MAX), p.maximumMs)
  {
    DoubledGrows(p.initialMs, Min(a, 20), Min(b, 20));
    DoubledIs(p.initialMs, Min(a, 20));
  }
}
