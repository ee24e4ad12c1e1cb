/** How a request is let go, and how the two sides learn of each other's end. */
module CreditEnds {
  import opened Prelude
  import opened Credits
  import opened CreditInvariant

  // ---- Waiting writers ----

  predicate Served(e: Electron) {
    e.live ==> e.waiters == 0 || e.requestCredits == 0
  }

  lemma StepServed(p: Pair, a: Event)
    requires Served(p.e)
    ensures Served(Step(p, a).e)
  {
  }

  /** At every point of every run, a live stream never keeps a writer waiting while it counts a credit. */
  lemma {:induction false} NoWriterWaitsForACredit(pairs: seq<Pair>, events: seq<Event>, hasBody: bool, n: nat)
    requires IsPlay(pairs, events, hasBody) && n < |pairs|
    ensures pairs[n].e.live && pairs[n].e.waiters > 0 ==> pairs[n].e.requestCredits == 0
  {
    if n > 0 {
      NoWriterWaitsForACredit(pairs, events, hasBody, n - 1);
      StepServed(pairs[n - 1], events[n - 1]);
    }
  }

  // ---- Requests the sidecar has let go of ----

  /** The entry is gone, and nothing can be had of its semaphore. */
  predicate Dropped(s: Side) {
    s.started && !s.known && (s.closed || s.task == Gone)
  }

  predicate NoneLingers(s: Side) {
    s.started && !s.known ==> Dropped(s)
  }

  lemma ListenLingers(s: Side, m: Up, accept: bool)
    requires NoneLingers(s)
    ensures NoneLingers(Listen(s, m, accept).0)
  {
  }

  lemma StepLingers(p: Pair, a: Event)
    requires NoneLingers(p.s)
    ensures NoneLingers(Step(p, a).s)
  {
    if a.SidecarReads? && p.up != [] {
      ListenLingers(p.s, p.up[0], a.accept);
    }
  }

  lemma {:induction false} PlayLingers(pairs: seq<Pair>, events: seq<Event>, hasBody: bool, n: nat)
    requires IsPlay(pairs, events, hasBody) && n < |pairs|
    ensures NoneLingers(pairs[n].s)
  {
    if n > 0 {
      PlayLingers(pairs, events, hasBody, n - 1);
      StepLingers(pairs[n - 1], events[n - 1]);
    }
  }

  predicate QueuesChunk(p: Pair, a: Event) {
    a == TaskQueuesChunk && CanHappen(p, a)
  }

  /** Chunks queued by the events from the `from`-th up to the `to`-th. */
  function ChunksQueued(pairs: seq<Pair>, events: seq<Event>, from: nat, to: nat): nat
    requires from <= to <= |events| && |pairs| == |events| + 1
  {
    if to == from then 0
    else ChunksQueued(pairs, events, from, to - 1) + One(QueuesChunk(pairs[to - 1], events[to - 1]))
  }

  /** A dropped request stays dropped; only the chunk its task already held can still be queued. */
  lemma StepDropped(p: Pair, a: Event, hasBody: bool)
    requires CreditInv(p, hasBody) && Dropped(p.s)
    ensures var q := Step(p, a);
            && Dropped(q.s) && q.s.permits == p.s.permits && q.s.channel <= p.s.channel
            && One(q.s.holding) + One(QueuesChunk(p, a)) == One(p.s.holding)
  {
  }

  lemma PlayStep(pairs: seq<Pair>, events: seq<Event>, hasBody: bool, n: nat)
    requires IsPlay(pairs, events, hasBody) && n < |events|
    ensures |pairs| == |events| + 1 && pairs[n + 1] == Step(pairs[n], events[n])
  {
  }

  /** What remains of a dropped request: `held` chunks held or queued since. */
  predicate DroppedWith(s: Side, permits: nat, channel: nat, queued: nat, held: nat) {
    Dropped(s) && s.permits == permits && s.channel <= channel && One(s.holding) + queued == held
  }

  lemma DropsOn(pairs: seq<Pair>, events: seq<Event>, hasBody: bool, n: nat, permits: nat, channel: nat, queued: nat,
                held: nat)
    requires IsPlay(pairs, events, hasBody) && n < |events| < |pairs|
    requires DroppedWith(pairs[n].s, permits, channel, queued, held)
    ensures DroppedWith(pairs[n + 1].s, permits, channel, queued + One(QueuesChunk(pairs[n], events[n])), held)
  {
    PlayInv(pairs, events, hasBody, n);
    PlayStep(pairs, events, hasBody, n);
    StepDropped(pairs[n], events[n], hasBody);
  }

  lemma {:induction false} StaysDropped(pairs: seq<Pair>, events: seq<Event>, hasBody: bool, n: nat, m: nat)
    requires IsPlay(pairs, events, hasBody) && n <= m <= |events| < |pairs| && Dropped(pairs[n].s)
    ensures |pairs| == |events| + 1
    ensures var s := pairs[n].s;
            DroppedWith(pairs[m].s, s.permits, s.channel, ChunksQueued(pairs, events, n, m), One(s.holding))
    decreases m
  {
    if n < m {
      StaysDropped(pairs, events, hasBody, n, m - 1);
      var s, queued := pairs[n].s, ChunksQueued(pairs, events, n, m - 1);
      DropsOn(pairs, events, hasBody, m - 1, s.permits, s.channel, queued, One(s.holding));
    }
  }

  /** What reading an abort does to the sidecar. */
  lemma ReadsAbort(p: Pair, accept: bool, hasBody: bool)
    requires CreditInv(p, hasBody) && NoneLingers(p.s) && p.up != [] && p.up[0] == Abort
    ensures var q := Step(p, SidecarReads(accept)); Dropped(q.s) && q.up == p.up[1..] && q.down == p.down
  {
    assert p.s.started;
  }

  lemma AbortDrops(pairs: seq<Pair>, events: seq<Event>, hasBody: bool, n: nat)
    requires IsPlay(pairs, events, hasBody) && n < |events|
    requires events[n].SidecarReads? && pairs[n].up != [] && pairs[n].up[0] == Abort
    ensures n + 1 < |pairs| && Dropped(pairs[n + 1].s)
  {
    PlayInv(pairs, events, hasBody, n);
    PlayLingers(pairs, events, hasBody, n);
    PlayStep(pairs, events, hasBody, n);
    ReadsAbort(pairs[n], events[n].accept, hasBody);
  }

  /** On every run, once the sidecar has read an abort the request is let go for good: its entry stays gone, no permit is
      ever acquired, and at most the one chunk then held is still queued. */
  lemma AbortLetsGo(pairs: seq<Pair>, events: seq<Event>, hasBody: bool, n: nat, m: nat)
    requires IsPlay(pairs, events, hasBody) && n < m <= |events| < |pairs|
    requires events[n].SidecarReads? && pairs[n].up != [] && pairs[n].up[0] == Abort
    ensures !pairs[m].s.known && LetGo(pairs[m].s) && !CanHappen(pairs[m], TaskAcquires)
    ensures |pairs| == |events| + 1 && ChunksQueued(pairs, events, n + 1, m) <= One(pairs[n + 1].s.holding)
  {
    AbortDrops(pairs, events, hasBody, n);
    StaysDropped(pairs, events, hasBody, n + 1, m);
  }

  /** And credits and body frames read after that change nothing, and are answered with a cancellation. */
  lemma LateFramesChangeNothing(pairs: seq<Pair>, events: seq<Event>, hasBody: bool, n: nat, m: nat)
    requires IsPlay(pairs, events, hasBody) && n < m < |events| < |pairs|
    requires events[n].SidecarReads? && pairs[n].up != [] && pairs[n].up[0] == Abort
    requires events[m].SidecarReads? && pairs[m].up != [] && (pairs[m].up[0].Grant? || pairs[m].up[0].Body?)
    ensures pairs[m + 1].s == pairs[m].s
    ensures pairs[m + 1].down == pairs[m].down + [Cancel(if pairs[m].up[0].Body? then NoLiveBody else NoLiveResponse)]
  {
    AbortDrops(pairs, events, hasBody, n);
    StaysDropped(pairs, events, hasBody, n + 1, m);
    PlayInv(pairs, events, hasBody, m);
    PlayStep(pairs, events, hasBody, m);
    ReadsLate(pairs[m], events[m].accept, hasBody);
  }

  lemma ReadsLate(p: Pair, accept: bool, hasBody: bool)
    requires CreditInv(p, hasBody) && Dropped(p.s) && p.up != [] && (p.up[0].Grant? || p.up[0].Body?)
    ensures var q := Step(p, SidecarReads(accept));
            q.s == p.s && q.down == p.down + [Cancel(if p.up[0].Body? then NoLiveBody else NoLiveResponse)]
  {
    NothingExceeded(p, hasBody);
  }

  /** The abort is on its way, or has been read. */
  ghost predicate Told(p: Pair) {
    Abort in p.up || Dropped(p.s)
  }

  lemma StepTold(p: Pair, a: Event, hasBody: bool)
    requires CreditInv(p, hasBody) && NoneLingers(p.s) && Told(p)
    ensures Told(Step(p, a))
  {
    if Dropped(p.s) {
      StepDropped(p, a, hasBody);
    } else if a.SidecarReads? && p.up[0] == Abort {
      ReadsAbort(p, a.accept, hasBody);
    } else if a.SidecarReads? {
      assert p.up == [p.up[0]] + p.up[1..];
    }
  }

  lemma {:induction false} StaysTold(pairs: seq<Pair>, events: seq<Event>, hasBody: bool, n: nat, m: nat)
    requires IsPlay(pairs, events, hasBody) && n <= m < |pairs| && Told(pairs[n])
    ensures Told(pairs[m])
    decreases m
  {
    if n < m {
      StaysTold(pairs, events, hasBody, n, m - 1);
      PlayInv(pairs, events, hasBody, m - 1);
      PlayLingers(pairs, events, hasBody, m - 1);
      StepTold(pairs[m - 1], events[m - 1], hasBody);
    }
  }

  /** When the application aborts a live stream over a working connection, then at every later point either the abort is
      still on its way to the sidecar or the sidecar has let go of the request. */
  lemma AbortArrives(pairs: seq<Pair>, events: seq<Event>, hasBody: bool, n: nat, m: nat)
    requires IsPlay(pairs, events, hasBody) && n < m < |pairs| && events[n] == AppAborts(true) && pairs[n].e.live
    ensures !pairs[n + 1].e.live && (Abort in pairs[m].up || (LetGo(pairs[m].s) && !pairs[m].s.known))
  {
    assert Abort in pairs[n + 1].up;
    StaysTold(pairs, events, hasBody, n + 1, m);
  }

  // ---- The end of an upload ----

  /** The end of the body is on its way, or has closed it. */
  ghost predicate EndTold(p: Pair) {
    p.e.live && p.e.done ==> BodyEnd in p.up || (p.s.started && !(p.s.known && p.s.bodyOpen))
  }

  lemma ReadsBodyEnd(p: Pair, accept: bool, hasBody: bool)
    requires CreditInv(p, hasBody) && p.up != [] && p.up[0] == BodyEnd
    ensures var q := Step(p, SidecarReads(accept)); q.s.started && !(q.s.known && q.s.bodyOpen)
  {
    assert p.s.started;
  }

  lemma ListenClosed(s: Side, m: Up, accept: bool)
    requires s.started && !(s.known && s.bodyOpen) && !m.Open?
    ensures var t := Listen(s, m, accept).0; t.started && !(t.known && t.bodyOpen)
  {
  }

  lemma SideEndTold(p: Pair, accept: bool)
    requires CreditInv(p, true) && EndTold(p) && p.up != []
    ensures EndTold(Step(p, SidecarReads(accept)))
  {
    assert p.up == [p.up[0]] + p.up[1..];
    if p.up[0] == BodyEnd {
      ReadsBodyEnd(p, accept, true);
    } else if p.s.started && !(p.s.known && p.s.bodyOpen) {
      ListenClosed(p.s, p.up[0], accept);
    }
  }

  lemma StepEndTold(p: Pair, a: Event)
    requires CreditInv(p, true) && EndTold(p)
    ensures EndTold(Step(p, a))
  {
    if a.SidecarReads? && p.up != [] {
      SideEndTold(p, a.accept);
    }
  }

  lemma {:induction false} PlayEndTold(pairs: seq<Pair>, events: seq<Event>, n: nat)
    requires IsPlay(pairs, events, true) && n < |pairs|
    ensures EndTold(pairs[n])
  {
    if n > 0 {
      PlayEndTold(pairs, events, n - 1);
      PlayInv(pairs, events, true, n - 1);
      StepEndTold(pairs[n - 1], events[n - 1]);
    }
  }

  /** At every point of every upload: once the writer of a live stream has finished, either the end of the body is still on
      its way or the sidecar's body is closed, so that the runtime can come to its end. */
  lemma BodyEndArrives(pairs: seq<Pair>, events: seq<Event>, n: nat)
    requires IsPlay(pairs, events, true) && n < |pairs| && pairs[n].e.live && pairs[n].e.done && BodyEnd !in pairs[n].up
    ensures var s := pairs[n].s;
            && s.started && !(s.known && s.bodyOpen)
            && (s.runtime == Working && !s.hand && s.channel == 0 ==> CanHappen(pairs[n], RuntimeEnds))
  {
    PlayEndTold(pairs, events, n);
  }

  // ---- Failures ----

  predicate Unhappy(status: Status) {
    status == Status.Refused || status == Failed(RuntimeFailed) || status == Failed(BodyRejected)
  }

  lemma HearsOnBroken(p: Pair, direct: bool, connected: bool, hasBody: bool)
    requires CreditInv(p, hasBody) && p.e.live && p.down != [] && !Terminal(p.down[0]) && p.s.runtime == Broken
    ensures var q := Step(p, ElectronHears(direct, connected));
            CreditInv(q, hasBody) && q.e.live && q.down == p.down[1..] && q.s == p.s
  {
    StepInv(p, ElectronHears(direct, connected), hasBody);
    assert !Late(p.down[0]);
  }

  lemma {:induction false} HearsTheFailure(p: Pair, ways: seq<(bool, bool)>, hasBody: bool)
    requires CreditInv(p, hasBody) && p.e.live && p.s.runtime == Broken && HasTerminal(p.down) && |ways| >= |p.down|
    ensures Unhappy(HearAll(p, ways).e.status)
    decreases |ways|
  {
    var q := Step(p, ElectronHears(ways[0].0, ways[0].1));
    if Terminal(p.down[0]) {
      assert Truthful(p.down[0], p.s.runtime);
      DeadStays(q, ways[1..]);
    } else {
      HearsOnBroken(p, ways[0].0, ways[0].1, hasBody);
      HearsTheFailure(q, ways[1..], hasBody);
    }
  }

  /** On every run, once the runtime has failed and the sidecar has queued the failure or let go of the request, a live stream
      is refused or fails when Electron reads what is queued: it is never left hanging. */
  lemma FailureIsHeard(pairs: seq<Pair>, events: seq<Event>, hasBody: bool, n: nat, ways: seq<(bool, bool)>)
    requires IsPlay(pairs, events, hasBody) && n < |pairs|
    requires var p := pairs[n];
             && p.e.live && p.s.started && p.s.runtime == Broken && (p.s.task != Running || LetGo(p.s))
             && |ways| >= |p.down|
    ensures Unhappy(HearAll(pairs[n], ways).e.status)
  {
    PlayInv(pairs, events, hasBody, n);
    HearsTheFailure(pairs[n], ways, hasBody);
  }
}
