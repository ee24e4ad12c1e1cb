/** What each side keeps to whatever the other sends, and what exactly it refuses. */
module CreditGuards {
  import opened Prelude
  import opened Credits
  import opened CreditInvariant

  // ---- The sidecar ----

  /** A credit frame that asks for nothing or for more than any window. */
  predicate OutOfRange(credits: nat) {
    credits == 0 || credits > 64
  }

  /** The sidecar answers a frame exactly when it does not accept it, and says why; what it does not accept changes nothing,
      except that a credit beyond the window closes the response and a body frame beyond the channel ends the request. */
  lemma AnswersExactly(s: Side, m: Up, accept: bool)
    ensures var (t, frames) := Listen(s, m, accept);
            match m
            case Open(hasBody) => (
              && (frames == [Refuse] <==> s.known || !accept) && (s.known ==> t == s)
              && (!s.known && accept ==> t.known && t.bodyOpen == hasBody && t.permits == 0
                                         && frames == if hasBody then [BodyGrant(4)] else []))
            case Misgrant => t == s && frames == [Cancel(InvalidCredit)]
            case Grant(credits) => (
              && (frames == [Cancel(InvalidCredit)] <==> OutOfRange(credits))
              && (frames == [Cancel(NoLiveResponse)] <==> !OutOfRange(credits) && !s.known)
              && (frames == [Cancel(WindowExceeded)]
                  <==> !OutOfRange(credits) && s.known && (s.closed || s.permits + credits > 64))
              && (frames != [] ==> t == s.(closed := s.closed || frames == [Cancel(WindowExceeded)]))
              && (frames == [] ==> t.permits == s.permits + credits))
            case Body => (
              && (frames == [Cancel(NoLiveBody)] <==> !s.known || !s.bodyOpen)
              && (frames == [Cancel(BodyRejected)]
                  <==> s.known && s.bodyOpen && (s.channel >= 4 || s.runtime != Working))
              && (frames == [Cancel(NoLiveBody)] ==> t == s) && (frames == [Cancel(BodyRejected)] ==> !t.known && t.closed)
              && (frames == [] ==> t.channel == s.channel + 1))
            case BodyEnd => (
              && (frames == [Cancel(NoLiveBody)] <==> !s.known || !s.bodyOpen)
              && (frames == [] ==> !t.bodyOpen) && (frames != [] ==> t == s))
            case Abort => frames == [] && !t.known
  {
  }

  predicate SidecarWithin(s: Side) {
    s.permits <= 64 && s.channel <= 4
  }

  /** The sidecar's side after any frames at all. */
  function ListenAll(s: Side, ms: seq<(Up, bool)>): Side
    decreases |ms|
  {
    if ms == [] then s else ListenAll(Listen(s, ms[0].0, ms[0].1).0, ms[1..])
  }

  /** Whatever frames arrive, the permits of a response and the chunks in the body channel stay within their bounds. */
  lemma {:induction false} SidecarStaysWithin(s: Side, ms: seq<(Up, bool)>)
    requires SidecarWithin(s)
    ensures SidecarWithin(ListenAll(s, ms))
    decreases |ms|
  {
    if ms != [] {
      SidecarStaysWithin(Listen(s, ms[0].0, ms[0].1).0, ms[1..]);
    }
  }

  /** And its own tasks and the runtime only ever use them up. */
  lemma TasksStayWithin(p: Pair, a: Event)
    requires SidecarWithin(p.s)
    ensures SidecarWithin(Step(p, a).s)
  {
  }

  // ---- Electron ----

  /** A grant of upload credits beyond what the window can count, after the waiting writers have been served. */
  predicate Overflows(e: Electron, credits: nat) {
    credits > e.waiters && e.requestCredits + (credits - e.waiters) > 64
  }

  /** A frame that breaks the rules of the stream. */
  predicate Violates(e: Electron, m: Down) {
    match m
    case Head(payload) => payload && e.responseCredits == 0
    case Chunk => e.responseCredits == 0
    case BodyGrant(credits) => OutOfRange(credits) || Overflows(e, credits)
    case BodyMisgrant => true
    case _ => false
  }

  /** Electron ends a live stream exactly on the sidecar's end, refusal or cancellation and on a frame that breaks the rules;
      only for the last does it tell the sidecar. */
  lemma EndsExactly(e: Electron, m: Down, direct: bool)
    requires e.live
    ensures var (t, frames) := Hear(e, m, direct);
            && (!t.live <==> m.Finish? || m.Refuse? || m.Cancel? || Violates(e, m))
            && (frames == [Abort] <==> Violates(e, m)) && (frames == [] <==> !Violates(e, m))
            && (m.Finish? <==> t.status == Completed && !t.live)
            && (m.Refuse? ==> t.status == Status.Refused) && (m.Cancel? ==> t.status == Failed(m.why))
            && (!t.live ==> t.waiters == 0)
  {
  }

  /** What an accepted frame is worth: a payload costs a credit and is queued unless a read was waiting for it, and upload
      credits go to waiting writers first. */
  lemma AcceptsExactly(e: Electron, m: Down, direct: bool)
    requires e.live && Hear(e, m, direct).0.live
    ensures var t := Hear(e, m, direct).0;
            var payload := m.Chunk? || m == Head(true);
            && t.responseCredits == e.responseCredits - One(payload)
            && t.queued == e.queued + One(payload && !direct)
            && match m
               case BodyGrant(credits) => (
                 && t.waiters == (if credits <= e.waiters then e.waiters - credits else 0)
                 && t.tokens - e.tokens == e.waiters - t.waiters
                 && t.requestCredits + t.tokens == e.requestCredits + e.tokens + credits)
               case _ => t.requestCredits == e.requestCredits && t.tokens == e.tokens && t.waiters == e.waiters
  {
  }

  function HeardAll(e: Electron, ms: seq<(Down, bool)>): Electron
    decreases |ms|
  {
    if ms == [] then e else HeardAll(Hear(e, ms[0].0, ms[0].1).0, ms[1..])
  }

  /** Whatever frames arrive, Electron never queues more than it had granted, and never counts more upload credits than one
      window. */
  lemma {:induction false} ElectronStaysWithin(e: Electron, ms: seq<(Down, bool)>)
    requires e.requestCredits <= 64
    ensures var t := HeardAll(e, ms);
            t.queued + t.responseCredits <= e.queued + e.responseCredits && t.requestCredits <= 64
    decreases |ms|
  {
    if ms != [] {
      ElectronStaysWithin(Hear(e, ms[0].0, ms[0].1).0, ms[1..]);
    }
  }

  /** A pull that has places to offer either tells the sidecar of all of them or, when it cannot write, fails the stream and
      counts none. */
  lemma PullsExactly(e: Electron, connected: bool)
    requires e.live && e.queued <= 4 && e.responseCredits < 4 - e.queued
    ensures var (t, frames) := GrantResponseCredits(e, connected);
            if connected then t.live && frames == [Grant(4 - e.queued - e.responseCredits)] && t.responseCredits == 4 - e.queued
            else !t.live && t.status == Disconnected && frames == [] && t.responseCredits == e.responseCredits
  {
  }

  /** A writer that wants to write gets a credit if there is one and waits otherwise. */
  lemma TakesExactly(e: Electron)
    requires e.live
    ensures var t := TakeRequestCredit(e);
            if e.requestCredits > 0 then t.tokens == e.tokens + 1 && t.requestCredits == e.requestCredits - 1 && t.waiters == e.waiters
            else t.tokens == e.tokens && t.requestCredits == 0 && t.waiters == e.waiters + 1
  {
  }
}
