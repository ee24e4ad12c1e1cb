/** One HTTP stream between Electron and the native sidecar: two first-in-first-out channels and credits both ways. */
module Credits {
  import opened Prelude

  const HIGH_WATER_MARK: nat := 4
  const MAX_STREAM_CREDITS: nat := 64
  const REQUEST_INPUT_CHANNEL_FRAMES: nat := 4

  /** Frames from Electron to the sidecar, for one request. `Misgrant` is a credit frame with the wrong direction or with
      metadata that does not decode. */
  datatype Up = Open(hasBody: bool) | Grant(credits: nat) | Misgrant | Body | BodyEnd | Abort

  datatype Why = RuntimeFailed | BodyRejected | InvalidCredit | NoLiveResponse | NoLiveBody | WindowExceeded

  /** Frames from the sidecar to Electron. `Refuse` is a response that is not ok, `Head(true)` one that carries a payload,
      and `BodyMisgrant` a credit frame with the wrong direction or with metadata that does not decode. */
  datatype Down = Head(payload: bool) | Chunk | Finish | Refuse | Cancel(why: Why) | BodyGrant(credits: nat) | BodyMisgrant

  // ---- Electron ----

  datatype Status = Active | Completed | Aborted | Refused | Failed(why: Why) | Overrun | BadGrant | Disconnected

  /** The stream's entry in `pending`, the response chunks queued for the reader, and the upload pump: credits it has
      taken and not yet spent, and whether it has sent its last frame. */
  datatype Electron = Electron(
    live: bool,
    requestCredits: nat,
    waiters: nat,
    responseCredits: nat,
    queued: nat,
    tokens: nat,
    done: bool,
    status: Status)

  function Stopped(e: Electron, status: Status): Electron {
    e.(live := false, waiters := 0, status := status)
  }

  function AddRequestCredits(e: Electron, credits: nat): (Electron, seq<Up>) {
    if !e.live then (e, [])
    else if credits == 0 || credits > MAX_STREAM_CREDITS then (Stopped(e, BadGrant), [Abort])
    else
      var served := Min(credits, e.waiters);
      var e' := e.(waiters := e.waiters - served, tokens := e.tokens + served);
      if credits > served && e.requestCredits + (credits - served) > MAX_STREAM_CREDITS then
        (Stopped(e', BadGrant), [Abort])
      else
        (e'.(requestCredits := e.requestCredits + (credits - served)), [])
  }

  function TakeRequestCredit(e: Electron): Electron {
    if !e.live then e
    else if e.requestCredits > 0 then e.(requestCredits := e.requestCredits - 1, tokens := e.tokens + 1)
    else e.(waiters := e.waiters + 1)
  }

  function Desired(e: Electron): nat {
    Min(MAX_STREAM_CREDITS, SaturatingSub(HIGH_WATER_MARK, e.queued))
  }

  /** A write that fails takes the credits back and fails the stream. */
  function GrantResponseCredits(e: Electron, connected: bool): (Electron, seq<Up>) {
    if !e.live || Desired(e) <= e.responseCredits then
      (e, [])
    else if !connected then
      (Stopped(e, Disconnected), [])
    else
      (e.(responseCredits := Desired(e)), [Grant(Desired(e) - e.responseCredits)])
  }

  /** A response chunk; `direct` when a read is already waiting for it. */
  function TakeChunk(e: Electron, direct: bool): (Electron, seq<Up>) {
    if !e.live then (e, [])
    else if e.responseCredits == 0 then (Stopped(e, Overrun), [Abort])
    else (e.(responseCredits := e.responseCredits - 1, queued := if direct then e.queued else e.queued + 1), [])
  }

  function Hear(e: Electron, m: Down, direct: bool): (Electron, seq<Up>) {
    if !e.live then (e, [])
    else
      match m
      case Head(payload) => if payload then TakeChunk(e, direct) else (e, [])
      case Chunk => TakeChunk(e, direct)
      case Finish => (Stopped(e, Completed), [])
      case Refuse => (Stopped(e, Refused), [])
      case Cancel(why) => (Stopped(e, Failed(why)), [])
      case BodyGrant(credits) => AddRequestCredits(e, credits)
      case BodyMisgrant => (Stopped(e, BadGrant), [Abort])
  }

  /** The upload pump after a write of its own has failed. */
  function PumpFailed(e: Electron): Electron {
    (if e.live then Stopped(e, Disconnected) else e).(tokens := 0, waiters := 0, done := true)
  }

  /** What reaches the socket. */
  function Written(frames: seq<Up>, connected: bool): seq<Up> {
    if connected then frames else []
  }

  /** The stream's entry in the sidecar client, with the frames it has written. */
  class StreamPending {
    var live: bool
    var requestCredits: nat
    var requestCreditWaiters: nat
    var responseCredits: nat
    var queued: nat
    var tokens: nat
    var done: bool
    var status: Status
    var written: seq<Up>

    ghost function View(): Electron
      reads this
    {
      Electron(live, requestCredits, requestCreditWaiters, responseCredits, queued, tokens, done, status)
    }

    constructor (hasBody: bool)
      ensures View() == Electron(true, 0, 0, 0, 0, 0, !hasBody, Active) && written == [Open(hasBody)]
    {
      live, requestCredits, requestCreditWaiters, responseCredits, queued, tokens := true, 0, 0, 0, 0, 0;
      done, status, written := !hasBody, Active, [Open(hasBody)];
    }

    /** The frame is lost when the socket is gone. */
    method FailStream(status: Status, notifySidecar: bool, connected: bool)
      requires live
      modifies this
      ensures View() == Stopped(old(View()), status)
      ensures written == old(written) + if notifySidecar && connected then [Abort] else []
    {
      if notifySidecar && connected {
        written := written + [Abort];
      }
      requestCreditWaiters := 0;
      live := false;
      this.status := status;
    }

    method AddCredits(credits: nat, connected: bool)
      modifies this
      ensures (View(), written)
           == var (e, frames) := AddRequestCredits(old(View()), credits); (e, old(written) + Written(frames, connected))
    {
      assert written + [] == written;
      if !live {
        return;
      }
      if credits == 0 || credits > MAX_STREAM_CREDITS {
        FailStream(BadGrant, true, connected);
        return;
      }
      var remaining := credits;
      while remaining > 0 && requestCreditWaiters > 0
        invariant requestCreditWaiters <= old(requestCreditWaiters) && 0 <= remaining <= credits
        invariant credits - remaining == old(requestCreditWaiters) - requestCreditWaiters
        invariant View() == old(View()).(waiters := requestCreditWaiters, tokens := old(tokens) + (credits - remaining))
        invariant written == old(written)
      {
        requestCreditWaiters := requestCreditWaiters - 1;
        tokens := tokens + 1;
        remaining := remaining - 1;
      }
      if remaining > 0 {
        if requestCredits + remaining > MAX_STREAM_CREDITS {
          FailStream(BadGrant, true, connected);
          return;
        }
        requestCredits := requestCredits + remaining;
      }
    }

    method TakeCredit()
      modifies this
      ensures View() == TakeRequestCredit(old(View())) && written == old(written)
    {
      if !live {
        return;
      }
      if requestCredits > 0 {
        requestCredits := requestCredits - 1;
        tokens := tokens + 1;
        return;
      }
      requestCreditWaiters := requestCreditWaiters + 1;
    }

    method GrantCredits(connected: bool)
      modifies this
      ensures (View(), written)
           == var (e, frames) := GrantResponseCredits(old(View()), connected); (e, old(written) + frames)
    {
      assert written + [] == written;
      if !live {
        return;
      }
      var desired: int := Min(MAX_STREAM_CREDITS, SaturatingSub(HIGH_WATER_MARK, queued));
      var credits := desired - responseCredits;
      if credits <= 0 {
        return;
      }
      responseCredits := responseCredits + credits;
      if connected {
        written := written + [Grant(credits)];
      } else {
        responseCredits := responseCredits - credits;
        FailStream(Disconnected, false, connected);
      }
    }

    method TakePayload(direct: bool, connected: bool)
      requires live
      modifies this
      ensures (View(), written)
           == var (e, frames) := TakeChunk(old(View()), direct); (e, old(written) + Written(frames, connected))
    {
      assert written + [] == written;
      if responseCredits == 0 {
        FailStream(Overrun, true, connected);
        return;
      }
      responseCredits := responseCredits - 1;
      queued := if direct then queued else queued + 1;
    }

    method HearFrame(m: Down, direct: bool, connected: bool)
      modifies this
      ensures (View(), written)
           == var (e, frames) := Hear(old(View()), m, direct); (e, old(written) + Written(frames, connected))
    {
      assert written + [] == written;
      if !live {
        return;
      }
      match m {
        case BodyGrant(credits) =>
          AddCredits(credits, connected);
        case BodyMisgrant => FailStream(BadGrant, true, connected);
        case Chunk => TakePayload(direct, connected);
        case Finish => FailStream(Completed, false, connected);
        case Refuse => FailStream(Refused, false, connected);
        case Cancel(why) => FailStream(Failed(why), false, connected);
        case Head(payload) =>
          if payload {
            TakePayload(direct, connected);
          }
      }
    }
  }

  // ---- The sidecar ----

  datatype Task = Running | Ended | Gone

  datatype Runtime = Working | Done | Broken

  /** The sidecar's side of one request. `known`, `closed`, `permits` and `bodyOpen` are the entry in `active` with its
      semaphore and request-body sender; `task` forwards responses, `holding` while it has a permit for a chunk it has
      not queued; `channel`, `hand` and `credits` are the request-body channel, the chunk in the runtime's hand and the
      runtime's credit channel. */
  datatype Side = Side(
    started: bool,
    known: bool,
    closed: bool,
    permits: nat,
    bodyOpen: bool,
    task: Task,
    holding: bool,
    runtime: Runtime,
    channel: nat,
    hand: bool,
    credits: nat)

  const UNSTARTED := Side(false, false, false, 0, false, Gone, false, Working, 0, false, 0)

  function Start(hasBody: bool, accept: bool): (Side, seq<Down>) {
    if accept then
      (Side(true, true, false, 0, hasBody, Running, false, Working, 0, false, 0),
       if hasBody then [BodyGrant(REQUEST_INPUT_CHANNEL_FRAMES)] else [])
    else
      (UNSTARTED.(started := true, runtime := Broken), [Refuse])
  }

  function TakeGrant(s: Side, credits: nat): (Side, seq<Down>) {
    if credits == 0 || credits > MAX_STREAM_CREDITS then (s, [Cancel(InvalidCredit)])
    else if !s.known then (s, [Cancel(NoLiveResponse)])
    else if s.closed || s.permits + credits > MAX_STREAM_CREDITS then (s.(closed := true), [Cancel(WindowExceeded)])
    else (s.(permits := s.permits + credits), [])
  }

  /** `try_send` fails on a full channel and on one whose receiver is gone. */
  function TakeBody(s: Side): (Side, seq<Down>) {
    if !(s.known && s.bodyOpen) then (s, [Cancel(NoLiveBody)])
    else if s.channel >= REQUEST_INPUT_CHANNEL_FRAMES || s.runtime != Working then
      (s.(known := false, closed := true), [Cancel(BodyRejected)])
    else (s.(channel := s.channel + 1), [])
  }

  function Listen(s: Side, m: Up, accept: bool): (Side, seq<Down>) {
    match m
    case Open(hasBody) => if s.known || (s.started && !accept) then (s, [Refuse]) else Start(hasBody, accept)
    case Grant(credits) => TakeGrant(s, credits)
    case Misgrant => (s, [Cancel(InvalidCredit)])
    case Body => TakeBody(s)
    case BodyEnd => if s.known && s.bodyOpen then (s.(bodyOpen := false), []) else (s, [Cancel(NoLiveBody)])
    case Abort => (if s.known then s.(known := false, closed := true) else s, [])
  }

  /** The connection: every request it knows, and the frames queued for Electron. */
  class Connection {
    var requests: map<nat, Side>
    var outbound: seq<(nat, Down)>

    constructor ()
      ensures requests == map[] && outbound == []
    {
      requests, outbound := map[], [];
    }

    ghost function SideOf(id: nat): Side
      reads this
    {
      if id in requests then requests[id] else UNSTARTED
    }

    static function Tagged(id: nat, frames: seq<Down>): seq<(nat, Down)> {
      seq(|frames|, i requires 0 <= i < |frames| => (id, frames[i]))
    }

    method QueueResponse(id: nat, m: Down)
      modifies this`outbound
      ensures outbound == old(outbound) + Tagged(id, [m])
    {
      outbound := outbound + [(id, m)];
    }

    /** One frame of the read loop: it changes only its own request, exactly as `Listen` says. */
    method ReadFrame(id: nat, m: Up, accept: bool)
      modifies this
      ensures requests.Keys <= old(requests).Keys + {id}
      ensures forall other | other in old(requests) && other != id ::
                other in requests && requests[other] == old(requests)[other]
      ensures var (s, frames) := Listen(old(SideOf(id)), m, accept);
              SideOf(id) == s && outbound == old(outbound) + Tagged(id, frames)
    {
      var s := if id in requests then requests[id] else UNSTARTED;
      match m {
        case Open(hasBody) =>
          if s.known {
            QueueResponse(id, Refuse);
          } else if accept {
            requests := requests[id := Side(true, true, false, 0, hasBody, Running, false, Working, 0, false, 0)];
            if hasBody {
              QueueResponse(id, BodyGrant(REQUEST_INPUT_CHANNEL_FRAMES));
            }
          } else {
            if !s.started {
              requests := requests[id := UNSTARTED.(started := true, runtime := Broken)];
            }
            QueueResponse(id, Refuse);
          }
        case Body =>
          if s.known && s.bodyOpen {
            if s.channel < REQUEST_INPUT_CHANNEL_FRAMES && s.runtime == Working {
              requests := requests[id := s.(channel := s.channel + 1)];
            } else {
              requests := requests[id := s.(known := false, closed := true)];
              QueueResponse(id, Cancel(BodyRejected));
            }
          } else {
            QueueResponse(id, Cancel(NoLiveBody));
          }
        case BodyEnd =>
          if s.known && s.bodyOpen {
            requests := requests[id := s.(bodyOpen := false)];
          } else {
            QueueResponse(id, Cancel(NoLiveBody));
          }
        case Misgrant => QueueResponse(id, Cancel(InvalidCredit));
        case Grant(credits) =>
          if credits == 0 || credits > MAX_STREAM_CREDITS {
            QueueResponse(id, Cancel(InvalidCredit));
            return;
          }
          if !s.known {
            QueueResponse(id, Cancel(NoLiveResponse));
            return;
          }
          if s.closed || s.permits + credits > MAX_STREAM_CREDITS {
            requests := requests[id := s.(closed := true)];
            QueueResponse(id, Cancel(WindowExceeded));
            return;
          }
          requests := requests[id := s.(permits := s.permits + credits)];
        case Abort =>
          if s.known {
            requests := requests[id := s.(known := false, closed := true)];
          }
      }
    }
  }

  // ---- Both sides and the channels between them ----

  datatype Pair = Pair(e: Electron, up: seq<Up>, s: Side, down: seq<Down>)

  datatype Event =
    | ReaderTakes
    | ReaderPulls(connected: bool)
    | PumpWants
    | PumpWrites(connected: bool)
    | PumpEnds(connected: bool)
    | AppAborts(connected: bool)
    | ElectronHears(direct: bool, connected: bool)
    | SidecarReads(accept: bool)
    | TaskAcquires
    | TaskQueuesChunk
    | TaskQueuesHead
    | TaskFinishes
    | TaskFails(headSent: bool)
    | TaskGivesUp
    | TaskCloses
    | TaskRemoves
    | RuntimeTakes
    | RuntimeCredits
    | RuntimeEnds
    | RuntimeBreaks
    | ForwardsCredit

  predicate CanHappen(p: Pair, a: Event) {
    match a
    case ReaderTakes => p.e.queued > 0
    case ReaderPulls(_) => true
    case PumpWants => p.e.live && !p.e.done
    case PumpWrites(_) => p.e.tokens > 0
    case PumpEnds(_) => !p.e.done && p.e.tokens == 0 && p.e.waiters == 0
    case AppAborts(_) => p.e.live
    case ElectronHears(_, _) => p.down != []
    case SidecarReads(_) => p.up != []
    case TaskAcquires => p.s.task == Running && !p.s.holding && p.s.permits > 0 && !p.s.closed
    case TaskQueuesChunk => p.s.task == Running && p.s.holding
    case TaskQueuesHead => p.s.task == Running && !p.s.holding
    case TaskFinishes => p.s.task == Running && !p.s.holding && p.s.runtime == Done
    case TaskFails(_) => p.s.task == Running && !p.s.holding && p.s.runtime == Broken
    case TaskGivesUp => p.s.task == Running && !p.s.holding && p.s.closed
    case TaskCloses => p.s.task == Ended
    case TaskRemoves => p.s.task == Ended && p.s.closed
    case RuntimeTakes => p.s.runtime == Working && p.s.channel > 0 && !p.s.hand
    case RuntimeCredits => p.s.runtime == Working && p.s.hand
    case RuntimeEnds => p.s.started && p.s.runtime == Working && !p.s.hand && p.s.channel == 0 && !(p.s.known && p.s.bodyOpen)
    case RuntimeBreaks => p.s.started && p.s.runtime == Working
    case ForwardsCredit => p.s.credits > 0
  }

  function ElectronStep(p: Pair, a: Event): Pair
    requires CanHappen(p, a)
  {
    match a
    case ReaderTakes => p.(e := p.e.(queued := p.e.queued - 1))
    case ReaderPulls(connected) =>
      var (e, frames) := GrantResponseCredits(p.e, connected); p.(e := e, up := p.up + frames)
    case PumpWants => p.(e := TakeRequestCredit(p.e))
    case PumpWrites(connected) =>
      p.(e := if connected then p.e.(tokens := p.e.tokens - 1) else PumpFailed(p.e), up := p.up + Written([Body], connected))
    case PumpEnds(connected) =>
      p.(e := if connected then p.e.(done := true) else PumpFailed(p.e), up := p.up + Written([BodyEnd], connected))
    case AppAborts(connected) => p.(e := Stopped(p.e, Aborted), up := p.up + Written([Abort], connected))
    case ElectronHears(direct, connected) =>
      var (e, frames) := Hear(p.e, p.down[0], direct);
      p.(e := e, up := p.up + Written(frames, connected), down := p.down[1..])
    case _ => p
  }

  function SideStep(p: Pair, a: Event): Pair
    requires CanHappen(p, a)
  {
    match a
    case SidecarReads(accept) =>
      var (s, frames) := Listen(p.s, p.up[0], accept); p.(s := s, up := p.up[1..], down := p.down + frames)
    case TaskAcquires => p.(s := p.s.(permits := p.s.permits - 1, holding := true))
    case TaskQueuesChunk => p.(s := p.s.(holding := false), down := p.down + [Chunk])
    case TaskQueuesHead => p.(down := p.down + [Head(false)])
    case TaskFinishes => p.(s := p.s.(task := Ended), down := p.down + [Finish])
    case TaskFails(headSent) =>
      p.(s := p.s.(task := Ended), down := p.down + [if headSent then Cancel(RuntimeFailed) else Refuse])
    case TaskGivesUp => p.(s := p.s.(task := Ended))
    case TaskCloses => p.(s := p.s.(closed := true))
    case TaskRemoves => p.(s := p.s.(known := false, task := Gone))
    case RuntimeTakes => p.(s := p.s.(channel := p.s.channel - 1, hand := true))
    case RuntimeCredits => p.(s := p.s.(hand := false, credits := p.s.credits + 1))
    case RuntimeEnds => p.(s := p.s.(runtime := Done))
    case RuntimeBreaks => p.(s := p.s.(runtime := Broken))
    case ForwardsCredit => p.(s := p.s.(credits := p.s.credits - 1), down := p.down + [BodyGrant(1)])
    case _ => p
  }

  predicate ByElectron(a: Event) {
    a.ReaderTakes? || a.ReaderPulls? || a.PumpWants? || a.PumpWrites? || a.PumpEnds? || a.AppAborts? || a.ElectronHears?
  }

  function Step(p: Pair, a: Event): Pair {
    if !CanHappen(p, a) then p else if ByElectron(a) then ElectronStep(p, a) else SideStep(p, a)
  }

  /** The request has just been written; nothing has been read. */
  function Opening(hasBody: bool): Pair {
    Pair(Electron(true, 0, 0, 0, 0, 0, !hasBody, Active), [Open(hasBody)], UNSTARTED, [])
  }

  /** A run from the opening: the states passed through, one more than the events. */
  ghost predicate IsPlay(pairs: seq<Pair>, events: seq<Event>, hasBody: bool) {
    && |pairs| == |events| + 1 && pairs[0] == Opening(hasBody)
    && forall i {:trigger events[i]} | 0 <= i < |events| :: pairs[i + 1] == Step(pairs[i], events[i])
  }
}
