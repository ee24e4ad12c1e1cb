/** What every run of the credit protocol keeps: credits are conserved, and they never end a stream. */
module CreditInvariant {
  import opened Prelude
  import opened Credits

  // ---- Adding up what is in a channel ----

  function Total<T>(weight: T -> nat, messages: seq<T>): nat {
    if messages == [] then 0 else Total(weight, messages[..|messages| - 1]) + weight(messages[|messages| - 1])
  }

  lemma {:induction false} TotalAppend<T>(weight: T -> nat, a: seq<T>, b: seq<T>)
    ensures Total(weight, a + b) == Total(weight, a) + Total(weight, b)
    decreases |b|
  {
    if b == [] {
      assert a + b == a;
    } else {
      var front := b[..|b| - 1];
      assert (a + b)[..|a + b| - 1] == a + front;
      TotalAppend(weight, a, front);
    }
  }

  lemma TotalOne<T>(weight: T -> nat, m: T)
    ensures Total(weight, [m]) == weight(m)
  {
    assert [m][..0] == [];
    assert Total(weight, []) == 0;
  }

  lemma TotalSnoc<T>(weight: T -> nat, a: seq<T>, m: T)
    ensures Total(weight, a + [m]) == Total(weight, a) + weight(m)
  {
    TotalAppend(weight, a, [m]);
    TotalOne(weight, m);
  }

  lemma TotalHead<T>(weight: T -> nat, a: seq<T>)
    requires a != []
    ensures Total(weight, a) == weight(a[0]) + Total(weight, a[1..])
  {
    assert a == [a[0]] + a[1..];
    TotalAppend(weight, [a[0]], a[1..]);
    TotalOne(weight, a[0]);
  }

  function GrantOf(m: Up): nat {
    if m.Grant? then m.credits else 0
  }

  function BodyOf(m: Up): nat {
    if m.Body? then 1 else 0
  }

  function ChunkOf(m: Down): nat {
    if m.Chunk? then 1 else 0
  }

  function BodyGrantOf(m: Down): nat {
    if m.BodyGrant? then m.credits else 0
  }

  function One(b: bool): nat {
    if b then 1 else 0
  }

  // ---- Where the credits are ----

  /** The sidecar has let go of the response: its entry is gone or its semaphore closed. */
  predicate LetGo(s: Side) {
    s.started && (!s.known || s.closed)
  }

  ghost predicate ResponseInv(p: Pair) {
    ResponseBooks(p.e, p.s, Transit(p.up, p.down))
  }

  lemma TotalsOf(up: seq<Up>, m: Up)
    ensures Total(GrantOf, up + [m]) == Total(GrantOf, up) + GrantOf(m)
    ensures Total(BodyOf, up + [m]) == Total(BodyOf, up) + BodyOf(m)
    ensures up != [] ==> Total(GrantOf, up) == GrantOf(up[0]) + Total(GrantOf, up[1..])
    ensures up != [] ==> Total(BodyOf, up) == BodyOf(up[0]) + Total(BodyOf, up[1..])
  {
    TotalSnoc(GrantOf, up, m);
    TotalSnoc(BodyOf, up, m);
    if up != [] {
      TotalHead(GrantOf, up);
      TotalHead(BodyOf, up);
    }
  }

  lemma TotalsDown(down: seq<Down>, m: Down)
    ensures Total(ChunkOf, down + [m]) == Total(ChunkOf, down) + ChunkOf(m)
    ensures Total(BodyGrantOf, down + [m]) == Total(BodyGrantOf, down) + BodyGrantOf(m)
    ensures down != [] ==> Total(ChunkOf, down) == ChunkOf(down[0]) + Total(ChunkOf, down[1..])
    ensures down != [] ==> Total(BodyGrantOf, down) == BodyGrantOf(down[0]) + Total(BodyGrantOf, down[1..])
  {
    TotalSnoc(ChunkOf, down, m);
    TotalSnoc(BodyGrantOf, down, m);
    if down != [] {
      TotalHead(ChunkOf, down);
      TotalHead(BodyGrantOf, down);
    }
  }

  lemma NoFrames(up: seq<Up>, down: seq<Down>)
    ensures up + [] == up && down + [] == down
  {
  }

  /** What is in the two channels, as four numbers. */
  datatype InTransit = InTransit(grants: nat, bodies: nat, chunks: nat, bodyGrants: nat)

  function Transit(up: seq<Up>, down: seq<Down>): InTransit {
    InTransit(Total(GrantOf, up), Total(BodyOf, up), Total(ChunkOf, down), Total(BodyGrantOf, down))
  }

  function WithUp(t: InTransit, frames: seq<Up>): InTransit {
    if frames == [] then t else t.(grants := t.grants + GrantOf(frames[0]), bodies := t.bodies + BodyOf(frames[0]))
  }

  function WithDown(t: InTransit, frames: seq<Down>): InTransit {
    if frames == [] then t
    else t.(chunks := t.chunks + ChunkOf(frames[0]), bodyGrants := t.bodyGrants + BodyGrantOf(frames[0]))
  }

  lemma TransitUp(up: seq<Up>, down: seq<Down>, frames: seq<Up>)
    requires |frames| <= 1
    ensures Transit(up + frames, down) == WithUp(Transit(up, down), frames)
  {
    if frames == [] {
      assert up + frames == up;
    } else {
      assert frames == [frames[0]];
      TotalsOf(up, frames[0]);
    }
  }

  lemma TransitDown(up: seq<Up>, down: seq<Down>, frames: seq<Down>)
    requires |frames| <= 1
    ensures Transit(up, down + frames) == WithDown(Transit(up, down), frames)
  {
    if frames == [] {
      assert down + frames == down;
    } else {
      assert frames == [frames[0]];
      TotalsDown(down, frames[0]);
    }
  }

  lemma TransitHeads(up: seq<Up>, down: seq<Down>)
    ensures up != [] ==> Transit(up, down) == WithUp(Transit(up[1..], down), [up[0]])
    ensures down != [] ==> Transit(up, down) == WithDown(Transit(up, down[1..]), [down[0]])
  {
    TotalsOf(up, Abort);
    TotalsDown(down, Chunk);
  }

  /** The response side in numbers. */
  predicate ResponseBooks(e: Electron, s: Side, t: InTransit) {
    var outside := t.grants + s.permits + One(s.holding) + t.chunks;
    && outside <= e.responseCredits <= HIGH_WATER_MARK
    && (e.live && !LetGo(s) ==> outside == e.responseCredits)
    && (e.live ==> e.responseCredits + e.queued <= HIGH_WATER_MARK)
    && e.status != Overrun
  }

  lemma HearBooks(e: Electron, s: Side, t: InTransit, m: Down, direct: bool)
    requires ResponseBooks(e, s, WithDown(t, [m]))
    requires m != Head(true)
    ensures var (e', frames) := Hear(e, m, direct);
            && |frames| <= 1 && ResponseBooks(e', s, WithUp(t, frames)) && ResponseBooks(e', s, t)
  {
  }

  lemma ListenBooks(e: Electron, s: Side, t: InTransit, m: Up, accept: bool)
    requires ResponseBooks(e, s, WithUp(t, [m])) && (if m.Open? then s == UNSTARTED else s.started)
    ensures var (s', frames) := Listen(s, m, accept); |frames| <= 1 && ResponseBooks(e, s', WithDown(t, frames))
  {
  }

  lemma ElectronKeepsResponse(p: Pair, a: Event)
    requires ResponseInv(p) && Sensible(p) && CanHappen(p, a) && ByElectron(a)
    ensures ResponseInv(ElectronStep(p, a))
  {
    match a
    case ReaderPulls(connected) => TransitUp(p.up, p.down, GrantResponseCredits(p.e, connected).1);
    case PumpWrites(connected) => TransitUp(p.up, p.down, Written([Body], connected));
    case PumpEnds(connected) => TransitUp(p.up, p.down, Written([BodyEnd], connected));
    case AppAborts(connected) => TransitUp(p.up, p.down, Written([Abort], connected));
    case ElectronHears(direct, connected) =>
      TransitHeads(p.up, p.down);
      HearBooks(p.e, p.s, Transit(p.up, p.down[1..]), p.down[0], direct);
      TransitUp(p.up, p.down[1..], Written(Hear(p.e, p.down[0], direct).1, connected));
    case _ =>
  }

  lemma ReadingKeepsResponse(p: Pair, accept: bool)
    requires ResponseInv(p) && p.up != [] && if p.up[0].Open? then p.s == UNSTARTED else p.s.started
    ensures ResponseInv(SideStep(p, SidecarReads(accept)))
  {
    TransitHeads(p.up, p.down);
    ListenBooks(p.e, p.s, Transit(p.up[1..], p.down), p.up[0], accept);
    TransitDown(p.up[1..], p.down, Listen(p.s, p.up[0], accept).1);
  }

  /** What a task or the runtime queues. */
  function Queues(a: Event): seq<Down> {
    match a
    case TaskQueuesChunk => [Chunk]
    case TaskQueuesHead => [Head(false)]
    case TaskFinishes => [Finish]
    case TaskFails(headSent) => [if headSent then Cancel(RuntimeFailed) else Down.Refuse]
    case ForwardsCredit => [BodyGrant(1)]
    case _ => []
  }

  /** What its own step leaves of the sidecar's side. */
  function OwnStep(s: Side, a: Event): Side
    requires a.TaskAcquires? ==> s.permits > 0
    requires a.RuntimeTakes? ==> s.channel > 0
    requires a.ForwardsCredit? ==> s.credits > 0
  {
    match a
    case TaskAcquires => s.(permits := s.permits - 1, holding := true)
    case TaskQueuesChunk => s.(holding := false)
    case TaskFinishes => s.(task := Ended)
    case TaskFails(_) => s.(task := Ended)
    case TaskGivesUp => s.(task := Ended)
    case TaskCloses => s.(closed := true)
    case TaskRemoves => s.(known := false, task := Gone)
    case RuntimeTakes => s.(channel := s.channel - 1, hand := true)
    case RuntimeCredits => s.(hand := false, credits := s.credits + 1)
    case RuntimeEnds => s.(runtime := Done)
    case RuntimeBreaks => s.(runtime := Broken)
    case ForwardsCredit => s.(credits := s.credits - 1)
    case _ => s
  }

  lemma OwnStepIs(p: Pair, a: Event)
    requires CanHappen(p, a) && !ByElectron(a) && !a.SidecarReads?
    ensures SideStep(p, a).e == p.e && SideStep(p, a).up == p.up
    ensures SideStep(p, a).s == OwnStep(p.s, a) && SideStep(p, a).down == p.down + Queues(a)
  {
    NoFrames([], p.down);
  }

  lemma OwnResponseBooks(p: Pair, a: Event, t: InTransit)
    requires ResponseBooks(p.e, p.s, t) && CanHappen(p, a) && !ByElectron(a) && !a.SidecarReads?
    ensures ResponseBooks(p.e, OwnStep(p.s, a), WithDown(t, Queues(a)))
  {
  }

  lemma OwnUploadBooks(p: Pair, a: Event, t: InTransit, hasBody: bool)
    requires UploadBooks(p.e, p.s, t, hasBody) && CanHappen(p, a) && !ByElectron(a) && !a.SidecarReads?
    ensures UploadBooks(p.e, OwnStep(p.s, a), WithDown(t, Queues(a)), hasBody)
  {
  }

  lemma SideKeepsResponse(p: Pair, a: Event)
    requires ResponseInv(p) && CanHappen(p, a) && !ByElectron(a)
    requires a.SidecarReads? ==> if p.up[0].Open? then p.s == UNSTARTED else p.s.started
    ensures ResponseInv(SideStep(p, a))
  {
    match a
    case SidecarReads(accept) => ReadingKeepsResponse(p, accept);
    case _ =>
      OwnStepIs(p, a);
      OwnResponseBooks(p, a, Transit(p.up, p.down));
      TransitDown(p.up, p.down, Queues(a));
  }

  // ---- Order in the channels ----

  predicate BodyFrame(m: Up) {
    m.Body? || m.BodyEnd?
  }

  predicate NoBody(up: seq<Up>) {
    forall i | 0 <= i < |up| :: !BodyFrame(up[i])
  }

  /** The opening frame comes first and once. */
  ghost predicate OpenFirst(p: Pair, hasBody: bool) {
    && (forall i | 0 <= i < |p.up| && p.up[i].Open? :: i == 0 && !p.s.started && p.up[0] == Open(hasBody))
    && (!p.s.started ==> p.up != [] && p.up[0].Open? && p.s == UNSTARTED && p.down == [])
    && (p.s.known ==> p.s.started)
  }

  /** The end of the body comes last and once, and nothing of the body is sent for a request without one. */
  ghost predicate BodyLast(p: Pair, hasBody: bool) {
    && (p.e.done ==> p.e.tokens == 0 && p.e.waiters == 0)
    && (forall i, j | 0 <= i < j < |p.up| && p.up[i].BodyEnd? :: !BodyFrame(p.up[j]))
    && (forall i | 0 <= i < |p.up| && p.up[i].BodyEnd? :: p.e.done)
    && (p.s.started && p.s.known && !p.s.bodyOpen ==> p.e.done && NoBody(p.up))
    && (!hasBody ==> p.e.done && NoBody(p.up))
    && (p.s.runtime == Done ==> !(p.s.known && p.s.bodyOpen))
  }

  /** Every grant is well formed and for something, no head carries a payload, and an abort is the last thing a stream
      does. */
  ghost predicate Sensible(p: Pair) {
    && (forall i | 0 <= i < |p.up| :: !p.up[i].Misgrant?)
    && (forall i | 0 <= i < |p.down| :: !p.down[i].BodyMisgrant? && p.down[i] != Head(true))
    && (forall i | 0 <= i < |p.up| && p.up[i].Grant? :: p.up[i].credits > 0)
    && (forall i | 0 <= i < |p.down| && p.down[i].BodyGrant? :: p.down[i].credits > 0)
    && (forall i | 0 <= i < |p.up| && p.up[i].Abort? :: !p.e.live)
  }

  ghost predicate OrderInv(p: Pair, hasBody: bool) {
    OpenFirst(p, hasBody) && BodyLast(p, hasBody) && Sensible(p)
  }

  lemma ElectronKeepsOpenFirst(p: Pair, a: Event, hasBody: bool)
    requires OpenFirst(p, hasBody) && CanHappen(p, a) && ByElectron(a)
    ensures OpenFirst(ElectronStep(p, a), hasBody)
  {
  }

  lemma HearingKeepsBodyLast(p: Pair, direct: bool, connected: bool, hasBody: bool)
    requires BodyLast(p, hasBody) && p.down != []
    ensures BodyLast(ElectronStep(p, ElectronHears(direct, connected)), hasBody)
  {
    var (e, frames) := Hear(p.e, p.down[0], direct);
    assert e.done == p.e.done && forall i | 0 <= i < |frames| :: !BodyFrame(frames[i]);
  }

  lemma ElectronKeepsBodyLast(p: Pair, a: Event, hasBody: bool)
    requires BodyLast(p, hasBody) && CanHappen(p, a) && ByElectron(a)
    ensures BodyLast(ElectronStep(p, a), hasBody)
  {
    match a
    case ElectronHears(direct, connected) => HearingKeepsBodyLast(p, direct, connected, hasBody);
    case _ =>
  }

  lemma ElectronKeepsSensible(p: Pair, a: Event)
    requires Sensible(p) && CanHappen(p, a) && ByElectron(a)
    ensures Sensible(ElectronStep(p, a))
  {
  }

  lemma ElectronKeepsOrder(p: Pair, a: Event, hasBody: bool)
    requires OrderInv(p, hasBody) && CanHappen(p, a) && ByElectron(a)
    ensures OrderInv(ElectronStep(p, a), hasBody)
  {
    ElectronKeepsOpenFirst(p, a, hasBody);
    ElectronKeepsBodyLast(p, a, hasBody);
    ElectronKeepsSensible(p, a);
  }

  lemma SideKeepsOpenFirst(p: Pair, a: Event, hasBody: bool)
    requires OpenFirst(p, hasBody) && CanHappen(p, a) && !ByElectron(a)
    ensures OpenFirst(SideStep(p, a), hasBody)
  {
  }

  lemma SideKeepsBodyLast(p: Pair, a: Event, hasBody: bool)
    requires OpenFirst(p, hasBody) && BodyLast(p, hasBody) && CanHappen(p, a) && !ByElectron(a)
    ensures BodyLast(SideStep(p, a), hasBody)
  {
  }

  lemma SideKeepsSensible(p: Pair, a: Event)
    requires Sensible(p) && CanHappen(p, a) && !ByElectron(a)
    ensures Sensible(SideStep(p, a))
  {
  }

  lemma SideKeepsOrder(p: Pair, a: Event, hasBody: bool)
    requires OrderInv(p, hasBody) && CanHappen(p, a) && !ByElectron(a)
    ensures OrderInv(SideStep(p, a), hasBody)
  {
    SideKeepsOpenFirst(p, a, hasBody);
    SideKeepsBodyLast(p, a, hasBody);
    SideKeepsSensible(p, a);
  }

  // ---- Uploads ----

  function UploadTokens(hasBody: bool): nat {
    if hasBody then REQUEST_INPUT_CHANNEL_FRAMES else 0
  }

  /** Upload credits, wherever they are. */
  function UploadCredits(e: Electron, s: Side, t: InTransit): nat {
    e.requestCredits + e.tokens + t.bodies + s.channel + One(s.hand) + s.credits + t.bodyGrants
  }

  predicate UploadBooks(e: Electron, s: Side, t: InTransit, hasBody: bool) {
    && UploadCredits(e, s, t) <= (if s.started then UploadTokens(hasBody) else 0)
    && (e.live && s.known ==> UploadCredits(e, s, t) == UploadTokens(hasBody))
    && e.status != BadGrant
  }

  ghost predicate UploadInv(p: Pair, hasBody: bool) {
    UploadBooks(p.e, p.s, Transit(p.up, p.down), hasBody)
  }

  lemma HearUploadBooks(e: Electron, s: Side, t: InTransit, m: Down, direct: bool, hasBody: bool)
    requires UploadBooks(e, s, WithDown(t, [m]), hasBody) && (m.BodyGrant? ==> m.credits > 0) && !m.BodyMisgrant?
    ensures var (e', frames) := Hear(e, m, direct);
            |frames| <= 1 && UploadBooks(e', s, WithUp(t, frames), hasBody) && UploadBooks(e', s, t, hasBody)
  {
  }

  lemma ListenUploadBooks(e: Electron, s: Side, t: InTransit, m: Up, accept: bool, hasBody: bool)
    requires UploadBooks(e, s, WithUp(t, [m]), hasBody)
    requires m.Open? ==> s == UNSTARTED && m.hasBody == hasBody
    requires !m.Open? ==> s.started
    requires m.Body? && s.known ==> s.bodyOpen
    ensures var (s', frames) := Listen(s, m, accept); |frames| <= 1 && UploadBooks(e, s', WithDown(t, frames), hasBody)
  {
  }

  lemma HearingKeepsUpload(p: Pair, direct: bool, connected: bool, hasBody: bool)
    requires UploadInv(p, hasBody) && Sensible(p) && p.down != []
    ensures UploadInv(ElectronStep(p, ElectronHears(direct, connected)), hasBody)
  {
    TransitHeads(p.up, p.down);
    HearUploadBooks(p.e, p.s, Transit(p.up, p.down[1..]), p.down[0], direct, hasBody);
    TransitUp(p.up, p.down[1..], Written(Hear(p.e, p.down[0], direct).1, connected));
  }

  lemma GrantUploadBooks(e: Electron, s: Side, t: InTransit, connected: bool, hasBody: bool)
    requires UploadBooks(e, s, t, hasBody)
    ensures var (e', frames) := GrantResponseCredits(e, connected); UploadBooks(e', s, WithUp(t, frames), hasBody)
  {
  }

  lemma PumpUploadBooks(e: Electron, s: Side, t: InTransit, hasBody: bool)
    requires UploadBooks(e, s, t, hasBody)
    ensures UploadBooks(PumpFailed(e), s, t, hasBody)
    ensures e.tokens > 0 ==> UploadBooks(e.(tokens := e.tokens - 1), s, WithUp(t, [Body]), hasBody)
    ensures UploadBooks(e.(done := true), s, WithUp(t, [BodyEnd]), hasBody)
  {
  }

  lemma ElectronKeepsUpload(p: Pair, a: Event, hasBody: bool)
    requires UploadInv(p, hasBody) && Sensible(p) && CanHappen(p, a) && ByElectron(a)
    ensures UploadInv(ElectronStep(p, a), hasBody)
  {
    var t := Transit(p.up, p.down);
    match a
    case ReaderPulls(connected) =>
      GrantUploadBooks(p.e, p.s, t, connected, hasBody);
      TransitUp(p.up, p.down, GrantResponseCredits(p.e, connected).1);
    case PumpWrites(connected) =>
      PumpUploadBooks(p.e, p.s, t, hasBody);
      TransitUp(p.up, p.down, Written([Body], connected));
    case PumpEnds(connected) =>
      PumpUploadBooks(p.e, p.s, t, hasBody);
      TransitUp(p.up, p.down, Written([BodyEnd], connected));
    case AppAborts(connected) => TransitUp(p.up, p.down, Written([Abort], connected));
    case ElectronHears(direct, connected) => HearingKeepsUpload(p, direct, connected, hasBody);
    case _ =>
  }

  lemma ReadingKeepsUpload(p: Pair, accept: bool, hasBody: bool)
    requires UploadInv(p, hasBody) && OrderInv(p, hasBody) && p.up != []
    ensures UploadInv(SideStep(p, SidecarReads(accept)), hasBody)
  {
    TransitHeads(p.up, p.down);
    ListenUploadBooks(p.e, p.s, Transit(p.up[1..], p.down), p.up[0], accept, hasBody);
    TransitDown(p.up[1..], p.down, Listen(p.s, p.up[0], accept).1);
  }

  lemma SideKeepsUpload(p: Pair, a: Event, hasBody: bool)
    requires UploadInv(p, hasBody) && OrderInv(p, hasBody) && CanHappen(p, a) && !ByElectron(a)
    ensures UploadInv(SideStep(p, a), hasBody)
  {
    match a
    case SidecarReads(accept) => ReadingKeepsUpload(p, accept, hasBody);
    case _ =>
      OwnStepIs(p, a);
      OwnUploadBooks(p, a, Transit(p.up, p.down), hasBody);
      TransitDown(p.up, p.down, Queues(a));
  }

  // ---- How a stream ends ----

  /** A frame that ends the stream for a reason of its own. */
  predicate Terminal(m: Down) {
    m.Finish? || m.Refuse? || m == Cancel(RuntimeFailed) || m == Cancel(BodyRejected)
  }

  /** The sidecar's answer to a frame that came too late, or asked for too much. */
  predicate Late(m: Down) {
    m.Cancel? && !Terminal(m)
  }

  predicate HasTerminal(down: seq<Down>) {
    down != [] && (Terminal(down[0]) || HasTerminal(down[1..]))
  }

  /** Late answers come only behind a terminal frame. */
  predicate Orderly(down: seq<Down>) {
    down == [] || Terminal(down[0]) || (!Late(down[0]) && Orderly(down[1..]))
  }

  lemma {:induction false} AppendEnds(down: seq<Down>, m: Down)
    ensures HasTerminal(down + [m]) <==> HasTerminal(down) || Terminal(m)
    ensures Orderly(down) && (Late(m) ==> HasTerminal(down)) ==> Orderly(down + [m])
    decreases |down|
  {
    if down == [] {
      assert down + [m] == [m];
    } else {
      assert (down + [m])[1..] == down[1..] + [m];
      AppendEnds(down[1..], m);
    }
  }

  /** Frames that say how the runtime ended tell the truth. */
  predicate Truthful(m: Down, runtime: Runtime) {
    && (m.Finish? ==> runtime == Done)
    && (m.Refuse? || m == Cancel(RuntimeFailed) || m == Cancel(BodyRejected) ==> runtime == Broken)
  }

  ghost predicate EndInv(p: Pair) {
    && (p.e.live <==> p.e.status == Active)
    && (p.e.live ==> Orderly(p.down))
    && (p.e.live && p.s.started && (LetGo(p.s) || p.s.task != Running) ==> HasTerminal(p.down))
    && (forall i | 0 <= i < |p.down| :: Truthful(p.down[i], p.s.runtime))
    && (p.e.status == Completed ==> p.s.runtime == Done)
    && (p.e.status == Status.Refused || p.e.status.Failed? ==> p.s.runtime == Broken)
    && (p.e.status.Failed? ==> p.e.status.why == RuntimeFailed || p.e.status.why == BodyRejected)
  }

  lemma ElectronKeepsEnd(p: Pair, a: Event)
    requires EndInv(p) && ResponseInv(p) && Sensible(p) && CanHappen(p, a) && ByElectron(a)
    ensures EndInv(ElectronStep(p, a))
  {
    match a
    case ElectronHears(direct, connected) => HearingKeepsEnd(p, direct, connected);
    case _ =>
  }

  lemma HearingKeepsEnd(p: Pair, direct: bool, connected: bool)
    requires EndInv(p) && ResponseInv(p) && Sensible(p) && p.down != []
    ensures EndInv(ElectronStep(p, ElectronHears(direct, connected)))
  {
  }

  /** What a frame read by the sidecar can say back: a late answer only if the sidecar has already let go, a rejection
      only if the runtime has failed; and letting go comes with a terminal frame unless Electron asked for it. */
  lemma ListenAnswers(e: Electron, s: Side, t: InTransit, u: InTransit, m: Up, accept: bool, hasBody: bool)
    requires ResponseBooks(e, s, WithUp(t, [m])) && UploadBooks(e, s, WithUp(u, [m]), hasBody)
    requires if m.Open? then s == UNSTARTED else s.started
    requires (m.Grant? ==> m.credits > 0) && !m.Misgrant?
    requires BodyFrame(m) && s.known ==> s.bodyOpen
    requires s.known && s.bodyOpen ==> s.runtime != Done
    ensures var (s', frames) := Listen(s, m, accept);
            && |frames| <= 1
            && (forall i | 0 <= i < |frames| :: (Late(frames[i]) ==> LetGo(s)) && Truthful(frames[i], s'.runtime))
            && (LetGo(s') ==> LetGo(s) || m.Abort? || (frames != [] && Terminal(frames[0])))
            && (s'.task != Running ==> (s.started && s.task != Running) || (frames != [] && Terminal(frames[0])))
            && (s.started ==> s'.runtime == s.runtime)
  {
  }

  lemma EndAppend(p: Pair, s: Side, frames: seq<Down>)
    requires EndInv(p) && |frames| <= 1 && (p.s.started ==> s.runtime == p.s.runtime)
    requires !p.s.started ==> p.down == [] && p.s.runtime == Working
    requires forall i | 0 <= i < |frames| :: (Late(frames[i]) ==> LetGo(p.s)) && Truthful(frames[i], s.runtime)
    requires p.e.live && LetGo(s) ==> LetGo(p.s) || (frames != [] && Terminal(frames[0]))
    requires s.task != Running ==> (p.s.started && p.s.task != Running) || (frames != [] && Terminal(frames[0]))
    ensures EndInv(p.(s := s, down := p.down + frames))
  {
    if frames == [] {
      NoFrames([], p.down);
    } else {
      assert frames == [frames[0]];
      AppendEnds(p.down, frames[0]);
    }
  }

  lemma ListenKeepsEnd(p: Pair, accept: bool, hasBody: bool)
    requires EndInv(p) && ResponseInv(p) && UploadInv(p, hasBody) && OrderInv(p, hasBody) && p.up != []
    ensures EndInv(SideStep(p, SidecarReads(accept)))
  {
    TransitHeads(p.up, p.down);
    var t := Transit(p.up[1..], p.down);
    ListenAnswers(p.e, p.s, t, t, p.up[0], accept, hasBody);
    var (s, frames) := Listen(p.s, p.up[0], accept);
    EndAppend(p, s, frames);
  }

  lemma OwnKeepsEnd(p: Pair, a: Event)
    requires EndInv(p) && CanHappen(p, a) && !ByElectron(a) && !a.SidecarReads?
    requires p.s.runtime == Done ==> !(p.s.known && p.s.bodyOpen)
    requires Queues(a) == []
    ensures EndInv(p.(s := OwnStep(p.s, a)))
  {
  }

  lemma OwnAppendsEnd(p: Pair, a: Event)
    requires EndInv(p) && CanHappen(p, a) && !ByElectron(a) && Queues(a) != []
    ensures EndInv(p.(s := OwnStep(p.s, a), down := p.down + Queues(a)))
  {
    AppendEnds(p.down, Queues(a)[0]);
    assert Queues(a) == [Queues(a)[0]];
  }

  lemma SideKeepsEnd(p: Pair, a: Event, hasBody: bool)
    requires EndInv(p) && ResponseInv(p) && UploadInv(p, hasBody) && OrderInv(p, hasBody)
    requires CanHappen(p, a) && !ByElectron(a)
    ensures EndInv(SideStep(p, a))
  {
    match a
    case SidecarReads(accept) => ListenKeepsEnd(p, accept, hasBody);
    case _ =>
      OwnStepIs(p, a);
      if Queues(a) == [] {
        NoFrames([], p.down);
        OwnKeepsEnd(p, a);
      } else {
        OwnAppendsEnd(p, a);
      }
  }

  // ---- Runs ----

  ghost predicate CreditInv(p: Pair, hasBody: bool) {
    OrderInv(p, hasBody) && ResponseInv(p) && UploadInv(p, hasBody) && EndInv(p)
  }

  lemma OpeningTransit(hasBody: bool)
    ensures Transit([Open(hasBody)], []) == InTransit(0, 0, 0, 0)
  {
    TotalOne(GrantOf, Open(hasBody));
    TotalOne(BodyOf, Open(hasBody));
  }

  lemma OpeningInv(hasBody: bool)
    ensures CreditInv(Opening(hasBody), hasBody)
  {
    OpeningTransit(hasBody);
    assert OrderInv(Opening(hasBody), hasBody);
    assert EndInv(Opening(hasBody));
  }

  lemma StepInv(p: Pair, a: Event, hasBody: bool)
    requires CreditInv(p, hasBody)
    ensures CreditInv(Step(p, a), hasBody)
  {
    if CanHappen(p, a) {
      if ByElectron(a) {
        ElectronKeepsOrder(p, a, hasBody);
        ElectronKeepsResponse(p, a);
        ElectronKeepsUpload(p, a, hasBody);
        ElectronKeepsEnd(p, a);
      } else {
        SideKeepsOrder(p, a, hasBody);
        SideKeepsResponse(p, a);
        SideKeepsUpload(p, a, hasBody);
        SideKeepsEnd(p, a, hasBody);
      }
    }
  }

  lemma {:induction false} PlayInv(pairs: seq<Pair>, events: seq<Event>, hasBody: bool, n: nat)
    requires IsPlay(pairs, events, hasBody) && n < |pairs|
    ensures CreditInv(pairs[n], hasBody)
  {
    if n == 0 {
      OpeningInv(hasBody);
    } else {
      PlayInv(pairs, events, hasBody, n - 1);
      StepInv(pairs[n - 1], events[n - 1], hasBody);
    }
  }

  /** At every point of every run, the response credits Electron counts on a live stream are exactly those on their way,
      held as permits or spent on chunks on their way back, and never more than the reader's queue has room for. */
  lemma ResponseCreditsConserved(pairs: seq<Pair>, events: seq<Event>, hasBody: bool, n: nat)
    requires IsPlay(pairs, events, hasBody) && n < |pairs|
    ensures var p := pairs[n];
            var outside := Total(GrantOf, p.up) + p.s.permits + One(p.s.holding) + Total(ChunkOf, p.down);
            && (p.e.live && !LetGo(p.s) ==> p.e.responseCredits == outside)
            && (p.e.live ==> p.e.responseCredits + p.e.queued <= HIGH_WATER_MARK)
            && outside <= HIGH_WATER_MARK
  {
    PlayInv(pairs, events, hasBody, n);
  }

  /** At every point of every run, the four upload credits of a live request are all somewhere, and never more than four
      are. */
  lemma UploadCreditsConserved(pairs: seq<Pair>, events: seq<Event>, hasBody: bool, n: nat)
    requires IsPlay(pairs, events, hasBody) && n < |pairs|
    ensures var p := pairs[n];
            var everywhere := p.e.requestCredits + p.e.tokens + Total(BodyOf, p.up) + p.s.channel + One(p.s.hand)
                              + p.s.credits + Total(BodyGrantOf, p.down);
            && everywhere <= UploadTokens(hasBody)
            && (p.e.live && p.s.known ==> everywhere == UploadTokens(hasBody))
  {
    PlayInv(pairs, events, hasBody, n);
  }

  /** At every point of every run no bound is about to be exceeded: whatever frame is read next, the permits stay within
      the high-water mark, the request-body channel has room, and a chunk or a grant reaching Electron is accepted. */
  lemma NoWindowIsExceeded(pairs: seq<Pair>, events: seq<Event>, hasBody: bool, n: nat)
    requires IsPlay(pairs, events, hasBody) && n < |pairs|
    ensures var p := pairs[n];
            && (p.up != [] && p.up[0].Grant? ==> 0 < p.up[0].credits && p.s.permits + p.up[0].credits <= HIGH_WATER_MARK)
            && (p.up != [] && p.up[0].Body? ==> p.s.channel < REQUEST_INPUT_CHANNEL_FRAMES)
            && (p.e.live && p.down != [] && p.down[0].Chunk? ==> p.e.responseCredits > 0)
            && (p.down != [] && p.down[0].BodyGrant? ==>
                  0 < p.down[0].credits && p.e.requestCredits + p.down[0].credits <= REQUEST_INPUT_CHANNEL_FRAMES)
  {
    PlayInv(pairs, events, hasBody, n);
    NothingExceeded(pairs[n], hasBody);
  }

  lemma NothingExceeded(p: Pair, hasBody: bool)
    requires CreditInv(p, hasBody)
    ensures p.up != [] && p.up[0].Grant? ==> 0 < p.up[0].credits && p.s.permits + p.up[0].credits <= HIGH_WATER_MARK
    ensures p.up != [] && p.up[0].Body? ==> p.s.channel < REQUEST_INPUT_CHANNEL_FRAMES
    ensures p.e.live && p.down != [] && p.down[0].Chunk? ==> p.e.responseCredits > 0
    ensures p.down != [] && p.down[0].BodyGrant? ==>
              0 < p.down[0].credits && p.e.requestCredits + p.down[0].credits <= REQUEST_INPUT_CHANNEL_FRAMES
  {
    TransitHeads(p.up, p.down);
    assert p.up != [] && p.up[0].Body? ==> p.s.started && Transit(p.up, p.down).bodies >= 1;
  }

  /** At every point of every run, a stream that failed in Electron failed because the runtime did: never over credits,
      and never because something was sent too late. */
  lemma OnlyTheRuntimeFailsAStream(pairs: seq<Pair>, events: seq<Event>, hasBody: bool, n: nat)
    requires IsPlay(pairs, events, hasBody) && n < |pairs|
    ensures var p := pairs[n];
            && p.e.status != Overrun && p.e.status != BadGrant
            && (p.e.status.Failed? || p.e.status == Status.Refused ==> p.s.runtime == Broken)
            && (p.e.status.Failed? ==> p.e.status.why == RuntimeFailed || p.e.status.why == BodyRejected)
            && (p.e.status == Completed ==> p.s.runtime == Done)
  {
    PlayInv(pairs, events, hasBody, n);
  }

  /** Electron reads everything queued for it, whether or not a read is waiting and a write back would succeed. */
  function HearAll(p: Pair, ways: seq<(bool, bool)>): Pair
    decreases |ways|
  {
    if ways == [] then p else HearAll(Step(p, ElectronHears(ways[0].0, ways[0].1)), ways[1..])
  }

  lemma {:induction false} DeadStays(p: Pair, ways: seq<(bool, bool)>)
    requires !p.e.live
    ensures HearAll(p, ways).e.status == p.e.status
    decreases |ways|
  {
    if ways != [] {
      DeadStays(Step(p, ElectronHears(ways[0].0, ways[0].1)), ways[1..]);
    }
  }

  /** Hearing an ordinary frame leaves the stream live. */
  lemma HearsOn(p: Pair, direct: bool, connected: bool, hasBody: bool)
    requires CreditInv(p, hasBody) && p.e.live && p.down != [] && !Terminal(p.down[0]) && p.s.runtime == Done
    ensures var q := Step(p, ElectronHears(direct, connected));
            CreditInv(q, hasBody) && q.e.live && q.down == p.down[1..] && q.s == p.s
  {
    StepInv(p, ElectronHears(direct, connected), hasBody);
    assert !Late(p.down[0]);
  }

  lemma {:induction false} HearsTheEnd(p: Pair, ways: seq<(bool, bool)>, hasBody: bool)
    requires CreditInv(p, hasBody) && p.e.live && p.s.runtime == Done && HasTerminal(p.down)
    requires |ways| >= |p.down|
    ensures HearAll(p, ways).e.status == Completed
    decreases |ways|
  {
    var q := Step(p, ElectronHears(ways[0].0, ways[0].1));
    if Terminal(p.down[0]) {
      assert Truthful(p.down[0], p.s.runtime);
      DeadStays(q, ways[1..]);
    } else {
      HearsOn(p, ways[0].0, ways[0].1, hasBody);
      HearsTheEnd(q, ways[1..], hasBody);
    }
  }

  /** A late credit cannot undo a response whose end has been queued: once the runtime has finished and the sidecar has
      queued the end or let go of the request, a stream that is live in Electron completes when Electron reads what is
      queued, whatever credits and body frames crossed it on the way. */
  lemma LateCreditsAreHarmless(pairs: seq<Pair>, events: seq<Event>, hasBody: bool, n: nat, ways: seq<(bool, bool)>)
    requires IsPlay(pairs, events, hasBody) && n < |pairs|
    requires var p := pairs[n];
             && p.e.live && p.s.runtime == Done && (p.s.task != Running || LetGo(p.s)) && |ways| >= |p.down|
    ensures HearAll(pairs[n], ways).e.status == Completed
  {
    PlayInv(pairs, events, hasBody, n);
    EndedHasTerminal(pairs[n], hasBody);
    HearsTheEnd(pairs[n], ways, hasBody);
  }

  lemma EndedHasTerminal(p: Pair, hasBody: bool)
    requires CreditInv(p, hasBody) && p.e.live && p.s.runtime == Done && (p.s.task != Running || LetGo(p.s))
    ensures HasTerminal(p.down)
  {
  }

  lemma PullFills(p: Pair)
    requires ResponseInv(p) && p.e.live && !LetGo(p.s)
    ensures var q := ElectronStep(p, ReaderPulls(true));
            q.s == p.s && q.e.live && q.e.queued + q.e.responseCredits == HIGH_WATER_MARK
  {
  }

  /** A pull leaves the sidecar with, or about to get, one credit for every free place in the reader's queue. */
  lemma PullFillsTheQueue(pairs: seq<Pair>, events: seq<Event>, hasBody: bool, n: nat)
    requires IsPlay(pairs, events, hasBody) && n < |pairs| && pairs[n].e.live && !LetGo(pairs[n].s)
    ensures var p := Step(pairs[n], ReaderPulls(true));
            p.e.queued + Total(GrantOf, p.up) + p.s.permits + One(p.s.holding) + Total(ChunkOf, p.down) == HIGH_WATER_MARK
  {
    PlayInv(pairs, events, hasBody, n);
    PullFills(pairs[n]);
    ElectronKeepsResponse(pairs[n], ReaderPulls(true));
  }
}
