/** The bridge's atomic calls: any number of handlers claim, execute, record, replay and wait over one store. */
module AtomicCalls {
  import opened Prelude
  import opened Completion
  import opened CompletionRuns
  import opened Retention

  /** `Unavailable` answers a tombstone, `TimedOut` a wait that took too long. */
  datatype Reply = Answer(response: bytes) | Unavailable | TimedOut

  datatype Call =
    | Waiting(id: Id)
    | Forwarding(id: Id)
    | Answering(id: Id, response: bytes)
    | Replied(id: Id, reply: Reply)

  datatype Bridge = Bridge(store: Store, calls: seq<Call>)

  /** `late`: the overall timeout has passed. `Others` is any store call of another path. */
  datatype Move =
    | Arrives(id: Id)
    | Claims(call: nat, clock: Option<nat>, late: bool)
    | Succeeds(call: nat, response: bytes)
    | Fails(call: nat, errorResponse: bytes)
    | Records(call: nat, clock: Option<nat>, again: Option<nat>, durable: bool)
    | Others(event: Event)

  predicate CanMove(b: Bridge, m: Move) {
    match m
    case Arrives(_) => true
    case Claims(i, _, _) => i < |b.calls| && b.calls[i].Waiting?
    case Succeeds(i, _) => i < |b.calls| && b.calls[i].Forwarding?
    case Fails(i, _) => i < |b.calls| && b.calls[i].Forwarding?
    case Records(i, _, _, _) => i < |b.calls| && b.calls[i].Answering?
    case Others(e) => !e.Reopening?
  }

  /** What a handler does with the answer to its claim. */
  function AfterAnswer(id: Id, claimed: Claimed, late: bool): Call {
    match claimed
    case Execute => Forwarding(id)
    case Replay(response) => Replied(id, Answer(response))
    case Tombstone => Replied(id, Unavailable)
    case _ => if late then Replied(id, TimedOut) else Waiting(id)
  }

  /** The store call a move makes, if any. */
  function StoreCall(b: Bridge, m: Move): Option<Event>
    requires CanMove(b, m)
  {
    match m
    case Arrives(_) => None
    case Claims(i, clock, _) => Some(Claiming(clock, b.calls[i].id))
    case Succeeds(_, _) => None
    case Fails(i, _) => Some(Abandoning(b.calls[i].id))
    case Records(i, clock, again, durable) =>
      Some(Recording(clock, again, b.calls[i].id, Some(b.calls[i].response), durable))
    case Others(e) => Some(e)
  }

  function CallsAfter(c: Config, b: Bridge, m: Move): seq<Call>
    requires CanMove(b, m)
  {
    match m
    case Arrives(id) => b.calls + [Waiting(id)]
    case Claims(i, clock, late) =>
      var id := b.calls[i].id;
      b.calls[i := AfterAnswer(id, ClaimOf(c, Pruned(b.store, PruneTime(clock)), id), late)]
    case Succeeds(i, response) => b.calls[i := Answering(b.calls[i].id, response)]
    case Fails(i, errorResponse) => b.calls[i := Answering(b.calls[i].id, errorResponse)]
    case Records(i, _, _, _) => b.calls[i := Replied(b.calls[i].id, Answer(b.calls[i].response))]
    case Others(_) => b.calls
  }

  ghost predicate Moves(c: Config, b: Bridge, m: Move, b': Bridge) {
    && CanMove(b, m) && b'.calls == CallsAfter(c, b, m)
    && match StoreCall(b, m)
       case None => b'.store == b.store
       case Some(e) => Steps(c, b.store, e, b'.store)
  }

  ghost predicate History(c: Config, bridges: seq<Bridge>, moves: seq<Move>) {
    && |bridges| == |moves| + 1 && bridges[0].calls == []
    && forall i | 0 <= i < |moves| :: Moves(c, bridges[i], moves[i], bridges[i + 1])
  }

  /** A move that does not release `id`, does not fail its forward, and is no other path's use of it. */
  ghost predicate Keeps(c: Config, b: Bridge, m: Move, b': Bridge, id: Id) {
    && CanMove(b, m)
    && (StoreCall(b, m).Some? ==> !Releases(c, b.store, StoreCall(b, m).value, b'.store, id))
    && (m.Others? && !m.event.Looking? && !m.event.Reopening? ==> m.event.id != id)
  }

  predicate Owns(call: Call, id: Id) {
    call.id == id && (call.Forwarding? || call.Answering?)
  }

  predicate Answered(call: Call, id: Id) {
    call.id == id && call.Replied? && call.reply.Answer?
  }

  /** One handler at most is executing `id`; nobody has been answered while it does; and all answers agree with each other
      and with what the store would replay. */
  ghost predicate OneOwner(s: Store, calls: seq<Call>, id: Id) {
    && (forall i, j | 0 <= i < |calls| && 0 <= j < |calls| && Owns(calls[i], id) && Owns(calls[j], id) :: i == j)
    && (forall i | 0 <= i < |calls| && Owns(calls[i], id) :: id in s.entries && s.entries[id] == InFlight)
    && (forall i, j | 0 <= i < |calls| && 0 <= j < |calls| && Owns(calls[i], id) :: !Answered(calls[j], id))
    && (forall i | 0 <= i < |calls| && Answered(calls[i], id) ::
          && id in s.entries
          && (s.entries[id].Complete? && s.entries[id].response.Some? ==>
                s.entries[id].response.value == calls[i].reply.response))
    && (forall i, j | 0 <= i < |calls| && 0 <= j < |calls| && Answered(calls[i], id) && Answered(calls[j], id) ::
          calls[i].reply == calls[j].reply)
  }

  /** A store call that does not concern `id` leaves its entry alone. */
  lemma EntryStays(c: Config, s: Store, e: Event, t: Store, id: Id)
    requires Steps(c, s, e, t) && !e.Reopening? && !Releases(c, s, e, t, id) && (e.Looking? || e.id != id)
    ensures (id in t.entries <==> id in s.entries) && (id in s.entries ==> t.entries[id] == s.entries[id])
  {
    if e.Recording? {
      var gone :| AfterRecord(c, s, e.clock, e.again, e.id, e.response, e.durable, gone, t);
      if id in s.entries {
        RecordKeeps(c, s, e, t, id, gone);
      }
    }
  }

  lemma ClaimKeepsOne(c: Config, b: Bridge, m: Move, b': Bridge, id: Id)
    requires Moves(c, b, m, b') && m.Claims? && Keeps(c, b, m, b', id) && OneOwner(b.store, b.calls, id)
    ensures OneOwner(b'.store, b'.calls, id)
  {
    if b.calls[m.call].id != id {
      EntryStays(c, b.store, StoreCall(b, m).value, b'.store, id);
    }
  }

  lemma RecordKeepsOne(c: Config, b: Bridge, m: Move, b': Bridge, id: Id)
    requires Moves(c, b, m, b') && m.Records? && Keeps(c, b, m, b', id) && OneOwner(b.store, b.calls, id)
    ensures OneOwner(b'.store, b'.calls, id)
  {
    var e := StoreCall(b, m).value;
    if b.calls[m.call].id != id {
      EntryStays(c, b.store, e, b'.store, id);
    } else {
      assert Owns(b.calls[m.call], id);
      var gone :| AfterRecord(c, b.store, e.clock, e.again, e.id, e.response, e.durable, gone, b'.store);
    }
  }

  lemma MoveKeepsOne(c: Config, b: Bridge, m: Move, b': Bridge, id: Id)
    requires Moves(c, b, m, b') && Keeps(c, b, m, b', id) && OneOwner(b.store, b.calls, id)
    ensures OneOwner(b'.store, b'.calls, id)
  {
    match m
    case Claims(_, _, _) => ClaimKeepsOne(c, b, m, b', id);
    case Records(_, _, _, _) => RecordKeepsOne(c, b, m, b', id);
    case Fails(_, _) => EntryStays(c, b.store, StoreCall(b, m).value, b'.store, id);
    case Others(e) => EntryStays(c, b.store, e, b'.store, id);
    case _ =>
  }

  lemma {:induction false} AlwaysOne(c: Config, bridges: seq<Bridge>, moves: seq<Move>, n: nat, id: Id)
    requires History(c, bridges, moves) && n < |bridges|
    requires forall k | 0 <= k < n :: Keeps(c, bridges[k], moves[k], bridges[k + 1], id)
    ensures OneOwner(bridges[n].store, bridges[n].calls, id)
  {
    if n > 0 {
      AlwaysOne(c, bridges, moves, n - 1, id);
      assert Moves(c, bridges[n - 1], moves[n - 1], bridges[n]);
      MoveKeepsOne(c, bridges[n - 1], moves[n - 1], bridges[n], id);
    }
  }

  /** For every interleaving of any number of calls: as long as no failed forward abandoned the identifier and it was
      neither evicted nor expired, at most one handler is forwarding it, and every call that was answered with a response
      was answered with the same one. */
  lemma EveryAnswerIsTheSame(c: Config, bridges: seq<Bridge>, moves: seq<Move>, n: nat, id: Id, i: nat, j: nat)
    requires History(c, bridges, moves) && n < |bridges|
    requires forall k | 0 <= k < n :: Keeps(c, bridges[k], moves[k], bridges[k + 1], id)
    requires i < |bridges[n].calls| && j < |bridges[n].calls| && bridges[n].calls[i].id == id == bridges[n].calls[j].id
    ensures bridges[n].calls[i].Forwarding? && bridges[n].calls[j].Forwarding? ==> i == j
    ensures Answered(bridges[n].calls[i], id) && Answered(bridges[n].calls[j], id) ==>
              bridges[n].calls[i].reply == bridges[n].calls[j].reply
    ensures Answered(bridges[n].calls[i], id) ==> !bridges[n].calls[j].Forwarding?
  {
    AlwaysOne(c, bridges, moves, n, id);
  }

  // ---- Duplicates are answered ----

  /** The store call of the move, if it makes one, spares the completion. */
  ghost predicate MoveSpares(c: Config, b: Bridge, m: Move, b': Bridge, id: Id, deadline: nat) {
    CanMove(b, m) && (StoreCall(b, m).Some? ==> Spares(c, StoreCall(b, m).value, b'.store, id, deadline, false))
  }

  lemma {:induction false} StillAnswers(c: Config, bridges: seq<Bridge>, moves: seq<Move>, i: nat, j: nat, id: Id,
                                        response: bytes, now: nat, deadline: nat)
    requires History(c, bridges, moves) && i < j < |bridges| && deadline == Min(now + c.retention, U64_MAX)
    requires CanMove(bridges[i], moves[i]) && moves[i].Records? && moves[i].clock == Some(now)
    requires bridges[i].calls[moves[i].call] == Answering(id, response)
    requires forall k | i < k < j :: MoveSpares(c, bridges[k], moves[k], bridges[k + 1], id, deadline)
    ensures Retains(bridges[j].store, id, Retained(c, Some(response)), deadline, false)
    decreases j
  {
    if j == i + 1 {
      assert Moves(c, bridges[i], moves[i], bridges[i + 1]);
      RecordRetains(c, bridges[i].store, StoreCall(bridges[i], moves[i]).value, bridges[j].store, now);
    } else {
      StillAnswers(c, bridges, moves, i, j - 1, id, response, now, deadline);
      var b, m, b' := bridges[j - 1], moves[j - 1], bridges[j];
      assert Moves(c, b, m, b') && MoveSpares(c, b, m, b', id, deadline);
      if StoreCall(b, m).Some? {
        StepRetains(c, b.store, StoreCall(b, m).value, b'.store, id, Retained(c, Some(response)), deadline, false);
      }
    }
  }

  /** For every interleaving: once a handler has recorded its response, the next claim of any other handler waiting on the
      identifier ends in an answer, with that response if it is within the threshold, until its retention ends or it is
      abandoned, recorded again or evicted. */
  lemma DuplicateIsAnswered(c: Config, bridges: seq<Bridge>, moves: seq<Move>, i: nat, j: nat, id: Id, response: bytes,
                            now: nat, deadline: nat)
    requires History(c, bridges, moves) && i < j < |moves| && deadline == Min(now + c.retention, U64_MAX)
    requires CanMove(bridges[i], moves[i]) && moves[i].Records? && moves[i].clock == Some(now)
    requires bridges[i].calls[moves[i].call] == Answering(id, response)
    requires forall k | i < k < j :: MoveSpares(c, bridges[k], moves[k], bridges[k + 1], id, deadline)
    requires moves[j].Claims? && Before(moves[j].clock, deadline)
    requires moves[j].call < |bridges[j].calls| && bridges[j].calls[moves[j].call] == Waiting(id)
    ensures moves[j].call < |bridges[j + 1].calls|
    ensures bridges[j + 1].calls[moves[j].call]
         == Replied(id, if |response| <= c.maxResponseBytes then Answer(response) else Unavailable)
  {
    StillAnswers(c, bridges, moves, i, j, id, response, now, deadline);
    assert Moves(c, bridges[j], moves[j], bridges[j + 1]);
  }

  /** Nobody waits past the overall timeout: a late claim forwards, answers or times out, and it times out exactly when a
      lookup at the same time would find the identifier executing, or nothing and no capacity to execute it. */
  lemma LateClaimsEnd(c: Config, b: Bridge, m: Move, b': Bridge)
    requires Moves(c, b, m, b') && m.Claims? && m.late
    ensures m.call < |b'.calls| && !b'.calls[m.call].Waiting?
    ensures var id, found := b.calls[m.call].id, LookupAnswer(b.store, m.clock, b.calls[m.call].id);
            && (b'.calls[m.call] == Replied(id, TimedOut)
                <==> found == Some(Found.Executing) || (found == None && b'.calls[m.call] != Forwarding(id)))
            && (found.Some? && found.value.Response? ==> b'.calls[m.call] == Replied(id, Answer(found.value.response)))
            && (found == Some(NoResponse) ==> b'.calls[m.call] == Replied(id, Unavailable))
  {
    LookupAgrees(c, b.store, m.clock, b.calls[m.call].id);
  }

  // ---- The condition is needed ----

  /** A history of a fresh store that ends in `b`. */
  ghost predicate Leads(c: Config, bridges: seq<Bridge>, moves: seq<Move>, b: Bridge) {
    History(c, bridges, moves) && bridges[|moves|] == b && bridges[0] == Bridge(Store(map[], map[]), [])
  }

  lemma LeadsOn(c: Config, bridges: seq<Bridge>, moves: seq<Move>, b: Bridge, m: Move, b': Bridge)
    requires Leads(c, bridges, moves, b) && Moves(c, b, m, b')
    ensures Leads(c, bridges + [b'], moves + [m], b')
  {
    forall i | 0 <= i < |moves| + 1
      ensures Moves(c, (bridges + [b'])[i], (moves + [m])[i], (bridges + [b'])[i + 1])
    {
      assert i < |moves| ==> Moves(c, bridges[i], moves[i], bridges[i + 1]);
    }
  }

  /** A store in which `id` is executing, and nothing else is known. */
  function Executing(id: Id): Store {
    Store(map[id := InFlight], map[])
  }

  lemma ClaimEmpty(c: Config, clock: Option<nat>, id: Id)
    ensures AfterClaim(c, Store(map[], map[]), clock, id) == Executing(id)
    ensures ClaimOf(c, Pruned(Store(map[], map[]), PruneTime(clock)), id) == Execute
  {
    assert Pruned(Store(map[], map[]), PruneTime(clock)) == Store(map[], map[]);
    assert InFlightIds(map[]) == {};
  }

  lemma ClaimExecuting(c: Config, clock: Option<nat>, id: Id)
    ensures AfterClaim(c, Executing(id), clock, id) == Executing(id)
    ensures ClaimOf(c, Pruned(Executing(id), PruneTime(clock)), id) == WaitForDuplicate
  {
    assert Pruned(Executing(id), PruneTime(clock)) == Executing(id);
  }

  function Holding(c: Config, now: nat, id: Id, response: bytes): Store {
    Store(map[id := Complete(Kept(c, Some(response)), ExpiryOf(c, now))],
          map[id := Saved(Kept(c, Some(response)), ExpiryOf(c, now))])
  }

  /** Recording the only identifier a store knows evicts nothing. */
  lemma RecordOnly(c: Config, s: Store, now: nat, again: Option<nat>, id: Id, response: bytes)
    requires s.entries.Keys <= {id} && s.disk.Keys <= {id}
    ensures AfterRecord(c, s, Some(now), again, id, Some(response), true, {}, Holding(c, now, id, response))
  {
    var p := Pruned(s, PruneTime(again));
    var t := Holding(c, now, id, response);
    assert p.entries.Keys <= {id} && p.disk.Keys <= {id};
    assert Recorded(c, p, now, id, Some(response)) == t.entries && t.entries - {} == t.entries;
    assert CompleteIds(t.entries) == {id};
    assert p.disk[id := Saved(Kept(c, Some(response)), ExpiryOf(c, now))] - {} == t.disk;
  }

  /** Two calls of one identifier arrive, the first forwards and the second waits. */
  lemma SecondWaits(c: Config, now: nat, id: Id) returns (bridges: seq<Bridge>, moves: seq<Move>)
    ensures moves == [Arrives(id), Arrives(id), Claims(0, Some(now), false), Claims(1, Some(now), false)]
    ensures Leads(c, bridges, moves, Bridge(Executing(id), [Forwarding(id), Waiting(id)]))
  {
    var start := Store(map[], map[]);
    var b, b' := Bridge(start, []), Bridge(start, [Waiting(id)]);
    bridges, moves := [b], [];
    LeadsOn(c, bridges, moves, b, Arrives(id), b');
    bridges, moves := bridges + [b'], moves + [Arrives(id)];
    var both := Bridge(start, [Waiting(id), Waiting(id)]);
    LeadsOn(c, bridges, moves, b', Arrives(id), both);
    bridges, moves := bridges + [both], moves + [Arrives(id)];
    var claim, again := Claims(0, Some(now), false), Claims(1, Some(now), false);
    var claimed := Bridge(Executing(id), [Forwarding(id), Waiting(id)]);
    ClaimEmpty(c, Some(now), id);
    LeadsOn(c, bridges, moves, both, claim, claimed);
    bridges, moves := bridges + [claimed], moves + [claim];
    ClaimExecuting(c, Some(now), id);
    LeadsOn(c, bridges, moves, claimed, again, claimed);
    bridges, moves := bridges + [claimed], moves + [again];
  }

  /** The first forward fails and is abandoned; the second call claims again and forwards too. */
  lemma SecondForwards(c: Config, now: nat, id: Id, failure: bytes, response: bytes)
    returns (bridges: seq<Bridge>, moves: seq<Move>)
    ensures Leads(c, bridges, moves, Bridge(Executing(id), [Answering(id, failure), Answering(id, response)]))
    ensures |moves| == 7 && moves[4..] == [Fails(0, failure), Claims(1, Some(now), false), Succeeds(1, response)]
    ensures bridges[4].calls == [Forwarding(id), Waiting(id)]
    ensures bridges[6].calls == [Answering(id, failure), Forwarding(id)]
  {
    bridges, moves := SecondWaits(c, now, id);
    var b := Bridge(Executing(id), [Forwarding(id), Waiting(id)]);
    var failed := Bridge(Store(map[], map[]), [Answering(id, failure), Waiting(id)]);
    assert Abandoned(Executing(id), id) == Store(map[], map[]);
    LeadsOn(c, bridges, moves, b, Fails(0, failure), failed);
    bridges, moves := bridges + [failed], moves + [Fails(0, failure)];
    var again, claimed := Claims(1, Some(now), false), Bridge(Executing(id), [Answering(id, failure), Forwarding(id)]);
    ClaimEmpty(c, Some(now), id);
    LeadsOn(c, bridges, moves, failed, again, claimed);
    bridges, moves := bridges + [claimed], moves + [again];
    var answered := Bridge(Executing(id), [Answering(id, failure), Answering(id, response)]);
    LeadsOn(c, bridges, moves, claimed, Succeeds(1, response), answered);
    bridges, moves := bridges + [answered], moves + [Succeeds(1, response)];
  }

  /** A forward that fails is abandoned before its error is recorded, so a duplicate that was waiting is granted a second
      forward: on this history both handlers forward the same identifier, and one call is answered with the error and the
      other with the response. */
  lemma FailedForwardAnswersTwice(c: Config, now: nat, id: Id, failure: bytes, response: bytes)
    returns (bridges: seq<Bridge>, moves: seq<Move>)
    ensures History(c, bridges, moves) && |moves| == 9 && bridges[0].store == Store(map[], map[])
    ensures bridges[4].calls == [Forwarding(id), Waiting(id)] && moves[4] == Fails(0, failure)
    ensures bridges[6].calls == [Answering(id, failure), Forwarding(id)]
    ensures bridges[9].calls == [Replied(id, Answer(failure)), Replied(id, Answer(response))]
  {
    bridges, moves := SecondForwards(c, now, id, failure, response);
    var b := Bridge(Executing(id), [Answering(id, failure), Answering(id, response)]);
    var record, again := Records(0, Some(now), Some(now), true), Records(1, Some(now), Some(now), true);
    var first := Bridge(Holding(c, now, id, failure), [Replied(id, Answer(failure)), Answering(id, response)]);
    RecordOnly(c, b.store, now, Some(now), id, failure);
    LeadsOn(c, bridges, moves, b, record, first);
    bridges, moves := bridges + [first], moves + [record];
    var last := Bridge(Holding(c, now, id, response), [Replied(id, Answer(failure)), Replied(id, Answer(response))]);
    RecordOnly(c, first.store, now, Some(now), id, response);
    LeadsOn(c, bridges, moves, first, again, last);
    bridges, moves := bridges + [last], moves + [again];
  }
}
