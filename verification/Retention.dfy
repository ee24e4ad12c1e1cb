/** How long a completion is retained and what it answers, in numbers. */
module Retention {
  import opened Prelude
  import opened Completion
  import opened CompletionRuns

  /** What a claim and a lookup of `id` answer when they read this clock. */
  function ClaimAnswer(c: Config, s: Store, clock: Option<nat>, id: Id): Claimed {
    ClaimOf(c, Pruned(s, PruneTime(clock)), id)
  }

  function LookupAnswer(s: Store, clock: Option<nat>, id: Id): Option<Found> {
    LookupOf(Pruned(s, PruneTime(clock)), id)
  }

  /** A lookup tells what a claim would answer, for every store. */
  lemma LookupAgrees(c: Config, s: Store, clock: Option<nat>, id: Id)
    ensures var claim, found := ClaimAnswer(c, s, clock, id), LookupAnswer(s, clock, id);
            && (forall r :: found == Some(Response(r)) <==> claim == Replay(r))
            && (found == Some(NoResponse) <==> claim == Tombstone)
            && (found == Some(Executing) <==> claim == WaitForDuplicate)
            && (found == None <==> claim == Execute || claim == WaitForCapacity)
  {
  }

  predicate Before(clock: Option<nat>, deadline: nat) {
    clock.Some? && clock.value < deadline
  }

  /** Gone from a full store. */
  ghost predicate Crowded(c: Config, t: Store, id: Id) {
    id !in t.entries && |CompleteIds(t.entries)| == c.maxCompleted
  }

  /** The call reads the clock before the deadline, and does not abandon `id`, record it again or evict it; a reopening
      counts only for a record that reached the disk. */
  ghost predicate Spares(c: Config, e: Event, t: Store, id: Id, deadline: nat, durable: bool) {
    match e
    case Claiming(clock, _) => Before(clock, deadline)
    case Looking(clock, _) => Before(clock, deadline)
    case Recording(clock, again, other, _, _) =>
      other != id && (clock.Some? ==> Before(again, deadline) && !Crowded(c, t, id))
    case Abandoning(other) => other != id
    case Reopening(now) => durable && now < deadline && !Crowded(c, t, id)
  }

  /** All calls after the `i`-th and before the `j`-th do. */
  ghost predicate Undisturbed(c: Config, states: seq<Store>, events: seq<Event>, i: nat, j: nat, id: Id, deadline: nat,
                              durable: bool)
  {
    |states| == |events| + 1
    && forall k | i < k < j && k < |events| :: Spares(c, events[k], states[k + 1], id, deadline, durable)
  }

  /** Held in memory, and on disk if it got there. */
  ghost predicate Retains(s: Store, id: Id, response: Option<bytes>, deadline: nat, durable: bool) {
    && id in s.entries && s.entries[id] == Complete(response, deadline)
    && (durable ==> id in s.disk && s.disk[id] == Saved(response, deadline))
  }

  lemma SparedByRecord(c: Config, s: Store, e: Event, t: Store, id: Id, response: Option<bytes>, deadline: nat,
                       durable: bool)
    requires Steps(c, s, e, t) && e.Recording? && Spares(c, e, t, id, deadline, durable)
    requires Retains(s, id, response, deadline, durable)
    ensures Retains(t, id, response, deadline, durable)
  {
    var gone :| AfterRecord(c, s, e.clock, e.again, e.id, e.response, e.durable, gone, t);
    RecordKeeps(c, s, e, t, id, gone);
  }

  lemma StepRetains(c: Config, s: Store, e: Event, t: Store, id: Id, response: Option<bytes>, deadline: nat,
                    durable: bool)
    requires Steps(c, s, e, t) && Spares(c, e, t, id, deadline, durable) && Retains(s, id, response, deadline, durable)
    ensures Retains(t, id, response, deadline, durable)
  {
    match e
    case Recording(_, _, _, _, _) => SparedByRecord(c, s, e, t, id, response, deadline, durable);
    case Reopening(now) =>
      var gone :| AfterOpen(c, s.disk, now, gone, t);
      OpenKeeps(c, s, now, t, id, gone);
    case _ =>
  }

  /** What is kept of a response: all of it up to the threshold, and nothing above. */
  function Retained(c: Config, response: Option<bytes>): Option<bytes> {
    match response
    case None => None
    case Some(b) => if |b| <= c.maxResponseBytes then Some(b) else None
  }

  lemma RecordRetains(c: Config, s: Store, e: Event, t: Store, now: nat)
    requires Steps(c, s, e, t) && e.Recording? && e.clock == Some(now)
    ensures Retains(t, e.id, Retained(c, e.response), Min(now + c.retention, U64_MAX), e.durable)
  {
    var gone :| AfterRecord(c, s, e.clock, e.again, e.id, e.response, e.durable, gone, t);
  }

  lemma {:induction false} StillRetains(c: Config, states: seq<Store>, events: seq<Event>, i: nat, j: nat, now: nat,
                                        deadline: nat)
    requires Trace(c, states, events) && i < j < |states| && deadline == Min(now + c.retention, U64_MAX)
    requires events[i].Recording? && events[i].clock == Some(now)
    requires Undisturbed(c, states, events, i, j, events[i].id, deadline, events[i].durable)
    ensures Retains(states[j], events[i].id, Retained(c, events[i].response), deadline, events[i].durable)
    decreases j
  {
    if j == i + 1 {
      RecordRetains(c, states[i], events[i], states[j], now);
    } else {
      StillRetains(c, states, events, i, j - 1, now, deadline);
      StepRetains(c, states[j - 1], events[j - 1], states[j], events[i].id, Retained(c, events[i].response), deadline,
                  events[i].durable);
    }
  }

  /** Until `retention` after it was recorded, over any run and across reopenings if it reached the disk, a completion
      answers every claim and every lookup with the response it was given, if that is within the threshold, and with a
      tombstone otherwise. */
  lemma RetainedUntilDeadline(c: Config, states: seq<Store>, events: seq<Event>, i: nat, j: nat, id: Id, now: nat,
                              deadline: nat, clock: Option<nat>)
    requires Trace(c, states, events) && i < j < |states| && deadline == Min(now + c.retention, U64_MAX)
    requires events[i].Recording? && events[i].id == id && events[i].clock == Some(now)
    requires Undisturbed(c, states, events, i, j, id, deadline, events[i].durable) && Before(clock, deadline)
    ensures match events[i].response
            case Some(r) =>
              if |r| <= c.maxResponseBytes then
                ClaimAnswer(c, states[j], clock, id) == Replay(r)
                && LookupAnswer(states[j], clock, id) == Some(Response(r))
              else
                ClaimAnswer(c, states[j], clock, id) == Tombstone && LookupAnswer(states[j], clock, id) == Some(NoResponse)
            case None =>
              ClaimAnswer(c, states[j], clock, id) == Tombstone && LookupAnswer(states[j], clock, id) == Some(NoResponse)
  {
    StillRetains(c, states, events, i, j, now, deadline);
  }

  /** Known neither in memory nor on disk. */
  predicate Forgotten(s: Store, id: Id) {
    id !in s.entries && id !in s.disk
  }

  /** What a call that prunes at this clock leaves of `id`. */
  ghost predicate Forgets(c: Config, s: Store, e: Event, t: Store, id: Id, deadline: nat, durable: bool) {
    match e
    case Claiming(clock, other) =>
      Before(clock, deadline) || (if other == id then id !in t.disk else Forgotten(t, id))
    case Looking(clock, _) => Before(clock, deadline) || Forgotten(t, id)
    case Recording(clock, again, other, _, _) =>
      clock == None || other == id || Before(again, deadline) || Forgotten(t, id)
    case Abandoning(_) => true
    case Reopening(now) => !durable || now < deadline || Forgotten(t, id)
  }

  lemma PrunesIt(s: Store, clock: Option<nat>, id: Id, response: Option<bytes>, deadline: nat, durable: bool)
    requires Retains(s, id, response, deadline, durable) && !Before(clock, deadline) && deadline <= U64_MAX
    ensures Forgotten(Pruned(s, PruneTime(clock)), id)
  {
  }

  lemma RecordForgets(c: Config, s: Store, e: Event, t: Store, id: Id, response: Option<bytes>, deadline: nat,
                      durable: bool)
    requires Steps(c, s, e, t) && e.Recording? && Retains(s, id, response, deadline, durable) && deadline <= U64_MAX
    ensures Forgets(c, s, e, t, id, deadline, durable)
  {
    var gone :| AfterRecord(c, s, e.clock, e.again, e.id, e.response, e.durable, gone, t);
    if e.clock.Some? && e.id != id && !Before(e.again, deadline) {
      PrunesIt(s, e.again, id, response, deadline, durable);
      assert id !in Recorded(c, Pruned(s, PruneTime(e.again)), e.clock.value, e.id, e.response);
    }
  }

  lemma StepForgets(c: Config, s: Store, e: Event, t: Store, id: Id, response: Option<bytes>, deadline: nat,
                    durable: bool)
    requires Steps(c, s, e, t) && Retains(s, id, response, deadline, durable) && deadline <= U64_MAX
    ensures Forgets(c, s, e, t, id, deadline, durable)
  {
    match e
    case Claiming(clock, other) =>
      if !Before(clock, deadline) {
        PrunesIt(s, clock, id, response, deadline, durable);
      }
    case Looking(clock, _) =>
      if !Before(clock, deadline) {
        PrunesIt(s, clock, id, response, deadline, durable);
      }
    case Recording(_, _, _, _, _) => RecordForgets(c, s, e, t, id, response, deadline, durable);
    case Abandoning(_) =>
    case Reopening(now) =>
      var gone :| AfterOpen(c, s.disk, now, gone, t);
  }

  /** And no longer: the first call that prunes at the deadline or later, or without a readable clock, removes the
      completion and its file; a claim of it is then granted if there is capacity, and a lookup finds nothing. */
  lemma ForgottenAtDeadline(c: Config, states: seq<Store>, events: seq<Event>, i: nat, j: nat, id: Id, now: nat,
                            deadline: nat, executing: set<Id>)
    requires Trace(c, states, events) && i < j < |events| && deadline == Min(now + c.retention, U64_MAX)
    requires events[i].Recording? && events[i].id == id && events[i].clock == Some(now)
    requires Undisturbed(c, states, events, i, j, id, deadline, events[i].durable)
    requires forall k :: k in executing <==> k in states[j].entries && states[j].entries[k] == InFlight
    ensures Forgets(c, states[j], events[j], states[j + 1], id, deadline, events[i].durable)
    ensures forall clock | !Before(clock, deadline) ::
              && LookupAnswer(states[j], clock, id) == None
              && ClaimAnswer(c, states[j], clock, id)
                 == if |executing| < c.maxInFlight then Execute else WaitForCapacity
  {
    StillRetains(c, states, events, i, j, now, deadline);
    var s, response := states[j], Retained(c, events[i].response);
    StepForgets(c, s, events[j], states[j + 1], id, response, deadline, events[i].durable);
    forall clock | !Before(clock, deadline)
      ensures LookupAnswer(s, clock, id) == None
      ensures ClaimAnswer(c, s, clock, id)
           == if |executing| < c.maxInFlight then Execute else WaitForCapacity
    {
      assert executing == InFlightIds(s.entries);
      PrunesIt(s, clock, id, response, deadline, events[i].durable);
      PrunedSets(s, PruneTime(clock));
    }
  }

  /** Abandoning a completion forgets it in memory only: a reopening before the deadline that has room for it brings it back,
      and it answers again. */
  lemma AbandonedComesBack(c: Config, s: Store, id: Id, response: Option<bytes>, deadline: nat, now: nat, gone: set<Id>,
                           t: Store, clock: Option<nat>)
    requires Retains(s, id, response, deadline, true) && AfterOpen(c, Abandoned(s, id).disk, now, gone, t)
    requires now < deadline && Before(clock, deadline) && !Crowded(c, t, id)
    ensures LookupAnswer(Abandoned(s, id), clock, id) == None
    ensures ClaimAnswer(c, t, clock, id) == match response case Some(r) => Replay(r) case None => Tombstone
  {
    OpenKeeps(c, s, now, t, id, gone);
  }

  // ---- Memory and disk ----

  /** The files on disk are the completed entries in memory, each with its response and expiry. */
  ghost predicate Mirrored(s: Store) {
    && (forall id :: id in s.disk <==> id in s.entries && s.entries[id].Complete?)
    && (forall id | id in s.disk :: s.entries[id] == Complete(s.disk[id].response, s.disk[id].expiresAt))
  }

  /** A call that leaves files alone where it should not: an abandonment, or a record that could not be written. */
  predicate SkipsFiles(e: Event) {
    e.Abandoning? || (e.Recording? && e.clock.Some? && !e.durable)
  }

  lemma OpenMirrored(c: Config, disk: map<Id, Saved>, now: nat, gone: set<Id>, t: Store)
    requires AfterOpen(c, disk, now, gone, t)
    ensures Mirrored(t)
  {
  }

  lemma RecordMirrored(c: Config, s: Store, e: Event, t: Store)
    requires Steps(c, s, e, t) && e.Recording? && Mirrored(s) && !SkipsFiles(e)
    ensures Mirrored(t)
  {
    var gone :| AfterRecord(c, s, e.clock, e.again, e.id, e.response, e.durable, gone, t);
  }

  lemma StepMirrored(c: Config, s: Store, e: Event, t: Store)
    requires Steps(c, s, e, t) && Mirrored(s) && !SkipsFiles(e)
    ensures Mirrored(t)
  {
    match e
    case Recording(_, _, _, _, _) => RecordMirrored(c, s, e, t);
    case Reopening(now) =>
      var gone :| AfterOpen(c, s.disk, now, gone, t);
      OpenMirrored(c, s.disk, now, gone, t);
    case _ =>
  }

  /** On every run without abandonments and failed writes, memory and disk say the same after every call: what expires, is
      evicted or is trimmed loses its file too, and a reopening would load exactly what is in memory. */
  lemma {:induction false} FilesMirrorMemory(c: Config, states: seq<Store>, events: seq<Event>, i: nat)
    requires Trace(c, states, events) && i < |states|
    requires forall k | 0 <= k < i :: !SkipsFiles(events[k])
    ensures Mirrored(states[i])
  {
    if i == 0 {
      var disk, now, gone :| AfterOpen(c, disk, now, gone, states[0]);
      OpenMirrored(c, disk, now, gone, states[0]);
    } else {
      FilesMirrorMemory(c, states, events, i - 1);
      assert Steps(c, states[i - 1], events[i - 1], states[i]);
      StepMirrored(c, states[i - 1], events[i - 1], states[i]);
    }
  }
}
