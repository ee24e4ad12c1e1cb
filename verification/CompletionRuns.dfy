/** Over every run of the completion store: its bounds, at most one execution per identifier, and faithful replay. */
module CompletionRuns {
  import opened Prelude
  import opened Completion

  datatype Event =
    | Claiming(clock: Option<nat>, id: Id)
    | Looking(clock: Option<nat>, id: Id)
    | Recording(clock: Option<nat>, again: Option<nat>, id: Id, response: Option<bytes>, durable: bool)
    | Abandoning(id: Id)
    | Reopening(now: nat)

  ghost predicate Steps(c: Config, s: Store, e: Event, t: Store) {
    match e
    case Claiming(clock, id) => t == AfterClaim(c, s, clock, id)
    case Looking(clock, id) => t == Pruned(s, PruneTime(clock))
    case Recording(clock, again, id, response, durable) =>
      exists gone :: AfterRecord(c, s, clock, again, id, response, durable, gone, t)
    case Abandoning(id) => t == Abandoned(s, id)
    case Reopening(now) => exists gone :: AfterOpen(c, s.disk, now, gone, t)
  }

  /** A run: an opened store and what a sequence of calls made of it. */
  ghost predicate Trace(c: Config, states: seq<Store>, events: seq<Event>) {
    && |states| == |events| + 1
    && (exists disk, now, gone :: AfterOpen(c, disk, now, gone, states[0]))
    && forall i | 0 <= i < |events| :: Steps(c, states[i], events[i], states[i + 1])
  }

  // ---- Bounds ----

  ghost predicate Within(c: Config, s: Store) {
    |InFlightIds(s.entries)| <= c.maxInFlight && |CompleteIds(s.entries)| <= c.maxCompleted
  }

  lemma SubsetSize(a: set<Id>, b: set<Id>)
    requires a <= b
    ensures |a| <= |b|
  {
    assert b == a + (b - a);
  }

  /** Eviction reaches the limit and leaves executions alone. */
  lemma EvictsWithin(m: map<Id, Entry>, protected: set<Id>, max: pos, gone: set<Id>, t: map<Id, Entry>)
    requires Evicts(m, protected, max, gone, t) && |protected| <= 1
    ensures |CompleteIds(t)| <= max && InFlightIds(t) == InFlightIds(m) && CompleteIds(t) == CompleteIds(m) - gone
  {
    if CompleteIds(t) <= protected {
      SubsetSize(CompleteIds(t), protected);
    }
  }

  lemma PrunedSets(s: Store, now: nat)
    ensures InFlightIds(Pruned(s, now).entries) == InFlightIds(s.entries)
    ensures CompleteIds(Pruned(s, now).entries) <= CompleteIds(s.entries)
    ensures |CompleteIds(Pruned(s, now).entries)| <= |CompleteIds(s.entries)|
  {
    SubsetSize(CompleteIds(Pruned(s, now).entries), CompleteIds(s.entries));
  }

  lemma GrantedSets(p: Store, id: Id)
    requires id !in p.entries
    ensures |InFlightIds(p.entries[id := InFlight])| == |InFlightIds(p.entries)| + 1
    ensures CompleteIds(p.entries[id := InFlight]) == CompleteIds(p.entries)
  {
    assert InFlightIds(p.entries[id := InFlight]) == InFlightIds(p.entries) + {id};
  }

  lemma ClaimWithin(c: Config, s: Store, clock: Option<nat>, id: Id)
    requires Within(c, s)
    ensures Within(c, AfterClaim(c, s, clock, id))
  {
    PrunedSets(s, PruneTime(clock));
    var p := Pruned(s, PruneTime(clock));
    if ClaimOf(c, p, id) == Execute {
      GrantedSets(p, id);
    }
  }

  lemma RecordedSets(c: Config, p: Store, now: nat, id: Id, response: Option<bytes>)
    ensures InFlightIds(Recorded(c, p, now, id, response)) == InFlightIds(p.entries) - {id}
    ensures |InFlightIds(p.entries) - {id}| <= |InFlightIds(p.entries)|
  {
    SubsetSize(InFlightIds(p.entries) - {id}, InFlightIds(p.entries));
  }

  lemma RecordWithin(c: Config, s: Store, now: nat, again: Option<nat>, id: Id, response: Option<bytes>, durable: bool,
                     gone: set<Id>, t: Store)
    requires Within(c, s) && AfterRecord(c, s, Some(now), again, id, response, durable, gone, t)
    ensures Within(c, t) && InFlightIds(t.entries) == InFlightIds(s.entries) - {id}
  {
    PrunedSets(s, PruneTime(again));
    var p := Pruned(s, PruneTime(again));
    EvictsWithin(Recorded(c, p, now, id, response), {id}, c.maxCompleted, gone, t.entries);
    RecordedSets(c, p, now, id, response);
  }

  lemma AbandonWithin(c: Config, s: Store, id: Id)
    requires Within(c, s)
    ensures Within(c, Abandoned(s, id))
  {
    SubsetSize(InFlightIds(Abandoned(s, id).entries), InFlightIds(s.entries));
    SubsetSize(CompleteIds(Abandoned(s, id).entries), CompleteIds(s.entries));
  }

  lemma OpenWithin(c: Config, disk: map<Id, Saved>, now: nat, gone: set<Id>, t: Store)
    requires AfterOpen(c, disk, now, gone, t)
    ensures Within(c, t)
  {
    EvictsWithin(Loaded(disk, now), {}, c.maxCompleted, gone, t.entries);
    assert InFlightIds(Loaded(disk, now)) == {};
  }

  lemma StepWithin(c: Config, s: Store, e: Event, t: Store)
    requires Within(c, s) && Steps(c, s, e, t)
    ensures Within(c, t)
  {
    match e
    case Claiming(clock, id) => ClaimWithin(c, s, clock, id);
    case Looking(clock, id) => PrunedSets(s, PruneTime(clock));
    case Recording(clock, again, id, response, durable) =>
      var gone :| AfterRecord(c, s, clock, again, id, response, durable, gone, t);
      if clock.Some? {
        RecordWithin(c, s, clock.value, again, id, response, durable, gone, t);
      }
    case Abandoning(id) => AbandonWithin(c, s, id);
    case Reopening(now) =>
      var gone :| AfterOpen(c, s.disk, now, gone, t);
      OpenWithin(c, s.disk, now, gone, t);
  }

  /** In every state of every run there are no more executions and no more completed entries than their limits. */
  lemma AlwaysWithin(c: Config, states: seq<Store>, events: seq<Event>, i: nat, executing: set<Id>, completed: set<Id>)
    requires Trace(c, states, events) && i < |states|
    requires forall id | id in executing :: id in states[i].entries && states[i].entries[id] == InFlight
    requires forall id | id in completed :: id in states[i].entries && states[i].entries[id] != InFlight
    ensures |executing| <= c.maxInFlight && |completed| <= c.maxCompleted
  {
    TraceWithin(c, states, events, i);
    SubsetSize(executing, InFlightIds(states[i].entries));
    SubsetSize(completed, CompleteIds(states[i].entries));
  }

  lemma {:induction false} TraceWithin(c: Config, states: seq<Store>, events: seq<Event>, i: nat)
    requires Trace(c, states, events) && i < |states|
    ensures Within(c, states[i])
  {
    if i == 0 {
      var disk, now, gone :| AfterOpen(c, disk, now, gone, states[0]);
      OpenWithin(c, disk, now, gone, states[0]);
    } else {
      TraceWithin(c, states, events, i - 1);
      StepWithin(c, states[i - 1], events[i - 1], states[i]);
    }
  }

  /** What one successful `record` does to the others: executions stay, the recorded identifier survives its own
      eviction, and whoever is evicted expires no later than any unprotected survivor. */
  lemma RecordEvictsOldest(c: Config, s: Store, now: nat, again: Option<nat>, id: Id, response: Option<bytes>,
                           durable: bool, gone: set<Id>, t: Store, other: Id, survivor: Id)
    requires Within(c, s) && AfterRecord(c, s, Some(now), again, id, response, durable, gone, t)
    requires other in s.entries && survivor in s.entries && survivor in t.entries && survivor != id
    ensures id in t.entries && t.entries[id] == Complete(Kept(c, response), ExpiryOf(c, now))
    ensures s.entries[other].InFlight? && other != id ==> other in t.entries && t.entries[other] == InFlight
    ensures t.entries[survivor] == s.entries[survivor]
    ensures other !in t.entries ==>
              || Expired(s.entries[other], PruneTime(again))
              || (|CompleteIds(t.entries)| == c.maxCompleted && s.entries[other].Complete?
                  && (s.entries[survivor].Complete? ==> s.entries[other].expiresAt <= s.entries[survivor].expiresAt))
  {
    var p := Pruned(s, PruneTime(again));
    EvictsWithin(Recorded(c, p, now, id, response), {id}, c.maxCompleted, gone, t.entries);
    if other !in t.entries && !Expired(s.entries[other], PruneTime(again)) && s.entries[survivor].Complete? {
      assert other in gone && survivor in CompleteIds(t.entries) - {id};
    }
  }

  // ---- At most one execution ----

  ghost predicate Grants(c: Config, s: Store, e: Event, id: Id) {
    e.Claiming? && e.id == id && ClaimOf(c, Pruned(s, PruneTime(e.clock)), id) == Execute
  }

  predicate ExpiredAt(s: Store, now: nat, id: Id) {
    id in s.entries && Expired(s.entries[id], now)
  }

  /** Lost to a full store, while everything that stayed (but `protected`) expires no sooner. */
  ghost predicate Displaced(c: Config, expiresAt: nat, id: Id, t: Store, protected: set<Id>) {
    && id !in t.entries && |CompleteIds(t.entries)| == c.maxCompleted
    && forall k | k in CompleteIds(t.entries) - protected :: expiresAt <= Expiry(t.entries, k)
  }

  /** The reasons for which a call makes a known identifier executable again: it is abandoned, it expires, it is evicted by
      another's completion, or a reopening finds no live record of it (because it was executing, or its record was
      never written) or has too many to keep it. */
  ghost predicate Releases(c: Config, s: Store, e: Event, t: Store, id: Id) {
    match e
    case Claiming(clock, _) => ExpiredAt(s, PruneTime(clock), id)
    case Looking(clock, _) => ExpiredAt(s, PruneTime(clock), id)
    case Recording(clock, again, other, _, _) =>
      clock.Some? && other != id
      && (ExpiredAt(s, PruneTime(again), id)
          || (id in CompleteIds(s.entries) && Displaced(c, Expiry(s.entries, id), id, t, {other})))
    case Abandoning(other) => other == id
    case Reopening(now) =>
      id !in s.disk || s.disk[id].expiresAt <= now || Displaced(c, s.disk[id].expiresAt, id, t, {})
  }

  /** What eviction takes away is displaced. */
  lemma GoneIsDisplaced(c: Config, m: map<Id, Entry>, protected: set<Id>, gone: set<Id>, t: Store, id: Id)
    requires Evicts(m, protected, c.maxCompleted, gone, t.entries) && |protected| <= 1 && id in gone
    ensures id in CompleteIds(m) && Displaced(c, Expiry(m, id), id, t, protected)
  {
    EvictsWithin(m, protected, c.maxCompleted, gone, t.entries);
    forall k | k in CompleteIds(t.entries) - protected
      ensures Expiry(m, id) <= Expiry(t.entries, k)
    {
      assert Expiry(m, id) <= Expiry(m, k);
    }
  }

  lemma RecordKeeps(c: Config, s: Store, e: Event, t: Store, id: Id, gone: set<Id>)
    requires e.Recording? && AfterRecord(c, s, e.clock, e.again, e.id, e.response, e.durable, gone, t)
    requires id in s.entries && !Releases(c, s, e, t, id)
    ensures id in t.entries
    ensures id != e.id || e.clock == None ==> t.entries[id] == s.entries[id]
  {
    if e.clock.Some? {
      var p := Pruned(s, PruneTime(e.again));
      var m := Recorded(c, p, e.clock.value, e.id, e.response);
      EvictsWithin(m, {e.id}, c.maxCompleted, gone, t.entries);
      if id in gone {
        GoneIsDisplaced(c, m, {e.id}, gone, t, id);
      }
    }
  }

  lemma OpenKeeps(c: Config, s: Store, now: nat, t: Store, id: Id, gone: set<Id>)
    requires AfterOpen(c, s.disk, now, gone, t) && !Releases(c, s, Reopening(now), t, id)
    ensures id in t.entries && t.entries[id] == Complete(s.disk[id].response, s.disk[id].expiresAt)
    ensures id in t.disk && t.disk[id] == s.disk[id]
  {
    EvictsWithin(Loaded(s.disk, now), {}, c.maxCompleted, gone, t.entries);
    if id in gone {
      GoneIsDisplaced(c, Loaded(s.disk, now), {}, gone, t, id);
    }
  }

  /** A known identifier stays known, and is not granted, unless the call releases it. */
  lemma StepKeeps(c: Config, s: Store, e: Event, t: Store, id: Id)
    requires Steps(c, s, e, t) && id in s.entries && !Releases(c, s, e, t, id)
    ensures id in t.entries && !Grants(c, s, e, id)
  {
    match e
    case Recording(clock, again, other, response, durable) =>
      var gone :| AfterRecord(c, s, clock, again, other, response, durable, gone, t);
      RecordKeeps(c, s, e, t, id, gone);
    case Reopening(now) =>
      var gone :| AfterOpen(c, s.disk, now, gone, t);
      OpenKeeps(c, s, now, t, id, gone);
    case _ =>
  }

  lemma RecordLoses(c: Config, s: Store, e: Event, t: Store, id: Id, gone: set<Id>)
    requires e.Recording? && AfterRecord(c, s, e.clock, e.again, e.id, e.response, e.durable, gone, t)
    requires id in s.entries && Releases(c, s, e, t, id)
    ensures id !in t.entries
  {
    if ExpiredAt(s, PruneTime(e.again), id) {
      assert id !in Recorded(c, Pruned(s, PruneTime(e.again)), e.clock.value, e.id, e.response);
    }
  }

  lemma OpenLoses(c: Config, s: Store, now: nat, t: Store, id: Id, gone: set<Id>)
    requires AfterOpen(c, s.disk, now, gone, t) && Releases(c, s, Reopening(now), t, id)
    ensures id !in t.entries
  {
    if id !in s.disk || s.disk[id].expiresAt <= now {
      assert id !in Loaded(s.disk, now);
    }
  }

  lemma StepLoses(c: Config, s: Store, e: Event, t: Store, id: Id)
    requires Steps(c, s, e, t) && id in s.entries && Releases(c, s, e, t, id)
    ensures id !in t.entries || Grants(c, s, e, id)
  {
    match e
    case Recording(clock, again, other, response, durable) =>
      var gone :| AfterRecord(c, s, clock, again, other, response, durable, gone, t);
      RecordLoses(c, s, e, t, id, gone);
    case Reopening(now) =>
      var gone :| AfterOpen(c, s.disk, now, gone, t);
      OpenLoses(c, s, now, t, id, gone);
    case _ =>
  }

  /** The reasons are exact: a call makes a known identifier unknown, or grants it anew, if and only if it releases it. */
  lemma ReleasesIff(c: Config, s: Store, e: Event, t: Store, id: Id)
    requires Steps(c, s, e, t) && id in s.entries
    ensures Releases(c, s, e, t, id) <==> id !in t.entries || Grants(c, s, e, id)
  {
    if Releases(c, s, e, t, id) {
      StepLoses(c, s, e, t, id);
    } else {
      StepKeeps(c, s, e, t, id);
    }
  }

  ghost predicate ReleasedBetween(c: Config, states: seq<Store>, events: seq<Event>, i: nat, j: nat, id: Id) {
    |states| == |events| + 1 && exists k :: i <= k < j && k < |events| && Releases(c, states[k], events[k], states[k + 1], id)
  }

  /** A known identifier that is never released stays known. */
  lemma {:induction false} StaysKnown(c: Config, states: seq<Store>, events: seq<Event>, i: nat, j: nat, id: Id)
    requires Trace(c, states, events) && i <= j < |states| && id in states[i].entries
    requires !ReleasedBetween(c, states, events, i, j, id)
    ensures id in states[j].entries
    decreases j
  {
    if i < j {
      assert forall k | i <= k < j - 1 :: !Releases(c, states[k], events[k], states[k + 1], id);
      StaysKnown(c, states, events, i, j - 1, id);
      StepKeeps(c, states[j - 1], events[j - 1], states[j], id);
    }
  }

  /** At most once: between two grants of one identifier, and at the latest by the second grant's own pruning, the
      identifier was abandoned, expired, evicted, or lost by a reopening. */
  lemma AtMostOnce(c: Config, states: seq<Store>, events: seq<Event>, i: nat, j: nat, id: Id)
    requires Trace(c, states, events) && i < j < |events|
    requires Grants(c, states[i], events[i], id) && Grants(c, states[j], events[j], id)
    ensures ReleasedBetween(c, states, events, i + 1, j + 1, id)
  {
    assert id in states[i + 1].entries;
    if !ReleasedBetween(c, states, events, i + 1, j, id) {
      StaysKnown(c, states, events, i + 1, j, id);
      if !Releases(c, states[j], events[j], states[j + 1], id) {
        StepKeeps(c, states[j], events[j], states[j + 1], id);
      }
    }
  }

  // ---- Replay ----

  /** The store knows `id` as completed with this response, in memory and on disk. */
  ghost predicate Holds(s: Store, id: Id, response: Option<bytes>, expiresAt: nat) {
    && id in s.entries && s.entries[id] == Complete(response, expiresAt)
    && id in s.disk && s.disk[id] == Saved(response, expiresAt)
  }

  lemma RecordHolds(c: Config, s: Store, e: Event, t: Store)
    requires e.Recording? && e.clock.Some? && e.durable && Steps(c, s, e, t)
    ensures Holds(t, e.id, Kept(c, e.response), ExpiryOf(c, e.clock.value))
  {
    var gone :| AfterRecord(c, s, e.clock, e.again, e.id, e.response, e.durable, gone, t);
  }

  lemma OtherRecordHolds(c: Config, s: Store, e: Event, t: Store, id: Id, response: Option<bytes>, expiresAt: nat)
    requires e.Recording? && e.id != id && Steps(c, s, e, t) && !Releases(c, s, e, t, id)
    requires Holds(s, id, response, expiresAt)
    ensures Holds(t, id, response, expiresAt)
  {
    var gone :| AfterRecord(c, s, e.clock, e.again, e.id, e.response, e.durable, gone, t);
    RecordKeeps(c, s, e, t, id, gone);
  }

  lemma StepHolds(c: Config, s: Store, e: Event, t: Store, id: Id, response: Option<bytes>, expiresAt: nat)
    requires Steps(c, s, e, t) && !Releases(c, s, e, t, id) && !(e.Recording? && e.id == id)
    requires Holds(s, id, response, expiresAt)
    ensures Holds(t, id, response, expiresAt)
  {
    match e
    case Recording(_, _, _, _, _) => OtherRecordHolds(c, s, e, t, id, response, expiresAt);
    case Reopening(now) =>
      var gone :| AfterOpen(c, s.disk, now, gone, t);
      OpenKeeps(c, s, now, t, id, gone);
    case _ =>
  }

  ghost predicate RecordedBetween(events: seq<Event>, i: nat, j: nat, id: Id) {
    exists k :: i <= k < j && k < |events| && events[k].Recording? && events[k].id == id
  }

  lemma {:induction false} StaysHeld(c: Config, states: seq<Store>, events: seq<Event>, i: nat, j: nat, id: Id,
                                     response: Option<bytes>, expiresAt: nat)
    requires Trace(c, states, events) && i <= j < |states| && Holds(states[i], id, response, expiresAt)
    requires !ReleasedBetween(c, states, events, i, j, id) && !RecordedBetween(events, i, j, id)
    ensures Holds(states[j], id, response, expiresAt)
    decreases j
  {
    if i < j {
      assert forall k | i <= k < j - 1 :: !Releases(c, states[k], events[k], states[k + 1], id);
      StaysHeld(c, states, events, i, j - 1, id, response, expiresAt);
      StepHolds(c, states[j - 1], events[j - 1], states[j], id, response, expiresAt);
    }
  }

  /** Replay: after a record that reached the disk, every later claim of the identifier, across any number of reopenings,
      answers with exactly the retained response (or a tombstone if none was retained) until the identifier is
      released or recorded again. */
  lemma ReplaysTheRecord(c: Config, states: seq<Store>, events: seq<Event>, i: nat, j: nat, id: Id)
    requires Trace(c, states, events) && i < j < |events|
    requires events[i].Recording? && events[i].id == id && events[i].clock.Some? && events[i].durable
    requires events[j].Claiming? && events[j].id == id
    requires !ReleasedBetween(c, states, events, i + 1, j + 1, id) && !RecordedBetween(events, i + 1, j, id)
    ensures ClaimOf(c, Pruned(states[j], PruneTime(events[j].clock)), id)
            == match Kept(c, events[i].response)
               case Some(response) => Replay(response)
               case None => Tombstone
  {
    RecordHolds(c, states[i], events[i], states[i + 1]);
    assert forall k | i + 1 <= k < j :: !Releases(c, states[k], events[k], states[k + 1], id);
    StaysHeld(c, states, events, i + 1, j, id, Kept(c, events[i].response), ExpiryOf(c, events[i].clock.value));
    assert !Releases(c, states[j], events[j], states[j + 1], id);
  }

  /** Abandoning is one of the reasons: a forward that fails is abandoned before its error is recorded, and a duplicate
      claimed in between is granted a second execution. */
  lemma AbandonAllowsAnother(c: Config, s: Store, clock: Option<nat>, id: Id)
    requires id !in s.entries && |InFlightIds(s.entries)| < c.maxInFlight
    ensures var claimed := AfterClaim(c, s, clock, id);
            && Grants(c, s, Claiming(clock, id), id)
            && Grants(c, Abandoned(claimed, id), Claiming(clock, id), id)
  {
    var p := Pruned(s, PruneTime(clock));
    PrunedSets(s, PruneTime(clock));
    var again := Pruned(Abandoned(AfterClaim(c, s, clock, id), id), PruneTime(clock));
    assert Abandoned(AfterClaim(c, s, clock, id), id).entries == p.entries;
    PrunedSets(Abandoned(AfterClaim(c, s, clock, id), id), PruneTime(clock));
  }
}
