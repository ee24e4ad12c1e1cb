/** The completion store: claims, retained responses, tombstones, expiry, eviction and reopening. */
module Completion {
  import opened Prelude

  type Id = nat

  datatype Entry = InFlight | Complete(response: Option<bytes>, expiresAt: nat)

  /** A record file. */
  datatype Saved = Saved(response: Option<bytes>, expiresAt: nat)

  datatype Store = Store(entries: map<Id, Entry>, disk: map<Id, Saved>)

  datatype Config = Config(retention: nat, maxResponseBytes: nat, maxCompleted: pos, maxInFlight: pos)

  datatype Claimed = Execute | Replay(response: bytes) | Tombstone | WaitForDuplicate | WaitForCapacity

  datatype Found = Response(response: bytes) | NoResponse | Executing

  /** Without a readable clock everything counts as expired. */
  function PruneTime(clock: Option<nat>): nat {
    if clock.Some? then clock.value else U64_MAX
  }

  predicate Expired(e: Entry, now: nat) {
    e.Complete? && e.expiresAt <= now
  }

  function ExpiredIds(entries: map<Id, Entry>, now: nat): set<Id> {
    set id | id in entries && Expired(entries[id], now)
  }

  function Pruned(s: Store, now: nat): Store {
    var expired := ExpiredIds(s.entries, now);
    Store(s.entries - expired, s.disk - expired)
  }

  function InFlightIds(entries: map<Id, Entry>): set<Id> {
    set id | id in entries && entries[id].InFlight?
  }

  function CompleteIds(entries: map<Id, Entry>): set<Id> {
    set id | id in entries && entries[id].Complete?
  }

  /** What a claim of a pruned store answers. */
  function ClaimOf(c: Config, s: Store, id: Id): Claimed {
    if id in s.entries then
      match s.entries[id]
      case InFlight => WaitForDuplicate
      case Complete(Some(response), _) => Replay(response)
      case Complete(None, _) => Tombstone
    else if |InFlightIds(s.entries)| >= c.maxInFlight then WaitForCapacity
    else Execute
  }

  function AfterClaim(c: Config, s: Store, clock: Option<nat>, id: Id): Store {
    var p := Pruned(s, PruneTime(clock));
    if ClaimOf(c, p, id) == Execute then p.(entries := p.entries[id := InFlight]) else p
  }

  function LookupOf(s: Store, id: Id): Option<Found> {
    if id !in s.entries then None
    else
      match s.entries[id]
      case InFlight => Some(Executing)
      case Complete(Some(response), _) => Some(Response(response))
      case Complete(None, _) => Some(NoResponse)
  }

  /** Responses above the retention threshold become tombstones. */
  function Kept(c: Config, response: Option<bytes>): Option<bytes> {
    if response.Some? && |response.value| <= c.maxResponseBytes then response else None
  }

  function ExpiryOf(c: Config, now: nat): nat {
    Min(now + c.retention, U64_MAX)
  }

  function Expiry(entries: map<Id, Entry>, id: Id): nat
    requires id in CompleteIds(entries)
  {
    entries[id].expiresAt
  }

  /** Eviction down to `max` completed entries, oldest expiry first, never touching `protected` or an execution. Which of
      several equally old entries goes is open, as it is in the source. */
  ghost predicate Evicts(m: map<Id, Entry>, protected: set<Id>, max: nat, gone: set<Id>, t: map<Id, Entry>) {
    && gone <= CompleteIds(m) - protected && t == m - gone
    && (|CompleteIds(t)| <= max || CompleteIds(t) <= protected)
    && (gone != {} ==> |CompleteIds(t)| >= max)
    && forall e, k | e in gone && k in CompleteIds(t) - protected :: Expiry(m, e) <= Expiry(m, k)
  }

  function Recorded(c: Config, p: Store, now: nat, id: Id, response: Option<bytes>): map<Id, Entry> {
    p.entries[id := Complete(Kept(c, response), ExpiryOf(c, now))]
  }

  /** `record` reads the clock for the new entry's expiry, and `again` to prune; `durable` says whether the file could be
      written, and so what it returns. */
  ghost predicate AfterRecord(c: Config, s: Store, clock: Option<nat>, again: Option<nat>, id: Id, response: Option<bytes>,
                              durable: bool, gone: set<Id>, t: Store)
  {
    if clock == None then gone == {} && t == s
    else
      var p := Pruned(s, PruneTime(again));
      && Evicts(Recorded(c, p, clock.value, id, response), {id}, c.maxCompleted, gone, t.entries)
      && t.disk == if durable then p.disk[id := Saved(Kept(c, response), ExpiryOf(c, clock.value))] - gone else p.disk
  }

  function Abandoned(s: Store, id: Id): Store {
    s.(entries := s.entries - {id})
  }

  function LiveFiles(disk: map<Id, Saved>, now: nat): map<Id, Saved> {
    map id | id in disk && disk[id].expiresAt > now :: disk[id]
  }

  function Loaded(disk: map<Id, Saved>, now: nat): map<Id, Entry> {
    map id | id in disk && disk[id].expiresAt > now :: Complete(disk[id].response, disk[id].expiresAt)
  }

  /** Opening a store on what is on disk. */
  ghost predicate AfterOpen(c: Config, disk: map<Id, Saved>, now: nat, gone: set<Id>, t: Store) {
    && Evicts(Loaded(disk, now), {}, c.maxCompleted, gone, t.entries)
    && t.disk == LiveFiles(disk, now) - gone
  }

  class CompletionStore {
    const config: Config
    var entries: map<Id, Entry>
    var disk: map<Id, Saved>

    ghost function View(): Store
      reads this
    {
      Store(entries, disk)
    }

    constructor OpenWithActiveLimit(config: Config, files: map<Id, Saved>, now: nat)
      ensures this.config == config
      ensures exists gone :: AfterOpen(config, files, now, gone, View())
    {
      this.config := config;
      entries, disk := map[], files;
      new;
      var left := files.Keys;
      while left != {}
        invariant left <= files.Keys
        invariant disk == map id | id in files && (id in left || files[id].expiresAt > now) :: files[id]
        invariant entries == map id | id in files && id !in left && files[id].expiresAt > now ::
                    Complete(files[id].response, files[id].expiresAt)
        decreases left
      {
        var id :| id in left;
        left := left - {id};
        if files[id].expiresAt > now {
          entries := entries[id := Complete(files[id].response, files[id].expiresAt)];
        } else {
          disk := disk - {id};
        }
      }
      assert entries == Loaded(files, now) && disk == LiveFiles(files, now);
      ghost var gone := TrimLoaded();
      assert AfterOpen(config, files, now, gone, View());
    }

    /** The completed entry with the smallest expiry outside `protected`. */
    method Oldest(protected: set<Id>) returns (oldest: Option<Id>)
      ensures match oldest
              case None => CompleteIds(entries) <= protected
              case Some(id) => id in CompleteIds(entries) - protected
                               && forall k | k in CompleteIds(entries) - protected :: Expiry(entries, id) <= Expiry(entries, k)
    {
      var left := CompleteIds(entries) - protected;
      oldest := None;
      while left != {}
        invariant left <= CompleteIds(entries) - protected
        invariant match oldest
                  case None => left == CompleteIds(entries) - protected
                  case Some(id) => id in CompleteIds(entries) - protected
                                   && forall k | k in CompleteIds(entries) - protected && k !in left ::
                                        Expiry(entries, id) <= Expiry(entries, k)
        decreases left
      {
        var id :| id in left;
        left := left - {id};
        if oldest == None || entries[id].expiresAt < entries[oldest.value].expiresAt {
          oldest := Some(id);
        }
      }
      if oldest == None {
        forall id | id in CompleteIds(entries)
          ensures id in protected
        {
          assert id in CompleteIds(entries) - protected || id in protected;
        }
      }
    }

    method EnforceCompletedLimit(protectedId: Id) returns (evicted: set<Id>)
      modifies this`entries
      ensures Evicts(old(entries), {protectedId}, config.maxCompleted, evicted, entries)
    {
      evicted := {};
      while |CompleteIds(entries)| > config.maxCompleted
        invariant Evicting(old(entries), {protectedId}, config.maxCompleted, evicted, entries)
        decreases |entries|
      {
        var oldest := Oldest({protectedId});
        if oldest == None {
          break;
        }
        EvictOne(old(entries), {protectedId}, config.maxCompleted, evicted, entries, oldest.value);
        entries := entries - {oldest.value};
        evicted := evicted + {oldest.value};
      }
    }

    method TrimLoaded() returns (ghost gone: set<Id>)
      modifies this
      ensures Evicts(old(entries), {}, config.maxCompleted, gone, entries)
      ensures disk == old(disk) - gone
    {
      ghost var start := View();
      gone := {};
      while |CompleteIds(entries)| > config.maxCompleted
        invariant Trimming(start, config.maxCompleted, gone, View())
        decreases |entries|
      {
        var oldest := Oldest({});
        if oldest == None {
          break;
        }
        TrimOne(start, config.maxCompleted, gone, View(), oldest.value);
        entries := entries - {oldest.value};
        disk := disk - {oldest.value};
        gone := gone + {oldest.value};
      }
    }

    method Prune(clock: Option<nat>)
      modifies this
      ensures View() == Pruned(old(View()), PruneTime(clock))
    {
      var now := if clock.Some? then clock.value else U64_MAX;
      var expired := set id | id in entries && entries[id].Complete? && entries[id].expiresAt <= now;
      ghost var all := expired;
      ghost var done: set<Id> := {};
      assert entries - {} == entries && disk - {} == disk;
      while expired != {}
        invariant done + expired == all && done !! expired
        invariant entries == old(entries) - done && disk == old(disk) - done
        decreases expired
      {
        var id :| id in expired;
        expired := expired - {id};
        entries := entries - {id};
        disk := disk - {id};
        done := done + {id};
      }
      assert done == ExpiredIds(old(entries), now);
    }

    method Claim(clock: Option<nat>, id: Id) returns (r: Claimed)
      modifies this
      ensures View() == AfterClaim(config, old(View()), clock, id)
      ensures r == ClaimOf(config, Pruned(old(View()), PruneTime(clock)), id)
    {
      Prune(clock);
      if id in entries {
        match entries[id] {
          case InFlight => return WaitForDuplicate;
          case Complete(Some(response), _) => return Replay(response);
          case Complete(None, _) => return Tombstone;
        }
      }
      assert InFlightIds(entries) == set other | other in entries && entries[other].InFlight?;
      var active := |set other | other in entries && entries[other].InFlight?|;
      if active >= config.maxInFlight {
        return WaitForCapacity;
      }
      entries := entries[id := InFlight];
      return Execute;
    }

    method Lookup(clock: Option<nat>, id: Id) returns (r: Option<Found>)
      modifies this
      ensures View() == Pruned(old(View()), PruneTime(clock))
      ensures r == LookupOf(View(), id)
    {
      Prune(clock);
      if id !in entries {
        return None;
      }
      match entries[id] {
        case InFlight => return Some(Executing);
        case Complete(Some(response), _) => return Some(Response(response));
        case Complete(None, _) => return Some(NoResponse);
      }
    }

    method Record(clock: Option<nat>, again: Option<nat>, id: Id, response: Option<bytes>, durable: bool)
      returns (ok: bool)
      modifies this
      ensures exists gone :: AfterRecord(config, old(View()), clock, again, id, response, durable, gone, View())
      ensures ok <==> clock.Some? && durable
    {
      var kept := if response.Some? && |response.value| <= config.maxResponseBytes then response else None;
      if clock == None {
        assert AfterRecord(config, old(View()), clock, again, id, response, durable, {}, View());
        return false;
      }
      var expiresAt := Min(clock.value + config.retention, U64_MAX);
      Prune(again);
      ghost var p := View();
      entries := entries - {id};
      entries := entries[id := Complete(kept, expiresAt)];
      assert entries == Recorded(config, p, clock.value, id, response);
      var evicted := EnforceCompletedLimit(id);
      if durable {
        disk := disk[id := Saved(kept, expiresAt)];
        disk := disk - evicted;
      }
      assert AfterRecord(config, old(View()), clock, again, id, response, durable, evicted, View());
      return durable;
    }

    method Abandon(id: Id)
      modifies this
      ensures View() == Abandoned(old(View()), id)
    {
      entries := entries - {id};
    }
  }

  // ---- Eviction ----

  lemma MinusOneMore<V>(m: map<Id, V>, gone: set<Id>, id: Id)
    ensures m - gone - {id} == m - (gone + {id})
  {
  }

  /** Eviction under way: as `Evicts`, except that the limit may still be exceeded. */
  ghost predicate Evicting(m: map<Id, Entry>, protected: set<Id>, max: nat, gone: set<Id>, t: map<Id, Entry>) {
    && gone <= CompleteIds(m) - protected && t == m - gone
    && (gone != {} ==> |CompleteIds(t)| >= max)
    && forall e, k | e in gone && k in CompleteIds(t) - protected :: Expiry(m, e) <= Expiry(m, k)
  }

  lemma EvictOne(m: map<Id, Entry>, protected: set<Id>, max: nat, gone: set<Id>, t: map<Id, Entry>, id: Id)
    requires Evicting(m, protected, max, gone, t) && |CompleteIds(t)| > max && id in CompleteIds(t) - protected
    requires forall k | k in CompleteIds(t) - protected :: Expiry(t, id) <= Expiry(t, k)
    ensures Evicting(m, protected, max, gone + {id}, t - {id}) && |t - {id}| < |t|
  {
    var t', gone' := t - {id}, gone + {id};
    assert CompleteIds(t') == CompleteIds(t) - {id};
    assert t'.Keys == t.Keys - {id};
    MinusOneMore(m, gone, id);
    assert id in CompleteIds(m) - protected;
    forall e, k | e in gone' && k in CompleteIds(t') - protected
      ensures Expiry(m, e) <= Expiry(m, k)
    {
      assert k in CompleteIds(t) - protected;
      if e == id {
        assert Expiry(t, id) <= Expiry(t, k);
      }
    }
  }

  /** Trimming under way: eviction that takes the files along. */
  ghost predicate Trimming(start: Store, max: nat, gone: set<Id>, t: Store) {
    Evicting(start.entries, {}, max, gone, t.entries) && t.disk == start.disk - gone
  }

  lemma TrimOne(start: Store, max: nat, gone: set<Id>, t: Store, id: Id)
    requires Trimming(start, max, gone, t) && |CompleteIds(t.entries)| > max && id in CompleteIds(t.entries) - {}
    requires forall k | k in CompleteIds(t.entries) - {} :: Expiry(t.entries, id) <= Expiry(t.entries, k)
    ensures Trimming(start, max, gone + {id}, Store(t.entries - {id}, t.disk - {id}))
    ensures |t.entries - {id}| < |t.entries|
  {
    EvictOne(start.entries, {}, max, gone, t.entries, id);
    MinusOneMore(start.disk, gone, id);
  }
}
