/** Which frames a dispatch sends, and when a frame can be sent again. */
module Dispatch {
  import opened Prelude
  import opened Core
  import opened Stream
  import opened Sender
  import opened SenderInvariant

  ghost predicate Ascending(keys: seq<nat>) {
    forall i, j | 0 <= i < j < |keys| :: keys[i] < keys[j]
  }

  ghost predicate Listed(keys: seq<nat>, k: nat) {
    exists i :: 0 <= i < |keys| && keys[i] == k
  }

  lemma {:induction false} DueKeysAre(m: map<nat, Retained>, nowMs: nat, policy: RetryPolicy, n: nat)
    ensures var keys := DueKeys(m, nowMs, policy, n);
            && Ascending(keys)
            && (forall i | 0 <= i < |keys| :: keys[i] < n && keys[i] in m && Due(m[keys[i]], nowMs, policy))
            && (forall k: nat | k < n && k in m && Due(m[k], nowMs, policy) :: Listed(keys, k))
  {
    if n > 0 {
      DueKeysAre(m, nowMs, policy, n - 1);
      var front, keys := DueKeys(m, nowMs, policy, n - 1), DueKeys(m, nowMs, policy, n);
      forall k: nat | k < n && k in m && Due(m[k], nowMs, policy)
        ensures Listed(keys, k)
      {
        if k == n - 1 {
          assert keys[|front|] == k;
        } else {
          assert Listed(front, k);
          var i :| 0 <= i < |front| && front[i] == k;
          assert keys[i] == k;
        }
      }
    }
  }

  lemma ListedHead(keys: seq<nat>, k: nat)
    requires keys != []
    ensures Listed(keys, k) <==> k == keys[0] || Listed(keys[1..], k)
  {
    if Listed(keys, k) && k != keys[0] {
      var i :| 0 <= i < |keys| && keys[i] == k;
      assert keys[1..][i - 1] == k;
    }
    if Listed(keys[1..], k) {
      var i :| 0 <= i < |keys[1..]| && keys[1..][i] == k;
      assert keys[i + 1] == k;
    }
  }

  ghost predicate SentAre(m: map<nat, Retained>, nowMs: nat, keys: seq<nat>, t: map<nat, Retained>, out: seq<Retained>) {
    && t.Keys == m.Keys && |out| == |keys|
    && (forall i | 0 <= i < |keys| :: keys[i] in m && t[keys[i]] == Sent(m[keys[i]], nowMs) == out[i])
    && (forall k | k in m && !Listed(keys, k) :: t[k] == m[k])
  }

  lemma {:induction false} SentAllAre(m: map<nat, Retained>, nowMs: nat, keys: seq<nat>)
    requires Ascending(keys) && forall i | 0 <= i < |keys| :: keys[i] in m
    ensures SentAre(m, nowMs, keys, SentAll(m, nowMs, keys).0, SentAll(m, nowMs, keys).1)
    decreases |keys|
  {
    if keys != [] {
      var first, rest := keys[0], keys[1..];
      var m' := m[first := Sent(m[first], nowMs)];
      SentAllAre(m', nowMs, rest);
      var (t, out) := SentAll(m', nowMs, rest);
      assert !Listed(rest, first);
      forall k | k in m && !Listed(keys, k)
        ensures t[k] == m[k]
      {
        ListedHead(keys, k);
      }
      forall i | 0 <= i < |keys|
        ensures keys[i] in m && t[keys[i]] == Sent(m[keys[i]], nowMs) == ([Sent(m[first], nowMs)] + out)[i]
      {
        if i > 0 {
          assert rest[i - 1] == keys[i];
        }
      }
    }
  }

  /** A dispatch sends exactly the due frames, once each, in sequence order, and touches nothing else. */
  ghost predicate Dispatched(m: map<nat, Retained>, nowMs: nat, policy: RetryPolicy, t: map<nat, Retained>,
                             out: seq<Retained>)
  {
    && t.Keys == m.Keys
    && (forall k | k in m :: t[k] == if Due(m[k], nowMs, policy) then Sent(m[k], nowMs) else m[k])
    && (forall i | 0 <= i < |out| :: out[i].sequence in m && Due(m[out[i].sequence], nowMs, policy)
                                     && out[i] == t[out[i].sequence])
    && (forall i, j | 0 <= i < j < |out| :: out[i].sequence < out[j].sequence)
    && (forall k | k in m && Due(m[k], nowMs, policy) :: t[k] in out)
  }

  lemma SentAreDispatched(m: map<nat, Retained>, nowMs: nat, policy: RetryPolicy, keys: seq<nat>, t: map<nat, Retained>,
                          out: seq<Retained>)
    requires SentAre(m, nowMs, keys, t, out) && Ascending(keys)
    requires forall k | k in m :: m[k].sequence == k
    requires forall i | 0 <= i < |keys| :: Due(m[keys[i]], nowMs, policy)
    requires forall k: nat | k in m && Due(m[k], nowMs, policy) :: Listed(keys, k)
    ensures Dispatched(m, nowMs, policy, t, out)
  {
    assert forall i | 0 <= i < |keys| :: out[i].sequence == keys[i];
    forall k | k in m
      ensures t[k] == if Due(m[k], nowMs, policy) then Sent(m[k], nowMs) else m[k]
      ensures Due(m[k], nowMs, policy) ==> t[k] in out
    {
      if Due(m[k], nowMs, policy) {
        var i :| 0 <= i < |keys| && keys[i] == k;
        assert out[i] == t[k];
      } else {
        assert !Listed(keys, k);
      }
    }
  }

  lemma DispatchIs(cx: Context, s: Sender, nowMs: nat, policy: RetryPolicy)
    requires SenderOk(cx, s)
    ensures var (t, out) := TakeSendable(s, nowMs, policy); Dispatched(s.inFlight, nowMs, policy, t.inFlight, out)
  {
    var m, keys := s.inFlight, DueKeys(s.inFlight, nowMs, policy, s.nextSequence);
    DueKeysAre(m, nowMs, policy, s.nextSequence);
    SentAllAre(m, nowMs, keys);
    var (t, out) := SentAll(m, nowMs, keys);
    SentAreDispatched(m, nowMs, policy, keys, t, out);
  }
}
