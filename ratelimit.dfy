/** `checkRateLimit`: a per-user counter of calls in a fixed one-hour window,
    held in the module-level `rateLimitStore`.  `Date.now()` is the
    parameter `now`, in milliseconds. */
module RateLimit {
  import opened Messages

  /** The record `{ count, timestamp }` kept for each user id. */
  datatype AbuseRecord = AbuseRecord(count: int, timestamp: int)

  /** One hour, in milliseconds. */
  const Window: int := 3600000

  /** The most calls allowed in one window. */
  const MaxCalls: int := 5

  function Lookup(store: map<string, AbuseRecord>, id: string): Option<AbuseRecord> {
    if id in store then Some(store[id]) else None
  }

  /** One call for a user whose record is `rec`: the record stored afterwards
      and whether the call is allowed. */
  function Step(rec: Option<AbuseRecord>, now: int): (r: (AbuseRecord, bool))
    ensures r.1 <==> r.0.count <= MaxCalls
  {
    match rec
    case None => (AbuseRecord(1, now), true)
    case Some(r) =>
      if now - r.timestamp > Window then (AbuseRecord(1, now), true)
      else (AbuseRecord(r.count + 1, r.timestamp), r.count + 1 <= MaxCalls)
  }

  /** `rateLimitStore` with `checkRateLimit` as its one operation. */
  class RateLimiter {
    var store: map<string, AbuseRecord>

    constructor()
      ensures store == map[]
    {
      store := map[];
    }

    method CheckRateLimit(userId: string, now: int) returns (allowed: bool)
      modifies this
      ensures store == old(store)[userId := Step(Lookup(old(store), userId), now).0]
      ensures allowed == Step(Lookup(old(store), userId), now).1
    {
      if userId !in store {
        store := store[userId := AbuseRecord(1, now)];
        return true;
      }
      var userRecord := store[userId];
      if now - userRecord.timestamp > Window {
        store := store[userId := AbuseRecord(1, now)];
        return true;
      }
      userRecord := userRecord.(count := userRecord.count + 1);
      store := store[userId := userRecord];
      return userRecord.count <= MaxCalls;
    }
  }

  // ----- sequences of calls -----

  /** The store after calls for `id` at the given times, in order. */
  function After(store: map<string, AbuseRecord>, id: string, times: seq<int>): map<string, AbuseRecord>
    decreases |times|
  {
    if times == [] then store
    else
      var before := After(store, id, times[..|times| - 1]);
      before[id := Step(Lookup(before, id), times[|times| - 1]).0]
  }

  /** Whether the last of those calls is allowed. */
  function LastAllowed(store: map<string, AbuseRecord>, id: string, times: seq<int>): bool
    requires times != []
  {
    Step(Lookup(After(store, id, times[..|times| - 1]), id), times[|times| - 1]).1
  }

  /** Starting with no record, n calls that all fall within one hour of the
      first leave the count n with the window opened by the first call, and
      the n-th call is allowed exactly when n <= 5. */
  lemma {:induction false} WindowCounts(store: map<string, AbuseRecord>, id: string, times: seq<int>)
    requires id !in store && times != []
    requires forall k | 0 <= k < |times| :: times[k] - times[0] <= Window
    ensures id in After(store, id, times)
    ensures After(store, id, times)[id] == AbuseRecord(|times|, times[0])
    ensures LastAllowed(store, id, times) <==> |times| <= MaxCalls
    decreases |times|
  {
    var init := times[..|times| - 1];
    if init != [] {
      assert forall k | 0 <= k < |init| :: init[k] == times[k];
      WindowCounts(store, id, init);
    }
  }

  /** Once more than an hour has passed since the window opened, the next
      call starts a new window and is allowed. */
  lemma ResetAfterWindow(store: map<string, AbuseRecord>, id: string, now: int)
    requires id in store && now - store[id].timestamp > Window
    ensures Step(Lookup(store, id), now) == (AbuseRecord(1, now), true)
  {
  }

  /** Calls for one user leave every other user's record as it was. */
  lemma {:induction false} OthersUntouched(store: map<string, AbuseRecord>, id: string, times: seq<int>, other: string)
    requires other != id
    ensures Lookup(After(store, id, times), other) == Lookup(store, other)
    decreases |times|
  {
    if times != [] {
      OthersUntouched(store, id, times[..|times| - 1], other);
    }
  }
}
