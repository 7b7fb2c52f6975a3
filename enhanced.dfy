/** `enhancedSecurityCheck`: the rate limiter first, then `securityCheck`,
    then a log line for a rejected conversation. */
module Enhanced {
  import opened Messages
  import opened Patterns
  import opened Gate
  import opened RateLimit

  const RateLimited: Verdict :=
    Verdict(false, Some("Rate limit exceeded due to multiple security flags"), 100.0)

  /** How the returned promise settles: with a verdict, or rejected by the
      TypeError that the log line raises. */
  datatype Outcome = Returned(verdict: Verdict) | Thrown

  /** The log line of a rejection reads `content.length` of the last array
      element; `?.` guards only the element, so the read throws when the
      element has no `content`. */
  predicate LogThrows(raw: seq<RawMessage>) {
    |raw| > 0 && raw[|raw| - 1].content.NoContent?
  }

  /** The outcome of `enhancedSecurityCheck` for a user whose limiter record
      is `rec`. */
  function EnhancedOutcome(rec: Option<AbuseRecord>, raw: seq<RawMessage>, now: int): Outcome {
    if !Step(rec, now).1 then Returned(RateLimited)
    else
      var v := SecurityVerdict(raw);
      if !v.isSecure && LogThrows(raw) then Thrown else Returned(v)
  }

  /** Every call is counted, whatever the messages say; a refused call never
      reaches the content checks. */
  method EnhancedSecurityCheck(limiter: RateLimiter, raw: seq<RawMessage>, userId: string, now: int)
    returns (o: Outcome)
    modifies limiter
    ensures limiter.store == old(limiter.store)[userId := Step(Lookup(old(limiter.store), userId), now).0]
    ensures o == EnhancedOutcome(Lookup(old(limiter.store), userId), raw, now)
  {
    var allowed := limiter.CheckRateLimit(userId, now);
    if !allowed {
      return Returned(RateLimited);
    }
    var v := SecurityCheck(raw);
    if !v.isSecure && LogThrows(raw) {
      return Thrown;
    }
    o := Returned(v);
  }

  /** A refused call returns the fixed rate-limit verdict.  An allowed call
      throws exactly when the last element has no content (such a
      conversation always fails validation), and otherwise returns the
      verdict of `securityCheck` unchanged.  Every returned verdict is
      consistent. */
  lemma EnhancedIsGateOrLimit(rec: Option<AbuseRecord>, raw: seq<RawMessage>, now: int)
    ensures var o := EnhancedOutcome(rec, raw, now);
      o == Returned(SecurityVerdict(raw)) || o == Returned(RateLimited) || o == Thrown
    ensures !Step(rec, now).1 ==> EnhancedOutcome(rec, raw, now) == Returned(RateLimited)
    ensures Step(rec, now).1 ==>
      (EnhancedOutcome(rec, raw, now) == Thrown <==> LogThrows(raw))
      && (!LogThrows(raw) ==> EnhancedOutcome(rec, raw, now) == Returned(SecurityVerdict(raw)))
    ensures EnhancedOutcome(rec, raw, now) == Thrown ==>
      SecurityVerdict(raw).reason == Some(InvalidFormat)
    ensures EnhancedOutcome(rec, raw, now).Returned? ==>
      Consistent(EnhancedOutcome(rec, raw, now).verdict)
  {
    VerdictConsistent(SourceTables, raw);
    ValidationFirst(SourceTables, raw);
    if LogThrows(raw) {
      assert ParseMessage(raw[|raw| - 1]).None?;
    }
  }

  /** The log line with `?.` on `content` as well: the promise always
      settles with the verdict. */
  function CorrectedOutcome(rec: Option<AbuseRecord>, raw: seq<RawMessage>, now: int): Outcome {
    if !Step(rec, now).1 then Returned(RateLimited) else Returned(SecurityVerdict(raw))
  }

  /** The corrected log line never throws, and changes nothing where the
      source's does not throw. */
  lemma CorrectedNeverThrows(rec: Option<AbuseRecord>, raw: seq<RawMessage>, now: int)
    ensures CorrectedOutcome(rec, raw, now).Returned?
    ensures EnhancedOutcome(rec, raw, now) != Thrown ==>
      CorrectedOutcome(rec, raw, now) == EnhancedOutcome(rec, raw, now)
    ensures Step(rec, now).1 ==> CorrectedOutcome(rec, raw, now) == Returned(SecurityVerdict(raw))
  {
    EnhancedIsGateOrLimit(rec, raw, now);
  }

  /** `[{ role: 'user', id: '1' }]` from a user with no record: the gate
      rejects it as malformed and the log line throws. */
  lemma MissingContentThrows(now: int)
    ensures EnhancedOutcome(None, [RawMessage(Some("user"), NoContent, IdText("1"), NoStamp)], now) == Thrown
  {
    var raw := [RawMessage(Some("user"), NoContent, IdText("1"), NoStamp)];
    EnhancedIsGateOrLimit(None, raw, now);
  }

  /** From a store with no record for the user, the sixth and every later
      call within one hour of the first is refused, whatever the messages. */
  lemma SixthCallRefused(store: map<string, AbuseRecord>, id: string, times: seq<int>, raw: seq<RawMessage>)
    requires id !in store && |times| > MaxCalls
    requires forall k | 0 <= k < |times| :: times[k] - times[0] <= Window
    ensures EnhancedOutcome(Lookup(After(store, id, times[..|times| - 1]), id), raw, times[|times| - 1])
      == Returned(RateLimited)
  {
    WindowCounts(store, id, times);
  }
}
