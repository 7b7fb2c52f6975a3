/** The two risk scorers the gate adds up once every hard check has passed:
    `classifyContent`, which scores the latest user message by keyword
    buckets and length, and `analyzeMessageHistory`, which scores the user
    messages of the whole conversation. */
module Scoring {
  import opened Text
  import opened Regex
  import opened Normalize
  import opened Patterns
  import opened Messages

  function Min(a: real, b: real): real {
    if a <= b then a else b
  }

  // ----- classifyContent -----

  /** How many of `terms` occur in `t`: each term counts once, however often
      it occurs. */
  function PresentCount(terms: seq<string>, t: string): (n: nat)
    ensures n <= |terms|
    decreases |terms|
  {
    if terms == [] then 0
    else PresentCount(terms[..|terms| - 1], t) + (if Contains(t, terms[|terms| - 1]) then 1 else 0)
  }

  /** The indices of the terms that occur in `t`. */
  function PresentSet(terms: seq<string>, t: string): set<int> {
    set k | 0 <= k < |terms| && Contains(t, terms[k])
  }

  /** The length bonus `Math.min(50, content.length / 100)`, given only above
      1000 characters. */
  function LengthBonus(n: int): (b: real)
    ensures n <= 1000 ==> b == 0.0
    ensures n > 1000 ==> 10.0 < b <= 50.0
    ensures n >= 5000 ==> b == 50.0
  {
    if n > 1000 then Min(50.0, n as real / 100.0) else 0.0
  }

  const MaxContentScore: real := 690.0

  /** The keyword part of the score: +15 per direct-attack term, +10 per
      command term, +20 per persona term and +25 per language term that the
      (normalized) text includes. */
  function KeywordScore(t: string): (score: real)
    ensures 0.0 <= score <= MaxContentScore - 50.0
  {
    BucketScore(DirectAttackTerms, 15.0, t) + BucketScore(CommandTerms, 10.0, t)
    + BucketScore(PersonaTerms, 20.0, t) + BucketScore(LanguageTerms, 25.0, t)
  }

  /** What one bucket adds: its weight once per term present. */
  function BucketScore(terms: seq<string>, weight: real, t: string): real {
    weight * PresentCount(terms, t) as real
  }

  /** `classifyContent(content)`: the keyword score of the normalized text
      plus the length bonus of the raw text. */
  function ContentScore(content: string): (score: real)
    ensures 0.0 <= score <= MaxContentScore
  {
    KeywordScore(NormalizeText(content)) + LengthBonus(|content|)
  }

  /** Adds `weight` for each term of `terms` that `t` includes; `score` is
      the running total of `classifyContent`. */
  method AddPresent(t: string, terms: seq<string>, weight: real, score0: real) returns (score: real)
    ensures score == score0 + BucketScore(terms, weight, t)
  {
    score := score0;
    for i := 0 to |terms|
      invariant score == score0 + weight * PresentCount(terms[..i], t) as real
    {
      assert terms[..i + 1][..i] == terms[..i];
      if Find(t, terms[i]) {
        score := score + weight;
      }
    }
    assert terms[..|terms|] == terms;
  }

  /** The four keyword loops of `classifyContent`. */
  method ScanKeywords(t: string) returns (score: real)
    ensures score == KeywordScore(t)
  {
    var direct := AddPresent(t, DirectAttackTerms, 15.0, 0.0);
    var command := AddPresent(t, CommandTerms, 10.0, direct);
    var persona := AddPresent(t, PersonaTerms, 20.0, command);
    score := AddPresent(t, LanguageTerms, 25.0, persona);
  }

  method ClassifyContent(content: string) returns (score: real)
    ensures score == ContentScore(content)
  {
    var normalized := NormalizeText(content);
    score := ScanKeywords(normalized);
    if |content| > 1000 {
      score := score + Min(50.0, |content| as real / 100.0);
    }
  }

  /** Each present term is counted exactly once. */
  lemma {:induction false} PresentCountIsSetSize(terms: seq<string>, t: string)
    ensures PresentCount(terms, t) == |PresentSet(terms, t)|
    decreases |terms|
  {
    if terms != [] {
      var n := |terms| - 1;
      var init := terms[..n];
      PresentCountIsSetSize(init, t);
      var before := PresentSet(init, t);
      assert forall k | 0 <= k < n :: init[k] == terms[k];
      if Contains(t, terms[n]) {
        assert PresentSet(terms, t) == before + {n};
        assert n !in before;
      } else {
        assert PresentSet(terms, t) == before;
      }
    }
  }

  // ----- analyzeMessageHistory -----

  /** `filter(Boolean)` keeps a stamp exactly when it is truthy. */
  predicate Truthy(s: Stamp) {
    s.At? || s.Unparsable?
  }

  /** The truthy `createdAt` values of the messages, in order. */
  function TimedStamps(users: seq<Message>): (st: seq<Stamp>)
    ensures |st| <= |users|
    ensures forall k | 0 <= k < |st| :: Truthy(st[k])
    ensures forall x :: x in st <==> Truthy(x) && exists j | 0 <= j < |users| :: users[j].stamp == x
    decreases |users|
  {
    if users == [] then []
    else
      var init, last := users[..|users| - 1], users[|users| - 1];
      var rest := TimedStamps(init);
      assert forall j | 0 <= j < |init| :: init[j] == users[j];
      if Truthy(last.stamp) then rest + [last.stamp] else rest
  }

  /** The stamps of a concatenation are the stamps of each part, in order. */
  lemma {:induction false} TimedStampsAppend(a: seq<Message>, b: seq<Message>)
    ensures TimedStamps(a + b) == TimedStamps(a) + TimedStamps(b)
    decreases |b|
  {
    if b == [] {
      assert a + b == a;
    } else {
      assert (a + b)[..|a + b| - 1] == a + b[..|b| - 1];
      TimedStampsAppend(a, b[..|b| - 1]);
    }
  }

  /** One message contributes its stamp exactly when the stamp is truthy. */
  lemma TimedStampsSingle(m: Message)
    ensures TimedStamps([m]) == if Truthy(m.stamp) then [m.stamp] else []
  {
    assert [m][..0] == [];
  }

  /** `curr.getTime() - prev.getTime() < 10000`; an Invalid Date yields NaN,
      which compares false. */
  predicate IsRapid(prev: Stamp, curr: Stamp) {
    prev.At? && curr.At? && curr.ms - prev.ms < 10000
  }

  /** The number of consecutive pairs that are rapid. */
  function RapidPairs(st: seq<Stamp>): (n: nat)
    ensures n <= if st == [] then 0 else |st| - 1
    decreases |st|
  {
    if |st| <= 1 then 0
    else RapidPairs(st[..|st| - 1]) + (if IsRapid(st[|st| - 2], st[|st| - 1]) then 1 else 0)
  }

  function RapidScore(users: seq<Message>): (score: int)
    ensures 0 <= score <= (if users == [] then 0 else 10 * (|users| - 1))
  {
    if |users| >= 3 && |TimedStamps(users)| >= 3 then 10 * RapidPairs(TimedStamps(users)) else 0
  }

  /** `userMessages.slice(-3)` */
  function Recent(users: seq<Message>): (recent: seq<Message>)
    requires |users| >= 1
    ensures |recent| == (if |users| < 3 then |users| else 3)
    ensures recent == users[|users| - |recent|..]
  {
    if |users| <= 3 then users else users[|users| - 3..]
  }

  /** Some earlier message matches the setup. */
  predicate HasSetup(setup: Pattern, earlier: seq<Message>) {
    exists k | 0 <= k < |earlier| :: Test(setup, NormalizeText(earlier[k].content))
  }

  /** A context pattern fires on the recent messages. */
  predicate ContextHit(cp: ContextPattern, recent: seq<Message>)
    requires |recent| >= 1
  {
    HasSetup(cp.setup, recent[..|recent| - 1])
    && Test(cp.attack, NormalizeText(recent[|recent| - 1].content))
  }

  function ContextHits(cps: seq<ContextPattern>, recent: seq<Message>): (n: nat)
    requires |recent| >= 1
    ensures n <= |cps|
    decreases |cps|
  {
    if cps == [] then 0
    else ContextHits(cps[..|cps| - 1], recent) + (if ContextHit(cps[|cps| - 1], recent) then 1 else 0)
  }

  /** The context score of the user messages under the context patterns
      `cps`. */
  function ContextScore(cps: seq<ContextPattern>, users: seq<Message>): (score: int)
    ensures 0 <= score <= 40 * |cps|
  {
    if |users| >= 2 then 40 * ContextHits(cps, Recent(users)) else 0
  }

  /** Every user message is strictly longer than the one before it. */
  predicate Increasing(users: seq<Message>) {
    forall i | 1 <= i < |users| :: |users[i - 1].content| < |users[i].content|
  }

  function EscalationScore(users: seq<Message>): int {
    if |users| >= 3 && Increasing(users) && |users[|users| - 1].content| > 500 then 15 else 0
  }

  /** `analyzeMessageHistory(messages)` with the context patterns `cps`;
      the source's function is `HistoryScore(ContextPatterns, ms)`. */
  function HistoryScore(cps: seq<ContextPattern>, ms: seq<Message>): (score: int)
    ensures 0 <= score <= 10 * |UserMessages(ms)| + 40 * |cps| + 15
  {
    var users := UserMessages(ms);
    RapidScore(users) + ContextScore(cps, users) + EscalationScore(users)
  }

  /** `messages.filter((m) => m.role === 'user')` */
  method FilterUsers(ms: seq<Message>) returns (users: seq<Message>)
    ensures users == UserMessages(ms)
  {
    users := [];
    for k := 0 to |ms|
      invariant users == UserMessages(ms[..k])
    {
      assert ms[..k + 1][..k] == ms[..k];
      if ms[k].role == User {
        users := users + [ms[k]];
      }
    }
    assert ms[..|ms|] == ms;
  }

  /** `.map((m) => m.createdAt).filter(Boolean)` */
  method CollectStamps(users: seq<Message>) returns (stamps: seq<Stamp>)
    ensures stamps == TimedStamps(users)
  {
    stamps := [];
    for k := 0 to |users|
      invariant stamps == TimedStamps(users[..k])
    {
      assert users[..k + 1][..k] == users[..k];
      if Truthy(users[k].stamp) {
        stamps := stamps + [users[k].stamp];
      }
    }
    assert users[..|users|] == users;
  }

  /** The loop over consecutive timestamps: +10 per rapid pair. */
  method ScoreRapid(stamps: seq<Stamp>) returns (score: int)
    ensures score == 10 * RapidPairs(stamps)
  {
    score := 0;
    if stamps == [] {
      return;
    }
    for i := 1 to |stamps|
      invariant score == 10 * RapidPairs(stamps[..i])
    {
      assert stamps[..i + 1][..i] == stamps[..i];
      if IsRapid(stamps[i - 1], stamps[i]) {
        score := score + 10;
      }
    }
    assert stamps[..|stamps|] == stamps;
  }

  /** `xs.some(p)`: the scan stops at the first element that passes. */
  method SomePasses<T>(xs: seq<T>, p: T -> bool) returns (found: bool)
    ensures found <==> exists k | 0 <= k < |xs| :: p(xs[k])
  {
    found := false;
    var j := 0;
    while j < |xs| && !found
      invariant 0 <= j <= |xs|
      invariant found <==> exists k | 0 <= k < j :: p(xs[k])
    {
      found := p(xs[j]);
      j := j + 1;
    }
  }

  /** The loop over the context patterns: +40 per pattern whose setup is in
      an earlier recent message and whose attack is in the latest. */
  method ScoreContext(cps: seq<ContextPattern>, recent: seq<Message>) returns (score: int)
    requires |recent| >= 1
    ensures score == 40 * ContextHits(cps, recent)
  {
    score := 0;
    for c := 0 to |cps|
      invariant score == 40 * ContextHits(cps[..c], recent)
    {
      assert cps[..c + 1][..c] == cps[..c];
      var pattern := cps[c];
      var hasSetup := SomePasses(recent[..|recent| - 1], (m: Message) => Test(pattern.setup, NormalizeText(m.content)));
      var hasAttack := Test(pattern.attack, NormalizeText(recent[|recent| - 1].content));
      if hasSetup && hasAttack {
        score := score + 40;
      }
    }
    assert cps[..|cps|] == cps;
  }

  /** The `increasingPattern` loop, which stops at the first message that is
      not longer than the one before it. */
  method CheckIncreasing(users: seq<Message>) returns (increasing: bool)
    ensures increasing <==> Increasing(users)
  {
    increasing := true;
    var i := 1;
    while i < |users|
      invariant 1 <= i
      invariant i <= |users| || users == []
      invariant forall k | 1 <= k < i && k < |users| :: |users[k - 1].content| < |users[k].content|
    {
      if |users[i].content| <= |users[i - 1].content| {
        increasing := false;
        break;
      }
      i := i + 1;
    }
  }

  /** `analyzeMessageHistory(messages)` with the context patterns `cps`;
      the gate passes the source's `ContextPatterns`. */
  method AnalyzeMessageHistory(cps: seq<ContextPattern>, ms: seq<Message>) returns (score: int)
    ensures score == HistoryScore(cps, ms)
  {
    score := 0;
    var users := FilterUsers(ms);
    if |users| >= 3 {
      var stamps := CollectStamps(users);
      if |stamps| >= 3 {
        score := ScoreRapid(stamps);
      }
    }
    assert score == RapidScore(users);
    if |users| >= 2 {
      var context := ScoreContext(cps, Recent(users));
      score := score + context;
    }
    assert score == RapidScore(users) + ContextScore(cps, users);
    if |users| >= 3 {
      var increasing := CheckIncreasing(users);
      if increasing && |users[|users| - 1].content| > 500 {
        score := score + 15;
      }
    }
    assert score == RapidScore(users) + ContextScore(cps, users) + EscalationScore(users);
  }

  /** Only user messages are scored: the history and its user messages
      score the same. */
  lemma HistoryUsersOnly(cps: seq<ContextPattern>, ms: seq<Message>)
    ensures HistoryScore(cps, ms) == HistoryScore(cps, UserMessages(ms))
  {
    UserMessagesIdempotent(ms);
  }

  /** Inserting an assistant or system message anywhere leaves the score
      unchanged. */
  lemma HistoryIgnoresOthers(cps: seq<ContextPattern>, a: seq<Message>, m: Message, b: seq<Message>)
    requires m.role != User
    ensures HistoryScore(cps, a + [m] + b) == HistoryScore(cps, a + b)
  {
    UserMessagesAppend(a + [m], b);
    UserMessagesAppend(a, [m]);
    UserMessagesAppend(a, b);
    assert [m][..0] == [];
  }

  /** A burst in which every timestamp is less than 10 s after the one before
      scores 10 for each consecutive pair. */
  lemma {:induction false} BurstAllRapid(st: seq<Stamp>)
    requires |st| >= 1
    requires forall i | 1 <= i < |st| :: IsRapid(st[i - 1], st[i])
    ensures RapidPairs(st) == |st| - 1
    decreases |st|
  {
    if |st| > 1 {
      var init := st[..|st| - 1];
      assert forall i | 0 <= i < |init| :: init[i] == st[i];
      BurstAllRapid(init);
      assert IsRapid(st[|st| - 2], st[|st| - 1]);
    }
  }
}
