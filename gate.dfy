/** `securityCheck`: the verdict on a conversation.  Checks run in a fixed
    order and the first that fires decides the verdict; a conversation that
    passes all of them is judged by the sum of the content and history
    scores. */
module Gate {
  import opened Text
  import opened Regex
  import opened Normalize
  import opened Patterns
  import opened Messages
  import opened Language
  import opened Scoring

  /** `SecurityCheckResult`; the gate always sets `riskScore`. */
  datatype Verdict = Verdict(isSecure: bool, reason: Option<string>, riskScore: real)

  const InvalidFormat: string := "Invalid message format"
  const TooLong: string := "Message exceeds maximum allowed length"
  const NonPersian: string := "Non-Persian language content detected"
  const FilterBypass: string := "Potential filter bypass attempt detected"
  const Injection: string := "Potential prompt injection attempt detected"
  const Sensitive: string := "Potential sensitive information in message"
  const HighRisk: string := "High-risk content pattern detected"
  const MediumRisk: string := "Medium-risk content detected"
  const CheckFailed: string := "Security check failed"

  /** The longest latest user message the gate accepts. */
  const MaxLength: int := 4000

  function Reject(reason: string, score: real): Verdict {
    Verdict(false, Some(reason), score)
  }

  /** The verdict of the `catch` block. */
  const Failed: Verdict := Reject(CheckFailed, 100.0)

  /** The threshold bands on the total score. */
  function Bands(total: real): (v: Verdict)
    ensures v.riskScore == total
    ensures !v.isSecure <==> total > 50.0
    ensures v.reason == Some(HighRisk) <==> total > 50.0
    ensures v.reason == Some(MediumRisk) <==> 30.0 < total <= 50.0
    ensures v.reason.None? <==> total <= 30.0
  {
    if total > 50.0 then Reject(HighRisk, total)
    else if total > 30.0 then Verdict(true, Some(MediumRisk), total)
    else Verdict(true, None, total)
  }

  /** The checks on the latest user message `content`, in order, then the
      bands; `ms` is the whole validated history and `t` the pattern tables. */
  function Judge(t: Tables, content: string, ms: seq<Message>): Verdict {
    if |content| > MaxLength then Reject(TooLong, 80.0)
    else if ContainsNonPersianLanguage(content) then Reject(NonPersian, 75.0)
    else if DetectTokenSplitting(content) then Reject(FilterBypass, 85.0)
    else if AnyTest(t.injection, NormalizeText(content)) then Reject(Injection, 90.0)
    else if AnyTest(SensitivePatterns, content) then Reject(Sensitive, 70.0)
    else Bands(ContentScore(content) + HistoryScore(t.context, ms) as real)
  }

  /** `securityCheck(messages)` run with the pattern tables `t`. */
  function GateVerdict(t: Tables, raw: seq<RawMessage>): Verdict {
    match Validate(raw)
    case None => Reject(InvalidFormat, 100.0)
    case Some(ms) =>
      match LatestUser(ms)
      case None => Verdict(true, None, 0.0)
      case Some(latest) => Judge(t, latest.content, ms)
  }

  /** `securityCheck(messages)`, with the tables as the source writes them. */
  function SecurityVerdict(raw: seq<RawMessage>): Verdict {
    GateVerdict(SourceTables, raw)
  }

  /** The gate with the normalized spellings of the Findings section. */
  function CorrectedSecurityVerdict(raw: seq<RawMessage>): Verdict {
    GateVerdict(CorrectedTables, raw)
  }

  /** `patterns.some((p) => p.test(s))`, the gate's scan with an early
      return at the first pattern that fires. */
  method FirstMatch(ps: seq<Pattern>, s: string) returns (hit: bool)
    ensures hit <==> AnyTest(ps, s)
  {
    hit := SomePasses(ps, p => Test(p, s));
  }

  /** `securityCheck(messages)`, step by step, with the source's tables. */
  method SecurityCheck(raw: seq<RawMessage>) returns (v: Verdict)
    ensures v == SecurityVerdict(raw)
  {
    var validated := Validate(raw);
    if validated.None? {
      return Reject(InvalidFormat, 100.0);
    }
    var ms := validated.value;
    var latest := LatestUser(ms);
    if latest.None? {
      return Verdict(true, None, 0.0);
    }
    v := CheckLatest(SourceTables, latest.value.content, ms);
  }

  /** The body of `securityCheck` after the latest user message is found:
      the checks in order, each returning at once when it fires. */
  method CheckLatest(t: Tables, content: string, ms: seq<Message>) returns (v: Verdict)
    ensures v == Judge(t, content, ms)
  {
    var normalized := NormalizeText(content);
    if |content| > MaxLength {
      return Reject(TooLong, 80.0);
    }
    if ContainsNonPersianLanguage(content) {
      return Reject(NonPersian, 75.0);
    }
    if DetectTokenSplitting(content) {
      return Reject(FilterBypass, 85.0);
    }
    var injection := FirstMatch(t.injection, normalized);
    if injection {
      return Reject(Injection, 90.0);
    }
    var sensitive := FirstMatch(SensitivePatterns, content);
    if sensitive {
      return Reject(Sensitive, 70.0);
    }
    var contentScore := ClassifyContent(content);
    var historyScore := AnalyzeMessageHistory(t.context, ms);
    v := Bands(contentScore + historyScore as real);
  }

  // ----- properties of the verdict -----

  /** `isSecure` is true exactly when the score is at most 50, and the score
      is never negative. */
  predicate Consistent(v: Verdict) {
    0.0 <= v.riskScore && (v.isSecure <==> v.riskScore <= 50.0)
  }

  /** Every return path, the `catch` block included, gives a consistent
      verdict, and a rejection always says why. */
  lemma VerdictConsistent(t: Tables, raw: seq<RawMessage>)
    ensures Consistent(GateVerdict(t, raw)) && Consistent(Failed)
    ensures !GateVerdict(t, raw).isSecure ==> GateVerdict(t, raw).reason.Some?
  {
    match Validate(raw)
    case None =>
    case Some(ms) =>
      match LatestUser(ms)
      case None =>
      case Some(latest) =>
        JudgeConsistent(t, latest.content, ms);
  }

  lemma JudgeConsistent(t: Tables, c: string, ms: seq<Message>)
    ensures Consistent(Judge(t, c, ms))
    ensures !Judge(t, c, ms).isSecure ==> Judge(t, c, ms).reason.Some?
    ensures Judge(t, c, ms).reason != Some(InvalidFormat)
  {
    if |c| > MaxLength {
    } else if ContainsNonPersianLanguage(c) {
    } else if DetectTokenSplitting(c) {
    } else if AnyTest(t.injection, NormalizeText(c)) {
    } else if AnyTest(SensitivePatterns, c) {
    } else {
      var total := ContentScore(c) + HistoryScore(t.context, ms) as real;
      assert 0.0 <= total;
    }
  }

  /** `raw` is valid, `ms` is what validation admits, and `c` is the
      content of its latest user message. */
  predicate LatestIs(raw: seq<RawMessage>, ms: seq<Message>, c: string) {
    Validate(raw) == Some(ms) && LatestUser(ms).Some? && LatestUser(ms).value.content == c
  }

  /** An invalid conversation, and only an invalid one, is rejected as
      malformed; a valid one without user messages is let through with
      score 0. */
  lemma ValidationFirst(t: Tables, raw: seq<RawMessage>)
    ensures GateVerdict(t, raw).reason == Some(InvalidFormat) <==> Validate(raw).None?
    ensures Validate(raw).None? ==> GateVerdict(t, raw).riskScore == 100.0
    ensures Validate(raw).Some? && UserMessages(Validate(raw).value) == [] ==>
      GateVerdict(t, raw) == Verdict(true, None, 0.0)
  {
    match Validate(raw)
    case None =>
    case Some(ms) =>
      LatestIsLastUser(ms);
      match LatestUser(ms)
      case None =>
      case Some(latest) =>
        JudgeConsistent(t, latest.content, ms);
  }

  /** The checks on the latest user message run in a fixed order and the
      first that fires decides: each reason is given exactly when its check
      fires and every check before it passed, with its fixed score. */
  lemma FirstHitDecides(t: Tables, raw: seq<RawMessage>, ms: seq<Message>, c: string)
    requires LatestIs(raw, ms, c)
    ensures var v := GateVerdict(t, raw);
      (v.reason == Some(TooLong) <==> |c| > MaxLength)
      && (v.reason == Some(NonPersian) <==> |c| <= MaxLength && ContainsNonPersianLanguage(c))
      && (v.reason == Some(FilterBypass) <==>
            |c| <= MaxLength && !ContainsNonPersianLanguage(c) && DetectTokenSplitting(c))
      && (v.reason == Some(Injection) <==>
            |c| <= MaxLength && !ContainsNonPersianLanguage(c) && !DetectTokenSplitting(c)
            && AnyTest(t.injection, NormalizeText(c)))
      && (v.reason == Some(Sensitive) <==>
            |c| <= MaxLength && !ContainsNonPersianLanguage(c) && !DetectTokenSplitting(c)
            && !AnyTest(t.injection, NormalizeText(c)) && AnyTest(SensitivePatterns, c))
    ensures var v := GateVerdict(t, raw);
      (v.reason == Some(TooLong) ==> v.riskScore == 80.0)
      && (v.reason == Some(NonPersian) ==> v.riskScore == 75.0)
      && (v.reason == Some(FilterBypass) ==> v.riskScore == 85.0)
      && (v.reason == Some(Injection) ==> v.riskScore == 90.0)
      && (v.reason == Some(Sensitive) ==> v.riskScore == 70.0)
  {
  }

  /** A message the gate lets through passed every check, and its total score
      is at most 50; the reason then tells the medium band from the low. */
  lemma SecureMeansPassed(t: Tables, raw: seq<RawMessage>, ms: seq<Message>, c: string)
    requires LatestIs(raw, ms, c)
    ensures var v := GateVerdict(t, raw);
      v.isSecure <==>
        |c| <= MaxLength && !ContainsNonPersianLanguage(c) && !DetectTokenSplitting(c)
        && !AnyTest(t.injection, NormalizeText(c)) && !AnyTest(SensitivePatterns, c)
        && ContentScore(c) + HistoryScore(t.context, ms) as real <= 50.0
    ensures var v := GateVerdict(t, raw);
      v.isSecure ==>
        v.riskScore == ContentScore(c) + HistoryScore(t.context, ms) as real
        && (v.reason == Some(MediumRisk) <==> v.riskScore > 30.0)
  {
  }
}
