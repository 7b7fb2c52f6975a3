/** Inputs on which the gate with the tables as written and the gate with
    the corrected tables give different verdicts. */
module Disagree {
  import opened Text
  import opened Regex
  import opened Normalize
  import opened Patterns
  import opened Messages
  import opened Language
  import opened Scoring
  import opened Gate
  import opened Witness
  import opened Findings

  /** A text without Latin letters has a Latin count of zero. */
  lemma {:induction false} NoLatin(s: string)
    requires forall k | 0 <= k < |s| :: !IsLatin(s[k])
    ensures LatinCount(s) == 0
    decreases |s|
  {
    if s != [] {
      NoLatin(s[..|s| - 1]);
    }
  }

  /** A single message in the history scores nothing. */
  lemma LoneMessage(cps: seq<ContextPattern>, m: Message)
    requires m.role == User
    ensures HistoryScore(cps, [m]) == 0
  {
    assert [m][..0] == [];
    assert UserMessages([m]) == [m];
  }

  /** Every check before the injection scan passes on "بانک آبی" as written,
      and so do the scans after it. */
  lemma BankPassesOtherChecks()
    ensures |BlueBankAsWritten| <= MaxLength
    ensures !ContainsNonPersianLanguage(BlueBankAsWritten)
    ensures !DetectTokenSplitting(BlueBankAsWritten)
    ensures !AnyTest(SensitivePatterns, BlueBankAsWritten)
    ensures ContentScore(BlueBankAsWritten) == 0.0
  {
    BankWritten();
    assert forall c | c in RawBankChars :: !IsLatin(c);
    NoLatin(BlueBankAsWritten);
    SplitQuiet();
    SensitiveQuiet();
    CorrectedIsNormalForm();
    DirectAttackQuiet();
    CommandQuiet();
    PersonaQuiet();
    LanguageQuiet();
  }

  /** No entry of the injection table as written fires on the normalized text. */
  lemma BankEscapesInjection()
    ensures !AnyTest(InjectionPatterns, NormalizeText(BlueBankAsWritten))
  {
    CorrectedIsNormalForm();
    BaseQuiet();
    PersianQuiet();
    HomoglyphQuiet();
    AnyTestAppend(BasePatterns, PersianPatterns, BlueBank);
    AnyTestAppend(BasePatterns + PersianPatterns, NormalizedPatterns, BlueBank);
  }

  /** A pattern of the middle part of a three-part list makes the scan of
      the whole list fire. */
  lemma FiresInMiddle(t: seq<Pattern>, a: seq<Pattern>, b: seq<Pattern>, c: seq<Pattern>, k: int, s: string)
    requires t == a + b + c
    requires 0 <= k < |b| && Test(b[k], s)
    ensures AnyTest(t, s)
  {
    assert t[|a| + k] == b[k];
  }

  /** The corrected injection table catches the normalized text. */
  lemma BankCaughtByCorrected()
    ensures AnyTest(CorrectedInjectionPatterns, BlueBank)
  {
    CorrectedBankFires();
    FiresInMiddle(CorrectedInjectionPatterns, BasePatterns, PersianPatternsCorrected, NormalizedPatterns, 28, BlueBank);
  }

  lemma CorrectedBankFires()
    ensures |PersianPatternsCorrected| == 29
    ensures Test(PersianPatternsCorrected[28], BlueBank)
  {
    CorrectedInjectionFires();
    CorrectedEntries();
  }

  /** The message "بانک آبی" from the user, with no id and no time stamp. */
  const BankMessage: RawMessage := RawMessage(Some("user"), ContentText(BlueBankAsWritten), NoId, NoStamp)

  lemma BankMessageAdmitted()
    ensures Validate([BankMessage]) == Some([Message(User, BlueBankAsWritten, Absent)])
    ensures LatestUser([Message(User, BlueBankAsWritten, Absent)]) == Some(Message(User, BlueBankAsWritten, Absent))
  {
    var m := Message(User, BlueBankAsWritten, Absent);
    var r := Validate([BankMessage]);
    assert ParseMessage([BankMessage][0]) == Some(m);
    assert r.value[0] == m;
    assert r.value == [m];
  }

  /** On a history that is one user message, the gate judges that message. */
  lemma GateOnLone(t: Tables, raw: seq<RawMessage>, m: Message)
    requires Validate(raw) == Some([m]) && m.role == User
    ensures GateVerdict(t, raw) == Judge(t, m.content, [m])
  {
    assert [m][..0] == [];
  }

  /** The checks of the gate as written, on the lone message "بانک آبی". */
  lemma AsWrittenJudgesBank()
    ensures Judge(SourceTables, BlueBankAsWritten, [Message(User, BlueBankAsWritten, Absent)])
      == Verdict(true, None, 0.0)
  {
    BankPassesOtherChecks();
    BankEscapesInjection();
    LoneMessage(ContextPatterns, Message(User, BlueBankAsWritten, Absent));
  }

  /** The checks of the corrected gate, on the same message. */
  lemma CorrectedJudgesBank()
    ensures Judge(CorrectedTables, BlueBankAsWritten, [Message(User, BlueBankAsWritten, Absent)])
      == Reject(Injection, 90.0)
  {
    BankPassesOtherChecks();
    CorrectedIsNormalForm();
    BankCaughtByCorrected();
  }

  /** The gate as written lets "بانک آبی" through with a score of 0; the
      corrected gate rejects it as a prompt injection. */
  lemma GatesDisagree()
    ensures SecurityVerdict([BankMessage]) == Verdict(true, None, 0.0)
    ensures CorrectedSecurityVerdict([BankMessage]) == Reject(Injection, 90.0)
  {
    var m := Message(User, BlueBankAsWritten, Absent);
    BankMessageAdmitted();
    GateOnLone(SourceTables, [BankMessage], m);
    GateOnLone(CorrectedTables, [BankMessage], m);
    AsWrittenJudgesBank();
    CorrectedJudgesBank();
  }

  // ----- the history analysis -----

  /** The characters of "آموزش" after normalization. */
  const EducationChars: set<char> := {'\U{0627}', '\U{0653}', 'م', 'و', 'ز', 'ش'}

  lemma EducationWritten()
    ensures WrittenWith(Education, EducationChars)
  {
  }

  /** The first setup as written does not fire on the normalized "آموزش". */
  lemma AsWrittenSetup0Quiet()
    ensures !Test(ContextPatterns[0].setup, Education)
  {
    var ws := ["تست", ExperimentAsWritten, "بازی", "فرض کنید", "تصور کنید", "بازی نقش"];
    assert Escapes(ws[0], EducationChars) by { assert Outside(ws[0][0], EducationChars); }
    assert Escapes(ws[1], EducationChars) by { assert Outside(ws[1][0], EducationChars); }
    assert Escapes(ws[2], EducationChars) by { assert Outside(ws[2][0], EducationChars); }
    assert Escapes(ws[3], EducationChars) by { assert Outside(ws[3][0], EducationChars); }
    assert Escapes(ws[4], EducationChars) by { assert Outside(ws[4][0], EducationChars); }
    assert Escapes(ws[5], EducationChars) by { assert Outside(ws[5][0], EducationChars); }
    AnyOfBlocked(ws, EducationChars, true);
    EducationWritten();
    NeverFires(Pattern(AnyOf(ws), true), EducationChars, Education);
  }

  /** Nor does the second, whose two words for education keep U+0622. */
  lemma AsWrittenSetup1Quiet()
    ensures !Test(ContextPatterns[1].setup, Education)
  {
    var ws := [EducationalAsWritten, EducationAsWritten, "مقاله", "دانشگاهی", "تحقیق", "پژوهش"];
    assert Escapes(ws[0], EducationChars) by { assert Outside(ws[0][0], EducationChars); }
    assert Escapes(ws[1], EducationChars) by { assert Outside(ws[1][0], EducationChars); }
    assert Escapes(ws[2], EducationChars) by { assert Outside(ws[2][1], EducationChars); }
    assert Escapes(ws[3], EducationChars) by { assert Outside(ws[3][0], EducationChars); }
    assert Escapes(ws[4], EducationChars) by { assert Outside(ws[4][0], EducationChars); }
    assert Escapes(ws[5], EducationChars) by { assert Outside(ws[5][0], EducationChars); }
    AnyOfBlocked(ws, EducationChars, true);
    EducationWritten();
    NeverFires(Pattern(AnyOf(ws), true), EducationChars, Education);
  }

  /** The corrected first setup does not fire either: "آزمایش" is not "آموزش". */
  lemma CorrectedSetup0Quiet()
    ensures !Test(CorrectedContextPatterns[0].setup, Education)
  {
    var ws := ["تست", Experiment, "بازی", "فرض کنید", "تصور کنید", "بازی نقش"];
    assert Escapes(ws[0], EducationChars) by { assert Outside(ws[0][0], EducationChars); }
    assert Escapes(ws[1], EducationChars) by { assert Outside(ws[1][5], EducationChars); }
    assert Escapes(ws[2], EducationChars) by { assert Outside(ws[2][0], EducationChars); }
    assert Escapes(ws[3], EducationChars) by { assert Outside(ws[3][0], EducationChars); }
    assert Escapes(ws[4], EducationChars) by { assert Outside(ws[4][0], EducationChars); }
    assert Escapes(ws[5], EducationChars) by { assert Outside(ws[5][0], EducationChars); }
    AnyOfBlocked(ws, EducationChars, true);
    EducationWritten();
    NeverFires(Pattern(AnyOf(ws), true), EducationChars, Education);
  }

  /** "مثال" (example) is in normal form and the second attack fires on it. */
  lemma ExampleAttack()
    ensures NormalizeText("مثال") == "مثال"
    ensures Test(ContextPatterns[1].attack, "مثال")
    ensures CorrectedContextPatterns[1].attack == ContextPatterns[1].attack
  {
    ExampleNormal();
    ExampleEntries();
    SetupFires(["مثال", "نمونه", "example", "sample", "انگلیسی", "english"], 0);
  }

  lemma ExampleNormal()
    ensures NormalizeText("مثال") == "مثال"
  {
    assert CleanFrom("مثال", 0);
    CleanNormalized("مثال");
    NormalizedFixed("مثال");
  }

  /** The second context pattern's attack, as written and corrected. */
  lemma ExampleEntries()
    ensures ContextPatterns[1].attack
      == Pattern(AnyOf(["مثال", "نمونه", "example", "sample", "انگلیسی", "english"]), true)
    ensures CorrectedContextPatterns[1].attack == ContextPatterns[1].attack
  {
  }

  /** A user says "آموزش" (education), then "مثال" (example). */
  const EducationHistory: seq<Message> :=
    [Message(User, EducationAsWritten, Absent), Message(User, "مثال", Absent)]

  /** Two user messages: the score is the context score of the pair. */
  lemma PairScore(cps: seq<ContextPattern>, a: Message, b: Message)
    requires a.role == User && b.role == User && a.stamp == Absent && b.stamp == Absent
    ensures HistoryScore(cps, [a, b]) == 40 * ContextHits(cps, [a, b])
  {
    var users := [a, b];
    PairUsers(a, b);
    assert RapidScore(users) == 0 && EscalationScore(users) == 0;
    assert Recent(users) == users;
  }

  /** Two user messages are their own user messages. */
  lemma PairUsers(a: Message, b: Message)
    requires a.role == User && b.role == User
    ensures UserMessages([a, b]) == [a, b]
  {
    UserMessagesAppend([a], [b]);
    UserMessagesSingle(a);
    UserMessagesSingle(b);
    assert [a] + [b] == [a, b];
  }

  /** Whether a context pattern fires on the pair: its setup on the
      normalized first message, its attack on the normalized second. */
  lemma PairHit(cp: ContextPattern, a: Message, b: Message)
    ensures ContextHit(cp, [a, b]) <==>
      Test(cp.setup, NormalizeText(a.content)) && Test(cp.attack, NormalizeText(b.content))
  {
    var r := [a, b];
    assert r[..|r| - 1] == [a];
    assert r[|r| - 1] == b;
    assert HasSetup(cp.setup, [a]) <==> Test(cp.setup, NormalizeText(a.content)) by {
      assert [a][0] == a;
    }
  }

  /** Two context patterns: the hits are the sum of the two. */
  lemma TwoHits(cps: seq<ContextPattern>, recent: seq<Message>)
    requires |cps| == 2 && |recent| >= 1
    ensures ContextHits(cps, recent) ==
      (if ContextHit(cps[0], recent) then 1 else 0) + (if ContextHit(cps[1], recent) then 1 else 0)
  {
    var front := cps[..1];
    assert front[..0] == [] && front[0] == cps[0];
    assert ContextHits(front, recent) == (if ContextHit(cps[0], recent) then 1 else 0);
    assert cps[..|cps| - 1] == front;
  }

  lemma AsWrittenHistory()
    ensures HistoryScore(ContextPatterns, EducationHistory) == 0
  {
    var a, b := EducationHistory[0], EducationHistory[1];
    PairScore(ContextPatterns, a, b);
    CorrectedIsNormalForm();
    AsWrittenSetup0Quiet();
    AsWrittenSetup1Quiet();
    PairHit(ContextPatterns[0], a, b);
    PairHit(ContextPatterns[1], a, b);
    TwoHits(ContextPatterns, [a, b]);
  }

  lemma CorrectedHistory()
    ensures HistoryScore(CorrectedContextPatterns, EducationHistory) == 40
  {
    var a, b := EducationHistory[0], EducationHistory[1];
    PairScore(CorrectedContextPatterns, a, b);
    CorrectedIsNormalForm();
    CorrectedSetupFires();
    CorrectedSetup0Quiet();
    ExampleAttack();
    PairHit(CorrectedContextPatterns[0], a, b);
    PairHit(CorrectedContextPatterns[1], a, b);
    TwoHits(CorrectedContextPatterns, [a, b]);
  }

  /** The history analysis as written scores "آموزش" then "مثال" at 0; with
      the corrected setups the educational context is seen and scores 40. */
  lemma HistoriesDisagree()
    ensures HistoryScore(ContextPatterns, EducationHistory) == 0
    ensures HistoryScore(CorrectedContextPatterns, EducationHistory) == 40
  {
    AsWrittenHistory();
    CorrectedHistory();
  }
}
