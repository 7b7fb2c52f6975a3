/** Literals of the pattern tables that `normalizeText` makes unmatchable.
    The Persian injection patterns and the context setups are tested against
    normalized text, from which the zero-width non-joiner U+200C is removed
    and in which U+0622 (alef with madda above) is decomposed into U+0627
    U+0653.  A literal written with either character can therefore never
    match.  The corrected tables spell those literals in normalized form,
    and the corrected gate, which uses them, catches the phrases they name. */
module Findings {
  import opened Text
  import opened Regex
  import opened Normalize
  import opened Patterns

  const ZwnjChar: char := '\U{200C}'
  const AlefMaddaChar: char := '\U{0622}'

  /** Every match of `r` consumes a character equal to `x` up to case. */
  predicate Needs(r: Regex, x: char) {
    match r
    case Str(w) => x in w
    case Cat(a, b) => Needs(a, x) || Needs(b, x)
    case Alt(a, b) => Needs(a, x) && Needs(b, x)
    case _ => false
  }

  /** A concatenation needs what any of its parts needs. */
  lemma {:induction false} SeqNeeds(rs: seq<Regex>, k: int, x: char)
    requires 0 <= k < |rs| && Needs(rs[k], x)
    ensures Needs(Seq(rs), x)
    decreases |rs|
  {
    if |rs| > 1 && k > 0 {
      SeqNeeds(rs[1..], k - 1, x);
    }
  }

  /** A regex that needs `x` has no match in a text without `x`. */
  lemma {:induction false} Unmatchable(r: Regex, x: char, s: string, i: int, ic: bool)
    requires 0 <= i <= |s| && Needs(r, x)
    requires forall p | i <= p < |s| :: !SameLetter(s[p], x, ic)
    ensures Ends(r, s, i, ic) == {}
    decreases r
  {
    match r
    case Str(w) =>
      var k :| 0 <= k < |w| && w[k] == x;
      assert i + k >= |s| || !SameLetter(s[i..][k], w[k], ic);
    case Cat(a, b) =>
      if Needs(a, x) {
        Unmatchable(a, x, s, i, ic);
      } else {
        forall m | m in Ends(a, s, i, ic) ensures Ends(b, s, m, ic) == {} {
          Unmatchable(b, x, s, m, ic);
        }
      }
    case Alt(a, b) =>
      Unmatchable(a, x, s, i, ic);
      Unmatchable(b, x, s, i, ic);
    case _ =>
      assert false;
  }

  /** Normalized text holds neither character, in either case. */
  lemma NormalizedLacks(t: string, x: char, ic: bool)
    requires Normalized(t) && (x == ZwnjChar || x == AlefMaddaChar)
    ensures forall p | 0 <= p < |t| :: !SameLetter(t[p], x, ic)
  {
    forall p | 0 <= p < |t| ensures !SameLetter(t[p], x, ic) {
      assert Clean(t[p]);
    }
  }

  /** A pattern that needs U+200C or U+0622 never fires on normalized text. */
  lemma NeverOnNormalized(p: Pattern, x: char, s: string)
    requires Needs(p.re, x) && (x == ZwnjChar || x == AlefMaddaChar)
    ensures !Test(p, NormalizeText(s))
  {
    var t := NormalizeText(s);
    NormalizedOutput(s);
    NormalizedLacks(t, x, p.ignoreCase);
    forall i | 0 <= i <= |t| ensures !MatchesAt(p.re, t, i, p.ignoreCase) {
      Unmatchable(p.re, x, t, i, p.ignoreCase);
    }
  }

  /** The parts of the pattern for "start your answer with ... ", around
      the verb `begin`. */
  function BeginPhrase(begin: string): (rs: seq<Regex>)
    ensures |rs| == 3 && rs[2] == Str(" " + begin + " کنید")
  {
    [Str("جواب خود را با "), AnyText, Str(" " + begin + " کنید")]
  }

  /** Where the four literals with U+200C or U+0622 stand in the Persian
      table as written. */
  lemma AsWrittenEntries()
    ensures |PersianPatterns| == 29
    ensures PersianPatterns[12] == Lit(UpdatedInstructionAsWritten)
    ensures PersianPatterns[14] == Lit(SystemUpdateAsWritten)
    ensures PersianPatterns[20] == Phrase(BeginPhrase(BeginAsWritten))
    ensures PersianPatterns[28] == Lit(BlueBankAsWritten)
  {
  }

  /** As the source writes them, the patterns for "updated instruction",
      "system update", "start your answer with ... " and "blue bank" and the
      setup words "experiment", "educational" and "education" never match
      whatever the user writes. */
  lemma AsWrittenNeverFires(s: string)
    ensures !Test(PersianPatterns[12], NormalizeText(s))
    ensures !Test(PersianPatterns[14], NormalizeText(s))
    ensures !Test(PersianPatterns[20], NormalizeText(s))
    ensures !Test(PersianPatterns[28], NormalizeText(s))
    ensures !Test(Lit(ExperimentAsWritten), NormalizeText(s))
    ensures !Test(Lit(EducationalAsWritten), NormalizeText(s))
    ensures !Test(Lit(EducationAsWritten), NormalizeText(s))
  {
    assert Zwnj == [ZwnjChar] && AlefMadda == [AlefMaddaChar];
    var rs := BeginPhrase(BeginAsWritten);
    AsWrittenEntries();
    SeqNeeds(rs, 2, AlefMaddaChar);
    NeverOnNormalized(Lit(UpdatedInstructionAsWritten), ZwnjChar, s);
    NeverOnNormalized(Lit(SystemUpdateAsWritten), ZwnjChar, s);
    NeverOnNormalized(Phrase(rs), AlefMaddaChar, s);
    NeverOnNormalized(Lit(BlueBankAsWritten), AlefMaddaChar, s);
    NeverOnNormalized(Lit(ExperimentAsWritten), AlefMaddaChar, s);
    NeverOnNormalized(Lit(EducationalAsWritten), AlefMaddaChar, s);
    NeverOnNormalized(Lit(EducationAsWritten), AlefMaddaChar, s);
  }

  // ----- the corrected spellings -----

  /** The character passes delete U+200C. */
  lemma ZwnjPasses()
    ensures CharPasses(Zwnj) == []
  {
    var j := Zwnj;
    assert ConvertDigits(j) == j;
    assert j[1..] == [];
    assert Decompose(j) == Decomposition(j[0]) + Decompose([]);
    assert Decompose(j) == j;
    assert StripDiacritics(j) == j;
    assert LowerAll(j) == j;
    assert RemoveZeroWidth(j) == [];
  }

  /** The character passes decompose U+0622 and keep its decomposition. */
  lemma AlefMaddaPasses()
    ensures CharPasses(AlefMadda) == AlefMaddaNfd
    ensures CharPasses(AlefMaddaNfd) == AlefMaddaNfd
  {
    AlefMaddaDecomposes();
    NfdPassesFixed();
  }

  /** The digit and decomposition passes turn U+0622 into its decomposition. */
  lemma AlefMaddaDecomposes()
    ensures ConvertDigits(AlefMadda) == AlefMadda && Decompose(AlefMadda) == AlefMaddaNfd
  {
    var j := AlefMadda;
    assert ConvertDigits(j) == j;
    assert j[1..] == [];
    assert Decompose(j) == Decomposition(j[0]) + Decompose([]);
  }

  /** Every character pass leaves U+0627 U+0653 as it is. */
  lemma NfdPassesFixed()
    ensures Decompose(AlefMaddaNfd) == AlefMaddaNfd
    ensures CharPasses(AlefMaddaNfd) == AlefMaddaNfd
  {
    NfdDecomposed();
    NfdKept();
  }

  lemma NfdDecomposed()
    ensures ConvertDigits(AlefMaddaNfd) == AlefMaddaNfd
    ensures Decompose(AlefMaddaNfd) == AlefMaddaNfd
  {
    var n := AlefMaddaNfd;
    assert ConvertDigits(n) == n;
    assert !IsDecomposable(n[0]) && !IsDecomposable(n[1]);
    DecomposeNone(n);
  }

  /** The passes after decomposition keep U+0627 U+0653. */
  lemma NfdKept()
    ensures StripMarks(AlefMaddaNfd) == AlefMaddaNfd
    ensures FoldLookalikes(RemoveZeroWidth(LowerAll(AlefMaddaNfd))) == AlefMaddaNfd
  {
    var n := AlefMaddaNfd;
    assert StripMarks(n) == n;
    assert LowerAll(n) == n;
    assert RemoveZeroWidth(n) == n;
    assert FoldLookalikes(n) == n;
  }

  /** Normalization drops U+200C wherever it stands. */
  lemma ZwnjDropped(a: string, b: string)
    ensures NormalizeText(a + Zwnj + b) == NormalizeText(a + b)
  {
    CharPassesAppend(a + Zwnj, b);
    CharPassesAppend(a, Zwnj);
    CharPassesAppend(a, b);
    ZwnjPasses();
    var pa, pb := CharPasses(a), CharPasses(b);
    assert CharPasses(a + Zwnj) == pa + [];
    assert pa + [] == pa;
    assert CharPasses(a + Zwnj + b) == pa + pb;
    assert CharPasses(a + Zwnj + b) == CharPasses(a + b);
  }

  /** Normalization spells U+0622 as U+0627 U+0653 wherever it stands. */
  lemma AlefMaddaSplit(a: string, b: string)
    ensures NormalizeText(a + AlefMadda + b) == NormalizeText(a + AlefMaddaNfd + b)
  {
    CharPassesAppend(a + AlefMadda, b);
    CharPassesAppend(a, AlefMadda);
    CharPassesAppend(a + AlefMaddaNfd, b);
    CharPassesAppend(a, AlefMaddaNfd);
    AlefMaddaPasses();
    var pa, pb := CharPasses(a), CharPasses(b);
    assert CharPasses(a + AlefMadda) == pa + AlefMaddaNfd;
    assert CharPasses(a + AlefMaddaNfd) == pa + AlefMaddaNfd;
    assert CharPasses(a + AlefMadda + b) == pa + AlefMaddaNfd + pb;
    assert CharPasses(a + AlefMadda + b) == CharPasses(a + AlefMaddaNfd + b);
  }

  /** Positions i and later of `w` hold clean characters, and no white space
      follows white space there. */
  function CleanFrom(w: string, i: nat): bool
    decreases |w| - i
  {
    i >= |w| || (Clean(w[i]) && (i > 0 ==> !SpacePairAt(w, i)) && CleanFrom(w, i + 1))
  }

  lemma {:induction false} CleanFromAt(w: string, i: nat, j: nat)
    requires CleanFrom(w, i) && i <= j < |w|
    ensures Clean(w[j]) && (j > 0 ==> !SpacePairAt(w, j))
    decreases j - i
  {
    if j > i {
      CleanFromAt(w, i + 1, j);
    }
  }

  lemma CleanNormalized(w: string)
    requires CleanFrom(w, 0)
    ensures Normalized(w)
  {
    forall j | 0 <= j < |w| ensures Clean(w[j]) && (j > 0 ==> !SpacePairAt(w, j)) {
      CleanFromAt(w, 0, j);
    }
  }

  /** Two texts in normal form, not joined white space to white space, make
      one in normal form. */
  lemma NormalizedConcat(x: string, y: string)
    requires Normalized(x) && Normalized(y)
    requires x == [] || y == [] || !IsSpace(x[|x| - 1]) || !IsSpace(y[0])
    ensures Normalized(x + y)
  {
    var w := x + y;
    forall j | 0 <= j < |w| ensures Clean(w[j]) {
      if j >= |x| {
        assert w[j] == y[j - |x|];
      }
    }
    forall j | 0 < j < |w| ensures !SpacePairAt(w, j) {
      if j > |x| {
        assert !SpacePairAt(y, j - |x|);
      } else if j < |x| {
        assert !SpacePairAt(x, j);
      }
    }
  }

  /** The pieces the corrected literals are made of are in normal form. */
  lemma PiecesNormalized()
    ensures Normalized("دستورالعمل به") && Normalized("روزشده")
    ensures Normalized("به") && Normalized("روزرسانی سیستم")
    ensures Normalized(AlefMaddaNfd) && Normalized("بانک ") && Normalized("بی")
    ensures Normalized("غاز") && Normalized("زمایش") && Normalized("موزشی") && Normalized("موزش")
  {
    InstructionClean();
    UpdateClean();
    PieceRuzShodeClean();
    PieceShortClean();
    PieceBankClean();
    PieceGhazClean();
    PieceZamayeshClean();
    PieceMuzeshiClean();
    PieceMuzeshClean();
    CleanNormalized("دستورالعمل به");
    CleanNormalized("روزرسانی سیستم");
    CleanNormalized("روزشده");
    CleanNormalized("به");
    CleanNormalized(AlefMaddaNfd);
    CleanNormalized("بانک ");
    CleanNormalized("بی");
    CleanNormalized("غاز");
    CleanNormalized("زمایش");
    CleanNormalized("موزشی");
    CleanNormalized("موزش");
  }

  lemma PieceRuzShodeClean()
    ensures CleanFrom("روزشده", 0)
  {
  }

  lemma PieceShortClean()
    ensures CleanFrom("به", 0) && CleanFrom(AlefMaddaNfd, 0) && CleanFrom("بی", 0)
  {
    PieceBeClean();
    PieceNfdClean();
    PieceBiClean();
  }

  lemma PieceBeClean()
    ensures CleanFrom("به", 0)
  {
  }

  lemma PieceNfdClean()
    ensures CleanFrom(AlefMaddaNfd, 0)
  {
  }

  lemma PieceBiClean()
    ensures CleanFrom("بی", 0)
  {
  }

  lemma PieceBankClean()
    ensures CleanFrom("بانک ", 0)
  {
  }

  lemma PieceGhazClean()
    ensures CleanFrom("غاز", 0)
  {
  }

  lemma PieceZamayeshClean()
    ensures CleanFrom("زمایش", 0)
  {
  }

  lemma PieceMuzeshiClean()
    ensures CleanFrom("موزشی", 0)
  {
  }

  lemma PieceMuzeshClean()
    ensures CleanFrom("موزش", 0)
  {
  }

  lemma InstructionTailClean()
    ensures CleanFrom("دستورالعمل به", 7)
  {
  }

  lemma InstructionClean()
    ensures CleanFrom("دستورالعمل به", 0)
  {
    InstructionTailClean();
  }

  lemma UpdateTailClean()
    ensures CleanFrom("روزرسانی سیستم", 7)
  {
  }

  lemma UpdateClean()
    ensures CleanFrom("روزرسانی سیستم", 0)
  {
    UpdateTailClean();
  }

  /** The corrected literals are in normal form, so normalization leaves them
      as they are. */
  lemma CorrectedNormalized()
    ensures Normalized(UpdatedInstruction) && Normalized(SystemUpdate)
    ensures Normalized(Begin) && Normalized(BlueBank)
    ensures Normalized(Experiment) && Normalized(Educational) && Normalized(Education)
  {
    PiecesNormalized();
    NormalizedConcat("دستورالعمل به", "روزشده");
    NormalizedConcat("به", "روزرسانی سیستم");
    NormalizedConcat(AlefMaddaNfd, "غاز");
    NormalizedConcat("بانک ", AlefMaddaNfd);
    NormalizedConcat("بانک " + AlefMaddaNfd, "بی");
    NormalizedConcat(AlefMaddaNfd, "زمایش");
    NormalizedConcat(AlefMaddaNfd, "موزشی");
    NormalizedConcat(AlefMaddaNfd, "موزش");
  }

  /** What normalization makes of each literal as the source writes it is
      the corrected literal. */
  lemma CorrectedIsNormalForm()
    ensures NormalizeText(UpdatedInstructionAsWritten) == UpdatedInstruction
    ensures NormalizeText(SystemUpdateAsWritten) == SystemUpdate
    ensures NormalizeText(BeginAsWritten) == Begin
    ensures NormalizeText(BlueBankAsWritten) == BlueBank
    ensures NormalizeText(ExperimentAsWritten) == Experiment
    ensures NormalizeText(EducationalAsWritten) == Educational
    ensures NormalizeText(EducationAsWritten) == Education
  {
    CorrectedNormalized();
    ZwnjDropped("دستورالعمل به", "روزشده");
    ZwnjDropped("به", "روزرسانی سیستم");
    AlefMaddaSplit([], "غاز");
    AlefMaddaSplit("بانک ", "بی");
    AlefMaddaSplit([], "زمایش");
    AlefMaddaSplit([], "موزشی");
    AlefMaddaSplit([], "موزش");
    assert [] + AlefMadda == AlefMadda && [] + AlefMaddaNfd == AlefMaddaNfd;
    NormalizedFixed(UpdatedInstruction);
    NormalizedFixed(SystemUpdate);
    NormalizedFixed(Begin);
    NormalizedFixed(BlueBank);
    NormalizedFixed(Experiment);
    NormalizedFixed(Educational);
    NormalizedFixed(Education);
  }

  /** With the literals in normalized form, each pattern fires on the phrase
      it names, written as the source writes it. */
  lemma CorrectedFires()
    ensures |PersianPatternsCorrected| == 29 && |CorrectedContextPatterns| == 2
    ensures Test(PersianPatternsCorrected[12], NormalizeText(UpdatedInstructionAsWritten))
    ensures Test(PersianPatternsCorrected[14], NormalizeText(SystemUpdateAsWritten))
    ensures Test(PersianPatternsCorrected[28], NormalizeText(BlueBankAsWritten))
    ensures Test(CorrectedContextPatterns[0].setup, NormalizeText(ExperimentAsWritten))
    ensures Test(CorrectedContextPatterns[1].setup, NormalizeText(EducationalAsWritten))
    ensures Test(CorrectedContextPatterns[1].setup, NormalizeText(EducationAsWritten))
  {
    CorrectedEntries();
    CorrectedIsNormalForm();
    CorrectedInjectionFires();
    CorrectedSetupFires();
  }

  lemma CorrectedInjectionFires()
    ensures Test(PersianPatternsCorrected[12], UpdatedInstruction)
    ensures Test(PersianPatternsCorrected[14], SystemUpdate)
    ensures Test(PersianPatternsCorrected[28], BlueBank)
  {
    CorrectedEntries();
    LiteralFires(UpdatedInstruction);
    LiteralFires(SystemUpdate);
    LiteralFires(BlueBank);
  }

  lemma CorrectedSetupFires()
    ensures Test(CorrectedContextPatterns[0].setup, Experiment)
    ensures Test(CorrectedContextPatterns[1].setup, Educational)
    ensures Test(CorrectedContextPatterns[1].setup, Education)
  {
    CorrectedEntries();
    SetupFires(["تست", Experiment, "بازی", "فرض کنید", "تصور کنید", "بازی نقش"], 1);
    SetupFires([Educational, Education, "مقاله", "دانشگاهی", "تحقیق", "پژوهش"], 0);
    SetupFires([Educational, Education, "مقاله", "دانشگاهی", "تحقیق", "پژوهش"], 1);
  }

  /** Where the corrected literals stand in the tables. */
  lemma CorrectedEntries()
    ensures |PersianPatternsCorrected| == 29 && |CorrectedContextPatterns| == 2
    ensures PersianPatternsCorrected[12] == Lit(UpdatedInstruction)
    ensures PersianPatternsCorrected[14] == Lit(SystemUpdate)
    ensures PersianPatternsCorrected[28] == Lit(BlueBank)
    ensures CorrectedContextPatterns[0].setup
      == Pattern(AnyOf(["تست", Experiment, "بازی", "فرض کنید", "تصور کنید", "بازی نقش"]), true)
    ensures CorrectedContextPatterns[1].setup
      == Pattern(AnyOf([Educational, Education, "مقاله", "دانشگاهی", "تحقیق", "پژوهش"]), true)
  {
  }

  /** A literal pattern fires on its own text. */
  lemma LiteralFires(w: string)
    ensures Test(Lit(w), w)
  {
    assert w[0..] == w;
    StrMatch(w, w, 0, true);
  }

  /** An alternation fires on each of its own words. */
  lemma SetupFires(ws: seq<string>, k: int)
    requires 0 <= k < |ws|
    ensures Test(Pattern(AnyOf(ws), true), ws[k])
  {
    assert ws[k][0..] == ws[k];
    AnyOfTest(ws, ws[k], true, k, 0);
  }
}
