/** The pattern tables and keyword lists of the security gate
    (lib/ai/layers/security.ts), written as data in the regex fragment of
    module Regex.  `/.../i` becomes `ignoreCase == true`. */
module Patterns {
  import opened Regex

  /** `/w/i` */
  function Lit(w: string): Pattern {
    Pattern(Str(w), true)
  }

  /** `/r1 r2 .../i` */
  function Phrase(rs: seq<Regex>): Pattern {
    Pattern(Seq(rs), true)
  }

  /** `.*` */
  const AnyText: Regex := Star(Dot)

  /** `\d` */
  const Digit: Regex := Cls(Items([Digits]))

  const ULookalikeClass: string :=
    "ùúûüũūŭůűųưǔǖǘǚǜȕȗṳṵṷṹṻụủứừửữựυὐὑὒὓὔὕὖὗὺύῠῡῢΰῦῧ"

  // ----- injection patterns, tested against normalized text -----

  /** The English injection patterns. */
  const BasePatterns: seq<Pattern> := [
    Phrase([Str("ignore "), AnyOf(["previous", "all", "initial", "original"]), Str(" instructions")]),
    Phrase([Str("disregard "), AnyOf(["the system", "your", "previous", "all"]), Str(" "),
            AnyOf(["prompt", "instructions"])]),
    Phrase([Str("forget "), AnyOf(["your", "all"]), Str(" "),
            AnyOf(["previous", "initial", "original"]), Str(" instructions")]),
    Phrase([Str("you are not an "), AnyOf(["ai", "assistant"])]),
    Lit("pretend to be"),
    Lit("act as if"),
    Lit("you are now"),
    Lit("from now on you"),
    Lit("your new role is"),
    Lit("system prompt"),
    Lit("system message"),
    Lit("new instruction"),
    Lit("updated instruction"),
    Lit("system directive"),
    Lit("system update"),
    Lit("respond in english"),
    Lit("answer in english"),
    Lit("switch to english"),
    Lit("bilingual mode"),
    Lit("start your response with"),
    Lit("begin your answer with"),
    Lit("end your response with"),
    Lit("format your response as"),
    Pattern(Str("```"), false),
    Pattern(Seq([Str("\\["), AnyText, Str("\\]")]), false)
  ]

  /** The Persian injection patterns as the source writes them.  Four of
      them are written with characters (the joiner U+200C, and U+0622, which
      NFD splits into U+0627 U+0653) that normalization removes from the text
      they are tested against; `PersianPatternsCorrected` spells those four
      in normalized form. */
  const PersianPatterns: seq<Pattern> := [
    Phrase([Str("دستورالعمل "), AnyOf(["قبلی", "همه", "اولیه", "اصلی"]), Str(" را نادیده بگیرید")]),
    Phrase([Str("سیستم "), AnyOf(["پرامپت", "دستورالعمل"]), Str(" را نادیده بگیرید")]),
    Phrase([Str("دستورالعمل "), AnyOf(["قبلی", "همه", "اولیه", "اصلی"]), Str(" را فراموش کنید")]),
    Phrase([Str("شما یک "), AnyOf(["هوش مصنوعی", "دستیار"]), Str(" نیستید")]),
    Lit("وانمود کنید"),
    Lit("طوری رفتار کنید"),
    Lit("شما اکنون"),
    Lit("از این به بعد شما"),
    Lit("نقش جدید شما"),
    Lit("پرامپت سیستم"),
    Lit("پیام سیستم"),
    Lit("دستورالعمل جدید"),
    Lit(UpdatedInstructionAsWritten),
    Lit("دستور سیستم"),
    Lit(SystemUpdateAsWritten),
    Lit("به انگلیسی پاسخ دهید"),
    Lit("به انگلیسی جواب دهید"),
    Lit("به انگلیسی تغییر دهید"),
    Lit("حالت دوزبانه"),
    Phrase([Str("پاسخ خود را با "), AnyText, Str(" شروع کنید")]),
    Phrase([Str("جواب خود را با "), AnyText, Str(" " + BeginAsWritten + " کنید")]),
    Phrase([Str("پاسخ خود را با "), AnyText, Str(" به پایان برسانید")]),
    Phrase([Str("پاسخ خود را به صورت "), AnyText, Str(" فرمت کنید")]),
    Lit("مهندس سیستم بلوبانک"),
    Lit("کارمند بلوبانک"),
    Lit("مدیر بلوبانک"),
    Lit("تست امنیتی"),
    Lit("blue bank"),
    Lit(BlueBankAsWritten)
  ]

  /** U+200C ZERO WIDTH NON-JOINER, which normalization removes. */
  const Zwnj: string := "\U{200C}"

  /** U+0622 ARABIC LETTER ALEF WITH MADDA ABOVE, and U+0627 U+0653, its
      canonical decomposition. */
  const AlefMadda: string := "\U{0622}"
  const AlefMaddaNfd: string := "\U{0627}\U{0653}"

  /** The four literals that contain U+200C or U+0622, as the source writes
      them and in normalized form. */
  const UpdatedInstructionAsWritten: string := "دستورالعمل به" + Zwnj + "روزشده"
  const UpdatedInstruction: string := "دستورالعمل به" + "روزشده"
  const SystemUpdateAsWritten: string := "به" + Zwnj + "روزرسانی سیستم"
  const SystemUpdate: string := "به" + "روزرسانی سیستم"
  const BeginAsWritten: string := AlefMadda + "غاز"
  const Begin: string := AlefMaddaNfd + "غاز"
  const BlueBankAsWritten: string := "بانک " + AlefMadda + "بی"
  const BlueBank: string := "بانک " + AlefMaddaNfd + "بی"

  /** The Persian table with the four literals in normalized form. */
  const PersianPatternsCorrected: seq<Pattern> :=
    PersianPatterns[12 := Lit(UpdatedInstruction)]
                   [14 := Lit(SystemUpdate)]
                   [20 := Phrase([Str("جواب خود را با "), AnyText, Str(" " + Begin + " کنید")])]
                   [28 := Lit(BlueBank)]

  /** Homoglyph spellings of "blue" and "english". */
  const NormalizedPatterns: seq<Pattern> := [
    Phrase([Str("b"), Star(Chars("ḷḹḻḽƚɫⱡꝉꞁｂ")), Str("l"), Star(Chars("ḷḹḻḽƚɫⱡꝉꞁ")),
            Str("u"), Star(Chars(ULookalikeClass)), Str("e")]),
    Phrase([OneOf("еёэ"), OneOf("нп"), OneOf("гґ"), OneOf("лп"), OneOf("ийі"), OneOf("шщ"), OneOf("ьъ")]),
    Phrase([OneOf("αа"), OneOf("пр"), OneOf("гґ"), OneOf("лп"), OneOf("ийі"), OneOf("шщ"), OneOf("ьъ")])
  ]

  /** `allPatterns`, in the order the gate tries them. */
  const InjectionPatterns: seq<Pattern> := BasePatterns + PersianPatterns + NormalizedPatterns

  /** `allPatterns` with the corrected Persian table. */
  const CorrectedInjectionPatterns: seq<Pattern> :=
    BasePatterns + PersianPatternsCorrected + NormalizedPatterns

  // ----- multi-message patterns -----

  /** A setup expected in an earlier message and an attack in the latest. */
  datatype ContextPattern = ContextPattern(setup: Pattern, attack: Pattern)

  /** `contextPatterns` as the source writes them: three setup words contain
      U+0622, so they cannot match the normalized text they are tested
      against. */
  const ContextPatterns: seq<ContextPattern> := [
    ContextPattern(
      Pattern(AnyOf(["تست", ExperimentAsWritten, "بازی", "فرض کنید", "تصور کنید", "بازی نقش"]), true),
      Pattern(AnyOf(["انگلیسی", "english", "دوزبانه", "bilingual"]), true)),
    ContextPattern(
      Pattern(AnyOf([EducationalAsWritten, EducationAsWritten, "مقاله", "دانشگاهی", "تحقیق", "پژوهش"]), true),
      Pattern(AnyOf(["مثال", "نمونه", "example", "sample", "انگلیسی", "english"]), true))
  ]

  /** The context patterns with the three setup words in normalized form. */
  const CorrectedContextPatterns: seq<ContextPattern> := [
    ContextPattern(
      Pattern(AnyOf(["تست", Experiment, "بازی", "فرض کنید", "تصور کنید", "بازی نقش"]), true),
      ContextPatterns[0].attack),
    ContextPattern(
      Pattern(AnyOf([Educational, Education, "مقاله", "دانشگاهی", "تحقیق", "پژوهش"]), true),
      ContextPatterns[1].attack)
  ]

  /** The three setup words that contain U+0622, in normalized form and as
      the source writes them. */
  const Experiment: string := AlefMaddaNfd + "زمایش"
  const Educational: string := AlefMaddaNfd + "موزشی"
  const Education: string := AlefMaddaNfd + "موزش"

  const ExperimentAsWritten: string := AlefMadda + "زمایش"
  const EducationalAsWritten: string := AlefMadda + "موزشی"
  const EducationAsWritten: string := AlefMadda + "موزش"

  /** The tables the gate consults: the injection patterns, tested against
      the normalized latest message, and the context patterns of the history
      analysis. */
  datatype Tables = Tables(injection: seq<Pattern>, context: seq<ContextPattern>)

  /** The tables of the source, and the tables with the normalized
      spellings. */
  const SourceTables: Tables := Tables(InjectionPatterns, ContextPatterns)
  const CorrectedTables: Tables := Tables(CorrectedInjectionPatterns, CorrectedContextPatterns)

  // ----- sensitive-information patterns, tested against the raw text -----

  const SensitivePatterns: seq<Pattern> := [
    Pattern(Seq([Boundary, Repeat(Cat(Digit, Star(Items([Spaces, One('-')]))), 13, 19), Boundary]), false),
    Pattern(Seq([Boundary, Repeat(Digit, 10, 10), Boundary]), false),
    Pattern(Seq([Boundary, Repeat(Digit, 10, 24), Boundary]), false),
    Pattern(AnyOf(["cvv2", "ccv", "cvv", "سی وی وی", "رمز دوم"]), true),
    Pattern(AnyOf(["رمز عبور", "پسورد", "password", "pin", "پین", "رمز"]), true),
    Pattern(AnyOf(["کد ملی", "شماره شناسنامه", "شماره ملی"]), true)
  ]

  // ----- token-splitting patterns, tested against the raw text -----

  /** The words whose letters may be separated by white space. */
  const SplitWords: seq<string> :=
    ["ignore", "disregard", "system", "english", "انگلیسی", "نادیده", "سیستم"]

  /** `/i\s*g\s*n\s*o\s*r\s*e/i` and the six like it. */
  const SpacedWordPatterns: seq<Pattern> := SpacedAll(SplitWords)

  /** `Spaced(w)` with `/i`, for each word of `ws`. */
  function SpacedAll(ws: seq<string>): (ps: seq<Pattern>)
    ensures |ps| == |ws|
    ensures forall k | 0 <= k < |ws| :: ps[k] == Pattern(Spaced(ws[k]), true)
  {
    if ws == [] then [] else [Pattern(Spaced(ws[0]), true)] + SpacedAll(ws[1..])
  }

  /** Leetspeak spellings of "ignore", "english" and "system". */
  const LeetPatterns: seq<Pattern> := [
    Phrase([OneOf("i1|!"), OneOf("g6"), OneOf("n"), OneOf("o0"), OneOf("r"), OneOf("e3")]),
    Phrase([OneOf("e3"), OneOf("n"), OneOf("g6"), OneOf("l1|!"), OneOf("i1|!"), OneOf("s5"), OneOf("h#")]),
    Phrase([OneOf("s5"), OneOf("y"), OneOf("s5"), OneOf("t7"), OneOf("e3"), OneOf("m")])
  ]

  const TokenSplitPatterns: seq<Pattern> := SpacedWordPatterns + LeetPatterns

  // ----- keyword lists of the content classifier -----

  const DirectAttackTerms: seq<string> := [
    "hack", "exploit", "bypass", "override", "injection", "prompt", "jailbreak",
    "هک", "دور زدن", "حمله", "نفوذ", "امنیتی", "اکسپلویت", "پرامپت"
  ]

  const CommandTerms: seq<string> := [
    "system:", "user:", "assistant:", "سیستم:", "کاربر:", "دستیار:",
    "new role", "نقش جدید", "forget your", "فراموش کن", "ignore", "نادیده بگیر"
  ]

  const PersonaTerms: seq<string> := [
    "you are now", "from now on", "شما اکنون", "از این به بعد", "instead be", "به جای",
    "pretend", "وانمود کن"
  ]

  const LanguageTerms: seq<string> := [
    "english", "انگلیسی", "bilingual", "دوزبانه", "translate", "ترجمه"
  ]
}
