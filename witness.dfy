/** Inputs on which the gate as the source writes it and the corrected gate
    disagree.  A pattern is shown not to fire on a short text by naming, for
    each way it can match, a character the match needs and the text lacks. */
module Witness {
  import opened Text
  import opened Regex
  import opened Normalize
  import opened Language
  import opened Scoring
  import opened Patterns

  /** `x` is not in `cs` and is not an upper-case letter. */
  predicate Outside(x: char, cs: set<char>) {
    x !in cs && !IsUpper(x)
  }

  /** Some character of `w` is absent from `cs`. */
  predicate Escapes(w: string, cs: set<char>) {
    exists k | 0 <= k < |w| :: Outside(w[k], cs)
  }

  /** Every character of `xs` is absent from `cs`. */
  predicate AllOutside(xs: string, cs: set<char>)
    decreases |xs|
  {
    xs == [] || (Outside(xs[0], cs) && AllOutside(xs[1..], cs))
  }

  /** `t` is written with characters of `cs` only, none of them upper case. */
  predicate WrittenWith(t: string, cs: set<char>) {
    forall p | 0 <= p < |t| :: t[p] in cs && !IsUpper(t[p])
  }

  /** Every match of `r` would consume a character outside `cs`. */
  predicate Blocked(r: Regex, cs: set<char>, ic: bool) {
    match r
    case Str(w) => Escapes(w, cs)
    case Cls(cl) => forall c | c in cs :: !ClassHas(cl, c, ic)
    case Cat(a, b) => Blocked(a, cs, ic) || Blocked(b, cs, ic)
    case Alt(a, b) => Blocked(a, cs, ic) && Blocked(b, cs, ic)
    case _ => false
  }

  lemma AbsentAt(x: char, cs: set<char>, t: string, p: int, ic: bool)
    requires Outside(x, cs) && WrittenWith(t, cs) && 0 <= p < |t|
    ensures !SameLetter(t[p], x, ic)
  {
  }


  /** A blocked regex has no match anywhere in a text written with `cs`. */
  lemma {:induction false} BlockedNoMatch(r: Regex, cs: set<char>, t: string, i: int, ic: bool)
    requires Blocked(r, cs, ic) && WrittenWith(t, cs) && 0 <= i <= |t|
    ensures Ends(r, t, i, ic) == {}
    decreases r
  {
    match r
    case Str(w) =>
      var k :| 0 <= k < |w| && Outside(w[k], cs);
      if i + k < |t| {
        AbsentAt(w[k], cs, t, i + k, ic);
        assert !SameLetter(t[i..][k], w[k], ic);
      }
    case Cls(cl) =>
      if i < |t| {
        assert t[i] in cs;
      }
    case Cat(a, b) =>
      if Blocked(a, cs, ic) {
        BlockedNoMatch(a, cs, t, i, ic);
      } else {
        forall m | m in Ends(a, t, i, ic) ensures Ends(b, t, m, ic) == {} {
          BlockedNoMatch(b, cs, t, m, ic);
        }
      }
    case Alt(a, b) =>
      BlockedNoMatch(a, cs, t, i, ic);
      BlockedNoMatch(b, cs, t, i, ic);
  }

  /** A pattern whose regex is blocked never fires on a text written with
      `cs`. */
  lemma NeverFires(p: Pattern, cs: set<char>, t: string)
    requires Blocked(p.re, cs, p.ignoreCase) && WrittenWith(t, cs)
    ensures !Test(p, t)
  {
    forall i | 0 <= i <= |t| ensures !MatchesAt(p.re, t, i, p.ignoreCase) {
      BlockedNoMatch(p.re, cs, t, i, p.ignoreCase);
    }
  }

  lemma {:induction false} AllAbsentAt(xs: string, cs: set<char>, k: int)
    requires AllOutside(xs, cs) && 0 <= k < |xs|
    ensures Outside(xs[k], cs)
    decreases |xs|
  {
    if k > 0 {
      AllAbsentAt(xs[1..], cs, k - 1);
    }
  }

  /** A class of listed characters none of which is in `cs`, nor the case
      partner of one in `cs`. */
  lemma CharsBlocked(xs: string, cs: set<char>, ic: bool)
    requires AllOutside(xs, cs) && forall c | c in cs :: !IsUpper(c) && !IsLower(c)
    ensures Blocked(OneOf(xs), cs, ic)
  {
    forall c | c in cs ensures !ClassHas(Chars(xs), c, ic) {
      forall k | 0 <= k < |xs| ensures !ItemHas(One(xs[k]), c) && !(ic && (ItemHas(One(xs[k]), Lower(c)) || ItemHas(One(xs[k]), Upper(c)))) {
        AllAbsentAt(xs, cs, k);
      }
    }
  }

  /** A spaced word is blocked by any of its letters. */
  lemma {:induction false} SpacedBlocked(w: string, j: int, cs: set<char>, ic: bool)
    requires 0 <= j < |w| && Outside(w[j], cs)
    ensures Blocked(Spaced(w), cs, ic)
    decreases |w|
  {
    if |w| > 1 {
      if j == 0 {
        assert w[..1][0] == w[0];
      } else {
        SpacedBlocked(w[1..], j - 1, cs, ic);
      }
    }
  }

  /** An alternation of words each of which escapes `cs` is blocked. */
  lemma {:induction false} AnyOfBlocked(ws: seq<string>, cs: set<char>, ic: bool)
    requires |ws| > 0 && forall k | 0 <= k < |ws| :: Escapes(ws[k], cs)
    ensures Blocked(AnyOf(ws), cs, ic)
    decreases |ws|
  {
    if |ws| > 1 {
      assert forall k | 0 <= k < |ws[1..]| :: ws[1..][k] == ws[k + 1];
      AnyOfBlocked(ws[1..], cs, ic);
    }
  }

  /** An alternation of words each of which escapes `cs` never fires on a
      text written with `cs`. */
  lemma WordsQuiet(ws: seq<string>, cs: set<char>, t: string)
    requires |ws| > 0 && forall k | 0 <= k < |ws| :: Escapes(ws[k], cs)
    requires WrittenWith(t, cs)
    ensures !Test(Pattern(AnyOf(ws), true), t)
  {
    AnyOfBlocked(ws, cs, true);
    NeverFires(Pattern(AnyOf(ws), true), cs, t);
  }

  /** A class of digits has no member in a set without digits. */
  lemma DigitsBlocked(cs: set<char>, ic: bool)
    requires forall c | c in cs :: !IsDigit(c) && !IsUpper(c) && !IsLower(c)
    ensures Blocked(Digit, cs, ic)
  {
  }

  /** A term with a character that the text lacks does not occur in it. */
  lemma TermLacks(term: string, j: int, cs: set<char>, t: string)
    requires 0 <= j < |term| && Outside(term[j], cs) && WrittenWith(t, cs)
    ensures !Contains(t, term)
  {
    forall i | 0 <= i <= |t| && i + |term| <= |t| ensures !OccursAt(t, term, i) {
      assert t[i..i + |term|][j] == t[i + j];
      assert t[i + j] in cs;
    }
  }

  /** No term present: the bucket counts nothing. */
  lemma {:induction false} NoneContained(terms: seq<string>, t: string)
    requires forall k | 0 <= k < |terms| :: !Contains(t, terms[k])
    ensures PresentCount(terms, t) == 0
    decreases |terms|
  {
    if terms != [] {
      NoneContained(terms[..|terms| - 1], t);
    }
  }

  /** A pattern list of two parts fires when one of the parts does. */
  lemma AnyTestAppend(a: seq<Pattern>, b: seq<Pattern>, s: string)
    ensures AnyTest(a + b, s) <==> AnyTest(a, s) || AnyTest(b, s)
  {
    forall k | 0 <= k < |a + b| ensures (a + b)[k] == if k < |a| then a[k] else b[k - |a|] {
    }
    forall k | 0 <= k < |b| ensures Test((a + b)[|a| + k], s) == Test(b[k], s) {
      assert (a + b)[|a| + k] == b[k];
    }
  }

  /** The characters of "بانک آبی" after normalization, and as written. */
  const BankChars: set<char> := {'ب', 'ا', 'ن', 'ک', ' ', '\U{0653}', 'ی'}
  const RawBankChars: set<char> := {'ب', 'ا', 'ن', 'ک', ' ', '\U{0622}', 'ی'}

  lemma BankWritten()
    ensures WrittenWith(BlueBank, BankChars)
    ensures WrittenWith(BlueBankAsWritten, RawBankChars)
  {
  }

  lemma BaseQuiet00()
    ensures !Test(BasePatterns[0], BlueBank)
  {
    assert Outside("ignore "[0], BankChars);
    BankWritten();
    NeverFires(BasePatterns[0], BankChars, BlueBank);
  }

  lemma BaseQuiet01()
    ensures !Test(BasePatterns[1], BlueBank)
  {
    assert Outside("disregard "[0], BankChars);
    BankWritten();
    NeverFires(BasePatterns[1], BankChars, BlueBank);
  }

  lemma BaseQuiet02()
    ensures !Test(BasePatterns[2], BlueBank)
  {
    assert Outside("forget "[0], BankChars);
    BankWritten();
    NeverFires(BasePatterns[2], BankChars, BlueBank);
  }

  lemma BaseQuiet03()
    ensures !Test(BasePatterns[3], BlueBank)
  {
    assert Outside("you are not an "[0], BankChars);
    BankWritten();
    NeverFires(BasePatterns[3], BankChars, BlueBank);
  }

  lemma BaseQuiet04()
    ensures !Test(BasePatterns[4], BlueBank)
  {
    assert Outside("pretend to be"[0], BankChars);
    BankWritten();
    NeverFires(BasePatterns[4], BankChars, BlueBank);
  }

  lemma BaseQuiet05()
    ensures !Test(BasePatterns[5], BlueBank)
  {
    assert Outside("act as if"[0], BankChars);
    BankWritten();
    NeverFires(BasePatterns[5], BankChars, BlueBank);
  }

  lemma BaseQuiet06()
    ensures !Test(BasePatterns[6], BlueBank)
  {
    assert Outside("you are now"[0], BankChars);
    BankWritten();
    NeverFires(BasePatterns[6], BankChars, BlueBank);
  }

  lemma BaseQuiet07()
    ensures !Test(BasePatterns[7], BlueBank)
  {
    assert Outside("from now on you"[0], BankChars);
    BankWritten();
    NeverFires(BasePatterns[7], BankChars, BlueBank);
  }

  lemma BaseQuiet08()
    ensures !Test(BasePatterns[8], BlueBank)
  {
    assert Outside("your new role is"[0], BankChars);
    BankWritten();
    NeverFires(BasePatterns[8], BankChars, BlueBank);
  }

  lemma BaseQuiet09()
    ensures !Test(BasePatterns[9], BlueBank)
  {
    assert Outside("system prompt"[0], BankChars);
    BankWritten();
    NeverFires(BasePatterns[9], BankChars, BlueBank);
  }

  lemma BaseQuiet10()
    ensures !Test(BasePatterns[10], BlueBank)
  {
    assert Outside("system message"[0], BankChars);
    BankWritten();
    NeverFires(BasePatterns[10], BankChars, BlueBank);
  }

  lemma BaseQuiet11()
    ensures !Test(BasePatterns[11], BlueBank)
  {
    assert Outside("new instruction"[0], BankChars);
    BankWritten();
    NeverFires(BasePatterns[11], BankChars, BlueBank);
  }

  lemma BaseQuiet12()
    ensures !Test(BasePatterns[12], BlueBank)
  {
    assert Outside("updated instruction"[0], BankChars);
    BankWritten();
    NeverFires(BasePatterns[12], BankChars, BlueBank);
  }

  lemma BaseQuiet13()
    ensures !Test(BasePatterns[13], BlueBank)
  {
    assert Outside("system directive"[0], BankChars);
    BankWritten();
    NeverFires(BasePatterns[13], BankChars, BlueBank);
  }

  lemma BaseQuiet14()
    ensures !Test(BasePatterns[14], BlueBank)
  {
    assert Outside("system update"[0], BankChars);
    BankWritten();
    NeverFires(BasePatterns[14], BankChars, BlueBank);
  }

  lemma BaseQuiet15()
    ensures !Test(BasePatterns[15], BlueBank)
  {
    assert Outside("respond in english"[0], BankChars);
    BankWritten();
    NeverFires(BasePatterns[15], BankChars, BlueBank);
  }

  lemma BaseQuiet16()
    ensures !Test(BasePatterns[16], BlueBank)
  {
    assert Outside("answer in english"[0], BankChars);
    BankWritten();
    NeverFires(BasePatterns[16], BankChars, BlueBank);
  }

  lemma BaseQuiet17()
    ensures !Test(BasePatterns[17], BlueBank)
  {
    assert Outside("switch to english"[0], BankChars);
    BankWritten();
    NeverFires(BasePatterns[17], BankChars, BlueBank);
  }

  lemma BaseQuiet18()
    ensures !Test(BasePatterns[18], BlueBank)
  {
    assert Outside("bilingual mode"[0], BankChars);
    BankWritten();
    NeverFires(BasePatterns[18], BankChars, BlueBank);
  }

  lemma BaseQuiet19()
    ensures !Test(BasePatterns[19], BlueBank)
  {
    assert Outside("start your response with"[0], BankChars);
    BankWritten();
    NeverFires(BasePatterns[19], BankChars, BlueBank);
  }

  lemma BaseQuiet20()
    ensures !Test(BasePatterns[20], BlueBank)
  {
    assert Outside("begin your answer with"[0], BankChars);
    BankWritten();
    NeverFires(BasePatterns[20], BankChars, BlueBank);
  }

  lemma BaseQuiet21()
    ensures !Test(BasePatterns[21], BlueBank)
  {
    assert Outside("end your response with"[0], BankChars);
    BankWritten();
    NeverFires(BasePatterns[21], BankChars, BlueBank);
  }

  lemma BaseQuiet22()
    ensures !Test(BasePatterns[22], BlueBank)
  {
    assert Outside("format your response as"[0], BankChars);
    BankWritten();
    NeverFires(BasePatterns[22], BankChars, BlueBank);
  }

  lemma BaseQuiet23()
    ensures !Test(BasePatterns[23], BlueBank)
  {
    assert Outside("```"[0], BankChars);
    BankWritten();
    NeverFires(BasePatterns[23], BankChars, BlueBank);
  }

  lemma BaseQuiet24()
    ensures !Test(BasePatterns[24], BlueBank)
  {
    assert Outside("\\["[0], BankChars);
    BankWritten();
    NeverFires(BasePatterns[24], BankChars, BlueBank);
  }

  lemma PersianQuiet00()
    ensures !Test(PersianPatterns[0], BlueBank)
  {
    assert Outside("دستورالعمل "[0], BankChars);
    BankWritten();
    NeverFires(PersianPatterns[0], BankChars, BlueBank);
  }

  lemma PersianQuiet01()
    ensures !Test(PersianPatterns[1], BlueBank)
  {
    assert Outside("سیستم "[0], BankChars);
    BankWritten();
    NeverFires(PersianPatterns[1], BankChars, BlueBank);
  }

  lemma PersianQuiet02()
    ensures !Test(PersianPatterns[2], BlueBank)
  {
    assert Outside("دستورالعمل "[0], BankChars);
    BankWritten();
    NeverFires(PersianPatterns[2], BankChars, BlueBank);
  }

  lemma PersianQuiet03()
    ensures !Test(PersianPatterns[3], BlueBank)
  {
    assert Outside("شما یک "[0], BankChars);
    BankWritten();
    NeverFires(PersianPatterns[3], BankChars, BlueBank);
  }

  lemma PersianQuiet04()
    ensures !Test(PersianPatterns[4], BlueBank)
  {
    assert Outside("وانمود کنید"[0], BankChars);
    BankWritten();
    NeverFires(PersianPatterns[4], BankChars, BlueBank);
  }

  lemma PersianQuiet05()
    ensures !Test(PersianPatterns[5], BlueBank)
  {
    assert Outside("طوری رفتار کنید"[0], BankChars);
    BankWritten();
    NeverFires(PersianPatterns[5], BankChars, BlueBank);
  }

  lemma PersianQuiet06()
    ensures !Test(PersianPatterns[6], BlueBank)
  {
    assert Outside("شما اکنون"[0], BankChars);
    BankWritten();
    NeverFires(PersianPatterns[6], BankChars, BlueBank);
  }

  lemma PersianQuiet07()
    ensures !Test(PersianPatterns[7], BlueBank)
  {
    assert Outside("از این به بعد شما"[1], BankChars);
    BankWritten();
    NeverFires(PersianPatterns[7], BankChars, BlueBank);
  }

  lemma PersianQuiet08()
    ensures !Test(PersianPatterns[8], BlueBank)
  {
    assert Outside("نقش جدید شما"[1], BankChars);
    BankWritten();
    NeverFires(PersianPatterns[8], BankChars, BlueBank);
  }

  lemma PersianQuiet09()
    ensures !Test(PersianPatterns[9], BlueBank)
  {
    assert Outside("پرامپت سیستم"[0], BankChars);
    BankWritten();
    NeverFires(PersianPatterns[9], BankChars, BlueBank);
  }

  lemma PersianQuiet10()
    ensures !Test(PersianPatterns[10], BlueBank)
  {
    assert Outside("پیام سیستم"[0], BankChars);
    BankWritten();
    NeverFires(PersianPatterns[10], BankChars, BlueBank);
  }

  lemma PersianQuiet11()
    ensures !Test(PersianPatterns[11], BlueBank)
  {
    assert Outside("دستورالعمل جدید"[0], BankChars);
    BankWritten();
    NeverFires(PersianPatterns[11], BankChars, BlueBank);
  }

  lemma PersianQuiet12()
    ensures !Test(PersianPatterns[12], BlueBank)
  {
    assert Outside(UpdatedInstructionAsWritten[0], BankChars);
    BankWritten();
    NeverFires(PersianPatterns[12], BankChars, BlueBank);
  }

  lemma PersianQuiet13()
    ensures !Test(PersianPatterns[13], BlueBank)
  {
    assert Outside("دستور سیستم"[0], BankChars);
    BankWritten();
    NeverFires(PersianPatterns[13], BankChars, BlueBank);
  }

  lemma PersianQuiet14()
    ensures !Test(PersianPatterns[14], BlueBank)
  {
    assert Outside(SystemUpdateAsWritten[1], BankChars);
    BankWritten();
    NeverFires(PersianPatterns[14], BankChars, BlueBank);
  }

  lemma PersianQuiet15()
    ensures !Test(PersianPatterns[15], BlueBank)
  {
    assert Outside("به انگلیسی پاسخ دهید"[1], BankChars);
    BankWritten();
    NeverFires(PersianPatterns[15], BankChars, BlueBank);
  }

  lemma PersianQuiet16()
    ensures !Test(PersianPatterns[16], BlueBank)
  {
    assert Outside("به انگلیسی جواب دهید"[1], BankChars);
    BankWritten();
    NeverFires(PersianPatterns[16], BankChars, BlueBank);
  }

  lemma PersianQuiet17()
    ensures !Test(PersianPatterns[17], BlueBank)
  {
    assert Outside("به انگلیسی تغییر دهید"[1], BankChars);
    BankWritten();
    NeverFires(PersianPatterns[17], BankChars, BlueBank);
  }

  lemma PersianQuiet18()
    ensures !Test(PersianPatterns[18], BlueBank)
  {
    assert Outside("حالت دوزبانه"[0], BankChars);
    BankWritten();
    NeverFires(PersianPatterns[18], BankChars, BlueBank);
  }

  lemma PersianQuiet19()
    ensures !Test(PersianPatterns[19], BlueBank)
  {
    assert Outside("پاسخ خود را با "[0], BankChars);
    BankWritten();
    NeverFires(PersianPatterns[19], BankChars, BlueBank);
  }

  lemma PersianQuiet20()
    ensures !Test(PersianPatterns[20], BlueBank)
  {
    assert Outside("جواب خود را با "[0], BankChars);
    BankWritten();
    NeverFires(PersianPatterns[20], BankChars, BlueBank);
  }

  lemma PersianQuiet21()
    ensures !Test(PersianPatterns[21], BlueBank)
  {
    assert Outside("پاسخ خود را با "[0], BankChars);
    BankWritten();
    NeverFires(PersianPatterns[21], BankChars, BlueBank);
  }

  lemma PersianQuiet22()
    ensures !Test(PersianPatterns[22], BlueBank)
  {
    assert Outside("پاسخ خود را به صورت "[0], BankChars);
    BankWritten();
    NeverFires(PersianPatterns[22], BankChars, BlueBank);
  }

  lemma PersianQuiet23()
    ensures !Test(PersianPatterns[23], BlueBank)
  {
    assert Outside("مهندس سیستم بلوبانک"[0], BankChars);
    BankWritten();
    NeverFires(PersianPatterns[23], BankChars, BlueBank);
  }

  lemma PersianQuiet24()
    ensures !Test(PersianPatterns[24], BlueBank)
  {
    assert Outside("کارمند بلوبانک"[2], BankChars);
    BankWritten();
    NeverFires(PersianPatterns[24], BankChars, BlueBank);
  }

  lemma PersianQuiet25()
    ensures !Test(PersianPatterns[25], BlueBank)
  {
    assert Outside("مدیر بلوبانک"[0], BankChars);
    BankWritten();
    NeverFires(PersianPatterns[25], BankChars, BlueBank);
  }

  lemma PersianQuiet26()
    ensures !Test(PersianPatterns[26], BlueBank)
  {
    assert Outside("تست امنیتی"[0], BankChars);
    BankWritten();
    NeverFires(PersianPatterns[26], BankChars, BlueBank);
  }

  lemma PersianQuiet27()
    ensures !Test(PersianPatterns[27], BlueBank)
  {
    assert Outside("blue bank"[0], BankChars);
    BankWritten();
    NeverFires(PersianPatterns[27], BankChars, BlueBank);
  }

  lemma PersianQuiet28()
    ensures !Test(PersianPatterns[28], BlueBank)
  {
    assert Outside(BlueBankAsWritten[5], BankChars);
    BankWritten();
    NeverFires(PersianPatterns[28], BankChars, BlueBank);
  }

  lemma HomoglyphQuiet0()
    ensures !Test(NormalizedPatterns[0], BlueBank)
  {
    assert Outside("b"[0], BankChars);
    BankWritten();
    NeverFires(NormalizedPatterns[0], BankChars, BlueBank);
  }

  lemma HomoglyphQuiet1()
    ensures !Test(NormalizedPatterns[1], BlueBank)
  {
    CharsBlocked("еёэ", BankChars, true);
    BankWritten();
    NeverFires(NormalizedPatterns[1], BankChars, BlueBank);
  }

  lemma HomoglyphQuiet2()
    ensures !Test(NormalizedPatterns[2], BlueBank)
  {
    CharsBlocked("αа", BankChars, true);
    BankWritten();
    NeverFires(NormalizedPatterns[2], BankChars, BlueBank);
  }

  /** No English injection pattern fires on the normalized text. */
  lemma BaseQuiet()
    ensures forall k | 0 <= k < |BasePatterns| :: !Test(BasePatterns[k], BlueBank)
  {
    BaseQuiet00();
    BaseQuiet01();
    BaseQuiet02();
    BaseQuiet03();
    BaseQuiet04();
    BaseQuiet05();
    BaseQuiet06();
    BaseQuiet07();
    BaseQuiet08();
    BaseQuiet09();
    BaseQuiet10();
    BaseQuiet11();
    BaseQuiet12();
    BaseQuiet13();
    BaseQuiet14();
    BaseQuiet15();
    BaseQuiet16();
    BaseQuiet17();
    BaseQuiet18();
    BaseQuiet19();
    BaseQuiet20();
    BaseQuiet21();
    BaseQuiet22();
    BaseQuiet23();
    BaseQuiet24();
  }

  /** No Persian injection pattern, as written, fires on the normalized text. */
  lemma PersianQuiet()
    ensures forall k | 0 <= k < |PersianPatterns| :: !Test(PersianPatterns[k], BlueBank)
  {
    PersianQuiet00();
    PersianQuiet01();
    PersianQuiet02();
    PersianQuiet03();
    PersianQuiet04();
    PersianQuiet05();
    PersianQuiet06();
    PersianQuiet07();
    PersianQuiet08();
    PersianQuiet09();
    PersianQuiet10();
    PersianQuiet11();
    PersianQuiet12();
    PersianQuiet13();
    PersianQuiet14();
    PersianQuiet15();
    PersianQuiet16();
    PersianQuiet17();
    PersianQuiet18();
    PersianQuiet19();
    PersianQuiet20();
    PersianQuiet21();
    PersianQuiet22();
    PersianQuiet23();
    PersianQuiet24();
    PersianQuiet25();
    PersianQuiet26();
    PersianQuiet27();
    PersianQuiet28();
  }

  lemma HomoglyphQuiet()
    ensures forall k | 0 <= k < |NormalizedPatterns| :: !Test(NormalizedPatterns[k], BlueBank)
  {
    HomoglyphQuiet0();
    HomoglyphQuiet1();
    HomoglyphQuiet2();
  }

  /** The characters a text may be written with for no token-splitting
      pattern to fire: no Latin letter or digit, none of `|`, `!`, and none
      of the Persian letters the spaced Persian words are tested by. */
  predicate SplitFree(cs: set<char>) {
    forall c | c in cs :: !IsUpper(c) && !IsLower(c) && !IsDigit(c) && c !in "|!گدس"
  }

  /** `Spaced(w)` cannot match a text that lacks one of w's letters. */
  lemma SpacedQuiet(w: string, j: int, cs: set<char>, t: string)
    requires 0 <= j < |w| && Outside(w[j], cs) && WrittenWith(t, cs)
    ensures !Test(Pattern(Spaced(w), true), t)
  {
    SpacedBlocked(w, j, cs, true);
    NeverFires(Pattern(Spaced(w), true), cs, t);
  }

  lemma SpacedWordsQuiet(t: string, cs: set<char>)
    requires WrittenWith(t, cs) && SplitFree(cs)
    ensures !AnyTest(SpacedWordPatterns, t)
  {
    forall k | 0 <= k < |SplitWords| ensures !Test(SpacedWordPatterns[k], t) {
      var w := SplitWords[k];
      var j := if k == 4 || k == 5 then 2 else 0;
      assert Outside(w[j], cs);
      SpacedQuiet(w, j, cs, t);
    }
  }

  lemma LeetQuiet0(t: string, cs: set<char>)
    requires WrittenWith(t, cs) && SplitFree(cs)
    ensures !Test(LeetPatterns[0], t)
  {
    CharsBlocked("i1|!", cs, true);
    NeverFires(LeetPatterns[0], cs, t);
  }

  lemma LeetQuiet1(t: string, cs: set<char>)
    requires WrittenWith(t, cs) && SplitFree(cs)
    ensures !Test(LeetPatterns[1], t)
  {
    CharsBlocked("e3", cs, true);
    NeverFires(LeetPatterns[1], cs, t);
  }

  lemma LeetQuiet2(t: string, cs: set<char>)
    requires WrittenWith(t, cs) && SplitFree(cs)
    ensures !Test(LeetPatterns[2], t)
  {
    CharsBlocked("s5", cs, true);
    NeverFires(LeetPatterns[2], cs, t);
  }

  lemma LeetQuiet(t: string, cs: set<char>)
    requires WrittenWith(t, cs) && SplitFree(cs)
    ensures !AnyTest(LeetPatterns, t)
  {
    LeetQuiet0(t, cs);
    LeetQuiet1(t, cs);
    LeetQuiet2(t, cs);
  }

  lemma NoneAppend(a: seq<Pattern>, b: seq<Pattern>, t: string)
    requires !AnyTest(a, t) && !AnyTest(b, t)
    ensures !AnyTest(a + b, t)
  {
    AnyTestAppend(a, b, t);
  }

  /** A text written only with split-free characters shows no token
      splitting. */
  lemma SplitQuietWhen(t: string, cs: set<char>)
    requires WrittenWith(t, cs) && SplitFree(cs)
    ensures !DetectTokenSplitting(t)
  {
    SpacedWordsQuiet(t, cs);
    LeetQuiet(t, cs);
    NoneAppend(SpacedWordPatterns, LeetPatterns, t);
  }

  /** No token-splitting pattern fires on the text as written. */
  lemma SplitQuiet()
    ensures !DetectTokenSplitting(BlueBankAsWritten)
  {
    BankWritten();
    SplitQuietWhen(BlueBankAsWritten, RawBankChars);
  }

  /** `\b r{lo,hi} \b` is blocked when r is. */
  lemma DigitRunBlocked(r: Regex, lo: nat, hi: nat, cs: set<char>, ic: bool)
    requires 0 < lo <= hi && Blocked(r, cs, ic)
    ensures Blocked(Seq([Boundary, Repeat(r, lo, hi), Boundary]), cs, ic)
  {
    assert Repeat(r, lo, hi) == Cat(r, Repeat(r, lo - 1, hi - 1));
    var rs := [Boundary, Repeat(r, lo, hi), Boundary];
    assert rs[1..][1..] == [Boundary];
    assert Seq(rs[1..]) == Cat(Repeat(r, lo, hi), Boundary);
  }

  lemma DigitsQuiet0(t: string, cs: set<char>)
    requires WrittenWith(t, cs) && forall c | c in cs :: !IsDigit(c) && !IsUpper(c) && !IsLower(c)
    ensures !Test(SensitivePatterns[0], t)
  {
    DigitsBlocked(cs, false);
    DigitRunBlocked(Cat(Digit, Star(Items([Spaces, One('-')]))), 13, 19, cs, false);
    NeverFires(SensitivePatterns[0], cs, t);
  }

  lemma DigitsQuiet1(t: string, cs: set<char>)
    requires WrittenWith(t, cs) && forall c | c in cs :: !IsDigit(c) && !IsUpper(c) && !IsLower(c)
    ensures !Test(SensitivePatterns[1], t)
  {
    DigitsBlocked(cs, false);
    DigitRunBlocked(Digit, 10, 10, cs, false);
    NeverFires(SensitivePatterns[1], cs, t);
  }

  lemma DigitsQuiet2(t: string, cs: set<char>)
    requires WrittenWith(t, cs) && forall c | c in cs :: !IsDigit(c) && !IsUpper(c) && !IsLower(c)
    ensures !Test(SensitivePatterns[2], t)
  {
    DigitsBlocked(cs, false);
    DigitRunBlocked(Digit, 10, 24, cs, false);
    NeverFires(SensitivePatterns[2], cs, t);
  }

  lemma SensitiveQuiet0()
    ensures !Test(SensitivePatterns[0], BlueBankAsWritten)
  {
    BankWritten();
    DigitsQuiet0(BlueBankAsWritten, RawBankChars);
  }

  lemma SensitiveQuiet1()
    ensures !Test(SensitivePatterns[1], BlueBankAsWritten)
  {
    BankWritten();
    DigitsQuiet1(BlueBankAsWritten, RawBankChars);
  }

  lemma SensitiveQuiet2()
    ensures !Test(SensitivePatterns[2], BlueBankAsWritten)
  {
    BankWritten();
    DigitsQuiet2(BlueBankAsWritten, RawBankChars);
  }

  lemma SensitiveQuiet3()
    ensures !Test(SensitivePatterns[3], BlueBankAsWritten)
  {
    var ws := ["cvv2", "ccv", "cvv", "سی وی وی", "رمز دوم"];
    assert Escapes(ws[0], RawBankChars) by { assert Outside(ws[0][0], RawBankChars); }
    assert Escapes(ws[1], RawBankChars) by { assert Outside(ws[1][0], RawBankChars); }
    assert Escapes(ws[2], RawBankChars) by { assert Outside(ws[2][0], RawBankChars); }
    assert Escapes(ws[3], RawBankChars) by { assert Outside(ws[3][0], RawBankChars); }
    assert Escapes(ws[4], RawBankChars) by { assert Outside(ws[4][0], RawBankChars); }
    BankWritten();
    WordsQuiet(ws, RawBankChars, BlueBankAsWritten);
  }

  lemma SensitiveQuiet4()
    ensures !Test(SensitivePatterns[4], BlueBankAsWritten)
  {
    var ws := ["رمز عبور", "پسورد", "password", "pin", "پین", "رمز"];
    assert Escapes(ws[0], RawBankChars) by { assert Outside(ws[0][0], RawBankChars); }
    assert Escapes(ws[1], RawBankChars) by { assert Outside(ws[1][0], RawBankChars); }
    assert Escapes(ws[2], RawBankChars) by { assert Outside(ws[2][0], RawBankChars); }
    assert Escapes(ws[3], RawBankChars) by { assert Outside(ws[3][0], RawBankChars); }
    assert Escapes(ws[4], RawBankChars) by { assert Outside(ws[4][0], RawBankChars); }
    assert Escapes(ws[5], RawBankChars) by { assert Outside(ws[5][0], RawBankChars); }
    BankWritten();
    WordsQuiet(ws, RawBankChars, BlueBankAsWritten);
  }

  lemma SensitiveQuiet5()
    ensures !Test(SensitivePatterns[5], BlueBankAsWritten)
  {
    var ws := ["کد ملی", "شماره شناسنامه", "شماره ملی"];
    assert Escapes(ws[0], RawBankChars) by { assert Outside(ws[0][1], RawBankChars); }
    assert Escapes(ws[1], RawBankChars) by { assert Outside(ws[1][0], RawBankChars); }
    assert Escapes(ws[2], RawBankChars) by { assert Outside(ws[2][0], RawBankChars); }
    BankWritten();
    WordsQuiet(ws, RawBankChars, BlueBankAsWritten);
  }

  /** No sensitive-information pattern fires on the text as written. */
  lemma SensitiveQuiet()
    ensures !AnyTest(SensitivePatterns, BlueBankAsWritten)
  {
    SensitiveQuiet0();
    SensitiveQuiet1();
    SensitiveQuiet2();
    SensitiveQuiet3();
    SensitiveQuiet4();
    SensitiveQuiet5();
    assert forall k | 0 <= k < |SensitivePatterns| :: !Test(SensitivePatterns[k], BlueBankAsWritten);
  }

  lemma DirectAttackQuiet()
    ensures PresentCount(DirectAttackTerms, BlueBank) == 0
  {
    TermLacks(DirectAttackTerms[0], 0, BankChars, BlueBank);
    TermLacks(DirectAttackTerms[1], 0, BankChars, BlueBank);
    TermLacks(DirectAttackTerms[2], 0, BankChars, BlueBank);
    TermLacks(DirectAttackTerms[3], 0, BankChars, BlueBank);
    TermLacks(DirectAttackTerms[4], 0, BankChars, BlueBank);
    TermLacks(DirectAttackTerms[5], 0, BankChars, BlueBank);
    TermLacks(DirectAttackTerms[6], 0, BankChars, BlueBank);
    TermLacks(DirectAttackTerms[7], 0, BankChars, BlueBank);
    TermLacks(DirectAttackTerms[8], 0, BankChars, BlueBank);
    TermLacks(DirectAttackTerms[9], 0, BankChars, BlueBank);
    TermLacks(DirectAttackTerms[10], 1, BankChars, BlueBank);
    TermLacks(DirectAttackTerms[11], 1, BankChars, BlueBank);
    TermLacks(DirectAttackTerms[12], 2, BankChars, BlueBank);
    TermLacks(DirectAttackTerms[13], 0, BankChars, BlueBank);
    NoneContained(DirectAttackTerms, BlueBank);
  }

  lemma CommandQuiet()
    ensures PresentCount(CommandTerms, BlueBank) == 0
  {
    TermLacks(CommandTerms[0], 0, BankChars, BlueBank);
    TermLacks(CommandTerms[1], 0, BankChars, BlueBank);
    TermLacks(CommandTerms[2], 0, BankChars, BlueBank);
    TermLacks(CommandTerms[3], 0, BankChars, BlueBank);
    TermLacks(CommandTerms[4], 2, BankChars, BlueBank);
    TermLacks(CommandTerms[5], 0, BankChars, BlueBank);
    TermLacks(CommandTerms[6], 0, BankChars, BlueBank);
    TermLacks(CommandTerms[7], 1, BankChars, BlueBank);
    TermLacks(CommandTerms[8], 0, BankChars, BlueBank);
    TermLacks(CommandTerms[9], 0, BankChars, BlueBank);
    TermLacks(CommandTerms[10], 0, BankChars, BlueBank);
    TermLacks(CommandTerms[11], 2, BankChars, BlueBank);
    NoneContained(CommandTerms, BlueBank);
  }

  lemma PersonaQuiet()
    ensures PresentCount(PersonaTerms, BlueBank) == 0
  {
    TermLacks(PersonaTerms[0], 0, BankChars, BlueBank);
    TermLacks(PersonaTerms[1], 0, BankChars, BlueBank);
    TermLacks(PersonaTerms[2], 0, BankChars, BlueBank);
    TermLacks(PersonaTerms[3], 1, BankChars, BlueBank);
    TermLacks(PersonaTerms[4], 0, BankChars, BlueBank);
    TermLacks(PersonaTerms[5], 1, BankChars, BlueBank);
    TermLacks(PersonaTerms[6], 0, BankChars, BlueBank);
    TermLacks(PersonaTerms[7], 0, BankChars, BlueBank);
    NoneContained(PersonaTerms, BlueBank);
  }

  lemma LanguageQuiet()
    ensures PresentCount(LanguageTerms, BlueBank) == 0
  {
    TermLacks(LanguageTerms[0], 0, BankChars, BlueBank);
    TermLacks(LanguageTerms[1], 2, BankChars, BlueBank);
    TermLacks(LanguageTerms[2], 0, BankChars, BlueBank);
    TermLacks(LanguageTerms[3], 0, BankChars, BlueBank);
    TermLacks(LanguageTerms[4], 0, BankChars, BlueBank);
    TermLacks(LanguageTerms[5], 0, BankChars, BlueBank);
    NoneContained(LanguageTerms, BlueBank);
  }

}
