/** `normalizeText`: the canonical form in which user text is compared with
    the injection patterns.  Nine passes, applied in this order: Persian
    digits to ASCII, Arabic-Indic digits to ASCII, canonical decomposition
    (NFD), removal of the combining marks U+0300..U+036F, lower case, removal
    of zero-width characters, folding of `l` look-alikes, folding of `u`
    look-alikes, and collapsing every run of white space into one space. */
module Normalize {
  import opened Text

  // ----- the character tables -----

  predicate IsPersianDigit(c: char) { '\U{06F0}' <= c <= '\U{06F9}' }

  predicate IsArabicDigit(c: char) { '\U{0660}' <= c <= '\U{0669}' }

  /** `[\u0300-\u036f]`, the marks stripped after decomposition. */
  predicate IsMark(c: char) { '\U{0300}' <= c <= '\U{036F}' }

  /** `[\u200B-\u200D\uFEFF]` */
  predicate IsZeroWidth(c: char) {
    '\U{200B}' <= c <= '\U{200D}' || c == '\U{FEFF}'
  }

  /** `[ḷḹḻḽƚɫⱡꝉꞁｂ]`, folded to `l`. */
  predicate IsLLookalike(c: char) {
    c == 'ḷ' || c == 'ḹ' || c == 'ḻ' || c == 'ḽ' || c == 'ƚ' || c == 'ɫ' || c == 'ⱡ' || c == 'ꝉ' || c == 'ꞁ' || c == 'ｂ'
  }

  /** `[ùúûüũūŭůűųưǔǖǘǚǜȕȗṳṵṷṹṻụủứừửữựυὐὑὒὓὔὕὖὗὺύῠῡῢΰῦῧ]`, folded to `u`. */
  predicate IsULookalike(c: char) {
    c == 'ù' || c == 'ú' || c == 'û' || c == 'ü' || c == 'ũ' || c == 'ū' || c == 'ŭ' || c == 'ů'
    || c == 'ű' || c == 'ų' || c == 'ư' || c == 'ǔ' || c == 'ǖ' || c == 'ǘ' || c == 'ǚ' || c == 'ǜ'
    || c == 'ȕ' || c == 'ȗ' || c == 'ṳ' || c == 'ṵ' || c == 'ṷ' || c == 'ṹ' || c == 'ṻ' || c == 'ụ'
    || c == 'ủ' || c == 'ứ' || c == 'ừ' || c == 'ử' || c == 'ữ' || c == 'ự' || c == 'υ' || c == 'ὐ'
    || c == 'ὑ' || c == 'ὒ' || c == 'ὓ' || c == 'ὔ' || c == 'ὕ' || c == 'ὖ' || c == 'ὗ' || c == 'ὺ'
    || c == 'ύ' || c == 'ῠ' || c == 'ῡ' || c == 'ῢ' || c == 'ΰ' || c == 'ῦ' || c == 'ῧ'
  }

  /** `charCode - 1728`: U+06F0..U+06F9 onto '0'..'9'. */
  function PersianDigit(c: char): (r: char)
    ensures IsPersianDigit(c) ==> IsDigit(r) && r as int - '0' as int == c as int - 0x06F0
    ensures !IsPersianDigit(c) ==> r == c
  {
    if IsPersianDigit(c) then (c as int - 1728) as char else c
  }

  /** `charCode - 1584`: U+0660..U+0669 onto '0'..'9'. */
  function ArabicDigit(c: char): (r: char)
    ensures IsArabicDigit(c) ==> IsDigit(r) && r as int - '0' as int == c as int - 0x0660
    ensures !IsArabicDigit(c) ==> r == c
  {
    if IsArabicDigit(c) then (c as int - 1584) as char else c
  }

  function FoldL(c: char): (r: char)
    ensures !IsLLookalike(r) && (r == c || r == 'l')
    ensures IsLLookalike(c) ==> r == 'l'
    ensures !IsLLookalike(c) ==> r == c
  {
    if IsLLookalike(c) then 'l' else c
  }

  function FoldU(c: char): (r: char)
    ensures !IsULookalike(r) && (r == c || r == 'u')
    ensures IsULookalike(c) ==> r == 'u'
    ensures !IsULookalike(c) ==> r == c
  {
    if IsULookalike(c) then 'u' else c
  }

  /** The characters that have a canonical decomposition in the model: the
      look-alikes of the folding passes that decompose, the Cyrillic letters
      of the patterns, the Turkish dotted capital I, and the Arabic letters
      with madda or hamza.  Every other character is its own decomposition. */
  predicate IsDecomposable(c: char) {
    c == 'ù'
    || c == 'ú'
    || c == 'û'
    || c == 'ü'
    || c == 'İ'
    || c == 'ũ'
    || c == 'ū'
    || c == 'ŭ'
    || c == 'ů'
    || c == 'ű'
    || c == 'ų'
    || c == 'ư'
    || c == 'ǔ'
    || c == 'ǖ'
    || c == 'ǘ'
    || c == 'ǚ'
    || c == 'ǜ'
    || c == 'ȕ'
    || c == 'ȗ'
    || c == 'ΰ'
    || c == 'ύ'
    || c == 'Ё'
    || c == 'Й'
    || c == 'й'
    || c == 'ё'
    || c == 'آ'
    || c == 'أ'
    || c == 'ؤ'
    || c == 'إ'
    || c == 'ئ'
    || c == 'ۀ'
    || c == 'ۂ'
    || c == 'ۓ'
    || c == 'ḷ'
    || c == 'ḹ'
    || c == 'ḻ'
    || c == 'ḽ'
    || c == 'ṳ'
    || c == 'ṵ'
    || c == 'ṷ'
    || c == 'ṹ'
    || c == 'ṻ'
    || c == 'ụ'
    || c == 'ủ'
    || c == 'ứ'
    || c == 'ừ'
    || c == 'ử'
    || c == 'ữ'
    || c == 'ự'
    || c == 'ὐ'
    || c == 'ὑ'
    || c == 'ὒ'
    || c == 'ὓ'
    || c == 'ὔ'
    || c == 'ὕ'
    || c == 'ὖ'
    || c == 'ὗ'
    || c == 'ὺ'
    || c == 'ῠ'
    || c == 'ῡ'
    || c == 'ῢ'
    || c == 'ῦ'
    || c == 'ῧ'
  }

  /** A character a decomposition may end with: a combining mark. */
  predicate IsCombining(c: char) {
    IsMark(c) || ('\U{0653}' <= c <= '\U{0655}')
  }

  /** The canonical decomposition of one character: a base letter followed by
      its combining marks. */
  function Decomposition(c: char): (r: string)
    ensures 1 <= |r| <= 3
    ensures !IsDecomposable(c) ==> r == [c]
    ensures IsDecomposable(c) ==> 2 <= |r| && !IsCombining(r[0])
    ensures IsDecomposable(c) ==> forall i | 1 <= i < |r| :: IsCombining(r[i])
  {
    match c
    case 'ù' => "u\U{0300}"
    case 'ú' => "u\U{0301}"
    case 'û' => "u\U{0302}"
    case 'ü' => "u\U{0308}"
    case 'İ' => "I\U{0307}"
    case 'ũ' => "u\U{0303}"
    case 'ū' => "u\U{0304}"
    case 'ŭ' => "u\U{0306}"
    case 'ů' => "u\U{030A}"
    case 'ű' => "u\U{030B}"
    case 'ų' => "u\U{0328}"
    case 'ư' => "u\U{031B}"
    case 'ǔ' => "u\U{030C}"
    case 'ǖ' => "u\U{0308}\U{0304}"
    case 'ǘ' => "u\U{0308}\U{0301}"
    case 'ǚ' => "u\U{0308}\U{030C}"
    case 'ǜ' => "u\U{0308}\U{0300}"
    case 'ȕ' => "u\U{030F}"
    case 'ȗ' => "u\U{0311}"
    case 'ΰ' => "υ\U{0308}\U{0301}"
    case 'ύ' => "υ\U{0301}"
    case 'Ё' => "Е\U{0308}"
    case 'Й' => "И\U{0306}"
    case 'й' => "и\U{0306}"
    case 'ё' => "е\U{0308}"
    case 'آ' => "ا\U{0653}"
    case 'أ' => "ا\U{0654}"
    case 'ؤ' => "و\U{0654}"
    case 'إ' => "ا\U{0655}"
    case 'ئ' => "ي\U{0654}"
    case 'ۀ' => "ە\U{0654}"
    case 'ۂ' => "ہ\U{0654}"
    case 'ۓ' => "ے\U{0654}"
    case 'ḷ' => "l\U{0323}"
    case 'ḹ' => "l\U{0323}\U{0304}"
    case 'ḻ' => "l\U{0331}"
    case 'ḽ' => "l\U{032D}"
    case 'ṳ' => "u\U{0324}"
    case 'ṵ' => "u\U{0330}"
    case 'ṷ' => "u\U{032D}"
    case 'ṹ' => "u\U{0303}\U{0301}"
    case 'ṻ' => "u\U{0304}\U{0308}"
    case 'ụ' => "u\U{0323}"
    case 'ủ' => "u\U{0309}"
    case 'ứ' => "u\U{031B}\U{0301}"
    case 'ừ' => "u\U{031B}\U{0300}"
    case 'ử' => "u\U{031B}\U{0309}"
    case 'ữ' => "u\U{031B}\U{0303}"
    case 'ự' => "u\U{031B}\U{0323}"
    case 'ὐ' => "υ\U{0313}"
    case 'ὑ' => "υ\U{0314}"
    case 'ὒ' => "υ\U{0313}\U{0300}"
    case 'ὓ' => "υ\U{0314}\U{0300}"
    case 'ὔ' => "υ\U{0313}\U{0301}"
    case 'ὕ' => "υ\U{0314}\U{0301}"
    case 'ὖ' => "υ\U{0313}\U{0342}"
    case 'ὗ' => "υ\U{0314}\U{0342}"
    case 'ὺ' => "υ\U{0300}"
    case 'ῠ' => "υ\U{0306}"
    case 'ῡ' => "υ\U{0304}"
    case 'ῢ' => "υ\U{0308}\U{0300}"
    case 'ῦ' => "υ\U{0342}"
    case 'ῧ' => "υ\U{0308}\U{0342}"
    case _ => [c]
  }

  // ----- the passes -----

  /** A character-by-character `replace`. */
  function MapChars(s: string, f: char -> char): (r: string)
    ensures |r| == |s|
    ensures forall i | 0 <= i < |s| :: r[i] == f(s[i])
  {
    seq(|s|, i requires 0 <= i < |s| => f(s[i]))
  }

  /** `replace(/[...]/g, '')`: the characters that satisfy `keep`, in order. */
  function Keep(s: string, keep: char -> bool): (r: string)
    ensures |r| <= |s|
    decreases |s|
  {
    if s == [] then []
    else (if keep(s[0]) then [s[0]] else []) + Keep(s[1..], keep)
  }

  /** Every character replaced by the string `f` gives for it, in order. */
  function FlatMap(s: string, f: char -> string): string
    decreases |s|
  {
    if s == [] then [] else f(s[0]) + FlatMap(s[1..], f)
  }

  /** `normalize('NFD')` */
  function Decompose(s: string): string {
    FlatMap(s, Decomposition)
  }

  /** Drops the white space at the front of `s`. */
  function SkipSpaces(s: string): (r: string)
    ensures |r| <= |s| && r == s[|s| - |r|..]
    ensures r == [] || !IsSpace(r[0])
    ensures s != [] && IsSpace(s[0]) ==> |r| < |s|
    decreases |s|
  {
    if s != [] && IsSpace(s[0]) then SkipSpaces(s[1..]) else s
  }

  /** Positions i-1 and i both hold white space. */
  predicate SpacePairAt(s: string, i: int)
    requires 0 < i < |s|
  {
    IsSpace(s[i - 1]) && IsSpace(s[i])
  }

  /** The characters of `s` that are not white space, in order. */
  function Solid(s: string): string {
    Keep(s, c => !IsSpace(c))
  }

  /** Dropping leading white space keeps the solid characters. */
  lemma {:induction false} SkipSpacesSolid(s: string)
    ensures Solid(SkipSpaces(s)) == Solid(s)
    decreases |s|
  {
    if s != [] && IsSpace(s[0]) {
      SkipSpacesSolid(s[1..]);
    }
  }

  /** `replace(/\s+/g, ' ')`: every run of white space becomes one ' ', and
      the other characters are kept, in order. */
  function Collapse(s: string): (r: string)
    ensures (r == []) <==> (s == [])
    ensures s != [] && !IsSpace(s[0]) ==> r[0] == s[0]
    ensures s != [] && IsSpace(s[0]) ==> r[0] == ' '
    ensures Solid(r) == Solid(s)
    ensures forall i | 0 <= i < |r| :: IsSpace(r[i]) ==> r[i] == ' '
    ensures forall i | 0 < i < |r| :: !SpacePairAt(r, i)
    decreases |s|
  {
    if s == [] then []
    else if IsSpace(s[0]) then
      var rest := Collapse(SkipSpaces(s));
      NoSpacePairCons(' ', rest);
      SkipSpacesSolid(s);
      assert ([' '] + rest)[1..] == rest;
      [' '] + rest
    else
      var rest := Collapse(s[1..]);
      NoSpacePairCons(s[0], rest);
      assert ([s[0]] + rest)[1..] == rest;
      [s[0]] + rest
  }

  /** Putting c in front of a text without adjacent white space keeps it so,
      unless c and the first character are both white space. */
  lemma NoSpacePairCons(c: char, rest: string)
    requires forall i | 0 < i < |rest| :: !SpacePairAt(rest, i)
    requires rest == [] || !IsSpace(c) || !IsSpace(rest[0])
    ensures forall i | 0 < i < |[c] + rest| :: !SpacePairAt([c] + rest, i)
  {
    forall i | 0 < i < |[c] + rest| ensures !SpacePairAt([c] + rest, i) {
      if i > 1 {
        assert !SpacePairAt(rest, i - 1);
      }
    }
  }

  function StripMarks(s: string): string { Keep(s, c => !IsMark(c)) }

  function RemoveZeroWidth(s: string): string { Keep(s, c => !IsZeroWidth(c)) }

  /** The two digit passes. */
  function ConvertDigits(s: string): string {
    MapChars(MapChars(s, PersianDigit), ArabicDigit)
  }

  /** `normalize('NFD').replace(/[\u0300-\u036f]/g, '')` */
  function StripDiacritics(s: string): string {
    StripMarks(Decompose(s))
  }

  /** The two look-alike passes. */
  function FoldLookalikes(s: string): string {
    MapChars(MapChars(s, FoldL), FoldU)
  }

  /** Every pass but the last, each of which works character by character. */
  function CharPasses(s: string): string {
    FoldLookalikes(RemoveZeroWidth(LowerAll(StripDiacritics(ConvertDigits(s)))))
  }

  /** `normalizeText(text)` */
  function NormalizeText(s: string): string {
    Collapse(CharPasses(s))
  }

  // ----- the character passes work piece by piece -----

  lemma {:induction false} KeepAppend(a: string, b: string, keep: char -> bool)
    ensures Keep(a + b, keep) == Keep(a, keep) + Keep(b, keep)
    decreases |a|
  {
    if a == [] {
      assert a + b == b;
    } else {
      KeepAppend(a[1..], b, keep);
      var h := if keep(a[0]) then [a[0]] else [];
      assert (a + b)[0] == a[0] && (a + b)[1..] == a[1..] + b;
      calc {
        Keep(a + b, keep);
        h + Keep(a[1..] + b, keep);
        h + (Keep(a[1..], keep) + Keep(b, keep));
        (h + Keep(a[1..], keep)) + Keep(b, keep);
      }
    }
  }

  lemma {:induction false} FlatMapAppend(a: string, b: string, f: char -> string)
    ensures FlatMap(a + b, f) == FlatMap(a, f) + FlatMap(b, f)
    decreases |a|
  {
    if a == [] {
      assert a + b == b;
    } else {
      FlatMapAppend(a[1..], b, f);
      assert (a + b)[0] == a[0] && (a + b)[1..] == a[1..] + b;
    }
  }

  lemma MapCharsAppend(a: string, b: string, f: char -> char)
    ensures MapChars(a + b, f) == MapChars(a, f) + MapChars(b, f)
  {
    assert forall i | 0 <= i < |a + b| :: (a + b)[i] == if i < |a| then a[i] else b[i - |a|];
  }

  lemma LowerAllAppend(a: string, b: string)
    ensures LowerAll(a + b) == LowerAll(a) + LowerAll(b)
  {
    assert forall i | 0 <= i < |a + b| :: (a + b)[i] == if i < |a| then a[i] else b[i - |a|];
  }

  lemma ConvertDigitsAppend(a: string, b: string)
    ensures ConvertDigits(a + b) == ConvertDigits(a) + ConvertDigits(b)
  {
    MapCharsAppend(a, b, PersianDigit);
    MapCharsAppend(MapChars(a, PersianDigit), MapChars(b, PersianDigit), ArabicDigit);
  }

  lemma StripDiacriticsAppend(a: string, b: string)
    ensures StripDiacritics(a + b) == StripDiacritics(a) + StripDiacritics(b)
  {
    FlatMapAppend(a, b, Decomposition);
    KeepAppend(Decompose(a), Decompose(b), c => !IsMark(c));
  }

  lemma FoldLookalikesAppend(a: string, b: string)
    ensures FoldLookalikes(a + b) == FoldLookalikes(a) + FoldLookalikes(b)
  {
    MapCharsAppend(a, b, FoldL);
    MapCharsAppend(MapChars(a, FoldL), MapChars(b, FoldL), FoldU);
  }

  /** The passes before the white-space collapse map a concatenation to the
      concatenation of their results. */
  lemma CharPassesAppend(a: string, b: string)
    ensures CharPasses(a + b) == CharPasses(a) + CharPasses(b)
  {
    ConvertDigitsAppend(a, b);
    var ca, cb := ConvertDigits(a), ConvertDigits(b);
    StripDiacriticsAppend(ca, cb);
    var sa, sb := StripDiacritics(ca), StripDiacritics(cb);
    LowerAllAppend(sa, sb);
    KeepAppend(LowerAll(sa), LowerAll(sb), c => !IsZeroWidth(c));
    FoldLookalikesAppend(RemoveZeroWidth(LowerAll(sa)), RemoveZeroWidth(LowerAll(sb)));
  }

  // ----- the normal form -----

  /** What each pass removes, accumulated pass by pass. */
  predicate DigitsDone(c: char) { !IsPersianDigit(c) && !IsArabicDigit(c) }
  predicate Decomposed(c: char) { DigitsDone(c) && !IsDecomposable(c) }
  predicate Stripped(c: char) { Decomposed(c) && !IsMark(c) }
  predicate Lowered(c: char) { Stripped(c) && !IsUpper(c) }
  predicate Visible(c: char) { Lowered(c) && !IsZeroWidth(c) }
  predicate Folded(c: char) { Visible(c) && !IsLLookalike(c) && !IsULookalike(c) }
  predicate Clean(c: char) { Folded(c) && (IsSpace(c) ==> c == ' ') }

  /** Text in normal form: every character clean, and no two white-space
      characters next to each other. */
  predicate Normalized(s: string) {
    (forall i | 0 <= i < |s| :: Clean(s[i]))
    && (forall i | 0 < i < |s| :: !SpacePairAt(s, i))
  }

  /** The properties of the character tables the normal form rests on: a
      decomposition is itself fully decomposed and holds no digit to convert
      and no zero-width character, and lower-casing a character that does
      not decompose never yields one that does.  The model's tables are
      proved to have them (ModelTablesClosed); idempotence of the real
      function depends on the Unicode tables having them too. */
  predicate TablesClosed() {
    DecompositionsClosed() && LowerCaseClosed()
  }

  predicate DecompositionsClosed() {
    forall k | IsDecomposable(k) :: forall c | c in Decomposition(k) ::
      !IsDecomposable(c) && DigitsDone(c) && !IsZeroWidth(c)
  }

  /** The characters decompositions are made of: base letters and marks. */
  predicate IsBaseOrMark(c: char) {
    IsCombining(c)
    || c == 'u' || c == 'l' || c == 'I' || c == '\U{03C5}'
    || c == '\U{0415}' || c == '\U{0418}' || c == '\U{0435}' || c == '\U{0438}'
    || c == '\U{0627}' || c == '\U{0648}' || c == '\U{064A}' || c == '\U{06D5}'
    || c == '\U{06C1}' || c == '\U{06D2}'
  }

  predicate LowerCaseClosed() {
    forall k | IsDecomposable(k) && IsLower(k) :: IsDecomposable(Upper(k))
  }

  lemma ModelTablesClosed()
    ensures TablesClosed()
  {
    ModelDecompositionsClosed();
    ModelLowerCaseClosed();
  }

  lemma ModelDecompositionsClosed()
    ensures DecompositionsClosed()
  {
    DecompositionParts();
    PartsDone();
  }

  lemma DecompositionParts()
    ensures forall k | IsDecomposable(k) :: forall c | c in Decomposition(k) :: IsBaseOrMark(c)
  {
  }

  lemma PartsDone()
    ensures forall c | IsBaseOrMark(c) :: !IsDecomposable(c) && DigitsDone(c) && !IsZeroWidth(c)
  {
  }

  lemma ModelLowerCaseClosed()
    ensures LowerCaseClosed()
  {
  }

  // ----- each pass establishes its part of the normal form -----

  lemma DecompositionOf(c: char)
    ensures !IsDecomposable(c) ==> Decomposition(c) == [c]
    ensures TablesClosed() && DigitsDone(c) ==> forall d | d in Decomposition(c) :: Decomposed(d)
  {
  }

  lemma {:induction false} DecomposeDone(s: string)
    requires TablesClosed()
    requires forall c | c in s :: DigitsDone(c)
    ensures forall c | c in Decompose(s) :: Decomposed(c)
    decreases |s|
  {
    if s != [] {
      DecomposeDone(s[1..]);
      DecompositionOf(s[0]);
      assert Decompose(s) == Decomposition(s[0]) + Decompose(s[1..]);
      forall c | c in Decompose(s) ensures Decomposed(c) {
        if c !in Decomposition(s[0]) {
          assert c in Decompose(s[1..]);
        }
      }
    }
  }

  lemma LowerKeepsStripped(c: char)
    requires TablesClosed() && Stripped(c)
    ensures Lowered(Lower(c))
  {
    if IsUpper(c) {
      var k := Lower(c);
      assert Upper(k) == c;
    }
  }

  lemma StripDiacriticsDone(t: string)
    requires TablesClosed()
    requires forall c | c in t :: DigitsDone(c)
    ensures forall c | c in StripDiacritics(t) :: Stripped(c)
  {
    DecomposeDone(t);
    KeepChars(Decompose(t), c => !IsMark(c));
  }

  /** Filtering keeps only characters of `s` that pass the test. */
  lemma {:induction false} KeepChars(s: string, keep: char -> bool)
    ensures forall c | c in Keep(s, keep) :: c in s && keep(c)
    decreases |s|
  {
    if s != [] {
      KeepChars(s[1..], keep);
    }
  }

  lemma LowerDone(t: string)
    requires TablesClosed()
    requires forall c | c in t :: Stripped(c)
    ensures forall i | 0 <= i < |LowerAll(t)| :: Lowered(LowerAll(t)[i])
  {
    forall i | 0 <= i < |t| ensures Lowered(LowerAll(t)[i]) {
      assert t[i] in t;
      LowerKeepsStripped(t[i]);
    }
  }

  /** The characters the folding and collapsing passes write are clean. */
  lemma WrittenCharsClean()
    ensures Clean('l') && Clean('u') && Clean(' ')
  {
  }

  lemma FoldChar(c: char)
    requires Visible(c)
    ensures Folded(FoldU(FoldL(c)))
  {
    WrittenCharsClean();
    if IsLLookalike(c) {
      assert FoldU(FoldL(c)) == 'l';
    } else if IsULookalike(c) {
      assert FoldU(FoldL(c)) == 'u';
    } else {
      assert FoldU(FoldL(c)) == c;
    }
  }

  lemma FoldDone(t: string)
    requires forall i | 0 <= i < |t| :: Lowered(t[i])
    ensures forall i | 0 <= i < |FoldLookalikes(RemoveZeroWidth(t))| :: Folded(FoldLookalikes(RemoveZeroWidth(t))[i])
  {
    var z := RemoveZeroWidth(t);
    KeepChars(t, c => !IsZeroWidth(c));
    forall i | 0 <= i < |z| ensures Folded(FoldLookalikes(z)[i]) {
      assert z[i] in z;
      var j :| 0 <= j < |t| && t[j] == z[i];
      assert Visible(z[i]);
      FoldChar(z[i]);
      assert FoldLookalikes(z)[i] == FoldU(FoldL(z[i]));
    }
  }

  /** Collapsing writes single spaces and keeps the other characters. */
  lemma {:induction false} CollapseChars(s: string)
    ensures forall c | c in Collapse(s) :: c == ' ' || (c in s && !IsSpace(c))
    decreases |s|
  {
    if s != [] {
      if IsSpace(s[0]) {
        var rest := SkipSpaces(s);
        CollapseChars(rest);
        forall c | c in rest ensures c in s {
          var k :| 0 <= k < |rest| && rest[k] == c;
          assert s[|s| - |rest| + k] == c;
        }
      } else {
        CollapseChars(s[1..]);
      }
    }
  }

  lemma CollapseDone(t: string)
    requires forall i | 0 <= i < |t| :: Folded(t[i])
    ensures Normalized(Collapse(t))
  {
    var r := Collapse(t);
    CollapseChars(t);
    WrittenCharsClean();
    forall i | 0 <= i < |r| ensures Clean(r[i]) {
      assert r[i] in r;
      if r[i] != ' ' {
        assert r[i] in t && !IsSpace(r[i]);
        var j :| 0 <= j < |t| && t[j] == r[i];
        assert Folded(t[j]);
      }
    }
  }

  /** The output of `normalizeText` is in normal form. */
  lemma NormalizedOutput(s: string)
    ensures Normalized(NormalizeText(s))
  {
    ModelTablesClosed();
    NormalizeTextNormalized(s);
  }

  /** With closed tables, every pass removes what it is meant to remove and
      no later pass brings it back. */
  lemma {:induction false} NormalizeTextNormalized(s: string)
    requires TablesClosed()
    ensures Normalized(NormalizeText(s))
  {
    var t := ConvertDigits(s);
    assert forall c | c in t :: DigitsDone(c);
    StripDiacriticsDone(t);
    LowerDone(StripDiacritics(t));
    FoldDone(LowerAll(StripDiacritics(t)));
    CollapseDone(FoldLookalikes(RemoveZeroWidth(LowerAll(StripDiacritics(t)))));
  }

  // ----- the normal form is a fixed point -----

  lemma {:induction false} KeepAll(s: string, keep: char -> bool)
    requires forall i | 0 <= i < |s| :: keep(s[i])
    ensures Keep(s, keep) == s
    decreases |s|
  {
    if s != [] {
      KeepAll(s[1..], keep);
    }
  }

  lemma {:induction false} DecomposeNone(s: string)
    requires forall i | 0 <= i < |s| :: !IsDecomposable(s[i])
    ensures Decompose(s) == s
    decreases |s|
  {
    if s != [] {
      DecompositionOf(s[0]);
      DecomposeNone(s[1..]);
    }
  }

  /** White space in `s` is a lone ' ' wherever it occurs. */
  predicate SpacesSingle(s: string) {
    (forall i | 0 <= i < |s| :: IsSpace(s[i]) ==> s[i] == ' ')
    && (forall i | 0 < i < |s| :: !SpacePairAt(s, i))
  }

  lemma SpacesSingleTail(s: string)
    requires s != [] && SpacesSingle(s)
    ensures SpacesSingle(s[1..])
    ensures IsSpace(s[0]) ==> s[0] == ' ' && (|s| == 1 || !IsSpace(s[1]))
  {
    var t := s[1..];
    forall i | 0 < i < |t| ensures !SpacePairAt(t, i) {
      assert !SpacePairAt(s, i + 1);
    }
    if |s| > 1 {
      assert !SpacePairAt(s, 1);
    }
  }

  lemma {:induction false} CollapseNone(s: string)
    requires SpacesSingle(s)
    ensures Collapse(s) == s
    decreases |s|
  {
    if s != [] {
      var t := s[1..];
      SpacesSingleTail(s);
      CollapseNone(t);
      if IsSpace(s[0]) {
        assert SkipSpaces(s) == SkipSpaces(t);
        assert SkipSpaces(t) == t by {
          if t != [] { assert !IsSpace(t[0]); }
        }
      }
      assert s == [s[0]] + t;
    }
  }

  /** Every pass leaves text in normal form unchanged. */
  lemma NormalizedFixed(s: string)
    requires Normalized(s)
    ensures NormalizeText(s) == s
  {
    assert MapChars(s, PersianDigit) == s;
    assert ConvertDigits(s) == s;
    DecomposeNone(s);
    KeepAll(s, c => !IsMark(c));
    assert LowerAll(s) == s;
    KeepAll(s, c => !IsZeroWidth(c));
    assert MapChars(s, FoldL) == s;
    assert FoldLookalikes(s) == s;
    CollapseNone(s);
  }

  /** `normalizeText` is idempotent, given closed character tables. */
  lemma NormalizeIdempotent(s: string)
    requires TablesClosed()
    ensures NormalizeText(NormalizeText(s)) == NormalizeText(s)
  {
    NormalizeTextNormalized(s);
    NormalizedFixed(NormalizeText(s));
  }

  /** An ASCII digit is already in normal form. */
  lemma DigitClean(c: char)
    requires IsDigit(c)
    ensures Clean(c)
  {
  }

  /** A string of ASCII digits is in normal form. */
  lemma DigitsNormalized(d: string)
    requires forall i | 0 <= i < |d| :: IsDigit(d[i])
    ensures Normalized(d)
  {
    forall i | 0 <= i < |d| ensures Clean(d[i]) {
      DigitClean(d[i]);
    }
  }

  /** A run of Persian digits normalizes to the ASCII digits of the same
      values. */
  lemma PersianDigitsNormalized(s: string)
    requires forall i | 0 <= i < |s| :: IsPersianDigit(s[i])
    ensures NormalizeText(s) == MapChars(s, PersianDigit)
    ensures forall i | 0 <= i < |s| :: IsDigit(NormalizeText(s)[i])
  {
    var d := MapChars(s, PersianDigit);
    assert MapChars(d, ArabicDigit) == d;
    assert MapChars(d, PersianDigit) == d;
    assert ConvertDigits(s) == ConvertDigits(d);
    DigitsNormalized(d);
    NormalizedFixed(d);
  }

  /** "۱۲۳" normalizes to "123". */
  lemma PersianDigitsExample()
    ensures NormalizeText("\U{06F1}\U{06F2}\U{06F3}") == "123"
  {
    DigitsExampleValues();
    PersianDigitsTo("\U{06F1}\U{06F2}\U{06F3}", "123");
  }

  lemma DigitsExampleValues()
    ensures forall i | 0 <= i < 3 :: IsPersianDigit("\U{06F1}\U{06F2}\U{06F3}"[i])
    ensures MapChars("\U{06F1}\U{06F2}\U{06F3}", PersianDigit) == "123"
  {
    var s := "\U{06F1}\U{06F2}\U{06F3}";
    var d := MapChars(s, PersianDigit);
    assert |d| == 3;
    assert d[0] == PersianDigit(s[0]) == '1';
    assert d[1] == PersianDigit(s[1]) == '2';
    assert d[2] == PersianDigit(s[2]) == '3';
  }

  /** A run of Persian digits normalizes to the ASCII digits `d` it maps to. */
  lemma PersianDigitsTo(s: string, d: string)
    requires forall i | 0 <= i < |s| :: IsPersianDigit(s[i])
    requires MapChars(s, PersianDigit) == d
    ensures NormalizeText(s) == d
  {
    PersianDigitsNormalized(s);
  }
}
