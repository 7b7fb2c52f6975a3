/** The fragment of JavaScript regular expressions that the gate's pattern
    tables use: literal text, bracketed classes and the `\d`/`\s`/`.`
    escapes, `*` over a class, concatenation, alternation, bounded
    repetition (expanded by `Repeat`) and `\b`.  A regex is read as the set
    of end positions it can reach from a start position; `RegExp.test`
    succeeds when some start position reaches some end. */
module Regex {
  import opened Text

  /** One member of a bracketed class. */
  datatype ClassItem = One(c: char) | Span(lo: char, hi: char) | Digits | Spaces

  /** A class `[...]`, or `.` (any character but a line terminator). */
  datatype Class = Items(items: seq<ClassItem>) | Dot

  datatype Regex =
    | Eps                         // the empty regex
    | Str(w: string)              // literal text
    | Cls(c: Class)               // exactly one character of a class
    | Star(c: Class)              // zero or more characters of a class
    | Cat(a: Regex, b: Regex)     // a then b
    | Alt(a: Regex, b: Regex)     // a | b
    | Boundary                    // \b

  /** A regex literal with its `i` flag. */
  datatype Pattern = Pattern(re: Regex, ignoreCase: bool)

  predicate ItemHas(item: ClassItem, c: char) {
    match item
    case One(d) => c == d
    case Span(lo, hi) => lo <= c <= hi
    case Digits => IsDigit(c)
    case Spaces => IsSpace(c)
  }

  /** Membership in a class; under `/i` a character also matches through its
      other case. */
  predicate ClassHas(cl: Class, c: char, ignoreCase: bool) {
    match cl
    case Dot => !IsLineTerminator(c)
    case Items(items) =>
      exists k | 0 <= k < |items| ::
        ItemHas(items[k], c) || (ignoreCase && (ItemHas(items[k], Lower(c)) || ItemHas(items[k], Upper(c))))
  }

  /** Is there a word boundary between positions i-1 and i? */
  predicate AtBoundary(s: string, i: int)
    requires 0 <= i <= |s|
  {
    (i > 0 && IsWordChar(s[i - 1])) != (i < |s| && IsWordChar(s[i]))
  }

  /** Every character of s[i..j] lies in the class. */
  predicate AllIn(cl: Class, s: string, i: int, j: int, ignoreCase: bool)
    requires 0 <= i <= j <= |s|
  {
    forall k | i <= k < j :: ClassHas(cl, s[k], ignoreCase)
  }

  /** The positions at which a match of `r` starting at `i` can end. */
  function Ends(r: Regex, s: string, i: int, ignoreCase: bool): (ends: set<int>)
    requires 0 <= i <= |s|
    ensures forall j | j in ends :: i <= j <= |s|
    decreases r
  {
    match r
    case Eps => {i}
    case Str(w) => if StartsWith(s[i..], w, ignoreCase) then {i + |w|} else {}
    case Cls(cl) => if i < |s| && ClassHas(cl, s[i], ignoreCase) then {i + 1} else {}
    case Star(cl) => set j | i <= j <= |s| && AllIn(cl, s, i, j, ignoreCase)
    case Cat(a, b) =>
      var left := Ends(a, s, i, ignoreCase);
      set j, k | j in left && k in Ends(b, s, j, ignoreCase) :: k
    case Alt(a, b) => Ends(a, s, i, ignoreCase) + Ends(b, s, i, ignoreCase)
    case Boundary => if AtBoundary(s, i) then {i} else {}
  }

  /** `r` has a match starting at `i`. */
  predicate MatchesAt(r: Regex, s: string, i: int, ignoreCase: bool)
    requires 0 <= i <= |s|
  {
    Ends(r, s, i, ignoreCase) != {}
  }

  /** `pattern.test(s)`. */
  predicate Test(p: Pattern, s: string) {
    exists i | 0 <= i <= |s| :: MatchesAt(p.re, s, i, p.ignoreCase)
  }

  /** Some pattern of the list matches: `patterns.some((p) => p.test(s))`. */
  predicate AnyTest(ps: seq<Pattern>, s: string) {
    exists k | 0 <= k < |ps| :: Test(ps[k], s)
  }

  // ----- builders used to write the pattern tables -----

  /** `w1|w2|...` */
  function AnyOf(ws: seq<string>): Regex
    decreases |ws|
  {
    if ws == [] then Alt(Eps, Eps)   // never used with an empty list
    else if |ws| == 1 then Str(ws[0])
    else Alt(Str(ws[0]), AnyOf(ws[1..]))
  }

  /** `r1 r2 ...` */
  function Seq(rs: seq<Regex>): Regex
    decreases |rs|
  {
    if rs == [] then Eps
    else if |rs| == 1 then rs[0]
    else Cat(rs[0], Seq(rs[1..]))
  }

  /** `[abc]` */
  function Chars(cs: string): Class {
    Items(seq(|cs|, k requires 0 <= k < |cs| => One(cs[k])))
  }

  /** `[abc]`, as a one-character regex. */
  function OneOf(cs: string): Regex {
    Cls(Chars(cs))
  }

  /** `a\s*b\s*c`: the letters of w with any white space between them. */
  function Spaced(w: string): Regex
    decreases |w|
  {
    if |w| <= 1 then Str(w)
    else Cat(Str(w[..1]), Cat(Star(Items([Spaces])), Spaced(w[1..])))
  }

  /** `r{lo,hi}` */
  function Repeat(r: Regex, lo: nat, hi: nat): Regex
    requires lo <= hi
    decreases hi
  {
    if hi == 0 then Eps
    else if lo > 0 then Cat(r, Repeat(r, lo - 1, hi - 1))
    else Alt(Eps, Cat(r, Repeat(r, 0, hi - 1)))
  }

  // ----- facts about the matcher -----

  /** A literal matches exactly where the text starts with it. */
  lemma StrMatch(w: string, s: string, i: int, ignoreCase: bool)
    requires 0 <= i <= |s|
    ensures MatchesAt(Str(w), s, i, ignoreCase) <==> StartsWith(s[i..], w, ignoreCase)
  {
  }

  /** If a literal matches, every character of the literal shows up in the
      text, up to case. */
  lemma {:induction false} TestStrHasChars(w: string, s: string, ignoreCase: bool, k: int)
    requires Test(Pattern(Str(w), ignoreCase), s)
    requires 0 <= k < |w|
    ensures exists j | 0 <= j < |s| :: SameLetter(s[j], w[k], ignoreCase)
  {
    var i :| 0 <= i <= |s| && MatchesAt(Str(w), s, i, ignoreCase);
    assert StartsWith(s[i..], w, ignoreCase);
    assert SameLetter(s[i + k], w[k], ignoreCase);
  }

  /** An alternation of literals matches exactly when one of them does. */
  lemma {:induction false} AnyOfMatch(ws: seq<string>, s: string, i: int, ignoreCase: bool)
    requires |ws| > 0 && 0 <= i <= |s|
    ensures MatchesAt(AnyOf(ws), s, i, ignoreCase) <==>
              exists k | 0 <= k < |ws| :: StartsWith(s[i..], ws[k], ignoreCase)
    decreases |ws|
  {
    if |ws| > 1 {
      AnyOfMatch(ws[1..], s, i, ignoreCase);
      assert (exists k | 1 <= k < |ws| :: StartsWith(s[i..], ws[k], ignoreCase)) <==>
             (exists m | 0 <= m < |ws[1..]| :: StartsWith(s[i..], ws[1..][m], ignoreCase)) by {
        if exists k | 1 <= k < |ws| :: StartsWith(s[i..], ws[k], ignoreCase) {
          var k :| 1 <= k < |ws| && StartsWith(s[i..], ws[k], ignoreCase);
          assert ws[1..][k - 1] == ws[k];
        }
        if exists m | 0 <= m < |ws[1..]| :: StartsWith(s[i..], ws[1..][m], ignoreCase) {
          var m :| 0 <= m < |ws[1..]| && StartsWith(s[i..], ws[1..][m], ignoreCase);
          assert ws[1..][m] == ws[m + 1];
        }
      }
      var a, b := Ends(Str(ws[0]), s, i, ignoreCase), Ends(AnyOf(ws[1..]), s, i, ignoreCase);
      assert Ends(AnyOf(ws), s, i, ignoreCase) == a + b;
      assert (a + b != {}) <==> (a != {} || b != {}) by {
        if a != {} { var x :| x in a; assert x in a + b; }
        if b != {} { var x :| x in b; assert x in a + b; }
      }
    }
  }

  /** The literals of an alternation can be found by `Test` wherever they occur. */
  lemma AnyOfTest(ws: seq<string>, s: string, ignoreCase: bool, k: int, i: int)
    requires 0 <= k < |ws| && 0 <= i <= |s|
    requires StartsWith(s[i..], ws[k], ignoreCase)
    ensures Test(Pattern(AnyOf(ws), ignoreCase), s)
  {
    AnyOfMatch(ws, s, i, ignoreCase);
  }
}
