/** The two checks that look at the raw text of the latest user message
    before any pattern is tried: the Latin-letter ratio
    (`containsNonPersianLanguage`) and the spaced-out keyword detector
    (`detectTokenSplitting`). */
module Language {
  import opened Text
  import opened Regex
  import opened Patterns

  // ----- containsNonPersianLanguage -----

  /** The words `\b(PIN|ATM|OTP|SMS|USSD)\b` accepts. */
  const TechnicalTerms: seq<string> := ["PIN", "ATM", "OTP", "SMS", "USSD"]

  /** Length of the run of `\w` characters at the front of `s`. */
  function WordRun(s: string): (n: nat)
    ensures n <= |s|
    ensures forall i | 0 <= i < n :: IsWordChar(s[i])
    ensures n < |s| ==> !IsWordChar(s[n])
    decreases |s|
  {
    if s != [] && IsWordChar(s[0]) then 1 + WordRun(s[1..]) else 0
  }

  /** `content.match(/\b(PIN|ATM|OTP|SMS|USSD)\b/g).join('').length`.  Both
      `\b`s force a match to be a whole maximal run of `\w` characters, so the
      global scan sums the lengths of the runs that are technical terms. */
  function TechnicalLength(s: string): (n: nat)
    decreases |s|
  {
    if s == [] then 0
    else if IsWordChar(s[0]) then TermLength(s[..WordRun(s)]) + TechnicalLength(s[WordRun(s)..])
    else TechnicalLength(s[1..])
  }

  /** The length a whole word contributes: all of it when it is a technical term. */
  function TermLength(w: string): nat {
    if w in TechnicalTerms then |w| else 0
  }

  /** `containsNonPersianLanguage(content)`: some Latin letters, and after the
      technical terms are discounted more than 20% of the text is Latin. */
  predicate ContainsNonPersianLanguage(content: string) {
    LatinCount(content) > 0 &&
    ((LatinCount(content) - TechnicalLength(content)) as real) / (|content| as real) > 0.2
  }

  /** The technical terms are made of Latin letters, so discounting them never
      takes the count below zero. */
  lemma {:induction false} TechnicalWithinLatin(s: string)
    ensures TechnicalLength(s) <= LatinCount(s)
    decreases |s|
  {
    if s != [] {
      if IsWordChar(s[0]) {
        var n := WordRun(s);
        assert s == s[..n] + s[n..];
        LatinCountAppend(s[..n], s[n..]);
        TechnicalWithinLatin(s[n..]);
        if s[..n] in TechnicalTerms {
          forall i | 0 <= i < n ensures IsLatin(s[..n][i]) {
            var k :| 0 <= k < |TechnicalTerms| && TechnicalTerms[k] == s[..n];
            assert IsLatin(TechnicalTerms[k][i]);
          }
          LatinCountAllLatin(s[..n]);
        }
      } else {
        assert s == [s[0]] + s[1..];
        LatinCountAppend([s[0]], s[1..]);
        TechnicalWithinLatin(s[1..]);
      }
    }
  }

  /** The ratio test is the integer test `5 * adjusted > length`; in
      particular a text without Latin letters is never flagged. */
  lemma NonPersianIff(s: string)
    ensures ContainsNonPersianLanguage(s) <==> 5 * (LatinCount(s) - TechnicalLength(s)) > |s|
  {
    TechnicalWithinLatin(s);
    RatioTest(LatinCount(s), TechnicalLength(s), |s|);
  }

  /** The whole test on counts: a positive Latin count with an adjusted
      ratio above 0.2. */
  lemma RatioTest(latin: int, technical: int, n: int)
    requires 0 <= technical <= latin <= n
    ensures (latin > 0 && ((latin - technical) as real) / (n as real) > 0.2) <==> 5 * (latin - technical) > n
  {
    if latin > 0 {
      RatioAboveFifth(latin - technical, n);
    }
  }

  /** `a / n > 0.2` in real arithmetic is `5 * a > n` for a positive n. */
  lemma RatioAboveFifth(a: int, n: int)
    requires n > 0
    ensures (a as real) / (n as real) > 0.2 <==> 5 * a > n
  {
    var x, y := a as real, n as real;
    assert (0.2 * y) / y == 0.2;
    assert (x - 0.2 * y) / y == x / y - (0.2 * y) / y;
    QuotientSign(x - 0.2 * y, y);
  }

  lemma QuotientSign(x: real, y: real)
    requires y > 0.0
    ensures x / y > 0.0 <==> x > 0.0
  {
    if x / y > 0.0 {
      assert x == (x / y) * y;
    }
  }

  // ----- detectTokenSplitting -----

  /** `detectTokenSplitting(content)` */
  predicate DetectTokenSplitting(content: string) {
    AnyTest(TokenSplitPatterns, content)
  }

  /** `Spaced(w)` matches w's letters with any run of white space after each
      letter but the last. */
  lemma {:induction false} SpacedStep(w: string, s: string, i: int, j: int, ignoreCase: bool)
    requires |w| >= 2 && 0 <= i < j <= |s|
    requires SameLetter(s[i], w[0], ignoreCase)
    requires forall k | i < k < j :: IsSpace(s[k])
    requires MatchesAt(Spaced(w[1..]), s, j, ignoreCase)
    ensures MatchesAt(Spaced(w), s, i, ignoreCase)
  {
    var head := Str(w[..1]);
    var gap := Star(Items([Spaces]));
    var tail := Spaced(w[1..]);
    assert StartsWith(s[i..], w[..1], ignoreCase);
    assert i + 1 in Ends(head, s, i, ignoreCase);
    assert AllIn(gap.c, s, i + 1, j, ignoreCase) by {
      forall k | i + 1 <= k < j ensures ClassHas(gap.c, s[k], ignoreCase) {
        assert ItemHas(gap.c.items[0], s[k]);
      }
    }
    assert j in Ends(gap, s, i + 1, ignoreCase);
    var e :| e in Ends(tail, s, j, ignoreCase);
    assert e in Ends(Cat(gap, tail), s, i + 1, ignoreCase);
    assert e in Ends(Cat(head, Cat(gap, tail)), s, i, ignoreCase);
  }

  /** `Spaced(w)` matches w itself, written without gaps. */
  lemma {:induction false} SpacedMatchesWord(w: string, s: string, i: int, ignoreCase: bool)
    requires 0 <= i <= |s| && StartsWith(s[i..], w, ignoreCase)
    ensures MatchesAt(Spaced(w), s, i, ignoreCase)
    decreases |w|
  {
    if |w| >= 2 {
      assert StartsWith(s[i + 1..], w[1..], ignoreCase) by {
        forall k | 0 <= k < |w[1..]| ensures SameLetter(s[i + 1..][k], w[1..][k], ignoreCase) {
          assert s[i + 1..][k] == s[i..][k + 1];
        }
      }
      SpacedMatchesWord(w[1..], s, i + 1, ignoreCase);
      assert SameLetter(s[i..][0], w[0], ignoreCase);
      SpacedStep(w, s, i, i + 1, ignoreCase);
    }
  }

  /** A message that contains any of the split words, in any case, is
      flagged as a filter bypass. */
  lemma SplitWordDetected(s: string, k: int, i: int)
    requires 0 <= k < |SplitWords| && 0 <= i <= |s|
    requires StartsWith(s[i..], SplitWords[k], true)
    ensures DetectTokenSplitting(s)
  {
    assert TokenSplitPatterns[k] == SpacedWordPatterns[k];
    SpacedMatchesWord(SplitWords[k], s, i, true);
    assert Test(TokenSplitPatterns[k], s);
  }
}
