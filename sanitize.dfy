/** `sanitizeSystemPrompt`: two global, case-insensitive `replace` passes
    that hide secret-looking phrases of the system prompt. */
module Sanitize {
  import opened Text
  import opened Messages

  const SecretTerms: seq<string> := ["API keys", "encryption keys", "password", "credentials"]
  const Redacted: string := "[REDACTED]"
  const ProtocolTerms: seq<string> := ["specifics about security"]
  const Protocols: string := "[SECURITY PROTOCOLS]"

  /** The term `w` matches at position `i` of `s` under `/i`. */
  predicate MatchAt(s: string, i: int, w: string)
    requires 0 <= i <= |s|
  {
    StartsWith(s[i..], w, true)
  }

  /** The first alternative of `t1|t2|...` that matches at the front of `s`. */
  function FirstTerm(s: string, terms: seq<string>): (r: Option<nat>)
    ensures r.Some? ==> r.value < |terms| && StartsWith(s, terms[r.value], true)
    ensures r.None? <==> forall k | 0 <= k < |terms| :: !StartsWith(s, terms[k], true)
    decreases |terms|
  {
    if terms == [] then None
    else if StartsWith(s, terms[0], true) then Some(0)
    else
      match FirstTerm(s, terms[1..])
      case None =>
        assert forall k | 1 <= k < |terms| :: terms[k] == terms[1..][k - 1];
        None
      case Some(k) => Some(k + 1)
  }

  predicate NonEmpty(terms: seq<string>) {
    forall k | 0 <= k < |terms| :: terms[k] != []
  }

  /** `s.replace(/t1|t2|.../gi, repl)`: the scan goes left to right,
      replaces the first alternative that matches and resumes after it. */
  function ReplaceAll(s: string, terms: seq<string>, repl: string): string
    requires NonEmpty(terms)
    decreases |s|
  {
    if s == [] then []
    else
      match FirstTerm(s, terms)
      case Some(k) => repl + ReplaceAll(s[|terms[k]|..], terms, repl)
      case None => [s[0]] + ReplaceAll(s[1..], terms, repl)
  }

  /** `sanitizeSystemPrompt(prompt)` */
  function SanitizeSystemPrompt(prompt: string): string {
    ReplaceAll(ReplaceAll(prompt, SecretTerms, Redacted), ProtocolTerms, Protocols)
  }

  // ----- what the passes guarantee -----

  /** The output starts with an unchanged piece of the input, followed by the
      end of the output or by a replacement. */
  lemma {:induction false} KeptPrefix(s: string, terms: seq<string>, repl: string) returns (n: nat)
    requires NonEmpty(terms) && repl != []
    ensures n <= |s| && n <= |ReplaceAll(s, terms, repl)|
    ensures ReplaceAll(s, terms, repl)[..n] == s[..n]
    ensures n < |ReplaceAll(s, terms, repl)| ==> ReplaceAll(s, terms, repl)[n] == repl[0]
    decreases |s|
  {
    if s == [] {
      n := 0;
    } else {
      match FirstTerm(s, terms)
      case Some(k) =>
        n := 0;
      case None =>
        var m := KeptPrefix(s[1..], terms, repl);
        n := m + 1;
        var r := ReplaceAll(s, terms, repl);
        assert r == [s[0]] + ReplaceAll(s[1..], terms, repl);
        assert r[..n] == [s[0]] + ReplaceAll(s[1..], terms, repl)[..m];
        assert s[..n] == [s[0]] + s[1..][..m];
    }
  }

  /** Some position j >= from, inside both `w` and `a[i..]`, at which `w`
      differs from `a[i..]` even under `/i`. */
  function DisagreeFrom(a: string, i: nat, w: string, from: nat): bool
    decreases |w| - from
  {
    if from >= |w| || i + from >= |a| then false
    else !SameLetter(a[i + from], w[from], true) || DisagreeFrom(a, i, w, from + 1)
  }

  /** Every term of `ws` from the k-th on differs from `a[i..]`. */
  function DisagreeAll(a: string, i: nat, ws: seq<string>, k: nat): bool
    decreases |ws| - k
  {
    k >= |ws| || (DisagreeFrom(a, i, ws[k], 0) && DisagreeAll(a, i, ws, k + 1))
  }

  /** No term of `ws` can match at position i or later of `repl`, whatever
      follows it. */
  function IsolatedFrom(repl: string, ws: seq<string>, i: nat): bool
    decreases |repl| - i
  {
    i >= |repl| || (DisagreeAll(repl, i, ws, 0) && IsolatedFrom(repl, ws, i + 1))
  }

  predicate Isolated(repl: string, ws: seq<string>) {
    IsolatedFrom(repl, ws, 0)
  }

  /** The first character of `repl` is no character of any term, so no match
      can run from kept text into a replacement. */
  predicate Fenced(repl: string, ws: seq<string>)
    requires repl != []
  {
    forall k, j | 0 <= k < |ws| && 0 <= j < |ws[k]| :: !SameLetter(repl[0], ws[k][j], true)
  }

  /** Wherever a term of `ws` matches in `s`, some term of `terms` matches. */
  predicate Covered(s: string, terms: seq<string>, ws: seq<string>) {
    forall i, k | 0 <= i <= |s| && 0 <= k < |ws| && MatchAt(s, i, ws[k]) ::
      FirstTerm(s[i..], terms).Some?
  }

  predicate NoMatch(s: string, ws: seq<string>) {
    forall i, k | 0 <= i <= |s| && 0 <= k < |ws| :: !MatchAt(s, i, ws[k])
  }

  /** The position at which `w` differs from `a[i..]`. */
  lemma {:induction false} DisagreeWitness(a: string, i: nat, w: string, from: nat) returns (j: nat)
    requires DisagreeFrom(a, i, w, from)
    ensures from <= j < |w| && i + j < |a| && !SameLetter(a[i + j], w[j], true)
    decreases |w| - from
  {
    if !SameLetter(a[i + from], w[from], true) {
      j := from;
    } else {
      j := DisagreeWitness(a, i, w, from + 1);
    }
  }

  lemma {:induction false} IsolatedAt(repl: string, ws: seq<string>, from: nat, i: nat, k: nat)
    requires IsolatedFrom(repl, ws, from) && from <= i < |repl| && k < |ws|
    ensures DisagreeFrom(repl, i, ws[k], 0)
    decreases i - from
  {
    if i == from {
      DisagreeAllAt(repl, i, ws, 0, k);
    } else {
      IsolatedAt(repl, ws, from + 1, i, k);
    }
  }

  lemma {:induction false} DisagreeAllAt(a: string, i: nat, ws: seq<string>, from: nat, k: nat)
    requires DisagreeAll(a, i, ws, from) && from <= k < |ws|
    ensures DisagreeFrom(a, i, ws[k], 0)
    decreases k - from
  {
    if k > from {
      DisagreeAllAt(a, i, ws, from + 1, k);
    }
  }

  /** No term matches inside `repl` or runs out of it. */
  lemma IsolatedNoMatch(repl: string, ws: seq<string>, i: int, rest: string, k: int)
    requires Isolated(repl, ws) && 0 <= i < |repl| && 0 <= k < |ws|
    ensures !StartsWith((repl + rest)[i..], ws[k], true)
  {
    IsolatedAt(repl, ws, 0, i, k);
    var j := DisagreeWitness(repl, i, ws[k], 0);
    assert (repl + rest)[i..][j] == repl[i + j];
  }

  /** A replacement pass leaves no match of `ws` behind when every match of
      `ws` in the input is a place where the pass replaces, and the
      replacement text can neither hold a match nor be joined to one. */
  lemma {:induction false} NoMatchAfterReplace(s: string, terms: seq<string>, repl: string, ws: seq<string>)
    requires NonEmpty(terms) && repl != []
    requires Isolated(repl, ws) && Fenced(repl, ws)
    requires Covered(s, terms, ws)
    ensures NoMatch(ReplaceAll(s, terms, repl), ws)
    decreases |s|
  {
    var r := ReplaceAll(s, terms, repl);
    if s == [] {
      forall k | 0 <= k < |ws| ensures !MatchAt(r, 0, ws[k]) {
        IsolatedNoMatch(repl, ws, 0, [], k);
        assert repl + [] == repl;
      }
    } else {
      match FirstTerm(s, terms)
      case Some(t) =>
        var n := |terms[t]|;
        var tail := ReplaceAll(s[n..], terms, repl);
        CoveredSuffix(s, terms, ws, n);
        NoMatchAfterReplace(s[n..], terms, repl, ws);
        assert r == repl + tail;
        forall i, k | 0 <= i <= |r| && 0 <= k < |ws| ensures !MatchAt(r, i, ws[k]) {
          if i < |repl| {
            IsolatedNoMatch(repl, ws, i, tail, k);
          } else {
            assert r[i..] == tail[i - |repl|..];
            assert !MatchAt(tail, i - |repl|, ws[k]);
          }
        }
      case None =>
        var tail := ReplaceAll(s[1..], terms, repl);
        CoveredSuffix(s, terms, ws, 1);
        NoMatchAfterReplace(s[1..], terms, repl, ws);
        assert r == [s[0]] + tail;
        forall i, k | 0 <= i <= |r| && 0 <= k < |ws| ensures !MatchAt(r, i, ws[k]) {
          if i == 0 {
            FrontNoMatch(s, terms, repl, ws, k);
          } else {
            assert r[i..] == tail[i - 1..];
            assert !MatchAt(tail, i - 1, ws[k]);
          }
        }
    }
  }

  /** At the front of the output, where the scan kept `s[0]`, no term of `ws`
      matches. */
  lemma FrontNoMatch(s: string, terms: seq<string>, repl: string, ws: seq<string>, k: int)
    requires NonEmpty(terms) && repl != [] && s != []
    requires Fenced(repl, ws) && Covered(s, terms, ws)
    requires FirstTerm(s, terms).None? && 0 <= k < |ws|
    ensures !MatchAt(ReplaceAll(s, terms, repl), 0, ws[k])
  {
    var r := ReplaceAll(s, terms, repl);
    var tail := ReplaceAll(s[1..], terms, repl);
    assert r == [s[0]] + tail;
    var p := KeptPrefix(s[1..], terms, repl);
    var w := ws[k];
    assert r[0..] == r && s[0..] == s;
    if |w| <= p + 1 {
      forall j | 0 <= j < |w| ensures r[j] == s[j] {
        if j > 0 {
          assert tail[..p][j - 1] == s[1..][..p][j - 1];
        }
      }
      assert !MatchAt(s, 0, w);
    } else if p + 1 < |r| {
      assert r[p + 1] == repl[0];
      assert !SameLetter(r[p + 1], w[p + 1], true);
    }
  }

  lemma CoveredSuffix(s: string, terms: seq<string>, ws: seq<string>, n: int)
    requires Covered(s, terms, ws) && 0 <= n <= |s|
    ensures Covered(s[n..], terms, ws)
  {
    forall i, k | 0 <= i <= |s[n..]| && 0 <= k < |ws| && MatchAt(s[n..], i, ws[k])
      ensures FirstTerm(s[n..][i..], terms).Some?
    {
      assert s[n..][i..] == s[i + n..];
    }
  }

  /** Every match of a pass's own terms is a place where the pass replaces. */
  lemma CoveredSelf(s: string, terms: seq<string>)
    ensures Covered(s, terms, terms)
  {
  }

  /** A text without a match is left as it is. */
  lemma {:induction false} ReplaceNothing(s: string, terms: seq<string>, repl: string)
    requires NonEmpty(terms) && NoMatch(s, terms)
    ensures ReplaceAll(s, terms, repl) == s
    decreases |s|
  {
    if s != [] {
      assert FirstTerm(s, terms).None? by {
        forall k | 0 <= k < |terms| ensures !StartsWith(s, terms[k], true) {
          assert !MatchAt(s, 0, terms[k]);
          assert s[0..] == s;
        }
      }
      forall i, k | 0 <= i <= |s[1..]| && 0 <= k < |terms| ensures !MatchAt(s[1..], i, terms[k]) {
        assert s[1..][i..] == s[i + 1..];
        assert !MatchAt(s, i + 1, terms[k]);
      }
      ReplaceNothing(s[1..], terms, repl);
    }
  }

  /** No secret term matches inside `[REDACTED]` or runs out of it. */
  lemma RedactedSafe()
    ensures Isolated(Redacted, SecretTerms)
  {
    var r, t := Redacted, SecretTerms;
    assert DisagreeAll(r, 0, t, 0);
    assert DisagreeAll(r, 1, t, 0);
    assert DisagreeAll(r, 2, t, 0);
    assert DisagreeAll(r, 3, t, 0);
    assert DisagreeAll(r, 4, t, 0);
    assert DisagreeAll(r, 5, t, 0);
    assert DisagreeAll(r, 6, t, 0);
    assert DisagreeAll(r, 7, t, 0);
    assert DisagreeAll(r, 8, t, 0);
    assert DisagreeAll(r, 9, t, 0);
    assert IsolatedFrom(r, t, 10);
    assert IsolatedFrom(r, t, 9);
    assert IsolatedFrom(r, t, 8);
    assert IsolatedFrom(r, t, 7);
    assert IsolatedFrom(r, t, 6);
    assert IsolatedFrom(r, t, 5);
    assert IsolatedFrom(r, t, 4);
    assert IsolatedFrom(r, t, 3);
    assert IsolatedFrom(r, t, 2);
    assert IsolatedFrom(r, t, 1);
  }

  /** The end of `[SECURITY PROTOCOLS]` holds no secret term. */
  lemma ProtocolsSafeTail()
    ensures IsolatedFrom(Protocols, SecretTerms, 14)
  {
    var r, t := Protocols, SecretTerms;
    assert DisagreeAll(r, 14, t, 0);
    assert DisagreeAll(r, 15, t, 0);
    assert DisagreeAll(r, 16, t, 0);
    assert DisagreeAll(r, 17, t, 0);
    assert DisagreeAll(r, 18, t, 0);
    assert DisagreeAll(r, 19, t, 0);
    assert IsolatedFrom(r, t, 20);
    assert IsolatedFrom(r, t, 19);
    assert IsolatedFrom(r, t, 18);
    assert IsolatedFrom(r, t, 17);
    assert IsolatedFrom(r, t, 16);
    assert IsolatedFrom(r, t, 15);
  }

  /** The middle of `[SECURITY PROTOCOLS]` holds no secret term. */
  lemma ProtocolsSafeMid()
    ensures IsolatedFrom(Protocols, SecretTerms, 7)
  {
    ProtocolsSafeTail();
    var r, t := Protocols, SecretTerms;
    assert DisagreeAll(r, 7, t, 0);
    assert DisagreeAll(r, 8, t, 0);
    assert DisagreeAll(r, 9, t, 0);
    assert DisagreeAll(r, 10, t, 0);
    assert DisagreeAll(r, 11, t, 0);
    assert DisagreeAll(r, 12, t, 0);
    assert DisagreeAll(r, 13, t, 0);
    assert IsolatedFrom(r, t, 14);
    assert IsolatedFrom(r, t, 13);
    assert IsolatedFrom(r, t, 12);
    assert IsolatedFrom(r, t, 11);
    assert IsolatedFrom(r, t, 10);
    assert IsolatedFrom(r, t, 9);
    assert IsolatedFrom(r, t, 8);
  }

  /** No secret term matches inside `[SECURITY PROTOCOLS]` or runs out of it. */
  lemma ProtocolsSafe()
    ensures Isolated(Protocols, SecretTerms)
  {
    ProtocolsSafeMid();
    var r, t := Protocols, SecretTerms;
    assert DisagreeAll(r, 0, t, 0);
    assert DisagreeAll(r, 1, t, 0);
    assert DisagreeAll(r, 2, t, 0);
    assert DisagreeAll(r, 3, t, 0);
    assert DisagreeAll(r, 4, t, 0);
    assert DisagreeAll(r, 5, t, 0);
    assert DisagreeAll(r, 6, t, 0);
    assert IsolatedFrom(r, t, 7);
    assert IsolatedFrom(r, t, 6);
    assert IsolatedFrom(r, t, 5);
    assert IsolatedFrom(r, t, 4);
    assert IsolatedFrom(r, t, 3);
    assert IsolatedFrom(r, t, 2);
    assert IsolatedFrom(r, t, 1);
  }

  /** The second half of `[SECURITY PROTOCOLS]` holds no protocol phrase. */
  lemma ProtocolsSafeSelfTail()
    ensures IsolatedFrom(Protocols, ProtocolTerms, 10)
  {
    var r, t := Protocols, ProtocolTerms;
    assert DisagreeAll(r, 10, t, 0);
    assert DisagreeAll(r, 11, t, 0);
    assert DisagreeAll(r, 12, t, 0);
    assert DisagreeAll(r, 13, t, 0);
    assert DisagreeAll(r, 14, t, 0);
    assert DisagreeAll(r, 15, t, 0);
    assert DisagreeAll(r, 16, t, 0);
    assert DisagreeAll(r, 17, t, 0);
    assert DisagreeAll(r, 18, t, 0);
    assert DisagreeAll(r, 19, t, 0);
    assert IsolatedFrom(r, t, 20);
    assert IsolatedFrom(r, t, 19);
    assert IsolatedFrom(r, t, 18);
    assert IsolatedFrom(r, t, 17);
    assert IsolatedFrom(r, t, 16);
    assert IsolatedFrom(r, t, 15);
    assert IsolatedFrom(r, t, 14);
    assert IsolatedFrom(r, t, 13);
    assert IsolatedFrom(r, t, 12);
    assert IsolatedFrom(r, t, 11);
  }

  /** The protocol phrase does not match inside its own replacement. */
  lemma ProtocolsSafeSelf()
    ensures Isolated(Protocols, ProtocolTerms)
  {
    ProtocolsSafeSelfTail();
    var r, t := Protocols, ProtocolTerms;
    assert DisagreeAll(r, 0, t, 0);
    assert DisagreeAll(r, 1, t, 0);
    assert DisagreeAll(r, 2, t, 0);
    assert DisagreeAll(r, 3, t, 0);
    assert DisagreeAll(r, 4, t, 0);
    assert DisagreeAll(r, 5, t, 0);
    assert DisagreeAll(r, 6, t, 0);
    assert DisagreeAll(r, 7, t, 0);
    assert DisagreeAll(r, 8, t, 0);
    assert DisagreeAll(r, 9, t, 0);
    assert IsolatedFrom(r, t, 10);
    assert IsolatedFrom(r, t, 9);
    assert IsolatedFrom(r, t, 8);
    assert IsolatedFrom(r, t, 7);
    assert IsolatedFrom(r, t, 6);
    assert IsolatedFrom(r, t, 5);
    assert IsolatedFrom(r, t, 4);
    assert IsolatedFrom(r, t, 3);
    assert IsolatedFrom(r, t, 2);
    assert IsolatedFrom(r, t, 1);
  }

  /** `c` differs under `/i` from every character of `w` from `from` on. */
  function Apart(c: char, w: string, from: nat): bool
    decreases |w| - from
  {
    from >= |w| || (!SameLetter(c, w[from], true) && Apart(c, w, from + 1))
  }

  lemma {:induction false} ApartAll(c: char, w: string, from: nat, j: nat)
    requires Apart(c, w, from) && from <= j < |w|
    ensures !SameLetter(c, w[j], true)
    decreases j - from
  {
    if j > from {
      ApartAll(c, w, from + 1, j);
    }
  }

  lemma PhraseApart()
    ensures Apart('[', "specifics about security", 0)
  {
    var w := "specifics about security";
    assert Apart('[', w, 22);
    assert Apart('[', w, 20);
    assert Apart('[', w, 18);
    assert Apart('[', w, 16);
    assert Apart('[', w, 14);
    assert Apart('[', w, 12);
    assert Apart('[', w, 10);
    assert Apart('[', w, 8);
    assert Apart('[', w, 6);
    assert Apart('[', w, 4);
    assert Apart('[', w, 2);
  }

  lemma TermsApart()
    ensures Apart('[', "API keys", 0) && Apart('[', "encryption keys", 0)
    ensures Apart('[', "password", 0) && Apart('[', "credentials", 0)
  {
    assert Apart('[', "API keys", 4);
    assert Apart('[', "encryption keys", 10);
    assert Apart('[', "encryption keys", 5);
    assert Apart('[', "password", 4);
    assert Apart('[', "credentials", 6);
  }

  /** Neither bracket is a letter of any of the five phrases. */
  lemma BracketsFenced()
    ensures Fenced(Redacted, SecretTerms) && Fenced(Protocols, SecretTerms)
    ensures Fenced(Protocols, ProtocolTerms)
  {
    var t := SecretTerms;
    TermsApart();
    PhraseApart();
    forall k, j | 0 <= k < |t| && 0 <= j < |t[k]| ensures !SameLetter('[', t[k][j], true) {
      ApartAll('[', t[k], 0, j);
    }
    forall j | 0 <= j < |ProtocolTerms[0]| ensures !SameLetter('[', ProtocolTerms[0][j], true) {
      ApartAll('[', ProtocolTerms[0], 0, j);
    }
  }

  lemma ReplacementsSafe()
    ensures NonEmpty(SecretTerms) && NonEmpty(ProtocolTerms)
    ensures Isolated(Redacted, SecretTerms) && Fenced(Redacted, SecretTerms)
    ensures Isolated(Protocols, SecretTerms) && Fenced(Protocols, SecretTerms)
    ensures Isolated(Protocols, ProtocolTerms) && Fenced(Protocols, ProtocolTerms)
  {
    RedactedSafe();
    ProtocolsSafe();
    ProtocolsSafeSelf();
    BracketsFenced();
  }

  /** The sanitized prompt contains none of the five phrases, in any case. */
  lemma SanitizedHidesTerms(prompt: string)
    ensures NoMatch(SanitizeSystemPrompt(prompt), SecretTerms)
    ensures NoMatch(SanitizeSystemPrompt(prompt), ProtocolTerms)
  {
    ReplacementsSafe();
    var once := ReplaceAll(prompt, SecretTerms, Redacted);
    CoveredSelf(prompt, SecretTerms);
    NoMatchAfterReplace(prompt, SecretTerms, Redacted, SecretTerms);
    CoveredSelf(once, ProtocolTerms);
    NoMatchAfterReplace(once, ProtocolTerms, Protocols, ProtocolTerms);
    NoMatchAfterReplace(once, ProtocolTerms, Protocols, SecretTerms);
  }

  /** Sanitizing twice is sanitizing once. */
  lemma SanitizeIdempotent(prompt: string)
    ensures SanitizeSystemPrompt(SanitizeSystemPrompt(prompt)) == SanitizeSystemPrompt(prompt)
  {
    var r := SanitizeSystemPrompt(prompt);
    SanitizedHidesTerms(prompt);
    ReplacementsSafe();
    ReplaceNothing(r, SecretTerms, Redacted);
    ReplaceNothing(r, ProtocolTerms, Protocols);
  }
}
