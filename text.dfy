/** Character classes and string helpers shared by the security gate:
    JavaScript's `\s`, `\w`, `\d`, `[a-zA-Z]`, the simple lower-case table
    used for `toLowerCase` and for `/i` matching, and `String.includes`. */
module Text {

  /** JavaScript's `\s`: white space and line terminators. */
  predicate IsSpace(c: char) {
    c == ' ' || c == '\t' || c == '\n' || c == '\r' || c == '\U{000B}' || c == '\U{000C}'
    || c == '\U{00A0}' || c == '\U{1680}' || ('\U{2000}' <= c <= '\U{200A}')
    || c == '\U{2028}' || c == '\U{2029}' || c == '\U{202F}' || c == '\U{205F}'
    || c == '\U{3000}' || c == '\U{FEFF}'
  }

  /** The line terminators that `.` does not match. */
  predicate IsLineTerminator(c: char) {
    c == '\n' || c == '\r' || c == '\U{2028}' || c == '\U{2029}'
  }

  /** JavaScript's `\d` (no `u` flag): ASCII digits only. */
  predicate IsDigit(c: char) {
    '0' <= c <= '9'
  }

  /** `[a-zA-Z]` */
  predicate IsLatin(c: char) {
    'a' <= c <= 'z' || 'A' <= c <= 'Z'
  }

  /** JavaScript's `\w`, which decides `\b`. */
  predicate IsWordChar(c: char) {
    IsLatin(c) || IsDigit(c) || c == '_'
  }

  /** Upper-case letters covered by the model's lower-case table: ASCII,
      Greek (except sigma, whose lower case depends on context), Cyrillic
      and full-width Latin. */
  predicate IsUpper(c: char) {
    'A' <= c <= 'Z'
    || ('\U{0391}' <= c <= '\U{03A9}' && c != '\U{03A2}' && c != '\U{03A3}')
    || ('\U{0410}' <= c <= '\U{042F}')
    || ('\U{FF21}' <= c <= '\U{FF3A}')
  }

  /** Lower-case letters that the table produces. */
  predicate IsLower(c: char) {
    'a' <= c <= 'z'
    || ('\U{03B1}' <= c <= '\U{03C9}' && c != '\U{03C2}' && c != '\U{03C3}')
    || ('\U{0430}' <= c <= '\U{044F}')
    || ('\U{FF41}' <= c <= '\U{FF5A}')
  }

  /** One character of `toLowerCase`: every covered upper-case letter sits
      32 code points below its lower-case partner. */
  function Lower(c: char): (r: char)
    ensures IsUpper(c) ==> IsLower(r) && r as int == c as int + 32
    ensures !IsUpper(c) ==> r == c
  {
    if IsUpper(c) then (c as int + 32) as char else c
  }

  /** The inverse of Lower, used for case-insensitive matching. */
  function Upper(c: char): (r: char)
    ensures IsLower(c) ==> IsUpper(r) && Lower(r) == c
    ensures !IsLower(c) ==> r == c
  {
    if IsLower(c) then (c as int - 32) as char else c
  }

  /** `toLowerCase` over a whole string, character by character. */
  function LowerAll(s: string): (r: string)
    ensures |r| == |s|
    ensures forall i :: 0 <= i < |r| ==> !IsUpper(r[i])
    ensures forall i :: 0 <= i < |s| && !IsUpper(s[i]) ==> r[i] == s[i]
    ensures forall i :: 0 <= i < |s| && IsUpper(s[i]) ==> Upper(r[i]) == s[i]
  {
    seq(|s|, i requires 0 <= i < |s| => Lower(s[i]))
  }

  /** Lower-casing a second time changes nothing. */
  lemma LowerAllIdempotent(s: string)
    ensures LowerAll(LowerAll(s)) == LowerAll(s)
  {
  }

  /** Two characters are equal under `/i` when they fold to the same
      lower-case character. */
  predicate SameLetter(a: char, b: char, ignoreCase: bool) {
    a == b || (ignoreCase && Lower(a) == Lower(b))
  }

  /** `s` starts with `w`, comparing under `/i` when asked. */
  predicate StartsWith(s: string, w: string, ignoreCase: bool) {
    |w| <= |s| && forall k :: 0 <= k < |w| ==> SameLetter(s[k], w[k], ignoreCase)
  }

  /** `t` occurs in `s` starting at position `i`. */
  predicate OccursAt(s: string, t: string, i: int) {
    0 <= i && i + |t| <= |s| && s[i..i + |t|] == t
  }

  /** `s.includes(t)`: `t` occurs at some position of `s`. */
  predicate Contains(s: string, t: string) {
    exists i | 0 <= i <= |s| :: OccursAt(s, t, i)
  }

  /** `Contains` computed by a scan from the left, the way `includes` searches. */
  function Find(s: string, t: string): (found: bool)
    ensures found <==> Contains(s, t)
    decreases |s|
  {
    if |t| <= |s| && s[..|t|] == t then
      assert OccursAt(s, t, 0);
      true
    else if |s| <= |t| then
      assert forall i | 0 <= i <= |s| && OccursAt(s, t, i) :: i == 0 && s[..|t|] == t;
      false
    else
      var rest := Find(s[1..], t);
      ContainsTail(s, t);
      rest
  }

  /** When `t` is not a prefix of `s`, it occurs in `s` exactly when it occurs in `s[1..]`. */
  lemma ContainsTail(s: string, t: string)
    requires |s| > 0 && !(|t| <= |s| && s[..|t|] == t)
    ensures Contains(s, t) <==> Contains(s[1..], t)
  {
    if Contains(s[1..], t) {
      var i :| 0 <= i <= |s[1..]| && OccursAt(s[1..], t, i);
      assert s[i + 1..i + 1 + |t|] == s[1..][i..i + |t|];
      assert OccursAt(s, t, i + 1);
    }
    if Contains(s, t) {
      var i :| 0 <= i <= |s| && OccursAt(s, t, i);
      assert i != 0;
      assert s[1..][i - 1..i - 1 + |t|] == s[i..i + |t|];
      assert OccursAt(s[1..], t, i - 1);
    }
  }

  /** Number of `[a-zA-Z]` characters, i.e. `content.match(/[a-zA-Z]/g).length`. */
  function LatinCount(s: string): (n: nat)
    ensures n <= |s|
  {
    if s == [] then 0 else LatinCount(s[..|s| - 1]) + (if IsLatin(s[|s| - 1]) then 1 else 0)
  }

  lemma {:induction false} LatinCountAppend(a: string, b: string)
    ensures LatinCount(a + b) == LatinCount(a) + LatinCount(b)
    decreases |b|
  {
    if b == [] {
      assert a + b == a;
    } else {
      assert (a + b)[..|a + b| - 1] == a + b[..|b| - 1];
      LatinCountAppend(a, b[..|b| - 1]);
    }
  }

  /** A string made only of Latin letters counts every character. */
  lemma {:induction false} LatinCountAllLatin(s: string)
    requires forall i :: 0 <= i < |s| ==> IsLatin(s[i])
    ensures LatinCount(s) == |s|
  {
    if s != [] {
      LatinCountAllLatin(s[..|s| - 1]);
    }
  }
}
