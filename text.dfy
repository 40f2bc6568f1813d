/** The string operations the pages use, written out on `seq<char>`:
    JavaScript's `\s` class, `toLowerCase`, `trim`, `includes`, `startsWith`,
    `split` and `join`, and the answer normalisation built from them. */
module Text {

  /** A character matched by JavaScript's `\s`: white space and line terminators. */
  predicate IsWhitespace(c: char) {
    || c == ' ' || c == '\t' || c == '\n' || c == '\U{B}' || c == '\U{C}' || c == '\r'
    || c == '\U{A0}' || c == '\U{1680}' || ('\U{2000}' <= c <= '\U{200A}')
    || c == '\U{2028}' || c == '\U{2029}' || c == '\U{202F}' || c == '\U{205F}'
    || c == '\U{3000}' || c == '\U{FEFF}'
  }

  /** A character that JavaScript's `.` does not match in a regular expression. */
  predicate IsLineTerminator(c: char) {
    c == '\n' || c == '\r' || c == '\U{2028}' || c == '\U{2029}'
  }

  /** `s.replace(/\s/g, '')`: every white-space character deleted. */
  function StripWhitespace(s: string): (r: string)
    ensures |r| <= |s|
    ensures forall i :: 0 <= i < |r| ==> !IsWhitespace(r[i])
    ensures forall c :: c in r <==> c in s && !IsWhitespace(c)
  {
    if s == [] then []
    else (if IsWhitespace(s[0]) then [] else [s[0]]) + StripWhitespace(s[1..])
  }

  /** `toLowerCase` on one character: the ASCII letters and the Latin-1
      capitals (the French accented letters); other characters are kept. */
  function LowerChar(c: char): (r: char)
    ensures IsWhitespace(r) <==> IsWhitespace(c)
  {
    if 'A' <= c <= 'Z' || ('\U{C0}' <= c <= '\U{DE}' && c != '\U{D7}') then (c as int + 32) as char
    else c
  }

  /** `s.toLowerCase()`, character by character. */
  function Lower(s: string): (r: string)
    ensures |r| == |s|
    ensures forall i :: 0 <= i < |s| ==> r[i] == LowerChar(s[i])
  {
    seq(|s|, i requires 0 <= i < |s| => LowerChar(s[i]))
  }

  /** `s.replace(/\s/g, '').toLowerCase()`: the form in which an answer and a
      solution are compared. */
  function Normalize(s: string): (r: string)
    ensures forall i :: 0 <= i < |r| ==> !IsWhitespace(r[i]) && LowerChar(r[i]) == r[i]
  {
    Lower(StripWhitespace(s))
  }

  /** `!s.trim()`: nothing but white space. */
  predicate IsBlank(s: string) {
    forall i :: 0 <= i < |s| ==> IsWhitespace(s[i])
  }

  predicate StartsWith(s: string, prefix: string) {
    |prefix| <= |s| && s[..|prefix|] == prefix
  }

  /** `sub` occurs in `s` starting at index `i`. */
  predicate OccursAt(s: string, sub: string, i: int) {
    0 <= i <= |s| - |sub| && s[i..i + |sub|] == sub
  }

  /** `s.includes(sub)`. */
  predicate Contains(s: string, sub: string) {
    exists i :: 0 <= i <= |s| - |sub| && OccursAt(s, sub, i)
  }

  /** `s.split(sep)` for a one-character separator: the fields between the
      separators, so one more field than separators. */
  function Split(s: string, sep: char): (r: seq<string>)
    ensures |r| >= 1
    ensures forall i :: 0 <= i < |r| ==> sep !in r[i]
    ensures StartsWith(s, r[0])
    ensures |r[0]| < |s| ==> s[|r[0]|] == sep
  {
    if s == [] then [[]]
    else
      var rest := Split(s[1..], sep);
      if s[0] == sep then [[]] + rest
      else [[s[0]] + rest[0]] + rest[1..]
  }

  /** `parts.join(sep)`. */
  function Join(parts: seq<string>, sep: char): (r: string)
  {
    if |parts| == 0 then []
    else if |parts| == 1 then parts[0]
    else parts[0] + [sep] + Join(parts[1..], sep)
  }

  /** `s.split(sep)[0]`: everything before the first separator, or all of `s`. */
  function FirstField(s: string, sep: char): (r: string)
    ensures StartsWith(s, r) && sep !in r
    ensures sep in s ==> |r| < |s| && s[|r|] == sep
    ensures sep !in s ==> r == s
  {
    Split(s, sep)[0]
  }

  // ---------------------------------------------------------------------
  // Normalisation

  lemma {:induction false} StripConcat(a: string, b: string)
    ensures StripWhitespace(a + b) == StripWhitespace(a) + StripWhitespace(b)
  {
    if a != [] {
      assert (a + b)[0] == a[0] && (a + b)[1..] == a[1..] + b;
      StripConcat(a[1..], b);
    } else {
      assert a + b == b;
    }
  }

  lemma {:induction false} StripKeepsClean(s: string)
    requires forall i :: 0 <= i < |s| ==> !IsWhitespace(s[i])
    ensures StripWhitespace(s) == s
  {
    if s != [] {
      StripKeepsClean(s[1..]);
    }
  }

  lemma {:induction false} StripLowerCommute(s: string)
    ensures StripWhitespace(Lower(s)) == Lower(StripWhitespace(s))
  {
    if s != [] {
      var c, rest := [s[0]], s[1..];
      assert s == c + rest;
      StripLowerCommute(rest);
      LowerConcat(c, rest);
      StripConcat(Lower(c), Lower(rest));
      StripConcat(c, rest);
      LowerConcat(StripWhitespace(c), StripWhitespace(rest));
      StripLowerChar(s[0]);
    }
  }

  lemma StripLowerChar(c: char)
    ensures StripWhitespace(Lower([c])) == Lower(StripWhitespace([c]))
  {
    assert Lower([c]) == [LowerChar(c)];
  }

  lemma LowerConcat(a: string, b: string)
    ensures Lower(a + b) == Lower(a) + Lower(b)
  {
  }

  /** Normalising twice is normalising once. */
  lemma NormalizeIdempotent(s: string)
    ensures Normalize(Normalize(s)) == Normalize(s)
  {
    var n := Normalize(s);
    StripKeepsClean(n);
    assert Lower(n) == n;
  }

  /** Case does not matter: lower-casing first changes nothing. */
  lemma NormalizeIgnoresCase(s: string)
    ensures Normalize(Lower(s)) == Normalize(s)
  {
    StripLowerCommute(s);
    StripLowerCommute(Lower(s));
    var t := StripWhitespace(s);
    assert Lower(Lower(t)) == Lower(t);
  }

  /** White space does not matter: inserting a white-space character anywhere
      leaves the normal form unchanged. */
  lemma NormalizeIgnoresWhitespace(a: string, w: char, b: string)
    requires IsWhitespace(w)
    ensures Normalize(a + [w] + b) == Normalize(a + b)
  {
    assert StripWhitespace([w]) == [];
    StripConcat(a, [w]);
    assert StripWhitespace(a + [w]) == StripWhitespace(a);
    StripConcat(a + [w], b);
    StripConcat(a, b);
    assert StripWhitespace(a + [w] + b) == StripWhitespace(a + b);
  }

  /** `!s.trim()` holds exactly when deleting white space leaves nothing. */
  lemma BlankIffStripsToEmpty(s: string)
    ensures IsBlank(s) <==> StripWhitespace(s) == []
  {
    if !IsBlank(s) {
      var i :| 0 <= i < |s| && !IsWhitespace(s[i]);
      assert s[i] in StripWhitespace(s);
    }
  }

  // ---------------------------------------------------------------------
  // includes, split and join

  lemma ContainsInfix(a: string, sub: string, b: string)
    ensures Contains(a + sub + b, sub)
  {
    assert OccursAt(a + sub + b, sub, |a|);
  }

  lemma ContainsEmpty(s: string)
    ensures Contains(s, [])
  {
    assert OccursAt(s, [], 0);
  }

  lemma {:induction false} SplitInfix(p: string, sep: char, rest: string)
    requires sep !in p
    ensures Split(p + [sep] + rest, sep) == [p] + Split(rest, sep)
  {
    if p != [] {
      assert (p + [sep] + rest)[0] == p[0] && (p + [sep] + rest)[1..] == p[1..] + [sep] + rest;
      SplitInfix(p[1..], sep, rest);
      var tail := Split(rest, sep);
      assert ([p[1..]] + tail)[1..] == tail;
      assert [p[0]] + p[1..] == p;
    } else {
      assert (p + [sep] + rest)[1..] == rest;
    }
  }

  lemma {:induction false} SplitClean(p: string, sep: char)
    requires sep !in p
    ensures Split(p, sep) == [p]
  {
    if p != [] {
      SplitClean(p[1..], sep);
      assert [p[0]] + p[1..] == p;
    }
  }

  /** Splitting a join gives back the parts when no part holds the separator. */
  lemma {:induction false} SplitJoin(parts: seq<string>, sep: char)
    requires |parts| >= 1
    requires forall i :: 0 <= i < |parts| ==> sep !in parts[i]
    ensures Split(Join(parts, sep), sep) == parts
  {
    if |parts| == 1 {
      SplitClean(parts[0], sep);
    } else {
      SplitJoin(parts[1..], sep);
      SplitInfix(parts[0], sep, Join(parts[1..], sep));
    }
  }

  /** Joining the fields of a split gives back the string. */
  lemma {:induction false} JoinSplit(s: string, sep: char)
    ensures Join(Split(s, sep), sep) == s
  {
    if s != [] {
      JoinSplit(s[1..], sep);
      var rest := Split(s[1..], sep);
      if s[0] != sep {
        if |rest| > 1 {
          assert ([[s[0]] + rest[0]] + rest[1..])[1..] == rest[1..];
        }
      } else {
        assert ([[]] + rest)[1..] == rest;
      }
    }
  }
}
