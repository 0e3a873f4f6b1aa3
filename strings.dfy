/** The JavaScript string primitives the source relies on:
    `String.prototype.includes`, `toLowerCase` (on the characters that matter
    here), `trim` (through the blankness it is used to test), `split` with a
    string separator, and `Array.prototype.join`. */
module Strings {

  /** `s.includes(sub)`: `sub` occurs somewhere in `s` (the empty string occurs everywhere). */
  predicate Contains(s: string, sub: string)
    decreases |s|
  {
    (|sub| <= |s| && s[..|sub|] == sub) || (|s| > 0 && Contains(s[1..], sub))
  }

  /** `sub` occurs in `t` starting at index `j`. */
  ghost predicate OccursAt(t: string, sub: string, j: int)
  {
    0 <= j && j + |sub| <= |t| && t[j..j + |sub|] == sub
  }

  lemma {:induction false} ContainsHasOccurrence(s: string, sub: string)
    requires Contains(s, sub)
    ensures exists j :: OccursAt(s, sub, j)
    decreases |s|
  {
    if |sub| <= |s| && s[..|sub|] == sub {
      assert OccursAt(s, sub, 0);
    } else {
      ContainsHasOccurrence(s[1..], sub);
      var j :| OccursAt(s[1..], sub, j);
      assert s[1..][j..j + |sub|] == s[j + 1..j + 1 + |sub|];
      assert OccursAt(s, sub, j + 1);
    }
  }

  lemma {:induction false} OccurrenceIsContained(s: string, sub: string, j: int)
    requires OccursAt(s, sub, j)
    ensures Contains(s, sub)
    decreases j
  {
    if j > 0 {
      var t := s[1..];
      assert forall k :: j - 1 <= k < j - 1 + |sub| ==> t[k] == s[k + 1];
      assert t[j - 1..j - 1 + |sub|] == s[j..j + |sub|];
      OccurrenceIsContained(t, sub, j - 1);
    } else {
      assert s[..|sub|] == s[0..|sub|];
    }
  }

  /** `includes` holds exactly when `sub` occurs at some position of `s`. */
  lemma ContainsOccurs(s: string, sub: string)
    ensures Contains(s, sub) <==> exists j :: OccursAt(s, sub, j)
  {
    if Contains(s, sub) {
      ContainsHasOccurrence(s, sub);
    }
    if j :| OccursAt(s, sub, j) {
      OccurrenceIsContained(s, sub, j);
    }
  }

  /** `toLowerCase` restricted to ASCII: maps 'A'..'Z' to 'a'..'z' and keeps
      every other character. Every keyword the source looks for is made of
      ASCII letters other than 'i' and 'k', and the only non-ASCII characters
      whose lower case contains an ASCII letter lower to 'i' (U+0130) and 'k'
      (U+212A), so a keyword occurs in the full lower case of a string exactly
      when it occurs in this one. */
  function LowerChar(c: char): char
  {
    if 'A' <= c <= 'Z' then (c as int + 32) as char else c
  }

  function Lower(s: string): string
  {
    seq(|s|, i requires 0 <= i < |s| => LowerChar(s[i]))
  }

  /** The characters `String.prototype.trim` removes: ECMAScript WhiteSpace
      (tab, vertical tab, form feed, U+FEFF and the space separators) and
      LineTerminator (LF, CR, U+2028, U+2029). */
  predicate IsWhitespace(c: char)
  {
    || c == '\t' || c == '\n' || c == '\U{B}' || c == '\U{C}' || c == '\r'
    || c == ' ' || c == '\U{A0}' || c == '\U{1680}'
    || ('\U{2000}' <= c <= '\U{200A}')
    || c == '\U{2028}' || c == '\U{2029}' || c == '\U{202F}' || c == '\U{205F}'
    || c == '\U{3000}' || c == '\U{FEFF}'
  }

  /** `s.trim()` is the empty string, i.e. falsy. */
  predicate IsBlank(s: string)
  {
    forall i :: 0 <= i < |s| ==> IsWhitespace(s[i])
  }

  /** `s.split(sep)` for a non-empty string separator: the pieces between
      successive non-overlapping occurrences of `sep`, scanning left to right. */
  function Split(s: string, sep: string): (parts: seq<string>)
    requires sep != ""
  {
    SplitFrom(s, sep, 0)
  }

  /** Split `s`, knowing that no occurrence of `sep` starts before index `i`. */
  function SplitFrom(s: string, sep: string, i: nat): (parts: seq<string>)
    requires sep != "" && i <= |s|
    ensures |parts| >= 1
    decreases |s|, |s| - i
  {
    if i + |sep| > |s| then [s]
    else if s[i..i + |sep|] == sep then [s[..i]] + SplitFrom(s[i + |sep|..], sep, 0)
    else SplitFrom(s, sep, i + 1)
  }

  /** `parts.join(sep)`. */
  function Join(parts: seq<string>, sep: string): string
  {
    if |parts| == 0 then ""
    else if |parts| == 1 then parts[0]
    else parts[0] + sep + Join(parts[1..], sep)
  }

  lemma JoinCons(p: string, rest: seq<string>, sep: string)
    requires |rest| >= 1
    ensures Join([p] + rest, sep) == p + sep + Join(rest, sep)
  {
    assert ([p] + rest)[1..] == rest;
  }

  /** Splitting and joining back with the same separator gives the input. */
  lemma {:induction false} SplitJoin(s: string, sep: string)
    requires sep != ""
    ensures Join(Split(s, sep), sep) == s
  {
    SplitFromJoin(s, sep, 0);
  }

  lemma {:induction false} SplitFromJoin(s: string, sep: string, i: nat)
    requires sep != "" && i <= |s|
    ensures Join(SplitFrom(s, sep, i), sep) == s
    decreases |s|, |s| - i
  {
    if i + |sep| > |s| {
    } else if s[i..i + |sep|] == sep {
      var rest := s[i + |sep|..];
      SplitFromJoin(rest, sep, 0);
      JoinCons(s[..i], SplitFrom(rest, sep, 0), sep);
      assert s == s[..i] + sep + rest;
    } else {
      SplitFromJoin(s, sep, i + 1);
    }
  }

  /** No piece of a split contains the separator. */
  lemma {:induction false} SplitAvoidsSeparator(s: string, sep: string)
    requires sep != ""
    ensures forall k, j :: 0 <= k < |Split(s, sep)| ==> !OccursAt(Split(s, sep)[k], sep, j)
  {
    SplitFromAvoids(s, sep, 0);
  }

  lemma {:induction false} SplitFromAvoids(s: string, sep: string, i: nat)
    requires sep != "" && i <= |s|
    requires forall j :: 0 <= j < i ==> !OccursAt(s, sep, j)
    ensures forall k, j :: 0 <= k < |SplitFrom(s, sep, i)| ==> !OccursAt(SplitFrom(s, sep, i)[k], sep, j)
    decreases |s|, |s| - i
  {
    var parts := SplitFrom(s, sep, i);
    if i + |sep| > |s| {
      assert parts == [s];
    } else if s[i..i + |sep|] == sep {
      var rest := s[i + |sep|..];
      SplitFromAvoids(rest, sep, 0);
      assert parts == [s[..i]] + SplitFrom(rest, sep, 0);
      forall j | OccursAt(s[..i], sep, j) ensures false {
        assert s[..i][j..j + |sep|] == s[j..j + |sep|];
        assert OccursAt(s, sep, j);
      }
    } else {
      assert !OccursAt(s, sep, i);
      SplitFromAvoids(s, sep, i + 1);
    }
  }

  /** With a one-character separator, a piece of a split never holds that character. */
  lemma SplitPiecesLackChar(s: string, c: char)
    ensures forall k :: 0 <= k < |Split(s, [c])| ==> c !in Split(s, [c])[k]
  {
    SplitAvoidsSeparator(s, [c]);
    forall k | 0 <= k < |Split(s, [c])| ensures c !in Split(s, [c])[k] {
      var p := Split(s, [c])[k];
      forall j | 0 <= j < |p| ensures p[j] != c {
        assert !OccursAt(p, [c], j);
        assert p[j..j + 1] == [p[j]];
      }
    }
  }

  /** With a one-character separator, splitting `a + c + b` splits `a` and `b` apart. */
  lemma {:induction false} SplitAround(a: string, c: char, b: string)
    ensures Split(a + [c] + b, [c]) == Split(a, [c]) + Split(b, [c])
  {
    SplitFromAround(a, c, b, 0);
  }

  lemma {:induction false} SplitFromAround(a: string, c: char, b: string, i: nat)
    requires i <= |a|
    ensures SplitFrom(a + [c] + b, [c], i) == SplitFrom(a, [c], i) + Split(b, [c])
    decreases |a|, |a| - i
  {
    var t := a + [c] + b;
    if i == |a| {
      assert t[i..i + 1] == [c];
      assert t[..i] == a;
      assert t[i + 1..] == b;
    } else {
      assert t[i..i + 1] == a[i..i + 1];
      if a[i..i + 1] == [c] {
        var a' := a[i + 1..];
        assert t[i + 1..] == a' + [c] + b;
        assert t[..i] == a[..i];
        SplitFromAround(a', c, b, 0);
      } else {
        SplitFromAround(a, c, b, i + 1);
      }
    }
  }
}
