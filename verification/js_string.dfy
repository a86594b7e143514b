/**
 * The few pieces of JavaScript string semantics the script relies on:
 * the character classes of its regular expressions (`.`, `\s`, `\w`),
 * `String.prototype.trim`, `startsWith`, and `split`/`join` on a
 * one-character separator.
 */
module JsString {

  /** An ECMAScript line terminator (LF, CR, LS, PS); `.` never matches one. */
  predicate IsLineTerminator(c: char) {
    c == '\n' || c == '\r' || c == '\U{2028}' || c == '\U{2029}'
  }

  /** Any character `.` matches. */
  predicate NotLineTerminator(c: char) {
    !IsLineTerminator(c)
  }

  /** The `\s` class, which is also exactly what `trim` strips:
      ECMAScript WhiteSpace plus LineTerminator. */
  predicate IsWhitespace(c: char) {
    || IsLineTerminator(c)
    || c == '\t' || c == '\U{000B}' || c == '\U{000C}' || c == ' '
    || c == '\U{00A0}' || c == '\U{1680}' || ('\U{2000}' <= c <= '\U{200A}')
    || c == '\U{202F}' || c == '\U{205F}' || c == '\U{3000}' || c == '\U{FEFF}'
  }

  /** The `\w` class: ASCII letters, digits and underscore. */
  predicate IsWordChar(c: char) {
    ('a' <= c <= 'z') || ('A' <= c <= 'Z') || ('0' <= c <= '9') || c == '_'
  }

  /** `s.startsWith(p)`. */
  predicate StartsWith(s: string, p: string) {
    |p| <= |s| && s[..|p|] == p
  }

  /** Number of whitespace characters at the front of `s`. */
  function LeadingSpace(s: string): (n: nat)
    ensures n <= |s|
    ensures n == |s| || !IsWhitespace(s[n])
  {
    if s != [] && IsWhitespace(s[0]) then 1 + LeadingSpace(s[1..]) else 0
  }

  /** Everything `LeadingSpace` counts is whitespace. */
  lemma {:induction false} LeadingSpaceAll(s: string)
    ensures forall i :: 0 <= i < LeadingSpace(s) ==> IsWhitespace(s[i])
  {
    if s != [] && IsWhitespace(s[0]) {
      LeadingSpaceAll(s[1..]);
      forall i | 1 <= i < LeadingSpace(s)
        ensures IsWhitespace(s[i])
      {
        assert s[i] == s[1..][i - 1];
      }
    }
  }

  /** Number of whitespace characters at the back of `s`. */
  function TrailingSpace(s: string): (n: nat)
    ensures n <= |s|
    ensures n == |s| || !IsWhitespace(s[|s| - n - 1])
  {
    if s != [] && IsWhitespace(s[|s| - 1]) then 1 + TrailingSpace(s[..|s| - 1]) else 0
  }

  /** Everything `TrailingSpace` counts is whitespace. */
  lemma {:induction false} TrailingSpaceAll(s: string)
    ensures forall i :: |s| - TrailingSpace(s) <= i < |s| ==> IsWhitespace(s[i])
  {
    if s != [] && IsWhitespace(s[|s| - 1]) {
      var u := s[..|s| - 1];
      TrailingSpaceAll(u);
      forall i | |s| - TrailingSpace(s) <= i < |s| - 1
        ensures IsWhitespace(s[i])
      {
        assert s[i] == u[i];
      }
    }
  }

  /** `s.trim()`. */
  function Trim(s: string): string {
    var t := s[LeadingSpace(s)..];
    t[..|t| - TrailingSpace(t)]
  }

  /** `trim` leaves the infix after the leading whitespace that is followed
      only by whitespace and neither starts nor ends with whitespace. */
  lemma TrimSpec(s: string)
    ensures LeadingSpace(s) + |Trim(s)| <= |s|
    ensures Trim(s) == s[LeadingSpace(s)..LeadingSpace(s) + |Trim(s)|]
    ensures forall i :: LeadingSpace(s) + |Trim(s)| <= i < |s| ==> IsWhitespace(s[i])
    ensures Trim(s) == [] || (!IsWhitespace(Trim(s)[0]) && !IsWhitespace(Trim(s)[|Trim(s)| - 1]))
  {
    var a := LeadingSpace(s);
    var t := s[a..];
    var n := |t| - TrailingSpace(t);
    TrailingSpaceAll(t);
    assert Trim(s) == t[..n];
    assert t[..n] == s[a..a + n];
    forall i | a + n <= i < |s|
      ensures IsWhitespace(s[i])
    {
      assert s[i] == t[i - a];
    }
    if n > 0 {
      assert Trim(s)[0] == s[a];
    }
  }

  /** A string is its trim framed by the whitespace `trim` removes. */
  lemma TrimParts(s: string)
    ensures var a := LeadingSpace(s);
            var m := Trim(s);
            && a + |m| <= |s|
            && s == s[..a] + m + s[a + |m|..]
            && AllWhitespace(s[..a]) && AllWhitespace(s[a + |m|..])
  {
    var a := LeadingSpace(s);
    var m := Trim(s);
    TrimSpec(s);
    LeadingSpaceAll(s);
    WhitespacePrefix(s, a);
    WhitespaceSuffix(s, a + |m|);
    Thirds(s, a, a + |m|);
  }

  lemma WhitespacePrefix(s: string, j: nat)
    requires j <= |s| && forall i :: 0 <= i < j ==> IsWhitespace(s[i])
    ensures AllWhitespace(s[..j])
  {
  }

  lemma WhitespaceSuffix(s: string, j: nat)
    requires j <= |s| && forall i :: j <= i < |s| ==> IsWhitespace(s[i])
    ensures AllWhitespace(s[j..])
  {
    forall i | 0 <= i < |s| - j
      ensures IsWhitespace(s[j..][i])
    {
      assert s[j..][i] == s[j + i];
    }
  }

  /** A string is its three slices at `i` and `j`, put back together. */
  lemma Thirds(s: string, i: nat, j: nat)
    requires i <= j <= |s|
    ensures s == s[..i] + s[i..j] + s[j..]
  {
  }

  /** A string with no whitespace at either end is its own trim. */
  lemma TrimOfTrimmed(s: string)
    requires s == [] || (!IsWhitespace(s[0]) && !IsWhitespace(s[|s| - 1]))
    ensures Trim(s) == s
  {
    assert LeadingSpace(s) == 0;
    var t := s[LeadingSpace(s)..];
    assert t == s;
    assert TrailingSpace(t) == 0;
  }

  /** Trimming twice is trimming once. */
  lemma TrimIdempotent(s: string)
    ensures Trim(Trim(s)) == Trim(s)
  {
    TrimSpec(s);
    TrimOfTrimmed(Trim(s));
  }

  predicate AllWhitespace(w: string) {
    forall i :: 0 <= i < |w| ==> IsWhitespace(w[i])
  }

  lemma {:induction false} LeadingSpaceAfter(w: string, rest: string)
    requires AllWhitespace(w)
    ensures LeadingSpace(w + rest) == |w| + LeadingSpace(rest)
  {
    if w != [] {
      assert (w + rest)[0] == w[0];
      assert (w + rest)[1..] == w[1..] + rest;
      LeadingSpaceAfter(w[1..], rest);
    } else {
      assert w + rest == rest;
    }
  }

  /** The trailing whitespace is exactly what follows the first `n` characters
      when those end in a non-whitespace character. */
  lemma {:induction false} TrailingSpaceIs(t: string, n: nat)
    requires n <= |t|
    requires forall i :: n <= i < |t| ==> IsWhitespace(t[i])
    requires n == 0 || !IsWhitespace(t[n - 1])
    ensures TrailingSpace(t) == |t| - n
    decreases |t| - n
  {
    if |t| > n {
      var u := t[..|t| - 1];
      assert forall i :: n <= i < |u| ==> u[i] == t[i];
      assert n > 0 ==> u[n - 1] == t[n - 1];
      TrailingSpaceIs(u, n);
    }
  }

  /** Whitespace after a string that does not end in whitespace is exactly
      the trailing whitespace. */
  lemma TrailingSpaceAfter(m: string, w: string)
    requires AllWhitespace(w)
    requires m != [] && !IsWhitespace(m[|m| - 1])
    ensures TrailingSpace(m + w) == |w|
  {
    var t := m + w;
    forall i | |m| <= i < |t|
      ensures IsWhitespace(t[i])
    {
      assert t[i] == w[i - |m|];
    }
    assert t[|m| - 1] == m[|m| - 1];
    TrailingSpaceIs(t, |m|);
  }

  /** A string of whitespace trims to nothing. */
  lemma TrimAllWhitespace(w: string)
    requires AllWhitespace(w)
    ensures Trim(w) == []
  {
    assert w == w + [];
    LeadingSpaceAfter(w, []);
  }

  /** Whitespace around a non-empty string that does not start or end with
      whitespace is exactly what `trim` removes. */
  lemma TrimAround(w1: string, m: string, w2: string)
    requires AllWhitespace(w1) && AllWhitespace(w2)
    requires m != [] && !IsWhitespace(m[0]) && !IsWhitespace(m[|m| - 1])
    ensures Trim(w1 + m + w2) == m
  {
    var s := w1 + m + w2;
    var t := m + w2;
    assert s == w1 + t;
    assert LeadingSpace(t) == 0 by {
      assert t[0] == m[0];
    }
    LeadingSpaceAfter(w1, t);
    assert s[|w1|..] == t;
    TrailingSpaceAfter(m, w2);
    assert Trim(s) == t[..|m|];
    assert t[..|m|] == m;
  }

  /** Whitespace around a string that does not start or end with whitespace
      is exactly what `trim` removes. */
  lemma TrimFrame(w1: string, m: string, w2: string)
    requires AllWhitespace(w1) && AllWhitespace(w2)
    requires m == [] || (!IsWhitespace(m[0]) && !IsWhitespace(m[|m| - 1]))
    ensures Trim(w1 + m + w2) == m
  {
    if m == [] {
      var w := w1 + w2;
      assert w1 + m + w2 == w;
      forall i | 0 <= i < |w|
        ensures IsWhitespace(w[i])
      {
        if i < |w1| {
          assert w[i] == w1[i];
        } else {
          assert w[i] == w2[i - |w1|];
        }
      }
      TrimAllWhitespace(w);
    } else {
      TrimAround(w1, m, w2);
    }
  }

  /** `s.split(sep)` for a one-character separator: the pieces between
      separators, always at least one (`"".split("|")` is `[""]`). */
  function Split(s: string, sep: char): (parts: seq<string>)
    ensures |parts| >= 1
    ensures forall k :: 0 <= k < |parts| ==> sep !in parts[k]
  {
    if s == [] then [[]]
    else
      var rest := Split(s[1..], sep);
      if s[0] == sep then [[]] + rest
      else [[s[0]] + rest[0]] + rest[1..]
  }

  /** `parts.join(sep)`. */
  function Join(parts: seq<string>, sep: char): string
  {
    if parts == [] then []
    else if |parts| == 1 then parts[0]
    else parts[0] + [sep] + Join(parts[1..], sep)
  }

  /** Joining the pieces of a split gives back the string. */
  lemma {:induction false} JoinSplit(s: string, sep: char)
    ensures Join(Split(s, sep), sep) == s
  {
    if s != [] {
      var rest := Split(s[1..], sep);
      JoinSplit(s[1..], sep);
      if s[0] == sep {
        assert Split(s, sep) == [[]] + rest;
        assert Join([[]] + rest, sep) == [] + [sep] + Join(rest, sep);
      } else {
        var parts := [[s[0]] + rest[0]] + rest[1..];
        assert Split(s, sep) == parts;
        if |rest| == 1 {
          assert Join(parts, sep) == [s[0]] + rest[0] == [s[0]] + Join(rest, sep);
        } else {
          assert parts[1..] == rest[1..];
          assert Join(rest, sep) == rest[0] + [sep] + Join(rest[1..], sep);
          assert Join(parts, sep) == [s[0]] + rest[0] + [sep] + Join(rest[1..], sep);
        }
        assert s == [s[0]] + s[1..];
      }
    }
  }

  /** Splitting a join of separator-free pieces gives back the pieces. */
  lemma {:induction false} SplitJoin(parts: seq<string>, sep: char)
    requires |parts| >= 1
    requires forall k :: 0 <= k < |parts| ==> sep !in parts[k]
    ensures Split(Join(parts, sep), sep) == parts
  {
    if |parts| == 1 {
      SplitFree(parts[0], sep);
    } else {
      var j := Join(parts[1..], sep);
      SplitJoin(parts[1..], sep);
      assert Join(parts, sep) == parts[0] + ([sep] + j);
      SplitPrefix(parts[0], [sep] + j, sep);
      assert ([sep] + j)[1..] == j;
      var q := Split([sep] + j, sep);
      assert q == [[]] + parts[1..];
      assert q[0] == [] && q[1..] == parts[1..];
      assert parts[0] + q[0] == parts[0];
      assert parts == [parts[0]] + parts[1..];
    }
  }

  /** A string without the separator splits into itself alone. */
  lemma {:induction false} SplitFree(s: string, sep: char)
    requires sep !in s
    ensures Split(s, sep) == [s]
  {
    if s != [] {
      SplitFree(s[1..], sep);
      assert s == [s[0]] + s[1..];
    }
  }

  /** A string that does not start with the separator adds its first
      character to the first piece of the rest. */
  lemma SplitCons(s: string, sep: char)
    requires s != [] && s[0] != sep
    ensures var rest := Split(s[1..], sep); Split(s, sep) == [[s[0]] + rest[0]] + rest[1..]
  {
  }

  /** A separator-free prefix is glued onto the first piece of what follows. */
  lemma {:induction false} SplitPrefix(x: string, y: string, sep: char)
    requires sep !in x
    ensures var p := Split(y, sep); Split(x + y, sep) == [x + p[0]] + p[1..]
  {
    var p := Split(y, sep);
    if x != [] {
      var t := x + y;
      assert t[1..] == x[1..] + y;
      SplitPrefix(x[1..], y, sep);
      SplitCons(t, sep);
      assert [x[0]] + (x[1..] + p[0]) == x + p[0];
    } else {
      assert x + y == y;
      assert x + p[0] == p[0];
      assert [p[0]] + p[1..] == p;
    }
  }

  /** A trailing separator ends the split with an empty piece. */
  lemma {:induction false} SplitTrailing(x: string, sep: char)
    ensures Split(x + [sep], sep) == Split(x, sep) + [[]]
  {
    if x == [] {
      assert [] + [sep] == [sep];
      assert Split([sep], sep) == [[]] + Split([], sep);
    } else {
      var t := x + [sep];
      assert t[1..] == x[1..] + [sep];
      SplitTrailing(x[1..], sep);
      var rest := Split(x[1..], sep);
      if x[0] != sep {
        SplitCons(t, sep);
        SplitCons(x, sep);
        assert (rest + [[]])[0] == rest[0];
        assert (rest + [[]])[1..] == rest[1..] + [[]];
      }
    }
  }
}
