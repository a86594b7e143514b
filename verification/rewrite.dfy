/**
 * `String.prototype.replace` with a global (`g`) regular expression, as a
 * left-to-right scan: at each position the pattern either matches, and the
 * match is replaced and skipped, or it does not, and one character is copied.
 * Every pattern the markdown renderer uses consumes at least one character,
 * so no empty-match rule is needed.
 *
 * A pattern is given as a matcher over the rest of the input. The `lineStart`
 * flag tells it whether the position begins a line, which is what `^` means
 * under the `m` flag: the start of the input or just after a line terminator.
 */
module Rewrite {
  import opened Options
  import opened JsString

  /** One match at the current position: the input it consumes and its replacement. */
  datatype Match = Match(len: nat, out: string)

  type Matcher = (bool, string) -> Option<Match>

  /** `s.replace(/re/g, f)` for the pattern `m`. A matcher reply that would
      consume nothing or more than what is left counts as no match. */
  function ReplaceAll(s: string, lineStart: bool, m: Matcher): string
    decreases |s|
  {
    if s == [] then []
    else
      var x := m(lineStart, s);
      if x.Some? && 0 < x.value.len <= |s| then
        x.value.out + ReplaceAll(s[x.value.len..], IsLineTerminator(s[x.value.len - 1]), m)
      else
        [s[0]] + ReplaceAll(s[1..], IsLineTerminator(s[0]), m)
  }

  /** One step of the scan when the pattern matches at the front. */
  lemma ReplaceAllMatch(s: string, lineStart: bool, m: Matcher, x: Match)
    requires m(lineStart, s) == Some(x) && 0 < x.len <= |s|
    ensures ReplaceAll(s, lineStart, m) == x.out + ReplaceAll(s[x.len..], IsLineTerminator(s[x.len - 1]), m)
  {
  }

  /** The same step, for a match that consumes exactly the prefix `p`. */
  lemma ReplaceAllPrefix(p: string, rest: string, lineStart: bool, m: Matcher, out: string)
    requires p != [] && m(lineStart, p + rest) == Some(Match(|p|, out))
    ensures ReplaceAll(p + rest, lineStart, m) == out + ReplaceAll(rest, IsLineTerminator(p[|p| - 1]), m)
  {
    var t := p + rest;
    assert t[|p|..] == rest;
    assert t[|p| - 1] == p[|p| - 1];
  }

  /** A match that takes the whole text is the whole replacement. */
  lemma ReplaceAllWhole(t: string, lineStart: bool, m: Matcher, out: string)
    requires t != [] && m(lineStart, t) == Some(Match(|t|, out))
    ensures ReplaceAll(t, lineStart, m) == out
  {
    assert t + [] == t;
    ReplaceAllPrefix(t, [], lineStart, m, out);
    assert out + [] == out;
  }

  /** Whether position `i` of `s` begins a line, when the start of `s` does iff `lineStart`. */
  predicate LineStartAt(s: string, lineStart: bool, i: nat)
    requires i <= |s|
  {
    if i == 0 then lineStart else IsLineTerminator(s[i - 1])
  }

  /** The pattern matches nowhere in `s`. */
  ghost predicate Silent(s: string, lineStart: bool, m: Matcher) {
    forall i :: 0 <= i < |s| ==> m(LineStartAt(s, lineStart, i), s[i..]).None?
  }

  /** A pattern that matches nowhere leaves the input as it is. */
  lemma {:induction false} SilentIsIdentity(s: string, lineStart: bool, m: Matcher)
    requires Silent(s, lineStart, m)
    ensures ReplaceAll(s, lineStart, m) == s
  {
    if s != [] {
      assert LineStartAt(s, lineStart, 0) == lineStart;
      assert s[0..] == s;
      var t := s[1..];
      forall i | 0 <= i < |t|
        ensures m(LineStartAt(t, IsLineTerminator(s[0]), i), t[i..]).None?
      {
        assert t[i..] == s[i + 1..];
        assert LineStartAt(t, IsLineTerminator(s[0]), i) == LineStartAt(s, lineStart, i + 1);
      }
      SilentIsIdentity(t, IsLineTerminator(s[0]), m);
      assert s == [s[0]] + t;
    }
  }

  /** `pat` occurs in `t` at position `c`. */
  predicate OccursAt(t: string, pat: string, c: nat) {
    c + |pat| <= |t| && t[c..c + |pat|] == pat
  }

  /** A pattern at the front of a suffix is a pattern at that position. */
  lemma OccursAtSuffix(s: string, i: nat, p: string)
    requires i <= |s|
    ensures StartsWith(s[i..], p) <==> OccursAt(s, p, i)
    ensures OccursAt(s, p, i) && p != [] ==> s[i] == p[0]
  {
    if i + |p| <= |s| {
      assert s[i..][..|p|] == s[i..i + |p|];
    }
  }

  /** Where `u` sits inside `t` at `off`, an occurrence within `u` is an
      occurrence in `t` shifted by `off`. */
  lemma OccursShift(t: string, u: string, pat: string, off: nat, k: nat)
    requires off + |u| <= |t| && t[off..off + |u|] == u
    requires k + |pat| <= |u|
    ensures OccursAt(t, pat, off + k) <==> OccursAt(u, pat, k)
  {
    assert forall i :: k <= i < k + |pat| ==> u[i] == t[off + i];
    assert t[off + k..off + k + |pat|] == u[k..k + |pat|];
  }

  /** No line terminator in `t[from..c]`: `.` can cross that stretch. */
  predicate LineClear(t: string, from: nat, c: nat)
    requires from <= c <= |t|
  {
    forall i :: from <= i < c ==> !IsLineTerminator(t[i])
  }

  /** Lazy `[\s\S]*?` followed by `pat`: the first occurrence of `pat` at or after `from`. */
  function FindFrom(t: string, pat: string, from: nat): (r: Option<nat>)
    requires from <= |t|
    ensures r.Some? ==> from <= r.value <= |t| && OccursAt(t, pat, r.value)
    ensures r.Some? ==> forall c :: from <= c < r.value ==> !OccursAt(t, pat, c)
    ensures r.None? ==> forall c :: from <= c <= |t| ==> !OccursAt(t, pat, c)
    decreases |t| - from
  {
    if OccursAt(t, pat, from) then Some(from)
    else if from == |t| then None
    else FindFrom(t, pat, from + 1)
  }

  /** Lazy `.*?` followed by `pat`: the first occurrence of `pat` at or after
      `from` that is reached without crossing a line terminator. */
  function FindOnLine(t: string, pat: string, from: nat): (r: Option<nat>)
    requires from <= |t|
    ensures r.Some? ==> from <= r.value <= |t| && OccursAt(t, pat, r.value) && LineClear(t, from, r.value)
    ensures r.Some? ==> forall c :: from <= c < r.value ==> !OccursAt(t, pat, c)
    ensures r.None? ==> forall c :: from <= c <= |t| && LineClear(t, from, c) ==> !OccursAt(t, pat, c)
    decreases |t| - from
  {
    if OccursAt(t, pat, from) then Some(from)
    else if from == |t| || IsLineTerminator(t[from]) then None
    else FindOnLine(t, pat, from + 1)
  }

  /** Greedy `[\s\S]*` followed by `pat`: the last occurrence of `pat` in
      `[from, upto]`. */
  function FindLast(t: string, pat: string, from: nat, upto: nat): (r: Option<nat>)
    ensures r.Some? ==> from <= r.value <= upto && OccursAt(t, pat, r.value)
    ensures r.Some? ==> forall c :: r.value < c <= upto ==> !OccursAt(t, pat, c)
    ensures r.None? ==> forall c :: from <= c <= upto ==> !OccursAt(t, pat, c)
    decreases upto
  {
    if upto < from then None
    else if OccursAt(t, pat, upto) then Some(upto)
    else if upto == 0 then None
    else FindLast(t, pat, from, upto - 1)
  }

  /** Length of the run of characters satisfying `p` that starts at `from`. */
  function RunLength(t: string, from: nat, p: char -> bool): (n: nat)
    requires from <= |t|
    ensures from + n <= |t|
    ensures forall i :: from <= i < from + n ==> p(t[i])
    ensures from + n == |t| || !p(t[from + n])
    decreases |t| - from
  {
    if from < |t| && p(t[from]) then 1 + RunLength(t, from + 1, p) else 0
  }

  /** The first occurrence at or after `from` is the one `FindFrom` finds. */
  lemma FindFromIs(t: string, pat: string, from: nat, c: nat)
    requires from <= c <= |t| && OccursAt(t, pat, c)
    requires forall k :: from <= k < c ==> !OccursAt(t, pat, k)
    ensures FindFrom(t, pat, from) == Some(c)
  {
  }

  /** The first occurrence reached without crossing a line terminator is
      the one `FindOnLine` finds. */
  lemma FindOnLineIs(t: string, pat: string, from: nat, c: nat)
    requires from <= c <= |t| && OccursAt(t, pat, c) && LineClear(t, from, c)
    requires forall k :: from <= k < c ==> !OccursAt(t, pat, k)
    ensures FindOnLine(t, pat, from) == Some(c)
  {
  }

  /** The last occurrence up to `upto` is the one `FindLast` finds. */
  lemma FindLastIs(t: string, pat: string, from: nat, upto: nat, c: nat)
    requires from <= c <= upto && OccursAt(t, pat, c)
    requires forall k :: c < k <= upto ==> !OccursAt(t, pat, k)
    ensures FindLast(t, pat, from, upto) == Some(c)
  {
  }

  /** A maximal run of `p` is the one `RunLength` measures. */
  lemma RunLengthIs(t: string, from: nat, p: char -> bool, n: nat)
    requires from + n <= |t|
    requires forall i :: from <= i < from + n ==> p(t[i])
    requires from + n == |t| || !p(t[from + n])
    ensures RunLength(t, from, p) == n
  {
  }

  /** The three parts of a concatenation, read back by slicing. */
  lemma Infix(a: string, u: string, b: string)
    ensures (a + u + b)[..|a|] == a
    ensures (a + u + b)[|a|..|a| + |u|] == u
    ensures (a + u + b)[|a| + |u|..] == b
  {
  }

  /** The middle parts of a four-part concatenation. */
  lemma Infix4(a: string, x: string, y: string, b: string)
    ensures (a + x + y + b)[|a|..|a| + |x|] == x
    ensures (a + x + y + b)[|a|..|a| + |x| + |y|] == x + y
  {
    Infix(a + x, y, b);
    Infix(a, x, y + b);
    assert a + x + y + b == a + x + (y + b);
    assert a + x + y + b == a + (x + y) + b;
    Infix(a, x + y, b);
  }

  /** Where `u` sits in `t` at `off` and `pat` first occurs in `u` at its
      very end, the lazy search from `off` stops there. */
  lemma FindFromInfix(t: string, pat: string, off: nat, u: string)
    requires off + |u| <= |t| && t[off..off + |u|] == u
    requires |pat| <= |u| && OccursAt(u, pat, |u| - |pat|)
    requires forall i :: 0 <= i < |u| - |pat| ==> !OccursAt(u, pat, i)
    ensures FindFrom(t, pat, off) == Some(off + |u| - |pat|)
  {
    forall c | off <= c < off + |u| - |pat|
      ensures !OccursAt(t, pat, c)
    {
      OccursShift(t, u, pat, off, c - off);
    }
    OccursShift(t, u, pat, off, |u| - |pat|);
    FindFromIs(t, pat, off, off + |u| - |pat|);
  }

  /** In `a + x + pat + b`, where `pat` does not occur earlier in
      `x + pat`, the lazy search from the end of `a` stops after `x`. */
  lemma FindFromBefore(a: string, x: string, pat: string, b: string)
    requires forall i :: 0 <= i < |x| ==> !OccursAt(x + pat, pat, i)
    ensures FindFrom(a + x + pat + b, pat, |a|) == Some(|a| + |x|)
  {
    var u := x + pat;
    Infix4(a, x, pat, b);
    assert u[|x|..|x| + |pat|] == pat;
    FindFromInfix(a + x + pat + b, pat, |a|, u);
  }
}
