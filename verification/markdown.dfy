/**
 * The markdown renderer applied to a finished reply: seven global
 * regular-expression replacements in a fixed order — fenced code, tables,
 * list items, list wrapping, merging adjacent lists, bold, italic — each
 * over the output of the previous one.
 */
module Markdown {
  import opened Options
  import opened JsString
  import opened Rewrite
  import Tables

  const Fence: string := "```"

  /** `s.replace(/c/g, rep)` for a single character `c`. */
  function ReplaceChar(s: string, c: char, rep: string): string {
    if s == [] then []
    else (if s[0] == c then rep else [s[0]]) + ReplaceChar(s[1..], c, rep)
  }

  /** Replacing `c` by a text without `c` leaves no `c`, and touches no
      character other than `c` and those of the replacement. */
  lemma {:induction false} ReplaceCharSpec(s: string, c: char, rep: string)
    ensures c !in rep ==> c !in ReplaceChar(s, c, rep)
    ensures forall d :: d != c && d !in rep ==> (d in ReplaceChar(s, c, rep) <==> d in s)
  {
    if s != [] {
      ReplaceCharSpec(s[1..], c, rep);
      assert s == [s[0]] + s[1..];
    }
  }

  /** A single character: `c` becomes the replacement, anything else stays. */
  lemma ReplaceCharOne(x: char, c: char, rep: string)
    ensures ReplaceChar([x], c, rep) == if x == c then rep else [x]
  {
    assert [x][1..] == [];
  }

  /** Replacing works character by character: the replacement of a
      concatenation is the concatenation of the replacements. With
      `ReplaceCharOne` this fixes every position of the result. */
  lemma {:induction false} ReplaceCharAppend(a: string, b: string, c: char, rep: string)
    ensures ReplaceChar(a + b, c, rep) == ReplaceChar(a, c, rep) + ReplaceChar(b, c, rep)
  {
    if a != [] {
      assert (a + b)[1..] == a[1..] + b;
      ReplaceCharAppend(a[1..], b, c, rep);
    } else {
      assert a + b == b;
    }
  }

  /** The escaping of code inside a fence: `<` first, then `>`. */
  function Escape(code: string): string {
    ReplaceChar(ReplaceChar(code, '<', "&lt;"), '>', "&gt;")
  }

  /** Escaped code holds no angle bracket. */
  lemma EscapeNoBrackets(code: string)
    ensures '<' !in Escape(code) && '>' !in Escape(code)
  {
    var lt := ReplaceChar(code, '<', "&lt;");
    ReplaceCharSpec(code, '<', "&lt;");
    ReplaceCharSpec(lt, '>', "&gt;");
  }

  /** How a browser reads the escaped text back: the two entities become
      the characters they stand for, everything else is itself. */
  function Unescape(s: string): string
    decreases |s|
  {
    if s == [] then []
    else if StartsWith(s, "&lt;") then "<" + Unescape(s[4..])
    else if StartsWith(s, "&gt;") then ">" + Unescape(s[4..])
    else [s[0]] + Unescape(s[1..])
  }

  /** Escaping one character. */
  lemma EscapeCons(x: char, rest: string)
    ensures Escape([x] + rest)
         == (if x == '<' then "&lt;" else if x == '>' then "&gt;" else [x]) + Escape(rest)
  {
    var lt := ReplaceChar([x], '<', "&lt;");
    assert [x][0] == x && [x][1..] == [];
    assert lt == (if x == '<' then "&lt;" else [x]) + ReplaceChar([], '<', "&lt;");
    ReplaceCharAppend([x], rest, '<', "&lt;");
    assert ReplaceChar([x] + rest, '<', "&lt;") == lt + ReplaceChar(rest, '<', "&lt;");
    ReplaceCharAppend(lt, ReplaceChar(rest, '<', "&lt;"), '>', "&gt;");
    assert Escape([x] + rest) == ReplaceChar(lt, '>', "&gt;") + Escape(rest);
    if x == '<' {
      assert lt == "&lt;";
      assert ReplaceChar("&lt;", '>', "&gt;") == "&lt;" by {
        assert "&lt;"[1..] == "lt;";
        assert "lt;"[1..] == "t;";
        assert "t;"[1..] == ";";
        assert ";"[1..] == [];
      }
    } else {
      assert lt == [x];
      assert ReplaceChar([x], '>', "&gt;") == (if x == '>' then "&gt;" else [x]) + ReplaceChar([], '>', "&gt;");
    }
  }

  /** Code without `&` comes back unchanged from escaping followed by the
      browser's reading: the escaping loses nothing. */
  lemma {:induction false} UnescapeEscape(code: string)
    requires '&' !in code
    ensures Unescape(Escape(code)) == code
  {
    if code != [] {
      var x, rest := code[0], code[1..];
      assert code == [x] + rest;
      EscapeCons(x, rest);
      UnescapeEscape(rest);
      var e := Escape(rest);
      if x == '<' {
        assert Escape(code) == "&lt;" + e;
        assert ("&lt;" + e)[4..] == e;
      } else if x == '>' {
        assert Escape(code) == "&gt;" + e;
        assert ("&gt;" + e)[4..] == e;
      } else {
        assert Escape(code) == [x] + e;
        assert ([x] + e)[1..] == e;
      }
    }
  }

  lemma EscapeAppend(a: string, b: string)
    ensures Escape(a + b) == Escape(a) + Escape(b)
  {
    ReplaceCharAppend(a, b, '<', "&lt;");
    ReplaceCharAppend(ReplaceChar(a, '<', "&lt;"), ReplaceChar(b, '<', "&lt;"), '>', "&gt;");
  }

  lemma {:induction false} ReplaceAbsent(s: string, c: char, rep: string)
    requires c !in s
    ensures ReplaceChar(s, c, rep) == s
  {
    if s != [] {
      ReplaceAbsent(s[1..], c, rep);
      assert s == [s[0]] + s[1..];
    }
  }

  /** Whitespace is left alone by escaping. */
  lemma EscapeWhitespace(w: string)
    requires AllWhitespace(w)
    ensures Escape(w) == w
  {
    assert '<' !in w && '>' !in w by {
      forall i | 0 <= i < |w| ensures w[i] != '<' && w[i] != '>' {
        assert IsWhitespace(w[i]);
      }
    }
    ReplaceAbsent(w, '<', "&lt;");
    ReplaceAbsent(w, '>', "&gt;");
  }

  /** Escaping keeps non-whitespace ends non-whitespace. */
  lemma EscapeEnds(m: string)
    requires m != [] && !IsWhitespace(m[0]) && !IsWhitespace(m[|m| - 1])
    ensures var e := Escape(m); e != [] && !IsWhitespace(e[0]) && !IsWhitespace(e[|e| - 1])
  {
    assert m == [m[0]] + m[1..];
    EscapeCons(m[0], m[1..]);
    var init, last := m[..|m| - 1], m[|m| - 1];
    assert m == init + [last];
    EscapeAppend(init, [last]);
    EscapeCons(last, []);
    assert [last] + [] == [last];
  }

  /** Trimming and escaping commute: the escaped code of a block is the
      escaping of the trimmed code. */
  lemma TrimEscape(code: string)
    ensures Trim(Escape(code)) == Escape(Trim(code))
  {
    var a := LeadingSpace(code);
    var m := Trim(code);
    TrimParts(code);
    TrimSpec(code);
    EscapeFrame(code[..a], m, code[a + |m|..]);
  }

  /** Escaping a string framed by whitespace escapes the inside and keeps
      the frame, which `trim` then removes. */
  lemma EscapeFrame(w1: string, m: string, w2: string)
    requires AllWhitespace(w1) && AllWhitespace(w2)
    requires m == [] || (!IsWhitespace(m[0]) && !IsWhitespace(m[|m| - 1]))
    ensures Trim(Escape(w1 + m + w2)) == Escape(m)
  {
    EscapeAppend(w1 + m, w2);
    EscapeAppend(w1, m);
    EscapeWhitespace(w1);
    EscapeWhitespace(w2);
    if m != [] {
      EscapeEnds(m);
    } else {
      assert Escape(m) == [];
    }
    TrimFrame(w1, Escape(m), w2);
  }

  /** What a fenced block shows: for code without `&`, the browser reads the
      escaped block body back as the trimmed code, and the body holds no raw
      angle bracket that could open a tag. */
  lemma CodeBodyShowsCode(code: string)
    requires '&' !in code
    ensures '<' !in Trim(Escape(code)) && '>' !in Trim(Escape(code))
    ensures Unescape(Trim(Escape(code))) == Trim(code)
  {
    TrimEscape(code);
    var m := Trim(code);
    EscapeNoBrackets(m);
    assert '&' !in m by {
      forall i | 0 <= i < |m| ensures m[i] != '&' {
        assert m[i] == code[LeadingSpace(code) + i];
      }
    }
    UnescapeEscape(m);
  }

  const CodeOpen: string :=
    "<div class=\"code-block-wrapper\">\n                    <pre><code class=\"language-"
  const CodeClose: string :=
    "</code></pre>\n                    <button class=\"copy-btn\" title=\"Kopiraj kodo\">\n"
    + "                        <span class=\"material-symbols-outlined\">content_copy</span>\n"
    + "                    </button>\n                </div>"

  /** The HTML that replaces one fenced block. */
  function CodeBlock(lang: string, code: string): string {
    CodeOpen + (if lang == [] then "plaintext" else lang) + "\">" + Trim(Escape(code)) + CodeClose
  }

  /** Where the fenced code pattern ```` /```(\w*)\n([\s\S]*?)```/ ````
      matches at the front of `t`: the LF `j` that ends the language and the
      start `c` of the closing fence. Since `\n` is no word character, the
      language is the whole run of word characters. */
  function FenceSpan(t: string): (r: Option<(nat, nat)>)
    ensures r.Some? ==> 3 <= r.value.0 < r.value.1 && r.value.1 + 3 <= |t|
  {
    if !StartsWith(t, Fence) then None
    else
      var j := 3 + RunLength(t, 3, IsWordChar);
      if j < |t| && t[j] == '\n' then
        match FindFrom(t, Fence, j + 1)
        case Some(c) => Some((j, c))
        case None => None
      else None
  }

  /** The code pass's matcher: the fenced block becomes its HTML. */
  function CodeFence(lineStart: bool, t: string): Option<Match> {
    match FenceSpan(t)
    case Some((j, c)) => Some(Match(c + 3, CodeBlock(t[3..j], t[j + 1..c])))
    case None => None
  }

  /** `^- (.*)` under `gm`: a line that starts with a dash and a space. */
  function ListItem(lineStart: bool, t: string): Option<Match> {
    if lineStart && StartsWith(t, "- ") then
      var n := RunLength(t, 2, NotLineTerminator);
      Some(Match(2 + n, "<li>" + t[2..2 + n] + "</li>"))
    else None
  }

  /** `(<li>.*<\/li>)` under `gs`: from an item's start to the LAST item end. */
  function ListWrap(lineStart: bool, t: string): Option<Match> {
    if StartsWith(t, "<li>") then
      match FindLast(t, "</li>", 4, |t|)
      case Some(k) => Some(Match(k + 5, "<ul>" + t[..k + 5] + "</ul>"))
      case None => None
    else None
  }

  /** `<\/ul>\s?<ul>`: a list closed and reopened, with at most one space between. */
  function ListMerge(lineStart: bool, t: string): Option<Match> {
    if !StartsWith(t, "</ul>") then None
    else if 5 < |t| && IsWhitespace(t[5]) && OccursAt(t, "<ul>", 6) then Some(Match(10, ""))
    else if OccursAt(t, "<ul>", 5) then Some(Match(9, ""))
    else None
  }

  /** `\*\*(.*?)\*\*`: the shortest bold span on one line. */
  function Strong(lineStart: bool, t: string): Option<Match> {
    if StartsWith(t, "**") then
      match FindOnLine(t, "**", 2)
      case Some(k) => Some(Match(k + 2, "<strong>" + t[2..k] + "</strong>"))
      case None => None
    else None
  }

  /** `\*(.*?)\*`: the shortest italic span on one line. */
  function Emphasis(lineStart: bool, t: string): Option<Match> {
    if StartsWith(t, "*") then
      match FindOnLine(t, "*", 1)
      case Some(k) => Some(Match(k + 1, "<em>" + t[1..k] + "</em>"))
      case None => None
    else None
  }

  /** `parseMarkdown`: the seven passes in the script's order. Plain text
      comes back exactly as it went in. */
  function ParseMarkdown(text: string): (r: string)
    ensures PlainText(text) ==> r == text
  {
    var code := ReplaceAll(text, true, CodeFence);
    var tables := ReplaceAll(code, true, Tables.TableAsWritten);
    var items := ReplaceAll(tables, true, ListItem);
    var lists := ReplaceAll(items, true, ListWrap);
    var merged := ReplaceAll(lists, true, ListMerge);
    var strong := ReplaceAll(merged, true, Strong);
    PlainTextSilent(text);
    ReplaceAll(strong, true, Emphasis)
  }

  /** Text the three list passes cannot touch: no `<li>` or `</ul>`, and no
      line that starts with a dash and a space. */
  predicate ListFree(s: string) {
    && (forall i :: 0 <= i <= |s| ==> !OccursAt(s, "<li>", i) && !OccursAt(s, "</ul>", i))
    && (forall i :: 0 <= i < |s| && LineStartAt(s, true, i) ==> !OccursAt(s, "- ", i))
  }

  /** Text none of the passes can touch: list-free, and no asterisk,
      backtick or pipe. */
  predicate PlainText(s: string) {
    '*' !in s && '`' !in s && '|' !in s && ListFree(s)
  }

  /** Without a backtick no fence opens. */
  lemma NoBacktickNoFence(s: string)
    requires '`' !in s
    ensures Silent(s, true, CodeFence)
  {
    forall i | 0 <= i < |s|
      ensures CodeFence(LineStartAt(s, true, i), s[i..]).None?
    {
      OccursAtSuffix(s, i, Fence);
    }
  }

  /** Without a pipe no table starts, whichever way the header is read. */
  lemma NoPipeNoTable(s: string)
    requires '|' !in s
    ensures Silent(s, true, Tables.TableAsWritten) && Silent(s, true, Tables.Table)
  {
    forall i | 0 <= i < |s|
      ensures Tables.TableAsWritten(LineStartAt(s, true, i), s[i..]).None?
      ensures Tables.Table(LineStartAt(s, true, i), s[i..]).None?
    {
      assert s[i..][0] == s[i];
    }
  }

  /** Without an asterisk neither emphasis pass matches. */
  lemma NoAsteriskNoEmphasis(s: string)
    requires '*' !in s
    ensures Silent(s, true, Strong) && Silent(s, true, Emphasis)
  {
    forall i | 0 <= i < |s|
      ensures Strong(LineStartAt(s, true, i), s[i..]).None?
      ensures Emphasis(LineStartAt(s, true, i), s[i..]).None?
    {
      OccursAtSuffix(s, i, "**");
      OccursAtSuffix(s, i, "*");
    }
  }

  /** Without an opening `- `, `<li>` or `</ul>` the list passes never match. */
  lemma ListPassesSilent(s: string)
    requires ListFree(s)
    ensures Silent(s, true, ListItem) && Silent(s, true, ListWrap) && Silent(s, true, ListMerge)
  {
    forall i | 0 <= i < |s|
      ensures ListItem(LineStartAt(s, true, i), s[i..]).None?
      ensures ListWrap(LineStartAt(s, true, i), s[i..]).None?
      ensures ListMerge(LineStartAt(s, true, i), s[i..]).None?
    {
      OccursAtSuffix(s, i, "- ");
      OccursAtSuffix(s, i, "<li>");
      OccursAtSuffix(s, i, "</ul>");
    }
  }

  /** Text without an `i`, a `u` or a dash holds no `<li>`, no `</ul>`
      and no `- `, so it is list-free. */
  lemma ListFreeByChars(s: string)
    requires 'i' !in s && 'u' !in s && '-' !in s
    ensures ListFree(s)
  {
    forall i | 0 <= i <= |s|
      ensures !OccursAt(s, "<li>", i) && !OccursAt(s, "</ul>", i) && (i < |s| ==> !OccursAt(s, "- ", i))
    {
      if i + 4 <= |s| {
        assert s[i..i + 4][2] == s[i + 2] && s[i + 2] in s;
      }
      if i + 5 <= |s| {
        assert s[i..i + 5][2] == s[i + 2];
      }
      if i + 2 <= |s| {
        assert s[i..i + 2][0] == s[i] && s[i] in s;
      }
    }
  }

  /** The five passes after the table pass leave list-free text without an
      asterisk as it is. */
  lemma LaterPassesSilent(s: string)
    requires '*' !in s && ListFree(s)
    ensures ReplaceAll(ReplaceAll(ReplaceAll(ReplaceAll(ReplaceAll(s, true, ListItem), true, ListWrap), true, ListMerge), true, Strong), true, Emphasis) == s
  {
    ListPassesSilent(s);
    NoAsteriskNoEmphasis(s);
    SilentIsIdentity(s, true, ListItem);
    SilentIsIdentity(s, true, ListWrap);
    SilentIsIdentity(s, true, ListMerge);
    SilentIsIdentity(s, true, Strong);
    SilentIsIdentity(s, true, Emphasis);
  }

    /** One character at a time, so that each literal check stays small. */
  lemma SampleHtmlNo(c: char)
    requires c == '*' || c == 'i' || c == 'u' || c == '-'
    ensures c !in Tables.TableHtml([], "\n" + Tables.SampleRow)
  {
    if c == '*' {
      Tables.SampleHtmlAvoids('*');
    } else if c == 'i' {
      Tables.SampleHtmlAvoids('i');
    } else if c == 'u' {
      Tables.SampleHtmlAvoids('u');
    } else {
      Tables.SampleHtmlAvoids('-');
    }
  }

/** The table `Tables.SampleTable` renders to holds no asterisk, `i`, `u`
      or dash. */
  lemma SampleHtmlChars()
    ensures '*' !in Tables.TableHtml([], "\n" + Tables.SampleRow)
    ensures 'i' !in Tables.TableHtml([], "\n" + Tables.SampleRow)
    ensures 'u' !in Tables.TableHtml([], "\n" + Tables.SampleRow)
    ensures '-' !in Tables.TableHtml([], "\n" + Tables.SampleRow)
  {
    SampleHtmlNo('*');
    SampleHtmlNo('i');
    SampleHtmlNo('u');
    SampleHtmlNo('-');
  }

  /** As written, the renderer turns the table `| a | b |` over the row
      `| 1 | 2 |` into a table whose header row has no cell, while the
      body row keeps the cells `1` and `2` (`Tables.SampleRowCells`). */
  lemma AsWrittenTableLosesHeader()
    ensures ParseMarkdown(Tables.SampleTable) == Tables.TableHtml([], "\n" + Tables.SampleRow)
  {
    var t := Tables.SampleTable;
    var html := Tables.TableHtml([], "\n" + Tables.SampleRow);
    assert '`' !in t;
    NoBacktickNoFence(t);
    SilentIsIdentity(t, true, CodeFence);
    Tables.SamplePassAsWritten();
    SampleHtmlChars();
    ListFreeByChars(html);
    LaterPassesSilent(html);
  }

  /** Each of the seven passes leaves plain text as it is. */
  lemma PlainTextSilent(s: string)
    ensures PlainText(s) ==>
      && ReplaceAll(s, true, CodeFence) == s
      && ReplaceAll(s, true, Tables.TableAsWritten) == s
      && ReplaceAll(s, true, ListItem) == s
      && ReplaceAll(s, true, ListWrap) == s
      && ReplaceAll(s, true, ListMerge) == s
      && ReplaceAll(s, true, Strong) == s
      && ReplaceAll(s, true, Emphasis) == s
  {
    if PlainText(s) {
      NoBacktickNoFence(s);
      NoPipeNoTable(s);
      NoAsteriskNoEmphasis(s);
      ListPassesSilent(s);
      SilentIsIdentity(s, true, CodeFence);
      SilentIsIdentity(s, true, Tables.TableAsWritten);
      SilentIsIdentity(s, true, ListItem);
      SilentIsIdentity(s, true, ListWrap);
      SilentIsIdentity(s, true, ListMerge);
      SilentIsIdentity(s, true, Strong);
      SilentIsIdentity(s, true, Emphasis);
    }
  }

  /** The language of a fenced block is its whole run of word characters. */
  lemma FenceLanguage(lang: string, code: string, rest: string)
    requires forall i :: 0 <= i < |lang| ==> IsWordChar(lang[i])
    ensures var t := Fence + lang + "\n" + code + Fence + rest;
            && StartsWith(t, Fence) && t[3..3 + |lang|] == lang && t[3 + |lang|] == '\n'
            && RunLength(t, 3, IsWordChar) == |lang|
  {
    var t := Fence + lang + "\n" + code + Fence + rest;
    assert t == Fence + (lang + ("\n" + (code + Fence + rest)));
    assert t[..3] == Fence;
    assert t[3..3 + |lang|] == lang;
    assert t[3 + |lang|] == '\n';
    forall i | 3 <= i < 3 + |lang|
      ensures IsWordChar(t[i])
    {
      assert t[i] == lang[i - 3];
    }
    RunLengthIs(t, 3, IsWordChar, |lang|);
  }

  /** The code of a fenced block runs to the first closing fence. */
  lemma FenceCode(a: string, code: string, rest: string)
    requires forall i :: 0 <= i < |code| ==> !OccursAt(code + Fence, Fence, i)
    ensures var t := a + code + Fence + rest;
            && t[|a|..|a| + |code|] == code
            && FindFrom(t, Fence, |a|) == Some(|a| + |code|)
  {
    Infix4(a, code, Fence, rest);
    FindFromBefore(a, code, Fence, rest);
  }

  /** The fence pattern, read off its three parts: the language run
      ending at a LF at `j`, and the first closing fence at `c`. */
  lemma FenceSpanIs(t: string, j: nat, c: nat)
    requires StartsWith(t, Fence) && 3 + RunLength(t, 3, IsWordChar) == j
    requires j < |t| && t[j] == '\n'
    requires FindFrom(t, Fence, j + 1) == Some(c)
    ensures FenceSpan(t) == Some((j, c))
  {
  }

  /** The three parts of a fenced block, as the fence pattern finds them. */
  lemma FenceParts(lang: string, code: string, rest: string)
    requires forall i :: 0 <= i < |lang| ==> IsWordChar(lang[i])
    requires forall i :: 0 <= i < |code| ==> !OccursAt(code + Fence, Fence, i)
    ensures var t := Fence + lang + "\n" + code + Fence + rest;
            var j, c := 3 + |lang|, 4 + |lang| + |code|;
            && FenceSpan(t) == Some((j, c))
            && t[3..j] == lang && t[j + 1..c] == code
  {
    var t := Fence + lang + "\n" + code + Fence + rest;
    FenceLanguage(lang, code, rest);
    FenceCode(Fence + lang + "\n", code, rest);
    FenceSpanIs(t, 3 + |lang|, 4 + |lang| + |code|);
  }

  /** The code pass's matcher on a text whose fence parts are known. */
  lemma CodeFenceIs(lineStart: bool, t: string, j: nat, c: nat)
    requires FenceSpan(t) == Some((j, c))
    ensures CodeFence(lineStart, t) == Some(Match(c + 3, CodeBlock(t[3..j], t[j + 1..c])))
  {
  }

  /** The same block from equal parts. */
  lemma CodeBlockOf(x: string, y: string, lang: string, code: string)
    requires x == lang && y == code
    ensures CodeBlock(x, y) == CodeBlock(lang, code)
  {
  }

  /** A fenced block whose closing fence is the first one after the language
      line matches as one code block. */
  lemma CodeFenceMatch(lineStart: bool, lang: string, code: string, rest: string)
    requires forall i :: 0 <= i < |lang| ==> IsWordChar(lang[i])
    requires forall i :: 0 <= i < |code| ==> !OccursAt(code + Fence, Fence, i)
    ensures var p := Fence + lang + "\n" + code + Fence;
            CodeFence(lineStart, p + rest) == Some(Match(|p|, CodeBlock(lang, code)))
  {
    var t := Fence + lang + "\n" + code + Fence + rest;
    var j, c := 3 + |lang|, 4 + |lang| + |code|;
    FenceParts(lang, code, rest);
    CodeFenceIs(lineStart, t, j, c);
    CodeBlockOf(t[3..j], t[j + 1..c], lang, code);
  }

  /** The code pass turns that block into its HTML and goes on after the
      closing fence. */
  lemma CodeFenceAt(lineStart: bool, lang: string, code: string, rest: string)
    requires forall i :: 0 <= i < |lang| ==> IsWordChar(lang[i])
    requires forall i :: 0 <= i < |code| ==> !OccursAt(code + Fence, Fence, i)
    ensures ReplaceAll(Fence + lang + "\n" + code + Fence + rest, lineStart, CodeFence)
         == CodeBlock(lang, code) + ReplaceAll(rest, false, CodeFence)
  {
    var p := Fence + lang + "\n" + code + Fence;
    var t := p + rest;
    CodeFenceMatch(lineStart, lang, code, rest);
    ReplaceAllPrefix(p, rest, lineStart, CodeFence, CodeBlock(lang, code));
    assert p[|p| - 1] == '`';
  }

  /** `**x**`, with no line break in `x` and no earlier closing `**`, becomes
      `<strong>x</strong>`, and the scan goes on after it. */
  lemma StrongWraps(lineStart: bool, x: string, rest: string)
    requires forall i :: 0 <= i < |x| ==> !IsLineTerminator(x[i])
    requires forall i :: 0 <= i < |x| ==> !OccursAt(x + "**", "**", i)
    ensures ReplaceAll("**" + x + "**" + rest, lineStart, Strong)
         == "<strong>" + x + "</strong>" + ReplaceAll(rest, false, Strong)
  {
    var t := "**" + x + "**" + rest;
    var c0 := 2 + |x|;
    assert t[..2] == "**";
    assert t[2..c0] == x;
    assert t[c0..c0 + 2] == "**";
    assert forall i :: 0 <= i < |x| ==> t[2 + i] == x[i];
    assert t[2..c0 + 2] == x + "**";
    forall c | 2 <= c < c0
      ensures !OccursAt(t, "**", c)
    {
      OccursShift(t, x + "**", "**", 2, c - 2);
    }
    assert LineClear(t, 2, c0);
    var f := FindOnLine(t, "**", 2);
    assert OccursAt(t, "**", c0);
    assert f.Some? && f.value == c0;
    assert t[c0 + 2..] == rest;
    assert t[c0 + 1] == '*';
  }

  /** `*x*`, with neither an asterisk nor a line break in `x`, becomes
      `<em>x</em>`, and the scan goes on after it. */
  lemma EmphasisWraps(lineStart: bool, x: string, rest: string)
    requires forall i :: 0 <= i < |x| ==> !IsLineTerminator(x[i]) && x[i] != '*'
    ensures ReplaceAll("*" + x + "*" + rest, lineStart, Emphasis)
         == "<em>" + x + "</em>" + ReplaceAll(rest, false, Emphasis)
  {
    var t := "*" + x + "*" + rest;
    var c0 := 1 + |x|;
    assert t[..1] == "*";
    assert t[1..c0] == x;
    assert t[c0..c0 + 1] == "*";
    assert forall i :: 0 <= i < |x| ==> t[1 + i] == x[i];
    assert LineClear(t, 1, c0);
    forall c | 1 <= c < c0
      ensures !OccursAt(t, "*", c)
    {
      assert t[c] == x[c - 1];
    }
    var f := FindOnLine(t, "*", 1);
    assert OccursAt(t, "*", c0);
    assert f.Some? && f.value == c0;
    assert t[c0 + 1..] == rest;
  }

  /** A line `- x` becomes `<li>x</li>`; the rest of the line is the item. */
  lemma ListItemAt(x: string, rest: string)
    requires forall i :: 0 <= i < |x| ==> !IsLineTerminator(x[i])
    requires rest == [] || IsLineTerminator(rest[0])
    ensures ReplaceAll("- " + x + rest, true, ListItem)
         == "<li>" + x + "</li>" + ReplaceAll(rest, false, ListItem)
  {
    var t := "- " + x + rest;
    assert t[..2] == "- ";
    assert forall i :: 0 <= i < |x| ==> t[2 + i] == x[i];
    var n := RunLength(t, 2, NotLineTerminator);
    assert 2 + |x| < |t| ==> t[2 + |x|] == rest[0];
    assert n == |x|;
    assert t[2..2 + n] == x;
    assert t[2 + n..] == rest;
    assert t[2 + n - 1] != '\n' && t[2 + n - 1] != '\r';
  }

  /** Two lists separated by nothing or by one whitespace character are
      merged: the closing and reopening tags vanish. */
  lemma ListMergeJoins(w: string, rest: string)
    requires w == [] || (|w| == 1 && IsWhitespace(w[0]))
    ensures ReplaceAll("</ul>" + w + "<ul>" + rest, false, ListMerge) == ReplaceAll(rest, false, ListMerge)
  {
    var t := "</ul>" + w + "<ul>" + rest;
    var len := 9 + |w|;
    assert t[..5] == "</ul>";
    assert t[5 + |w|..len] == "<ul>";
    if w != [] {
      assert t[5] == w[0];
      assert t[6..10] == "<ul>";
    } else {
      assert t[5..9] == "<ul>";
    }
    assert t[len..] == rest;
    assert t[len - 1] == '>';
  }

  /** With no `</li>` in `rest`, the last `</li>` of `<li>x</li>rest` is
      the one closing `x`. */
  lemma ListWrapFinds(x: string, rest: string)
    requires forall c :: 0 <= c <= |rest| ==> !OccursAt(rest, "</li>", c)
    ensures var t := "<li>" + x + "</li>" + rest;
            FindLast(t, "</li>", 4, |t|) == Some(4 + |x|)
  {
    var t := "<li>" + x + "</li>" + rest;
    var c0 := 4 + |x|;
    assert t[c0..c0 + 5] == "</li>";
    assert t[c0 + 5..] == rest;
    forall c | c0 < c <= |t|
      ensures !OccursAt(t, "</li>", c)
    {
      OccursAtSuffix(t, c, "</li>");
      if c < c0 + 5 {
        assert t[c] == "</li>"[c - c0];
      } else if c + 5 <= |t| {
        OccursShift(t, rest, "</li>", c0 + 5, c - c0 - 5);
      }
    }
    FindLastIs(t, "</li>", 4, |t|, c0);
  }

  /** The list pattern at the front of `<li>x</li>rest`. */
  lemma ListWrapMatch(lineStart: bool, x: string, rest: string)
    requires forall c :: 0 <= c <= |rest| ==> !OccursAt(rest, "</li>", c)
    ensures var p := "<li>" + x + "</li>";
            ListWrap(lineStart, p + rest) == Some(Match(|p|, "<ul>" + p + "</ul>"))
  {
    var p := "<li>" + x + "</li>";
    var t := p + rest;
    ListWrapFinds(x, rest);
    assert t[..4] == "<li>";
    assert t[..|p|] == p;
  }

  /** Everything from the first `<li>` to the LAST `</li>` becomes one list:
      with no `</li>` after the one closing `x`, the whole of `<li>x</li>`
      is wrapped, whatever `x` holds (other items, plain lines, breaks). */
  lemma ListWrapAt(lineStart: bool, x: string, rest: string)
    requires forall c :: 0 <= c <= |rest| ==> !OccursAt(rest, "</li>", c)
    ensures ReplaceAll("<li>" + x + "</li>" + rest, lineStart, ListWrap)
         == "<ul><li>" + x + "</li></ul>" + ReplaceAll(rest, false, ListWrap)
  {
    var p := "<li>" + x + "</li>";
    var t := p + rest;
    ListWrapMatch(lineStart, x, rest);
    ReplaceAllPrefix(p, rest, lineStart, ListWrap, "<ul>" + p + "</ul>");
    assert p[|p| - 1] == '>';
    assert "<ul>" + p + "</ul>" == "<ul><li>" + x + "</li></ul>";
  }
}
