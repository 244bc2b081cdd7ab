/**
 * Turning the HTML-ish text of a form field into text runs (src/utils/docxTextParser.ts):
 * `cleanHtml` rewrites tags with a chain of global regular-expression replacements, collapses
 * blank lines and trims; `parseFormattedText` makes one run per non-blank line.
 */
module DocxTextParser {
  import opened Wrappers
  import opened Strings
  import opened Docx
  import opened DocxStyles

  /** The regular expressions `cleanHtml` replaces. */
  datatype Pattern =
    | Literal(tag: string)  // a fixed tag: /<p>/, /<\/p>/, /<li>/, /<\/li>/
    | BreakTag              // /<br\s*\/?>/
    | ListTag               // /<ul>|<\/ul>|<ol>|<\/ol>/
    | AnyTag                // /<[^>]+>/
    | BlankLines            // /\n\s*\n/

  /** Length of the match of `p` at the very start of `s`; 0 when `p` does not match there. */
  function MatchLength(p: Pattern, s: string): (n: nat)
    ensures n <= |s|
    ensures n > 0 && p.BlankLines? ==> s[0] == '\n' && s[n - 1] == '\n'
    ensures n > 0 && p.AnyTag? ==> s[0] == '<'
  {
    match p
    case Literal(tag) => if |tag| > 0 && StartsWith(s, tag) then |tag| else 0
    case BreakTag =>
      if StartsWith(s, "<br") then
        var i := 3 + LeadingWhitespace(s[3..]);
        var j := if i < |s| && s[i] == '/' then i + 1 else i;
        if j < |s| && s[j] == '>' then j + 1 else 0
      else 0
    case ListTag =>
      if StartsWith(s, "<ul>") || StartsWith(s, "<ol>") then 4
      else if StartsWith(s, "</ul>") || StartsWith(s, "</ol>") then 5
      else 0
    case AnyTag =>
      if 2 <= |s| && s[0] == '<' && s[1] != '>' then
        match IndexOf(s[1..], '>')
        case None => 0
        case Some(k) => k + 2
      else 0
    case BlankLines =>
      if 1 <= |s| && s[0] == '\n' then
        var w := LeadingWhitespace(s[1..]);
        match LastIndexOf(s[1..][..w], '\n')
        case None => 0
        case Some(l) => l + 2
      else 0
  }

  /** A match of `/\n\s*\n/` is all white space. */
  lemma BlankLinesMatchIsWhitespace(s: string)
    ensures var n := MatchLength(BlankLines, s);
            AllWhitespace(s[..n])
  {
    var n := MatchLength(BlankLines, s);
    if n > 0 {
      var w := LeadingWhitespace(s[1..]);
      assert s[..n] == [s[0]] + s[1..][..w][..n - 1];
    }
  }

  /** `s.replace(p, rep)` with the global flag: every leftmost non-overlapping match replaced. */
  function ReplaceAll(p: Pattern, s: string, rep: string): (r: string)
    decreases |s|
  {
    if s == [] then []
    else
      var n := MatchLength(p, s);
      if n > 0 then rep + ReplaceAll(p, s[n..], rep)
      else [s[0]] + ReplaceAll(p, s[1..], rep)
  }

  /** The six replacements of `cleanHtml` that map known tags to text. */
  function MapKnownTags(html: string): string {
    var t := ReplaceAll(Literal("<p>"), html, "");
    var t := ReplaceAll(Literal("</p>"), t, "\n");
    var t := ReplaceAll(BreakTag, t, "\n");
    var t := ReplaceAll(Literal("<li>"), t, "• ");
    var t := ReplaceAll(Literal("</li>"), t, "\n");
    ReplaceAll(ListTag, t, "\n")
  }

  /** Known tags mapped to text, then every remaining tag removed. */
  function RewriteTags(html: string): string {
    ReplaceAll(AnyTag, MapKnownTags(html), "")
  }

  /** `cleanHtml`: tags rewritten, runs of blank lines collapsed, white space trimmed at both ends. */
  function CleanHtml(html: string): string {
    if html == "" then ""
    else Trim(ReplaceAll(BlankLines, RewriteTags(html), "\n"))
  }

  /** Every character of a replacement's result comes from the input or from the replacement. */
  lemma {:induction false} ReplaceAllChars(p: Pattern, s: string, rep: string, c: char)
    requires c in ReplaceAll(p, s, rep)
    ensures c in s || c in rep
    decreases |s|
  {
    if s != [] {
      var n := MatchLength(p, s);
      var m := if n > 0 then n else 1;
      var head := if n > 0 then rep else [s[0]];
      var tail := ReplaceAll(p, s[m..], rep);
      assert ReplaceAll(p, s, rep) == head + tail;
      if c in tail {
        ReplaceAllChars(p, s[m..], rep, c);
        if c in s[m..] {
          var i :| 0 <= i < |s| - m && s[m..][i] == c;
          assert s[m + i] == c;
        }
      } else if n == 0 {
        assert s[0] == c;
      }
    }
  }

  // ---------------------------------------------------------------------------------------------
  // No tag survives.

  /** A `<` at index `i` starts no tag: no `>` follows it, or one follows it immediately. */
  predicate NoTagAt(r: string, i: nat)
    requires i < |r|
  {
    '>' !in r[i + 1..] || (i + 1 < |r| && r[i + 1] == '>')
  }

  /** No `<`, something other than `>`, and later a `>`: nothing `/<[^>]+>/` matches. */
  predicate TagFree(r: string) {
    forall i :: 0 <= i < |r| && r[i] == '<' ==> NoTagAt(r, i)
  }

  lemma TagFreeMeansNoMatch(r: string)
    requires TagFree(r)
    ensures forall i :: 0 <= i < |r| ==> MatchLength(AnyTag, r[i..]) == 0
  {
    forall i | 0 <= i < |r| ensures MatchLength(AnyTag, r[i..]) == 0 {
      var s := r[i..];
      if 2 <= |s| && s[0] == '<' && s[1] != '>' {
        assert NoTagAt(r, i);
        assert s[1..] == r[i + 1..];
      }
    }
  }

  lemma TagFreeSlice(s: string, a: nat, b: nat)
    requires TagFree(s) && a <= b <= |s|
    requires b < |s| ==> s[b] != '>'
    ensures TagFree(s[a..b])
  {
    var r := s[a..b];
    forall i | 0 <= i < |r| && r[i] == '<' ensures NoTagAt(r, i) {
      assert s[a + i] == '<' && NoTagAt(s, a + i);
      assert r[i + 1..] == s[a + i + 1..b];
      if a + i + 1 < b {
        assert r[i + 1] == s[a + i + 1];
      }
    }
  }

  /** Removing every `/<[^>]+>/` match leaves nothing that matches it. */
  lemma {:induction false} RemovingTagsLeavesNone(s: string)
    ensures TagFree(ReplaceAll(AnyTag, s, ""))
    decreases |s|
  {
    if s != [] {
      var n := MatchLength(AnyTag, s);
      if n > 0 {
        RemovingTagsLeavesNone(s[n..]);
        assert ReplaceAll(AnyTag, s, "") == ReplaceAll(AnyTag, s[n..], "");
      } else {
        var rest := ReplaceAll(AnyTag, s[1..], "");
        var r := [s[0]] + rest;
        RemovingTagsLeavesNone(s[1..]);
        forall i | 0 <= i < |r| && r[i] == '<' ensures NoTagAt(r, i) {
          if i == 0 {
            if '>' in r[1..] {
              assert r[1..] == rest;
              if '>' !in s[1..] {
                ReplaceAllChars(AnyTag, s[1..], "", '>');
              }
              assert 2 <= |s| && s[1] == '>';
              assert MatchLength(AnyTag, s[1..]) == 0;
              assert rest[0] == '>';
            }
          } else {
            assert r[i + 1..] == rest[i..];
            assert NoTagAt(rest, i - 1);
          }
        }
      }
    }
  }

  /** A character before a tag-free text keeps it tag-free unless it is a `<` that a later `>` closes. */
  lemma TagFreeCons(c: char, rest: string)
    requires TagFree(rest)
    requires c == '<' && '>' in rest ==> rest[0] == '>'
    ensures TagFree([c] + rest)
  {
    var r := [c] + rest;
    forall i | 0 <= i < |r| && r[i] == '<' ensures NoTagAt(r, i) {
      assert r[i + 1..] == rest[i..];
      if i > 0 {
        assert NoTagAt(rest, i - 1);
      }
    }
  }

  /** Collapsing blank lines keeps a tag-free text tag-free. */
  lemma {:induction false} CollapsingKeepsTagFree(s: string)
    requires TagFree(s)
    ensures TagFree(ReplaceAll(BlankLines, s, "\n"))
    decreases |s|
  {
    if s != [] {
      var n := MatchLength(BlankLines, s);
      var m := if n > 0 then n else 1;
      var rest := ReplaceAll(BlankLines, s[m..], "\n");
      var head := if n > 0 then '\n' else s[0];
      assert ReplaceAll(BlankLines, s, "\n") == [head] + rest;
      TagFreeSlice(s, m, |s|);
      assert s[m..|s|] == s[m..];
      CollapsingKeepsTagFree(s[m..]);
      if head == '<' && '>' in rest {
        assert NoTagAt(s, 0);
        ReplaceAllChars(BlankLines, s[1..], "\n", '>');
        assert s[1] == '>';
        assert MatchLength(BlankLines, s[1..]) == 0;
      }
      TagFreeCons(head, rest);
    }
  }

  lemma TrimKeepsTagFree(s: string)
    requires TagFree(s)
    ensures TagFree(Trim(s))
  {
    var b := TrimEnd(s);
    if b < |s| {
      assert IsWhitespace(s[b..][0]);
    }
    TagFreeSlice(s, TrimStart(s), b);
  }

  /** No `<…>` tag is left in a cleaned text: `/<[^>]+>/` matches nowhere in it. */
  lemma CleanedTextHasNoTags(html: string)
    ensures var c := CleanHtml(html);
            forall i :: 0 <= i < |c| ==> MatchLength(AnyTag, c[i..]) == 0
  {
    if html != "" {
      RemovingTagsLeavesNone(MapKnownTags(html));
      CollapsingKeepsTagFree(RewriteTags(html));
      TrimKeepsTagFree(ReplaceAll(BlankLines, RewriteTags(html), "\n"));
      TagFreeMeansNoMatch(CleanHtml(html));
    }
  }

  // ---------------------------------------------------------------------------------------------
  // No blank line survives.

  /** Between any two newlines of `r` there is something other than white space. */
  predicate NoBlankLines(r: string) {
    forall i, j :: 0 <= i < j < |r| && r[i] == '\n' && r[j] == '\n' ==> !AllWhitespace(r[i + 1..j])
  }

  /** Every newline of `u` has something other than white space before it. */
  predicate TextBeforeEachNewline(u: string) {
    forall j :: 0 <= j < |u| && u[j] == '\n' ==> !AllWhitespace(u[..j])
  }

  /** The white-space prefix of `t` holds no newline at an index above `l`. */
  lemma NoNewlineAbove(t: string, w: nat, l: int)
    requires w <= |t| && -1 <= l < w
    requires '\n' !in t[..w][l + 1..]
    ensures forall k :: l < k < w ==> t[k] != '\n'
  {
    forall k | l < k < w ensures t[k] != '\n' {
      assert t[k] == t[..w][l + 1..][k - l - 1];
    }
  }

  /**
   * What follows a newline, once `/\n\s*\n/` has been tried there (and its match, if any,
   * consumed), has text before each of its newlines.
   */
  lemma AfterBlankLinesMatch(s: string)
    requires s != [] && s[0] == '\n'
    ensures var n := MatchLength(BlankLines, s);
            TextBeforeEachNewline(s[if n > 0 then n else 1..])
  {
    var n := MatchLength(BlankLines, s);
    var t := s[1..];
    var w := LeadingWhitespace(t);
    var l: int := match LastIndexOf(t[..w], '\n') case None => -1 case Some(l) => l;
    assert '\n' !in t[..w][l + 1..];
    NoNewlineAbove(t, w, l);
    var u := s[if n > 0 then n else 1..];
    assert u == t[l + 1..];
    forall j | 0 <= j < |u| && u[j] == '\n' ensures !AllWhitespace(u[..j]) {
      assert t[l + 1 + j] == '\n';
      assert l + 1 + j > w;
      assert u[..j][w - l - 1] == t[w];
    }
  }

  /** Collapsing blank lines keeps text before every newline. */
  lemma {:induction false} CollapsingKeepsTextBeforeNewlines(t: string)
    requires TextBeforeEachNewline(t)
    ensures TextBeforeEachNewline(ReplaceAll(BlankLines, t, "\n"))
    decreases |t|
  {
    if t != [] {
      assert AllWhitespace(t[..0]);
      assert MatchLength(BlankLines, t) == 0;
      var rest := ReplaceAll(BlankLines, t[1..], "\n");
      var r := [t[0]] + rest;
      assert ReplaceAll(BlankLines, t, "\n") == r;
      if IsWhitespace(t[0]) {
        forall j | 0 <= j < |t[1..]| && t[1..][j] == '\n' ensures !AllWhitespace(t[1..][..j]) {
          assert t[..j + 1] == [t[0]] + t[1..][..j];
        }
        CollapsingKeepsTextBeforeNewlines(t[1..]);
        assert r[0] != '\n';
        forall j | 0 < j < |r| && r[j] == '\n' ensures !AllWhitespace(r[..j]) {
          assert rest[j - 1] == '\n';
          var k :| 0 <= k < j - 1 && !IsWhitespace(rest[..j - 1][k]);
          assert r[..j][k + 1] == rest[..j - 1][k];
        }
      } else {
        assert r[0] != '\n';
        forall j | 0 < j < |r| && r[j] == '\n' ensures !AllWhitespace(r[..j]) {
          assert r[..j][0] == t[0];
        }
      }
    }
  }

  /** Replacing every `/\n\s*\n/` match by a newline leaves no blank line. */
  lemma {:induction false} CollapsingLeavesNoBlankLines(s: string)
    ensures NoBlankLines(ReplaceAll(BlankLines, s, "\n"))
    decreases |s|
  {
    if s != [] {
      var n := MatchLength(BlankLines, s);
      var m := if n > 0 then n else 1;
      var rest := ReplaceAll(BlankLines, s[m..], "\n");
      var head := if n > 0 then '\n' else s[0];
      assert ReplaceAll(BlankLines, s, "\n") == [head] + rest;
      CollapsingLeavesNoBlankLines(s[m..]);
      if s[0] == '\n' {
        AfterBlankLinesMatch(s);
        CollapsingKeepsTextBeforeNewlines(s[m..]);
      }
      NoBlankLinesCons(head, rest);
    }
  }

  /** A character before a text with no blank line adds none, unless it is a newline followed by a blank start. */
  lemma NoBlankLinesCons(c: char, rest: string)
    requires NoBlankLines(rest)
    requires c == '\n' ==> TextBeforeEachNewline(rest)
    ensures NoBlankLines([c] + rest)
  {
    var r := [c] + rest;
    forall i, j | 0 <= i < j < |r| && r[i] == '\n' && r[j] == '\n' ensures !AllWhitespace(r[i + 1..j]) {
      if i == 0 {
        assert r[i + 1..j] == rest[..j - 1];
      } else {
        assert r[i + 1..j] == rest[i..j - 1];
      }
    }
  }

  lemma NoBlankLinesSlice(s: string, a: nat, b: nat)
    requires NoBlankLines(s) && a <= b <= |s|
    ensures NoBlankLines(s[a..b])
  {
    var r := s[a..b];
    forall i, j | 0 <= i < j < |r| && r[i] == '\n' && r[j] == '\n' ensures !AllWhitespace(r[i + 1..j]) {
      assert s[a + i] == '\n' && s[a + j] == '\n';
      var x, y := r[i + 1..j], s[a + i + 1..a + j];
      assert |x| == |y|;
      forall k | 0 <= k < |x| ensures x[k] == y[k] {
        assert x[k] == r[i + 1 + k] == s[a + i + 1 + k];
      }
      assert x == y;
    }
  }

  /** A cleaned text has no blank line: any two newlines have text between them. */
  lemma CleanedTextHasNoBlankLines(html: string)
    ensures NoBlankLines(CleanHtml(html))
  {
    if html != "" {
      var u := ReplaceAll(BlankLines, RewriteTags(html), "\n");
      CollapsingLeavesNoBlankLines(RewriteTags(html));
      NoBlankLinesSlice(u, TrimStart(u), TrimEnd(u));
    }
  }

  /** The first line of `u` holds text, and what follows its newline meets the same conditions. */
  lemma FirstLineHoldsText(u: string, k: nat)
    requires NoBlankLines("\n" + u)
    requires u != [] && !IsWhitespace(u[|u| - 1])
    requires k < |u| && u[k] == '\n'
    ensures !AllWhitespace(u[..k])
    ensures k + 1 < |u| && NoBlankLines("\n" + u[k + 1..])
    ensures u[k + 1..][|u[k + 1..]| - 1] == u[|u| - 1]
  {
    var v := "\n" + u;
    assert v[0] == '\n' && v[k + 1] == '\n' && v[1..k + 1] == u[..k];
    assert k < |u| - 1;
    NoBlankLinesSlice(v, k + 1, |v|);
    assert v[k + 1..|v|] == "\n" + u[k + 1..];
  }

  /** With text before its first newline and after its last, every line of `u` holds text. */
  lemma {:induction false} LinesHoldText(u: string)
    requires NoBlankLines("\n" + u)
    requires u != [] && !IsWhitespace(u[|u| - 1])
    ensures forall i :: 0 <= i < |Split(u, '\n')| ==> !AllWhitespace(Split(u, '\n')[i])
    decreases |u|
  {
    var r := IndexOf(u, '\n');
    if r.None? {
      assert Split(u, '\n') == [u];
      assert !AllWhitespace(u) by {
        assert !IsWhitespace(u[|u| - 1]);
      }
    } else {
      var k := r.value;
      FirstLineHoldsText(u, k);
      LinesHoldText(u[k + 1..]);
      var parts, tail := Split(u, '\n'), Split(u[k + 1..], '\n');
      assert parts == [u[..k]] + tail;
      forall i | 0 <= i < |parts| ensures !AllWhitespace(parts[i]) {
        if i > 0 {
          assert parts[i] == tail[i - 1];
        }
      }
    }
  }

  /** Every line of a non-empty cleaned text holds text: none of them trims to nothing. */
  lemma CleanedLinesHoldText(html: string)
    requires CleanHtml(html) != ""
    ensures forall i :: 0 <= i < |Split(CleanHtml(html), '\n')| ==> Trim(Split(CleanHtml(html), '\n')[i]) != ""
  {
    var c := CleanHtml(html);
    var u := ReplaceAll(BlankLines, RewriteTags(html), "\n");
    assert c == Trim(u);
    CleanedTextHasNoBlankLines(html);
    NewlineBeforeTextAddsNoBlankLine(c);
    LinesHoldText(c);
  }

  /** A newline put before a text that starts with text and has no blank line adds none. */
  lemma NewlineBeforeTextAddsNoBlankLine(c: string)
    requires NoBlankLines(c) && c != [] && !IsWhitespace(c[0])
    ensures NoBlankLines("\n" + c)
  {
    var v := "\n" + c;
    forall i, j | 0 <= i < j < |v| && v[i] == '\n' && v[j] == '\n' ensures !AllWhitespace(v[i + 1..j]) {
      if i == 0 {
        assert v[i + 1..j][0] == c[0];
      } else {
        assert v[i + 1..j] == c[i..j - 1];
      }
    }
  }

  // ---------------------------------------------------------------------------------------------
  // Runs.

  /** The run made of line `index` of `count` lines: trimmed text in the body font, and a line break unless it is the last line. */
  function LineRun(line: string, index: nat, count: nat): Run {
    TextRun(Trim(line), Some(DEFAULT_FONT), Some(DEFAULT_FONT_SIZE), false, false, false, None,
            if index < count - 1 then 1 else 0)
  }

  /** The runs of the first `k` lines: one for each line that does not trim to nothing. */
  function RunsOfLines(lines: seq<string>, k: nat): (runs: seq<Run>)
    requires k <= |lines|
    ensures |runs| <= k
  {
    if k == 0 then []
    else
      RunsOfLines(lines, k - 1)
      + (if Trim(lines[k - 1]) != "" then [LineRun(lines[k - 1], k - 1, |lines|)] else [])
  }

  /** What `parseFormattedText` returns: no run for a text that cleans to nothing, otherwise the runs of its lines. */
  function FormattedRuns(text: string): seq<Run> {
    var c := CleanHtml(text);
    if c == "" then [] else RunsOfLines(Split(c, '\n'), |Split(c, '\n')|)
  }

  /** `parseFormattedText`: the loop over the lines of the cleaned text. */
  method ParseFormattedText(text: string) returns (textRuns: seq<Run>)
    ensures textRuns == FormattedRuns(text)
  {
    var cleanedText := CleanHtml(text);
    if cleanedText == "" {
      return [];
    }
    var paragraphs := Split(cleanedText, '\n');
    textRuns := [];
    for index := 0 to |paragraphs|
      invariant textRuns == RunsOfLines(paragraphs, index)
    {
      var paragraph := paragraphs[index];
      if Trim(paragraph) != "" {
        textRuns := textRuns + [TextRun(Trim(paragraph), Some(DEFAULT_FONT), Some(DEFAULT_FONT_SIZE),
                                        false, false, false, None,
                                        if index < |paragraphs| - 1 then 1 else 0)];
      }
    }
  }

  /** When no line trims to nothing, the first `k` lines give exactly one run each, in order. */
  lemma {:induction false} RunsOfTextLines(lines: seq<string>, k: nat)
    requires k <= |lines|
    requires forall i {:trigger Trim(lines[i])} :: 0 <= i < |lines| ==> Trim(lines[i]) != ""
    ensures |RunsOfLines(lines, k)| == k
    ensures forall i :: 0 <= i < k ==> RunsOfLines(lines, k)[i] == LineRun(lines[i], i, |lines|)
  {
    if k > 0 {
      RunsOfTextLines(lines, k - 1);
      var prev, r := RunsOfLines(lines, k - 1), RunsOfLines(lines, k);
      RunsOfLinesStep(lines, k);
      forall i | 0 <= i < k ensures r[i] == LineRun(lines[i], i, |lines|) {
        if i < k - 1 {
          assert r[i] == prev[i];
        }
      }
    }
  }

  lemma RunsOfLinesStep(lines: seq<string>, k: nat)
    requires 0 < k <= |lines| && Trim(lines[k - 1]) != ""
    ensures RunsOfLines(lines, k) == RunsOfLines(lines, k - 1) + [LineRun(lines[k - 1], k - 1, |lines|)]
  {
  }

  /** The shape of the runs of lines none of which trims to nothing. */
  predicate RunsMatchLines(runs: seq<Run>, lines: seq<string>) {
    && |runs| == |lines|
    && forall i :: 0 <= i < |runs| ==>
         && runs[i].TextRun?
         && runs[i].text == Trim(lines[i]) && runs[i].text != ""
         && runs[i].font == Some(DEFAULT_FONT) && runs[i].size == Some(DEFAULT_FONT_SIZE)
         && !runs[i].bold && !runs[i].italic && !runs[i].underline && runs[i].color == None
         && (runs[i].lineBreaks == if i < |runs| - 1 then 1 else 0)
  }

  lemma RunsOfTextLinesMatch(lines: seq<string>)
    requires forall i {:trigger Trim(lines[i])} :: 0 <= i < |lines| ==> Trim(lines[i]) != ""
    ensures RunsMatchLines(RunsOfLines(lines, |lines|), lines)
  {
    RunsOfTextLines(lines, |lines|);
  }

  /**
   * A field whose cleaned text is empty gets no run; otherwise its runs correspond one to one
   * to the lines of its cleaned text: each holds its
   * line trimmed, which is never empty, in the body font and size, with no bold, italic,
   * underline or colour, and each but the last ends its line with a break.
   */
  lemma RunsFollowCleanedLines(text: string)
    ensures CleanHtml(text) == "" ==> FormattedRuns(text) == []
    ensures CleanHtml(text) != "" ==> RunsMatchLines(FormattedRuns(text), Split(CleanHtml(text), '\n'))
  {
    if CleanHtml(text) != "" {
      CleanedLinesHoldText(text);
      RunsOfTextLinesMatch(Split(CleanHtml(text), '\n'));
    }
  }

  /** Plain text runs: the body font and size, no bold, italic, underline or colour. */
  predicate PlainRuns(runs: seq<Run>) {
    forall i :: 0 <= i < |runs| ==>
      && runs[i].TextRun?
      && runs[i].font == Some(DEFAULT_FONT) && runs[i].size == Some(DEFAULT_FONT_SIZE)
      && !runs[i].bold && !runs[i].italic && !runs[i].underline && runs[i].color == None
  }

  /** No inline marker is interpreted: every run is plain text in the body font and size. */
  lemma FormattedRunsArePlain(text: string)
    ensures PlainRuns(FormattedRuns(text))
  {
    RunsFollowCleanedLines(text);
  }

  /** The three spellings of a line-break tag are matched whole; another tag starting with `<br` is not. */
  lemma BreakTagSpellings()
    ensures MatchLength(BreakTag, "<br>") == 4
    ensures MatchLength(BreakTag, "<br/>") == 5
    ensures MatchLength(BreakTag, "<br />") == 6
    ensures MatchLength(BreakTag, "<bra>") == 0
  {
    assert LeadingWhitespace("<br />"[3..]) == 1;
    assert LeadingWhitespace("<bra>"[3..]) == 0;
  }

  /** Collapsing blank lines only ever removes white space. */
  lemma {:induction false} CollapsingKeepsText(s: string)
    ensures NonWhitespace(ReplaceAll(BlankLines, s, "\n")) == NonWhitespace(s)
    decreases |s|
  {
    if s != [] {
      var n := MatchLength(BlankLines, s);
      var m := if n > 0 then n else 1;
      CollapseStepKeepsText(s);
      CollapsingKeepsText(s[m..]);
      NonWhitespaceAppend(s[..m], s[m..]);
      assert s[..m] + s[m..] == s;
    }
  }

  /** One step of the collapse: the match, or the first character, keeps its non-white-space text. */
  lemma CollapseStepKeepsText(s: string)
    requires s != []
    ensures var n := MatchLength(BlankLines, s);
            var m := if n > 0 then n else 1;
            NonWhitespace(ReplaceAll(BlankLines, s, "\n"))
              == NonWhitespace(s[..m]) + NonWhitespace(ReplaceAll(BlankLines, s[m..], "\n"))
  {
    var n := MatchLength(BlankLines, s);
    var m := if n > 0 then n else 1;
    var head := if n > 0 then "\n" else [s[0]];
    var tail := ReplaceAll(BlankLines, s[m..], "\n");
    assert ReplaceAll(BlankLines, s, "\n") == head + tail;
    NonWhitespaceAppend(head, tail);
    if n > 0 {
      BlankLinesMatchIsWhitespace(s);
      NonWhitespaceOfWhitespace(s[..m]);
      NonWhitespaceOfWhitespace(head);
    } else {
      assert s[..m] == head;
    }
  }

  /** Collapsing blank lines and trimming keep every character that is not white space, in order. */
  lemma CleaningKeepsText(html: string)
    requires html != ""
    ensures NonWhitespace(CleanHtml(html)) == NonWhitespace(RewriteTags(html))
  {
    CollapsingKeepsText(RewriteTags(html));
    TrimKeepsText(ReplaceAll(BlankLines, RewriteTags(html), "\n"));
  }
}
