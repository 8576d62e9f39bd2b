/**
 * `formatMarkdownToHtml` of the browser front end (static/script.js:180-214): the
 * advice text is turned into HTML by four regular-expression substitutions, a
 * line-by-line pass that wraps runs of list items in `<ul>`, and a pass that
 * turns blank-line separated chunks into paragraphs.
 *
 * Each substitution is written out as the left-to-right scan that the global
 * regular expression performs.
 */
module Markdown {
  import opened Strings

  /* ---------- the regular-expression substitutions (script.js:184-188) ---------- */

  /** The characters JavaScript's `.` does not match. */
  predicate IsLineTerminator(c: char) {
    c == '\n' || c == '\r' || c == '\U{2028}' || c == '\U{2029}'
  }

  /** The length of the longest prefix of `s` without a line terminator: what `(.*)` captures. */
  function LineLength(s: string): (n: nat)
    ensures n <= |s|
    ensures forall k :: 0 <= k < n ==> !IsLineTerminator(s[k])
    ensures n == |s| || IsLineTerminator(s[n])
  {
    if s == [] || IsLineTerminator(s[0]) then 0 else 1 + LineLength(s[1..])
  }

  /**
   * `s.replace(/<marker>(.*)/g, open + '$1' + close)`: every match of the marker
   * starts a heading that runs to the end of its line.
   */
  function ReplaceHeading(s: string, marker: string, open: string, close: string): string
    requires marker != []
    decreases |s|
  {
    if s == [] then []
    else if StartsWith(s, marker) then
      var n := LineLength(s[|marker|..]);
      open + s[|marker|..|marker| + n] + close + ReplaceHeading(s[|marker| + n..], marker, open, close)
    else [s[0]] + ReplaceHeading(s[1..], marker, open, close)
  }

  /** The length of the longest prefix of `s` without `*`: what `[^*]+` takes. */
  function StarFreeLength(s: string): (n: nat)
    ensures n <= |s|
    ensures forall k :: 0 <= k < n ==> s[k] != '*'
    ensures n == |s| || s[n] == '*'
  {
    if s == [] || s[0] == '*' then 0 else 1 + StarFreeLength(s[1..])
  }

  /** The length of the captured text when `\*\*([^*]+)\*\*` matches at the start of `s`, else 0. */
  function BoldSpan(s: string): (n: nat)
    ensures n > 0 ==> 4 + n <= |s| && s[0] == s[1] == s[2 + n] == s[3 + n] == '*'
    ensures n > 0 ==> forall k :: 2 <= k < 2 + n ==> s[k] != '*'
  {
    if |s| >= 2 && s[0] == '*' && s[1] == '*' then
      var n := StarFreeLength(s[2..]);
      if n > 0 && 4 + n <= |s| && s[3 + n] == '*' then n else 0
    else 0
  }

  /** The global bold rule `\*\*([^*]+)\*\*` with the replacement `open + '$1' + close`, scanned left to right. */
  function ReplaceBold(s: string, open: string, close: string): string
    decreases |s|
  {
    if s == [] then []
    else
      var n := BoldSpan(s);
      if n > 0 then open + s[2..2 + n] + close + ReplaceBold(s[4 + n..], open, close)
      else [s[0]] + ReplaceBold(s[1..], open, close)
  }

  /** The length of the captured text when `\* ([^*]+)` matches at the start of `s`, else 0. */
  function ItemSpan(s: string): (n: nat)
    ensures n > 0 ==> 2 + n <= |s| && s[0] == '*' && s[1] == ' '
    ensures n > 0 ==> forall k :: 2 <= k < 2 + n ==> s[k] != '*'
    ensures n > 0 ==> 2 + n == |s| || s[2 + n] == '*'
  {
    if |s| >= 2 && s[0] == '*' && s[1] == ' ' then StarFreeLength(s[2..]) else 0
  }

  /**
   * `s.replace(/\* ([^*]+)/g, open + '$1' + close)`: list items, scanned left to
   * right; the captured text may run over line ends.
   */
  function ReplaceItems(s: string, open: string, close: string): string
    decreases |s|
  {
    if s == [] then []
    else
      var n := ItemSpan(s);
      if n > 0 then open + s[2..2 + n] + close + ReplaceItems(s[2 + n..], open, close)
      else [s[0]] + ReplaceItems(s[1..], open, close)
  }

  /** The substitution chain: level-3 headings, level-2 headings, bold text, list items. */
  function Inline(markdown: string): string {
    var h3 := ReplaceHeading(markdown, "### ", "<h3>", "</h3>");
    var h2 := ReplaceHeading(h3, "## ", "<h2>", "</h2>");
    ReplaceItems(ReplaceBold(h2, "<strong>", "</strong>"), "<li>", "</li>")
  }

  /** `(.*)` stops exactly at the end of a line. */
  lemma {:induction false} LineLengthOfLine(x: string, rest: string)
    requires forall k :: 0 <= k < |x| ==> !IsLineTerminator(x[k])
    requires rest == [] || IsLineTerminator(rest[0])
    ensures LineLength(x + rest) == |x|
  {
    var s := x + rest;
    assert forall k :: 0 <= k < |x| ==> s[k] == x[k];
    assert |x| < |s| ==> s[|x|] == rest[0];
  }

  /** A heading marker followed by a line: the line becomes the heading. */
  lemma {:induction false} HeadingLine(marker: string, open: string, close: string, x: string, rest: string)
    requires marker != []
    requires forall k :: 0 <= k < |x| ==> !IsLineTerminator(x[k])
    requires rest == [] || IsLineTerminator(rest[0])
    ensures ReplaceHeading(marker + x + rest, marker, open, close) ==
            open + x + close + ReplaceHeading(rest, marker, open, close)
  {
    var s := marker + x + rest;
    assert s[..|marker|] == marker;
    assert s[|marker|..] == x + rest;
    LineLengthOfLine(x, rest);
    assert s[|marker|..|marker| + |x|] == x;
    assert s[|marker| + |x|..] == rest;
  }

  /** Text without the marker's first character is left alone. */
  lemma {:induction false} HeadingUntouched(s: string, marker: string, open: string, close: string)
    requires marker != []
    requires marker[0] !in s
    ensures ReplaceHeading(s, marker, open, close) == s
    decreases |s|
  {
    if s != [] {
      assert s[0] != marker[0];
      HeadingUntouched(s[1..], marker, open, close);
      assert s == [s[0]] + s[1..];
    }
  }

  /** Text without `*` has no bold span. */
  lemma {:induction false} BoldUntouched(s: string, open: string, close: string)
    requires '*' !in s
    ensures ReplaceBold(s, open, close) == s
    decreases |s|
  {
    if s != [] {
      assert s[0] != '*';
      BoldUntouched(s[1..], open, close);
      assert s == [s[0]] + s[1..];
    }
  }

  /** Text without `*` has no list item. */
  lemma {:induction false} ItemsUntouched(s: string, open: string, close: string)
    requires '*' !in s
    ensures ReplaceItems(s, open, close) == s
    decreases |s|
  {
    if s != [] {
      assert s[0] != '*';
      ItemsUntouched(s[1..], open, close);
      assert s == [s[0]] + s[1..];
    }
  }

  /** The tags the substitutions insert hold no line break, `#` or `*`. */
  lemma {:induction false} TagsArePlain()
    ensures '\n' !in "<h3>" && '#' !in "<h3>" && '*' !in "<h3>"
    ensures '\n' !in "</h3>" && '#' !in "</h3>" && '*' !in "</h3>"
    ensures '\n' !in "<h2>" && '#' !in "<h2>" && '*' !in "<h2>"
    ensures '\n' !in "</h2>" && '#' !in "</h2>" && '*' !in "</h2>"
    ensures '\n' !in "<strong>" && '\n' !in "</strong>" && '\n' !in "<li>" && '\n' !in "</li>"
    ensures '\n' !in "### " && '\n' !in "## "
  {
  }

  /** Text without `#` and `*` passes the level-2 heading, bold and list item rules unchanged. */
  lemma {:induction false} AfterLevel3Untouched(h: string)
    requires '#' !in h && '*' !in h
    ensures ReplaceItems(ReplaceBold(ReplaceHeading(h, "## ", "<h2>", "</h2>"), "<strong>", "</strong>"), "<li>", "</li>") == h
  {
    TagsArePlain();
    HeadingUntouched(h, "## ", "<h2>", "</h2>");
    BoldUntouched(h, "<strong>", "</strong>");
    ItemsUntouched(h, "<li>", "</li>");
  }

  /**
   * `### x` becomes a level-3 heading, and the `## ` rule that runs afterwards does
   * not touch it.
   */
  lemma {:induction false} Level3Heading(x: string)
    requires forall k :: 0 <= k < |x| ==> !IsLineTerminator(x[k])
    requires '#' !in x && '*' !in x
    ensures Inline("### " + x) == "<h3>" + x + "</h3>"
  {
    var h3 := "<h3>" + x + "</h3>";
    assert ReplaceHeading("### " + x, "### ", "<h3>", "</h3>") == h3 by {
      TagsArePlain();
      HeadingLine("### ", "<h3>", "</h3>", x, []);
      assert "### " + x + [] == "### " + x;
      assert ReplaceHeading([], "### ", "<h3>", "</h3>") == [];
      assert h3 + [] == h3;
    }
    assert '#' !in h3 && '*' !in h3 by {
      TagsArePlain();
    }
    AfterLevel3Untouched(h3);
  }

  /** `## x` is not a level-3 heading; it becomes a level-2 heading. */
  lemma {:induction false} Level2Heading(x: string)
    requires forall k :: 0 <= k < |x| ==> !IsLineTerminator(x[k])
    requires '#' !in x && '*' !in x
    ensures Inline("## " + x) == "<h2>" + x + "</h2>"
  {
    var s := "## " + x;
    var h2 := "<h2>" + x + "</h2>";
    assert ReplaceHeading(s, "### ", "<h3>", "</h3>") == s by {
      TagsArePlain();
      assert s[1..] == "# " + x;
      assert s[1..][1..] == " " + x;
      assert |s| >= 4 ==> s[..4][2] == ' ';
      assert |s| >= 5 ==> s[1..][..4][1] == ' ';
      assert !StartsWith(s, "### ") && !StartsWith(s[1..], "### ");
      HeadingUntouched(" " + x, "### ", "<h3>", "</h3>");
      assert s == [s[0]] + ([s[1]] + s[1..][1..]);
    }
    assert ReplaceHeading(s, "## ", "<h2>", "</h2>") == h2 by {
      TagsArePlain();
      HeadingLine("## ", "<h2>", "</h2>", x, []);
      assert s + [] == s;
      assert ReplaceHeading([], "## ", "<h2>", "</h2>") == [];
      assert h2 + [] == h2;
    }
    assert '*' !in h2 by {
      TagsArePlain();
    }
    TagsArePlain();
    BoldUntouched(h2, "<strong>", "</strong>");
    ItemsUntouched(h2, "<li>", "</li>");
  }

  /** `[^*]+` stops exactly at the next `*`. */
  lemma {:induction false} StarFreeLengthOf(x: string, rest: string)
    requires '*' !in x
    requires rest == [] || rest[0] == '*'
    ensures StarFreeLength(x + rest) == |x|
  {
    var s := x + rest;
    assert forall k :: 0 <= k < |x| ==> s[k] == x[k];
    assert |x| < |s| ==> s[|x|] == rest[0];
  }

  /** `**x**`, with `x` non-empty and free of `*`, becomes a bold span around `x`. */
  lemma {:induction false} BoldPair(x: string, rest: string, open: string, close: string)
    requires x != [] && '*' !in x
    ensures ReplaceBold("**" + x + "**" + rest, open, close) ==
            open + x + close + ReplaceBold(rest, open, close)
  {
    var s := "**" + x + "**" + rest;
    assert s[2..] == x + ("**" + rest);
    StarFreeLengthOf(x, "**" + rest);
    assert BoldSpan(s) == |x| by {
      assert s[0] == s[1] == s[3 + |x|] == '*';
    }
    assert s[2..2 + |x|] == x;
    assert s[4 + |x|..] == rest;
  }

  /** `* x`, with `x` non-empty and free of `*`, becomes a list item up to the next `*`. */
  lemma {:induction false} ListItemRun(x: string, rest: string, open: string, close: string)
    requires x != [] && '*' !in x
    requires rest == [] || rest[0] == '*'
    ensures ReplaceItems("* " + x + rest, open, close) ==
            open + x + close + ReplaceItems(rest, open, close)
  {
    var s := "* " + x + rest;
    assert s[2..] == x + rest;
    StarFreeLengthOf(x, rest);
    assert ItemSpan(s) == |x| by {
      assert s[0] == '*' && s[1] == ' ';
    }
    assert s[2..2 + |x|] == x;
    assert s[2 + |x|..] == rest;
  }

  /** The number of line breaks (`\n`) in `s`. */
  function LineBreaks(s: string): nat {
    if s == [] then 0 else (if s[0] == '\n' then 1 else 0) + LineBreaks(s[1..])
  }

  lemma {:induction false} LineBreaksAppend(a: string, b: string)
    ensures LineBreaks(a + b) == LineBreaks(a) + LineBreaks(b)
    decreases |a|
  {
    if a == [] {
      assert a + b == b;
    } else {
      assert (a + b)[0] == a[0];
      assert (a + b)[1..] == a[1..] + b;
      LineBreaksAppend(a[1..], b);
    }
  }

  lemma {:induction false} NoLineBreaks(s: string)
    requires '\n' !in s
    ensures LineBreaks(s) == 0
    decreases |s|
  {
    if s != [] {
      NoLineBreaks(s[1..]);
    }
  }

  /** Cutting a text in four parts splits its line breaks among them. */
  lemma {:induction false} LineBreaksOfParts(s: string, i: nat, j: nat, k: nat)
    requires i <= j <= k <= |s|
    ensures LineBreaks(s) == LineBreaks(s[..i]) + LineBreaks(s[i..j]) + LineBreaks(s[j..k]) + LineBreaks(s[k..])
  {
    assert s == s[..i] + s[i..j] + s[j..k] + s[k..];
    LineBreaksAppend(s[..i] + s[i..j] + s[j..k], s[k..]);
    LineBreaksAppend(s[..i] + s[i..j], s[j..k]);
    LineBreaksAppend(s[..i], s[i..j]);
  }

  /** Tags without line breaks around a text add none. */
  lemma {:induction false} LineBreaksWrapped(open: string, c: string, close: string, rest: string)
    requires '\n' !in open && '\n' !in close
    ensures LineBreaks(open + c + close + rest) == LineBreaks(c) + LineBreaks(rest)
  {
    NoLineBreaks(open);
    NoLineBreaks(close);
    LineBreaksAppend(open + c + close, rest);
    LineBreaksAppend(open + c, close);
    LineBreaksAppend(open, c);
  }

  /** Two characters that are not line breaks. */
  lemma {:induction false} PairHasNoLineBreak(x: string)
    requires |x| == 2 && x[0] != '\n' && x[1] != '\n'
    ensures LineBreaks(x) == 0
  {
    var y := x[1..];
    assert y[0] == x[1] && y[1..] == [];
    assert LineBreaks(y) == 0;
  }

  /** A character the scan steps over keeps its line break, if it is one. */
  lemma {:induction false} StepKeepsLineBreaks(s: string, rest: string)
    requires s != []
    requires LineBreaks(rest) == LineBreaks(s[1..])
    ensures LineBreaks([s[0]] + rest) == LineBreaks(s)
  {
    LineBreaksAppend([s[0]], rest);
    assert [s[0]][1..] == [];
  }

  /** The heading rule on text that starts with the marker: one heading, then the rest. */
  lemma {:induction false} HeadingStep(s: string, marker: string, open: string, close: string)
    requires marker != [] && StartsWith(s, marker)
    ensures ReplaceHeading(s, marker, open, close) ==
            open + s[|marker|..|marker| + LineLength(s[|marker|..])] + close +
            ReplaceHeading(s[|marker| + LineLength(s[|marker|..])..], marker, open, close)
  {
  }

  /** The heading rule keeps every line break: a heading ends where its line ends. */
  lemma {:induction false} HeadingKeepsLineBreaks(s: string, marker: string, open: string, close: string)
    requires marker != [] && '\n' !in marker && '\n' !in open && '\n' !in close
    ensures LineBreaks(ReplaceHeading(s, marker, open, close)) == LineBreaks(s)
    decreases |s|
  {
    if s != [] {
      if StartsWith(s, marker) {
        var n := LineLength(s[|marker|..]);
        var c, t := s[|marker|..|marker| + n], s[|marker| + n..];
        HeadingKeepsLineBreaks(t, marker, open, close);
        HeadingStep(s, marker, open, close);
        LineBreaksOfParts(s, |marker|, |marker| + n, |marker| + n);
        assert s[..|marker|] == marker;
        NoLineBreaks(marker);
        LineBreaksWrapped(open, c, close, ReplaceHeading(t, marker, open, close));
      } else {
        HeadingKeepsLineBreaks(s[1..], marker, open, close);
        StepKeepsLineBreaks(s, ReplaceHeading(s[1..], marker, open, close));
      }
    }
  }

  /** One bold span keeps the line breaks of its text. */
  lemma {:induction false} BoldSpanKeeps(s: string, open: string, close: string, rest: string)
    requires BoldSpan(s) > 0
    requires '\n' !in open && '\n' !in close
    requires LineBreaks(rest) == LineBreaks(s[4 + BoldSpan(s)..])
    ensures LineBreaks(open + s[2..2 + BoldSpan(s)] + close + rest) == LineBreaks(s)
  {
    var n := BoldSpan(s);
    LineBreaksOfParts(s, 2, 2 + n, 4 + n);
    PairHasNoLineBreak(s[..2]);
    PairHasNoLineBreak(s[2 + n..4 + n]);
    LineBreaksWrapped(open, s[2..2 + n], close, rest);
  }

  /** One list item keeps the line breaks of its text. */
  lemma {:induction false} ItemSpanKeeps(s: string, open: string, close: string, rest: string)
    requires ItemSpan(s) > 0
    requires '\n' !in open && '\n' !in close
    requires LineBreaks(rest) == LineBreaks(s[2 + ItemSpan(s)..])
    ensures LineBreaks(open + s[2..2 + ItemSpan(s)] + close + rest) == LineBreaks(s)
  {
    var n := ItemSpan(s);
    LineBreaksOfParts(s, 2, 2 + n, 2 + n);
    PairHasNoLineBreak(s[..2]);
    LineBreaksWrapped(open, s[2..2 + n], close, rest);
  }

  /** The bold rule keeps every line break. */
  lemma {:induction false} BoldKeepsLineBreaks(s: string, open: string, close: string)
    requires '\n' !in open && '\n' !in close
    ensures LineBreaks(ReplaceBold(s, open, close)) == LineBreaks(s)
    decreases |s|
  {
    if s != [] {
      var n := BoldSpan(s);
      if n > 0 {
        BoldKeepsLineBreaks(s[4 + n..], open, close);
        BoldSpanKeeps(s, open, close, ReplaceBold(s[4 + n..], open, close));
      } else {
        BoldKeepsLineBreaks(s[1..], open, close);
        StepKeepsLineBreaks(s, ReplaceBold(s[1..], open, close));
      }
    }
  }

  /** The list item rule keeps every line break, also those inside an item. */
  lemma {:induction false} ItemsKeepLineBreaks(s: string, open: string, close: string)
    requires '\n' !in open && '\n' !in close
    ensures LineBreaks(ReplaceItems(s, open, close)) == LineBreaks(s)
    decreases |s|
  {
    if s != [] {
      var n := ItemSpan(s);
      if n > 0 {
        ItemsKeepLineBreaks(s[2 + n..], open, close);
        ItemSpanKeeps(s, open, close, ReplaceItems(s[2 + n..], open, close));
      } else {
        ItemsKeepLineBreaks(s[1..], open, close);
        StepKeepsLineBreaks(s, ReplaceItems(s[1..], open, close));
      }
    }
  }

  /**
   * The substitutions neither add nor remove line breaks, so the list pass sees
   * the lines of the advice text.
   */
  lemma {:induction false} InlineKeepsLineBreaks(markdown: string)
    ensures LineBreaks(Inline(markdown)) == LineBreaks(markdown)
  {
    var h3 := ReplaceHeading(markdown, "### ", "<h3>", "</h3>");
    var h2 := ReplaceHeading(h3, "## ", "<h2>", "</h2>");
    var b := ReplaceBold(h2, "<strong>", "</strong>");
    TagsArePlain();
    HeadingKeepsLineBreaks(markdown, "### ", "<h3>", "</h3>");
    HeadingKeepsLineBreaks(h3, "## ", "<h2>", "</h2>");
    BoldKeepsLineBreaks(h2, "<strong>", "</strong>");
    ItemsKeepLineBreaks(b, "<li>", "</li>");
  }

  /* ---------- the list-wrapping pass (script.js:192-203) ---------- */

  /** A line that is a list item after the substitutions. */
  predicate IsItem(line: string) {
    StartsWith(line, "<li>")
  }

  /**
   * The tag the list pass puts in front of line `i`: `<ul>` on the first line of a
   * run of items, `</ul>` on the first line after a run, nothing elsewhere.
   */
  function RunMark(lines: seq<string>, i: nat): string
    requires i < |lines|
  {
    if IsItem(lines[i]) && (i == 0 || !IsItem(lines[i - 1])) then "<ul>"
    else if !IsItem(lines[i]) && i > 0 && IsItem(lines[i - 1]) then "</ul>"
    else ""
  }

  /** Every line with its run tag in front. */
  function Marked(lines: seq<string>): (marked: seq<string>)
    ensures |marked| == |lines|
  {
    seq(|lines|, i requires 0 <= i < |lines| => RunMark(lines, i) + lines[i])
  }

  /** The text ends inside a run of list items. */
  predicate EndsInList(lines: seq<string>) {
    |lines| > 0 && IsItem(lines[|lines| - 1])
  }

  /** What the list pass produces, read off the lines and their predecessors. */
  function ListWrapped(html: string): string {
    var lines := SplitOn(html, "\n");
    Join(Marked(lines), "\n") + (if EndsInList(lines) then "</ul>" else "")
  }

  /**
   * The list pass as the browser runs it: one sweep over the lines with an
   * in-list flag, then a closing `</ul>` if the text ends inside a list.
   */
  method WrapLists(html: string) returns (result: string)
    ensures result == ListWrapped(html)
  {
    var lines := SplitOn(html, "\n");
    var inList := false;
    var wrapped: seq<string> := [];
    for i := 0 to |lines|
      invariant inList == (i > 0 && IsItem(lines[i - 1]))
      invariant wrapped == Marked(lines)[..i]
    {
      var line := lines[i];
      assert Marked(lines)[..i + 1] == Marked(lines)[..i] + [RunMark(lines, i) + line];
      if IsItem(line) && !inList {
        inList := true;
        wrapped := wrapped + ["<ul>" + line];
      } else if !IsItem(line) && inList {
        inList := false;
        wrapped := wrapped + ["</ul>" + line];
      } else {
        assert RunMark(lines, i) + line == line;
        wrapped := wrapped + [line];
      }
    }
    assert wrapped == Marked(lines);
    result := Join(wrapped, "\n");
    if inList {
      result := result + "</ul>";
    }
  }

  /** A text of one line that is not an item gets no run tag. */
  lemma {:induction false} LoneLineUnmarked(line: string)
    requires !IsItem(line)
    ensures Marked([line]) == [line]
  {
    assert RunMark([line], 0) == "";
    assert Marked([line])[0] == "" + line == line;
  }

  /** A split piece holds no separator character. */
  lemma {:induction false} NoNewlineInLines(html: string)
    ensures forall k :: 0 <= k < |SplitOn(html, "\n")| ==> '\n' !in SplitOn(html, "\n")[k]
  {
    var lines := SplitOn(html, "\n");
    forall k | 0 <= k < |lines| ensures '\n' !in lines[k] {
      if '\n' in lines[k] {
        var j :| 0 <= j < |lines[k]| && lines[k][j] == '\n';
        assert lines[k][j..j + 1] == "\n";
        ContainsAt(lines[k], "\n", j);
      }
    }
  }

  /** Appending to a joined text appends to its last piece. */
  lemma {:induction false} JoinAppendLast(parts: seq<string>, sep: string, x: string)
    requires |parts| >= 1
    ensures Join(parts, sep) + x == Join(parts[..|parts| - 1] + [parts[|parts| - 1] + x], sep)
    decreases |parts|
  {
    var init := parts[..|parts| - 1] + [parts[|parts| - 1] + x];
    if |parts| == 1 {
      assert init == [parts[0] + x];
    } else {
      var tail := parts[1..];
      JoinAppendLast(tail, sep, x);
      assert tail[..|tail| - 1] + [tail[|tail| - 1] + x] == init[1..];
      assert init[0] == parts[0] && |init| > 1;
      calc {
        Join(parts, sep) + x;
        parts[0] + sep + Join(tail, sep) + x;
        parts[0] + sep + (Join(tail, sep) + x);
        parts[0] + sep + Join(init[1..], sep);
        Join(init, sep);
      }
    }
  }

  /** The lines the list pass writes: the marked lines, `</ul>` closing the last one if needed. */
  function OutputLines(lines: seq<string>): (out: seq<string>)
    ensures |out| == |lines|
  {
    var marked := Marked(lines);
    if EndsInList(lines) then marked[..|lines| - 1] + [marked[|lines| - 1] + "</ul>"] else marked
  }

  /** Each output line is the input line behind its run tag, the last one closed if needed. */
  lemma {:induction false} OutputLineAt(lines: seq<string>, i: nat)
    requires i < |lines|
    ensures OutputLines(lines)[i] ==
            RunMark(lines, i) + lines[i] + (if i == |lines| - 1 && EndsInList(lines) then "</ul>" else "")
  {
    var marked := Marked(lines);
    assert marked[i] == RunMark(lines, i) + lines[i];
    if EndsInList(lines) && i < |lines| - 1 {
      assert OutputLines(lines)[i] == marked[..|lines| - 1][i];
    } else if !EndsInList(lines) {
      assert marked[i] + "" == marked[i];
    }
  }

  /** The list pass's output is its output lines joined by line breaks. */
  lemma {:induction false} ListWrappedJoin(html: string)
    ensures ListWrapped(html) == Join(OutputLines(SplitOn(html, "\n")), "\n")
  {
    var lines := SplitOn(html, "\n");
    var marked := Marked(lines);
    if EndsInList(lines) {
      JoinAppendLast(marked, "\n", "</ul>");
    } else {
      assert Join(marked, "\n") + "" == Join(marked, "\n");
    }
  }

  /** Run tags hold no line break, so output lines made of single lines are single lines. */
  lemma {:induction false} OutputLinesAreLines(lines: seq<string>)
    requires forall k :: 0 <= k < |lines| ==> '\n' !in lines[k]
    ensures forall k :: 0 <= k < |lines| ==> '\n' !in OutputLines(lines)[k]
  {
    assert '\n' !in "<ul>" && '\n' !in "</ul>";
    forall k | 0 <= k < |lines| ensures '\n' !in OutputLines(lines)[k] {
      assert '\n' !in RunMark(lines, k);
      OutputLineAt(lines, k);
    }
  }

  /**
   * The list pass keeps the number of lines and only puts `<ul>`, `</ul>` or
   * nothing in front of each line; the last line also gets `</ul>` behind it when
   * the text ends inside a list.
   */
  lemma {:induction false} ListPassLines(html: string)
    ensures var lines := SplitOn(html, "\n");
            var out := SplitOn(ListWrapped(html), "\n");
            && |out| == |lines|
            && forall i :: 0 <= i < |lines| ==>
                 out[i] == RunMark(lines, i) + lines[i] +
                           (if i == |lines| - 1 && EndsInList(lines) then "</ul>" else "")
  {
    var lines := SplitOn(html, "\n");
    NoNewlineInLines(html);
    OutputLinesAreLines(lines);
    ListWrappedJoin(html);
    SplitJoin(OutputLines(lines), '\n');
    forall i | 0 <= i < |lines| {
      OutputLineAt(lines, i);
    }
  }

  /** A line that neither begins nor ends a run of list items passes the list pass unchanged. */
  lemma {:induction false} RunInteriorUnchanged(html: string, i: nat)
    requires i < |SplitOn(html, "\n")|
    requires var lines := SplitOn(html, "\n");
             && IsItem(lines[i]) == (i > 0 && IsItem(lines[i - 1]))
             && !(i == |lines| - 1 && EndsInList(lines))
    ensures |SplitOn(ListWrapped(html), "\n")| == |SplitOn(html, "\n")|
    ensures SplitOn(ListWrapped(html), "\n")[i] == SplitOn(html, "\n")[i]
  {
    var lines := SplitOn(html, "\n");
    ListPassLines(html);
    assert RunMark(lines, i) == "";
    assert "" + lines[i] + "" == lines[i];
  }

  /** The tags the list pass inserts in front of the first `n` lines, in order. */
  function OpenedAndClosed(lines: seq<string>, n: nat): seq<string>
    requires n <= |lines|
  {
    if n == 0 then []
    else
      var mark := RunMark(lines, n - 1);
      OpenedAndClosed(lines, n - 1) + (if mark == "" then [] else [mark])
  }

  /** All tags the list pass inserts, the closing one at the end included. */
  function InsertedTags(lines: seq<string>): seq<string> {
    OpenedAndClosed(lines, |lines|) + (if EndsInList(lines) then ["</ul>"] else [])
  }

  /** `<ul>` and `</ul>` take turns, starting with `<ul>`. */
  predicate Alternating(tags: seq<string>) {
    forall k :: 0 <= k < |tags| ==> tags[k] == if k % 2 == 0 then "<ul>" else "</ul>"
  }

  lemma {:induction false} OpenedAndClosedAlternate(lines: seq<string>, n: nat)
    requires n <= |lines|
    ensures Alternating(OpenedAndClosed(lines, n))
    ensures |OpenedAndClosed(lines, n)| % 2 == if n > 0 && IsItem(lines[n - 1]) then 1 else 0
  {
    if n > 0 {
      OpenedAndClosedAlternate(lines, n - 1);
    }
  }

  /**
   * The tags the list pass inserts strictly alternate, an opening `<ul>` first, and
   * every `<ul>` is closed: there are as many `</ul>` as `<ul>`.
   */
  lemma {:induction false} ListTagsBalanced(html: string)
    ensures Alternating(InsertedTags(SplitOn(html, "\n")))
    ensures |InsertedTags(SplitOn(html, "\n"))| % 2 == 0
  {
    TagsBalanced(SplitOn(html, "\n"));
  }

  /** `ListTagsBalanced` for any sequence of lines. */
  lemma {:induction false} TagsBalanced(lines: seq<string>)
    ensures Alternating(InsertedTags(lines))
    ensures |InsertedTags(lines)| % 2 == 0
  {
    var inserted := OpenedAndClosed(lines, |lines|);
    OpenedAndClosedAlternate(lines, |lines|);
    if EndsInList(lines) {
      var tags := inserted + ["</ul>"];
      forall k | 0 <= k < |tags| ensures tags[k] == if k % 2 == 0 then "<ul>" else "</ul>" {
        if k < |inserted| {
          assert tags[k] == inserted[k];
        }
      }
    } else {
      assert inserted + [] == inserted;
    }
  }

  /* ---------- the paragraph pass (script.js:206-211) ---------- */

  /** A chunk that starts like a heading or a list is left as it is. */
  predicate OpensBlock(chunk: string) {
    StartsWith(chunk, "<h") || StartsWith(chunk, "<ul") || StartsWith(chunk, "<li")
  }

  /** `chunk.replace(/\n/g, '<br>')`. */
  function BreakLines(chunk: string): (r: string)
    ensures '\n' !in r
    ensures |r| == |chunk| + 3 * LineBreaks(chunk)
  {
    if chunk == [] then []
    else
      assert chunk == [chunk[0]] + chunk[1..];
      (if chunk[0] == '\n' then "<br>" else [chunk[0]]) + BreakLines(chunk[1..])
  }

  /** Text without line breaks is not changed by `BreakLines`. */
  lemma {:induction false} BreakLinesUntouched(chunk: string)
    requires '\n' !in chunk
    ensures BreakLines(chunk) == chunk
    decreases |chunk|
  {
    if chunk != [] {
      BreakLinesUntouched(chunk[1..]);
      assert chunk == [chunk[0]] + chunk[1..];
    }
  }

  /** `BreakLines` works piece by piece. */
  lemma {:induction false} BreakLinesAppend(a: string, b: string)
    ensures BreakLines(a + b) == BreakLines(a) + BreakLines(b)
    decreases |a|
  {
    if a == [] {
      assert a + b == b;
    } else {
      assert (a + b)[0] == a[0];
      assert (a + b)[1..] == a[1..] + b;
      BreakLinesAppend(a[1..], b);
    }
  }

  /** A text without the pattern `"\n"` holds no line break. */
  lemma {:induction false} NoLineBreakWithoutPattern(s: string)
    requires !Contains(s, "\n")
    ensures '\n' !in s
  {
    forall k | 0 <= k < |s| ensures s[k] != '\n' {
      if s[k] == '\n' {
        assert s[k..k + 1] == "\n";
        ContainsAt(s, "\n", k);
      }
    }
  }

  /** Joining a first piece and at least one more puts the separator after the first. */
  lemma {:induction false} JoinCons(first: string, tail: seq<string>, sep: string)
    requires |tail| >= 1
    ensures Join([first] + tail, sep) == first + sep + Join(tail, sep)
  {
    assert ([first] + tail)[1..] == tail;
  }

  /** Up to its first line break a chunk is kept, and that break becomes `<br>`. */
  lemma {:induction false} BreakLinesAtFirstBreak(chunk: string, i: nat)
    requires IsFirstFrom(chunk, "\n", 0, i)
    ensures BreakLines(chunk) == chunk[..i] + "<br>" + BreakLines(chunk[i + 1..])
  {
    var line, rest := chunk[..i], chunk[i + 1..];
    assert BreakLines(line) == line by {
      NotContainsBeforeFirst(chunk, "\n", i);
      NoLineBreakWithoutPattern(line);
      BreakLinesUntouched(line);
    }
    assert chunk[i..i + 1] == "\n";
    assert chunk == line + ("\n" + rest);
    BreakLinesAppend(line, "\n" + rest);
    assert ("\n" + rest)[0] == '\n' && ("\n" + rest)[1..] == rest;
  }

  /**
   * `chunk.replace(/\n/g, '<br>')` is `chunk.split('\n').join('<br>')`: the lines of
   * the chunk, unchanged, with `<br>` between them.
   */
  lemma {:induction false} BreakLinesJoinsLines(chunk: string)
    ensures BreakLines(chunk) == Join(SplitOn(chunk, "\n"), "<br>")
    decreases |chunk|
  {
    var i := FindFrom(chunk, "\n", 0);
    var parts := SplitOn(chunk, "\n");
    if i == -1 {
      SplitOnNone(chunk, "\n");
      NoLineBreakWithoutPattern(chunk);
      BreakLinesUntouched(chunk);
    } else {
      var line, rest := chunk[..i], chunk[i + 1..];
      var tail := SplitOn(rest, "\n");
      SplitOnRest(chunk, "\n", i);
      BreakLinesAtFirstBreak(chunk, i);
      BreakLinesJoinsLines(rest);
      JoinCons(line, tail, "<br>");
    }
  }

  /** One chunk: wrapped in `<p>` with `<br>` for line ends, unless it opens a block. */
  function Paragraph(chunk: string): string {
    if OpensBlock(chunk) then chunk else "<p>" + BreakLines(chunk) + "</p>"
  }

  /** The chunks between blank lines, each made a paragraph, joined with nothing between. */
  function Paragraphs(html: string): string {
    var chunks := SplitOn(html, "\n\n");
    Join(seq(|chunks|, i requires 0 <= i < |chunks| => Paragraph(chunks[i])), "")
  }

  /**
   * The paragraph pass on any text: its blank-line separated chunks, each one left
   * as it is when it opens a block and otherwise made `<p>` + its lines joined by
   * `<br>` + `</p>`, concatenated.
   */
  lemma {:induction false} ParagraphsOfChunks(html: string)
    ensures var chunks := SplitOn(html, "\n\n");
            Paragraphs(html) ==
              Join(seq(|chunks|, i requires 0 <= i < |chunks| =>
                         if OpensBlock(chunks[i]) then chunks[i]
                         else "<p>" + Join(SplitOn(chunks[i], "\n"), "<br>") + "</p>"), "")
  {
    var chunks := SplitOn(html, "\n\n");
    var paras := seq(|chunks|, i requires 0 <= i < |chunks| => Paragraph(chunks[i]));
    var expected := seq(|chunks|, i requires 0 <= i < |chunks| =>
                          if OpensBlock(chunks[i]) then chunks[i]
                          else "<p>" + Join(SplitOn(chunks[i], "\n"), "<br>") + "</p>");
    forall i | 0 <= i < |chunks| ensures paras[i] == expected[i] {
      BreakLinesJoinsLines(chunks[i]);
    }
    assert paras == expected;
  }

  /** Joining without a separator keeps at least the first piece. */
  lemma {:induction false} JoinKeepsFirst(parts: seq<string>)
    requires |parts| >= 1
    ensures |Join(parts, "")| >= |parts[0]|
    decreases |parts|
  {
    if |parts| > 1 {
      JoinKeepsFirst(parts[1..]);
    }
  }

  /** The paragraph pass never yields empty text: every chunk yields a tag or a paragraph. */
  lemma {:induction false} ParagraphsNonEmpty(html: string)
    ensures Paragraphs(html) != []
  {
    var chunks := SplitOn(html, "\n\n");
    var paras := seq(|chunks|, i requires 0 <= i < |chunks| => Paragraph(chunks[i]));
    assert paras[0] == Paragraph(chunks[0]);
    assert |paras[0]| >= 2;
    JoinKeepsFirst(paras);
  }

  /** When every chunk opens a block, the pass only removes the blank-line separators. */
  lemma {:induction false} BlocksPassThrough(html: string)
    requires forall k :: 0 <= k < |SplitOn(html, "\n\n")| ==> OpensBlock(SplitOn(html, "\n\n")[k])
    ensures Paragraphs(html) == Join(SplitOn(html, "\n\n"), "")
  {
    var chunks := SplitOn(html, "\n\n");
    assert seq(|chunks|, i requires 0 <= i < |chunks| => Paragraph(chunks[i])) == chunks;
  }

  /** A chunk of plain text without blank lines becomes one paragraph. */
  lemma {:induction false} PlainParagraph(html: string)
    requires !Contains(html, "\n\n") && !OpensBlock(html)
    ensures Paragraphs(html) == "<p>" + BreakLines(html) + "</p>"
  {
    assert SplitOn(html, "\n\n") == [html];
  }

  /* ---------- the whole formatter (script.js:180-214) ---------- */

  /** What the formatter returns: empty for empty input, otherwise the three passes in turn. */
  function Formatted(markdown: string): string {
    if markdown == [] then [] else Paragraphs(ListWrapped(Inline(markdown)))
  }

  /** `formatMarkdownToHtml(markdownText)`. */
  method FormatMarkdownToHtml(markdown: string) returns (html: string)
    ensures html == Formatted(markdown)
    ensures html == [] <==> markdown == []
  {
    if markdown == [] {
      return [];
    }
    html := Inline(markdown);
    html := WrapLists(html);
    html := Paragraphs(html);
    ParagraphsNonEmpty(ListWrapped(Inline(markdown)));
  }

  /**
   * One line of plain text (no heading marks, no `*`, not starting like a tag)
   * comes out as a single paragraph.
   */
  lemma {:induction false} PlainLineFormatted(line: string)
    requires line != []
    requires forall k :: 0 <= k < |line| ==> !IsLineTerminator(line[k])
    requires '#' !in line && '*' !in line
    requires !OpensBlock(line)
    ensures Formatted(line) == "<p>" + line + "</p>"
  {
    HeadingUntouched(line, "### ", "<h3>", "</h3>");
    HeadingUntouched(line, "## ", "<h2>", "</h2>");
    BoldUntouched(line, "<strong>", "</strong>");
    ItemsUntouched(line, "<li>", "</li>");
    assert Inline(line) == line;
    assert '\n' !in line;
    NotContainsWithoutHead(line, "\n");
    assert SplitOn(line, "\n") == [line];
    assert !IsItem(line);
    LoneLineUnmarked(line);
    assert ListWrapped(line) == line;
    NotContainsWithoutHead(line, "\n\n");
    PlainParagraph(line);
    BreakLinesUntouched(line);
  }
}
