/** Code spans in the paragraph they are printed into, by CommonMark 0.31.2: which lines go on with the paragraph, what
    each loses at its start (section 4.8), and what is then read as code (section 6.1). */
module MarkdownSpan {
  import opened Options
  import opened TextLines
  import opened DocumentPrinter
  import opened MarkdownCode
  import opened CopiedMarkdown

  predicate IsIndent(c: char) { c == ' ' || c == '\t' }

  function Unindented(line: string): string {
    if line != [] && IsIndent(line[0]) then Unindented(line[1..]) else line
  }

  /** Whether a line ends the paragraph: it is blank, or begins another block. Which lines do is left open. */
  predicate Cuts(line: string, begins: string -> bool) { Unindented(line) == [] || begins(line) }

  /** The lines that go on with a paragraph, each without its indent, and whether all of them do. */
  function Continued(lines: seq<string>, begins: string -> bool): (string, bool)
    decreases |lines|
  {
    if lines == [] then ("", true)
    else if Cuts(lines[0], begins) then ("", false)
    else
      var (rest, whole) := Continued(lines[1..], begins);
      ("\n" + Unindented(lines[0]) + rest, whole)
  }

  /** What a reader makes of the span printed for `text` after `lead` on its line, with `rest` the inline text that
      follows it in the paragraph: the code, and what comes after it. */
  function ReadInParagraph(printed: string, lead: string, rest: string, begins: string -> bool)
    : Option<(string, string)>
  {
    var lines := MarkLines(printed);
    var (more, whole) := Continued(lines[1..], begins);
    if begins(lead + lines[0]) then None
    else ReadSpan(lines[0] + more + if whole then rest else "")
  }

  // ---- The condition ----

  /** Every line of what is printed belongs to the one paragraph. */
  ghost predicate Uncut(printed: string, lead: string, begins: string -> bool) {
    var lines := MarkLines(printed);
    !begins(lead + lines[0]) && forall i :: 1 <= i < |lines| ==> !Cuts(lines[i], begins)
  }

  /** How many characters of indent these lines lose. */
  function Indents(lines: seq<string>): nat
    decreases |lines|
  {
    if lines == [] then 0
    else
      UnindentedIsSuffix(lines[0]);
      |lines[0]| - |Unindented(lines[0])| + Indents(lines[1..])
  }

  lemma {:induction false} UnindentedIsSuffix(line: string)
    ensures |Unindented(line)| <= |line| && Unindented(line) == line[|line| - |Unindented(line)|..]
    ensures Unindented(line) != [] ==> !IsIndent(Unindented(line)[0])
  {
    if line != [] && IsIndent(line[0]) { UnindentedIsSuffix(line[1..]); }
  }

  // ---- The lines of what is printed ----

  lemma {:induction false} LinesAfter(a: string, s: string)
    requires a != [] && '\n' !in a && '\r' !in a
    ensures MarkLines(a + s) == [a + MarkLines(s)[0]] + MarkLines(s)[1..]
    decreases |s|
  {
    hide Marked, EndsLine;
    if s == [] {
      assert a + s == a && a + [] == a;
      OneMarkLine(a);
    } else {
      var init, c := s[..|s| - 1], s[|s| - 1];
      assert (a + s)[..|a + s| - 1] == a + init && (a + s)[|a + s| - 1] == c;
      LinesAfter(a, init);
      SameEndingAfter(a, s);
      MarkedFirst(a, MarkLines(init), c, EndsLine(s));
    }
  }

  lemma SameEndingAfter(a: string, s: string)
    requires a != [] && '\r' !in a && s != []
    ensures EndsLine(a + s) == EndsLine(s)
  {
    var all := a + s;
    assert all[|all| - 1] == s[|s| - 1] && all[|all| - 2] == if |s| > 1 then s[|s| - 2] else a[|a| - 1];
  }

  lemma MarkedFirst(a: string, lines: seq<string>, c: char, ends: bool)
    requires lines != []
    ensures Marked([a + lines[0]] + lines[1..], c, ends)
      == [a + Marked(lines, c, ends)[0]] + Marked(lines, c, ends)[1..]
  {
    var other := [a + lines[0]] + lines[1..];
    var marked, wanted := Marked(other, c, ends), Marked(lines, c, ends);
    if |lines| == 1 {
      assert other == [a + lines[0]];
      assert a + (lines[0] + [c]) == a + lines[0] + [c];
    } else {
      assert other[..|other| - 1] == [a + lines[0]] + lines[1..|lines| - 1];
    }
    assert marked == [a + wanted[0]] + wanted[1..];
  }

  function WithLast(lines: seq<string>, b: string): (r: seq<string>)
    requires lines != []
    ensures |r| == |lines|
  {
    lines[..|lines| - 1] + [lines[|lines| - 1] + b]
  }

  lemma {:induction false} LinesBefore(s: string, b: string)
    requires '\n' !in b && '\r' !in b
    ensures MarkLines(s + b) == WithLast(MarkLines(s), b)
    decreases |b|
  {
    if b == [] {
      assert s + b == s;
      var last := MarkLines(s)[|MarkLines(s)| - 1];
      assert last + b == last;
    } else {
      var init, c := b[..|b| - 1], b[|b| - 1];
      assert (s + b)[..|s + b| - 1] == s + init && (s + b)[|s + b| - 1] == c;
      LinesBefore(s, init);
      var last := MarkLines(s)[|MarkLines(s)| - 1];
      assert last + init + [c] == last + b;
    }
  }

  /** The printed span's lines are those of its spaced text, with the backticks at the two ends. */
  lemma SpanLines(text: string)
    ensures var f, lines := FenceFor(text, 1), MarkLines(" " + text + " ");
      MarkLines(PrintSpan(text)) == WithLast([f + lines[0]] + lines[1..], f)
  {
    hide MarkLines, LongestRun;
    var f := FenceFor(text, 1);
    LinesAfter(f, " " + text + " ");
    LinesBefore(f + (" " + text + " "), f);
    assert PrintSpan(text) == f + (" " + text + " ") + f;
  }

  lemma SpacedEnds(text: string)
    ensures var lines := MarkLines(" " + text + " ");
      && lines[0] != [] && lines[0][0] == ' '
      && lines[|lines| - 1] != [] && lines[|lines| - 1][|lines[|lines| - 1]| - 1] == ' '
  {
    hide MarkLines;
    LinesAfter(" ", text + " ");
    LinesBefore(" " + text, " ");
    assert " " + (text + " ") == " " + text + " ";
    assert MarkLines(" " + text + " ")[0] == " " + MarkLines(text + " ")[0];
  }

  // ---- What the paragraph makes of them ----

  /** The lines after the first, each after a line ending and without its indent. */
  function Glued(lines: seq<string>): string
    decreases |lines|
  {
    if lines == [] then "" else "\n" + Unindented(lines[0]) + Glued(lines[1..])
  }

  lemma {:induction false} ContinuedIsGlued(lines: seq<string>, begins: string -> bool) returns (j: nat)
    ensures j <= |lines| && Continued(lines, begins).0 == Glued(lines[..j])
    ensures Continued(lines, begins).1 <==> j == |lines|
    ensures j == |lines| <==> forall i :: 0 <= i < |lines| ==> !Cuts(lines[i], begins)
    decreases |lines|
  {
    hide Cuts, Unindented;
    if lines == [] || Cuts(lines[0], begins) {
      j := 0;
    } else {
      var k := ContinuedIsGlued(lines[1..], begins);
      j := k + 1;
      assert lines[..j][1..] == lines[1..][..k];
      if k == |lines[1..]| {
        forall i | 0 <= i < |lines| ensures !Cuts(lines[i], begins) {
          if i > 0 { assert lines[i] == lines[1..][i - 1]; }
        }
      } else {
        var i :| 0 <= i < |lines[1..]| && Cuts(lines[1..][i], begins);
        assert lines[i + 1] == lines[1..][i];
      }
    }
  }

  lemma {:induction false} UnindentedBefore(line: string, f: string)
    requires f != [] && !IsIndent(f[0])
    ensures Unindented(line + f) == Unindented(line) + f
  {
    if line == [] {
      assert line + f == f;
    } else {
      assert (line + f)[1..] == line[1..] + f;
      UnindentedBefore(line[1..], f);
    }
  }

  lemma {:induction false} GluedWithLast(lines: seq<string>, f: string)
    requires lines != [] && f != [] && !IsIndent(f[0])
    ensures Glued(WithLast(lines, f)) == Glued(lines) + f
    ensures Indents(WithLast(lines, f)) == Indents(lines)
    decreases |lines|
  {
    hide Unindented;
    var other := WithLast(lines, f);
    if |lines| == 1 {
      UnindentedBefore(lines[0], f);
      assert other[1..] == [] && lines[1..] == [];
    } else {
      assert other[0] == lines[0] && other[1..] == WithLast(lines[1..], f);
      GluedWithLast(lines[1..], f);
    }
  }

  lemma {:induction false} GluedAppend(lines: seq<string>, line: string)
    ensures Glued(lines + [line]) == Glued(lines) + "\n" + Unindented(line)
    ensures Indents(lines + [line]) == Indents(lines) + (|line| - |Unindented(line)|)
    decreases |lines|
  {
    hide Unindented;
    var all := lines + [line];
    if lines == [] {
      assert all[1..] == [];
    } else {
      assert all[0] == lines[0] && all[1..] == lines[1..] + [line];
      GluedAppend(lines[1..], line);
    }
  }

  /** What the paragraph keeps of some lines. */
  function Content(lines: seq<string>): string
    requires lines != []
  {
    lines[0] + Glued(lines[1..])
  }

  /** Each character of indent is one character lost. */
  lemma {:induction false} ContentLength(lines: seq<string>)
    requires lines != []
    ensures |Content(lines)| + Indents(lines[1..]) == |Join(lines, "\n")|
    ensures Indents(lines[1..]) == 0 ==> Content(lines) == Join(lines, "\n")
    decreases |lines|
  {
    hide Unindented;
    if |lines| == 1 {
      assert lines[1..] == [];
    } else {
      var init, last := lines[..|lines| - 1], lines[|lines| - 1];
      ContentLength(init);
      assert lines[1..] == init[1..] + [last];
      GluedAppend(init[1..], last);
      UnindentedIsSuffix(last);
      if Unindented(last) != last { assert |Unindented(last)| < |last|; }
    }
  }

  /** Lines joined by line feeds read, in a span, as the text they are the lines of. */
  lemma {:induction false} JoinSpaces(s: string)
    ensures var joined := Join(MarkLines(s), "\n");
      SpacesForBreaks(joined) == SpacesForBreaks(s) && |joined| == |SpacesForBreaks(s)| && '\r' !in joined
  {
    if s != [] {
      var init, c := s[..|s| - 1], s[|s| - 1];
      JoinSpaces(init);
      var before := MarkLines(init);
      var joined := Join(before, "\n");
      if EndsLine(s) {
        assert (before + [[]])[..|before|] == before;
        assert Join(MarkLines(s), "\n") == joined + "\n";
        FeedRead(joined);
      } else if c != '\n' {
        var lines := MarkLines(s);
        assert lines[..|lines| - 1] == before[..|before| - 1];
        assert Join(lines, "\n") == joined + [c];
        CharRead(joined, c);
      }
    }
  }

  lemma FeedRead(s: string)
    requires '\r' !in s
    ensures SpacesForBreaks(s + "\n") == SpacesForBreaks(s) + " "
  {
    var all := s + "\n";
    assert all[..|all| - 1] == s && EndsLine(all);
  }

  lemma CharRead(s: string, c: char)
    requires c != '\n' && c != '\r'
    ensures SpacesForBreaks(s + [c]) == SpacesForBreaks(s) + [c]
  {
    var all := s + [c];
    assert all[..|all| - 1] == s && !EndsLine(all);
  }

  // ---- Runs of backticks in what the paragraph keeps ----

  lemma UnindentedRuns(line: string)
    ensures LongestRun(Unindented(line), '`') <= LongestRun(line, '`')
  {
    hide LongestRun, Unindented;
    var at := |line| - |Unindented(line)|;
    UnindentedIsSuffix(line);
    StretchLongest(line, at, |line|);
    assert line[at..|line|] == Unindented(line);
  }

  lemma FeedRuns(a: string, b: string, most: nat)
    requires LongestRun(a, '`') <= most && LongestRun(b, '`') <= most
    ensures LongestRun(a + "\n" + b, '`') <= most
  {
    hide LongestRun;
    RunsApart(a, '\n', b);
    assert a + ['\n'] + b == a + "\n" + b;
  }

  lemma {:induction false} GluedRuns(first: string, lines: seq<string>, most: nat)
    requires LongestRun(first, '`') <= most && forall line :: line in lines ==> LongestRun(line, '`') <= most
    ensures LongestRun(first + Glued(lines), '`') <= most
    decreases |lines|
  {
    hide LongestRun, Unindented;
    if lines == [] {
      assert first + Glued(lines) == first;
    } else {
      var line := Unindented(lines[0]);
      assert lines[0] in lines && forall l :: l in lines[1..] ==> l in lines;
      UnindentedRuns(lines[0]);
      FeedRuns(first, line, most);
      GluedRuns(first + "\n" + line, lines[1..], most);
      assert first + Glued(lines) == first + "\n" + line + Glued(lines[1..]);
    }
  }

  lemma LineLongest(s: string, line: string)
    requires line in MarkLines(s)
    ensures LongestRun(line, '`') <= LongestRun(s, '`')
  {
    hide LongestRun, MarkLines;
    var k :| 0 <= k < |MarkLines(s)| && MarkLines(s)[k] == line;
    var at := MarkLineWithin(s, k);
    StretchLongest(s, at, at + |line|);
  }

  lemma ContentRuns(text: string, j: nat)
    requires 1 <= j <= |MarkLines(" " + text + " ")|
    ensures LongestRun(Content(MarkLines(" " + text + " ")[..j]), '`') <= LongestRun(text, '`')
  {
    hide LongestRun, MarkLines, Glued;
    var spaced := " " + text + " ";
    var lines := MarkLines(spaced);
    AroundRuns(text, ' ');
    forall line | line in lines ensures LongestRun(line, '`') <= LongestRun(text, '`') {
      LineLongest(spaced, line);
    }
    assert lines[..j][0] in lines && forall line :: line in lines[..j][1..] ==> line in lines;
    GluedRuns(lines[0], lines[..j][1..], LongestRun(text, '`'));
  }

  // ---- What is read as code ----

  /** The spaces printed around the text are still there: the first at the start, and at the end the second, or, where a
      last line of nothing but indent lost it, the line ending before. */
  lemma ContentEnds(text: string)
    ensures var content := Content(MarkLines(" " + text + " "));
      |content| >= 2 && content[0] == ' ' && content[|content| - 1] in {' ', '\n'}
  {
    hide MarkLines, Unindented;
    var lines := MarkLines(" " + text + " ");
    SpacedEnds(text);
    if |lines| == 1 {
      JoinSpaces(" " + text + " ");
      SpacedText(text);
      assert Glued(lines[1..]) == [] && Content(lines) == lines[0] + [];
    } else {
      var last := lines[|lines| - 1];
      assert lines[1..] == lines[1..|lines| - 1] + [last];
      GluedAppend(lines[1..|lines| - 1], last);
      UnindentedIsSuffix(last);
    }
  }

  lemma SpacedText(text: string)
    ensures SpacesForBreaks(" " + text + " ") == " " + SpacesForBreaks(text) + " "
  {
    var inner := " " + text + " ";
    assert inner[..|inner| - 1] == " " + text && !EndsLine(inner);
    SpaceAhead(text);
  }

  lemma {:induction false} SpacesAre(s: string)
    requires '\r' !in s
    ensures |SpacesForBreaks(s)| == |s|
    ensures forall i :: 0 <= i < |s| ==> SpacesForBreaks(s)[i] == if s[i] == '\n' then ' ' else s[i]
  {
    if s != [] { SpacesAre(s[..|s| - 1]); }
  }

  lemma {:induction false} BlankChars(s: string)
    ensures Blank(SpacesForBreaks(s)) <==> forall c :: c in s ==> c in {' ', '\n', '\r'}
  {
    if s != [] {
      var init, c := s[..|s| - 1], s[|s| - 1];
      BlankChars(init);
      var before := SpacesForBreaks(init);
      assert s == init + [c];
      BlankAppend(before, ' ');
      BlankAppend(before, c);
      assert c in s && forall x :: x in s <==> x in init || x == c;
    }
  }

  lemma BlankAppend(s: string, c: char)
    ensures Blank(s + [c]) <==> Blank(s) && c == ' '
  {
    var all := s + [c];
    assert all[|s|] == c;
    assert c in all;
    forall x | x in s ensures x in all {
      var i :| 0 <= i < |s| && s[i] == x;
      assert all[i] == x;
    }
    forall x | x in all ensures x in s || x == c {
      var i :| 0 <= i < |all| && all[i] == x;
      if i < |s| { assert s[i] == x; }
    }
  }

  lemma {:induction false} GluedChars(lines: seq<string>, some: set<char>)
    requires '\n' in some && forall line, c :: line in lines && c in line ==> c in some
    ensures forall c :: c in Glued(lines) ==> c in some
    decreases |lines|
  {
    hide Unindented;
    if lines != [] {
      assert lines[0] in lines && forall line :: line in lines[1..] ==> line in lines;
      GluedChars(lines[1..], some);
      UnindentedIsSuffix(lines[0]);
      forall c | c in Unindented(lines[0]) ensures c in some {
        assert c in lines[0];
      }
    }
  }

  /** A blank text's content is blank. */
  lemma BlankContent(text: string)
    requires Blank(SpacesForBreaks(text))
    ensures Blank(SpacesForBreaks(Content(MarkLines(" " + text + " "))))
  {
    hide MarkLines, SpacesForBreaks, Glued, LiesAt;
    var spaced := " " + text + " ";
    var lines := MarkLines(spaced);
    BlankChars(text);
    forall line, c | line in lines && c in line ensures c in {' ', '\n', '\r'} {
      LineChar(spaced, line, c);
    }
    assert lines[0] in lines && forall line :: line in lines[1..] ==> line in lines;
    GluedChars(lines[1..], {' ', '\n', '\r'});
    BlankChars(Content(lines));
  }

  lemma LineChar(s: string, line: string, c: char)
    requires line in MarkLines(s) && c in line
    ensures c in s
  {
    var k :| 0 <= k < |MarkLines(s)| && MarkLines(s)[k] == line;
    var at := MarkLineWithin(s, k);
    var i :| 0 <= i < |line| && line[i] == c;
    assert s[at..at + |line|][i] == s[at + i];
  }

  /** What the span reads as is the text, line endings as spaces, exactly when nothing was lost; or when nothing but
      blank was there and two characters of it were lost, in place of the two that are otherwise stripped. */
  lemma ContentReads(text: string)
    ensures var lines := MarkLines(" " + text + " ");
      SpanText(Content(lines)) == SpacesForBreaks(text)
      <==> Indents(lines[1..]) == if Blank(SpacesForBreaks(text)) then 2 else 0
  {
    hide MarkLines, SpacesForBreaks, Blank, Glued, Content, Join, Indents;
    var spaced := " " + text + " ";
    var lines := MarkLines(spaced);
    var content, lost := Content(lines), Indents(lines[1..]);
    JoinSpaces(spaced);
    ContentLength(lines);
    SpacedText(text);
    ContentEnds(text);
    ContentPlain(text);
    SpacesAre(content);
    var read, want := SpacesForBreaks(content), SpacesForBreaks(text);
    assert |read| + lost == |want| + 2;
    if lost == 0 {
      assert read == " " + want + " ";
      StripsOne(want);
    } else if Blank(want) {
      BlankContent(text);
      AllSpaces(read, want);
    } else if Blank(read) {
      assert read != want;
    }
  }

  lemma AllSpaces(a: string, b: string)
    requires Blank(a) && Blank(b)
    ensures a == b <==> |a| == |b|
  {
    assert forall i :: 0 <= i < |a| ==> a[i] in a;
    assert forall i :: 0 <= i < |b| ==> b[i] in b;
  }

  /** Lines hold no line endings. */
  lemma {:induction false} LinesArePlain(s: string)
    ensures forall line :: line in MarkLines(s) ==> '\r' !in line && '\n' !in line
  {
    if s != [] {
      LinesArePlain(s[..|s| - 1]);
      var before := MarkLines(s[..|s| - 1]);
      assert before[|before| - 1] in before;
    }
  }

  lemma ContentPlain(text: string)
    ensures '\r' !in Content(MarkLines(" " + text + " "))
  {
    hide MarkLines, Glued;
    var lines := MarkLines(" " + text + " ");
    LinesArePlain(" " + text + " ");
    assert lines[0] in lines && forall line :: line in lines[1..] ==> line in lines;
    var some := set line, c | line in lines[1..] && c in line :: c;
    assert '\r' !in some + {'\n'};
    GluedChars(lines[1..], some + {'\n'});
  }

  // ---- The theorem ----

  /** The paragraph up to the end of the span, or to where it is cut. */
  lemma SpanParagraph(text: string, begins: string -> bool) returns (j: nat)
    ensures var f, spaced, lines := FenceFor(text, 1), MarkLines(" " + text + " "), MarkLines(PrintSpan(text));
      var (more, whole) := Continued(lines[1..], begins);
      && 1 <= j <= |spaced|
      && Indents(lines[1..]) == Indents(spaced[1..])
      && lines[0] + more == f + Content(spaced[..j]) + (if whole then f else "")
      && (whole ==> j == |spaced|)
      && (whole <==> forall i :: 1 <= i < |lines| ==> !Cuts(lines[i], begins))
  {
    hide MarkLines, LongestRun, Glued, Indents, Cuts, Unindented;
    var f := FenceFor(text, 1);
    var spaced, lines := MarkLines(" " + text + " "), MarkLines(PrintSpan(text));
    SpanLines(text);
    var k := ContinuedIsGlued(lines[1..], begins);
    j := k + 1;
    assert spaced[..j][1..] == spaced[1..][..k];
    assert |f| > 0 && f[0] == '`' && !IsIndent('`');
    if |spaced| == 1 {
      assert lines == [f + spaced[0] + f] && lines[1..] == [] == spaced[1..];
      NothingGlued();
    } else {
      assert lines[0] == f + spaced[0] && lines[1..] == WithLast(spaced[1..], f);
      GluedWithLast(spaced[1..], f);
      if k == |lines[1..]| {
        assert lines[1..][..k] == lines[1..] && spaced[1..][..k] == spaced[1..];
      } else {
        assert lines[1..][..k] == spaced[1..][..k];
      }
    }
    assert forall i :: 1 <= i < |lines| ==> lines[i] == lines[1..][i - 1];
    assert forall i :: 0 <= i < |lines[1..]| ==> lines[1..][i] == lines[i + 1];
  }

  lemma NothingGlued()
    ensures Glued([]) == ""
  {}

  /** A cut span is no code span: its closing backticks are not in the paragraph. Otherwise it is read to its end. */
  lemma SpanRead(text: string, lead: string, rest: string, begins: string -> bool)
    requires rest == [] || rest[0] != '`'
    ensures ReadInParagraph(PrintSpan(text), lead, rest, begins)
      == if Uncut(PrintSpan(text), lead, begins)
         then Some((SpanText(Content(MarkLines(" " + text + " "))), rest)) else None
    ensures Indents(MarkLines(PrintSpan(text))[1..]) == Indents(MarkLines(" " + text + " ")[1..])
  {
    hide MarkLines, LongestRun, Glued, Indents, Cuts, Unindented, Content, Run, NextTicks, SpanText;
    hide ReadSpan, Continued;
    var lines, spaced := MarkLines(PrintSpan(text)), MarkLines(" " + text + " ");
    var j := SpanParagraph(text, begins);
    var whole := Continued(lines[1..], begins).1;
    if !begins(lead + lines[0]) {
      ContentRuns(text, j);
      var f, content := FenceFor(text, 1), Content(spaced[..j]);
      ContentStarts(text, j);
      if whole {
        assert spaced[..j] == spaced;
        ContentEnds(text);
        WholeSpanRead(|f|, content, rest);
      } else {
        CutSpanRead(|f|, content);
        assert lines[0] + Continued(lines[1..], begins).0 + "" == f + content;
      }
    }
  }

  /** A CommonMark reader gets a printed span back from the paragraph it stands in (the text, line endings as spaces,
      and then whatever follows), if and only if no line of it ends the paragraph or begins another block, and none of
      its lines after the first is indented. (A blank text, which is not stripped, comes back only where indents happen
      to lose two characters.) Holds for every text, whatever stands before and after, and whatever begins a block. */
  lemma SpanIsRecoveredExactlyWhen(text: string, lead: string, rest: string, begins: string -> bool)
    requires rest == [] || rest[0] != '`'
    ensures ReadInParagraph(PrintSpan(text), lead, rest, begins) == Some((SpacesForBreaks(text), rest))
      <==> (Uncut(PrintSpan(text), lead, begins)
            && Indents(MarkLines(PrintSpan(text))[1..]) == if Blank(SpacesForBreaks(text)) then 2 else 0)
  {
    hide MarkLines, Indents, Uncut, Content, SpanText, SpacesForBreaks, Blank, ReadInParagraph;
    SpanRead(text, lead, rest, begins);
    ContentReads(text);
  }

  // ---- The copied span ----

  predicate PairAt(s: string, i: int) { 0 <= i && i + 1 < |s| && s[i] == '\n' && s[i + 1] == '\n' }

  ghost predicate HasPair(s: string) { exists i :: 0 <= i < |s| && PairAt(s, i) }

  lemma {:induction false} SqueezeKeepsPairs(s: string)
    requires HasPair(s)
    ensures HasPair(Squeeze(s))
  {
    var i :| 0 <= i < |s| && PairAt(s, i);
    var init, squeezed := s[..|s| - 1], Squeeze(s);
    if ThreeAt(s, |s| - 3) {
      assert PairAt(init, |init| - 2) && squeezed == Squeeze(init);
      SqueezeKeepsPairs(init);
    } else if i + 2 == |s| {
      SqueezeEnds(init);
      assert squeezed == Squeeze(init) + ['\n'];
      assert PairAt(squeezed, |squeezed| - 2);
    } else {
      assert PairAt(init, i);
      SqueezeKeepsPairs(init);
      var k :| 0 <= k < |Squeeze(init)| && PairAt(Squeeze(init), k);
      assert PairAt(squeezed, k);
    }
  }

  /** Two line feeds in a row leave an empty line, which ends the paragraph. */
  lemma PairCuts(s: string, lead: string, begins: string -> bool)
    requires HasPair(s)
    ensures !Uncut(s, lead, begins)
  {
    var i :| 0 <= i < |s| && PairAt(s, i);
    hide MarkLines;
    var a, b := s[..i], s[i + 2..];
    assert s == a + "\n" + ("" + "\n" + b);
    MarkLinesConcat(a, "" + "\n" + b);
    MarkLinesConcat("", b);
    OneMarkLine("");
    SomeLineBefore(a);
    var lines := MarkLines(s);
    assert lines[|LinesBeforeFeed(a)|] == "" && Cuts("", begins);
  }

  lemma SomeLineBefore(s: string)
    ensures |LinesBeforeFeed(s)| >= 1
  {}

  /** Squeezing a printed span is printing the squeezed text. */
  lemma CopiedSpan(text: string)
    ensures Squeeze(PrintSpan(text)) == PrintSpan(Squeeze(text))
  {
    hide Squeeze, LongestRun;
    var f := FenceFor(text, 1);
    SqueezeKeepsRuns(text);
    SqueezesExactlyWhen(f);
    SqueezesExactlyWhen(" ");
    SqueezeAround(f + " ", " ", f);
    SqueezeApart(f, " ");
    SqueezeApart(f + " ", text);
    SqueezeApart(f + " " + text, " ");
    SqueezeApart(f + " " + text + " ", f);
    assert PrintSpan(text) == f + " " + text + " " + f;
  }

  /** The same, exactly, for the span as it is copied. */
  lemma CopiedSpanIsRecoveredExactlyWhen(text: string, lead: string, rest: string, begins: string -> bool)
    requires rest == [] || rest[0] != '`'
    ensures ReadInParagraph(Squeeze(PrintSpan(text)), lead, rest, begins) == Some((SpacesForBreaks(text), rest))
      <==> (Uncut(PrintSpan(text), lead, begins)
            && Indents(MarkLines(PrintSpan(text))[1..]) == if Blank(SpacesForBreaks(text)) then 2 else 0)
  {
    hide MarkLines, Indents, Uncut, Content, SpanText, SpacesForBreaks, Blank, ReadInParagraph, Squeeze, PrintSpan;
    var printed := PrintSpan(text);
    SpanIsRecoveredExactlyWhen(text, lead, rest, begins);
    SqueezesExactlyWhen(printed);
    if HasThree(printed) {
      ThreeIsPair(printed);
      SqueezeKeepsPairs(printed);
      CopiedSpan(text);
      PairCuts(printed, lead, begins);
      PairCuts(PrintSpan(Squeeze(text)), lead, begins);
      SpanRead(Squeeze(text), lead, rest, begins);
    }
  }

  lemma ThreeIsPair(s: string)
    requires HasThree(s)
    ensures HasPair(s)
  {
    var i :| 0 <= i < |s| && ThreeAt(s, i);
    assert PairAt(s, i);
  }

  lemma ContentStarts(text: string, j: nat)
    requires 1 <= j <= |MarkLines(" " + text + " ")|
    ensures var content := Content(MarkLines(" " + text + " ")[..j]); content != [] && content[0] == ' '
  {
    hide MarkLines, Glued;
    SpacedEnds(text);
  }

  lemma WholeSpanRead(n: nat, content: string, rest: string)
    requires n > LongestRun(content, '`') && content != [] && content[0] == ' '
    requires content[|content| - 1] in {' ', '\n'} && (rest == [] || rest[0] != '`')
    ensures var f := Repeat('`', n); ReadSpan(f + content + f + rest) == Some((SpanText(content), rest))
  {
    hide Run, LongestRun, NextTicks, SpanText;
    var f := Repeat('`', n);
    var s := f + content + f + rest;
    assert s == f + (content + f + rest);
    RunOfRepeat('`', n, content + f + rest);
    TicksAfter(n, content, rest);
    Pieces(f, content, f, rest);
    ReadBetween(s, n, n + |content|);
  }

  lemma ReadBetween(s: string, n: nat, close: nat)
    requires n > 0 && Run(s, '`') == n <= |s| && NextTicks(s, n, n) == Some(close)
    ensures n <= close && close + n <= |s|
    ensures ReadSpan(s) == Some((SpanText(s[n..close]), s[close + n..]))
  {
    hide Run, NextTicks, SpanText;
  }

  lemma CutSpanRead(n: nat, content: string)
    requires n > LongestRun(content, '`') && content != [] && content[0] == ' '
    ensures ReadSpan(Repeat('`', n) + content) == None
  {
    hide Run, LongestRun, NextTicks, SpanText;
    RunOfRepeat('`', n, content);
    NoTicksAfter(n, content);
  }
}
