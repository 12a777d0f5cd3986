/** What a reader that follows CommonMark 0.31.2 makes of the code blocks and code spans the selection printer writes.
    */
module MarkdownCode {
  import opened Options
  import opened TextLines
  import opened DocumentPrinter

  // ---- Code blocks by section 4.5 of CommonMark 0.31.2 ----

  /** A closing fence: at most three spaces, at least `length` backticks, then nothing but spaces and tabs. */
  predicate ClosesBlock(line: string, length: nat) {
    var indent := Run(line, ' ');
    && indent <= 3 && indent <= |line|
    && var ticks := Run(line[indent..], '`');
       && ticks >= length && ticks <= |line[indent..]|
       && forall c :: c in line[indent..][ticks..] ==> c == ' ' || c == '\t'
  }

  /** The lines of a code block opened by a fence of that length, and the lines after it. */
  function BlockContent(lines: seq<string>, length: nat): (seq<string>, seq<string>) {
    if lines == [] then ([], [])
    else if ClosesBlock(lines[0], length) then ([], lines[1..])
    else
      var (body, rest) := BlockContent(lines[1..], length);
      ([lines[0]] + body, rest)
  }

  lemma {:induction false} ContentUntilFence(body: seq<string>, length: nat, close: string, rest: seq<string>)
    requires ClosesBlock(close, length) && forall line :: line in body ==> !ClosesBlock(line, length)
    ensures BlockContent(body + [close] + rest, length) == (body, rest)
    decreases |body|
  {
    hide ClosesBlock;
    var lines := body + [close] + rest;
    if body == [] {
      assert lines[1..] == rest;
    } else {
      assert body == [body[0]] + body[1..] && forall line :: line in body[1..] ==> line in body;
      assert lines[0] == body[0] && lines[1..] == body[1..] + [close] + rest;
      ContentUntilFence(body[1..], length, close, rest);
    }
  }

  // ---- Lines as CommonMark has them: a line feed, a carriage return, or the two together end one ----

  /** Whether the last character ends a line, rather than being the second half of an ending. */
  predicate EndsLine(s: string)
    requires s != []
  {
    s[|s| - 1] == '\r' || (s[|s| - 1] == '\n' && (|s| == 1 || s[|s| - 2] != '\r'))
  }

  function MarkLines(s: string): (r: seq<string>)
    ensures r != []
  {
    if s == [] then [[]]
    else
      Marked(MarkLines(s[..|s| - 1]), s[|s| - 1], EndsLine(s))
  }

  function Marked(lines: seq<string>, c: char, ends: bool): (r: seq<string>)
    requires lines != []
    ensures r != []
  {
    if ends then lines + [[]]
    else if c == '\n' then lines
    else lines[..|lines| - 1] + [lines[|lines| - 1] + [c]]
  }

  predicate EndsInReturn(s: string) { s != [] && s[|s| - 1] == '\r' }

  /** The lines of a text that a line feed follows: after a carriage return the two are one ending. */
  function LinesBeforeFeed(s: string): seq<string> {
    if EndsInReturn(s) then MarkLines(s)[..|MarkLines(s)| - 1] else MarkLines(s)
  }

  lemma MarkedAfter(a: seq<string>, b: seq<string>, c: char, ends: bool)
    requires b != []
    ensures Marked(a + b, c, ends) == a + Marked(b, c, ends)
  {
    assert (a + b)[..|a + b| - 1] == a + b[..|b| - 1];
  }

  lemma FeedAfter(a: string)
    ensures MarkLines(a + "\n") == LinesBeforeFeed(a) + [[]]
  {
    var s := a + "\n";
    assert s[..|s| - 1] == a && s[|s| - 1] == '\n';
    if EndsInReturn(a) {
      assert s[|s| - 2] == '\r' && !EndsLine(s);
      ReturnBreaks(a);
      assert MarkLines(a) == LinesBeforeFeed(a) + [[]];
    } else {
      assert EndsLine(s);
    }
  }

  lemma {:induction false} MarkLinesConcat(a: string, b: string)
    ensures MarkLines(a + "\n" + b) == LinesBeforeFeed(a) + MarkLines(b)
    decreases |b|
  {
    hide EndsLine, LinesBeforeFeed, Marked;
    var s := a + "\n" + b;
    if b == [] {
      assert s == a + "\n";
      FeedAfter(a);
    } else {
      var init, c := b[..|b| - 1], b[|b| - 1];
      assert s[..|s| - 1] == a + "\n" + init && s[|s| - 1] == c;
      SameEnding(a, b);
      MarkLinesConcat(a, init);
      MarkedAfter(LinesBeforeFeed(a), MarkLines(init), c, EndsLine(b));
    }
  }

  lemma SameEnding(a: string, b: string)
    requires b != []
    ensures EndsLine(a + "\n" + b) == EndsLine(b)
  {
    var s := a + "\n" + b;
    assert s[|s| - 1] == b[|b| - 1] && s[|s| - 2] == if |b| > 1 then b[|b| - 2] else '\n';
  }

  lemma {:induction false} OneMarkLine(s: string)
    requires '\n' !in s && '\r' !in s
    ensures MarkLines(s) == [s]
  {
    if s != [] {
      assert s == s[..|s| - 1] + [s[|s| - 1]];
      OneMarkLine(s[..|s| - 1]);
    }
  }

  /** Without carriage returns these are the lines between line feeds. */
  lemma {:induction false} PlainMarkLines(s: string)
    requires '\r' !in s
    ensures MarkLines(s) == Lines(s)
  {
    if s != [] { PlainMarkLines(s[..|s| - 1]); }
  }

  /** Where a line of `s` lies in it. */
  ghost predicate LiesAt(s: string, lines: seq<string>, k: nat, at: nat) {
    && k < |lines| && at + |lines[k]| <= |s| && s[at..at + |lines[k]|] == lines[k]
    && (k == |lines| - 1 ==> at + |lines[k]| == |s|)
  }

  lemma StillLies(s: string, lines: seq<string>, k: nat, at: nat, c: char)
    requires lines != [] && LiesAt(s, lines, k, at)
    ensures LiesAt(s + [c], lines + [[]], k, at)
    ensures c != '\n' ==> LiesAt(s + [c], Marked(lines, c, false), k, at)
    ensures lines[|lines| - 1] == [] ==> LiesAt(s + [c], lines, k, if k == |lines| - 1 then |s| + 1 else at)
  {
    assert (s + [c])[at..at + |lines[k]|] == s[at..at + |lines[k]|];
    if k == |lines| - 1 {
      assert (s + [c])[at..] == s[at..] + [c];
    }
  }

  /** A line is a stretch of the text. */
  lemma {:induction false} MarkLineWithin(s: string, k: nat) returns (at: nat)
    requires k < |MarkLines(s)|
    ensures LiesAt(s, MarkLines(s), k, at)
  {
    hide LiesAt;
    if s == [] {
      at := 0;
      EmptyLies();
    } else {
      var init, c := s[..|s| - 1], s[|s| - 1];
      var before := MarkLines(init);
      assert s == init + [c];
      if EndsLine(s) && k == |before| {
        at := |s|;
        LastLies(s, before);
      } else {
        at := MarkLineWithin(init, k);
        StillLies(init, before, k, at, c);
        if c == '\n' && !EndsLine(s) {
          ReturnBreaks(init);
          at := if k == |before| - 1 then |s| else at;
        }
      }
    }
  }

  lemma EmptyLies()
    ensures LiesAt("", MarkLines(""), 0, 0)
  {}

  lemma LastLies(s: string, before: seq<string>)
    ensures LiesAt(s, before + [[]], |before|, |s|)
  {}

  lemma ReturnBreaks(s: string)
    requires EndsInReturn(s)
    ensures MarkLines(s)[|MarkLines(s)| - 1] == []
  {}

  lemma MarkLineRuns(s: string, c: char, line: string, i: nat)
    requires line in MarkLines(s) && i <= |line|
    ensures Run(line[i..], c) <= LongestRun(s, c)
  {
    var k :| 0 <= k < |MarkLines(s)| && MarkLines(s)[k] == line;
    var at := MarkLineWithin(s, k);
    StretchRuns(s, c, at, line, i);
  }

  // ---- The block read back ----

  /** What is printed for a code block, between its empty lines. */
  function BlockText(text: string): string { FenceFor(text, 3) + "\n" + text + "\n" + FenceFor(text, 3) }

  lemma BlockMarkLines(text: string)
    ensures MarkLines(BlockText(text)) == [FenceFor(text, 3)] + LinesBeforeFeed(text) + [FenceFor(text, 3)]
  {
    hide MarkLines;
    var f := FenceFor(text, 3);
    OneMarkLine(f);
    MarkLinesConcat(text, f);
    MarkLinesConcat(f, text + "\n" + f);
    assert f + "\n" + text + "\n" + f == f + "\n" + (text + "\n" + f);
  }

  /** For every text, a CommonMark reader closes the printed block at its own closing fence and nowhere earlier. It gets
      exactly the text's lines, and without carriage returns the very text, if and only if the text does not end in a
      carriage return (which the printed line feed would complete to one ending). */
  lemma PrintedBlockIsRecovered(text: string, rest: seq<string>)
    ensures var lines := MarkLines(BlockText(text)) + rest;
      && Run(lines[0], '`') == |lines[0]| >= 3
      && BlockContent(lines[1..], |lines[0]|) == (LinesBeforeFeed(text), rest)
      && (BlockContent(lines[1..], |lines[0]|).0 == MarkLines(text) <==> !EndsInReturn(text))
      && ('\r' !in text ==> Join(BlockContent(lines[1..], |lines[0]|).0, "\n") == text)
  {
    hide MarkLines, Lines, Join;
    var f := FenceFor(text, 3);
    BlockMarkLines(text);
    var lines := MarkLines(BlockText(text)) + rest;
    assert lines[1..] == LinesBeforeFeed(text) + [f] + rest;
    RunOfRepeat('`', |f|, []);
    assert f + [] == f;
    assert Run(f, ' ') == 0 && f[0..] == f && ClosesBlock(f, |f|);
    forall line | line in LinesBeforeFeed(text) ensures !ClosesBlock(line, |f|) {
      assert line in MarkLines(text);
      if Run(line, ' ') <= |line| {
        MarkLineRuns(text, '`', line, Run(line, ' '));
      }
    }
    ContentUntilFence(LinesBeforeFeed(text), |f|, f, rest);
    if '\r' !in text {
      PlainMarkLines(text);
      JoinLines(text);
    }
  }

  // ---- Code spans by section 6.1 of CommonMark 0.31.2 ----

  function PrintSpan(text: string): string { FenceFor(text, 1) + " " + text + " " + FenceFor(text, 1) }

  /** Where the first run of exactly `length` backticks at or after `i` begins. */
  function NextTicks(s: string, i: nat, length: nat): (r: Option<nat>)
    requires i <= |s| && length > 0
    ensures r.Some? ==> i <= r.value && r.value + length <= |s| && Run(s[r.value..], '`') == length
    decreases |s| - i
  {
    var n := Run(s[i..], '`');
    RunBounds(s[i..], '`');
    if n == length then Some(i)
    else if i + n < |s| then NextTicks(s, i + n + 1, length)
    else None
  }

  /** Each line ending as one space. */
  function SpacesForBreaks(s: string): string {
    if s == [] then []
    else
      var before, c := SpacesForBreaks(s[..|s| - 1]), s[|s| - 1];
      if EndsLine(s) then before + [' '] else if c == '\n' then before else before + [c]
  }

  predicate Blank(s: string) { forall c :: c in s ==> c == ' ' }

  /** Line endings become spaces; one space comes off each end when both have one and there is something else. */
  function SpanText(content: string): string {
    var s := SpacesForBreaks(content);
    if |s| >= 2 && s[0] == ' ' && s[|s| - 1] == ' ' && !Blank(s) then s[1..|s| - 1] else s
  }

  /** The code span at the start of `s`, and what follows it. */
  function ReadSpan(s: string): Option<(string, string)> {
    var length := Run(s, '`');
    RunBounds(s, '`');
    if length == 0 then None
    else
      var close := NextTicks(s, length, length);
      if close.None? then None
      else Some((SpanText(s[length..close.value]), s[close.value + length..]))
  }

  lemma {:induction false} TicksFound(s: string, i: nat, at: nat, length: nat)
    requires i <= at <= |s| && length > 0 && Run(s[at..], '`') == length
    requires i < at ==> s[at - 1] != '`'
    requires forall j :: i <= j < at ==> Run(s[j..], '`') < length
    ensures NextTicks(s, i, length) == Some(at)
    decreases at - i
  {
    hide Run;
    if i < at {
      var n := Run(s[i..], '`');
      RunBounds(s[i..], '`');
      assert s[i..][at - 1 - i] == s[at - 1];
      TicksFound(s, i + n + 1, at, length);
    }
  }

  /** A run inside a longer text, up to a place where the character differs. */
  lemma {:induction false} RunStops(s: string, c: char, k: nat)
    requires k < |s| && s[k] != c
    ensures Run(s, c) == Run(s[..k], c) <= k
  {
    if k > 0 && s[0] == c {
      assert s[1..][..k - 1] == s[..k][1..];
      RunStops(s[1..], c, k - 1);
    }
  }

  /** A CommonMark reader finds the span's own closing backticks, and gets the text back, line endings as spaces,
      exactly when there is something other than spaces in it. */
  lemma PrintedSpanIsRecovered(text: string, rest: string)
    requires rest == [] || rest[0] != '`'
    ensures ReadSpan(PrintSpan(text) + rest).Some?
    ensures ReadSpan(PrintSpan(text) + rest).value.1 == rest
    ensures ReadSpan(PrintSpan(text) + rest).value.0 == SpacesForBreaks(text) <==> !Blank(SpacesForBreaks(text))
  {
    hide Run, LongestRun, Blank, NextTicks, SpanText, FenceFor, SpacesForBreaks;
    var f := FenceFor(text, 1);
    var n := |f|;
    var inner := " " + text + " ";
    var s := PrintSpan(text) + rest;
    assert s == f + (inner + f + rest);
    FenceLength(text, 1, inner + f + rest);
    OwnTicks(text, rest);
    assert s == f + inner + f + rest;
    Pieces(f, inner, f, rest);
    InnerText(text);
  }

  lemma Pieces(a: string, b: string, c: string, d: string)
    ensures var s := a + b + c + d; s[|a|..|a| + |b|] == b && s[|a| + |b| + |c|..] == d
  {}

  lemma FenceLength(text: string, least: nat, rest: string)
    requires least > 0 && (rest == [] || rest[0] != '`')
    ensures Run(FenceFor(text, least) + rest, '`') == |FenceFor(text, least)| > LongestRun(text, '`')
  {
    hide Run, LongestRun;
    RunOfRepeat('`', |FenceFor(text, least)|, rest);
  }

  // ---- Longest runs of backticks in longer strings ----

  lemma {:induction false} RunsGrow(a: string, b: string)
    ensures TailRun(a + b, '`') >= TailRun(b, '`')
    ensures LongestRun(a + b, '`') >= LongestRun(b, '`') && LongestRun(a + b, '`') >= LongestRun(a, '`')
    decreases |b|
  {
    if b == [] {
      assert a + b == a;
    } else {
      assert (a + b)[..|a + b| - 1] == a + b[..|b| - 1];
      RunsGrow(a, b[..|b| - 1]);
    }
  }

  /** A stretch of a text has no longer run than the text. */
  lemma StretchLongest(s: string, i: nat, j: nat)
    requires i <= j <= |s|
    ensures LongestRun(s[i..j], '`') <= LongestRun(s, '`')
  {
    hide LongestRun;
    RunsGrow(s[..i], s[i..j]);
    RunsGrow(s[..j], s[j..]);
    assert s == s[..j] + s[j..] && s[..j] == s[..i] + s[i..j];
  }

  /** Runs do not reach across another character. */
  lemma {:induction false} RunsApart(a: string, c: char, b: string)
    requires c != '`'
    ensures TailRun(a + [c] + b, '`') == TailRun(b, '`')
    ensures LongestRun(a + [c] + b, '`')
      == if LongestRun(a, '`') > LongestRun(b, '`') then LongestRun(a, '`') else LongestRun(b, '`')
    decreases |b|
  {
    var s := a + [c] + b;
    if b == [] {
      assert s[..|s| - 1] == a && s[|s| - 1] == c && TailRun(s, '`') == 0;
    } else {
      assert s[..|s| - 1] == a + [c] + b[..|b| - 1];
      RunsApart(a, c, b[..|b| - 1]);
    }
  }

  lemma AroundRuns(text: string, c: char)
    requires c != '`'
    ensures LongestRun([c] + text + [c], '`') == LongestRun(text, '`')
  {
    RunsApart([], c, text);
    RunsApart([c] + text, c, []);
    assert [] + [c] + text == [c] + text && [c] + text + [c] + [] == [c] + text + [c];
    assert LongestRun([], '`') == 0;
  }

  lemma RunsBelow(s: string, j: nat)
    requires j <= |s|
    ensures Run(s[j..], '`') <= LongestRun(s, '`')
  {
    hide LongestRun, Run;
    StretchRuns(s, '`', 0, s, j);
  }

  /** After an opening run, the first run of the same length is the closing one, where all between are shorter. */
  lemma TicksAfter(n: nat, inner: string, rest: string)
    requires n > 0 && inner != [] && inner[|inner| - 1] != '`' && LongestRun(inner, '`') < n
    requires rest == [] || rest[0] != '`'
    ensures var f := Repeat('`', n); NextTicks(f + inner + f + rest, n, n) == Some(n + |inner|)
  {
    hide Run, LongestRun, NextTicks;
    var f := Repeat('`', n);
    var s := f + inner + f + rest;
    var at := n + |inner|;
    assert s[at..] == f + rest;
    RunOfRepeat('`', n, rest);
    forall j | n <= j < at ensures Run(s[j..], '`') < n {
      assert s[j..][at - 1 - j] == s[at - 1] == inner[|inner| - 1];
      RunStops(s[j..], '`', at - 1 - j);
      assert s[j..][..at - 1 - j] == inner[j - n..][..at - 1 - j];
      RunStops(inner[j - n..], '`', at - 1 - j);
      RunsBelow(inner, j - n);
    }
    TicksFound(s, n, at, n);
  }

  lemma {:induction false} TicksMissed(s: string, i: nat, length: nat)
    requires i <= |s| && length > 0 && forall j :: i <= j <= |s| ==> Run(s[j..], '`') < length
    ensures NextTicks(s, i, length) == None
    decreases |s| - i
  {
    hide Run;
    var n := Run(s[i..], '`');
    RunBounds(s[i..], '`');
    if i + n < |s| { TicksMissed(s, i + n + 1, length); }
  }

  /** An opening run followed by shorter runs only is never closed. */
  lemma NoTicksAfter(n: nat, inner: string)
    requires n > 0 && LongestRun(inner, '`') < n
    ensures NextTicks(Repeat('`', n) + inner, n, n) == None
  {
    hide Run, LongestRun, NextTicks;
    var s := Repeat('`', n) + inner;
    forall j | n <= j <= |s| ensures Run(s[j..], '`') < n {
      assert s[j..] == inner[j - n..];
      RunsBelow(inner, j - n);
    }
    TicksMissed(s, n, n);
  }

  /** The printed span's own last run is found first. */
  lemma OwnTicks(text: string, rest: string)
    requires rest == [] || rest[0] != '`'
    ensures var n := |FenceFor(text, 1)|;
      n > 0 && NextTicks(PrintSpan(text) + rest, n, n) == Some(n + |text| + 2)
  {
    hide LongestRun, NextTicks;
    var f := FenceFor(text, 1);
    AroundRuns(text, ' ');
    TicksAfter(|f|, " " + text + " ", rest);
    assert PrintSpan(text) + rest == f + (" " + text + " ") + f + rest;
  }

  lemma {:induction false} SpaceAhead(t: string)
    ensures SpacesForBreaks(" " + t) == " " + SpacesForBreaks(t)
  {
    var s := " " + t;
    if t == [] {
      assert s[..0] == [] && s == " ";
    } else {
      SpaceAhead(t[..|t| - 1]);
      assert s[..|s| - 1] == " " + t[..|t| - 1] && s[|s| - 1] == t[|t| - 1];
      assert s[|s| - 2] == if |t| > 1 then t[|t| - 2] else ' ';
      assert EndsLine(s) == EndsLine(t);
    }
  }

  lemma InnerText(text: string)
    ensures SpanText(" " + text + " ") == SpacesForBreaks(text) <==> !Blank(SpacesForBreaks(text))
  {
    var inner := " " + text + " ";
    assert inner[..|inner| - 1] == " " + text && !EndsLine(inner);
    assert SpacesForBreaks(inner) == SpacesForBreaks(" " + text) + [' '];
    SpaceAhead(text);
    hide SpacesForBreaks, Blank;
    StripsOne(SpacesForBreaks(text));
  }

  lemma StripsOne(t: string)
    ensures var s := " " + t + " "; s[1..|s| - 1] == t && (Blank(s) <==> Blank(t))
  {
    var s := " " + t + " ";
    assert forall i :: 0 <= i < |t| ==> t[i] == s[i + 1];
    if !Blank(t) {
      var c :| c in t && c != ' ';
      assert c in s;
    }
  }

  /** The span is read as ending where it does, if and only if no backtick follows it directly: two code elements
      printed side by side run together. */
  lemma SpanEndsItselfExactlyWhen(text: string, rest: string)
    ensures (ReadSpan(PrintSpan(text) + rest).Some? && ReadSpan(PrintSpan(text) + rest).value.1 == rest)
      <==> (rest == [] || rest[0] != '`')
  {
    hide Run, LongestRun, Blank, NextTicks, SpanText, FenceFor, SpacesForBreaks;
    if rest == [] || rest[0] != '`' {
      PrintedSpanIsRecovered(text, rest);
    } else {
      var f := FenceFor(text, 1);
      var n := |f|;
      var inner := " " + text + " ";
      var s := PrintSpan(text) + rest;
      assert s == f + (inner + f + rest);
      FenceLength(text, 1, inner + f + rest);
      var close := NextTicks(s, n, n);
      if close.Some? && |s[close.value + n..]| == |rest| {
        assert s[close.value..] == f + rest;
        FenceRunsOn(text, rest);
      }
    }
  }

  lemma FenceRunsOn(text: string, rest: string)
    requires rest != [] && rest[0] == '`'
    ensures Run(FenceFor(text, 1) + rest, '`') > |FenceFor(text, 1)|
  {
    hide LongestRun;
    var f := FenceFor(text, 1);
    var all := f + rest;
    RunBounds(all, '`');
    assert forall i :: 0 <= i <= |f| ==> all[i] == '`';
  }
}
