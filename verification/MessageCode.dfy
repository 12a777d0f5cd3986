/** Code in messages and saved documents, as the client's own Markdown reader finds it: blocks between any three
    backticks, spans between runs of the same length. */
module MessageCode {
  import opened Options
  import opened TextLines
  import opened DocumentPrinter
  import opened MarkdownCode
  import opened CopiedMarkdown

  // ---- Blocks ----

  /** What a message divides into: words, to be read line by line, and code. */
  datatype Segment = Words(text: string) | Code(lang: Option<string>, text: string)

  predicate TicksAt(s: string, i: int) {
    0 <= i && i + 2 < |s| && s[i] == '`' && s[i + 1] == '`' && s[i + 2] == '`'
  }

  /** Where the first three backticks in a row begin. */
  function FirstTicks(s: string): (r: Option<nat>)
    ensures r.Some? ==> TicksAt(s, r.value) && forall j :: 0 <= j < r.value ==> !TicksAt(s, j)
    ensures r.None? ==> forall j :: 0 <= j < |s| ==> !TicksAt(s, j)
  {
    if |s| < 3 then None
    else if TicksAt(s, 0) then Some(0)
    else
      var later := FirstTicks(s[1..]);
      assert forall j :: 0 < j < |s| ==> TicksAt(s, j) == TicksAt(s[1..], j - 1);
      if later.Some? then Some(later.value + 1) else None
  }

  predicate IsLangChar(c: char) {
    'A' <= c <= 'Z' || 'a' <= c <= 'z' || '0' <= c <= '9' || c in {'_', '+', '#', '.', '-'}
  }

  function LangLength(s: string): (n: nat)
    ensures n <= |s|
  {
    if s != [] && IsLangChar(s[0]) then 1 + LangLength(s[1..]) else 0
  }

  function WithoutLastFeed(s: string): string { if s != [] && s[|s| - 1] == '\n' then s[..|s| - 1] else s }

  function WithoutFirstFeed(s: string): string { if s != [] && s[0] == '\n' then s[1..] else s }

  /** What stands between two fences: a language on the first line, if it looks like one, and the code. */
  function CodeBlock(inner: string): Segment {
    var n := LangLength(inner);
    if 1 <= n <= 32 && n < |inner| && inner[n] == '\n'
    then Code(Some(inner[..n]), WithoutLastFeed(inner[n + 1..]))
    else Code(None, WithoutLastFeed(WithoutFirstFeed(inner)))
  }

  function WordsOf(s: string): seq<Segment> { if s == [] then [] else [Words(s)] }

  /** The words before the first block, the block, and what follows it, if there is a block. */
  function FirstBlock(src: string): Option<(string, string, string)> {
    var open := FirstTicks(src);
    if open.None? then None
    else
      var close := FirstTicks(src[open.value + 3..]);
      if close.None? then None
      else
        var after := src[open.value + 3..];
        Some((src[..open.value], after[..close.value], after[close.value + 3..]))
  }

  function Segments(src: string): seq<Segment>
    decreases |src|
  {
    var first := FirstBlock(src);
    if first.None? then WordsOf(src)
    else
      var (before, inner, after) := first.value;
      WordsOf(WithoutLastFeed(before)) + [CodeBlock(inner)] + Segments(WithoutFirstFeed(after))
  }

  /** One round of the reading, by positions. */
  lemma SegmentsAt(src: string, i: nat, open: nat, close: nat)
    requires i <= |src| && FirstTicks(src[i..]) == Some(open) && FirstTicks(src[i..][open + 3..]) == Some(close)
    ensures var inner := i + open + 3; var next := inner + close + 3;
      && next <= |src|
      && Segments(src[i..]) == WordsOf(WithoutLastFeed(src[i..i + open])) + [CodeBlock(src[inner..inner + close])]
                               + Segments(WithoutFirstFeed(src[next..]))
  {
    hide FirstTicks, CodeBlock, WordsOf, WithoutFirstFeed, WithoutLastFeed;
    var ahead := src[i..];
    var inner := i + open + 3;
    assert ahead[open + 3..] == src[inner..] && ahead[..open] == src[i..i + open];
    assert src[inner..][..close] == src[inner..inner + close] && src[inner..][close + 3..] == src[inner + close + 3..];
  }

  lemma FeedSkipped(src: string, i: nat)
    requires i <= |src|
    ensures WithoutFirstFeed(src[i..]) == if i < |src| && src[i] == '\n' then src[i + 1..] else src[i..]
  {}

  lemma SegmentsEnd(src: string)
    requires FirstTicks(src).Some? ==> FirstTicks(src[FirstTicks(src).value + 3..]).None?
    ensures Segments(src) == WordsOf(src)
  {}

  /** The next block from `i` on, if there is one: the words before it, what stands between its fences, and where to go
      on. */
  method NextBlock(src: string, i: nat) returns (found: bool, before: string, inner: string, next: nat)
    requires i <= |src|
    ensures found ==> i < next <= |src|
    ensures found ==>
      Segments(src[i..]) == WordsOf(WithoutLastFeed(before)) + [CodeBlock(inner)] + Segments(src[next..])
    ensures !found ==> Segments(src[i..]) == WordsOf(src[i..])
  {
    hide CodeBlock, Segments, WordsOf, WithoutLastFeed, WithoutFirstFeed, TicksAt;
    found, before, inner, next := false, "", "", i;
    var open := FirstTicks(src[i..]);
    if open.Some? {
      TicksFit(src[i..], open.value);
      var start := i + open.value + 3;
      assert src[i..][open.value + 3..] == src[start..];
      var close := FirstTicks(src[start..]);
      if close.Some? {
        SegmentsAt(src, i, open.value, close.value);
        found, before, inner := true, src[i..i + open.value], src[start..start + close.value];
        next := start + close.value + 3;
        FeedSkipped(src, next);
        if next < |src| && src[next] == '\n' {
          next := next + 1;
        }
        return;
      }
    }
    SegmentsEnd(src[i..]);
  }

  lemma TicksFit(s: string, i: nat)
    requires TicksAt(s, i)
    ensures i + 3 <= |s|
  {}

  /** The reading loop. */
  method ParseMarkdown(src: string) returns (segments: seq<Segment>)
    ensures segments == Segments(src)
  {
    hide CodeBlock, Segments, WordsOf, WithoutLastFeed;
    segments := [];
    var i := 0;
    assert src[0..] == src;
    while true
      invariant 0 <= i <= |src|
      invariant segments + Segments(src[i..]) == Segments(src)
      decreases |src| - i
    {
      var found, before, inner, next := NextBlock(src, i);
      if !found {
        break;
      }
      segments := segments + (WordsOf(WithoutLastFeed(before)) + [CodeBlock(inner)]);
      i := next;
    }
    segments := segments + WordsOf(src[i..]);
  }

  // ---- Where three backticks stand ----

  lemma {:induction false} LongestIsReached(s: string) returns (i: nat)
    ensures i + LongestRun(s, '`') <= |s| && forall k :: i <= k < i + LongestRun(s, '`') ==> s[k] == '`'
  {
    if s == [] {
      i := 0;
    } else {
      var init := s[..|s| - 1];
      i := LongestIsReached(init);
      if TailRun(s, '`') > LongestRun(init, '`') {
        TailRunBounds(s);
        i := |s| - TailRun(s, '`');
      }
    }
  }

  lemma {:induction false} TailRunBounds(s: string)
    ensures TailRun(s, '`') <= |s| && forall k :: |s| - TailRun(s, '`') <= k < |s| ==> s[k] == '`'
  {
    if s != [] && s[|s| - 1] == '`' { TailRunBounds(s[..|s| - 1]); }
  }

  lemma TicksExactlyWhen(s: string)
    ensures LongestRun(s, '`') >= 3 <==> exists i :: 0 <= i < |s| && TicksAt(s, i)
  {
    hide LongestRun;
    if LongestRun(s, '`') >= 3 {
      var i := LongestIsReached(s);
      assert TicksAt(s, i);
    }
    if i :| 0 <= i < |s| && TicksAt(s, i) {
      RunWithin(s, '`', i, i + 3);
    }
  }

  /** Three backticks after a text without any that does not end in one are the first. */
  lemma TicksFirst(x: string, rest: string)
    requires LongestRun(x, '`') < 3 && (x == [] || x[|x| - 1] != '`') && TicksAt(rest, 0)
    ensures FirstTicks(x + rest) == Some(|x|)
  {
    hide LongestRun, FirstTicks;
    var s := x + rest;
    TicksExactlyWhen(x);
    assert TicksAt(s, |x|);
    forall j | 0 <= j < |x| ensures !TicksAt(s, j) {
      if j + 2 < |x| {
        assert !TicksAt(x, j);
      }
    }
  }

  // ---- A printed block ----

  const TICKS := "```"

  /** What the reader finds first: a block between two fences, with no three backticks before or inside it. */
  lemma BlockBetween(before: string, inner: string, after: string)
    requires LongestRun(before, '`') < 3 && (before == [] || before[|before| - 1] != '`')
    requires LongestRun(inner, '`') < 3 && (inner == [] || inner[|inner| - 1] != '`')
    ensures FirstBlock(before + (TICKS + (inner + (TICKS + after)))) == Some((before, inner, after))
  {
    hide LongestRun, FirstTicks, TicksAt, FirstBlock;
    var rest := inner + (TICKS + after);
    TicksLead(rest);
    TicksFirst(before, TICKS + rest);
    TicksLead(after);
    TicksFirst(inner, TICKS + after);
    FirstBlockIs(before, rest, inner, after);
  }

  lemma FirstBlockIs(before: string, rest: string, inner: string, after: string)
    requires rest == inner + (TICKS + after)
    requires FirstTicks(before + (TICKS + rest)) == Some(|before|) && FirstTicks(rest) == Some(|inner|)
    ensures FirstBlock(before + (TICKS + rest)) == Some((before, inner, after))
  {
    hide FirstTicks;
    var src := before + (TICKS + rest);
    assert src[..|before|] == before && src[|before| + 3..] == rest;
    assert rest[..|inner|] == inner && rest[|inner| + 3..] == after;
  }

  lemma TicksLead(rest: string)
    ensures TicksAt(TICKS + rest, 0)
  {}

  /** What the reader finds first where a printed block stands after words without three backticks. */
  lemma BlockFound(before: string, text: string, after: string)
    requires LongestRun(before, '`') < 3 && (before == [] || before[|before| - 1] != '`')
    requires LongestRun(text, '`') < 3
    ensures FirstBlock(before + BlockText(text) + after) == Some((before, "\n" + text + "\n", after))
  {
    hide LongestRun, FirstBlock;
    var framed := "\n" + text + "\n";
    AroundRuns(text, '\n');
    assert ['\n'] + text + ['\n'] == framed;
    ShortFence(text);
    BlockBetween(before, framed, after);
    assert before + BlockText(text) + after == before + (TICKS + (framed + (TICKS + after)));
  }

  lemma ShortFence(text: string)
    requires LongestRun(text, '`') < 3
    ensures FenceFor(text, 3) == TICKS
  {
    hide LongestRun;
  }

  lemma FramedCode(text: string)
    ensures CodeBlock("\n" + text + "\n") == Code(None, text)
  {
    var inner := "\n" + text + "\n";
    assert LangLength(inner) == 0;
    assert inner[1..] == text + "\n" && (text + "\n")[..|text|] == text;
  }

  /** Code found by this reader never holds three backticks in a row. */
  lemma CodeHasNoTicks(src: string)
    requires FirstBlock(src).Some?
    ensures LongestRun(CodeBlock(FirstBlock(src).value.1).text, '`') < 3
  {
    hide LongestRun, FirstTicks;
    var after := src[FirstTicks(src).value + 3..];
    var close := FirstTicks(after).value;
    var inner := after[..close];
    forall i | 0 <= i < |inner| ensures !TicksAt(inner, i) {
      assert !TicksAt(after, i);
    }
    TicksExactlyWhen(inner);
    CodeWithin(inner);
  }

  lemma CodeWithin(inner: string)
    ensures LongestRun(CodeBlock(inner).text, '`') <= LongestRun(inner, '`')
  {
    hide LongestRun;
    var n := LangLength(inner);
    var from := if 1 <= n <= 32 && n < |inner| && inner[n] == '\n' then n + 1
                else if inner != [] && inner[0] == '\n' then 1 else 0;
    var tail := inner[from..];
    var to := if tail != [] && tail[|tail| - 1] == '\n' then |inner| - 1 else |inner|;
    assert inner[from..|inner|] == tail;
    assert from <= to && WithoutLastFeed(tail) == inner[from..to];
    assert CodeBlock(inner).text == WithoutLastFeed(tail);
    StretchLongest(inner, from, to);
  }

  /** This reader takes three backticks for a fence wherever they stand and however many follow: it gives a printed
      block back (no language, exactly the text, and the words around it as they are) if and only if the text holds no
      three backticks in a row. */
  lemma MessageBlockExactlyWhen(before: string, text: string, after: string)
    requires LongestRun(before, '`') < 3 && (before == [] || before[|before| - 1] != '`')
    ensures Segments(before + BlockText(text) + after)
         == WordsOf(WithoutLastFeed(before)) + [Code(None, text)] + Segments(WithoutFirstFeed(after))
      <==> LongestRun(text, '`') < 3
  {
    hide LongestRun, FirstTicks, BlockText, CodeBlock, FirstBlock, Segments;
    var src := before + BlockText(text) + after;
    var words := WordsOf(WithoutLastFeed(before));
    if LongestRun(text, '`') < 3 {
      BlockFound(before, text, after);
      FramedCode(text);
      FirstSegments(src);
    } else {
      BeforeBlock(before, text, after);
      if Segments(src) == words + [Code(None, text)] + Segments(WithoutFirstFeed(after)) {
        FoundCode(src, before, text, Segments(WithoutFirstFeed(after)));
      }
    }
  }

  lemma FirstSegments(src: string)
    requires FirstBlock(src).Some?
    ensures var (before, inner, after) := FirstBlock(src).value;
      Segments(src) == WordsOf(WithoutLastFeed(before)) + [CodeBlock(inner)] + Segments(WithoutFirstFeed(after))
  {}

  /** Where the first segment after those words is code, it holds no three backticks. */
  lemma FoundCode(src: string, before: string, text: string, more: seq<Segment>)
    requires FirstBlock(src).Some? ==> FirstBlock(src).value.0 == before
    requires Segments(src) == WordsOf(WithoutLastFeed(before)) + [Code(None, text)] + more
    ensures LongestRun(text, '`') < 3
  {
    hide LongestRun, CodeBlock, FirstBlock;
    var words := WordsOf(WithoutLastFeed(before));
    assert Segments(src)[|words|] == Code(None, text);
    if FirstBlock(src).Some? {
      CodeHasNoTicks(src);
      FirstSegments(src);
    }
  }

  lemma BeforeBlock(before: string, text: string, after: string)
    requires LongestRun(before, '`') < 3 && (before == [] || before[|before| - 1] != '`')
    ensures var first := FirstBlock(before + BlockText(text) + after); first.Some? ==> first.value.0 == before
  {
    hide LongestRun, FirstTicks;
    var rest := BlockText(text) + after;
    FenceLeads(text, after);
    TicksFirst(before, rest);
    assert before + BlockText(text) + after == before + rest && (before + rest)[..|before|] == before;
  }

  lemma FenceLeads(text: string, after: string)
    ensures TicksAt(BlockText(text) + after, 0)
  {
    hide LongestRun;
  }

  predicate LangText(s: string) {
    forall i :: 0 <= i < |s| ==>
      'A' <= s[i] <= 'Z' || 'a' <= s[i] <= 'z' || '0' <= s[i] <= '9' || s[i] in {'_', '+', '#', '.', '-'}
  }

  lemma {:induction false} LangLengthIs(s: string, rest: string)
    requires LangText(s) && (rest == [] || !IsLangChar(rest[0]))
    ensures LangLength(s + rest) == |s|
    decreases |s|
  {
    if s == [] {
      assert s + rest == rest;
    } else {
      assert (s + rest)[1..] == s[1..] + rest;
      LangLengthIs(s[1..], rest);
    }
  }

  lemma {:induction false} LangLengthReads(s: string)
    ensures LangText(s[..LangLength(s)])
  {
    if s != [] && IsLangChar(s[0]) {
      LangLengthReads(s[1..]);
      var n := LangLength(s);
      assert forall i :: 1 <= i < n ==> s[..n][i] == s[1..][..n - 1][i - 1];
    }
  }

  /** The first line between the fences is a language exactly if it is 1 to 32 letters, digits or a few marks; then it
      is taken out, and otherwise it is code. */
  lemma LangExactlyWhen(first: string, code: string)
    requires '\n' !in first
    ensures CodeBlock(first + "\n" + code)
      == if 1 <= |first| <= 32 && LangText(first) then Code(Some(first), WithoutLastFeed(code))
         else Code(None, WithoutLastFeed(if first == "" then code else first + "\n" + code))
  {
    hide LangText;
    var inner := first + "\n" + code;
    assert first + ("\n" + code) == inner && inner[..|first|] == first && inner[|first| + 1..] == code;
    if LangText(first) {
      LangLengthIs(first, "\n" + code);
    } else {
      var n := LangLength(inner);
      LangLengthReads(inner);
      LangStops(first, code);
    }
    if first == "" { assert inner[1..] == code; }
  }

  /** A first line that is no language is not read as one up to its end. */
  lemma LangStops(first: string, code: string)
    requires !LangText(first) && '\n' !in first
    ensures var inner := first + "\n" + code; var n := LangLength(inner);
      n < |first| && inner[n] != '\n'
  {
    var inner := first + "\n" + code;
    var n := LangLength(inner);
    LangLengthReads(inner);
    assert inner[..|first|] == first;
    if n >= |first| {
      LangPrefix(inner, n, |first|);
    } else {
      assert inner[n] == first[n] && first[n] in first;
    }
  }

  lemma LangPrefix(s: string, n: nat, m: nat)
    requires m <= n <= |s| && LangText(s[..n])
    ensures LangText(s[..m])
  {
    assert forall i :: 0 <= i < m ==> s[..m][i] == s[..n][i];
  }

  /** And the copied block, if and only if the text also loses no line feeds on the way. */
  lemma CopiedMessageBlockExactlyWhen(text: string)
    ensures Segments(Copied(PrintBlock(text))) == [Code(None, text)]
      <==> LongestRun(text, '`') < 3 && !HasThree("\n" + text + "\n")
  {
    hide LongestRun, BlockText, Copied, PrintBlock, Kept, Segments, FirstBlock;
    CopiedBlock(text);
    KeptFrame(text);
    var kept := Kept(text);
    NoSegments();
    MessageBlockExactlyWhen([], kept, []);
    BeforeBlock([], kept, []);
    assert [] + BlockText(kept) + [] == BlockText(kept);
    assert [] + [Code(None, kept)] + [] == [Code(None, kept)];
    if Segments(BlockText(kept)) == [Code(None, text)] {
      assert [] + [Code(None, text)] + [] == [Code(None, text)];
      FoundCode(BlockText(kept), [], text, []);
    }
  }

  lemma NoSegments()
    ensures Segments([]) == [] && WordsOf(WithoutLastFeed([])) == [] && WithoutFirstFeed([]) == []
    ensures LongestRun([], '`') == 0
  {}

  // ---- Spans ----

  /** The content of a span: one space comes off each end when both have one and there is something else than white
      space. Line breaks stay. */
  function ChatText(content: string): string {
    if |content| > 2 && content[0] == ' ' && content[|content| - 1] == ' ' && Trim(content) != []
    then content[1..|content| - 1] else content
  }

  /** One space comes off each end exactly if the content has one at both and, between them, something but white space.
      */
  lemma ChatTextExactlyWhen(content: string, inner: string)
    ensures content == " " + inner + " " && Trim(inner) != [] ==> ChatText(content) == inner
    ensures ChatText(content) != content ==> content == " " + ChatText(content) + " " && Trim(ChatText(content)) != []
  {
    hide Trim;
    SpacedTrim(inner);
    if content == " " + inner + " " {
      if inner == [] { TrimmedAwayExactlyWhen(inner); }
      assert content[1..|content| - 1] == inner;
    }
    if ChatText(content) != content {
      var kept := content[1..|content| - 1];
      assert content == " " + kept + " ";
      SpacedTrim(kept);
    }
  }

  datatype Found = CodeSpan(text: string, end: nat) | Literal(end: nat)

  /** The span that opens at `i`, or the run of backticks there as it is written. */
  function SpanAt(src: string, i: nat): Found
    requires i < |src| && src[i] == '`'
  {
    var run := Run(src[i..], '`');
    RunBounds(src[i..], '`');
    var close := NextTicks(src, i + run, run);
    if close.Some? then CodeSpan(ChatText(src[i + run..close.value]), close.value + run) else Literal(i + run)
  }

  function RunEnd(src: string, j: nat): (k: nat)
    requires j <= |src|
    ensures j <= k <= |src|
  {
    RunBounds(src[j..], '`');
    j + Run(src[j..], '`')
  }

  lemma RunEnds(src: string, j: nat)
    requires j <= |src|
    ensures RunEnd(src, j) < |src| ==> src[RunEnd(src, j)] != '`'
    ensures forall i :: j <= i < RunEnd(src, j) ==> src[i] == '`' && RunEnd(src, i) == RunEnd(src, j)
  {
    hide Run;
    RunBounds(src[j..], '`');
    var k := RunEnd(src, j);
    forall i | j <= i < k ensures src[i] == '`' && RunEnd(src, i) == k {
      assert src[j..][i - j] == src[i];
      RunFrom(src, j, i);
    }
  }

  lemma {:induction false} RunFrom(src: string, j: nat, i: nat)
    requires j <= i <= |src| && forall k :: j <= k < i ==> src[k] == '`'
    ensures RunEnd(src, i) == RunEnd(src, j)
    decreases i - j
  {
    if j < i {
      assert src[j..][1..] == src[j + 1..];
      RunFrom(src, j + 1, i);
    }
  }

  /** Where a run of at least `run` backticks is next met, as a search for that many finds it. */
  function IndexOf(src: string, j: nat, run: nat): (r: Option<nat>)
    requires j <= |src|
    ensures r.Some? ==> j <= r.value <= |src| && RunEnd(src, r.value) >= r.value + run
    decreases |src| - j
  {
    if RunEnd(src, j) >= j + run then Some(j) else if j < |src| then IndexOf(src, j + 1, run) else None
  }

  /** A run too short is passed over. */
  lemma {:induction false} ShortRunSkipped(src: string, j: nat, run: nat)
    requires j <= |src| && RunEnd(src, j) < j + run
    ensures IndexOf(src, j, run) == if RunEnd(src, j) < |src| then IndexOf(src, RunEnd(src, j) + 1, run) else None
    decreases |src| - j
  {
    hide RunEnd;
    RunEnds(src, j);
    if j < RunEnd(src, j) {
      if j + 1 < RunEnd(src, j) {
        ShortRunSkipped(src, j + 1, run);
      } else {
        LastOfRun(src, j + 1, run);
      }
    } else if j == |src| {
      LastOfRun(src, j, run);
    }
  }

  lemma LastOfRun(src: string, k: nat, run: nat)
    requires k <= |src| && run > 0 && (k < |src| ==> src[k] != '`')
    ensures IndexOf(src, k, run) == if k < |src| then IndexOf(src, k + 1, run) else None
  {
    assert Run(src[k..], '`') == 0;
  }

  lemma NextTicksStep(src: string, j: nat, run: nat)
    requires j <= |src| && run > 0
    ensures NextTicks(src, j, run)
      == if RunEnd(src, j) == j + run then Some(j)
         else if RunEnd(src, j) < |src| then NextTicks(src, RunEnd(src, j) + 1, run) else None
  {
    hide Run;
  }

  lemma NextTicksAtEnd(src: string, j: nat, run: nat)
    requires j <= |src| && run > 0 && (j < |src| ==> src[j] != '`')
    ensures NextTicks(src, j, run) == if j < |src| then NextTicks(src, j + 1, run) else None
  {
    assert Run(src[j..], '`') == 0;
  }

  /** One round of the search for a closing run: a longer run is skipped whole. */
  lemma {:induction false} SearchRound(src: string, j: nat, run: nat)
    requires j <= |src| && run > 0
    ensures var p := IndexOf(src, j, run);
      NextTicks(src, j, run)
      == if p.None? then None
         else if RunEnd(src, p.value) == p.value + run then p
         else NextTicks(src, RunEnd(src, p.value), run)
    decreases |src| - j
  {
    hide RunEnd, NextTicks;
    var end := RunEnd(src, j);
    NextTicksStep(src, j, run);
    RunEnds(src, j);
    if end < j + run {
      ShortRunSkipped(src, j, run);
      if end < |src| { SearchRound(src, end + 1, run); }
    } else if end > j + run {
      NextTicksAtEnd(src, end, run);
    }
  }

  method CountTicks(src: string, i: nat) returns (end: nat)
    requires i <= |src|
    ensures end == RunEnd(src, i)
  {
    hide RunEnd;
    RunEnds(src, i);
    end := i;
    while end < |src| && src[end] == '`'
      invariant i <= end <= RunEnd(src, i)
    {
      end := end + 1;
    }
  }

  /** The search for a closing run; a longer run is no match and is left behind whole. */
  method FindClose(src: string, start: nat, run: nat) returns (close: Option<nat>)
    requires start <= |src| && run > 0
    ensures close == NextTicks(src, start, run)
  {
    hide NextTicks, IndexOf, RunEnd;
    var j := start;
    while true
      invariant start <= j <= |src|
      invariant NextTicks(src, start, run) == NextTicks(src, j, run)
      decreases |src| - j
    {
      var p := IndexOf(src, j, run);
      SearchRound(src, j, run);
      if p.None? {
        return None;
      }
      RunEnds(src, p.value);
      if !(p.value + run < |src| && src[p.value + run] == '`') {
        return p;
      }
      j := CountTicks(src, p.value);
    }
  }

  /** The scan for a span at `i`; `dead` holds the run lengths that earlier scans found no partner for. */
  method InlineCode(src: string, i: nat, dead: set<nat>) returns (found: Found, nowDead: set<nat>)
    requires i < |src| && src[i] == '`'
    requires forall run :: run in dead && run > 0 ==> NextTicks(src, RunEnd(src, i), run).None?
    ensures found == SpanAt(src, i)
    ensures forall run :: run in nowDead && run > 0 ==> NextTicks(src, RunEnd(src, i), run).None?
  {
    hide NextTicks, ChatText;
    var start := CountTicks(src, i);
    OpeningRun(src, i);
    var run := start - i;
    nowDead := dead;
    if run !in dead {
      var close := FindClose(src, start, run);
      if close.Some? {
        return CodeSpan(ChatText(src[start..close.value]), close.value + run), nowDead;
      }
      nowDead := nowDead + {run};
    }
    return Literal(start), nowDead;
  }

  /** The memory stays right for every later scan: where no partner was found, none is found further on. */
  lemma {:induction false} DeadStays(src: string, start: nat, later: nat, run: nat)
    requires start <= later <= |src| && run > 0 && (later < |src| ==> src[later] != '`')
    requires NextTicks(src, start, run).None?
    ensures NextTicks(src, later, run).None?
    decreases later - start
  {
    hide NextTicks, RunEnd;
    NextTicksStep(src, start, run);
    RunEnds(src, start);
    NextTicksAtEnd(src, later, run);
    if RunEnd(src, start) < later {
      DeadStays(src, RunEnd(src, start) + 1, later, run);
    }
  }

  lemma OpeningRun(src: string, i: nat)
    requires i < |src| && src[i] == '`'
    ensures i < RunEnd(src, i) && RunEnd(src, i) == i + Run(src[i..], '`')
  {
    assert src[i..][0] == '`';
  }

  lemma {:induction false} TrimmedAwayExactlyWhen(s: string)
    ensures Trim(s) == [] <==> forall c :: c in s ==> IsSpace(c)
  {
    StartTrimmedAway(s);
    TrimTrims(s);
    EndTrimmedAway(TrimStart(s));
    TrimStartTrims(s);
    if TrimStart(s) != [] { assert TrimStart(s)[0] in TrimStart(s); }
  }

  lemma {:induction false} StartTrimmedAway(s: string)
    ensures TrimStart(s) == [] <==> forall c :: c in s ==> IsSpace(c)
  {
    if s != [] {
      StartTrimmedAway(s[1..]);
      assert forall c :: c in s <==> c == s[0] || c in s[1..];
    }
  }

  lemma {:induction false} EndTrimmedAway(s: string)
    ensures TrimEnd(s) == [] ==> forall c :: c in s ==> IsSpace(c)
  {
    if s != [] && IsSpace(s[|s| - 1]) {
      EndTrimmedAway(s[..|s| - 1]);
      assert forall c :: c in s <==> c == s[|s| - 1] || c in s[..|s| - 1];
    }
  }

  lemma SpacedTrim(text: string)
    ensures Trim(" " + text + " ") == [] <==> Trim(text) == []
  {
    hide Trim;
    var spaced := " " + text + " ";
    TrimmedAwayExactlyWhen(text);
    TrimmedAwayExactlyWhen(spaced);
    assert IsSpace(' ');
    assert forall c :: c in spaced <==> c == ' ' || c in text;
  }

  lemma ChatTextOf(text: string)
    ensures ChatText(" " + text + " ") == text <==> Trim(text) != []
  {
    hide Trim;
    var inner := " " + text + " ";
    SpacedTrim(text);
    assert inner[1..|inner| - 1] == text;
    if text == [] { TrimmedAwayExactlyWhen(text); }
  }

  /** Read from its opening backticks, a printed span comes back, line breaks and all, if and only if the text is more
      than white space and no backtick follows the span directly. */
  lemma MessageSpanExactlyWhen(text: string, rest: string)
    ensures var src := PrintSpan(text) + rest;
      && src[0] == '`'
      && (SpanAt(src, 0) == CodeSpan(text, |PrintSpan(text)|) <==> Trim(text) != [] && (rest == [] || rest[0] != '`'))
  {
    hide LongestRun, NextTicks, Run, FenceFor, Trim, ChatText;
    var f := FenceFor(text, 1);
    var n := |f|;
    var inner := " " + text + " ";
    var src := PrintSpan(text) + rest;
    assert src == f + (inner + f + rest) && src[0..] == src;
    FenceLength(text, 1, inner + f + rest);
    RunBounds(src, '`');
    ChatTextOf(text);
    var close := NextTicks(src, n, n);
    if rest == [] || rest[0] != '`' {
      OwnTicks(text, rest);
      assert src == f + inner + f + rest;
      Pieces(f, inner, f, rest);
      assert close == Some(n + |inner|) && src[n..close.value] == inner;
    } else if close == Some(n + |inner|) {
      assert src[close.value..] == f + rest;
      FenceRunsOn(text, rest);
    }
  }

  /** It is read as a span at all, and not as the fences of a block, if and only if the text holds no two backticks in a
      row. */
  lemma SpanStaysWordsExactlyWhen(text: string)
    ensures Segments(PrintSpan(text)) == [Words(PrintSpan(text))] <==> LongestRun(text, '`') < 2
  {
    hide LongestRun, FirstTicks, FenceFor;
    var src := PrintSpan(text);
    SpanRuns(text);
    if LongestRun(text, '`') < 2 {
      TicksExactlyWhen(src);
      NoTicksNoBlock(src);
    } else {
      SpanOpens(text);
      FirstSegments(src);
      assert Segments(src)[0].Code?;
    }
  }

  lemma NoTicksNoBlock(src: string)
    requires forall i :: 0 <= i < |src| ==> !TicksAt(src, i)
    ensures FirstBlock(src).None?
  {
    var open := FirstTicks(src);
  }

  lemma SpanRuns(text: string)
    ensures LongestRun(text, '`') < 2 ==> LongestRun(PrintSpan(text), '`') < 3
    ensures LongestRun(text, '`') >= 2 ==> |FenceFor(text, 1)| >= 3
  {
    hide LongestRun;
    var f := FenceFor(text, 1);
    if LongestRun(text, '`') < 2 {
      LengthBounds(f);
      RunsApart(f, ' ', text);
      RunsApart(f + " " + text, ' ', f);
      assert PrintSpan(text) == f + [' '] + text + [' '] + f && f + " " + text == f + [' '] + text;
    }
  }

  lemma LengthBounds(s: string)
    ensures LongestRun(s, '`') <= |s|
  {
    hide LongestRun;
    var i := LongestIsReached(s);
  }

  lemma SpanOpens(text: string)
    requires |FenceFor(text, 1)| >= 3
    ensures FirstBlock(PrintSpan(text)).Some? && FirstBlock(PrintSpan(text)).value.0 == []
  {
    hide LongestRun;
    var f, src := FenceFor(text, 1), PrintSpan(text);
    assert TicksAt(src, 0);
    var after := src[3..];
    var last := |after| - 3;
    assert |src| >= 2 * |f| && last >= 0;
    assert forall k :: last <= k < |after| ==> after[k] == src[k + 3] == f[k + 3 - (|src| - |f|)];
    assert TicksAt(after, last);
  }
}
