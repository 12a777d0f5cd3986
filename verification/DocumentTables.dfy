/** Which lines the saved-document reader takes for fences, rules, rows and tables, told from their characters. */
module DocumentTables {
  import opened Options
  import opened TextLines
  import opened DocumentReader
  import opened DocumentPrinter

  // ---- Rules ----

  /** Three or more dashes, with or without a colon at either end. */
  ghost predicate RuleForm(s: string) {
    exists left: bool, n: nat, right: bool :: n >= 3 && s == RuleText(left, n, right)
  }

  function RuleText(left: bool, n: nat, right: bool): string {
    (if left then ":" else "") + Repeat('-', n) + (if right then ":" else "")
  }

  lemma DashesAre(s: string)
    requires AllDashes(s)
    ensures s == Repeat('-', |s|)
  {}

  lemma BodyFramed(s: string) returns (left: bool, right: bool)
    ensures s == (if left then ":" else "") + RuleBody(s) + (if right then ":" else "")
  {
    left := s != [] && s[0] == ':';
    var t := if left then s[1..] else s;
    right := t != [] && t[|t| - 1] == ':';
  }

  /** A cell is a rule exactly when it has that form. */
  lemma RuleExactlyWhen(s: string)
    ensures IsRule(s) <==> RuleForm(s)
  {
    hide RuleBody;
    if IsRule(s) {
      var left, right := BodyFramed(s);
      DashesAre(RuleBody(s));
      assert s == RuleText(left, |RuleBody(s)|, right);
    }
    if RuleForm(s) {
      var left: bool, n: nat, right: bool :| n >= 3 && s == RuleText(left, n, right);
      RuleTextBody(left, n, right);
    }
  }

  lemma RuleTextBody(left: bool, n: nat, right: bool)
    requires n >= 3
    ensures RuleBody(RuleText(left, n, right)) == Repeat('-', n) && AllDashes(Repeat('-', n))
  {
    var s := RuleText(left, n, right);
    var dashes := Repeat('-', n);
    var t := if left then s[1..] else s;
    assert t == dashes + (if right then ":" else "");
    assert right ==> t[..|t| - 1] == dashes;
  }

  // ---- Fences ----

  predicate AllSpace(s: string) { forall i :: 0 <= i < |s| ==> IsSpace(s[i]) }

  /** White space, then exactly `n` of the mark, at least three, then anything else. */
  ghost predicate FenceLine(line: string, mark: char, n: nat) {
    && n >= 3 && mark in {'`', '~'}
    && exists i: nat :: FenceAt(line, mark, n, i)
  }

  predicate FenceAt(line: string, mark: char, n: nat, i: nat) {
    && i + n <= |line| && AllSpace(line[..i])
    && (forall k :: i <= k < i + n ==> line[k] == mark)
    && (i + n < |line| ==> line[i + n] != mark)
  }

  lemma {:induction false} TrimStartAt(s: string) returns (i: nat)
    ensures i <= |s| && TrimStart(s) == s[i..] && AllSpace(s[..i]) && (i < |s| ==> !IsSpace(s[i]))
  {
    if s != [] && IsSpace(s[0]) {
      var k := TrimStartAt(s[1..]);
      i := k + 1;
      assert forall j :: 0 < j < i ==> s[..i][j] == s[1..][..k][j - 1];
    } else {
      i := 0;
    }
  }

  lemma SpacesBefore(s: string, i: nat)
    requires i <= |s| && AllSpace(s[..i])
    ensures forall k :: 0 <= k < i ==> IsSpace(s[k])
  {
    forall k | 0 <= k < i ensures IsSpace(s[k]) { assert s[..i][k] == s[k]; }
  }

  lemma {:induction false} RunAt(s: string, c: char, n: nat)
    requires n <= |s| && (forall k :: 0 <= k < n ==> s[k] == c) && (n < |s| ==> s[n] != c)
    ensures Run(s, c) == n
  {
    if n > 0 {
      RunAt(s[1..], c, n - 1);
    }
  }

  lemma FenceRun(line: string, mark: char, n: nat)
    requires mark in {'`', '~'} && n >= 3
    ensures FenceLine(line, mark, n) <==> Run(TrimStart(line), mark) == n
  {
    hide Run, TrimStart;
    var at := TrimStartAt(line);
    var t := line[at..];
    RunBounds(t, mark);
    if Run(t, mark) == n {
      forall k | at <= k < at + n ensures line[k] == mark { assert t[k - at] == mark; }
      assert at + n < |line| ==> line[at + n] == t[n];
      assert FenceAt(line, mark, n, at);
    }
    if FenceLine(line, mark, n) {
      var i: nat :| FenceAt(line, mark, n, i);
      assert line[i] == mark && !IsSpace(mark);
      SpacesBefore(line, at);
      SpacesBefore(line, i);
      assert forall k :: 0 <= k < n ==> t[k] == line[at + k];
      RunAt(t, mark, n);
    }
  }

  /** The reader's marker is the fence the line's characters show. */
  lemma MarkerExactlyWhen(line: string, mark: char, n: nat)
    ensures Marker(line) == Some(Fence(mark, n)) <==> FenceLine(line, mark, n)
  {
    hide FenceLine, TrimStart;
    if n >= 3 && mark in {'`', '~'} { FenceRun(line, mark, n); }
    if n >= 3 && mark == '~' && Run(TrimStart(line), '~') == n {
      OneMark(TrimStart(line));
    }
    ShortFence(line, mark, n);
  }

  lemma ShortFence(line: string, mark: char, n: nat)
    ensures FenceLine(line, mark, n) ==> n >= 3 && mark in {'`', '~'}
  {}

  lemma OneMark(s: string)
    ensures Run(s, '~') > 0 ==> Run(s, '`') == 0
  {}

  /** A line closes a fence if it is itself a fence of the same mark, at least as long. */
  ghost predicate ClosingLine(line: string, open: Fence) {
    exists n: nat :: n >= open.length && FenceLine(line, open.mark, n)
  }

  /** How a line changes the fence in force: outside a fence, a fence line opens one; inside, exactly a closing line
      ends it. */
  lemma FenceExactlyWhen(fence: Option<Fence>, line: string)
    ensures fence.None? ==>
      forall mark, n :: NextFence(fence, line) == Some(Fence(mark, n)) <==> FenceLine(line, mark, n)
    ensures fence.Some? ==>
      NextFence(fence, line) == if ClosingLine(line, fence.value) then None else fence
  {
    hide FenceLine, Marker;
    forall mark, n ensures Marker(line) == Some(Fence(mark, n)) <==> FenceLine(line, mark, n) {
      MarkerExactlyWhen(line, mark, n);
    }
    if Marker(line).Some? {
      var m := Marker(line).value;
      assert m == Fence(m.mark, m.length) && FenceLine(line, m.mark, m.length);
      if fence.Some? && ClosingLine(line, fence.value) {
        var n: nat :| n >= fence.value.length && FenceLine(line, fence.value.mark, n);
        assert Marker(line) == Some(Fence(fence.value.mark, n));
      }
    }
  }

  /** From an opening line on, every line is text until the first that closes the fence; there, and only there, reading
      outside a fence begins again. */
  lemma {:induction false} FencedUntilClosed(open: Fence, body: seq<string>, rest: seq<string>)
    requires forall line :: line in body ==> !ClosingLine(line, open)
    ensures Blocks(body + rest, Some(open)) == AsLines(body) + Blocks(rest, Some(open))
    ensures rest != [] ==> (NextFence(Some(open), rest[0]).None? <==> ClosingLine(rest[0], open))
    decreases |body|
  {
    hide Blocks, NextFence, ClosingLine, StartsTable, Gather;
    if rest != [] { FenceExactlyWhen(Some(open), rest[0]); }
    if body == [] {
      assert body + rest == rest;
    } else {
      assert body[0] in body && forall x :: x in body[1..] ==> x in body;
      assert (body + rest)[0] == body[0] && (body + rest)[1..] == body[1..] + rest;
      FenceExactlyWhen(Some(open), body[0]);
      LineStep(body + rest, Some(open));
      FencedUntilClosed(open, body[1..], rest);
    }
  }

  // ---- Rows ----

  /** A line is a row exactly when it has a pipe. */
  lemma RowExactlyWhen(line: string)
    ensures IsRow(line) <==> '|' in line
  {
    if '|' in line {
      PipeStays(line);
    }
  }

  lemma PipeStays(line: string)
    requires '|' in line
    ensures Trim(line) != []
  {
    var at := TrimStartAt(line);
    var i :| 0 <= i < |line| && line[i] == '|';
    SpacesBefore(line, at);
    assert !IsSpace('|');
    assert TrimStart(line)[i - at] == '|';
    PipeStaysAtEnd(TrimStart(line));
  }

  lemma {:induction false} PipeStaysAtEnd(s: string)
    requires '|' in s
    ensures TrimEnd(s) != []
  {
    if IsSpace(s[|s| - 1]) {
      assert !IsSpace('|');
      PipeStaysAtEnd(s[..|s| - 1]);
    }
  }

  // ---- Cells ----

  function Trims(pieces: seq<string>): (r: seq<string>)
    ensures |r| == |pieces| && forall i :: 0 <= i < |r| ==> r[i] == Trim(pieces[i])
  {
    TrimAll(pieces)
  }

  predicate EndsInBackslash(s: string) { s != [] && s[|s| - 1] == '\\' }

  /** Pieces that pipes between them keep apart: no pipe in one but behind a backslash, and none but the last ending in
      a backslash. */
  ghost predicate Apart(pieces: seq<string>) {
    && pieces != []
    && (forall i :: 0 <= i < |pieces| ==> NoBarePipe(pieces[i]))
    && (forall i :: 0 <= i < |pieces| - 1 ==> !EndsInBackslash(pieces[i]))
  }

  /** A row laid out by hand: any white space around, an outer pipe at either end or none, any pieces between. */
  function Laid(lead: string, left: bool, pieces: seq<string>, right: bool, trail: string): string {
    lead + ((if left then "|" else "") + Join(pieces, "|") + (if right then "|" else "")) + trail
  }

  /** Without an outer pipe, the end piece must show where it ends: it is not blank, and not itself an end pipe. */
  ghost predicate LaysOut(lead: string, left: bool, pieces: seq<string>, right: bool, trail: string) {
    && AllSpace(lead) && AllSpace(trail) && Apart(pieces)
    && (!left ==> Trim(pieces[0]) != [])
    && (right ==> !EndsInBackslash(pieces[|pieces| - 1]))
    && (!right ==> var last := Trim(pieces[|pieces| - 1]); last != [] && last[|last| - 1] != '|')
  }

  lemma {:induction false} JoinEnds(pieces: seq<string>)
    requires pieces != [] && !EndsInBackslash(pieces[|pieces| - 1])
    ensures !EndsInBackslash(Join(pieces, "|"))
  {}

  lemma {:induction false} SplitPieces(pieces: seq<string>)
    requires Apart(pieces)
    ensures SplitPipes(Join(pieces, "|")) == pieces
  {
    hide SplitPipes, NoBarePipe;
    var init, last := pieces[..|pieces| - 1], pieces[|pieces| - 1];
    OneCell(last);
    if |pieces| > 1 {
      SplitPieces(init);
      JoinEnds(init);
      SplitAtBar(Join(init, "|"), last);
      assert init + [last] == pieces;
    }
  }

  lemma {:induction false} JoinFirst(pieces: seq<string>)
    requires |pieces| > 1
    ensures Join(pieces, "|") == pieces[0] + "|" + Join(pieces[1..], "|")
  {
    var init, last := pieces[..|pieces| - 1], pieces[|pieces| - 1];
    assert pieces[1..][..|pieces| - 2] == init[1..];
    if |pieces| > 2 {
      JoinFirst(init);
    } else {
      assert init == [pieces[0]] && pieces[1..] == [last];
    }
  }

  // ---- Trimming a laid-out row ----

  lemma {:induction false} SpaceTrimmed(lead: string, s: string)
    requires AllSpace(lead)
    ensures TrimStart(lead + s) == TrimStart(s)
    decreases |lead|
  {
    if lead == [] {
      assert lead + s == s;
    } else {
      assert (lead + s)[1..] == lead[1..] + s;
      assert forall i :: 0 <= i < |lead[1..]| ==> lead[1..][i] == lead[i + 1];
      SpaceTrimmed(lead[1..], s);
    }
  }

  lemma {:induction false} SpaceTrimmedAfter(s: string, trail: string)
    requires AllSpace(trail)
    ensures TrimEnd(s + trail) == TrimEnd(s)
    decreases |trail|
  {
    if trail == [] {
      assert s + trail == s;
    } else {
      assert (s + trail)[..|s + trail| - 1] == s + trail[..|trail| - 1];
      SpaceTrimmedAfter(s, trail[..|trail| - 1]);
    }
  }

  lemma {:induction false} StartOnly(a: string, b: string)
    requires TrimStart(a) != []
    ensures TrimStart(a + b) == TrimStart(a) + b
    decreases |a|
  {
    if IsSpace(a[0]) {
      assert (a + b)[1..] == a[1..] + b;
      StartOnly(a[1..], b);
    }
  }

  lemma {:induction false} EndOnly(a: string, b: string)
    requires TrimEnd(b) != []
    ensures TrimEnd(a + b) == a + TrimEnd(b)
    decreases |b|
  {
    if IsSpace(b[|b| - 1]) {
      assert (a + b)[..|a + b| - 1] == a + b[..|b| - 1];
      EndOnly(a, b[..|b| - 1]);
    } else {
      assert TrimEnd(b) == b;
    }
  }

  lemma TrimEnds(s: string)
    ensures Trim(TrimStart(s)) == Trim(s) && (Trim(s) != [] ==> TrimStart(s) != [] && TrimEnd(s) != [])
    ensures Trim(TrimEnd(s)) == Trim(s)
  {
    TrimStartTwice(s);
    var i := TrimStartAt(s);
    var lead, core := s[..i], s[i..];
    assert s == lead + core;
    if TrimEnd(core) != [] {
      EndOnly(lead, core);
      SpaceTrimmed(lead, TrimEnd(core));
      TrimEndTrims(core);
      assert !IsSpace(TrimEnd(core)[0]);
      TrimEndTwice(core);
    } else {
      SpaceOnly(lead, core);
    }
  }

  lemma {:induction false} TrimStartTwice(s: string)
    ensures TrimStart(TrimStart(s)) == TrimStart(s)
  {
    if s != [] && IsSpace(s[0]) { TrimStartTwice(s[1..]); }
  }

  lemma {:induction false} TrimEndTwice(s: string)
    ensures TrimEnd(TrimEnd(s)) == TrimEnd(s)
  {
    if s != [] && IsSpace(s[|s| - 1]) { TrimEndTwice(s[..|s| - 1]); }
  }

  lemma {:induction false} SpaceOnly(lead: string, core: string)
    requires AllSpace(lead) && TrimEnd(core) == []
    ensures Trim(TrimEnd(lead + core)) == [] == Trim(lead + core)
    ensures Trim(core) == []
  {
    AllTrimmed(core);
    assert AllSpace(lead + core);
    var all := lead + core;
    SpaceTrimmed(all, []);
    assert all + [] == all;
    SpaceTrimmedAfter([], all);
    assert [] + all == all;
    SpaceTrimmed(core, []);
    assert core + [] == core;
  }

  lemma {:induction false} AllTrimmed(s: string)
    requires TrimEnd(s) == []
    ensures AllSpace(s)
  {
    if s != [] {
      AllTrimmed(s[..|s| - 1]);
      assert forall i :: 0 <= i < |s| - 1 ==> s[i] == s[..|s| - 1][i];
    }
  }

  // ---- Reading a laid-out row ----

  lemma BareStart(s: string, i: nat)
    requires NoBarePipe(s) && i <= |s| && AllSpace(s[..i])
    ensures NoBarePipe(s[i..]) && (i < |s| ==> s[i] != '|')
  {
    SpacesBefore(s, i);
    assert !IsSpace('\\');
    assert i > 0 ==> IsSpace(s[i - 1]) && s[i - 1] != '\\';
    assert i < |s| ==> s[i] != '|';
    forall k | 0 <= k < |s[i..]| && s[i..][k] == '|' ensures k > 0 && s[i..][k - 1] == '\\' {
      assert s[i + k] == '|' && s[i..][0] == s[i];
    }
  }

  lemma {:induction false} TrimEndAt(s: string) returns (i: nat)
    ensures i <= |s| && TrimEnd(s) == s[..i]
  {
    if s != [] && IsSpace(s[|s| - 1]) {
      i := TrimEndAt(s[..|s| - 1]);
    } else {
      i := |s|;
    }
  }

  lemma BareEnd(s: string)
    requires NoBarePipe(s)
    ensures NoBarePipe(TrimEnd(s))
  {
    hide TrimEnd;
    var i := TrimEndAt(s);
  }

  /** The pieces as they stand once the ends of the line have been trimmed. */
  function FirstTrimmed(left: bool, pieces: seq<string>): (r: seq<string>)
    requires pieces != []
    ensures |r| == |pieces|
  {
    if left then pieces else [TrimStart(pieces[0])] + pieces[1..]
  }

  function LastTrimmed(right: bool, pieces: seq<string>): (r: seq<string>)
    requires pieces != []
    ensures |r| == |pieces|
  {
    if right then pieces else pieces[..|pieces| - 1] + [TrimEnd(pieces[|pieces| - 1])]
  }

  function Inner(left: bool, pieces: seq<string>, right: bool): string {
    (if left then "|" else "") + Join(pieces, "|") + (if right then "|" else "")
  }

  lemma StartTrimmed(lead: string, left: bool, pieces: seq<string>, right: bool, trail: string)
    requires AllSpace(lead) && Apart(pieces) && (!left ==> Trim(pieces[0]) != [])
    ensures TrimStart(Laid(lead, left, pieces, right, trail)) == Inner(left, FirstTrimmed(left, pieces), right) + trail
  {
    hide NoBarePipe, Trim, TrimStart, FirstTrimmed, Inner, Join;
    var inner := Inner(left, pieces, right) + trail;
    LaidIs(lead, left, pieces, right, trail);
    SpaceTrimmed(lead, inner);
    if left { PipeLeads(pieces, right, trail); } else { PieceLeads(pieces, right, trail); }
  }

  lemma LaidIs(lead: string, left: bool, pieces: seq<string>, right: bool, trail: string)
    ensures Laid(lead, left, pieces, right, trail) == lead + (Inner(left, pieces, right) + trail)
  {
    hide Join;
  }

  lemma PipeLeads(pieces: seq<string>, right: bool, trail: string)
    requires pieces != []
    ensures TrimStart(Inner(true, pieces, right) + trail) == Inner(true, FirstTrimmed(true, pieces), right) + trail
  {
    hide Join;
    var inner := Inner(true, pieces, right) + trail;
    assert inner[0] == '|' && !IsSpace('|');
  }

  /** What follows the first piece. */
  function AfterFirst(pieces: seq<string>, end: string): string
    requires pieces != []
  {
    if |pieces| == 1 then end else "|" + Join(pieces[1..], "|") + end
  }

  lemma JoinedFirst(pieces: seq<string>, end: string)
    requires pieces != []
    ensures Join(pieces, "|") + end == pieces[0] + AfterFirst(pieces, end)
  {
    if |pieces| > 1 { JoinFirst(pieces); }
  }

  lemma PieceLeads(pieces: seq<string>, right: bool, trail: string)
    requires pieces != [] && Trim(pieces[0]) != []
    ensures TrimStart(Inner(false, pieces, right) + trail) == Inner(false, FirstTrimmed(false, pieces), right) + trail
  {
    hide TrimStart, Trim, Join, AfterFirst;
    TrimEnds(pieces[0]);
    var first := FirstTrimmed(false, pieces);
    var end := (if right then "|" else "") + trail;
    JoinedFirst(pieces, end);
    JoinedFirst(first, end);
    SameAfter(pieces, first, end);
    StartOnly(pieces[0], AfterFirst(pieces, end));
    assert Inner(false, pieces, right) + trail == Join(pieces, "|") + end;
    assert Inner(false, first, right) + trail == Join(first, "|") + end;
  }

  lemma SameAfter(pieces: seq<string>, other: seq<string>, end: string)
    requires |pieces| == |other| > 0 && pieces[1..] == other[1..]
    ensures AfterFirst(pieces, end) == AfterFirst(other, end)
  {}

  /** What comes before the last piece. */
  function BeforeLast(pieces: seq<string>, start: string): string
    requires pieces != []
  {
    if |pieces| == 1 then start else start + Join(pieces[..|pieces| - 1], "|") + "|"
  }

  lemma JoinedLast(pieces: seq<string>, start: string)
    requires pieces != []
    ensures start + Join(pieces, "|") == BeforeLast(pieces, start) + pieces[|pieces| - 1]
  {
    hide Join;
    JoinUnfolds(pieces);
    if |pieces| > 1 { Regrouped(start, Join(pieces[..|pieces| - 1], "|"), pieces[|pieces| - 1]); }
  }

  lemma Regrouped(a: string, b: string, c: string)
    ensures a + (b + "|" + c) == a + b + "|" + c
  {}

  lemma JoinUnfolds(pieces: seq<string>)
    requires pieces != []
    ensures Join(pieces, "|")
      == if |pieces| == 1 then pieces[0] else Join(pieces[..|pieces| - 1], "|") + "|" + pieces[|pieces| - 1]
  {}

  lemma SameBefore(pieces: seq<string>, other: seq<string>, start: string)
    requires |pieces| == |other| > 0 && pieces[..|pieces| - 1] == other[..|pieces| - 1]
    ensures BeforeLast(pieces, start) == BeforeLast(other, start)
  {}

  lemma EndTrimmed(left: bool, pieces: seq<string>, right: bool, trail: string)
    requires AllSpace(trail) && pieces != [] && (!right ==> TrimEnd(pieces[|pieces| - 1]) != [])
    ensures TrimEnd(Inner(left, pieces, right) + trail) == Inner(left, LastTrimmed(right, pieces), right)
  {
    hide TrimEnd, Join, BeforeLast;
    SpaceTrimmedAfter(Inner(left, pieces, right), trail);
    if right {
      PipeEnds(left, pieces);
    } else {
      var start := if left then "|" else "";
      var trimmed := LastTrimmed(right, pieces);
      JoinedLast(pieces, start);
      JoinedLast(trimmed, start);
      SameBefore(pieces, trimmed, start);
      EndOnly(BeforeLast(pieces, start), pieces[|pieces| - 1]);
      assert Inner(left, pieces, right) == start + Join(pieces, "|");
      assert Inner(left, trimmed, right) == start + Join(trimmed, "|");
    }
  }

  lemma PipeEnds(left: bool, pieces: seq<string>)
    ensures TrimEnd(Inner(left, pieces, true)) == Inner(left, pieces, true)
  {
    hide Join;
    var inner := Inner(left, pieces, true);
    assert inner[|inner| - 1] == '|' && !IsSpace('|');
  }

  /** What is left of the line once trimmed and rid of its outer pipes. */
  lemma Stripped(left: bool, pieces: seq<string>, right: bool)
    requires pieces != []
    requires !left ==> Join(pieces, "|") != [] && Join(pieces, "|")[0] != '|'
    requires !right ==> Join(pieces, "|") != [] && Join(pieces, "|")[|Join(pieces, "|")| - 1] != '|'
    ensures StripTail(StripLead(Inner(left, pieces, right))) == Join(pieces, "|")
  {
    var joined := Join(pieces, "|");
    var led := StripLead(Inner(left, pieces, right));
    assert led == joined + (if right then "|" else "");
  }

  lemma TrimmedPieces(left: bool, pieces: seq<string>, right: bool)
    requires LaysOut("", left, pieces, right, "")
    ensures var core := LastTrimmed(right, FirstTrimmed(left, pieces));
      && Apart(core) && Trims(core) == Trims(pieces)
      && (!left ==> core[0] != [] && core[0][0] != '|')
      && (!right ==> core[|core| - 1] != [] && core[|core| - 1][|core[|core| - 1]| - 1] != '|')
      && (!right ==> TrimEnd(FirstTrimmed(left, pieces)[|pieces| - 1]) != [])
  {
    hide NoBarePipe, Trim, TrimStart, TrimEnd, Trims;
    var first := FirstTrimmed(left, pieces);
    FirstPieces(left, pieces);
    var n := |pieces| - 1;
    assert Trim(first[n]) == Trim(pieces[n]);
    LastPieces(right, first);
    if !left && n == 0 && !right { StartShows(first[0]); }
    SameTrims(LastTrimmed(right, first), pieces);
  }

  lemma FirstPieces(left: bool, pieces: seq<string>)
    requires Apart(pieces) && (!left ==> Trim(pieces[0]) != [])
    ensures var first := FirstTrimmed(left, pieces);
      && Apart(first) && (forall i :: 0 <= i < |pieces| ==> Trim(first[i]) == Trim(pieces[i]))
      && (!left ==> first[0] != [] && first[0][0] != '|')
  {
    hide NoBarePipe, Trim;
    if !left {
      var at := TrimStartAt(pieces[0]);
      BareStart(pieces[0], at);
      TrimEnds(pieces[0]);
      LastStays(pieces[0]);
    }
  }

  lemma LastPieces(right: bool, pieces: seq<string>)
    requires Apart(pieces)
    requires !right ==>
      var tail := Trim(pieces[|pieces| - 1]);
      tail != [] && tail[|tail| - 1] != '|'
    ensures var core := LastTrimmed(right, pieces); var last := core[|core| - 1];
      && Apart(core) && (forall i :: 0 <= i < |pieces| ==> Trim(core[i]) == Trim(pieces[i]))
      && (forall i :: 0 <= i < |pieces| - 1 ==> core[i] == pieces[i])
      && (!right ==> last != [] && last[|last| - 1] != '|' && last == TrimEnd(pieces[|pieces| - 1]))
  {
    hide NoBarePipe, Trim, TrimEnd;
    if !right {
      var last := pieces[|pieces| - 1];
      BareEnd(last);
      TrimEnds(last);
      EndShows(last);
    }
  }

  lemma SameTrims(a: seq<string>, b: seq<string>)
    requires |a| == |b| && forall i :: 0 <= i < |a| ==> Trim(a[i]) == Trim(b[i])
    ensures Trims(a) == Trims(b)
  {
    hide Trim;
  }

  /** Trimming the start does not change the last character. */
  lemma LastStays(s: string)
    ensures TrimStart(s) != [] ==> TrimStart(s)[|TrimStart(s)| - 1] == s[|s| - 1]
  {
    var at := TrimStartAt(s);
  }

  /** Trimming the end leaves the trimmed text's last character last. */
  lemma EndShows(s: string)
    ensures Trim(s) != [] ==> TrimEnd(s) != [] && TrimEnd(s)[|TrimEnd(s)| - 1] == Trim(s)[|Trim(s)| - 1]
  {
    var at := TrimStartAt(s);
    var lead, core := s[..at], s[at..];
    assert s == lead + core;
    if Trim(s) != [] { EndOnly(lead, core); }
  }

  /** Trimming the end leaves a first character that was shown. */
  lemma StartShows(s: string)
    ensures TrimEnd(s) != [] ==> s != [] && TrimEnd(s)[0] == s[0]
  {
    TrimEndTrims(s);
  }

  lemma {:induction false} JoinShows(pieces: seq<string>)
    requires pieces != []
    ensures pieces[0] != [] ==> Join(pieces, "|") != [] && Join(pieces, "|")[0] == pieces[0][0]
    ensures var last := pieces[|pieces| - 1];
      last != [] ==> Join(pieces, "|") != [] && Join(pieces, "|")[|Join(pieces, "|")| - 1] == last[|last| - 1]
  {
    if |pieces| > 1 {
      JoinShows(pieces[..|pieces| - 1]);
    }
  }

  /** The cells of a row laid out in any way are its pieces, trimmed. */
  lemma LaidReads(lead: string, left: bool, pieces: seq<string>, right: bool, trail: string)
    requires LaysOut(lead, left, pieces, right, trail)
    ensures Cells(Laid(lead, left, pieces, right, trail)) == Trims(pieces)
  {
    hide NoBarePipe, TrimStart, TrimEnd, SplitPipes, Trims, Inner, Laid, StripTail, StripLead, Join, FirstTrimmed;
    hide LastTrimmed;
    var first := FirstTrimmed(left, pieces);
    var core := LastTrimmed(right, first);
    StartTrimmed(lead, left, pieces, right, trail);
    TrimmedPieces(left, pieces, right);
    EndTrimmed(left, first, right, trail);
    JoinShows(core);
    Stripped(left, core, right);
    SplitPieces(core);
    assert Trim(Laid(lead, left, pieces, right, trail)) == Inner(left, core, right);
    TrimsAre(core);
  }

  lemma TrimsAre(pieces: seq<string>)
    ensures Trims(pieces) == TrimAll(pieces)
  {}

  // ---- Tables ----

  /** A heading, a rule of as many cells, and 1 to 100 rows of as many, at most 20. */
  ghost predicate TableShape(heading: seq<string>, rule: seq<string>, rows: seq<seq<string>>) {
    && 2 <= |heading| <= 20 && |rule| == |heading|
    && (forall i :: 0 <= i < |rule| ==> RuleForm(rule[i]))
    && 1 <= |rows| <= 100 && forall i :: 0 <= i < |rows| ==> |rows[i]| == |heading|
  }

  lemma {:induction false} RowsCounted(rows: seq<string>, rest: seq<string>)
    requires (forall row :: row in rows ==> '|' in row) && (rest == [] || '|' !in rest[0])
    ensures RowCount(rows + rest) == |rows|
    decreases |rows|
  {
    hide IsRow;
    if rows == [] {
      assert rows + rest == rest;
      if rest != [] { RowExactlyWhen(rest[0]); }
    } else {
      assert rows[0] in rows && forall row :: row in rows[1..] ==> row in rows;
      RowExactlyWhen(rows[0]);
      assert (rows + rest)[1..] == rows[1..] + rest;
      RowsCounted(rows[1..], rest);
    }
  }

  /** Outside a fence, a line is read as the heading of a table exactly when it, the line under it and the rows that
      follow have that shape; then all of them are that table. Otherwise the line is text and reading goes on with the
      next. */
  lemma TableExactlyWhen(heading: string, rule: string, rows: seq<string>, rest: seq<string>, fence: Option<Fence>)
    requires NextFence(fence, heading).None?
    requires (forall row :: row in rows ==> '|' in row) && (rest == [] || '|' !in rest[0])
    ensures var lines := [heading, rule] + rows + rest;
      Gather(Blocks(lines, fence))
      == if TableShape(Cells(heading), Cells(rule), CellsOf(rows))
         then [Table(Cells(heading), CellsOf(rows))] + Gather(Blocks(rest, None))
         else Ahead([heading], Gather(Blocks([rule] + rows + rest, None)))
  {
    hide Cells, CellsOf, NextFence, RowCount, Blocks, Gather, Ahead, IsRule, RuleForm, StartsTable;
    var lines := [heading, rule] + rows + rest;
    assert lines[2..] == rows + rest;
    RowsCounted(rows, rest);
    RowsStand(lines, rows, rest);
    assert lines[1..] == [rule] + rows + rest;
    ShapeStarts(lines, rows);
    if TableShape(Cells(heading), Cells(rule), CellsOf(rows)) {
      TableStep(lines, fence);
    } else {
      LineStep(lines, fence);
    }
  }

  lemma ShapeStarts(lines: seq<string>, rows: seq<string>)
    requires |lines| >= 2 && RowCount(lines[2..]) == |rows| && 2 + |rows| <= |lines| && lines[2..2 + |rows|] == rows
    ensures StartsTable(lines) <==> TableShape(Cells(lines[0]), Cells(lines[1]), CellsOf(rows))
  {
    hide Cells, CellsOf, RowCount, IsRule, RuleForm;
    var rule, read := Cells(lines[1]), CellsOf(rows);
    forall i | 0 <= i < |rule| ensures IsRule(rule[i]) <==> RuleForm(rule[i]) { RuleExactlyWhen(rule[i]); }
    assert AllRules(rule) <==> forall i :: 0 <= i < |rule| ==> IsRule(rule[i]);
    assert Rectangular(read, |Cells(lines[0])|) <==> forall i :: 0 <= i < |read| ==> |read[i]| == |Cells(lines[0])|;
  }
}
