/** Strings as the client's scripts handle them: lines, trimming, runs of one character. */
module TextLines {
  /** What `trim()` and `\s` treat as white space. */
  predicate IsSpace(c: char) {
    var n := c as int;
    || 9 <= n <= 13 || n == 32 || n == 0xA0 || n == 0x1680 || 0x2000 <= n <= 0x200A
    || n == 0x2028 || n == 0x2029 || n == 0x202F || n == 0x205F || n == 0x3000 || n == 0xFEFF
  }

  const WHITE: string := "\t\n\U{0B}\U{0C}\r \U{A0}\U{1680}\U{2000}\U{2001}\U{2002}\U{2003}\U{2004}\U{2005}\U{2006}"
                        + "\U{2007}\U{2008}\U{2009}\U{200A}\U{2028}\U{2029}\U{202F}\U{205F}\U{3000}\U{FEFF}"

  lemma SpacesAreWhite(c: char)
    ensures IsSpace(c) <==> c in WHITE
  {
    var n := c as int;
    if IsSpace(c) {
      var i := if n <= 13 then n - 9 else if n == 32 then 5 else if n == 0xA0 then 6 else if n == 0x1680 then 7
               else if n <= 0x200A then 8 + n - 0x2000 else if n == 0x2028 then 19 else if n == 0x2029 then 20
               else if n == 0x202F then 21 else if n == 0x205F then 22 else if n == 0x3000 then 23 else 24;
      assert WHITE[i] as int == n;
    }
  }

  function TrimStart(s: string): string {
    if s != [] && IsSpace(s[0]) then TrimStart(s[1..]) else s
  }

  function TrimEnd(s: string): string {
    if s != [] && IsSpace(s[|s| - 1]) then TrimEnd(s[..|s| - 1]) else s
  }

  function Trim(s: string): string { TrimEnd(TrimStart(s)) }

  predicate Trimmed(s: string) {
    s == [] || (!IsSpace(s[0]) && !IsSpace(s[|s| - 1]))
  }

  lemma {:induction false} TrimEndTrims(s: string)
    ensures TrimEnd(s) != [] ==> s != [] && TrimEnd(s)[0] == s[0] && !IsSpace(TrimEnd(s)[|TrimEnd(s)| - 1])
  {
    if s != [] && IsSpace(s[|s| - 1]) { TrimEndTrims(s[..|s| - 1]); }
  }

  lemma {:induction false} TrimStartTrims(s: string)
    ensures TrimStart(s) != [] ==> !IsSpace(TrimStart(s)[0])
  {
    if s != [] && IsSpace(s[0]) { TrimStartTrims(s[1..]); }
  }

  lemma TrimTrims(s: string)
    ensures Trimmed(Trim(s))
  {
    TrimStartTrims(s);
    TrimEndTrims(TrimStart(s));
  }

  /** One space on either side comes off again. */
  lemma TrimSpaced(s: string)
    requires Trimmed(s)
    ensures Trim(" " + s + " ") == s
  {
    var spaced := " " + s + " ";
    assert IsSpace(' ') && spaced[1..] == s + " ";
    if s == [] {
      assert (s + " ")[1..] == [];
      assert TrimStart(s + " ") == TrimStart([]) == [];
    } else {
      var ended := s + " ";
      assert ended[0] == s[0] && TrimStart(ended) == ended;
      assert TrimStart(spaced) == TrimStart(spaced[1..]);
      assert ended[..|s|] == s && TrimEnd(ended) == TrimEnd(s);
    }
  }

  lemma TrimmedIsFixed(s: string)
    requires Trimmed(s)
    ensures Trim(s) == s
  {}

  // ---- Lines ----

  function Lines(s: string): (r: seq<string>)
    ensures r != []
  {
    if s == [] then [[]]
    else WithChar(Lines(s[..|s| - 1]), s[|s| - 1])
  }

  function WithChar(lines: seq<string>, c: char): (r: seq<string>)
    requires lines != []
    ensures r != []
  {
    if c == '\n' then lines + [[]] else lines[..|lines| - 1] + [lines[|lines| - 1] + [c]]
  }

  lemma WithCharAfter(a: seq<string>, b: seq<string>, c: char)
    requires b != []
    ensures WithChar(a + b, c) == a + WithChar(b, c)
  {
    assert (a + b)[..|a + b| - 1] == a + b[..|b| - 1];
  }

  function Join(parts: seq<string>, between: string): string {
    if parts == [] then []
    else if |parts| == 1 then parts[0]
    else Join(parts[..|parts| - 1], between) + between + parts[|parts| - 1]
  }

  lemma FeedOpens(lines: seq<string>)
    requires lines != []
    ensures WithChar(lines, '\n') == lines + [[]]
  {}

  lemma {:induction false} LinesConcat(a: string, b: string)
    ensures Lines(a + "\n" + b) == Lines(a) + Lines(b)
    decreases |b|
  {
    hide WithChar;
    var s := a + "\n" + b;
    if b == [] {
      assert s[..|s| - 1] == a;
      FeedOpens(Lines(a));
    } else {
      var init := b[..|b| - 1];
      assert s[..|s| - 1] == a + "\n" + init;
      LinesConcat(a, init);
      WithCharAfter(Lines(a), Lines(init), b[|b| - 1]);
    }
  }

  lemma {:induction false} LineOf(s: string)
    requires '\n' !in s
    ensures Lines(s) == [s]
  {
    if s != [] {
      assert s == s[..|s| - 1] + [s[|s| - 1]];
      LineOf(s[..|s| - 1]);
    }
  }

  /** Splitting into lines loses nothing. */
  lemma {:induction false} JoinLines(s: string)
    ensures Join(Lines(s), "\n") == s
  {
    if s != [] {
      var init, c := s[..|s| - 1], s[|s| - 1];
      JoinLines(init);
      var before := Lines(init);
      assert s == init + [c];
      if c == '\n' {
        assert (before + [[]])[..|before|] == before;
      } else if |before| > 1 {
        var ls := Lines(s);
        assert ls[..|ls| - 1] == before[..|before| - 1];
      }
    }
  }

  lemma {:induction false} LinesOfJoin(parts: seq<string>)
    requires parts != [] && forall p :: p in parts ==> '\n' !in p
    ensures Lines(Join(parts, "\n")) == parts
  {
    var init, last := parts[..|parts| - 1], parts[|parts| - 1];
    assert last in parts;
    LineOf(last);
    if |parts| > 1 {
      assert forall p :: p in init ==> p in parts;
      LinesOfJoin(init);
      LinesConcat(Join(init, "\n"), last);
      assert init + [last] == parts;
    }
  }

  // ---- Runs of one character ----

  /** How many times `c` stands at the start of `s`. */
  function Run(s: string, c: char): nat {
    if s != [] && s[0] == c then 1 + Run(s[1..], c) else 0
  }

  function TailRun(s: string, c: char): nat {
    if s != [] && s[|s| - 1] == c then 1 + TailRun(s[..|s| - 1], c) else 0
  }

  /** The longest run of `c` in `s`. */
  function LongestRun(s: string, c: char): nat {
    if s == [] then 0
    else
      var before := LongestRun(s[..|s| - 1], c);
      if TailRun(s, c) > before then TailRun(s, c) else before
  }

  function Repeat(c: char, n: nat): (r: string)
    ensures |r| == n && forall i :: 0 <= i < n ==> r[i] == c
  {
    if n == 0 then [] else Repeat(c, n - 1) + [c]
  }

  lemma {:induction false} RunBounds(s: string, c: char)
    ensures Run(s, c) <= |s|
    ensures forall i :: 0 <= i < Run(s, c) ==> s[i] == c
    ensures Run(s, c) < |s| ==> s[Run(s, c)] != c
  {
    if s != [] && s[0] == c {
      RunBounds(s[1..], c);
      forall i | 0 <= i < Run(s, c) ensures s[i] == c { if i > 0 { assert s[1..][i - 1] == c; } }
    }
  }

  lemma {:induction false} TailRunReaches(s: string, c: char, i: nat)
    requires i <= |s| && forall k :: i <= k < |s| ==> s[k] == c
    ensures TailRun(s, c) >= |s| - i
  {
    if i < |s| {
      TailRunReaches(s[..|s| - 1], c, i);
    }
  }

  /** Every stretch of `c` is within the longest run. */
  lemma {:induction false} RunWithin(s: string, c: char, i: nat, j: nat)
    requires i <= j <= |s| && forall k :: i <= k < j ==> s[k] == c
    ensures j - i <= LongestRun(s, c)
  {
    if i < j {
      if j == |s| {
        TailRunReaches(s, c, i);
      } else {
        RunWithin(s[..|s| - 1], c, i, j);
      }
    }
  }

  lemma {:induction false} RunOfRepeat(c: char, n: nat, rest: string)
    requires rest == [] || rest[0] != c
    ensures Run(Repeat(c, n) + rest, c) == n
    decreases n
  {
    if n > 0 {
      assert (Repeat(c, n) + rest)[1..] == Repeat(c, n - 1) + rest;
      RunOfRepeat(c, n - 1, rest);
    } else {
      assert Repeat(c, 0) + rest == rest;
    }
  }

  /** A line of a text is a stretch of it. */
  lemma {:induction false} LineWithin(s: string, k: nat) returns (at: nat)
    requires k < |Lines(s)|
    ensures at + |Lines(s)[k]| <= |s| && s[at..at + |Lines(s)[k]|] == Lines(s)[k]
    ensures k == |Lines(s)| - 1 ==> at + |Lines(s)[k]| == |s|
  {
    if s == [] {
      at := 0;
    } else {
      var init, c := s[..|s| - 1], s[|s| - 1];
      var before := Lines(init);
      assert s == init + [c];
      if c == '\n' && k == |before| {
        at := |s|;
      } else {
        at := LineWithin(init, k);
        assert s[at..at + |before[k]|] == init[at..at + |before[k]|];
        if c != '\n' && k == |before| - 1 {
          assert s[at..] == init[at..] + [c];
        }
      }
    }
  }

  /** No line has a longer run than the text. */
  lemma LineRuns(s: string, c: char, line: string, i: nat)
    requires line in Lines(s) && i <= |line|
    ensures Run(line[i..], c) <= LongestRun(s, c)
  {
    var k :| 0 <= k < |Lines(s)| && Lines(s)[k] == line;
    var at := LineWithin(s, k);
    StretchRuns(s, c, at, line, i);
  }

  lemma StretchRuns(s: string, c: char, at: nat, line: string, i: nat)
    requires at + |line| <= |s| && s[at..at + |line|] == line && i <= |line|
    ensures Run(line[i..], c) <= LongestRun(s, c)
  {
    var n := Run(line[i..], c);
    RunBounds(line[i..], c);
    forall j | at + i <= j < at + i + n ensures s[j] == c {
      assert s[at..at + |line|][j - at] == line[j - at] == line[i..][j - at - i];
    }
    RunWithin(s, c, at + i, at + i + n);
  }
}
