/** Two versions of a text side by side, the lines they share at the beginning and at the end hidden. */
module RevisionDiff {
  import opened TextLines

  /** The lines that differ, and how many are hidden before and after them. */
  datatype Diff = Diff(previous: seq<string>, next: seq<string>, before: nat, after: nat)

  /** The texts begin with `i` equal lines and end with `j` equal ones, none counted twice. */
  ghost predicate Shared(was: seq<string>, now: seq<string>, i: nat, j: nat) {
    && i + j <= |was| && i + j <= |now|
    && was[..i] == now[..i]
    && was[|was| - j..] == now[|now| - j..]
  }

  /** What is shown differs, what is hidden is shared, and no way of hiding shared lines hides more. */
  ghost predicate Trims(was: seq<string>, now: seq<string>, d: Diff) {
    && Shared(was, now, d.before, d.after)
    && d.previous == was[d.before..|was| - d.after]
    && d.next == now[d.before..|now| - d.after]
    && forall i: nat, j: nat :: Shared(was, now, i, j) ==> i + j <= d.before + d.after
  }

  method Compare(before: string, after: string) returns (d: Diff)
    ensures Trims(Lines(before), Lines(after), d)
  {
    hide Lines, Trims;
    var oldLines, newLines := Lines(before), Lines(after);
    var first, oldEnd, newEnd := 0, |oldLines|, |newLines|;
    while first < oldEnd && first < newEnd && oldLines[first] == newLines[first]
      invariant 0 <= first <= oldEnd && first <= newEnd
      invariant oldLines[..first] == newLines[..first]
    {
      OneMoreShared(oldLines, newLines, first);
      first := first + 1;
    }
    while oldEnd > first && newEnd > first && oldLines[oldEnd - 1] == newLines[newEnd - 1]
      invariant first <= oldEnd <= |oldLines| && first <= newEnd <= |newLines|
      invariant |oldLines| - oldEnd == |newLines| - newEnd
      invariant oldLines[oldEnd..] == newLines[newEnd..]
    {
      assert oldLines[oldEnd - 1..] == [oldLines[oldEnd - 1]] + oldLines[oldEnd..];
      assert newLines[newEnd - 1..] == [newLines[newEnd - 1]] + newLines[newEnd..];
      oldEnd, newEnd := oldEnd - 1, newEnd - 1;
    }
    d := Diff(oldLines[first..oldEnd], newLines[first..newEnd], first, |oldLines| - oldEnd);
    GreedyTrims(oldLines, newLines, d);
  }

  lemma OneMoreShared(was: seq<string>, now: seq<string>, i: nat)
    requires i < |was| && i < |now| && was[..i] == now[..i] && was[i] == now[i]
    ensures was[..i + 1] == now[..i + 1]
  {
    assert was[..i + 1] == was[..i] + [was[i]] && now[..i + 1] == now[..i] + [now[i]];
  }

  lemma GreedyTrims(was: seq<string>, now: seq<string>, d: Diff)
    requires d.before + d.after <= |was| && d.before + d.after <= |now|
    requires was[..d.before] == now[..d.before] && was[|was| - d.after..] == now[|now| - d.after..]
    requires d.previous == was[d.before..|was| - d.after] && d.next == now[d.before..|now| - d.after]
    requires d.before + d.after < |was| && d.before + d.after < |now| ==>
      was[d.before] != now[d.before] && was[|was| - d.after - 1] != now[|now| - d.after - 1]
    ensures Trims(was, now, d)
  {
    assert Shared(was, now, d.before, d.after);
    hide Shared;
    forall i: nat, j: nat | Shared(was, now, i, j) ensures i + j <= d.before + d.after {
      Greedy(was, now, d, i, j);
    }
  }

  /** Taking all of the beginning first and then all it can of the end hides as much as can be hidden. */
  lemma Greedy(was: seq<string>, now: seq<string>, d: Diff, i: nat, j: nat)
    requires Shared(was, now, d.before, d.after) && Shared(was, now, i, j)
    requires d.before + d.after < |was| && d.before + d.after < |now| ==>
      was[d.before] != now[d.before] && was[|was| - d.after - 1] != now[|now| - d.after - 1]
    ensures i + j <= d.before + d.after
  {
    forall k | 0 <= k < i ensures was[k] == now[k] { assert was[..i][k] == now[..i][k]; }
    forall k | |was| - j <= k < |was| ensures was[k] == now[k + |now| - |was|] {
      assert was[|was| - j..][k - |was| + j] == now[|now| - j..][k - |was| + j];
    }
  }

  /** Putting what is shown as new in the place of what is shown as old turns the one text into the other, and "no
      text changes" is said exactly when the texts are the same. */
  lemma DiffExplains(before: string, after: string, d: Diff)
    requires Trims(Lines(before), Lines(after), d)
    ensures var lines := Lines(before);
      Join(lines[..d.before] + d.next + lines[|lines| - d.after..], "\n") == after
    ensures d.previous == [] && d.next == [] <==> before == after
  {
    hide Lines, Join;
    var a, b := Lines(before), Lines(after);
    assert b == b[..d.before] + d.next + b[|b| - d.after..];
    JoinLines(before);
    JoinLines(after);
    if before == after {
      assert Shared(a, b, |a|, 0);
    }
    if d.previous == [] && d.next == [] {
      assert a == a[..d.before] + d.previous + a[|a| - d.after..];
    }
  }
}
