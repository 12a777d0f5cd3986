/** Limiter keys: byte strings cut to a fixed length on a character boundary. */
module RateLimitKeys {

  import opened Utf8

  type Key = seq<byte>

  const MAX_KEY_BYTES: nat := 128

  function CutBack(key: Key, end: nat): (r: nat)
    requires end <= |key|
    ensures r <= end && IsCharBoundary(key, r)
    ensures forall i :: r < i <= end ==> !IsCharBoundary(key, i)
  {
    if IsCharBoundary(key, end) then end else CutBack(key, end - 1)
  }

  /** The longest prefix of `key` that fits and ends on a character boundary. */
  function Cut(key: Key): Key {
    key[..CutBack(key, if |key| < MAX_KEY_BYTES then |key| else MAX_KEY_BYTES)]
  }

  method TruncateKey(key: Key) returns (cut: Key)
    ensures cut == Cut(key)
  {
    var end := if |key| < MAX_KEY_BYTES then |key| else MAX_KEY_BYTES;
    while !IsCharBoundary(key, end)
      invariant 0 <= end <= |key|
      invariant CutBack(key, end) == CutBack(key, if |key| < MAX_KEY_BYTES then |key| else MAX_KEY_BYTES)
      decreases end
    {
      end := end - 1;
    }
    cut := key[..end];
  }

  /** In whole characters a boundary splits the text into whole characters, and there is one in every four bytes. */
  lemma {:induction false} BoundarySplits(key: Key, i: nat)
    requires WholeChars(key) && i <= |key| && IsCharBoundary(key, i)
    ensures WholeChars(key[..i]) && WholeChars(key[i..])
    decreases |key|
  {
    if i == 0 {
      assert key[..0] == [] && key[0..] == key;
    } else if i < |key| {
      var w := CharWidth(key[0]);
      assert i >= w;
      var rest := key[w..];
      assert i < |key| ==> rest[i - w] == key[i];
      BoundarySplits(rest, i - w);
      assert key[..i][w..] == rest[..i - w];
      assert rest[i - w..] == key[i..];
    } else {
      assert key[..i] == key && key[i..] == [];
    }
  }

  lemma {:induction false} BoundaryWithinFour(key: Key, end: nat)
    requires WholeChars(key) && end <= |key|
    ensures end <= CutBack(key, end) + 3
    decreases |key|
  {
    if end > 0 && end < |key| {
      var w := CharWidth(key[0]);
      if end < w {
      } else {
        var rest := key[w..];
        BoundaryWithinFour(rest, end - w);
        var r := CutBack(rest, end - w);
        assert IsCharBoundary(key, r + w) by {
          if 0 < r < |rest| { assert rest[r] == key[r + w]; }
          if r == 0 && w < |key| { assert rest[0] == key[w]; assert !Continues(rest[0]); }
        }
      }
    }
  }

  /** A cut key is a prefix of at most 128 bytes holding whole characters; at most three bytes of the budget go unused;
      a key that fits is untouched, so cutting twice is cutting once. */
  lemma CutKeepsWholeChars(key: Key)
    requires WholeChars(key)
    ensures Cut(key) <= key && |Cut(key)| <= 128 && WholeChars(Cut(key))
    ensures |key| > 128 ==> |Cut(key)| >= 125
    ensures |key| <= 128 ==> Cut(key) == key
    ensures Cut(Cut(key)) == Cut(key)
  {
    var end := if |key| < MAX_KEY_BYTES then |key| else MAX_KEY_BYTES;
    BoundarySplits(key, CutBack(key, end));
    BoundaryWithinFour(key, end);
  }

  /** Two texts of whole characters agreeing on their first 128 bytes are one counter, even when the
      128th byte falls inside a character. */
  lemma SharedPrefixSharesCounter(a: Key, b: Key)
    requires WholeChars(a) && WholeChars(b)
    requires |a| >= MAX_KEY_BYTES && |b| >= MAX_KEY_BYTES
    requires a[..MAX_KEY_BYTES] == b[..MAX_KEY_BYTES]
    ensures Cut(a) == Cut(b)
  {
    BoundaryAgrees(a, b, MAX_KEY_BYTES);
    CutBackAgrees(a, b, MAX_KEY_BYTES);
    assert a[..CutBack(a, MAX_KEY_BYTES)] == a[..MAX_KEY_BYTES][..CutBack(a, MAX_KEY_BYTES)];
    assert b[..CutBack(b, MAX_KEY_BYTES)] == b[..MAX_KEY_BYTES][..CutBack(b, MAX_KEY_BYTES)];
  }

  /** Whether a shared prefix ends a character is settled by the prefix alone. */
  lemma {:induction false} BoundaryAgrees(a: Key, b: Key, n: nat)
    requires WholeChars(a) && WholeChars(b) && n <= |a| && n <= |b| && a[..n] == b[..n]
    ensures IsCharBoundary(a, n) == IsCharBoundary(b, n)
    decreases n
  {
    if n > 0 {
      assert a[0] == a[..n][0] == b[..n][0] == b[0];
      var w := CharWidth(a[0]);
      if w <= n {
        var ra, rb := a[w..], b[w..];
        assert ra[..n - w] == a[..n][w..] == b[..n][w..] == rb[..n - w];
        BoundaryAgrees(ra, rb, n - w);
        assert n < |a| ==> ra[n - w] == a[n];
        assert n < |b| ==> rb[n - w] == b[n];
        if n == w {
          assert ra != [] ==> !Continues(ra[0]);
          assert rb != [] ==> !Continues(rb[0]);
        }
      }
    }
  }

  lemma {:induction false} CutBackAgrees(a: Key, b: Key, n: nat)
    requires n <= |a| && n <= |b| && a[..n] == b[..n]
    requires IsCharBoundary(a, n) == IsCharBoundary(b, n)
    ensures CutBack(a, n) == CutBack(b, n)
    decreases n
  {
    if n > 0 && !IsCharBoundary(a, n) {
      assert a[n - 1] == a[..n][n - 1] == b[..n][n - 1] == b[n - 1];
      assert a[..n - 1] == a[..n][..n - 1] == b[..n][..n - 1] == b[..n - 1];
      CutBackAgrees(a, b, n - 1);
    }
  }
}
