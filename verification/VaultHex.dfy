/** The master key as the keychain stores it: 64 hexadecimal digits. */
module VaultHex {
  import opened Options
  import opened Utf8

  const KEY_BYTES: nat := 32

  type Text = seq<byte>

  function DigitOf(n: byte): (c: byte)
    requires n < 16
    ensures HexValue(c) == Some(n)
  {
    if n < 10 then 0x30 + n else 0x61 + (n - 10)
  }

  function HexValue(c: byte): Option<byte> {
    if 0x30 <= c <= 0x39 then Some(c - 0x30)
    else if 0x61 <= c <= 0x66 then Some(c - 0x61 + 10)
    else if 0x41 <= c <= 0x46 then Some(c - 0x41 + 10)
    else None
  }

  /** Two characters as Rust's radix-16 parser reads them: a leading '+' is allowed before one digit. */
  function ParsePair(hi: byte, lo: byte): Option<byte> {
    var low := HexValue(lo);
    if low.None? then None
    else if hi == 0x2B then low
    else var high := HexValue(hi); if high.None? then None else Some(16 * high.value + low.value)
  }

  function ToHex(bytes: seq<byte>): Text {
    if bytes == [] then []
    else
      var last := bytes[|bytes| - 1];
      ToHex(bytes[..|bytes| - 1]) + [DigitOf(last / 16), DigitOf(last % 16)]
  }

  datatype HexKey = Parsed(key: seq<byte>) | Malformed | Panicked

  function ParseFrom(text: Text, i: nat): (r: HexKey)
    requires |text| == 2 * KEY_BYTES && i <= KEY_BYTES
    ensures r.Parsed? ==> |r.key| == KEY_BYTES - i
    decreases KEY_BYTES - i
  {
    if i == KEY_BYTES then Parsed([])
    // Slicing a string inside a character panics.
    else if !IsCharBoundary(text, 2 * i) || !IsCharBoundary(text, 2 * i + 2) then Panicked
    else
      var b := ParsePair(text[2 * i], text[2 * i + 1]);
      if b.None? then Malformed
      else
        var rest := ParseFrom(text, i + 1);
        if rest.Parsed? then Parsed([b.value] + rest.key) else rest
  }

  function FromHex(text: Text): (r: HexKey)
    ensures r.Parsed? ==> |r.key| == KEY_BYTES
  {
    if |text| != 2 * KEY_BYTES then Malformed else ParseFrom(text, 0)
  }

  const LOWER: Text := [0x30, 0x31, 0x32, 0x33, 0x34, 0x35, 0x36, 0x37, 0x38, 0x39, 0x61, 0x62, 0x63, 0x64, 0x65, 0x66]
  const UPPER: Text := [0x30, 0x31, 0x32, 0x33, 0x34, 0x35, 0x36, 0x37, 0x38, 0x39, 0x41, 0x42, 0x43, 0x44, 0x45, 0x46]

  /** Printed digits are lower-case; both cases are read. */
  lemma DigitsExactlyWhen(c: byte, n: byte)
    ensures n < 16 ==> DigitOf(n) == LOWER[n]
    ensures HexValue(c) == Some(n) <==> n < 16 && (c == LOWER[n] || c == UPPER[n])
  {}

  /** A pair of characters is read as a byte exactly if it is two digits of it, or a plus sign and one digit. */
  lemma PairExactlyWhen(hi: byte, lo: byte, b: byte)
    ensures ParsePair(hi, lo) == Some(b)
      <==> (if hi == 0x2B then HexValue(lo) == Some(b)
            else HexValue(hi) == Some(b / 16) && HexValue(lo) == Some(b % 16))
  {}

  /** The characters of one pair neither split a character nor fail to be read. */
  ghost predicate PairReads(text: Text, i: nat, b: byte)
    requires |text| == 2 * KEY_BYTES && i < KEY_BYTES
  {
    IsCharBoundary(text, 2 * i) && IsCharBoundary(text, 2 * i + 2)
    && ParsePair(text[2 * i], text[2 * i + 1]) == Some(b)
  }

  lemma {:induction false} ReadsFrom(text: Text, i: nat, key: seq<byte>)
    requires |text| == 2 * KEY_BYTES && i <= KEY_BYTES && |key| == KEY_BYTES
    ensures ParseFrom(text, i) == Parsed(key[i..]) <==> forall j :: i <= j < KEY_BYTES ==> PairReads(text, j, key[j])
    decreases KEY_BYTES - i
  {
    hide IsCharBoundary, ParsePair;
    if i < KEY_BYTES {
      ReadsFrom(text, i + 1, key);
      assert key[i..] == [key[i]] + key[i + 1..];
      var rest := ParseFrom(text, i + 1);
      if ParseFrom(text, i) == Parsed(key[i..]) {
        assert rest.Parsed? && key[i..][1..] == rest.key == key[i + 1..];
        assert key[i..][0] == key[i];
      }
    }
  }

  /** A stored value is read as a key exactly if it is 64 bytes whose pairs read as the key's bytes. */
  lemma ReadsExactlyWhen(text: Text, key: seq<byte>)
    requires |key| == KEY_BYTES
    ensures FromHex(text) == Parsed(key)
      <==> (|text| == 64 && forall i :: 0 <= i < 32 ==> PairReads(text, i, key[i]))
  {
    hide PairReads, ParseFrom;
    if |text| == 64 {
      ReadsFrom(text, 0, key);
      assert key[0..] == key;
    }
  }

  method ToHexText(bytes: seq<byte>) returns (text: Text)
    ensures text == ToHex(bytes)
  {
    text := [];
    for i := 0 to |bytes|
      invariant text == ToHex(bytes[..i])
    {
      assert bytes[..i + 1][..i] == bytes[..i];
      text := text + [DigitOf(bytes[i] / 16), DigitOf(bytes[i] % 16)];
    }
    assert bytes[..|bytes|] == bytes;
  }

  function Prepend(key: seq<byte>, rest: HexKey): HexKey {
    if rest.Parsed? then Parsed(key + rest.key) else rest
  }

  lemma ParseStep(text: Text, key: seq<byte>, i: nat)
    requires |text| == 2 * KEY_BYTES && i < KEY_BYTES
    requires IsCharBoundary(text, 2 * i) && IsCharBoundary(text, 2 * i + 2)
    ensures var b := ParsePair(text[2 * i], text[2 * i + 1]);
      Prepend(key, ParseFrom(text, i))
      == if b.None? then Malformed else Prepend(key + [b.value], ParseFrom(text, i + 1))
  {
    var b := ParsePair(text[2 * i], text[2 * i + 1]);
    var rest := ParseFrom(text, i + 1);
    if b.Some? && rest.Parsed? {
      assert key + ([b.value] + rest.key) == key + [b.value] + rest.key;
    }
  }

  method ReadHex(text: Text) returns (r: HexKey)
    ensures r == FromHex(text)
  {
    if |text| != 2 * KEY_BYTES {
      return Malformed;
    }
    var key: seq<byte> := [];
    ghost var whole := ParseFrom(text, 0);
    assert whole == Prepend(key, whole);
    var i := 0;
    while i < KEY_BYTES
      invariant 0 <= i <= KEY_BYTES
      invariant whole == Prepend(key, ParseFrom(text, i))
    {
      if !IsCharBoundary(text, 2 * i) || !IsCharBoundary(text, 2 * i + 2) {
        return Panicked;
      }
      ParseStep(text, key, i);
      var b := ParsePair(text[2 * i], text[2 * i + 1]);
      if b.None? {
        return Malformed;
      }
      key := key + [b.value];
      i := i + 1;
    }
    assert key + [] == key;
    return Parsed(key);
  }

  lemma {:induction false} HexDigits(bytes: seq<byte>, i: nat)
    requires i < |bytes|
    ensures |ToHex(bytes)| == 2 * |bytes|
    ensures ToHex(bytes)[2 * i] == DigitOf(bytes[i] / 16) && ToHex(bytes)[2 * i + 1] == DigitOf(bytes[i] % 16)
  {
    var init := bytes[..|bytes| - 1];
    if i < |init| {
      HexDigits(init, i);
    } else if init != [] {
      HexDigits(init, 0);
    }
  }

  lemma DigitsRead(b: byte)
    ensures ParsePair(DigitOf(b / 16), DigitOf(b % 16)) == Some(b)
  {}

  lemma DigitsBound(key: seq<byte>, i: nat)
    requires i <= |key| && |ToHex(key)| == 2 * |key|
    ensures IsCharBoundary(ToHex(key), 2 * i)
  {
    hide ToHex;
    if i < |key| { HexDigits(key, i); }
  }

  lemma {:induction false} ParseBack(key: seq<byte>, i: nat)
    requires |key| == KEY_BYTES && i <= KEY_BYTES
    requires |ToHex(key)| == 2 * KEY_BYTES
    ensures ParseFrom(ToHex(key), i) == Parsed(key[i..])
    decreases KEY_BYTES - i
  {
    hide ToHex, DigitOf, HexValue, ParsePair, IsCharBoundary;
    if i < KEY_BYTES {
      HexDigits(key, i);
      DigitsRead(key[i]);
      DigitsBound(key, i);
      DigitsBound(key, i + 1);
      ParseBack(key, i + 1);
      assert [key[i]] + key[i + 1..] == key[i..];
    }
  }

  /** Every 32-byte key survives being written to the keychain and read back. */
  lemma HexRoundTrip(key: seq<byte>)
    requires |key| == KEY_BYTES
    ensures FromHex(ToHex(key)) == Parsed(key)
  {
    HexDigits(key, 0);
    ParseBack(key, 0);
    assert key[0..] == key;
  }

  /** The pairs before slot `i` all read as bytes. */
  predicate PairsRead(text: Text, i: nat)
    requires |text| == 2 * KEY_BYTES && i <= KEY_BYTES
  {
    forall j {:trigger text[2 * j]} :: 0 <= j < i ==> ParsePair(text[2 * j], text[2 * j + 1]).Some?
  }

  /** A character that spans the end of slot `i`, with every earlier slot readable. */
  predicate SplitsAt(text: Text, i: nat)
    requires |text| == 2 * KEY_BYTES
  {
    i + 1 < KEY_BYTES && PairsRead(text, i) && Continues(text[2 * i + 2])
  }

  lemma {:induction false} PanicFrom(text: Text, i: nat)
    requires |text| == 2 * KEY_BYTES && i <= KEY_BYTES && PairsRead(text, i) && IsCharBoundary(text, 2 * i)
    requires forall j :: 0 <= j < i ==> !SplitsAt(text, j)
    ensures ParseFrom(text, i).Panicked? <==> exists j: nat :: SplitsAt(text, j)
    decreases KEY_BYTES - i
  {
    if i < KEY_BYTES {
      if !IsCharBoundary(text, 2 * i + 2) {
        assert SplitsAt(text, i);
      } else if ParsePair(text[2 * i], text[2 * i + 1]).Some? {
        PanicFrom(text, i + 1);
      } else {
        forall j: nat ensures !SplitsAt(text, j) {
        }
      }
    }
  }

  /** A stored value is read as a key or found malformed, with one exception: a 64-byte value in which a character
      crosses the end of a pair, every earlier pair being readable, makes the reader panic instead. */
  lemma PanicsExactlyWhen(text: Text)
    ensures FromHex(text).Panicked? <==> |text| == 2 * KEY_BYTES && exists i: nat :: SplitsAt(text, i)
  {
    if |text| == 2 * KEY_BYTES {
      PanicFrom(text, 0);
    }
  }

  /** Such a value: an 'a', thirty-one 'é's and an 'a'. */
  lemma SomeValuePanics(text: Text)
    requires |text| == 2 * KEY_BYTES
    requires text[0] == 0x61 && text[63] == 0x61
    requires forall i :: 1 <= i < 63 ==> text[i] == if i % 2 == 1 then 0xC3 else 0xA9
    ensures FromHex(text).Panicked?
  {
    assert text[2 * 0 + 2] == 0xA9;
    assert SplitsAt(text, 0);
    PanicsExactlyWhen(text);
  }
}
