/** UTF-8 text as bytes (section 3 of RFC 3629). */
module Utf8 {
  newtype byte = x: int | 0 <= x < 256

  /** A byte that continues a character begun earlier (section 3 of RFC 3629). */
  predicate Continues(b: byte) { 0x80 <= b < 0xC0 }

  /** Whether a slice of `text` may start or end at byte `i`. */
  predicate IsCharBoundary(text: seq<byte>, i: nat)
    requires i <= |text|
  {
    i == 0 || i == |text| || !Continues(text[i])
  }

  /** How many bytes a character takes, from its first byte. */
  function CharWidth(lead: byte): (w: nat)
    ensures 1 <= w <= 4
  {
    if lead < 0xC0 then 1 else if lead < 0xE0 then 2 else if lead < 0xF0 then 3 else 4
  }

  /** Whole characters only: each lead byte is followed by exactly the continuation bytes it announces. */
  predicate WholeChars(text: seq<byte>)
    decreases |text|
  {
    text == [] ||
    var w := CharWidth(text[0]);
    && !Continues(text[0])
    && w <= |text|
    && (forall i :: 1 <= i < w ==> Continues(text[i]))
    && WholeChars(text[w..])
  }
}
