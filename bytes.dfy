/** PHP strings are sequences of bytes; the model works on them as such. */
module Bytes {

  newtype byte = b: int | 0 <= b < 256

  type bytes = seq<byte>

  /** One character of an ASCII text literal as a byte. */
  function AsciiByte(c: char): byte
  {
    if c as int < 256 then c as int as byte else 0
  }

  /** The bytes of a text literal written in ASCII. */
  function Ascii(s: string): (r: bytes)
    ensures |r| == |s|
  {
    seq(|s|, i requires 0 <= i < |s| => AsciiByte(s[i]))
  }

  lemma AsciiConcat(a: string, b: string)
    ensures Ascii(a + b) == Ascii(a) + Ascii(b)
  {
    assert forall i | 0 <= i < |a + b| :: Ascii(a + b)[i] == (Ascii(a) + Ascii(b))[i];
  }

  const SPACE: byte := 32
  const PERCENT: byte := 37
  const AMPERSAND: byte := 38
  const PLUS: byte := 43

  /** No byte of `s` is `&`, the separator of query parameters. */
  predicate NoAmpersand(s: bytes)
  {
    forall i | 0 <= i < |s| :: s[i] != AMPERSAND
  }

  predicate StartsWith(s: bytes, prefix: bytes)
  {
    |prefix| <= |s| && s[..|prefix|] == prefix
  }
}
