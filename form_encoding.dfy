/**
 * PHP's `urlencode` and its inverse `urldecode`: the
 * application/x-www-form-urlencoded encoding of section 17.13.4.1 of HTML 4.01,
 * byte by byte, as PHP does it.
 */
module FormEncoding {

  import opened Bytes

  /** The bytes `urlencode` copies unchanged: ASCII letters, digits, `-`, `.` and `_`. */
  predicate IsUnreserved(b: byte)
  {
    (48 <= b <= 57) || (65 <= b <= 90) || (97 <= b <= 122) || b == 45 || b == 46 || b == 95
  }

  /** Upper-case hexadecimal digit for `n`, as `urlencode` writes it. */
  function HexDigit(n: int): (d: byte)
    requires 0 <= n < 16
    ensures IsUnreserved(d)
  {
    if n < 10 then (48 + n) as byte else (55 + n) as byte
  }

  /** A hexadecimal digit in either case, as `urldecode` accepts it. */
  predicate IsHexDigit(b: byte)
  {
    (48 <= b <= 57) || (65 <= b <= 70) || (97 <= b <= 102)
  }

  function HexValue(b: byte): (n: int)
    requires IsHexDigit(b)
    ensures 0 <= n < 16
  {
    if b <= 57 then b as int - 48 else if b <= 70 then b as int - 55 else b as int - 87
  }

  lemma HexRoundTrip(n: int)
    requires 0 <= n < 16
    ensures IsHexDigit(HexDigit(n)) && HexValue(HexDigit(n)) == n
  {
  }

  /** How `urlencode` writes one byte. */
  function EncodeByte(b: byte): (r: bytes)
  {
    if b == SPACE then [PLUS]
    else if IsUnreserved(b) then [b]
    else [PERCENT, HexDigit(b as int / 16), HexDigit(b as int % 16)]
  }

  /**
   * PHP `urlencode`. Its output is made of unreserved bytes, `+` and `%` only,
   * so it never contains `&`, `=` or `?` and cannot disturb a query string.
   */
  function UrlEncode(s: bytes): (r: bytes)
    ensures |s| <= |r| <= 3 * |s|
    ensures forall i | 0 <= i < |r| :: IsUnreserved(r[i]) || r[i] == PLUS || r[i] == PERCENT
  {
    if s == [] then [] else EncodeByte(s[0]) + UrlEncode(s[1..])
  }

  lemma EncodedHasNoAmpersand(s: bytes)
    ensures NoAmpersand(UrlEncode(s))
  {
  }

  /** PHP `urldecode`: `+` is a space, `%` and two hexadecimal digits is one byte, anything else stays. */
  function UrlDecode(s: bytes): (r: bytes)
    ensures |r| <= |s|
  {
    if s == [] then []
    else if s[0] == PLUS then [SPACE] + UrlDecode(s[1..])
    else if s[0] == PERCENT && |s| >= 3 && IsHexDigit(s[1]) && IsHexDigit(s[2]) then
      [(HexValue(s[1]) * 16 + HexValue(s[2])) as byte] + UrlDecode(s[3..])
    else [s[0]] + UrlDecode(s[1..])
  }

  lemma DecodeEncodedByte(b: byte, rest: bytes)
    ensures UrlDecode(EncodeByte(b) + rest) == [b] + UrlDecode(rest)
  {
    var e := EncodeByte(b) + rest;
    if b == SPACE {
      assert e[1..] == rest;
    } else if IsUnreserved(b) {
      assert e[1..] == rest;
    } else {
      HexRoundTrip(b as int / 16);
      HexRoundTrip(b as int % 16);
      assert e[3..] == rest;
    }
  }

  /** `urldecode` undoes `urlencode` on every byte string. */
  lemma {:induction false} DecodeEncode(s: bytes)
    ensures UrlDecode(UrlEncode(s)) == s
  {
    if s != [] {
      DecodeEncodedByte(s[0], UrlEncode(s[1..]));
      DecodeEncode(s[1..]);
    }
  }

  /** Hence two different strings never encode alike. */
  lemma EncodeInjective(s: bytes, t: bytes)
    ensures UrlEncode(s) == UrlEncode(t) ==> s == t
  {
    DecodeEncode(s);
    DecodeEncode(t);
  }
}
