/** `\uXXXX` escapes and their UTF-8 form, as the two field readers of the Burmese example
    decode them (lines 333-345 and 446-457): four hex digits read by `std::stoul(hex, nullptr, 16)`
    give a code point below 0x10000, written as the one, two or three bytes of section 3 of
    RFC 3629. There is no surrogate pairing: a code point in 0xD800-0xDFFF is written as
    three bytes like any other.

    The C++ ORs a prefix into shifted and masked code points; every prefix sits on bits
    the other operand leaves clear, so the OR is an addition:
    `0xC0 | (cp >> 6) == 0xC0 + cp / 64` for `cp < 0x800`, `0xE0 | (cp >> 12) == 0xE0 + cp / 4096`
    for `cp < 0x10000`, `0x80 | (cp & 0x3F) == 0x80 + cp % 64`. */
module Utf8 {
  import opened Common

  predicate IsHexDigit(c: char)
  {
    '0' <= c <= '9' || 'a' <= c <= 'f' || 'A' <= c <= 'F'
  }

  function DigitValue(c: char): (v: nat)
    requires IsHexDigit(c)
    ensures v < 16
  {
    if '0' <= c <= '9' then c as int - '0' as int
    else if 'a' <= c <= 'f' then c as int - 'a' as int + 10
    else c as int - 'A' as int + 10
  }

  /** Four hex digits, as the readers expect after `\u`. */
  predicate IsHex4(h: string)
  {
    |h| == 4 && IsHexDigit(h[0]) && IsHexDigit(h[1]) && IsHexDigit(h[2]) && IsHexDigit(h[3])
  }

  /** `std::stoul(hex, nullptr, 16)` on four hex digits. */
  function HexValue(h: string): (cp: nat)
    requires IsHex4(h)
    ensures cp < 0x10000
  {
    DigitValue(h[0]) * 4096 + DigitValue(h[1]) * 256 + DigitValue(h[2]) * 16 + DigitValue(h[3])
  }

  /** Lower-case hex digit of a value below 16. */
  function HexDigit(v: nat): (c: char)
    requires v < 16
    ensures IsHexDigit(c) && DigitValue(c) == v
  {
    if v < 10 then ('0' as int + v) as char else ('a' as int + v - 10) as char
  }

  /** The four hex digits a JSON writer puts after `\u` for a code point below 0x10000. */
  function Hex4(cp: nat): (h: string)
    requires cp < 0x10000
    ensures IsHex4(h) && HexValue(h) == cp
  {
    var q1 := cp / 16;
    var q2 := q1 / 16;
    var q3 := q2 / 16;
    assert cp == q3 * 4096 + (q2 % 16) * 256 + (q1 % 16) * 16 + cp % 16;
    [HexDigit(q3), HexDigit(q2 % 16), HexDigit(q1 % 16), HexDigit(cp % 16)]
  }

  /** The bytes the readers append for code point `cp` (lines 336-345). */
  function EncodeCodepoint(cp: nat): (r: string)
    requires cp < 0x10000
    ensures IsByteString(r)
  {
    if cp < 0x80 then [cp as char]
    else if cp < 0x800 then [(0xC0 + cp / 64) as char, (0x80 + cp % 64) as char]
    else [(0xE0 + cp / 4096) as char, (0x80 + cp / 64 % 64) as char, (0x80 + cp % 64) as char]
  }

  predicate IsContinuation(b: char)
  {
    0x80 <= b as int < 0xC0
  }

  /** A reference reader of one UTF-8 sequence of one to three bytes, after the table in
      section 3 of RFC 3629: the lead byte says how many continuation bytes follow, and each
      one contributes six bits. `None` for anything that is not such a sequence. */
  function DecodeSequence(b: string): Option<nat>
  {
    if |b| == 1 && b[0] as int < 0x80 then Some(b[0] as int)
    else if |b| == 2 && 0xC0 <= b[0] as int < 0xE0 && IsContinuation(b[1]) then
      Some((b[0] as int - 0xC0) * 64 + (b[1] as int - 0x80))
    else if |b| == 3 && 0xE0 <= b[0] as int < 0xF0 && IsContinuation(b[1]) && IsContinuation(b[2]) then
      Some((b[0] as int - 0xE0) * 4096 + (b[1] as int - 0x80) * 64 + (b[2] as int - 0x80))
    else None
  }

  /** The written bytes read back as the code point they were made from. */
  lemma DecodeEncode(cp: nat)
    requires cp < 0x10000
    ensures DecodeSequence(EncodeCodepoint(cp)) == Some(cp)
  {
  }

  /** The shortest form is used: one byte exactly for ASCII, two exactly up to 0x7FF,
      three above. */
  lemma EncodeLength(cp: nat)
    requires cp < 0x10000
    ensures |EncodeCodepoint(cp)| == 1 <==> cp < 0x80
    ensures |EncodeCodepoint(cp)| == 2 <==> 0x80 <= cp < 0x800
    ensures |EncodeCodepoint(cp)| == 3 <==> 0x800 <= cp
  {
  }

  /** Different code points give different bytes. */
  lemma EncodeInjective(a: nat, b: nat)
    requires a < 0x10000 && b < 0x10000
    requires EncodeCodepoint(a) == EncodeCodepoint(b)
    ensures a == b
  {
    DecodeEncode(a);
    DecodeEncode(b);
  }

  /** Every character of `t` is in the Basic Multilingual Plane. */
  predicate IsBmp(t: string)
  {
    forall i :: 0 <= i < |t| ==> t[i] as int < 0x10000
  }

  /** The UTF-8 bytes of a text of BMP characters, as a C++ source file stores a string
      literal and as the readers produce it from `\u` escapes. */
  function EncodeText(t: string): (r: string)
    requires IsBmp(t)
    ensures IsByteString(r)
  {
    if |t| == 0 then "" else EncodeCodepoint(t[0] as int) + EncodeText(t[1..])
  }

  /** An ASCII text is its own UTF-8 form. */
  lemma {:induction false} EncodeAscii(t: string)
    requires forall i :: 0 <= i < |t| ==> t[i] as int < 0x80
    ensures IsBmp(t) && EncodeText(t) == t
    decreases |t|
  {
    if |t| > 0 {
      EncodeAscii(t[1..]);
      assert t == [t[0]] + t[1..];
    }
  }

  lemma {:induction false} EncodeTextAppend(a: string, b: string)
    requires IsBmp(a) && IsBmp(b)
    ensures IsBmp(a + b) && EncodeText(a + b) == EncodeText(a) + EncodeText(b)
    decreases |a|
  {
    assert IsBmp(a + b) by {
      assert forall i :: 0 <= i < |a + b| ==> (a + b)[i] == (if i < |a| then a[i] else b[i - |a|]);
    }
    if |a| > 0 {
      assert (a + b)[1..] == a[1..] + b;
      EncodeTextAppend(a[1..], b);
    } else {
      assert a + b == b;
    }
  }

  /** `\u00e9` (e with acute accent) is read as the two bytes C3 A9. */
  lemma AccentExample()
    ensures IsHex4("00e9") && EncodeCodepoint(HexValue("00e9")) == [0xC3 as char, 0xA9 as char]
  {
  }

  /** `\u1000` (the Myanmar letter KA) is read as the three bytes E1 80 80. */
  lemma MyanmarExample()
    ensures IsHex4("1000") && EncodeCodepoint(HexValue("1000")) == [0xE1 as char, 0x80 as char, 0x80 as char]
  {
  }
}
