/**
 * The two measures of a QString that the packet builders mix: its size()
 * in UTF-16 code units, and the bytes of its toUtf8() encoding. A Dafny
 * string is a sequence of Unicode scalar values.
 */
module Text {
  import opened Wire

  /** The number of UTF-16 code units one character takes (a surrogate pair above U+FFFF). */
  function Utf16Units(c: char): (n: nat)
    ensures n == 1 || n == 2
  {
    if c as int < 0x1_0000 then 1 else 2
  }

  /** QString::size(): the string's length in UTF-16 code units. */
  function Utf16Length(s: string): (n: nat)
    ensures n >= |s|
  {
    if s == [] then 0 else Utf16Units(s[0]) + Utf16Length(s[1..])
  }

  /** The UTF-8 encoding of one Unicode scalar value (RFC 3629). */
  function Utf8Char(c: char): (r: seq<Byte>)
    ensures 1 <= |r| <= 4
    ensures |r| == 1 <==> c as int < 0x80
    ensures |r| >= Utf16Units(c)
  {
    var cp := c as int;
    if cp < 0x80 then [cp]
    else if cp < 0x800 then [0xC0 + cp / 0x40, 0x80 + cp % 0x40]
    else if cp < 0x1_0000 then [0xE0 + cp / 0x1000, 0x80 + cp / 0x40 % 0x40, 0x80 + cp % 0x40]
    else [0xF0 + cp / 0x4_0000, 0x80 + cp / 0x1000 % 0x40, 0x80 + cp / 0x40 % 0x40, 0x80 + cp % 0x40]
  }

  /** QString::toUtf8(). */
  function Utf8Encode(s: string): (r: seq<Byte>)
  {
    if s == [] then [] else Utf8Char(s[0]) + Utf8Encode(s[1..])
  }

  predicate IsAscii(s: string)
  {
    forall i :: 0 <= i < |s| ==> s[i] as int < 0x80
  }

  /** The UTF-8 encoding never has fewer bytes than the string has UTF-16 units. */
  lemma {:induction false} Utf8NotShorterThanUtf16(s: string)
    ensures Utf16Length(s) <= |Utf8Encode(s)|
  {
    if s != [] {
      Utf8NotShorterThanUtf16(s[1..]);
    }
  }

  /**
   * The UTF-16 length of a string equals the byte length of its UTF-8
   * encoding exactly when every character is ASCII.
   */
  lemma {:induction false} LengthsAgreeIffAscii(s: string)
    ensures Utf16Length(s) == |Utf8Encode(s)| <==> IsAscii(s)
  {
    if s != [] {
      LengthsAgreeIffAscii(s[1..]);
      Utf8NotShorterThanUtf16(s[1..]);
      assert IsAscii(s) <==> s[0] as int < 0x80 && IsAscii(s[1..]) by {
        if IsAscii(s) {
          assert forall i :: 0 <= i < |s[1..]| ==> s[1..][i] == s[i + 1];
        }
        if s[0] as int < 0x80 && IsAscii(s[1..]) {
          forall i | 0 <= i < |s| ensures s[i] as int < 0x80 {
            if i > 0 { assert s[i] == s[1..][i - 1]; }
          }
        }
      }
    }
  }

  /** For an ASCII string, the UTF-8 encoding is the character codes themselves. */
  lemma {:induction false} AsciiEncodesAsCodes(s: string)
    requires IsAscii(s)
    ensures |Utf8Encode(s)| == |s|
    ensures forall i :: 0 <= i < |s| ==> Utf8Encode(s)[i] == s[i] as int
  {
    if s != [] {
      assert IsAscii(s[1..]) by {
        forall i | 0 <= i < |s[1..]| ensures s[1..][i] as int < 0x80 {
          assert s[1..][i] == s[i + 1];
        }
      }
      AsciiEncodesAsCodes(s[1..]);
    }
  }

  /** A concrete witness of the mismatch: "é" is one UTF-16 unit but two UTF-8 bytes. */
  lemma NonAsciiMismatch()
    ensures Utf16Length("é") == 1 && |Utf8Encode("é")| == 2
  {
    assert "é"[1..] == "";
  }
}
