/**
 * The escapes of jsonlog by the bytes they are written with: the short ones, the hexadecimal ones in
 * either case, and what is no escape.
 */
module Escapes {
  import opened Bytes
  import opened Unescaping
  import opened Utf8
  import Jsonlog

  lemma ShortEscape(b: bytes, rest: bytes)
    requires |b| == 2 && b[0] == 92 && b[1] != 117
    ensures Unescaped(b + rest) == (if Simple(b[1]).Some? then [Simple(b[1]).value] else b) + Unescaped(rest)
  {
    var s := b + rest;
    assert s[2..] == rest && s[..2] == b && s[1] == b[1];
  }

  /** The eight short escapes, and the bytes they stand for. */
  lemma ShortEscapes(rest: bytes)
    ensures Unescaped([92, 34] + rest) == [34] + Unescaped(rest)
    ensures Unescaped([92, 92] + rest) == [92] + Unescaped(rest)
    ensures Unescaped([92, 47] + rest) == [47] + Unescaped(rest)
    ensures Unescaped([92, 98] + rest) == [8] + Unescaped(rest)
    ensures Unescaped([92, 102] + rest) == [12] + Unescaped(rest)
    ensures Unescaped([92, 110] + rest) == [10] + Unescaped(rest)
    ensures Unescaped([92, 114] + rest) == [13] + Unescaped(rest)
    ensures Unescaped([92, 116] + rest) == [9] + Unescaped(rest)
  {
    ShortEscape([92, 34], rest);
    ShortEscape([92, 92], rest);
    ShortEscape([92, 47], rest);
    ShortEscape([92, 98], rest);
    ShortEscape([92, 102], rest);
    ShortEscape([92, 110], rest);
    ShortEscape([92, 114], rest);
    ShortEscape([92, 116], rest);
  }

  /** A backslash before any other byte is no escape: both bytes stay. */
  lemma OthersStay(c: byte, rest: bytes)
    requires c !in {34, 92, 47, 98, 102, 110, 114, 116, 117}
    ensures Unescaped([92, c] + rest) == [92, c] + Unescaped(rest)
  {
    ShortEscape([92, c], rest);
  }

  /** Bytes other than the backslash stay, and so does a backslash at the end. */
  lemma PlainStays(c: byte, rest: bytes)
    requires c != 92 || rest == []
    ensures Unescaped([c] + rest) == [c] + Unescaped(rest)
  {
    assert ([c] + rest)[1..] == rest;
  }

  /** The escapes that the printer uses: five short ones, \u00XX for the other control bytes. */
  lemma PrintsEscapes(c: byte)
    ensures Jsonlog.EscapeByte(34) == [92, 34] && Jsonlog.EscapeByte(92) == [92, 92] && Jsonlog.EscapeByte(10) == [92, 110]
    ensures Jsonlog.EscapeByte(13) == [92, 114] && Jsonlog.EscapeByte(9) == [92, 116]
    ensures c >= 32 && c != 34 && c != 92 ==> Jsonlog.EscapeByte(c) == [c]
    ensures c < 32 && c != 10 && c != 13 && c != 9 ==> Jsonlog.EscapeByte(c) == [92, 117, 48, 48, HexDigit(c / 16), HexDigit(c % 16)]
  {
  }

  // ----- Hexadecimal digits -----

  /** The digits in order. */
  const LOWER := "0123456789abcdef"
  const UPPER := "0123456789ABCDEF"

  lemma DigitValues(d: nat)
    requires d < 16
    ensures HexValue(LOWER[d] as int % 128) == d == HexValue(UPPER[d] as int % 128) && HexDigit(d) == LOWER[d] as int % 128
  {
  }

  lemma NoDigit(c: byte)
    ensures !IsHex(c) <==> (forall d | 0 <= d < 16 :: LOWER[d] as int != c && UPPER[d] as int != c)
  {
    if IsHex(c) {
      DigitValues(HexValue(c));
      assert LOWER[HexValue(c)] as int == c || UPPER[HexValue(c)] as int == c;
    } else {
      forall d | 0 <= d < 16
        ensures LOWER[d] as int != c && UPPER[d] as int != c
      {
        DigitValues(d);
      }
    }
  }

  /** The escape of four digits, each in either case, is that of the value they write. */
  lemma FourDigits(v: nat, b: bytes, rest: bytes)
    requires v < 0x10000 && |b| == 6 && b[0] == 92 && b[1] == 117
    requires HexValue(b[2]) == v / 0x1000 && HexValue(b[3]) == v / 0x100 % 0x10
    requires HexValue(b[4]) == v / 0x10 % 0x10 && HexValue(b[5]) == v % 0x10
    ensures Hex4(b + rest) == Some(v)
  {
    HexDigits(v);
    var s := b + rest;
    assert forall i | 0 <= i < 6 :: s[i] == b[i];
  }

  /** One escape for a character of the basic plane: é in upper case and in lower case. */
  lemma ResolvesAccent(rest: bytes)
    ensures Unescaped([92, 117, 48, 48, 101, 57] + rest) == [0xC3, 0xA9] + Unescaped(rest)
    ensures Unescaped([92, 117, 48, 48, 69, 57] + rest) == [0xC3, 0xA9] + Unescaped(rest)
  {
    OneUnit(0xE9, [92, 117, 48, 48, 101, 57], rest);
    OneUnit(0xE9, [92, 117, 48, 48, 69, 57], rest);
  }

  lemma OneUnit(v: nat, b: bytes, rest: bytes)
    requires v < 0xD800 && |b| == 6 && b[0] == 92 && b[1] == 117
    requires HexValue(b[2]) == v / 0x1000 && HexValue(b[3]) == v / 0x100 % 0x10
    requires HexValue(b[4]) == v / 0x10 % 0x10 && HexValue(b[5]) == v % 0x10
    ensures Unescaped(b + rest) == Encode(v) + Unescaped(rest)
  {
    FourDigits(v, b, rest);
    var s := b + rest;
    assert s[0] == 92 && s[1] == 117 && s[6..] == rest;
  }

  /** Two escapes for one character outside the basic plane, U+1F600. */
  lemma ResolvesPair(rest: bytes)
    ensures Unescaped([92, 117, 100, 56, 51, 100, 92, 117, 100, 101, 48, 48] + rest) == [0xF0, 0x9F, 0x98, 0x80] + Unescaped(rest)
  {
    var hi, lo := [92, 117, 100, 56, 51, 100], [92, 117, 100, 101, 48, 48];
    var s := hi + (lo + rest);
    FourDigits(0xD83D, hi, lo + rest);
    FourDigits(0xDE00, lo, rest);
    assert s[6..] == lo + rest && s[12..] == rest && s[0] == 92 && s[1] == 117;
    assert Encode(0x1F600) == [0xF0, 0x9F, 0x98, 0x80];
    assert [92, 117, 100, 56, 51, 100, 92, 117, 100, 101, 48, 48] + rest == s;
  }

  /** \u without four digits is no escape. */
  lemma NoDigitsStay(b: bytes)
    requires |b| >= 2 && b[0] == 92 && b[1] == 117
    requires |b| < 6 || !IsHex(b[2]) || !IsHex(b[3]) || !IsHex(b[4]) || !IsHex(b[5])
    ensures Unescaped(b) == [92, 117] + Unescaped(b[2..])
  {
  }

  // ----- Characters -----

  lemma TwoBytesDecode(s: bytes)
    requires CharLen(s) == 2
    ensures IsScalar(Decode(s)) && Encode(Decode(s)) == s[..2]
  {
  }

  lemma ThreeBytesDecode(s: bytes)
    requires CharLen(s) == 3
    ensures IsScalar(Decode(s)) && Encode(Decode(s)) == s[..3]
  {
    var a: int, b: int, c: int := s[0] - 0xE0, s[1] - 0x80, s[2] - 0x80;
    assert Decode(s) == a * 0x1000 + b * 0x40 + c;
  }

  lemma LastDigit(y: nat, d: nat)
    requires d < 0x40
    ensures (y * 0x40 + d) / 0x40 == y && (y * 0x40 + d) % 0x40 == d
  {
  }

  lemma FourDigitsOf(a: nat, b: nat, c: nat, d: nat, x: nat, y: nat, r: nat)
    requires b < 0x40 && c < 0x40 && d < 0x40 && x == a * 0x40 + b && y == x * 0x40 + c && r == y * 0x40 + d
    ensures r / 0x40000 == a && r / 0x1000 % 0x40 == b && r / 0x40 % 0x40 == c && r % 0x40 == d
  {
    LastDigit(y, d);
    LastDigit(x, c);
    LastDigit(a, b);
    Nested(r, y, x, a);
  }

  lemma Nested(r: nat, y: nat, x: nat, a: nat)
    requires r / 0x40 == y && y / 0x40 == x && x / 0x40 == a
    ensures r / 0x1000 == x && r / 0x40000 == a
  {
  }

  lemma FourBytesDecode(s: bytes)
    requires CharLen(s) == 4
    ensures IsScalar(Decode(s)) && Encode(Decode(s)) == s[..4]
  {
    var a: int, b: int, c: int, d: int := s[0] - 0xF0, s[1] - 0x80, s[2] - 0x80, s[3] - 0x80;
    var x := a * 0x40 + b;
    var y := x * 0x40 + c;
    assert Decode(s) == y * 0x40 + d;
    FourDigitsOf(a, b, c, d, x, y, Decode(s));
    assert 0x10000 <= Decode(s) <= 0x10FFFF;
  }

  /** A character is the encoding of the one scalar value it decodes to: no surrogate, and none spelled too long. */
  lemma CharIsEncoded(s: bytes)
    requires CharLen(s) > 0
    ensures IsScalar(Decode(s)) && Encode(Decode(s)) == s[..CharLen(s)]
  {
    if CharLen(s) == 2 {
      TwoBytesDecode(s);
    } else if CharLen(s) == 3 {
      ThreeBytesDecode(s);
    } else if CharLen(s) == 4 {
      FourBytesDecode(s);
    }
  }

  predicate AreScalars(rs: seq<int>) { rs == [] || (IsScalar(rs[0]) && AreScalars(rs[1..])) }

  /** The scalar values one after the other. */
  function Encoded(rs: seq<int>): bytes
    requires AreScalars(rs)
  {
    if rs == [] then [] else Encode(rs[0]) + Encoded(rs[1..])
  }

  /** Valid text is exactly what scalar values encode to. */
  lemma {:induction false} ValidIsEncoded(s: bytes) returns (rs: seq<int>)
    requires Valid(s)
    ensures AreScalars(rs) && Encoded(rs) == s
    decreases |s|
  {
    if s == [] {
      return [];
    }
    CharIsEncoded(s);
    var more := ValidIsEncoded(s[CharLen(s)..]);
    rs := [Decode(s)] + more;
    assert rs[1..] == more;
    assert s == s[..CharLen(s)] + s[CharLen(s)..];
  }

  lemma {:induction false} EncodedIsValid(rs: seq<int>)
    requires AreScalars(rs)
    ensures Valid(Encoded(rs))
  {
    if rs != [] {
      EncodedIsValid(rs[1..]);
      EncodeIsUtf8(rs[0]);
      ValidJoin(Encode(rs[0]), Encoded(rs[1..]));
    }
  }

  /** The encodings of one character of each length. */
  lemma EncodesExamples()
    ensures Encode(0x41) == [0x41] && Encode(0xE9) == [0xC3, 0xA9]
    ensures Encode(0x20AC) == [0xE2, 0x82, 0xAC] && Encode(0x1F600) == [0xF0, 0x9F, 0x98, 0x80]
  {
  }
}
