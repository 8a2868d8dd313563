/**
 * The escapes of jsonlog strings: how the printer writes them, and how the unquoter resolves them.
 * The rules are those of section 7 of RFC 8259, the encoding that of section 3 of RFC 3629.
 */
module Unescaping {
  import opened Bytes
  import opened Utf8

  const BACKSLASH: byte := 92
  const LOWER_U: byte := 117

  // ----- Characters -----

  predicate IsScalar(r: int) { 0 <= r < 0xD800 || 0xE000 <= r <= 0x10FFFF }

  /** The UTF-8 encoding of a scalar value. */
  function Encode(r: nat): (e: bytes)
    requires IsScalar(r)
    ensures 1 <= |e| <= 4
  {
    if r < 0x80 then [r]
    else if r < 0x800 then [0xC0 + r / 0x40, 0x80 + r % 0x40]
    else if r < 0x10000 then [0xE0 + r / 0x1000, 0x80 + r / 0x40 % 0x40, 0x80 + r % 0x40]
    else [0xF0 + r / 0x40000, 0x80 + r / 0x1000 % 0x40, 0x80 + r / 0x40 % 0x40, 0x80 + r % 0x40]
  }

  /** The bits of the byte at i that are left when its marker is taken away. */
  function Bits(s: bytes, i: nat, marker: nat): int
    requires i < |s|
  {
    s[i] - marker
  }

  /** The scalar value of the character that s starts with. */
  function Decode(s: bytes): int
    requires CharLen(s) > 0
  {
    match CharLen(s)
    case 1 => Bits(s, 0, 0)
    case 2 => Bits(s, 0, 0xC0) * 0x40 + Bits(s, 1, 0x80)
    case 3 => Bits(s, 0, 0xE0) * 0x1000 + Bits(s, 1, 0x80) * 0x40 + Bits(s, 2, 0x80)
    case _ => Bits(s, 0, 0xF0) * 0x40000 + Bits(s, 1, 0x80) * 0x1000 + Bits(s, 2, 0x80) * 0x40 + Bits(s, 3, 0x80)
  }

  lemma Digits64(r: nat)
    requires r < 0x110000
    ensures r == r / 0x40 * 0x40 + r % 0x40 && r / 0x40 == r / 0x1000 * 0x40 + r / 0x40 % 0x40
    ensures r / 0x1000 == r / 0x40000 * 0x40 + r / 0x1000 % 0x40
  {
  }

  /** What Encode writes is one character, the one it was given. */
  lemma EncodeIsUtf8(r: nat)
    requires IsScalar(r)
    ensures CharLen(Encode(r)) == |Encode(r)| && Decode(Encode(r)) == r && Valid(Encode(r))
  {
    Digits64(r);
    var e := Encode(r);
    if |e| == 3 {
      ThreeBytes(r);
    } else if |e| == 4 {
      FourBytes(r);
    }
    assert e[|e|..] == [];
  }

  lemma ThreeBytes(r: nat)
    requires IsScalar(r) && 0x800 <= r < 0x10000
    ensures CharLen(Encode(r)) == 3 == |Encode(r)|
  {
    var e := Encode(r);
    assert e[1] == 0x80 + r / 0x40 % 0x40;
  }

  lemma FourBytes(r: nat)
    requires IsScalar(r) && 0x10000 <= r
    ensures CharLen(Encode(r)) == 4 == |Encode(r)|
  {
    var e := Encode(r);
    assert e[1] == 0x80 + r / 0x1000 % 0x40;
  }

  // ----- Hexadecimal escapes -----

  function HexDigit(d: nat): byte
    requires d < 16
  {
    if d < 10 then 48 + d else 87 + d
  }

  /** The value of a hex digit in either case; 16 for any other byte. */
  function HexValue(c: byte): (d: nat)
    ensures d <= 16
  {
    if IsDigit(c) then c - 48
    else if 97 <= c <= 102 then c - 87
    else if 65 <= c <= 70 then c - 55
    else 16
  }

  predicate IsHex(c: byte) { HexValue(c) < 16 }

  /** The value of the four hex digits of the escape that b starts with. */
  function Hex4(b: bytes): (v: Option<nat>)
    ensures v.Some? ==> |b| >= 6 && v.value < 0x10000
  {
    if |b| >= 6 && b[0] == BACKSLASH && b[1] == LOWER_U && IsHex(b[2]) && IsHex(b[3]) && IsHex(b[4]) && IsHex(b[5]) then
      Some(HexValue(b[2]) * 0x1000 + HexValue(b[3]) * 0x100 + HexValue(b[4]) * 0x10 + HexValue(b[5]))
    else None
  }

  method ScanHex4(b: bytes) returns (v: nat, ok: bool)
    ensures if ok then Hex4(b) == Some(v) else Hex4(b).None?
  {
    if |b| < 6 || b[0] != BACKSLASH || b[1] != LOWER_U {
      return 0, false;
    }
    v, ok := 0, true;
    var i := 2;
    while i < 6
      invariant 2 <= i <= 6 && forall k | 2 <= k < i :: IsHex(b[k])
      invariant i == 2 ==> v == 0
      invariant i == 3 ==> v == HexValue(b[2])
      invariant i == 4 ==> v == HexValue(b[2]) * 0x10 + HexValue(b[3])
      invariant i == 5 ==> v == HexValue(b[2]) * 0x100 + HexValue(b[3]) * 0x10 + HexValue(b[4])
      invariant i == 6 ==> v == HexValue(b[2]) * 0x1000 + HexValue(b[3]) * 0x100 + HexValue(b[4]) * 0x10 + HexValue(b[5])
    {
      var d := HexValue(b[i]);
      if d == 16 {
        return 0, false;
      }
      v := v * 16 + d;
      i := i + 1;
    }
  }

  /** A character that an escape stands for, and how many bytes the escape takes. */
  datatype Rune = NoRune | Rune(code: nat, len: nat)

  const REPLACEMENT: nat := 0xFFFD

  predicate IsHigh(v: nat) { 0xD800 <= v <= 0xDBFF }

  predicate IsLow(v: nat) { 0xDC00 <= v <= 0xDFFF }

  /** The escape that b starts with; a pair of surrogates is one character, a lone one none. */
  function UnicodeEscape(b: bytes): (r: Rune)
    ensures r.Rune? ==> IsScalar(r.code) && 6 <= r.len <= |b| && |Encode(r.code)| < r.len
  {
    var hi := Hex4(b);
    if hi.None? then NoRune
    else
      var lo := if IsHigh(hi.value) && |b| >= 12 then Hex4(b[6..]) else None;
      if lo.Some? && IsLow(lo.value) then Rune(0x10000 + (hi.value - 0xD800) * 0x400 + (lo.value - 0xDC00), 12)
      else if IsHigh(hi.value) || IsLow(hi.value) then Rune(REPLACEMENT, 6)
      else Rune(hi.value, 6)
  }

  method DecodeEscape(b: bytes) returns (r: Rune)
    ensures r == UnicodeEscape(b)
  {
    var hi, ok := ScanHex4(b);
    if !ok {
      return NoRune;
    }
    if 0xD800 <= hi <= 0xDBFF && |b| >= 12 && b[6] == BACKSLASH && b[7] == LOWER_U {
      var lo, low := ScanHex4(b[6..]);
      if low && 0xDC00 <= lo <= 0xDFFF {
        return Rune(0x10000 + (hi - 0xD800) * 0x400 + (lo - 0xDC00), 12);
      }
    }
    r := Rune(if 0xD800 <= hi <= 0xDFFF then REPLACEMENT else hi, 6);
  }

  // ----- Unquoting -----

  /** What a two-byte escape stands for; None for \u and for what is no escape. */
  function Simple(c: byte): Option<byte> {
    if c == QUOTE || c == BACKSLASH || c == 47 then Some(c)
    else if c == 98 then Some(8)
    else if c == 102 then Some(12)
    else if c == 110 then Some(LF)
    else if c == 114 then Some(CR)
    else if c == 116 then Some(TAB)
    else None
  }

  /** A string without its escapes. What is no escape stays as it is. */
  function Unescaped(src: bytes): (t: bytes)
    ensures |t| <= |src|
    decreases |src|
  {
    if src == [] then []
    else if src[0] != BACKSLASH || |src| == 1 then [src[0]] + Unescaped(src[1..])
    else if Simple(src[1]).Some? then [Simple(src[1]).value] + Unescaped(src[2..])
    else
      var r := if src[1] == LOWER_U then UnicodeEscape(src) else NoRune;
      if r.Rune? then Encode(r.code) + Unescaped(src[r.len..])
      else src[..2] + Unescaped(src[2..])
  }

  /** One step of the loop: the text that the start of rest stands for, and how long that start is. */
  method UnescapeOne(rest: bytes) returns (text: bytes, n: nat)
    requires rest != []
    ensures 0 < n <= |rest| && Unescaped(rest) == text + Unescaped(rest[n..])
  {
    if rest[0] != BACKSLASH || |rest| == 1 {
      return [rest[0]], 1;
    }
    if Simple(rest[1]).Some? {
      return [Simple(rest[1]).value], 2;
    }
    if rest[1] == LOWER_U {
      var rune := DecodeEscape(rest);
      if rune.Rune? {
        return Encode(rune.code), rune.len;
      }
    }
    text, n := rest[..2], 2;
  }

  lemma Regroup(r: bytes, text: bytes, todo: bytes)
    ensures r + (text + todo) == r + text + todo
  {
  }

  method AppendUnescaped(dst: bytes, src: bytes) returns (r: bytes)
    ensures r == dst + Unescaped(src)
  {
    r := dst;
    var i := 0;
    ghost var todo := Unescaped(src);
    assert src[0..] == src;
    while i < |src|
      invariant 0 <= i <= |src| && todo == Unescaped(src[i..]) && r + todo == dst + Unescaped(src)
    {
      var text, n := UnescapeOne(src[i..]);
      assert src[i..][n..] == src[i + n..];
      Regroup(r, text, Unescaped(src[i + n..]));
      r, i, todo := r + text, i + n, Unescaped(src[i + n..]);
    }
    assert src[i..] == [] && r + [] == r;
  }

  // ----- Escapes of characters -----

  function FourHex(v: nat): bytes
    requires v < 0x10000
  {
    [HexDigit(v / 0x1000), HexDigit(v / 0x100 % 0x10), HexDigit(v / 0x10 % 0x10), HexDigit(v % 0x10)]
  }

  function EscapeUnit(v: nat): (e: bytes)
    requires v < 0x10000
    ensures |e| == 6
  {
    [BACKSLASH, LOWER_U] + FourHex(v)
  }

  /** The escape of any scalar value: one unit, or a pair of surrogates outside the basic plane. */
  function EscapeScalar(r: nat): bytes
    requires IsScalar(r)
  {
    if r < 0x10000 then EscapeUnit(r)
    else EscapeUnit(0xD800 + (r - 0x10000) / 0x400) + EscapeUnit(0xDC00 + (r - 0x10000) % 0x400)
  }

  lemma HexDigits(v: nat)
    requires v < 0x10000
    ensures v == v / 0x1000 * 0x1000 + v / 0x100 % 0x10 * 0x100 + v / 0x10 % 0x10 * 0x10 + v % 0x10
  {
    assert v / 0x10 == v / 0x100 * 0x10 + v / 0x10 % 0x10;
    assert v / 0x100 == v / 0x1000 * 0x10 + v / 0x100 % 0x10;
  }

  lemma UnitIsRead(v: nat, rest: bytes)
    requires v < 0x10000
    ensures Hex4(EscapeUnit(v) + rest) == Some(v)
  {
    HexDigits(v);
    var b := EscapeUnit(v) + rest;
    assert b[2] == HexDigit(v / 0x1000) && b[3] == HexDigit(v / 0x100 % 0x10);
    assert b[4] == HexDigit(v / 0x10 % 0x10) && b[5] == HexDigit(v % 0x10);
  }

  /** The escape of a scalar value resolves to its UTF-8 encoding, whatever follows it. */
  lemma EscapeResolves(r: nat, rest: bytes)
    requires IsScalar(r)
    ensures Unescaped(EscapeScalar(r) + rest) == Encode(r) + Unescaped(rest)
  {
    var b := EscapeScalar(r) + rest;
    if r < 0x10000 {
      UnitIsRead(r, rest);
      assert b[6..] == rest;
    } else {
      PairIsRead(r, rest);
      assert b[12..] == rest;
    }
    assert b[0] == BACKSLASH && b[1] == LOWER_U;
  }

  /** A surrogate pair is read as the one character it stands for. */
  lemma PairIsRead(r: nat, rest: bytes)
    requires IsScalar(r) && r >= 0x10000
    ensures UnicodeEscape(EscapeScalar(r) + rest) == Rune(r, 12)
  {
    var b := EscapeScalar(r) + rest;
    var hi, lo := 0xD800 + (r - 0x10000) / 0x400, 0xDC00 + (r - 0x10000) % 0x400;
    assert b == EscapeUnit(hi) + (EscapeUnit(lo) + rest);
    UnitIsRead(hi, EscapeUnit(lo) + rest);
    UnitIsRead(lo, rest);
    assert b[6..] == EscapeUnit(lo) + rest;
  }

  /** A surrogate that is not the first of a pair stands for the replacement character. */
  lemma LoneSurrogate(v: nat, rest: bytes)
    requires IsHigh(v) || IsLow(v)
    requires !(IsHigh(v) && Hex4(rest).Some? && IsLow(Hex4(rest).value))
    ensures Unescaped(EscapeUnit(v) + rest) == Encode(REPLACEMENT) + Unescaped(rest)
  {
    var b := EscapeUnit(v) + rest;
    UnitIsRead(v, rest);
    assert b[6..] == rest && b[0] == BACKSLASH && b[1] == LOWER_U;
  }

  // ----- Valid text stays valid -----

  lemma CopiesBytes(src: bytes, n: nat)
    requires n <= |src| && forall i | 0 <= i < n :: src[i] >= 0x80
    ensures Unescaped(src) == src[..n] + Unescaped(src[n..])
    decreases n
  {
    if n > 0 {
      CopiesBytes(src[1..], n - 1);
      assert src[1..][n - 1..] == src[n..] && src[..n] == [src[0]] + src[1..][..n - 1];
    } else {
      assert src[..0] == [] && src[0..] == src;
    }
  }

  lemma CopiesChar(src: bytes)
    requires CharLen(src) > 0 && src[0] >= 0x80
    ensures Unescaped(src) == src[..CharLen(src)] + Unescaped(src[CharLen(src)..])
  {
    forall i | 0 < i < CharLen(src)
      ensures src[i] >= 0x80
    {
      InsideChar(src, i);
    }
    CopiesBytes(src, CharLen(src));
  }

  /** Resolving the escapes of valid UTF-8 gives valid UTF-8, lone surrogates and broken escapes included. */
  lemma {:induction false} UnescapedIsValid(src: bytes)
    requires Valid(src)
    ensures Valid(Unescaped(src))
    decreases |src|
  {
    if src == [] {
    } else if src[0] >= 0x80 {
      var n := CharLen(src);
      CopiesChar(src);
      UnescapedIsValid(src[n..]);
      ValidCut(src, n) by { FirstIsNoTail(src[n..]); }
      ValidJoin(src[..n], Unescaped(src[n..]));
    } else {
      FirstIsNoTail(src[1..]);
      UnescapedIsValid(src[1..]);
      AsciiIsValid([src[0]]);
      ValidJoin([src[0]], Unescaped(src[1..]));
      if src[0] == BACKSLASH && |src| > 1 {
        EscapeIsValid(src);
      }
    }
  }

  lemma {:induction false} EscapeIsValid(src: bytes)
    requires Valid(src) && |src| > 1 && src[0] == BACKSLASH
    requires Valid([BACKSLASH] + Unescaped(src[1..]))
    ensures Valid(Unescaped(src))
    decreases |src|, 0
  {
    var c, r := src[1], if src[1] == LOWER_U then UnicodeEscape(src) else NoRune;
    if Simple(c).Some? {
      ValidCut(src, 2) by { EdgeBehind(src, 2); }
      UnescapedIsValid(src[2..]);
      SimpleIsValid(src);
    } else if r.Rune? {
      EscapeEndsOnEdge(src);
      ValidCut(src, r.len);
      UnescapedIsValid(src[r.len..]);
      RuneIsValid(src, r);
    } else {
      NoEscape(src);
    }
  }

  lemma SimpleIsValid(src: bytes)
    requires |src| > 1 && src[0] == BACKSLASH && Simple(src[1]).Some? && Valid(Unescaped(src[2..]))
    ensures Valid(Unescaped(src))
  {
    AsciiIsValid([Simple(src[1]).value]);
    ValidJoin([Simple(src[1]).value], Unescaped(src[2..]));
  }

  lemma RuneIsValid(src: bytes, r: Rune)
    requires |src| > 1 && src[0] == BACKSLASH && src[1] == LOWER_U && r == UnicodeEscape(src) && r.Rune?
    requires Valid(Unescaped(src[r.len..]))
    ensures Valid(Unescaped(src))
  {
    EncodeIsUtf8(r.code);
    ValidJoin(Encode(r.code), Unescaped(src[r.len..]));
  }

  /** A backslash that starts no escape stays. */
  lemma NoEscape(src: bytes)
    requires |src| > 1 && src[0] == BACKSLASH && Simple(src[1]).None?
    requires src[1] == LOWER_U ==> UnicodeEscape(src).NoRune?
    ensures Unescaped(src) == [BACKSLASH] + Unescaped(src[1..])
  {
    assert src[1..][0] == src[1] && src[1..][1..] == src[2..];
    assert src[..2] == [BACKSLASH] + [src[1]];
  }

  lemma EscapeEndsOnEdge(src: bytes)
    requires Valid(src) && UnicodeEscape(src).Rune?
    ensures IsEdge(src, UnicodeEscape(src).len)
  {
    var n := UnicodeEscape(src).len;
    assert IsHex(src[n - 1]) by {
      if n == 12 {
        assert src[6..][5] == src[11];
      }
    }
    EdgeBehind(src, n);
  }
}
