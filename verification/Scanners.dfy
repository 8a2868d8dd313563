/** The scanning loops of the tokenizer, each proved to compute its function in Tokenizer. */
module Scanners {
  import opened Bytes
  import opened Tokenizer

  method ScanRun(s: bytes, i: nat, k: Class) returns (e: nat)
    requires i <= |s|
    ensures e == RunEnd(s, i, k)
  {
    e := i;
    while e < |s| && InClass(k, s[e])
      invariant e <= |s| && RunEnd(s, e, k) == RunEnd(s, i, k)
    {
      e := e + 1;
    }
  }

  method ScanDigits(s: bytes, i: nat, k: Class) returns (e: nat)
    requires i <= |s|
    ensures e == DigitsEnd(s, i, k)
  {
    e := i;
    while e < |s|
      invariant e <= |s| && DigitsEnd(s, e, k) == DigitsEnd(s, i, k)
    {
      if InClass(k, s[e]) {
        e := e + 1;
      } else if s[e] == UNDERSCORE && ClassAt(s, e - 1, k) && ClassAt(s, e + 1, k) {
        e := e + 1;
      } else {
        return;
      }
    }
  }

  method ScanWord(s: bytes, i: nat) returns (e: nat)
    requires i <= |s|
    ensures e == WordEnd(s, i)
  {
    e := i;
    while e < |s|
      invariant e <= |s| && WordEnd(s, e) == WordEnd(s, i)
    {
      if IsWordByte(s[e]) || s[e] == DOLLAR {
        e := e + 1;
      } else if s[e] == DOT && ClassAt(s, e + 1, WordByte) {
        e := e + 2;
      } else {
        return;
      }
    }
  }

  method ScanQuoted(s: bytes, i: nat, q: byte, backslash: bool) returns (e: nat)
    ensures e == QuotedEnd(s, i, q, backslash)
  {
    var k := i;
    while k < |s|
      invariant QuotedEnd(s, k, q, backslash) == QuotedEnd(s, i, q, backslash)
      decreases |s| - k
    {
      if backslash && s[k] == BACKSLASH {
        k := k + 2;
      } else if s[k] == q {
        if k + 1 < |s| && s[k + 1] == q {
          k := k + 2;
          continue;
        }
        return k + 1;
      } else {
        k := k + 1;
      }
    }
    e := |s|;
  }

  method ScanGuillemets(s: bytes, i: nat) returns (e: nat)
    requires i + 1 < |s|
    ensures e == GuillemetEnd(s, i + 2, if s[i + 1] == 0xAB then 0xBB else 0xAB)
  {
    var closing: byte := 0xAB;
    if s[i + 1] == 0xAB {
      closing := 0xBB;
    }
    var k := i + 2;
    while k + 1 < |s|
      invariant k <= |s| && GuillemetEnd(s, k, closing) == GuillemetEnd(s, i + 2, closing)
    {
      if s[k] == 0xC2 && s[k + 1] == closing {
        return k + 2;
      }
      k := k + 1;
    }
    e := |s|;
  }

  method ScanBlockComment(s: bytes, start: nat) returns (e: nat)
    requires start <= |s|
    ensures e == CommentEnd(s, start, 1)
  {
    var depth, i := 1, start;
    while i + 1 < |s|
      invariant i <= |s| && depth >= 1 && CommentEnd(s, i, depth) == CommentEnd(s, start, 1)
      decreases |s| - i
    {
      if s[i] == SLASH && s[i + 1] == STAR {
        depth, i := depth + 1, i + 2;
      } else if s[i] == STAR && s[i + 1] == SLASH {
        depth, i := depth - 1, i + 2;
        if depth == 0 {
          return i;
        }
      } else {
        i := i + 1;
      }
    }
    e := |s|;
  }

  method ScanLineComment(s: bytes, i: nat) returns (e: nat)
    requires i <= |s|
    ensures e == LineCommentEnd(s, i)
  {
    e := i;
    while e < |s| && s[e] != LF && s[e] != CR
      invariant e <= |s| && LineCommentEnd(s, e) == LineCommentEnd(s, i)
    {
      e := e + 1;
    }
  }

  method MayBeSigned(s: bytes, i: nat, stmt: bool) returns (allowed: bool)
    requires i < |s|
    ensures allowed == SignAllowed(s, i, stmt)
  {
    var j := i - 1;
    if j >= 0 && IsBlank(s[j]) && !stmt {
      return true;
    }
    while j >= 0 && IsBlank(s[j])
      invariant -1 <= j < |s| && BackOverBlanks(s, j) == BackOverBlanks(s, i - 1)
    {
      j := j - 1;
    }
    if j < 0 {
      return true;
    }
    allowed := !(s[j] in {RPAREN, RBRACKET, QUOTE, APOSTROPHE, DOLLAR} || IsWordByte(s[j]));
  }

  method ScanHexRun(s: bytes, i: nat) returns (e: nat)
    requires i <= |s|
    ensures e == HexRun(s, i, 9)
  {
    e := i;
    while e < |s| && e - i < 9 && InClass(HexDigit, s[e])
      invariant i <= e <= |s| && e - i <= 9 && HexRun(s, e, 9 - (e - i)) == HexRun(s, i, 9)
    {
      e := e + 1;
    }
  }

  method ScanLSN(s: bytes, i: nat) returns (end: nat)
    requires i <= |s|
    ensures end == LsnEnd(s, i)
  {
    var j := ScanHexRun(s, i);
    if j == i || j - i > 8 || j >= |s| || s[j] != SLASH {
      return 0;
    }
    var k := ScanHexRun(s, j + 1);
    if k == j + 1 || k - j - 1 > 8 || ContinuesWord(s, k) || (k < |s| && s[k] == SLASH) {
      return 0;
    }
    end := k;
  }

  method ScanDecimalEnd(s: bytes, start: nat) returns (i: nat)
    requires NumberAt(s, start)
    ensures i == DecimalEnd(s, start)
  {
    i := ScanDigits(s, start, Digit);
    if i + 1 < |s| && s[i] == DOT && IsDigit(s[i + 1]) {
      i := ScanDigits(s, i + 1, Digit);
    }
    if i + 1 < |s| && (s[i] == 101 || s[i] == 69) {
      var j := i + 1;
      if j < |s| && (s[j] == PLUS || s[j] == MINUS) {
        j := j + 1;
      }
      if j < |s| && IsDigit(s[j]) {
        i := ScanDigits(s, j, Digit);
      }
    }
  }

  method ScanDecimal(s: bytes, start: nat, signed: bool, stmt: bool) returns (t: Token)
    requires start < |s| && NumberAt(s, if signed then start + 1 else start)
    ensures t == DecimalToken(s, start, signed, stmt)
  {
    var i := ScanDecimalEnd(s, if signed then start + 1 else start);
    t := ScanUnit(s, start, i, signed, stmt);
  }

  /** What follows the digits of a number, which end at i. */
  method ScanUnit(s: bytes, start: nat, i: nat, signed: bool, stmt: bool) returns (t: Token)
    requires start < i <= |s| && (signed || ContinuesWord(s, start))
    ensures t == WithUnit(s, start, i, signed, stmt)
  {
    if i < |s| && s[i] == PERCENT {
      return Token(Number, i + 1);
    }
    if i < |s| && IsWordByte(s[i]) {
      var j := ScanRun(s, i, WordByte);
      if IsUnit(s[i..j]) && !ContinuesWord(s, j) {
        return Token(Number, j);
      }
      if signed {
        return Token(Punct, start + 1);
      }
      var e := ScanWord(s, start);
      return Token(Word, e);
    }
    if !stmt && i + 1 < |s| && s[i] == SPACE && IsWordByte(s[i + 1]) {
      var j := ScanRun(s, i + 1, WordByte);
      if IsUnit(s[i + 1..j]) && !ContinuesWord(s, j) {
        return Token(Number, j);
      }
    }
    t := Token(Number, i);
  }

  method ScanNumeric(s: bytes, start: nat, stmt: bool) returns (t: Token)
    requires start < |s|
    requires NumberAt(s, if s[start] == PLUS || s[start] == MINUS then start + 1 else start)
    ensures t == NumericToken(s, start, stmt)
  {
    var signed := s[start] == PLUS || s[start] == MINUS;
    if !signed {
      var radix := Radix(s, start);
      if radix.Some? {
        var j := ScanDigits(s, start + 2, radix.value);
        if !ContinuesWord(s, j) {
          return Token(Hex, j);
        }
        var e := ScanWord(s, start);
        return Token(Word, e);
      }
      if !stmt {
        var end := ScanLSN(s, start);
        if end > 0 {
          return Token(Hex, end);
        }
      }
    }
    t := ScanDecimal(s, start, signed, stmt);
  }

  method ScanWordish(s: bytes, start: nat, stmt: bool) returns (t: Token)
    requires start < |s| && IsWordByte(s[start])
    ensures t == WordToken(s, start, stmt)
  {
    var c, e := s[start], 0;
    if c in {69, 101} {
      if stmt && At(s, start + 1, APOSTROPHE) {
        e := ScanQuoted(s, start + 2, APOSTROPHE, true);
        return Token(String, e);
      }
    } else if c in {66, 98, 88, 120, 78, 110} {
      if stmt && At(s, start + 1, APOSTROPHE) {
        e := ScanQuoted(s, start + 2, APOSTROPHE, false);
        return Token(String, e);
      }
    } else if c in {85, 117} {
      if stmt && At(s, start + 1, AMPERSAND) && At(s, start + 2, APOSTROPHE) {
        e := ScanQuoted(s, start + 3, APOSTROPHE, false);
        return Token(String, e);
      }
      if At(s, start + 1, AMPERSAND) && At(s, start + 2, QUOTE) {
        e := ScanQuoted(s, start + 3, QUOTE, false);
        return Token(Ident, e);
      }
    }
    if !stmt {
      e := ScanLSN(s, start);
      if e > 0 {
        return Token(Hex, e);
      }
    }
    e := ScanWord(s, start);
    t := Token(Word, e);
  }

  method IndexOfTag(s: bytes, from: nat, tag: bytes) returns (k: int)
    requires from <= |s|
    ensures k == Find(s, from, tag)
  {
    k := from;
    while k + |tag| <= |s|
      invariant from <= k <= |s| && Find(s, k, tag) == Find(s, from, tag)
    {
      if s[k..k + |tag|] == tag {
        return;
      }
      if k == |s| {
        return -1;
      }
      k := k + 1;
    }
    k := -1;
  }

  method ScanDollar(s: bytes, start: nat) returns (t: Token)
    requires start < |s|
    ensures t == DollarToken(s, start)
  {
    var j := start + 1;
    if j < |s| && IsDigit(s[j]) {
      j := ScanRun(s, j, Digit);
      return Token(Param, j);
    }
    if j < |s| && s[j] != DOLLAR {
      if IsDigit(s[j]) || !IsWordByte(s[j]) {
        return Token(Punct, j);
      }
      j := ScanRun(s, j, WordByte);
    }
    if j >= |s| || s[j] != DOLLAR {
      return Token(Punct, start + 1);
    }
    var open := j + 1;
    var tag := s[start..open];
    var k := IndexOfTag(s, open, tag);
    if k >= 0 {
      return Token(Dollar, k + |tag|);
    }
    t := Token(Dollar, |s|);
  }

  /** The token at pos. */
  method Next(s: bytes, pos: nat, stmt: bool) returns (t: Token)
    requires pos < |s|
    ensures t == TokenAt(s, pos, stmt)
  {
    var c, e := s[pos], pos + 1;
    if IsBlank(c) {
      e := ScanRun(s, pos + 1, Blank);
      return Token(Space, e);
    }
    if stmt && c == MINUS && At(s, pos + 1, MINUS) {
      e := ScanLineComment(s, pos + 2);
      return Token(Comment, e);
    }
    if stmt && c == SLASH && At(s, pos + 1, STAR) {
      e := ScanBlockComment(s, pos + 2);
      return Token(Comment, e);
    }
    if c == QUOTE {
      e := ScanQuoted(s, pos + 1, QUOTE, false);
      return Token(Ident, e);
    }
    if c == APOSTROPHE {
      if stmt || pos == 0 || !IsWordByte(s[pos - 1]) {
        e := ScanQuoted(s, pos + 1, APOSTROPHE, false);
        return Token(String, e);
      }
      return Token(Punct, pos + 1);
    }
    if c == DOLLAR {
      t := ScanDollar(s, pos);
      return;
    }
    var numeric := IsDigit(c) || (c == DOT && ClassAt(s, pos + 1, Digit) && !ClassAt(s, pos - 1, WordByte));
    if (c == PLUS || c == MINUS) && NumberAt(s, pos + 1) {
      numeric := MayBeSigned(s, pos, stmt);
    }
    if numeric {
      t := ScanNumeric(s, pos, stmt);
      return;
    }
    if c == 0xC2 && (At(s, pos + 1, 0xBB) || At(s, pos + 1, 0xAB)) {
      e := ScanGuillemets(s, pos);
      return Token(Ident, e);
    }
    if IsWordByte(c) {
      t := ScanWordish(s, pos, stmt);
      return;
    }
    t := Token(Punct, pos + 1);
  }
}
