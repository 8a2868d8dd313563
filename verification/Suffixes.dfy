/**
 * What the tokenizer sees of the text before a token: only whether a sign may stand there and
 * whether a word ends there. Behind texts that agree on that, equal statements read the same.
 */
module Suffixes {
  import opened Bytes
  import opened Tokenizer
  import opened Rules
  import opened Masking

  lemma RunShift(s: bytes, o: nat, i: nat, k: Class)
    requires o + i <= |s|
    ensures RunEnd(s, o + i, k) == o + RunEnd(s[o..], i, k)
    decreases |s| - i
  {
  }

  lemma DigitsShift(s: bytes, o: nat, i: nat, k: Class)
    requires o + i <= |s| && (0 < i || !At(s, o + i, UNDERSCORE))
    ensures DigitsEnd(s, o + i, k) == o + DigitsEnd(s[o..], i, k)
    decreases |s| - i
  {
    var r := s[o..];
    assert ClassAt(s, o + i, k) == ClassAt(r, i, k) && At(s, o + i, UNDERSCORE) == At(r, i, UNDERSCORE);
    assert i > 0 ==> ClassAt(s, o + i - 1, k) == ClassAt(r, i - 1, k);
    assert ClassAt(s, o + i + 1, k) == ClassAt(r, i + 1, k);
    if o + i < |s| {
      DigitsShift(s, o, i + 1, k);
    }
  }

  lemma WordShift(s: bytes, o: nat, i: nat)
    requires o + i <= |s|
    ensures WordEnd(s, o + i) == o + WordEnd(s[o..], i) && ContinuesWord(s, o + i) == ContinuesWord(s[o..], i)
    decreases |s| - i
  {
  }

  lemma QuotedShift(s: bytes, o: nat, i: nat, q: byte, backslash: bool)
    requires o <= |s|
    ensures QuotedEnd(s, o + i, q, backslash) == o + QuotedEnd(s[o..], i, q, backslash)
    decreases |s| - o - i
  {
  }

  lemma GuillemetShift(s: bytes, o: nat, i: nat, closing: byte)
    requires o + i <= |s|
    ensures GuillemetEnd(s, o + i, closing) == o + GuillemetEnd(s[o..], i, closing)
    decreases |s| - i
  {
  }

  lemma CommentShift(s: bytes, o: nat, i: nat, depth: nat)
    requires o + i <= |s|
    ensures CommentEnd(s, o + i, depth) == o + CommentEnd(s[o..], i, depth)
    decreases |s| - i
  {
  }

  lemma LineCommentShift(s: bytes, o: nat, i: nat)
    requires o + i <= |s|
    ensures LineCommentEnd(s, o + i) == o + LineCommentEnd(s[o..], i)
    decreases |s| - i
  {
  }

  lemma FindShift(s: bytes, o: nat, i: nat, tag: bytes)
    requires o + i <= |s|
    ensures Find(s, o + i, tag) == if Find(s[o..], i, tag) < 0 then -1 else o + Find(s[o..], i, tag)
    decreases |s| - i
  {
    if o + i + |tag| <= |s| {
      assert s[o + i..o + i + |tag|] == s[o..][i..i + |tag|];
    }
  }

  lemma BlanksShift(s: bytes, o: nat, j: nat)
    requires o + j < |s| && !IsBlank(s[o])
    ensures BackOverBlanks(s, o + j) == o + BackOverBlanks(s[o..], j) && BackOverBlanks(s[o..], j) >= 0
    decreases j
  {
  }

  function Moved(t: Token, o: nat): Token { t.(end := o + t.end) }

  lemma FractionShift(s: bytes, o: nat, a: nat)
    requires o + a <= |s|
    ensures FractionEnd(s, o + a) == o + FractionEnd(s[o..], a)
  {
    if At(s[o..], a, DOT) && ClassAt(s[o..], a + 1, Digit) {
      DigitsShift(s, o, a + 1, Digit);
    }
  }

  lemma ExponentShift(s: bytes, o: nat, b: nat)
    requires o + b <= |s|
    ensures ExponentEnd(s, o + b) == o + ExponentEnd(s[o..], b)
  {
    var r := s[o..];
    var j := if At(r, b + 1, PLUS) || At(r, b + 1, MINUS) then b + 2 else b + 1;
    if ClassAt(r, j, Digit) {
      DigitsShift(s, o, j, Digit);
    }
  }

  lemma DecimalShift(s: bytes, o: nat, i: nat)
    requires o + i <= |s| && (0 < i || !At(s, o + i, UNDERSCORE))
    ensures NumberAt(s, o + i) == NumberAt(s[o..], i)
    ensures NumberAt(s, o + i) ==> DecimalEnd(s, o + i) == o + DecimalEnd(s[o..], i)
  {
    DigitsShift(s, o, i, Digit);
    var a := DigitsEnd(s[o..], i, Digit);
    FractionShift(s, o, a);
    ExponentShift(s, o, FractionEnd(s[o..], a));
  }

  /** The word at i, if it is a unit, belongs to the number. */
  lemma UnitOfWord(s: bytes, start: nat, i: nat, signed: bool, stmt: bool, j: nat)
    requires start < i <= |s| && (signed || ContinuesWord(s, start)) && ClassAt(s, i, WordByte) && j == RunEnd(s, i, WordByte)
    ensures WithUnit(s, start, i, signed, stmt) ==
      if IsUnit(s[i..j]) && !ContinuesWord(s, j) then Token(Number, j)
      else if signed then Token(Punct, start + 1)
      else Token(Word, WordEnd(s, start))
  {
  }

  /** So does one behind a single space, in a message. */
  lemma UnitBehindSpace(s: bytes, start: nat, i: nat, signed: bool, j: nat)
    requires start < i <= |s| && (signed || ContinuesWord(s, start)) && At(s, i, SPACE) && ClassAt(s, i + 1, WordByte)
    requires j == RunEnd(s, i + 1, WordByte)
    ensures WithUnit(s, start, i, signed, false) ==
      Token(Number, if IsUnit(s[i + 1..j]) && !ContinuesWord(s, j) then j else i)
  {
  }

  lemma NoUnit(s: bytes, start: nat, i: nat, signed: bool, stmt: bool)
    requires start < i <= |s| && (signed || ContinuesWord(s, start)) && !ClassAt(s, i, WordByte)
    requires stmt || !At(s, i, SPACE) || !ClassAt(s, i + 1, WordByte)
    ensures WithUnit(s, start, i, signed, stmt) == Token(Number, if At(s, i, PERCENT) then i + 1 else i)
  {
  }

  lemma UnitShift(s: bytes, o: nat, start: nat, i: nat, signed: bool, stmt: bool)
    requires start < i && o + i <= |s| && (signed || ContinuesWord(s[o..], start))
    ensures signed || ContinuesWord(s, o + start)
    ensures WithUnit(s, o + start, o + i, signed, stmt) == Moved(WithUnit(s[o..], start, i, signed, stmt), o)
  {
    WordShift(s, o, start);
    UnitEndShift(s, s[o..], o, start, i, signed, stmt);
  }

  predicate BothUnits(s: bytes, a: nat, r: bytes, b: nat, signed: bool) {
    a < |s| && b < |r| && (signed || (ContinuesWord(s, a) && ContinuesWord(r, b)))
  }

  lemma UnitEndShift(s: bytes, r: bytes, o: nat, start: nat, i: nat, signed: bool, stmt: bool)
    requires start < i && o + i <= |s| && r == s[o..] && BothUnits(s, o + start, r, start, signed)
    requires WordEnd(s, o + start) == o + WordEnd(r, start)
    ensures WithUnit(s, o + start, o + i, signed, stmt) == Moved(WithUnit(r, start, i, signed, stmt), o)
  {
    HeadShift(s, o, i);
    if ClassAt(r, i, WordByte) {
      UnitWordShift(s, o, i);
      OneUnitShift(s, r, o, start, i, signed, stmt, RunEnd(r, i, WordByte));
    } else if !stmt && At(r, i, SPACE) && ClassAt(r, i + 1, WordByte) {
      HeadShift(s, o, i + 1);
      UnitWordShift(s, o, i + 1);
      SpacedUnitShift(s, r, o, start, i, signed, RunEnd(r, i + 1, WordByte));
    } else {
      if o + i < |s| {
        HeadShift(s, o, i + 1);
      }
      NoUnitShift(s, r, o, start, i, signed, stmt);
    }
  }

  lemma NoUnitShift(s: bytes, r: bytes, o: nat, start: nat, i: nat, signed: bool, stmt: bool)
    requires start < i <= |r| && o + i <= |s| && BothUnits(s, o + start, r, start, signed)
    requires !ClassAt(r, i, WordByte) && !ClassAt(s, o + i, WordByte) && At(r, i, PERCENT) == At(s, o + i, PERCENT)
    requires stmt || !At(r, i, SPACE) || !ClassAt(r, i + 1, WordByte)
    requires stmt || !At(s, o + i, SPACE) || !ClassAt(s, o + i + 1, WordByte)
    ensures WithUnit(s, o + start, o + i, signed, stmt) == Moved(WithUnit(r, start, i, signed, stmt), o)
  {
    NoUnit(r, start, i, signed, stmt);
    NoUnit(s, o + start, o + i, signed, stmt);
  }

  /** The token of a number with the word behind it, given what that word is. */
  function UnitToken(start: nat, wordEnd: nat, signed: bool, unit: bool, j: nat): Token {
    if unit then Token(Number, j) else if signed then Token(Punct, start + 1) else Token(Word, wordEnd)
  }

  lemma UnitIsToken(s: bytes, start: nat, i: nat, signed: bool, stmt: bool, j: nat, w: bytes, ends: bool)
    requires start < i <= j <= |s| && (signed || ContinuesWord(s, start)) && ClassAt(s, i, WordByte) && j == RunEnd(s, i, WordByte)
    requires w == s[i..j] && ends == !ContinuesWord(s, j)
    ensures WithUnit(s, start, i, signed, stmt) == UnitToken(start, WordEnd(s, start), signed, IsUnit(w) && ends, j)
  {
    UnitOfWord(s, start, i, signed, stmt, j);
  }

  lemma OneUnitShift(s: bytes, r: bytes, o: nat, start: nat, i: nat, signed: bool, stmt: bool, j: nat)
    requires start < i <= j && o + j <= |s| && j <= |r| && BothUnits(s, o + start, r, start, signed)
    requires WordEnd(s, o + start) == o + WordEnd(r, start)
    requires ClassAt(r, i, WordByte) && ClassAt(s, o + i, WordByte) && j == RunEnd(r, i, WordByte) && o + j == RunEnd(s, o + i, WordByte)
    requires s[o + i..o + j] == r[i..j] && ContinuesWord(s, o + j) == ContinuesWord(r, j)
    ensures WithUnit(s, o + start, o + i, signed, stmt) == Moved(WithUnit(r, start, i, signed, stmt), o)
  {
    var w, ends := r[i..j], !ContinuesWord(r, j);
    UnitIsToken(r, start, i, signed, stmt, j, w, ends);
    UnitIsToken(s, o + start, o + i, signed, stmt, o + j, w, ends);
  }

  lemma SpacedUnitShift(s: bytes, r: bytes, o: nat, start: nat, i: nat, signed: bool, j: nat)
    requires start < i < j && o + j <= |s| && j <= |r| && BothUnits(s, o + start, r, start, signed)
    requires At(r, i, SPACE) && At(s, o + i, SPACE) && ClassAt(r, i + 1, WordByte) && ClassAt(s, o + i + 1, WordByte)
    requires j == RunEnd(r, i + 1, WordByte) && o + j == RunEnd(s, o + i + 1, WordByte)
    requires s[o + i + 1..o + j] == r[i + 1..j] && ContinuesWord(s, o + j) == ContinuesWord(r, j)
    ensures WithUnit(s, o + start, o + i, signed, false) == Moved(WithUnit(r, start, i, signed, false), o)
  {
    UnitBehindSpace(r, start, i, signed, j);
    UnitBehindSpace(s, o + start, o + i, signed, o + j);
  }

  lemma UnitWordShift(s: bytes, o: nat, i: nat)
    requires o + i <= |s|
    ensures var j := RunEnd(s[o..], i, WordByte);
      RunEnd(s, o + i, WordByte) == o + j && s[o + i..o + j] == s[o..][i..j] && ContinuesWord(s, o + j) == ContinuesWord(s[o..], j)
  {
    RunShift(s, o, i, WordByte);
    WordShift(s, o, RunEnd(s[o..], i, WordByte));
  }

  lemma HexShift(s: bytes, o: nat, i: nat, left: nat)
    requires o + i <= |s|
    ensures HexRun(s, o + i, left) == o + HexRun(s[o..], i, left)
    decreases left
  {
  }

  lemma LsnHalfShift(s: bytes, o: nat, i: nat)
    requires o + i <= |s|
    ensures LsnHalf(s, o + i) == if LsnHalf(s[o..], i) == 0 then 0 else o + LsnHalf(s[o..], i)
  {
    HexShift(s, o, i, 9);
    WordShift(s, o, HexRun(s[o..], i, 9));
  }

  /** A sequence number, given where its first half ends. */
  lemma LsnIs(s: bytes, i: nat, j: nat)
    requires i <= |s| && j == HexRun(s, i, 9)
    ensures LsnEnd(s, i) == if j == i || j - i > 8 || !At(s, j, SLASH) then 0 else LsnHalf(s, j + 1)
  {
  }

  lemma LsnShift(s: bytes, o: nat, i: nat)
    requires o + i <= |s|
    ensures LsnEnd(s, o + i) == if LsnEnd(s[o..], i) == 0 then 0 else o + LsnEnd(s[o..], i)
  {
    HexShift(s, o, i, 9);
    LsnBehind(s, s[o..], o, i, o + i, HexRun(s[o..], i, 9), HexRun(s, o + i, 9));
  }

  lemma ByteShift(s: bytes, r: bytes, o: nat, j: nat, q: nat, c: byte)
    requires o <= |s| && r == s[o..] && q == o + j
    ensures At(s, q, c) == At(r, j, c)
  {
  }

  lemma LsnHalfAt(s: bytes, r: bytes, o: nat, j: nat, q: nat)
    requires q == o + j <= |s| && r == s[o..]
    ensures LsnHalf(s, q) == if LsnHalf(r, j) == 0 then 0 else o + LsnHalf(r, j)
  {
    LsnHalfShift(s, o, j);
  }

  lemma LsnBehind(s: bytes, r: bytes, o: nat, i: nat, p: nat, j: nat, q: nat)
    requires p == o + i <= |s| && r == s[o..] && j == HexRun(r, i, 9) && q == o + j == HexRun(s, p, 9)
    ensures LsnEnd(s, p) == if LsnEnd(r, i) == 0 then 0 else o + LsnEnd(r, i)
  {
    ByteShift(s, r, o, j, q, SLASH);
    if At(r, j, SLASH) {
      LsnHalfAt(s, r, o, j + 1, q + 1);
      LsnSame(s, p, q, LsnHalf(s, q + 1), r, i, j, LsnHalf(r, j + 1), o);
    } else {
      LsnIs(r, i, j);
      LsnIs(s, p, q);
    }
  }

  lemma LsnSame(s: bytes, p: nat, q: nat, e: nat, r: bytes, i: nat, j: nat, f: nat, o: nat)
    requires p <= |s| && i <= |r| && p == o + i && q == o + j && q == HexRun(s, p, 9) && j == HexRun(r, i, 9)
    requires At(s, q, SLASH) && At(r, j, SLASH) && e == LsnHalf(s, q + 1) && f == LsnHalf(r, j + 1) && e == if f == 0 then 0 else o + f
    ensures LsnEnd(s, p) == if LsnEnd(r, i) == 0 then 0 else o + LsnEnd(r, i)
  {
    LsnIs(r, i, j);
    LsnIs(s, p, q);
  }

  lemma SignedShift(s: bytes, o: nat, i: nat, stmt: bool)
    requires o + i < |s| && NumberAt(s, o + i + 1)
    ensures NumberAt(s[o..], i + 1) && DecimalToken(s, o + i, true, stmt) == Moved(DecimalToken(s[o..], i, true, stmt), o)
  {
    DecimalShift(s, o, i + 1);
    var e := DecimalEnd(s[o..], i + 1);
    UnitShift(s, o, i, e, true, stmt);
  }

  lemma UnsignedShift(s: bytes, o: nat, i: nat, stmt: bool)
    requires o + i < |s| && NumberAt(s, o + i)
    ensures NumberAt(s[o..], i) && DecimalToken(s, o + i, false, stmt) == Moved(DecimalToken(s[o..], i, false, stmt), o)
  {
    DecimalShift(s, o, i);
    var e := DecimalEnd(s[o..], i);
    UnitShift(s, o, i, e, false, stmt);
  }

  lemma RadixShift(s: bytes, o: nat, i: nat)
    requires o + i < |s| && Radix(s, o + i).Some?
    ensures Radix(s[o..], i) == Radix(s, o + i)
    ensures DigitsEnd(s, o + i + 2, Radix(s, o + i).value) == o + DigitsEnd(s[o..], i + 2, Radix(s, o + i).value)
    ensures var j := DigitsEnd(s[o..], i + 2, Radix(s, o + i).value); ContinuesWord(s, o + j) == ContinuesWord(s[o..], j)
    ensures WordEnd(s, o + i) == o + WordEnd(s[o..], i)
  {
    var k := Radix(s, o + i).value;
    DigitsShift(s, o, i + 2, k);
    WordShift(s, o, DigitsEnd(s[o..], i + 2, k));
    WordShift(s, o, i);
  }

  lemma SignedNumericShift(s: bytes, r: bytes, o: nat, i: nat, stmt: bool)
    requires o + i < |s| && r == s[o..] && r[i] == s[o + i] && (r[i] == PLUS || r[i] == MINUS) && NumberAt(s, o + i + 1)
    ensures NumberAt(r, i + 1) && NumericToken(s, o + i, stmt) == Moved(NumericToken(r, i, stmt), o)
  {
    SignedShift(s, o, i, stmt);
    SignedNumeric(r, i, stmt);
    SignedNumeric(s, o + i, stmt);
  }

  lemma RadixNumericShift(s: bytes, r: bytes, o: nat, i: nat, stmt: bool)
    requires o + i < |s| && r == s[o..] && r[i] == s[o + i] && r[i] != PLUS && r[i] != MINUS && NumberAt(s, o + i)
    requires Radix(s, o + i).Some?
    ensures NumberAt(r, i) && NumericToken(s, o + i, stmt) == Moved(NumericToken(r, i, stmt), o)
  {
    RadixShift(s, o, i);
    RadixNumeric(r, i, stmt, DigitsEnd(r, i + 2, Radix(r, i).value));
    RadixNumeric(s, o + i, stmt, o + DigitsEnd(r, i + 2, Radix(r, i).value));
  }

  lemma UnsignedNumericShift(s: bytes, r: bytes, o: nat, i: nat, stmt: bool)
    requires o + i < |s| && r == s[o..] && r[i] == s[o + i] && r[i] != PLUS && r[i] != MINUS && NumberAt(s, o + i)
    requires Radix(s, o + i).None? && Radix(r, i).None?
    ensures NumberAt(r, i) && NumericToken(s, o + i, stmt) == Moved(NumericToken(r, i, stmt), o)
  {
    UnsignedShift(s, o, i, stmt);
    LsnShift(s, o, i);
    UnsignedNumeric(r, i, stmt);
    UnsignedNumeric(s, o + i, stmt);
  }

  lemma NumericShift(s: bytes, o: nat, i: nat, stmt: bool)
    requires o + i < |s|
    requires NumberAt(s, if s[o + i] == PLUS || s[o + i] == MINUS then o + i + 1 else o + i)
    ensures NumberAt(s[o..], if s[o..][i] == PLUS || s[o..][i] == MINUS then i + 1 else i)
    ensures NumericToken(s, o + i, stmt) == Moved(NumericToken(s[o..], i, stmt), o)
  {
    var r := s[o..];
    assert s[o + i] == r[i];
    if s[o + i] == PLUS || s[o + i] == MINUS {
      SignedNumericShift(s, r, o, i, stmt);
    } else {
      SameRadix(s, r, o, i);
      if Radix(s, o + i).Some? {
        RadixNumericShift(s, r, o, i, stmt);
      } else {
        UnsignedNumericShift(s, r, o, i, stmt);
      }
    }
  }

  lemma SameRadix(s: bytes, r: bytes, o: nat, i: nat)
    requires o + i < |s| && r == s[o..]
    ensures Radix(r, i) == Radix(s, o + i)
  {
  }

  lemma SignedNumeric(s: bytes, i: nat, stmt: bool)
    requires i < |s| && (s[i] == PLUS || s[i] == MINUS) && NumberAt(s, i + 1)
    ensures NumericToken(s, i, stmt) == DecimalToken(s, i, true, stmt)
  {
  }

  lemma RadixNumeric(s: bytes, i: nat, stmt: bool, j: nat)
    requires i < |s| && s[i] != PLUS && s[i] != MINUS && NumberAt(s, i) && Radix(s, i).Some?
    requires i + 2 <= |s| && j == DigitsEnd(s, i + 2, Radix(s, i).value)
    ensures NumericToken(s, i, stmt) == if !ContinuesWord(s, j) then Token(Hex, j) else Token(Word, WordEnd(s, i))
  {
  }

  lemma UnsignedNumeric(s: bytes, i: nat, stmt: bool)
    requires i < |s| && s[i] != PLUS && s[i] != MINUS && NumberAt(s, i) && Radix(s, i).None?
    ensures NumericToken(s, i, stmt) == if !stmt && LsnEnd(s, i) > 0 then Token(Hex, LsnEnd(s, i)) else DecimalToken(s, i, false, stmt)
  {
  }

  lemma QuotePrefixShift(s: bytes, o: nat, i: nat, stmt: bool)
    requires o + i < |s|
    ensures QuotePrefix(s, o + i, stmt) == QuotePrefix(s[o..], i, stmt)
  {
  }

  lemma PrefixedWord(s: bytes, start: nat, stmt: bool, p: nat)
    requires start < |s| && IsWordByte(s[start]) && p == QuotePrefix(s, start, stmt) > 0
    ensures start + p - 1 < |s|
    ensures var q := s[start + p - 1];
      WordToken(s, start, stmt) == Token(if q == QUOTE then Ident else String, QuotedEnd(s, start + p, q, s[start] in {69, 101}))
  {
  }

  lemma PlainWord(s: bytes, start: nat, stmt: bool)
    requires start < |s| && IsWordByte(s[start]) && QuotePrefix(s, start, stmt) == 0
    ensures WordToken(s, start, stmt) ==
      if !stmt && LsnEnd(s, start) > 0 then Token(Hex, LsnEnd(s, start)) else Token(Word, WordEnd(s, start + 1))
  {
  }

  lemma PrefixedShift(s: bytes, r: bytes, o: nat, i: nat, stmt: bool, p: nat)
    requires o + i < |s| && r == s[o..] && IsWordByte(s[o + i]) && p == QuotePrefix(r, i, stmt) == QuotePrefix(s, o + i, stmt) > 0
    requires i + p <= |r| && r[i] == s[o + i] && r[i + p - 1] == s[o + i + p - 1]
    ensures WordToken(s, o + i, stmt) == Moved(WordToken(r, i, stmt), o)
  {
    PrefixedWord(r, i, stmt, p);
    PrefixedWord(s, o + i, stmt, p);
    QuotedShift(s, o, i + p, r[i + p - 1], r[i] in {69, 101});
  }

  lemma PlainShift(s: bytes, r: bytes, o: nat, i: nat, stmt: bool)
    requires o + i < |s| && r == s[o..] && IsWordByte(s[o + i]) && QuotePrefix(r, i, stmt) == QuotePrefix(s, o + i, stmt) == 0
    requires r[i] == s[o + i]
    ensures WordToken(s, o + i, stmt) == Moved(WordToken(r, i, stmt), o)
  {
    LsnShift(s, o, i);
    WordShift(s, o, i + 1);
    PlainWord(r, i, stmt);
    PlainWord(s, o + i, stmt);
  }

  lemma WordTokenShift(s: bytes, o: nat, i: nat, stmt: bool)
    requires o + i < |s| && IsWordByte(s[o + i])
    ensures WordToken(s, o + i, stmt) == Moved(WordToken(s[o..], i, stmt), o)
  {
    var r := s[o..];
    QuotePrefixShift(s, o, i, stmt);
    if QuotePrefix(r, i, stmt) > 0 {
      PrefixedShift(s, r, o, i, stmt, QuotePrefix(r, i, stmt));
    } else {
      PlainShift(s, r, o, i, stmt);
    }
  }

  /** A '$' at start opens a dollar-quoted literal whose tag ends with the '$' at k. */
  predicate Tagged(s: bytes, start: nat, k: nat)
    requires start < |s|
  {
    !ClassAt(s, start + 1, Digit) && k == RunEnd(s, start + 1, WordByte) && At(s, k, DOLLAR)
  }

  lemma TaggedDollar(s: bytes, start: nat, k: nat)
    requires start < |s| && Tagged(s, start, k)
    ensures DollarToken(s, start) == Token(Dollar, TagEnd(s, k + 1, s[start..k + 1]))
  {
  }

  lemma UntaggedDollar(s: bytes, start: nat)
    requires start < |s| && !Tagged(s, start, RunEnd(s, start + 1, WordByte))
    ensures DollarToken(s, start) ==
      if ClassAt(s, start + 1, Digit) then Token(Param, RunEnd(s, start + 1, Digit)) else Token(Punct, start + 1)
  {
  }

  lemma DollarShift(s: bytes, o: nat, i: nat)
    requires o + i < |s|
    ensures DollarToken(s, o + i) == Moved(DollarToken(s[o..], i), o)
  {
    var r := s[o..];
    RunShift(s, o, i + 1, WordByte);
    var k := RunEnd(r, i + 1, WordByte);
    SameTagged(s, o, i, k);
    if Tagged(r, i, k) {
      TaggedDollar(r, i, k);
      TaggedDollar(s, o + i, o + k);
      TaggedShift(s, o, i, k);
    } else {
      UntaggedDollar(r, i);
      UntaggedDollar(s, o + i);
      RunShift(s, o, i + 1, Digit);
    }
  }

  lemma SameTagged(s: bytes, o: nat, i: nat, k: nat)
    requires o + i < |s| && k == RunEnd(s[o..], i + 1, WordByte) && o + k == RunEnd(s, o + i + 1, WordByte)
    ensures Tagged(s[o..], i, k) == Tagged(s, o + i, o + k) && ClassAt(s[o..], i + 1, Digit) == ClassAt(s, o + i + 1, Digit)
  {
  }

  lemma TaggedShift(s: bytes, o: nat, i: nat, k: nat)
    requires i <= k && o + k < |s|
    ensures TagEnd(s, o + k + 1, s[o + i..o + k + 1]) == o + TagEnd(s[o..], k + 1, s[o..][i..k + 1])
  {
    assert s[o + i..o + k + 1] == s[o..][i..k + 1];
    TagShift(s, o, k + 1, s[o..][i..k + 1]);
  }

  lemma TagShift(s: bytes, o: nat, i: nat, tag: bytes)
    requires o + i <= |s|
    ensures TagEnd(s, o + i, tag) == o + TagEnd(s[o..], i, tag)
  {
    FindShift(s, o, i, tag);
  }

  // ----- The same statement behind two texts -----

  /** A sign at i would belong to the number after it. */
  predicate SignFree(s: bytes, i: nat)
    requires i <= |s|
  {
    var j := BackOverBlanks(s, i - 1);
    j < 0 || !(s[j] in {RPAREN, RBRACKET, QUOTE, APOSTROPHE, DOLLAR} || IsWordByte(s[j]))
  }

  /** There is a sign at k with a number after it that it may belong to. */
  predicate SignAt(s: bytes, k: nat) {
    && (At(s, k, PLUS) || At(s, k, MINUS)) && NumberAt(s, k + 1)
    && DecimalToken(s, k, true, true).kind == Number
  }

  /** Behind the white space at i there is a sign with a number after it. */
  predicate SignAhead(s: bytes, i: nat)
    requires i <= |s|
  {
    SignAt(s, RunEnd(s, i, Blank))
  }

  /** The rest of x from i on and that of y from j on are the same, and look the same to the tokenizer. */
  predicate SameRest(x: bytes, i: nat, y: bytes, j: nat) {
    && i <= |x| && j <= |y| && x[i..] == y[j..]
    && (SignAhead(x, i) ==> SignFree(x, i) == SignFree(y, j))
    && (At(x, i, DOT) ==> ClassAt(x, i - 1, WordByte) == ClassAt(y, j - 1, WordByte))
  }

  /** The byte at the head of a rest. */
  lemma HeadShift(s: bytes, i: nat, k: nat)
    requires i + k <= |s|
    ensures forall c :: At(s, i + k, c) == At(s[i..], k, c)
    ensures forall q :: ClassAt(s, i + k, q) == ClassAt(s[i..], k, q)
  {
  }

  lemma SignAtShift(s: bytes, o: nat, i: nat)
    requires o + i <= |s|
    ensures SignAt(s, o + i) == SignAt(s[o..], i)
  {
    if o + i < |s| && (s[o + i] == PLUS || s[o + i] == MINUS) {
      DecimalShift(s, o, i + 1);
      if NumberAt(s, o + i + 1) {
        SignedShift(s, o, i, true);
      }
    }
  }

  lemma SignAheadShift(s: bytes, o: nat)
    requires o <= |s|
    ensures SignAhead(s, o) == SignAhead(s[o..], 0)
  {
    RunShift(s, o, 0, Blank);
    SignAtShift(s, o, RunEnd(s[o..], 0, Blank));
  }

  /** A sign that belongs to no number is a token by itself. */
  lemma LoneSign(s: bytes, k: nat)
    requires k < |s| && (s[k] == PLUS || s[k] == MINUS) && !(s[k] == MINUS && At(s, k + 1, MINUS)) && !SignAt(s, k)
    ensures TokenAt(s, k, true) == Token(Punct, k + 1)
  {
  }

  lemma BoundSign(s: bytes, k: nat)
    requires k < |s| && SignAt(s, k)
    ensures TokenAt(s, k, true) == if SignFree(s, k) then DecimalToken(s, k, true, true) else Token(Punct, k + 1)
  {
    assert SignAllowed(s, k, true) == SignFree(s, k);
    if SignFree(s, k) {
      assert StartsNumber(s, k, true);
    }
  }

  lemma SignIsAhead(x: bytes, i: nat)
    requires i < |x| && SignAt(x, i)
    ensures SignAhead(x, i)
  {
    assert RunEnd(x, i, Blank) == i;
  }

  lemma SignsAgree(x: bytes, i: nat, y: bytes, j: nat)
    requires i < |x| && j <= |y| && x[i..] == y[j..]
    ensures j < |y| && x[i] == y[j] && At(x, i + 1, MINUS) == At(y, j + 1, MINUS) && SignAt(x, i) == SignAt(y, j)
  {
    assert x[i] == x[i..][0] == y[j];
    HeadShift(x, i, 1);
    HeadShift(y, j, 1);
    SignAtShift(x, i, 0);
    SignAtShift(y, j, 0);
  }

  lemma SameBoundSign(x: bytes, i: nat, y: bytes, j: nat)
    requires i < |x| && j < |y| && x[i..] == y[j..] && SignAt(x, i) && SignAt(y, j) && SignFree(x, i) == SignFree(y, j)
    ensures TokenMoves(TokenAt(x, i, true), TokenAt(y, j, true), i, j)
  {
    SignedShift(x, i, 0, true);
    SignedShift(y, j, 0, true);
    BoundSign(x, i);
    BoundSign(y, j);
  }

  lemma SameSign(x: bytes, i: nat, y: bytes, j: nat)
    requires SameRest(x, i, y, j) && i < |x| && (x[i] == PLUS || x[i] == MINUS) && !(x[i] == MINUS && At(x, i + 1, MINUS))
    ensures j < |y| && TokenMoves(TokenAt(x, i, true), TokenAt(y, j, true), i, j)
  {
    SignsAgree(x, i, y, j);
    if SignAt(x, i) {
      SignIsAhead(x, i);
      SameBoundSign(x, i, y, j);
    } else {
      LoneSign(x, i);
      LoneSign(y, j);
    }
  }

  /** Any other number, or the word it turns out to be. */
  lemma SameNumber(x: bytes, i: nat, y: bytes, j: nat)
    requires SameRest(x, i, y, j) && i < |x| && x[i] != PLUS && x[i] != MINUS
    ensures j < |y| && StartsNumber(x, i, true) == StartsNumber(y, j, true)
    ensures StartsNumber(x, i, true) ==> TokenMoves(NumericToken(x, i, true), NumericToken(y, j, true), i, j)
  {
    assert x[i] == x[i..][0] == y[j];
    HeadShift(x, i, 0);
    HeadShift(y, j, 0);
    HeadShift(x, i, 1);
    HeadShift(y, j, 1);
    if StartsNumber(x, i, true) {
      NumericShift(x, i, 0, true);
      NumericShift(y, j, 0, true);
    }
  }

  lemma SameDollar(x: bytes, i: nat, y: bytes, j: nat)
    requires i < |x| && j < |y| && x[i..] == y[j..]
    ensures TokenMoves(DollarToken(x, i), DollarToken(y, j), i, j)
  {
    DollarShift(x, i, 0);
    DollarShift(y, j, 0);
  }

  /** The same token, at i in one text and at j in another. */
  predicate TokenMoves(t: Token, u: Token, i: nat, j: nat) { t.kind == u.kind && t.end - i == u.end - j }

  lemma SameLate(x: bytes, i: nat, y: bytes, j: nat)
    requires SameRest(x, i, y, j) && i < |x|
    requires var c := x[i]; !IsBlank(c) && c != QUOTE && c != APOSTROPHE && c != DOLLAR && c != PLUS && c != MINUS
    requires !(x[i] == SLASH && At(x, i + 1, STAR))
    ensures j < |y| && TokenMoves(TokenAt(x, i, true), TokenAt(y, j, true), i, j)
  {
    var r := x[i..];
    assert x[i] == r[0] == y[j];
    HeadShift(x, i, 1);
    HeadShift(y, j, 1);
    SameNumber(x, i, y, j);
    if StartsNumber(x, i, true) {
    } else if x[i] == 0xC2 && (At(x, i + 1, 0xBB) || At(x, i + 1, 0xAB)) {
      GuillemetShift(x, i, 2, if r[1] == 0xAB then 0xBB else 0xAB);
      GuillemetShift(y, j, 2, if r[1] == 0xAB then 0xBB else 0xAB);
    } else if IsWordByte(x[i]) {
      WordTokenShift(x, i, 0, true);
      WordTokenShift(y, j, 0, true);
    }
  }

  lemma SameToken(x: bytes, i: nat, y: bytes, j: nat)
    requires SameRest(x, i, y, j) && i < |x|
    ensures j < |y| && TokenMoves(TokenAt(x, i, true), TokenAt(y, j, true), i, j)
  {
    var r := x[i..];
    var c := r[0];
    assert x[i] == c == y[j];
    HeadShift(x, i, 1);
    HeadShift(y, j, 1);
    if IsBlank(c) {
      RunShift(x, i, 1, Blank);
      RunShift(y, j, 1, Blank);
    } else if c == MINUS && At(r, 1, MINUS) {
      LineCommentShift(x, i, 2);
      LineCommentShift(y, j, 2);
    } else if c == SLASH && At(r, 1, STAR) {
      CommentShift(x, i, 2, 1);
      CommentShift(y, j, 2, 1);
    } else if c == QUOTE || c == APOSTROPHE {
      QuotedShift(x, i, 1, c, false);
      QuotedShift(y, j, 1, c, false);
    } else if c == DOLLAR {
      SameDollar(x, i, y, j);
    } else if c == PLUS || c == MINUS {
      SameSign(x, i, y, j);
    } else {
      SameLate(x, i, y, j);
    }
  }

  /** Looking back from the end of a run of blanks is looking back from its start. */
  lemma LookOverBlanks(s: bytes, i: nat, e: nat)
    requires i <= e <= |s| && forall k | i <= k < e :: IsBlank(s[k])
    ensures BackOverBlanks(s, e - 1) == BackOverBlanks(s, i - 1)
    decreases e - i
  {
    if i < e {
      LookOverBlanks(s, i, e - 1);
    }
  }

  lemma RunIsBlank(s: bytes, i: nat)
    requires i <= |s|
    ensures forall k | i <= k < RunEnd(s, i, Blank) :: IsBlank(s[k])
    ensures RunEnd(s, RunEnd(s, i, Blank), Blank) == RunEnd(s, i, Blank)
    decreases |s| - i
  {
    if i < |s| && IsBlank(s[i]) {
      RunIsBlank(s, i + 1);
    }
  }

  /** White space does not change what the tokenizer sees behind it. */
  lemma LookBehindSpace(s: bytes, i: nat, e: nat)
    requires i < |s| && IsBlank(s[i]) && e == RunEnd(s, i, Blank)
    ensures i < e && SignFree(s, e) == SignFree(s, i) && SignAhead(s, e) == SignAhead(s, i) && !ClassAt(s, e - 1, WordByte)
  {
    RunIsBlank(s, i);
    LookOverBlanks(s, i, e);
  }

  /** Dropping the same number of bytes from the same rests. */
  lemma DropBoth(x: bytes, i: nat, e: nat, y: bytes, j: nat, f: nat)
    requires i <= e <= |x| && j <= f && j <= |y| && e - i == f - j && x[i..] == y[j..]
    ensures f <= |y| && x[e..] == y[f..] && x[i..e] == y[j..f]
  {
    assert |x[i..]| == |y[j..]|;
    assert x[e..] == x[i..][e - i..] && y[f..] == y[j..][f - j..];
    assert x[i..e] == x[i..][..e - i] && y[j..f] == y[j..][..f - j];
  }

  /** Behind white space both texts still look the same. */
  lemma SameBehindSpace(x: bytes, i: nat, e: nat, y: bytes, j: nat, f: nat)
    requires SameRest(x, i, y, j) && i < |x| && IsBlank(x[i]) && j < |y|
    requires e == RunEnd(x, i, Blank) && f == RunEnd(y, j, Blank) && e - i == f - j
    ensures SameRest(x, e, y, f)
  {
    assert x[i] == x[i..][0] == y[j..][0] == y[j];
    LookBehindSpace(x, i, e);
    LookBehindSpace(y, j, f);
    DropBoth(x, i, e, y, j, f);
  }

  /** Behind a byte that is no white space the tokenizer looks back no further than to that byte. */
  lemma LookBehindToken(s: bytes, i: nat, e: nat, n: nat)
    requires i < e <= |s| && n == e - i && !IsBlank(s[i])
    ensures SignFree(s, e) == SignFree(s[i..], n) && ClassAt(s, e - 1, WordByte) == ClassAt(s[i..], n - 1, WordByte)
  {
    BlanksShift(s, i, n - 1);
    var k := BackOverBlanks(s[i..], n - 1);
    assert s[i + k] == s[i..][k];
    HeadShift(s, i, n - 1);
  }

  /** Behind a token that is no white space the byte to look back at is inside the token. */
  lemma SameBehindToken(x: bytes, i: nat, e: nat, y: bytes, j: nat, f: nat)
    requires i < e <= |x| && j <= |y| && x[i..] == y[j..] && e - i == f - j && !IsBlank(x[i])
    ensures SameRest(x, e, y, f)
  {
    DropBoth(x, i, e, y, j, f);
    assert x[i] == x[i..][0] == y[j..][0] == y[j];
    LookBehindToken(x, i, e, e - i);
    LookBehindToken(y, j, f, e - i);
  }

  lemma SpaceIsRun(s: bytes, i: nat)
    requires i < |s| && IsBlank(s[i])
    ensures TokenAt(s, i, true).end == RunEnd(s, i, Blank)
  {
  }

  /** A statement at i is a token of kind k that ends at e, and the statement behind it. */
  ghost predicate ReadsOn(s: bytes, i: nat, k: Kind, e: nat) {
    && i < e <= |s| && (IsBlank(s[i]) ==> e == RunEnd(s, i, Blank))
    && ReadStatement(s, i) == Then(ActOf(k, s[i..e]), ReadStatement(s, e))
  }

  lemma TokenReadsOn(s: bytes, i: nat)
    requires i < |s|
    ensures ReadsOn(s, i, TokenAt(s, i, true).kind, TokenAt(s, i, true).end)
  {
    if IsBlank(s[i]) {
      SpaceIsRun(s, i);
    }
  }

  lemma SameReadsOn(x: bytes, i: nat, y: bytes, j: nat) returns (k: Kind, e: nat, f: nat)
    requires SameRest(x, i, y, j) && i < |x|
    ensures j < |y| && ReadsOn(x, i, k, e) && ReadsOn(y, j, k, f) && e - i == f - j
  {
    SameToken(x, i, y, j);
    TokenReadsOn(x, i);
    TokenReadsOn(y, j);
    k, e, f := TokenAt(x, i, true).kind, TokenAt(x, i, true).end, TokenAt(y, j, true).end;
  }

  lemma SameBehindKind(x: bytes, i: nat, y: bytes, j: nat, k: Kind, e: nat, f: nat)
    requires SameRest(x, i, y, j) && ReadsOn(x, i, k, e) && ReadsOn(y, j, k, f) && e - i == f - j
    ensures SameRest(x, e, y, f) && x[i..e] == y[j..f]
  {
    assert x[i] == x[i..][0] == y[j..][0] == y[j];
    DropBoth(x, i, e, y, j, f);
    if IsBlank(x[i]) {
      SameBehindSpace(x, i, e, y, j, f);
    } else {
      SameBehindToken(x, i, e, y, j, f);
    }
  }

  /** Statements that are the same from i and j on, and look the same there, read the same. */
  lemma {:induction false} SameStatements(x: bytes, i: nat, y: bytes, j: nat)
    requires SameRest(x, i, y, j)
    ensures ReadStatement(x, i) == ReadStatement(y, j)
    decreases |x| - i
  {
    assert |x[i..]| == |y[j..]|;
    if i < |x| {
      var k, e, f := SameReadsOn(x, i, y, j);
      SameBehindKind(x, i, y, j, k, e, f);
      SameStatements(x, e, y, f);
    }
  }
}
