/**
 * A token that ends before a stop, a quote of either kind, a '$', a '=' or the ':' of a marker, is found
 * without looking past it: with everything behind the stop cut off, the tokenizer finds the same token.
 */
module Prefixes {
  import opened Bytes
  import opened Tokenizer
  import opened Rules
  import opened Masking
  import Suffixes

  predicate IsStop(s: bytes, n: nat) {
    At(s, n, APOSTROPHE) || At(s, n, QUOTE) || At(s, n, DOLLAR) || At(s, n, EQUALS) || ColonEnds(s, n)
  }

  /** s has a stop at n, and t is s cut off behind it. */
  predicate CutAt(s: bytes, t: bytes, n: nat) { n < |s| && IsStop(s, n) && t == s[..n + 1] }

  /** Ends of a scan in s and in t: the same, or both past n. */
  predicate SameEnd(e: nat, f: nat, n: nat) { e == f || (e > n && f > n) }

  lemma SameBytes(s: bytes, t: bytes, n: nat, i: int, c: byte, k: Class)
    requires CutAt(s, t, n) && i <= n
    ensures At(s, i, c) == At(t, i, c) && ClassAt(s, i, k) == ClassAt(t, i, k)
    ensures !ClassAt(s, n, k) && !ClassAt(t, n, k)
  {
  }

  lemma RunCut(s: bytes, t: bytes, n: nat, i: nat, k: Class)
    requires CutAt(s, t, n) && i <= n
    ensures RunEnd(s, i, k) == RunEnd(t, i, k) <= n
    decreases n - i
  {
  }

  lemma DigitsCut(s: bytes, t: bytes, n: nat, i: nat, k: Class)
    requires CutAt(s, t, n) && i <= n
    ensures DigitsEnd(s, i, k) == DigitsEnd(t, i, k) <= n
    decreases n - i
  {
    if i < n {
      SameBytes(s, t, n, i, UNDERSCORE, k);
      SameBytes(s, t, n, i - 1, UNDERSCORE, k);
      SameBytes(s, t, n, i + 1, UNDERSCORE, k);
      DigitsCut(s, t, n, i + 1, k);
    }
  }

  lemma WordCut(s: bytes, t: bytes, n: nat, i: nat)
    requires CutAt(s, t, n) && i <= n
    ensures SameEnd(WordEnd(s, i), WordEnd(t, i), n) && ContinuesWord(s, i) == ContinuesWord(t, i)
    decreases n - i
  {
  }

  lemma QuotedCut(s: bytes, t: bytes, n: nat, i: nat, q: byte, backslash: bool)
    requires CutAt(s, t, n)
    ensures SameEnd(QuotedEnd(s, i, q, backslash), QuotedEnd(t, i, q, backslash), n)
    decreases |s| - i
  {
  }

  lemma GuillemetCut(s: bytes, t: bytes, n: nat, i: nat, closing: byte)
    requires CutAt(s, t, n) && i <= n + 1
    ensures SameEnd(GuillemetEnd(s, i, closing), GuillemetEnd(t, i, closing), n)
    decreases |s| - i
  {
  }

  lemma CommentCut(s: bytes, t: bytes, n: nat, i: nat, depth: nat)
    requires CutAt(s, t, n) && i <= n + 1
    ensures SameEnd(CommentEnd(s, i, depth), CommentEnd(t, i, depth), n)
    decreases |s| - i
  {
  }

  lemma LineCommentCut(s: bytes, t: bytes, n: nat, i: nat)
    requires CutAt(s, t, n) && i <= n + 1
    ensures SameEnd(LineCommentEnd(s, i), LineCommentEnd(t, i), n)
    decreases |s| - i
  {
  }

  lemma TagCut(s: bytes, t: bytes, n: nat, i: nat, tag: bytes)
    requires CutAt(s, t, n) && i <= n + 1
    ensures SameEnd(TagEnd(s, i, tag), TagEnd(t, i, tag), n)
    decreases n + 1 - i
  {
    if i + |tag| <= n + 1 {
      assert s[i..i + |tag|] == t[i..i + |tag|];
      if i <= n && s[i..i + |tag|] != tag {
        TagCut(s, t, n, i + 1, tag);
      }
    }
  }

  lemma BlanksCut(s: bytes, t: bytes, n: nat, j: int)
    requires CutAt(s, t, n) && -1 <= j <= n
    ensures BackOverBlanks(s, j) == BackOverBlanks(t, j)
    decreases j + 1
  {
  }

  lemma HexCut(s: bytes, t: bytes, n: nat, i: nat, left: nat)
    requires CutAt(s, t, n) && i <= n
    ensures HexRun(s, i, left) == HexRun(t, i, left) <= n
    decreases left
  {
  }

  lemma LsnCut(s: bytes, t: bytes, n: nat, i: nat)
    requires CutAt(s, t, n) && i <= n
    ensures LsnEnd(s, i) == LsnEnd(t, i) <= n
  {
    HexCut(s, t, n, i, 9);
    SameAt(s, t, n, HexRun(s, i, 9), SLASH);
    if At(s, HexRun(s, i, 9), SLASH) {
      LsnHalfCut(s, t, n, HexRun(s, i, 9) + 1);
    }
  }

  lemma LsnHalfCut(s: bytes, t: bytes, n: nat, i: nat)
    requires CutAt(s, t, n) && i <= n
    ensures LsnHalf(s, i) == LsnHalf(t, i) <= n
  {
    HexCut(s, t, n, i, 9);
    var k := HexRun(s, i, 9);
    WordCut(s, t, n, k);
    SameAt(s, t, n, k, SLASH);
  }

  lemma SameAt(s: bytes, t: bytes, n: nat, i: nat, c: byte)
    requires CutAt(s, t, n) && i <= n && c == SLASH
    ensures At(s, i, c) == At(t, i, c) && (At(s, i, c) ==> i < n)
  {
  }

  lemma FractionCut(s: bytes, t: bytes, n: nat, a: nat)
    requires CutAt(s, t, n) && a <= n
    ensures FractionEnd(s, a) == FractionEnd(t, a) <= n
  {
    if At(s, a, DOT) {
      DigitsCut(s, t, n, a + 1, Digit);
    }
  }

  lemma ExponentCut(s: bytes, t: bytes, n: nat, b: nat)
    requires CutAt(s, t, n) && b <= n
    ensures ExponentEnd(s, b) == ExponentEnd(t, b) <= n
  {
    var j := if At(s, b + 1, PLUS) || At(s, b + 1, MINUS) then b + 2 else b + 1;
    if b < n && ClassAt(s, j, Digit) {
      DigitsCut(s, t, n, j, Digit);
    }
  }

  lemma DecimalCut(s: bytes, t: bytes, n: nat, i: nat)
    requires CutAt(s, t, n) && i <= n
    ensures NumberAt(s, i) == NumberAt(t, i)
    ensures NumberAt(s, i) ==> DecimalEnd(s, i) == DecimalEnd(t, i) <= n
  {
    DigitsCut(s, t, n, i, Digit);
    var a := DigitsEnd(s, i, Digit);
    FractionCut(s, t, n, a);
    ExponentCut(s, t, n, FractionEnd(s, a));
  }

  lemma UnitCut(s: bytes, t: bytes, n: nat, start: nat, i: nat, signed: bool, stmt: bool)
    requires CutAt(s, t, n) && start < i <= n && (signed || ContinuesWord(s, start))
    ensures signed || ContinuesWord(t, start)
    ensures SameToken(WithUnit(s, start, i, signed, stmt), WithUnit(t, start, i, signed, stmt), n)
  {
    WordCut(s, t, n, start);
    SameBytes(s, t, n, i, PERCENT, WordByte);
    SameBytes(s, t, n, i, SPACE, WordByte);
    if ClassAt(s, i, WordByte) {
      UnitWordCut(s, t, n, i);
    } else if At(s, i, SPACE) && ClassAt(s, i + 1, WordByte) {
      UnitWordCut(s, t, n, i + 1);
    }
  }

  lemma UnitWordCut(s: bytes, t: bytes, n: nat, i: nat)
    requires CutAt(s, t, n) && i <= n
    ensures var j := RunEnd(s, i, WordByte);
      j == RunEnd(t, i, WordByte) <= n && s[i..j] == t[i..j] && ContinuesWord(s, j) == ContinuesWord(t, j)
  {
    RunCut(s, t, n, i, WordByte);
    var j := RunEnd(s, i, WordByte);
    WordCut(s, t, n, j);
    assert t[i..j] == s[..n + 1][i..j] == s[i..j];
  }

  lemma SignedCut(s: bytes, t: bytes, n: nat, i: nat, stmt: bool)
    requires CutAt(s, t, n) && i < n && NumberAt(s, i + 1)
    ensures NumberAt(t, i + 1) && SameToken(DecimalToken(s, i, true, stmt), DecimalToken(t, i, true, stmt), n)
  {
    DecimalCut(s, t, n, i + 1);
    var e := DecimalEnd(s, i + 1);
    UnitCut(s, t, n, i, e, true, stmt);
  }

  lemma UnsignedCut(s: bytes, t: bytes, n: nat, i: nat, stmt: bool)
    requires CutAt(s, t, n) && i < n && NumberAt(s, i)
    ensures NumberAt(t, i) && SameToken(DecimalToken(s, i, false, stmt), DecimalToken(t, i, false, stmt), n)
  {
    DecimalCut(s, t, n, i);
    var e := DecimalEnd(s, i);
    UnitCut(s, t, n, i, e, false, stmt);
  }

  lemma RadixCut(s: bytes, t: bytes, n: nat, i: nat)
    requires CutAt(s, t, n) && i < n
    ensures Radix(s, i) == Radix(t, i) && (Radix(s, i).Some? ==> i + 2 < n)
  {
  }

  lemma RadixTokenCut(s: bytes, t: bytes, n: nat, i: nat)
    requires CutAt(s, t, n) && i < n && Radix(s, i).Some?
    ensures Radix(s, i) == Radix(t, i)
    ensures var j := DigitsEnd(s, i + 2, Radix(s, i).value);
      j == DigitsEnd(t, i + 2, Radix(s, i).value) <= n && ContinuesWord(s, j) == ContinuesWord(t, j)
    ensures SameEnd(WordEnd(s, i), WordEnd(t, i), n)
  {
    RadixCut(s, t, n, i);
    DigitsCut(s, t, n, i + 2, Radix(s, i).value);
    WordCut(s, t, n, DigitsEnd(s, i + 2, Radix(s, i).value));
    WordCut(s, t, n, i);
  }

  lemma NumericCut(s: bytes, t: bytes, n: nat, i: nat, stmt: bool)
    requires CutAt(s, t, n) && i < n
    requires NumberAt(s, if s[i] == PLUS || s[i] == MINUS then i + 1 else i)
    ensures NumberAt(t, if t[i] == PLUS || t[i] == MINUS then i + 1 else i)
    ensures SameToken(NumericToken(s, i, stmt), NumericToken(t, i, stmt), n)
  {
    RadixCut(s, t, n, i);
    if s[i] == PLUS || s[i] == MINUS {
      SignedCut(s, t, n, i, stmt);
      assert NumericToken(t, i, stmt) == DecimalToken(t, i, true, stmt);
    } else if Radix(s, i).Some? {
      RadixTokenCut(s, t, n, i);
      DecimalCut(s, t, n, i);
    } else {
      UnsignedCut(s, t, n, i, stmt);
      LsnCut(s, t, n, i);
      assert NumericToken(t, i, stmt) == if !stmt && LsnEnd(t, i) > 0 then Token(Hex, LsnEnd(t, i)) else DecimalToken(t, i, false, stmt);
    }
  }

  predicate IsLong(k: Kind) { k == Comment || k == String || k == Dollar || k == Ident || k == Word }

  /** The same token, or two tokens that end past n. */
  predicate SameToken(x: Token, y: Token, n: nat) {
    x == y || (x.end > n && y.end > n && IsLong(x.kind) && IsLong(y.kind))
  }

  lemma QuotePrefixCut(s: bytes, t: bytes, n: nat, i: nat, stmt: bool)
    requires CutAt(s, t, n) && i < n
    ensures QuotePrefix(s, i, stmt) == QuotePrefix(t, i, stmt)
    ensures var p := QuotePrefix(s, i, stmt); p > 0 ==> i + p <= n + 1 && s[i + p - 1] == t[i + p - 1]
  {
  }

  lemma WordTokenCut(s: bytes, t: bytes, n: nat, i: nat, stmt: bool)
    requires CutAt(s, t, n) && i < n && IsWordByte(s[i])
    ensures SameToken(WordToken(s, i, stmt), WordToken(t, i, stmt), n)
  {
    QuotePrefixCut(s, t, n, i, stmt);
    var p := QuotePrefix(s, i, stmt);
    if p > 0 {
      QuotedCut(s, t, n, i + p, s[i + p - 1], s[i] in {69, 101});
    } else {
      LsnCut(s, t, n, i);
      WordCut(s, t, n, i + 1);
    }
  }

  lemma TaggedCut(s: bytes, t: bytes, n: nat, i: nat, k: nat)
    requires CutAt(s, t, n) && i <= k <= n
    ensures SameEnd(TagEnd(s, k + 1, s[i..k + 1]), TagEnd(t, k + 1, t[i..k + 1]), n)
  {
    assert s[i..k + 1] == t[i..k + 1];
    TagCut(s, t, n, k + 1, s[i..k + 1]);
  }

  lemma DollarCut(s: bytes, t: bytes, n: nat, i: nat)
    requires CutAt(s, t, n) && i < n
    ensures SameToken(DollarToken(s, i), DollarToken(t, i), n)
  {
    RunCut(s, t, n, i + 1, WordByte);
    var k := RunEnd(s, i + 1, WordByte);
    if Suffixes.Tagged(s, i, k) {
      Suffixes.TaggedDollar(s, i, k);
      Suffixes.TaggedDollar(t, i, k);
      TaggedCut(s, t, n, i, k);
    } else {
      Suffixes.UntaggedDollar(s, i);
      Suffixes.UntaggedDollar(t, i);
      RunCut(s, t, n, i + 1, Digit);
    }
  }

  lemma SignCut(s: bytes, t: bytes, n: nat, i: nat, stmt: bool)
    requires CutAt(s, t, n) && i < n
    ensures SignAllowed(s, i, stmt) == SignAllowed(t, i, stmt)
  {
    BlanksCut(s, t, n, i - 1);
  }

  lemma TokenCut(s: bytes, t: bytes, n: nat, i: nat, stmt: bool)
    requires CutAt(s, t, n) && i < n
    ensures SameToken(TokenAt(s, i, stmt), TokenAt(t, i, stmt), n)
  {
    var c := s[i];
    if IsBlank(c) {
      RunCut(s, t, n, i + 1, Blank);
    } else if stmt && c == MINUS && At(s, i + 1, MINUS) {
      LineCommentCut(s, t, n, i + 2);
    } else if stmt && c == SLASH && At(s, i + 1, STAR) {
      CommentCut(s, t, n, i + 2, 1);
    } else if c == QUOTE || c == APOSTROPHE {
      QuotedCut(s, t, n, i + 1, c, false);
    } else if c == DOLLAR {
      DollarCut(s, t, n, i);
    } else {
      LateCut(s, t, n, i, stmt);
    }
  }

  lemma LateCut(s: bytes, t: bytes, n: nat, i: nat, stmt: bool)
    requires CutAt(s, t, n) && i < n
    requires var c := s[i]; !IsBlank(c) && c != QUOTE && c != APOSTROPHE && c != DOLLAR
    requires !(stmt && s[i] == MINUS && At(s, i + 1, MINUS)) && !(stmt && s[i] == SLASH && At(s, i + 1, STAR))
    ensures SameToken(TokenAt(s, i, stmt), TokenAt(t, i, stmt), n)
  {
    NumberStartCut(s, t, n, i, stmt);
    if StartsNumber(s, i, stmt) {
      NumericCut(s, t, n, i, stmt);
    } else if s[i] == 0xC2 && (At(s, i + 1, 0xBB) || At(s, i + 1, 0xAB)) {
      GuillemetCut(s, t, n, i + 2, if s[i + 1] == 0xAB then 0xBB else 0xAB);
    } else if IsWordByte(s[i]) {
      WordTokenCut(s, t, n, i, stmt);
    }
  }

  lemma NumberStartCut(s: bytes, t: bytes, n: nat, i: nat, stmt: bool)
    requires CutAt(s, t, n) && i < n
    ensures StartsNumber(s, i, stmt) == StartsNumber(t, i, stmt)
  {
    DecimalCut(s, t, n, i + 1);
    SignCut(s, t, n, i, stmt);
  }
}
