/**
 * The tokenizer of the message masker: what the next token of a message or of a statement is,
 * as functions of the text, and the scanning loops that compute them.
 */
module Tokenizer {
  import opened Bytes

  const VT: byte := 11
  const FF: byte := 12
  const DOLLAR: byte := 36
  const PERCENT: byte := 37
  const AMPERSAND: byte := 38
  const APOSTROPHE: byte := 39
  const LPAREN: byte := 40
  const RPAREN: byte := 41
  const STAR: byte := 42
  const PLUS: byte := 43
  const MINUS: byte := 45
  const DOT: byte := 46
  const SLASH: byte := 47
  const COLON: byte := 58
  const SEMICOLON: byte := 59
  const EQUALS: byte := 61
  const BACKSLASH: byte := 92
  const RBRACKET: byte := 93
  const UNDERSCORE: byte := 95

  datatype Class = Blank | WordByte | Digit | HexDigit | OctalDigit | BinaryDigit

  predicate IsLetter(c: byte) { 65 <= c <= 90 || 97 <= c <= 122 }

  predicate IsWordByte(c: byte) { c >= 0x80 || c == UNDERSCORE || IsDigit(c) || IsLetter(c) }

  predicate IsBlank(c: byte) { c == SPACE || 9 <= c <= 13 }

  predicate InClass(k: Class, c: byte) {
    match k
    case Blank => IsBlank(c)
    case WordByte => IsWordByte(c)
    case Digit => IsDigit(c)
    case HexDigit => IsDigit(c) || 97 <= c <= 102 || 65 <= c <= 70
    case OctalDigit => 48 <= c <= 55
    case BinaryDigit => 48 <= c <= 49
  }

  predicate At(s: bytes, i: int, c: byte) { 0 <= i < |s| && s[i] == c }

  predicate ClassAt(s: bytes, i: int, k: Class) { 0 <= i < |s| && InClass(k, s[i]) }

  datatype Kind = Punct | Space | Word | Number | Hex | String | Dollar | Ident | Param | Comment

  datatype Token = Token(kind: Kind, end: nat)

  // ----- Ends of scans -----

  /** The end of the run of bytes of a class that starts at i. */
  function RunEnd(s: bytes, i: nat, k: Class): (e: nat)
    requires i <= |s|
    ensures i <= e <= |s|
    decreases |s| - i
  {
    if i < |s| && InClass(k, s[i]) then RunEnd(s, i + 1, k) else i
  }

  /** The end of a run of digits; an underscore between two digits belongs to it. */
  function DigitsEnd(s: bytes, i: nat, k: Class): (e: nat)
    requires i <= |s|
    ensures i <= e <= |s| && (ClassAt(s, i, k) ==> i < e)
    decreases |s| - i
  {
    if ClassAt(s, i, k) || (At(s, i, UNDERSCORE) && ClassAt(s, i - 1, k) && ClassAt(s, i + 1, k))
    then DigitsEnd(s, i + 1, k)
    else i
  }

  /** The end of a word: word bytes and '$', and a '.' before a word byte. */
  function WordEnd(s: bytes, i: nat): (e: nat)
    requires i <= |s|
    ensures i <= e <= |s| && (ContinuesWord(s, i) ==> i < e)
    decreases |s| - i
  {
    if i < |s| && (IsWordByte(s[i]) || s[i] == DOLLAR) then WordEnd(s, i + 1)
    else if At(s, i, DOT) && ClassAt(s, i + 1, WordByte) then WordEnd(s, i + 2)
    else i
  }

  /** The byte at i would extend a word. */
  predicate ContinuesWord(s: bytes, i: nat) {
    i < |s| && (IsWordByte(s[i]) || s[i] == DOLLAR || (s[i] == DOT && ClassAt(s, i + 1, WordByte)))
  }

  /** The end of a quoted token whose body starts at i; a doubled quote belongs to the body. */
  function QuotedEnd(s: bytes, i: nat, q: byte, backslash: bool): (e: nat)
    ensures e <= |s| && (i <= |s| ==> i <= e)
    decreases |s| - i
  {
    if i >= |s| then |s|
    else if backslash && s[i] == BACKSLASH then QuotedEnd(s, i + 2, q, backslash)
    else if s[i] == q then
      if At(s, i + 1, q) then QuotedEnd(s, i + 2, q, backslash) else i + 1
    else QuotedEnd(s, i + 1, q, backslash)
  }

  /** The end of a token whose closing guillemet is 0xC2 followed by closing. */
  function GuillemetEnd(s: bytes, k: nat, closing: byte): (e: nat)
    requires k <= |s|
    ensures k <= e <= |s|
    decreases |s| - k
  {
    if k + 1 >= |s| then |s|
    else if s[k] == 0xC2 && s[k + 1] == closing then k + 2
    else GuillemetEnd(s, k + 1, closing)
  }

  /** The end of a block comment with depth open levels; comments nest. */
  function CommentEnd(s: bytes, i: nat, depth: nat): (e: nat)
    requires i <= |s|
    ensures i <= e <= |s|
    decreases |s| - i
  {
    if i + 1 >= |s| then |s|
    else if s[i] == SLASH && s[i + 1] == STAR then CommentEnd(s, i + 2, depth + 1)
    else if s[i] == STAR && s[i + 1] == SLASH then
      if depth <= 1 then i + 2 else CommentEnd(s, i + 2, depth - 1)
    else CommentEnd(s, i + 1, depth)
  }

  /** The end of a line comment. */
  function LineCommentEnd(s: bytes, i: nat): (e: nat)
    requires i <= |s|
    ensures i <= e <= |s|
    decreases |s| - i
  {
    if i < |s| && s[i] != LF && s[i] != CR then LineCommentEnd(s, i + 1) else i
  }

  /** The first place at or after i where tag occurs, or -1. */
  function Find(s: bytes, i: nat, tag: bytes): (k: int)
    requires i <= |s|
    ensures k == -1 || (i <= k && k + |tag| <= |s| && s[k..k + |tag|] == tag)
    decreases |s| - i
  {
    if i + |tag| > |s| then -1
    else if s[i..i + |tag|] == tag then i
    else if i == |s| then -1
    else Find(s, i + 1, tag)
  }

  // ----- Shapes of tokens -----

  /** A number body starts at i. */
  predicate NumberAt(s: bytes, i: nat) {
    ClassAt(s, i, Digit) || (At(s, i, DOT) && ClassAt(s, i + 1, Digit))
  }

  /** Back over blanks from i; -1 when there is nothing else. */
  function BackOverBlanks(s: bytes, j: int): (k: int)
    requires -1 <= j < |s|
    ensures -1 <= k <= j
    decreases j + 1
  {
    if j >= 0 && IsBlank(s[j]) then BackOverBlanks(s, j - 1) else j
  }

  /** The sign at i belongs to the number after it. */
  predicate SignAllowed(s: bytes, i: nat, stmt: bool)
    requires i < |s|
  {
    if ClassAt(s, i - 1, Blank) && !stmt then true
    else
      var j := BackOverBlanks(s, i - 1);
      j < 0 || !(s[j] in {RPAREN, RBRACKET, QUOTE, APOSTROPHE, DOLLAR} || IsWordByte(s[j]))
  }

  /** The digits of the non-decimal integer that starts at i. */
  function Radix(s: bytes, i: nat): Option<Class> {
    if i + 2 >= |s| || s[i] != 48 then None
    else
      var k := if s[i + 1] in {120, 88} then Some(HexDigit)
               else if s[i + 1] in {111, 79} then Some(OctalDigit)
               else if s[i + 1] in {98, 66} then Some(BinaryDigit)
               else None;
      if k.Some? && InClass(k.value, s[i + 2]) then k else None
  }

  /** At most nine hex digits from i on. */
  function HexRun(s: bytes, i: nat, left: nat): (e: nat)
    requires i <= |s|
    ensures i <= e <= |s| && e - i <= left
    decreases left
  {
    if left > 0 && ClassAt(s, i, HexDigit) then HexRun(s, i + 1, left - 1) else i
  }

  /** The end of an LSN at i, two halves of one to eight hex digits; 0 when there is none. */
  function LsnEnd(s: bytes, i: nat): (e: nat)
    requires i <= |s|
    ensures e == 0 || i < e <= |s|
  {
    var j := HexRun(s, i, 9);
    if j == i || j - i > 8 || !At(s, j, SLASH) then 0 else LsnHalf(s, j + 1)
  }

  /** The end of the second half of an LSN, which starts at i. */
  function LsnHalf(s: bytes, i: nat): (e: nat)
    requires i <= |s|
    ensures e == 0 || i < e <= |s|
  {
    var k := HexRun(s, i, 9);
    if k == i || k - i > 8 || ContinuesWord(s, k) || At(s, k, SLASH) then 0 else k
  }

  function Unit(k: nat): bytes {
    Ascii(match k
          case 0 => "B" case 1 => "kB" case 2 => "MB" case 3 => "GB" case 4 => "TB" case 5 => "PB"
          case 6 => "us" case 7 => "ms" case 8 => "s" case 9 => "min" case 10 => "h" case _ => "d")
  }

  predicate IsUnit(b: bytes) { exists k | 0 <= k < 12 :: b == Unit(k) }

  function FractionEnd(s: bytes, a: nat): (e: nat)
    requires a <= |s|
    ensures a <= e <= |s|
  {
    if At(s, a, DOT) && ClassAt(s, a + 1, Digit) then DigitsEnd(s, a + 1, Digit) else a
  }

  function ExponentEnd(s: bytes, b: nat): (e: nat)
    requires b <= |s|
    ensures b <= e <= |s|
  {
    if b + 1 < |s| && (s[b] == 101 || s[b] == 69) then
      var j := if At(s, b + 1, PLUS) || At(s, b + 1, MINUS) then b + 2 else b + 1;
      if ClassAt(s, j, Digit) then DigitsEnd(s, j, Digit) else b
    else b
  }

  /** The end of the digits, fraction and exponent of the number whose digits start at i. */
  function DecimalEnd(s: bytes, i: nat): (e: nat)
    requires NumberAt(s, i)
    ensures i < e <= |s|
  {
    ExponentEnd(s, FractionEnd(s, DigitsEnd(s, i, Digit)))
  }

  /** A number with its sign and unit, or the word it turns out to be. */
  function DecimalToken(s: bytes, start: nat, signed: bool, stmt: bool): (t: Token)
    requires start < |s| && NumberAt(s, if signed then start + 1 else start)
    ensures start < t.end <= |s|
  {
    WithUnit(s, start, DecimalEnd(s, if signed then start + 1 else start), signed, stmt)
  }

  /** The token from start whose number ends at i. */
  function WithUnit(s: bytes, start: nat, i: nat, signed: bool, stmt: bool): (t: Token)
    requires start < i <= |s| && (signed || ContinuesWord(s, start))
    ensures start < t.end <= |s|
  {
    if At(s, i, PERCENT) then Token(Number, i + 1)
    else if ClassAt(s, i, WordByte) then
      var j := RunEnd(s, i, WordByte);
      if IsUnit(s[i..j]) && !ContinuesWord(s, j) then Token(Number, j)
      else if signed then Token(Punct, start + 1)
      else Token(Word, WordEnd(s, start))
    else if !stmt && At(s, i, SPACE) && ClassAt(s, i + 1, WordByte) then
      var j := RunEnd(s, i + 1, WordByte);
      Token(Number, if IsUnit(s[i + 1..j]) && !ContinuesWord(s, j) then j else i)
    else Token(Number, i)
  }

  function NumericToken(s: bytes, start: nat, stmt: bool): (t: Token)
    requires start < |s|
    requires NumberAt(s, if s[start] == PLUS || s[start] == MINUS then start + 1 else start)
    ensures start < t.end <= |s|
  {
    if s[start] == PLUS || s[start] == MINUS then DecimalToken(s, start, true, stmt)
    else
      var radix := Radix(s, start);
      if radix.Some? then
        var j := DigitsEnd(s, start + 2, radix.value);
        if !ContinuesWord(s, j) then Token(Hex, j) else Token(Word, WordEnd(s, start))
      else if !stmt && LsnEnd(s, start) > 0 then Token(Hex, LsnEnd(s, start))
      else DecimalToken(s, start, false, stmt)
  }

  /**
   * The length of the prefix and opening quote of a quoted token: E', B', X', N' and U&' in a
   * statement, U&" in both modes; 0 when there is none.
   */
  function QuotePrefix(s: bytes, start: nat, stmt: bool): (p: nat)
    requires start < |s|
    ensures p == 0 || (p <= 3 && (At(s, start + p - 1, APOSTROPHE) || At(s, start + p - 1, QUOTE)))
  {
    var c := s[start];
    if stmt && c in {69, 101, 66, 98, 88, 120, 78, 110} && At(s, start + 1, APOSTROPHE) then 2
    else if c in {85, 117} && At(s, start + 1, AMPERSAND)
      && ((stmt && At(s, start + 2, APOSTROPHE)) || At(s, start + 2, QUOTE)) then 3
    else 0
  }

  /** A token that starts with a word byte. Backslashes escape in E'...' only. */
  function WordToken(s: bytes, start: nat, stmt: bool): (t: Token)
    requires start < |s| && IsWordByte(s[start])
    ensures start < t.end <= |s|
  {
    var p := QuotePrefix(s, start, stmt);
    if p > 0 then
      var q := s[start + p - 1];
      Token(if q == QUOTE then Ident else String, QuotedEnd(s, start + p, q, s[start] in {69, 101}))
    else if !stmt && LsnEnd(s, start) > 0 then Token(Hex, LsnEnd(s, start))
    else Token(Word, WordEnd(s, start + 1))
  }

  /** A token that starts with '$': a placeholder, a dollar-quoted literal or the '$' alone. */
  function DollarToken(s: bytes, start: nat): (t: Token)
    requires start < |s|
    ensures start < t.end <= |s|
  {
    var j := start + 1;
    if ClassAt(s, j, Digit) then Token(Param, RunEnd(s, j, Digit))
    else if j < |s| && s[j] != DOLLAR && !IsWordByte(s[j]) then Token(Punct, j)
    else
      var k := RunEnd(s, j, WordByte);
      if At(s, k, DOLLAR) then Token(Dollar, TagEnd(s, k + 1, s[start..k + 1])) else Token(Punct, start + 1)
  }

  /** The end of a dollar-quoted literal whose body starts at i. */
  function TagEnd(s: bytes, i: nat, tag: bytes): (e: nat)
    requires i <= |s|
    ensures i <= e <= |s|
  {
    var close := Find(s, i, tag);
    if close >= 0 then close + |tag| else |s|
  }

  /** A number, or the word that it turns out to be, starts at pos. */
  predicate StartsNumber(s: bytes, pos: nat, stmt: bool)
    requires pos < |s|
  {
    var c := s[pos];
    || IsDigit(c)
    || (c == DOT && ClassAt(s, pos + 1, Digit) && !ClassAt(s, pos - 1, WordByte))
    || ((c == PLUS || c == MINUS) && NumberAt(s, pos + 1) && SignAllowed(s, pos, stmt))
  }

  /** The token that starts at pos. */
  function TokenAt(s: bytes, pos: nat, stmt: bool): (t: Token)
    requires pos < |s|
    ensures pos < t.end <= |s|
  {
    var c := s[pos];
    if IsBlank(c) then Token(Space, RunEnd(s, pos + 1, Blank))
    else if stmt && c == MINUS && At(s, pos + 1, MINUS) then Token(Comment, LineCommentEnd(s, pos + 2))
    else if stmt && c == SLASH && At(s, pos + 1, STAR) then Token(Comment, CommentEnd(s, pos + 2, 1))
    else if c == QUOTE then Token(Ident, QuotedEnd(s, pos + 1, QUOTE, false))
    else if c == APOSTROPHE then
      if stmt || !ClassAt(s, pos - 1, WordByte) then Token(String, QuotedEnd(s, pos + 1, APOSTROPHE, false))
      else Token(Punct, pos + 1)
    else if c == DOLLAR then DollarToken(s, pos)
    else if StartsNumber(s, pos, stmt) then NumericToken(s, pos, stmt)
    else if c == 0xC2 && (At(s, pos + 1, 0xBB) || At(s, pos + 1, 0xAB)) then
      Token(Ident, GuillemetEnd(s, pos + 2, if s[pos + 1] == 0xAB then 0xBB else 0xAB))
    else if IsWordByte(c) then WordToken(s, pos, stmt)
    else Token(Punct, pos + 1)
  }
}
