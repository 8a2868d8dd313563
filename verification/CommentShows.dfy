/**
 * Two messages that differ in one byte of a comment and have different templates: the byte decides
 * whether the sign behind the comment belongs to the number after it.
 */
module CommentShows {
  import opened Bytes
  import opened Tokenizer
  import opened Rules
  import opened Masking
  import opened ListGrammar
  import opened Suffixes
  import opened Templates
  import opened Invisible
  import opened Relapse
  import opened RelapseKeys

  /** statement: --c, a line break and -1 */
  function MessageWith(c: byte): bytes { STATEMENT + [COLON, SPACE, MINUS, MINUS, c, LF, MINUS, 49] }

  /** statement: -$1 */
  const SIGN_STAYS: bytes := STATEMENT + [COLON, SPACE, MINUS, DOLLAR, 49]

  /** statement: $1 */
  const SIGN_GOES: bytes := STATEMENT + [COLON, SPACE, DOLLAR, 49]

  predicate IsComment1(s: bytes, c: byte) { s == MessageWith(c) && c != LF && c != CR && c < 0x80 }

  // ----- Reading -----

  lemma BytesOf(s: bytes, c: byte)
    requires IsComment1(s, c)
    ensures |s| == 17 && s[..9] == STATEMENT && s[9] == COLON && s[10] == SPACE && s[11] == s[12] == MINUS
    ensures s[13] == c && s[14] == LF && s[15] == MINUS && s[16] == 49
  {
  }

  lemma StatementIsWord(s: bytes, c: byte)
    requires IsComment1(s, c)
    ensures TokenAt(s, 0, false) == Token(Word, 9) && PathAt(s, 0) == 0
  {
    BytesOf(s, c);
    forall k | 0 <= k < 9
      ensures s[k] == STATEMENT[k] && IsLetter(s[k])
    {
      assert s[k] == s[..9][k];
    }
    LettersAreWord(s, 0, 9);
  }

  /** The act at the sign: the number takes it, or it stays. */
  predicate TakesSign(c: byte) { !(c in {RPAREN, RBRACKET, QUOTE, APOSTROPHE, DOLLAR} || IsWordByte(c)) }

  lemma BodyTokens(s: bytes, c: byte)
    requires IsComment1(s, c) && !IsBlank(c)
    ensures TokenAt(s, 10, true) == Token(Space, 11) && TokenAt(s, 11, true) == Token(Comment, 14)
    ensures TokenAt(s, 14, true) == Token(Space, 15) && TokenAt(s, 16, true) == Token(Number, 17)
  {
    BytesOf(s, c);
    assert LineCommentEnd(s, 14) == 14;
    assert LineCommentEnd(s, 13) == 14;
    assert RunEnd(s, 11, Blank) == 11 && RunEnd(s, 15, Blank) == 15;
    LastNumber(s, c);
  }

  lemma LastNumber(s: bytes, c: byte)
    requires IsComment1(s, c)
    ensures DecimalEnd(s, 16) == 17 && TokenAt(s, 16, true) == Token(Number, 17) && SignAt(s, 15)
  {
    BytesOf(s, c);
    assert DigitsEnd(s, 17, Digit) == 17;
    assert DigitsEnd(s, 16, Digit) == 17;
  }

  lemma SignReadAt(s: bytes, c: byte)
    requires IsComment1(s, c) && !IsBlank(c)
    ensures SignFree(s, 15) == TakesSign(c)
    ensures TokenAt(s, 15, true) == if TakesSign(c) then Token(Number, 17) else Token(Punct, 16)
  {
    BytesOf(s, c);
    LastNumber(s, c);
    assert BackOverBlanks(s, 14) == BackOverBlanks(s, 13) == 13;
    BoundSign(s, 15);
  }

  function Trace(c: byte): Script { if TakesSign(c) then Then(Mask, Done) else Then(Mark1(MINUS), Then(Mask, Done)) }

  lemma ReadsBody(s: bytes, c: byte)
    requires IsComment1(s, c) && !IsBlank(c)
    ensures ReadStatement(s, 10) == Then(Gap, Then(Gap, Then(Gap, Trace(c))))
  {
    BodyTokens(s, c);
    SignReadAt(s, c);
    assert ReadStatement(s, 17) == Done;
    assert s[15..16] == [MINUS];
    assert ReadStatement(s, 16) == Then(Mask, Done);
    assert ReadStatement(s, 15) == Trace(c);
    assert ReadStatement(s, 14) == Then(Gap, Trace(c));
    assert ReadStatement(s, 11) == Then(Gap, Then(Gap, Trace(c)));
  }

  lemma ReadsMessage(s: bytes, c: byte)
    requires IsComment1(s, c) && !IsBlank(c)
    ensures ReadMessage(s, 0, START, false) == Then(Mark(STATEMENT, false), Then(Gap, Then(Gap, Then(Gap, Trace(c)))))
  {
    BytesOf(s, c);
    StatementMarks(s, 0);
    StatementIsWord(s, c);
    ReadsMarker(s, Token(Word, 9), MarkerAt(s, 0));
    ReadsBody(s, c);
  }

  // ----- Writing -----

  lemma RunsHeading(words: bytes, rest: Script) returns (e: Draft)
    requires |words| <= 10
    ensures Run(Then(Mark(words, false), Then(Gap, Then(Gap, Then(Gap, rest)))), EMPTY, true) == Run(rest, e, true)
    ensures e.out == words + [COLON] && e.space && !e.plan && e.list.step == Outside && e.stmt && e.n == 0 && e.fuse < 0
  {
    var d := Put(EMPTY, Mark(words, false), true);
    RunsGap(d, Then(Gap, Then(Gap, rest)));
    e := d.(space := true);
    RunsGap(e, Then(Gap, rest));
    RunsGap(e, rest);
  }

  lemma RunsLastMask(d: Draft) returns (e: Draft)
    requires IsShort(d) && |d.out| <= 30 && d.n == 0 && d.fuse < 0
    ensures Run(Then(Mask, Done), d, true) == e && e.out == Spaced(d.out, d.space) + [DOLLAR, 49] && !e.plan && |e.out| <= 33
  {
    e := Put(d, Mask, true);
    RunsDone(e);
  }

  lemma SignGoes(words: bytes) returns (e: Draft)
    requires |words| <= 10
    ensures Run(Then(Mark(words, false), Then(Gap, Then(Gap, Then(Gap, Then(Mask, Done))))), EMPTY, true) == e
    ensures e.out == words + [COLON, SPACE, DOLLAR, 49] && !e.plan
  {
    var d := RunsHeading(words, Then(Mask, Done));
    e := RunsLastMask(d);
  }

  lemma SignStays(words: bytes, a: Act) returns (e: Draft)
    requires |words| <= 10 && IsSimple(a) && !Joins(a)
    ensures Run(Then(Mark(words, false), Then(Gap, Then(Gap, Then(Gap, Then(a, Then(Mask, Done)))))), EMPTY, true) == e
    ensures e.out == words + [COLON, SPACE] + a.text + [DOLLAR, 49] && !e.plan
  {
    var d := RunsHeading(words, Then(a, Then(Mask, Done)));
    var f := RunsText(d, a, Then(Mask, Done));
    e := RunsLastMask(f);
  }

  lemma TemplateWith(s: bytes, c: byte, words: bytes, a: Act)
    requires IsComment1(s, c) && !IsBlank(c) && words == STATEMENT && a == Mark1(MINUS)
    ensures TemplateOf(s, false) == words + [COLON, SPACE] + (if TakesSign(c) then [] else [MINUS]) + [DOLLAR, 49]
  {
    ReadsMessage(s, c);
    var e;
    if TakesSign(c) {
      e := SignGoes(words);
    } else {
      e := SignStays(words, a);
    }
    FromScript(s, ReadMessage(s, 0, START, false), e);
  }

  /** Two messages that differ in a byte of a comment, and their two templates. */
  lemma CommentCanShow(x: bytes, y: bytes)
    requires x == MessageWith(97) && y == MessageWith(33)
    ensures TemplateOf(x, false) == SIGN_STAYS && TemplateOf(y, false) == SIGN_GOES && SIGN_STAYS != SIGN_GOES
  {
    TemplateWith(x, 97, STATEMENT, Mark1(MINUS));
    TemplateWith(y, 33, STATEMENT, Mark1(MINUS));
    assert SIGN_STAYS[11] == MINUS && SIGN_GOES[11] == DOLLAR;
  }
}
