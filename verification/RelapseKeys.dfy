/**
 * The other way masking again can change a template: an id before '=' becomes a placeholder, so the
 * '=' is no key's any more when it is read again, and a marker may stand behind the value.
 */
module RelapseKeys {
  import opened Bytes
  import opened Tokenizer
  import opened Rules
  import opened Masking
  import opened ListGrammar
  import opened Templates
  import opened Relapse

  const SESSION: bytes := [115, 101, 115, 115, 105, 111, 110]
  const STATEMENT: bytes := [115, 116, 97, 116, 101, 109, 101, 110, 116]

  /** session a1=b statement: -- */
  const KEYED: bytes := [115, 101, 115, 115, 105, 111, 110, 32, 97, 49, 61, 98, 32,
                         115, 116, 97, 116, 101, 109, 101, 110, 116, 58, 32, 45, 45]

  /** session $1=$2 statement: -- */
  const ONCE: bytes := [115, 101, 115, 115, 105, 111, 110, 32, 36, 49, 61, 36, 50, 32,
                        115, 116, 97, 116, 101, 109, 101, 110, 116, 58, 32, 45, 45]

  /** session $1=$2 statement: */
  const TWICE: bytes := [115, 101, 115, 115, 105, 111, 110, 32, 36, 49, 61, 36, 50, 32,
                         115, 116, 97, 116, 101, 109, 101, 110, 116, 58]

  // ----- The tokens -----

  lemma {:induction false} LettersRun(s: bytes, i: nat, e: nat)
    requires i <= e <= |s| && (forall k | i <= k < e :: IsLetter(s[k])) && !ContinuesWord(s, e)
    ensures WordEnd(s, i) == e
    decreases e - i
  {
    if i < e {
      LettersRun(s, i + 1, e);
    }
  }

  /** A word of letters that starts with 's'. */
  lemma LettersAreWord(s: bytes, i: nat, e: nat)
    requires i < e <= |s| && s[i] == 115 && (forall k | i <= k < e :: IsLetter(s[k])) && !ContinuesWord(s, e)
    ensures TokenAt(s, i, false) == Token(Word, e)
  {
    LettersRun(s, i + 1, e);
  }

  lemma KeyedTokens()
    ensures TokenAt(KEYED, 0, false) == Token(Word, 7)
  {
    LettersAreWord(KEYED, 0, 7);
  }

  lemma KeyedBlank()
    ensures TokenAt(KEYED, 7, false) == Token(Space, 8)
  {
    assert RunEnd(KEYED, 8, Blank) == 8;
  }

  lemma IDToken()
    ensures TokenAt(KEYED, 8, false) == Token(Word, 10)
  {
  }

  lemma KeyToken()
    ensures TokenAt(KEYED, 10, false) == Token(Punct, 11)
  {
  }

  lemma ValueTokens()
    ensures TokenAt(KEYED, 11, false) == Token(Word, 12) && TokenAt(KEYED, 12, false) == Token(Space, 13)
    ensures ValueEnd(KEYED, 11) == 12
  {
  }

  lemma WordTokens()
    ensures TokenAt(KEYED, 13, false) == Token(Word, 22)
  {
    LettersAreWord(KEYED, 13, 22);
  }

  lemma ColonToken()
    ensures TokenAt(KEYED, 22, false) == Token(Punct, 23)
  {
  }

  lemma BlankToken()
    ensures TokenAt(KEYED, 23, false) == Token(Space, 24)
  {
    assert RunEnd(KEYED, 24, Blank) == 24;
  }

  lemma DashTokens()
    ensures TokenAt(KEYED, 24, false) == Token(Punct, 25) && TokenAt(KEYED, 25, false) == Token(Punct, 26)
  {
    assert !NumberAt(KEYED, 25) && !NumberAt(KEYED, 26);
  }

  lemma OnceTokens()
    ensures TokenAt(ONCE, 0, false) == Token(Word, 7)
  {
    LettersAreWord(ONCE, 0, 7);
  }

  lemma OnceBlank()
    ensures TokenAt(ONCE, 7, false) == Token(Space, 8)
  {
    assert RunEnd(ONCE, 8, Blank) == 8;
  }

  lemma FirstTokens()
    ensures TokenAt(ONCE, 8, false) == Token(Param, 10)
  {
  }

  lemma EqualsToken()
    ensures TokenAt(ONCE, 10, false) == Token(Punct, 11)
  {
  }

  lemma SecondTokens()
    ensures TokenAt(ONCE, 11, false) == Token(Param, 13)
  {
  }

  lemma SpaceToken()
    ensures TokenAt(ONCE, 13, false) == Token(Space, 14)
  {
  }

  lemma StatementToken()
    ensures TokenAt(ONCE, 14, false) == Token(Word, 23)
  {
    LettersAreWord(ONCE, 14, 23);
  }

  lemma CommentTokens()
    ensures TokenAt(ONCE, 24, true) == Token(Space, 25) && TokenAt(ONCE, 25, true) == Token(Comment, 27)
  {
  }

  lemma NoKeyedPaths()
    ensures PathAt(KEYED, 0) == 0
  {
  }

  lemma NoIDPaths()
    ensures PathAt(KEYED, 7) == PathAt(KEYED, 8) == 0
  {
  }

  lemma NoValuePaths()
    ensures PathAt(KEYED, 10) == PathAt(KEYED, 12) == 0
  {
  }

  lemma NoLatePaths()
    ensures PathAt(KEYED, 13) == PathAt(KEYED, 22) == PathAt(KEYED, 23) == PathAt(KEYED, 24) == PathAt(KEYED, 25) == PathAt(KEYED, 26) == 0
  {
  }

  lemma NoOncePaths()
    ensures PathAt(ONCE, 0) == 0
  {
  }

  lemma NoFirstPaths()
    ensures PathAt(ONCE, 7) == PathAt(ONCE, 8) == 0
  {
  }

  lemma NoMiddlePaths()
    ensures PathAt(ONCE, 10) == PathAt(ONCE, 11) == 0
  {
  }

  lemma NoMarkerPaths()
    ensures PathAt(ONCE, 13) == PathAt(ONCE, 14) == 0
  {
  }

  // ----- Markers -----

  /** A text that starts with "se" starts with no marker. */
  lemma SessionIsNoMarker(s: bytes)
    requires |s| > 2 && s[0] == 115 && s[1] == 101
    ensures MarkerAt(s, 0) == NoMarker
  {
    FirstLetters();
    BindWords();
    assert Ascii("statement")[1] == 116;
    assert MatchWords(s, 0, Ascii("statement")) == 0 by {
      var m := Ascii("statement");
      assert m[0] == 115 && m[1..][0] == 116;
    }
    NoMatch(s, Ascii("fastpath function call"));
    NoMatch(s, NamedWords(0));
    NoMatch(s, NamedWords(1));
    NoMatch(s, NamedWords(2));
    NoMatch(s, NamedWords(3));
    assert NamedMarker(s, 0, 4) == NoMarker;
    assert NamedMarker(s, 0, 3) == NoMarker;
    assert NamedMarker(s, 0, 2) == NoMarker;
    assert NamedMarker(s, 0, 1) == NoMarker;
  }

  lemma WordMatches(s: bytes, o: nat, i: nat, k: nat)
    requires o + 9 <= |s| && s[o..o + 9] == STATEMENT && 0 < k <= 9 && i == o + k
    ensures MatchRest(s, i, STATEMENT[k..]) == o + 9
    decreases 9 - k
  {
    if k < 9 {
      assert s[i] == s[o..o + 9][k];
      assert STATEMENT[k..][1..] == STATEMENT[k + 1..] && STATEMENT[k..][0] != SPACE;
      WordMatches(s, o, i + 1, k + 1);
    }
  }

  lemma StatementMarks(s: bytes, o: nat)
    requires o + 9 <= |s| && s[o..o + 9] == STATEMENT && ColonEnds(s, o + 9)
    ensures MarkerAt(s, o) == Marker(STATEMENT, o + 9, o + 9)
  {
    assert Ascii("statement") == STATEMENT;
    assert s[o] == s[o..o + 9][0];
    WordMatches(s, o, o + 1, 1);
  }

  // ----- Reading one token -----

  /** '=' behind a word takes the value with it. */
  lemma ReadsKeyAt(s: bytes, i: nat, c: Context, e: nat, rest: Script)
    requires i + 1 <= e <= |s| && PathAt(s, i) == 0 && TokenAt(s, i, false) == Token(Punct, i + 1) && s[i] == EQUALS
    requires !c.first && c.prev == Word && ValueEnd(s, i + 1) == e && rest == ReadMessage(s, e, AfterValue(false), false)
    ensures ReadMessage(s, i, c, false) == Then(Key, rest)
  {
    var t := Token(Punct, i + 1);
    assert ReadPlain(s, i, c, false, t) == Then(Key, rest);
    assert ReadToken(s, i, c, false, t) == ReadMarked(s, i, c, false, t, NoMarker);
  }

  /** A token that is no marker and no key. */
  lemma ReadsTokenAt(s: bytes, i: nat, c: Context, t: Token, a: Act, rest: Script)
    requires i < t.end <= |s| && PathAt(s, i) == 0 && TokenAt(s, i, false) == t && t.kind != Space && t.kind != Comment
    requires !MarkerPlace(c, t.kind) || (c.first && MarkerAt(s, i) == NoMarker)
    requires !(t.kind == Punct && s[i] == EQUALS && c.prev == Word)
    requires a == if IsMasked(c, t.kind, s[i..t.end], false) then Mask else Text(t.kind, s[i..t.end])
    requires rest == ReadMessage(s, t.end, AfterToken(c, t.kind, s[i..t.end], a == Mask), false)
    ensures ReadMessage(s, i, c, false) == Then(a, rest)
  {
    assert ReadPlain(s, i, c, false, t) == Then(a, rest);
    assert ReadToken(s, i, c, false, t) == ReadMarked(s, i, c, false, t, NoMarker);
  }

  /** A word with a digit behind an id word. */
  lemma ReadsIDAt(s: bytes, i: nat, c: Context, e: nat, b: bytes, rest: Script)
    requires i < e <= |s| && PathAt(s, i) == 0 && TokenAt(s, i, false) == Token(Word, e) && b == s[i..e] && HasDigit(b)
    requires !c.first && !c.marker && c.idNext && rest == ReadMessage(s, e, AfterToken(c, Word, b, true), false)
    ensures ReadMessage(s, i, c, false) == Then(Mask, rest)
  {
    ReadsTokenAt(s, i, c, Token(Word, e), Mask, rest);
  }

  /** '=' behind a placeholder. */
  lemma ReadsEqualsAt(s: bytes, i: nat, c: Context, b: bytes, rest: Script)
    requires i < |s| && PathAt(s, i) == 0 && TokenAt(s, i, false) == Token(Punct, i + 1) && b == s[i..i + 1] == [EQUALS]
    requires !c.first && c.prev == Param && rest == ReadMessage(s, i + 1, AfterToken(c, Punct, b, false), false)
    ensures ReadMessage(s, i, c, false) == Then(Mark1(EQUALS), rest)
  {
    ReadsTokenAt(s, i, c, Token(Punct, i + 1), Mark1(EQUALS), rest);
  }

  /** The first word, which is no marker. */
  lemma ReadsFirstAt(s: bytes, e: nat, b: bytes, rest: Script)
    requires 0 < e <= |s| && PathAt(s, 0) == 0 && TokenAt(s, 0, false) == Token(Word, e) && b == s[0..e] && MarkerAt(s, 0) == NoMarker
    requires rest == ReadMessage(s, e, AfterToken(START, Word, b, false), false)
    ensures ReadMessage(s, 0, START, false) == Then(Text(Word, b), rest)
  {
    ReadsTokenAt(s, 0, START, Token(Word, e), Text(Word, b), rest);
  }

  lemma ReadsSpaceAt(s: bytes, i: nat, c: Context, e: nat, rest: Script)
    requires i < e <= |s| && PathAt(s, i) == 0 && TokenAt(s, i, false) == Token(Space, e) && !c.first
    requires rest == ReadMessage(s, e, c.(gap := true, prev := Space), false)
    ensures ReadMessage(s, i, c, false) == Then(Gap, rest)
  {
    ReadsGap(s, i, c, e);
  }

  /** A marker in the middle of the message. */
  lemma ReadsMarkerIn(s: bytes, i: nat, c: Context, e: nat, m: Marker)
    requires i < e <= |s| && PathAt(s, i) == 0 && TokenAt(s, i, false) == Token(Word, e) && m == MarkerAt(s, i) && m.Marker?
    requires c.marker && c.gap && s[i..e] != Ascii("plan")
    ensures ReadMessage(s, i, c, false) == Then(Mark(m.words, m.head < m.colon), ReadStatement(s, m.colon + 1))
  {
    TokenMarks(s, i, c, Token(Word, e), m);
    MarkReads(s, i, c, Token(Word, e), m);
  }

  lemma MarkReads(s: bytes, i: nat, c: Context, t: Token, m: Marker)
    requires i < t.end <= |s| && m.Marker? && m.colon < |s|
    ensures ReadMarked(s, i, c, false, t, m) == Then(Mark(m.words, m.head < m.colon), ReadStatement(s, m.colon + 1))
  {
  }

  lemma TokenMarks(s: bytes, i: nat, c: Context, t: Token, m: Marker)
    requires i < t.end <= |s| && t.kind == Word && m == MarkerAt(s, i) && c.marker && c.gap && s[i..t.end] != Ascii("plan")
    ensures ReadToken(s, i, c, false, t) == ReadMarked(s, i, c, false, t, m)
  {
  }

  // ----- Reading the message -----

  lemma SessionIsID()
    ensures IsIDWord(SESSION)
  {
    assert IDWord(13) == SESSION;
    assert EqualFold(SESSION, IDWord(13));
  }

  /** What there is to know of the message. */
  ghost predicate IsKeyed(s: bytes) { HasKeyedText(s) && HasKeyedTokens(s) && HasDashTokens(s) && HasNoPaths(s) && MarkerAt(s, 0) == NoMarker }

  predicate HasKeyedText(s: bytes) {
    && |s| == 26 && s[0..7] == SESSION && HasDigit(s[8..10]) && s[10] == EQUALS && s[13..22] == STATEMENT && s[22..23] == [COLON]
    && s[24..25] == s[25..26] == [45]
  }

  predicate HasKeyedTokens(s: bytes)
    requires |s| == 26
  {
    && TokenAt(s, 0, false) == Token(Word, 7) && TokenAt(s, 7, false) == Token(Space, 8) && TokenAt(s, 8, false) == Token(Word, 10)
    && TokenAt(s, 10, false) == Token(Punct, 11) && ValueEnd(s, 11) == 12 && TokenAt(s, 12, false) == Token(Space, 13)
  }

  predicate HasDashTokens(s: bytes)
    requires |s| == 26
  {
    && TokenAt(s, 13, false) == Token(Word, 22) && TokenAt(s, 22, false) == Token(Punct, 23) && TokenAt(s, 23, false) == Token(Space, 24)
    && TokenAt(s, 24, false) == Token(Punct, 25) && TokenAt(s, 25, false) == Token(Punct, 26)
  }

  predicate HasNoPaths(s: bytes)
    requires |s| == 26
  {
    && PathAt(s, 0) == PathAt(s, 7) == PathAt(s, 8) == PathAt(s, 10) == PathAt(s, 12) == 0
    && PathAt(s, 13) == PathAt(s, 22) == PathAt(s, 23) == PathAt(s, 24) == PathAt(s, 25) == PathAt(s, 26) == 0
  }

  lemma KeyedText()
    ensures HasKeyedText(KEYED)
  {
    assert IsDigit(KEYED[8..10][1]);
    assert KEYED[0..7] == SESSION && HasDigit(KEYED[8..10]) && KEYED[13..22] == STATEMENT && KEYED[22..23] == [COLON];
    assert KEYED[24..25] == KEYED[25..26] == [45];
  }

  lemma KeyedHasTokens()
    ensures HasKeyedTokens(KEYED)
  {
    KeyedTokens();
    KeyedBlank();
    IDToken();
    KeyToken();
    ValueTokens();
  }

  lemma KeyedHasDashes()
    ensures HasDashTokens(KEYED)
  {
    WordTokens();
    ColonToken();
    BlankToken();
    DashTokens();
  }

  lemma KeyedHasNoPaths()
    ensures HasNoPaths(KEYED)
  {
    NoKeyedPaths();
    NoIDPaths();
    NoValuePaths();
    NoLatePaths();
  }

  lemma KeyedIsKeyed(s: bytes)
    requires s == KEYED
    ensures IsKeyed(s)
  {
    KeyedText();
    KeyedHasTokens();
    KeyedHasDashes();
    KeyedHasNoPaths();
    KeyedIsNoMarker();
  }

  lemma KeyedIsNoMarker()
    ensures MarkerAt(KEYED, 0) == NoMarker
  {
    SessionIsNoMarker(KEYED);
  }

  function Dashes(): Script { Then(Gap, Then(Mark1(45), Then(Mark1(45), Done))) }

  /** -- at the end of the message. */
  lemma ReadsDashes(s: bytes, c: Context)
    requires IsKeyed(s) && IsCalm(c)
    ensures ReadMessage(s, 23, c, false) == Dashes()
  {
    var d := c.(gap := true, prev := Space);
    var e := AfterToken(d, Punct, [45], false);
    assert s[24] == s[24..25][0] && s[25] == s[25..26][0];
    assert ReadMessage(s, 26, AfterToken(e, Punct, [45], false), false) == Done;
    ReadsTokenAt(s, 25, e, Token(Punct, 26), Mark1(45), Done);
    ReadsTokenAt(s, 24, d, Token(Punct, 25), Mark1(45), Then(Mark1(45), Done));
    ReadsSpaceAt(s, 23, c, 24, Then(Mark1(45), Then(Mark1(45), Done)));
  }

  lemma ReadsColon(s: bytes, c: Context)
    requires IsKeyed(s) && !c.first
    ensures ReadMessage(s, 22, c, false) == Then(Mark1(COLON), Dashes())
  {
    assert s[22] == s[22..23][0];
    ReadsDashes(s, AfterToken(c, Punct, [COLON], false));
    ReadsTokenAt(s, 22, c, Token(Punct, 23), Mark1(COLON), Dashes());
  }

  lemma ReadsWord(s: bytes, c: Context)
    requires IsKeyed(s) && IsCalm(c)
    ensures ReadMessage(s, 13, c, false) == Then(Text(Word, STATEMENT), Then(Mark1(COLON), Dashes()))
  {
    ReadsColon(s, AfterToken(c, Word, STATEMENT, false));
    ReadsTokenAt(s, 13, c, Token(Word, 22), Text(Word, STATEMENT), Then(Mark1(COLON), Dashes()));
  }

  function Tail(): Script { Then(Gap, Then(Text(Word, STATEMENT), Then(Mark1(COLON), Dashes()))) }

  lemma ReadsRest(s: bytes, c: Context)
    requires IsKeyed(s) && IsCalm(c)
    ensures ReadMessage(s, 12, c, false) == Tail()
  {
    ReadsWord(s, c.(gap := true, prev := Space));
    ReadsSpaceAt(s, 12, c, 13, Tail().rest);
  }

  /** The '=' behind the id, which is a key's. */
  lemma ReadsKey(s: bytes, c: Context)
    requires IsKeyed(s) && !c.first && c.prev == Word
    ensures ReadMessage(s, 10, c, false) == Then(Key, Tail())
  {
    ReadsRest(s, AfterValue(false));
    ReadsKeyAt(s, 10, c, 12, Tail());
  }

  lemma ReadsID(s: bytes, c: Context)
    requires IsKeyed(s) && !c.first && !c.marker && c.idNext
    ensures ReadMessage(s, 8, c, false) == Then(Mask, Then(Key, Tail()))
  {
    ReadsKey(s, AfterToken(c, Word, s[8..10], true));
    ReadsIDAt(s, 8, c, 10, s[8..10], Then(Key, Tail()));
  }

  lemma ReadsKeyed(s: bytes, rest: Script)
    requires IsKeyed(s) && rest == Then(Mask, Then(Key, Tail()))
    ensures ReadMessage(s, 0, START, false) == Then(Text(Word, SESSION), Then(Gap, rest))
  {
    SessionIsID();
    var c := AfterToken(START, Word, SESSION, false);
    ReadsID(s, c.(gap := true, prev := Space));
    ReadsSpaceAt(s, 7, c, 8, rest);
    ReadsFirstAt(s, 7, SESSION, Then(Gap, rest));
  }

  // ----- Reading its template -----

  /** What there is to know of the template. */
  ghost predicate IsOnce(s: bytes) { HasOnceText(s) && HasOnceTokens(s) && HasNoOncePaths(s) && HasMarker(s) }

  predicate HasOnceText(s: bytes) { |s| == 27 && s[0..7] == SESSION && s[10..11] == [EQUALS] && s[14..23] == STATEMENT }

  predicate HasOnceTokens(s: bytes)
    requires |s| == 27
  {
    && TokenAt(s, 0, false) == Token(Word, 7) && TokenAt(s, 7, false) == Token(Space, 8) && TokenAt(s, 8, false) == Token(Param, 10)
    && TokenAt(s, 10, false) == Token(Punct, 11) && TokenAt(s, 11, false) == Token(Param, 13) && TokenAt(s, 13, false) == Token(Space, 14)
    && TokenAt(s, 14, false) == Token(Word, 23)
  }

  predicate HasNoOncePaths(s: bytes)
    requires |s| == 27
  {
    PathAt(s, 0) == PathAt(s, 7) == PathAt(s, 8) == PathAt(s, 10) == PathAt(s, 11) == PathAt(s, 13) == PathAt(s, 14) == 0
  }

  ghost predicate HasMarker(s: bytes)
    requires |s| == 27
  {
    MarkerAt(s, 0) == NoMarker && MarkerAt(s, 14) == Marker(STATEMENT, 23, 23) && ReadStatement(s, 24) == Then(Gap, Then(Gap, Done))
  }

  lemma ReadsStatement()
    ensures ReadStatement(ONCE, 24) == Then(Gap, Then(Gap, Done))
  {
    CommentTokens();
    assert ReadStatement(ONCE, 27) == Done;
    assert ReadStatement(ONCE, 25) == Then(Gap, Done);
  }

  lemma OnceText()
    ensures HasOnceText(ONCE)
  {
    assert ONCE[0..7] == SESSION && ONCE[10..11] == [EQUALS] && ONCE[14..23] == STATEMENT;
  }

  lemma OnceHasTokens()
    ensures HasOnceTokens(ONCE)
  {
    OnceTokens();
    OnceBlank();
    FirstTokens();
    EqualsToken();
    SecondTokens();
    SpaceToken();
    StatementToken();
  }

  lemma OnceHasNoPaths()
    ensures HasNoOncePaths(ONCE)
  {
    NoOncePaths();
    NoFirstPaths();
    NoMiddlePaths();
    NoMarkerPaths();
  }

  lemma OnceHasMarker()
    ensures HasMarker(ONCE)
  {
    OnceText();
    SessionIsNoMarker(ONCE);
    StatementMarks(ONCE, 14);
    ReadsStatement();
  }

  lemma OnceIsOnce(s: bytes)
    requires s == ONCE
    ensures IsOnce(s)
  {
    OnceText();
    OnceHasTokens();
    OnceHasNoPaths();
    OnceHasMarker();
  }

  lemma StatementIsNoPlan()
    ensures STATEMENT != Ascii("plan")
  {
    assert Ascii("plan")[0] == 112;
  }

  function Statement(): Script { Then(Mark(STATEMENT, false), Then(Gap, Then(Gap, Done))) }

  lemma ReadsMarkerAt(s: bytes, c: Context)
    requires IsOnce(s) && !c.first && c.marker && c.gap
    ensures ReadMessage(s, 14, c, false) == Statement()
  {
    StatementIsNoPlan();
    ReadsMarkerIn(s, 14, c, 23, MarkerAt(s, 14));
  }

  lemma ReadsSecond(s: bytes, c: Context)
    requires IsOnce(s) && !c.first
    ensures ReadMessage(s, 11, c, false) == Then(Mask, Then(Gap, Statement()))
  {
    var d := AfterToken(c, Param, s[11..13], true);
    ReadsMarkerAt(s, d.(gap := true, prev := Space));
    ReadsSpaceAt(s, 13, d, 14, Statement());
    ReadsTokenAt(s, 11, c, Token(Param, 13), Mask, Then(Gap, Statement()));
  }

  lemma ReadsEquals(s: bytes, c: Context)
    requires IsOnce(s) && !c.first && c.prev == Param
    ensures ReadMessage(s, 10, c, false) == Then(Mark1(EQUALS), Then(Mask, Then(Gap, Statement())))
  {
    ReadsSecond(s, AfterToken(c, Punct, [EQUALS], false));
    ReadsEqualsAt(s, 10, c, [EQUALS], Then(Mask, Then(Gap, Statement())));
  }

  lemma ReadsFirstValue(s: bytes, c: Context)
    requires IsOnce(s) && !c.first
    ensures ReadMessage(s, 8, c, false) == Then(Mask, Then(Mark1(EQUALS), Then(Mask, Then(Gap, Statement()))))
  {
    ReadsEquals(s, AfterToken(c, Param, s[8..10], true));
    ReadsTokenAt(s, 8, c, Token(Param, 10), Mask, Then(Mark1(EQUALS), Then(Mask, Then(Gap, Statement()))));
  }

  lemma ReadsOnce(s: bytes, rest: Script)
    requires IsOnce(s) && rest == Then(Mask, Then(Mark1(EQUALS), Then(Mask, Then(Gap, Statement()))))
    ensures ReadMessage(s, 0, START, false) == Then(Text(Word, SESSION), Then(Gap, rest))
  {
    var c := AfterToken(START, Word, SESSION, false);
    ReadsFirstValue(s, c.(gap := true, prev := Space));
    ReadsSpaceAt(s, 7, c, 8, rest);
    ReadsFirstAt(s, 7, SESSION, Then(Gap, rest));
  }

  // ----- Writing -----

  /** A value behind a space. */
  lemma RunsValue(d: Draft, rest: Script) returns (e: Draft)
    requires IsShort(d) && !d.stmt && d.n == 0
    ensures Run(Then(Gap, Then(Mask, rest)), d, true) == Run(rest, e, true)
    ensures e.out == d.out + [SPACE, DOLLAR, 49] && e.n == 1 && !e.space && !e.plan && e.list.step == Outside && !e.stmt
  {
    RunsGap(d, Then(Mask, rest));
    e := Put(d.(space := true), Mask, true);
  }

  /** '=' as a key's, and its value. */
  lemma RunsKey(d: Draft, rest: Script) returns (e: Draft)
    requires IsShort(d) && !d.stmt && d.n == 1 && !d.space
    ensures Run(Then(Key, rest), d, true) == Run(rest, e, true)
    ensures e.out == d.out + [EQUALS, DOLLAR, 50] && !e.space && !e.plan && e.list.step == Outside && !e.stmt
  {
    e := Put(d, Key, true);
  }

  /** '=' as it is, and a placeholder. */
  lemma RunsEquals(d: Draft, a: Act, rest: Script) returns (e: Draft)
    requires IsShort(d) && |d.out| <= 30 && !d.stmt && d.n == 1 && !d.space && IsSimple(a) && !Joins(a) && a.text == [EQUALS]
    ensures Run(Then(a, Then(Mask, rest)), d, true) == Run(rest, e, true)
    ensures e.out == d.out + [EQUALS, DOLLAR, 50] && !e.space && !e.plan && e.list.step == Outside && !e.stmt
  {
    var f := RunsText(d, a, Then(Mask, rest));
    e := Put(f, Mask, true);
  }

  /** A word of nine letters. */
  predicate IsLongWord(a: Act) { a.Text? && |a.text| == 9 && !IsIn(a) && !IsValues(a) && !IsDigitWord(a) }

  lemma RunsWord(d: Draft, a: Act, rest: Script) returns (e: Draft)
    requires IsShort(d) && |d.out| <= 20 && (IsLongWord(a) || (IsSession(a) && d == EMPTY))
    ensures Run(Then(a, rest), d, true) == Run(rest, e, true)
    ensures e.out == Spaced(d.out, d.space) + a.text && !e.space && !e.plan && e.list.step == Outside
    ensures e.stmt == d.stmt && e.n == d.n
  {
    e := Put(d, a, true);
  }

  predicate IsSession(a: Act) { a.Text? && |a.text| == 7 && !IsIn(a) && !IsValues(a) && !IsDigitWord(a) }

  /** A marker without a name, a space before it, and nothing but gaps behind it. */
  lemma RunsMarkOnly(d: Draft, words: bytes) returns (e: Draft)
    requires IsShort(d) && |d.out| <= 20 && |words| == 9 && !d.stmt
    ensures Run(Then(Gap, Then(Mark(words, false), Then(Gap, Then(Gap, Done)))), d, true) == e
    ensures e.out == d.out + [SPACE] + words + [COLON] && !e.plan
  {
    RunsGap(d, Then(Mark(words, false), Then(Gap, Then(Gap, Done))));
    e := Put(d.(space := true), Mark(words, false), true);
    RunsGap(e, Then(Gap, Done));
    e := e.(space := true);
    RunsGap(e, Done);
    RunsDone(e);
  }

  lemma RunsDashes(d: Draft, dash: Act) returns (e: Draft)
    requires IsShort(d) && |d.out| <= 30 && IsSimple(dash) && |dash.text| == 1
    ensures Run(Then(Gap, Then(dash, Then(dash, Done))), d, true) == e
    ensures e.out == d.out + [SPACE] + dash.text + dash.text && !e.plan
  {
    e := RunsSpaced(d, dash, Then(dash, Done));
    e := RunsText(e, dash, Done);
    RunsDone(e);
  }

  /** The word, the ':' and the dashes behind the value. */
  lemma RunsTail(d: Draft, word: Act, colon: Act, dash: Act) returns (e: Draft)
    requires IsShort(d) && |d.out| <= 15 && IsLongWord(word) && IsSimple(colon) && |colon.text| == 1 && IsSimple(dash) && |dash.text| == 1
    ensures Run(Then(Gap, Then(word, Then(colon, Then(Gap, Then(dash, Then(dash, Done)))))), d, true) == e
    ensures e.out == d.out + [SPACE] + word.text + colon.text + [SPACE] + dash.text + dash.text && !e.plan
  {
    var rest := Then(colon, Then(Gap, Then(dash, Then(dash, Done))));
    RunsGap(d, Then(word, rest));
    var f := RunsWord(d.(space := true), word, rest);
    f := RunsText(f, colon, rest.rest);
    e := RunsDashes(f, dash);
  }

  lemma RunsKeyed(session: Act, word: Act, colon: Act, dash: Act) returns (e: Draft)
    requires IsSession(session) && IsLongWord(word) && IsSimple(colon) && |colon.text| == 1 && IsSimple(dash) && |dash.text| == 1
    ensures Run(KeyedScript(session, word, colon, dash), EMPTY, true) == e && !e.plan && |e.out| == 27
    ensures e.out == session.text + [SPACE, DOLLAR, 49] + [EQUALS, DOLLAR, 50] + [SPACE] + word.text + colon.text + [SPACE] + dash.text + dash.text
  {
    var tail := Then(Gap, Then(word, Then(colon, Then(Gap, Then(dash, Then(dash, Done))))));
    var d := RunsSession(session, tail);
    e := RunsTail(d, word, colon, dash);
  }

  /** The session's number and its value, whatever follows. */
  lemma RunsSession(session: Act, tail: Script) returns (d: Draft)
    requires IsSession(session)
    ensures Run(Then(session, Then(Gap, Then(Mask, Then(Key, tail)))), EMPTY, true) == Run(tail, d, true)
    ensures d.out == session.text + [SPACE, DOLLAR, 49] + [EQUALS, DOLLAR, 50] && !d.space && !d.plan && d.list.step == Outside && !d.stmt
  {
    d := RunsWord(EMPTY, session, Then(Gap, Then(Mask, Then(Key, tail))));
    d := RunsValue(d, Then(Key, tail));
    d := RunsKey(d, tail);
  }

  function KeyedScript(session: Act, word: Act, colon: Act, dash: Act): Script {
    Then(session, Then(Gap, Then(Mask, Then(Key,
      Then(Gap, Then(word, Then(colon, Then(Gap, Then(dash, Then(dash, Done))))))))))
  }

  function OnceScript(session: Act, equals: Act, words: bytes): Script {
    Then(session, Then(Gap, Then(Mask, Then(equals, Then(Mask, Then(Gap, Then(Mark(words, false), Then(Gap, Then(Gap, Done)))))))))
  }

  lemma RunsOnce(session: Act, equals: Act, words: bytes) returns (e: Draft)
    requires IsSession(session) && IsSimple(equals) && !Joins(equals) && equals.text == [EQUALS] && |words| == 9
    ensures Run(OnceScript(session, equals, words), EMPTY, true) == e && !e.plan && |e.out| == 24
    ensures e.out == session.text + [SPACE, DOLLAR, 49] + [EQUALS, DOLLAR, 50] + [SPACE] + words + [COLON]
  {
    var tail := Then(Gap, Then(Mark(words, false), Then(Gap, Then(Gap, Done))));
    var d := RunsWord(EMPTY, session, Then(Gap, Then(Mask, Then(equals, Then(Mask, tail)))));
    d := RunsValue(d, Then(equals, Then(Mask, tail)));
    d := RunsEquals(d, equals, tail);
    e := RunsMarkOnly(d, words);
  }

  // ----- The result -----

  lemma ActsAre(session: Act, word: Act, colon: Act, dash: Act, equals: Act)
    requires session == Text(Word, SESSION) && word == Text(Word, STATEMENT) && colon == Mark1(COLON) && dash == Mark1(45) && equals == Mark1(EQUALS)
    ensures IsSession(session) && IsLongWord(word) && IsSimple(colon) && IsSimple(dash) && IsSimple(equals) && !Joins(equals)
  {
  }

  lemma KeyedTemplate(s: bytes, session: Act, word: Act, colon: Act, dash: Act, equals: Act)
    requires s == KEYED
    requires session == Text(Word, SESSION) && word == Text(Word, STATEMENT) && colon == Mark1(COLON) && dash == Mark1(45) && equals == Mark1(EQUALS)
    ensures TemplateOf(s, false) == SESSION + [SPACE, DOLLAR, 49] + [EQUALS, DOLLAR, 50] + [SPACE] + STATEMENT + [COLON] + [SPACE] + [45] + [45]
  {
    ActsAre(session, word, colon, dash, equals);
    assert ReadMessage(s, 0, START, false) == KeyedScript(session, word, colon, dash) by {
      KeyedIsKeyed(s);
      ReadsKeyed(s, Then(Mask, Then(Key, Tail())));
    }
    var e := RunsKeyed(session, word, colon, dash);
    FromScript(s, KeyedScript(session, word, colon, dash), e);
  }

  lemma OnceTemplate(s: bytes, session: Act, word: Act, colon: Act, dash: Act, equals: Act)
    requires s == ONCE
    requires session == Text(Word, SESSION) && word == Text(Word, STATEMENT) && colon == Mark1(COLON) && dash == Mark1(45) && equals == Mark1(EQUALS)
    ensures TemplateOf(s, false) == SESSION + [SPACE, DOLLAR, 49] + [EQUALS, DOLLAR, 50] + [SPACE] + STATEMENT + [COLON]
  {
    ActsAre(session, word, colon, dash, equals);
    assert ReadMessage(s, 0, START, false) == OnceScript(session, equals, word.text) by {
      OnceIsOnce(s);
      ReadsOnce(s, Then(Mask, Then(Mark1(EQUALS), Then(Mask, Then(Gap, Statement())))));
    }
    var e := RunsOnce(session, equals, word.text);
    FromScript(s, OnceScript(session, equals, word.text), e);
  }

  lemma Spelled()
    ensures ONCE == SESSION + [SPACE, DOLLAR, 49] + [EQUALS, DOLLAR, 50] + [SPACE] + STATEMENT + [COLON] + [SPACE] + [45] + [45]
    ensures TWICE == SESSION + [SPACE, DOLLAR, 49] + [EQUALS, DOLLAR, 50] + [SPACE] + STATEMENT + [COLON]
  {
  }

  /** Masking the template of this message again loses text, without any literal before a ':'. */
  lemma MaskingKeysAgainCanChange(m: bytes)
    requires m == KEYED
    ensures TemplateOf(m, false) == ONCE && TemplateOf(TemplateOf(m, false), false) == TWICE && ONCE != TWICE
  {
    Spelled();
    KeyedTemplate(m, Text(Word, SESSION), Text(Word, STATEMENT), Mark1(COLON), Mark1(45), Mark1(EQUALS));
    OnceTemplate(TemplateOf(m, false), Text(Word, SESSION), Text(Word, STATEMENT), Mark1(COLON), Mark1(45), Mark1(EQUALS));
  }
}
