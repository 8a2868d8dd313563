/**
 * Masking a template again can change it: a literal between "bind" and ':' hides a marker that its
 * placeholder brings out, and then a comment is lost.
 */
module Relapse {
  import opened Bytes
  import opened Tokenizer
  import opened Rules
  import opened Masking
  import opened ListGrammar
  import opened Limits
  import opened Templates
  import opened Cutting
  import Numbers

  /** bind 'a b': x -- y */
  const MESSAGE: bytes := [98, 105, 110, 100, 32, 39, 97, 32, 98, 39, 58, 32, 120, 32, 45, 45, 32, 121]

  /** bind $1: x -- y */
  const FIRST: bytes := [98, 105, 110, 100, 32, 36, 49, 58, 32, 120, 32, 45, 45, 32, 121]

  /** bind $1: x */
  const SECOND: bytes := [98, 105, 110, 100, 32, 36, 49, 58, 32, 120]

  const BIND: bytes := [98, 105, 110, 100]

  function Mark1(c: byte): Act { Text(Punct, [c]) }

  function Word1(c: byte): Act { Text(Word, [c]) }

  // ----- The two texts as scripts -----

  /** x -- y, as a message and as a statement has it. */
  function InMessage(): Script {
    Then(Gap, Then(Word1(120), Then(Gap, Then(Mark1(45), Then(Mark1(45), Then(Gap, Then(Word1(121), Done)))))))
  }

  function InStatement(): Script { Then(Gap, Then(Word1(120), Then(Gap, Then(Gap, Done)))) }

  function MessageScript(): Script {
    Then(Text(Word, BIND), Then(Gap, Then(Mask, Then(Mark1(COLON), InMessage()))))
  }

  function FirstScript(): Script { Then(Mark(BIND + [SPACE], true), InStatement()) }

  // ----- The tokens -----

  lemma HeadTokens()
    ensures TokenAt(MESSAGE, 0, false) == Token(Word, 4) && TokenAt(MESSAGE, 4, false) == Token(Space, 5)
    ensures TokenAt(MESSAGE, 5, false) == Token(String, 10) && TokenAt(MESSAGE, 10, false) == Token(Punct, 11)
  {
  }

  lemma TailTokens()
    ensures TokenAt(MESSAGE, 11, false) == Token(Space, 12) && TokenAt(MESSAGE, 12, false) == Token(Word, 13)
    ensures TokenAt(MESSAGE, 13, false) == Token(Space, 14) && TokenAt(MESSAGE, 14, false) == Token(Punct, 15)
  {
  }

  lemma LastTokens()
    ensures TokenAt(MESSAGE, 15, false) == Token(Punct, 16)
    ensures TokenAt(MESSAGE, 16, false) == Token(Space, 17) && TokenAt(MESSAGE, 17, false) == Token(Word, 18)
  {
  }

  lemma StatementTokens()
    ensures TokenAt(FIRST, 8, true) == Token(Space, 9) && TokenAt(FIRST, 9, true) == Token(Word, 10)
    ensures TokenAt(FIRST, 10, true) == Token(Space, 11) && TokenAt(FIRST, 11, true) == Token(Comment, 15)
  {
  }

  lemma FirstLetters()
    ensures Ascii("statement")[0] == 115 && Ascii("fastpath function call")[0] == 102
    ensures NamedWords(0)[0] == 101 && NamedWords(1)[0] == 101 && NamedWords(2)[0] == 112
  {
  }

  lemma BindWords()
    ensures NamedWords(3) == BIND + [SPACE]
  {
  }

  lemma NoMatch(s: bytes, m: bytes)
    requires s != [] && m != [] && m[0] != SPACE && s[0] != m[0]
    ensures MatchWords(s, 0, m) == 0
  {
  }

  lemma BindMatches(s: bytes)
    requires |s| > 6 && s[..5] == BIND + [SPACE] && !IsBlank(s[5])
    ensures MatchWords(s, 0, BIND + [SPACE]) == 5
  {
    var m := BIND + [SPACE];
    assert s[0] == s[..5][0] && s[1] == s[..5][1] && s[2] == s[..5][2] && s[3] == s[..5][3] && s[4] == s[..5][4];
    assert m[1..] == [105, 110, 100, 32] && m[1..][1..] == [110, 100, 32];
    assert RunEnd(s, 4, Blank) == 5;
    assert MatchRest(s, 4, [32]) == 5;
    assert [100 as byte, 32][1..] == [32];
    assert MatchRest(s, 3, [100, 32]) == 5;
    assert [110 as byte, 100, 32][1..] == [100, 32];
    assert MatchRest(s, 2, [110, 100, 32]) == 5;
  }

  /** A text that starts with "bind " has a marker there just when its name ends with a ':'. */
  lemma BindMarker(s: bytes)
    requires |s| > 6 && s[..5] == BIND + [SPACE] && !IsBlank(s[5])
    ensures var j := NameEnd(s, 5); MarkerAt(s, 0) == if j == 5 || !ColonEnds(s, j) then NoMarker else Marker(BIND + [SPACE], 5, j)
  {
    assert s[0] == s[..5][0];
    FirstLetters();
    BindWords();
    NoMatch(s, Ascii("statement"));
    NoMatch(s, Ascii("fastpath function call"));
    NoMatch(s, NamedWords(0));
    NoMatch(s, NamedWords(1));
    NoMatch(s, NamedWords(2));
    BindMatches(s);
    assert NamedMarker(s, 0, 2) == NamedMarker(s, 0, 3);
    assert NamedMarker(s, 0, 1) == NamedMarker(s, 0, 2);
  }

  lemma FirstIsMarker()
    ensures MarkerAt(FIRST, 0) == Marker(BIND + [SPACE], 5, 7)
  {
    BindMarker(FIRST);
    assert NameEnd(FIRST, 7) == 7;
    assert NameEnd(FIRST, 6) == 7;
  }

  lemma MessageIsNoMarker()
    ensures MarkerAt(MESSAGE, 0) == NoMarker
  {
    BindMarker(MESSAGE);
    assert NameEnd(MESSAGE, 7) == 7;
    assert NameEnd(MESSAGE, 6) == 7;
  }

  // ----- Reading -----

  /** A token that is no marker is read as its act. */
  lemma ReadsAct(s: bytes, i: nat, c: Context, t: Token, a: Act)
    requires i < t.end <= |s| && PathAt(s, i) == 0 && TokenAt(s, i, false) == t && t.kind != Space && t.kind != Comment
    requires !MarkerPlace(c, t.kind) || (c.first && MarkerAt(s, i) == NoMarker)
    requires s[i] != EQUALS && t.kind != Ident && (t.kind == Word ==> !c.idNext)
    requires a == if MasksLiteral(t.kind) then Mask else Text(t.kind, s[i..t.end])
    ensures ReadMessage(s, i, c, false) == Then(a, ReadMessage(s, t.end, AfterToken(c, t.kind, s[i..t.end], a == Mask), false))
  {
    assert IsMasked(c, t.kind, s[i..t.end], false) == (a == Mask);
    assert ReadToken(s, i, c, false, t) == ReadMarked(s, i, c, false, t, NoMarker);
    assert ReadPlain(s, i, c, false, t) == Then(a, ReadMessage(s, t.end, AfterToken(c, t.kind, s[i..t.end], a == Mask), false));
  }

  lemma ReadsGap(s: bytes, i: nat, c: Context, e: nat)
    requires i < e <= |s| && PathAt(s, i) == 0 && TokenAt(s, i, false) == Token(Space, e) && !c.first
    ensures ReadMessage(s, i, c, false) == Then(Gap, ReadMessage(s, e, c.(gap := true, prev := Space), false))
  {
  }

  lemma NoPaths(i: nat)
    requires i <= |MESSAGE|
    ensures PathAt(MESSAGE, i) == 0 && PathAt(FIRST, 0) == 0
  {
  }

  /** A place in the middle of the message where no marker may stand and no id is awaited. */
  predicate IsCalm(c: Context) { !c.first && !c.marker && !c.idNext }

  lemma ReadsY(c: Context)
    requires IsCalm(c)
    ensures ReadMessage(MESSAGE, 16, c, false) == Then(Gap, Then(Word1(121), Done))
  {
    LastTokens();
    NoPaths(16);
    NoPaths(17);
    NoPaths(18);
    ReadsGap(MESSAGE, 16, c, 17);
    ReadsAct(MESSAGE, 17, c.(gap := true, prev := Space), Token(Word, 18), Word1(121));
  }

  lemma ReadsDash(c: Context)
    requires IsCalm(c)
    ensures ReadMessage(MESSAGE, 15, c, false) == Then(Mark1(45), Then(Gap, Then(Word1(121), Done)))
  {
    LastTokens();
    NoPaths(15);
    ReadsAct(MESSAGE, 15, c, Token(Punct, 16), Mark1(45));
    ReadsY(AfterToken(c, Punct, MESSAGE[15..16], false));
  }

  lemma ReadsDashes(c: Context)
    requires IsCalm(c)
    ensures ReadMessage(MESSAGE, 14, c, false) == Then(Mark1(45), Then(Mark1(45), Then(Gap, Then(Word1(121), Done))))
  {
    TailTokens();
    NoPaths(14);
    ReadsAct(MESSAGE, 14, c, Token(Punct, 15), Mark1(45));
    ReadsDash(AfterToken(c, Punct, MESSAGE[14..15], false));
  }

  lemma ReadsX(c: Context)
    requires IsCalm(c)
    ensures ReadMessage(MESSAGE, 12, c, false) == InMessage().rest
  {
    TailTokens();
    NoPaths(12);
    NoPaths(13);
    XIsNoID();
    ReadsAct(MESSAGE, 12, c, Token(Word, 13), Word1(120));
    var d := AfterToken(c, Word, MESSAGE[12..13], false);
    ReadsGap(MESSAGE, 13, d, 14);
    ReadsDashes(d.(gap := true, prev := Space));
  }

  lemma ReadsBody(c: Context)
    requires IsCalm(c)
    ensures ReadMessage(MESSAGE, 11, c, false) == InMessage()
  {
    TailTokens();
    NoPaths(11);
    ReadsGap(MESSAGE, 11, c, 12);
    ReadsX(c.(gap := true, prev := Space));
  }

  lemma XIsNoID()
    ensures !IsIDWord(MESSAGE[12..13])
  {
    forall k | 0 <= k < 14
      ensures |IDWord(k)| > 1
    {
    }
  }

  lemma ReadsColon(c: Context)
    requires !c.first
    ensures ReadMessage(MESSAGE, 10, c, false) == Then(Mark1(COLON), InMessage())
  {
    HeadTokens();
    NoPaths(10);
    ReadsAct(MESSAGE, 10, c, Token(Punct, 11), Mark1(COLON));
    ReadsBody(AfterToken(c, Punct, MESSAGE[10..11], false));
  }

  lemma ReadsLiteral(c: Context)
    requires !c.first
    ensures ReadMessage(MESSAGE, 5, c, false) == Then(Mask, Then(Mark1(COLON), InMessage()))
  {
    HeadTokens();
    NoPaths(5);
    ReadsAct(MESSAGE, 5, c, Token(String, 10), Mask);
    ReadsColon(AfterToken(c, String, MESSAGE[5..10], true));
  }

  lemma ReadsHead()
    ensures ReadMessage(MESSAGE, 0, START, false) == MessageScript()
  {
    HeadTokens();
    NoPaths(0);
    NoPaths(4);
    MessageIsNoMarker();
    ReadsAct(MESSAGE, 0, START, Token(Word, 4), Text(Word, BIND));
    var c := AfterToken(START, Word, MESSAGE[0..4], false);
    ReadsGap(MESSAGE, 4, c, 5);
    ReadsLiteral(c.(gap := true, prev := Space));
  }

  lemma ReadsStatement()
    ensures ReadStatement(FIRST, 8) == InStatement()
  {
    StatementTokens();
    assert ReadStatement(FIRST, 15) == Done;
    assert ReadStatement(FIRST, 11) == Then(Gap, Done);
    assert ReadStatement(FIRST, 10) == Then(Gap, Then(Gap, Done));
    assert FIRST[9..10] == [120];
    assert ReadStatement(FIRST, 9) == Then(Word1(120), Then(Gap, Then(Gap, Done)));
  }

  lemma ReadsMarker(s: bytes, t: Token, m: Marker)
    requires |s| > 0 && PathAt(s, 0) == 0 && TokenAt(s, 0, false) == t && t.kind == Word && m == MarkerAt(s, 0) && m.Marker?
    ensures ReadMessage(s, 0, START, false) == Then(Mark(m.words, m.head < m.colon), ReadStatement(s, m.colon + 1))
  {
    assert ReadToken(s, 0, START, false, t) == ReadMarked(s, 0, START, false, t, m);
  }

  lemma FirstToken()
    ensures TokenAt(FIRST, 0, false) == Token(Word, 4)
  {
  }

  lemma ReadsFirst()
    ensures ReadMessage(FIRST, 0, START, false) == FirstScript()
  {
    NoPaths(0);
    FirstIsMarker();
    FirstToken();
    ReadsMarker(FIRST, Token(Word, 4), MarkerAt(FIRST, 0));
    ReadsStatement();
  }

  // ----- Writing -----

  /** A short draft outside every list. */
  predicate IsShort(d: Draft) { |d.out| <= 40 && !d.plan && d.list.step == Outside }

  /** A short token that is written as it is, and starts no list. */
  predicate IsSimple(a: Act) { a.Text? && |a.text| <= 5 && !IsIn(a) && !IsValues(a) && !IsDigitWord(a) }

  lemma RunsGap(d: Draft, rest: Script)
    requires IsShort(d)
    ensures Run(Then(Gap, rest), d, true) == Run(rest, d.(space := true), true)
  {
  }

  lemma PutsText(d: Draft, a: Act) returns (e: Draft)
    requires IsShort(d) && IsSimple(a)
    ensures e == Put(d, a, true)
    ensures e.out == Spaced(d.out, d.space) + a.text && !e.space && !e.plan && e.list.step == Outside
    ensures e.stmt == d.stmt && e.n == d.n && (e.fuse < 0 || Joins(a))
  {
    e := Put(d, a, true);
  }

  lemma RunsText(d: Draft, a: Act, rest: Script) returns (e: Draft)
    requires IsShort(d) && IsSimple(a)
    ensures Run(Then(a, rest), d, true) == Run(rest, e, true)
    ensures e.out == Spaced(d.out, d.space) + a.text && !e.space && !e.plan && e.list.step == Outside
    ensures e.stmt == d.stmt && e.n == d.n && (e.fuse < 0 || Joins(a))
  {
    e := PutsText(d, a);
  }

  lemma RunsSpaced(d: Draft, a: Act, rest: Script) returns (e: Draft)
    requires IsShort(d) && IsSimple(a)
    ensures Run(Then(Gap, Then(a, rest)), d, true) == Run(rest, e, true)
    ensures e.out == d.out + [SPACE] + a.text && !e.space && !e.plan && e.list.step == Outside
    ensures e.stmt == d.stmt && e.n == d.n
  {
    RunsGap(d, Then(a, rest));
    e := RunsText(d.(space := true), a, rest);
  }

  lemma RunsDone(d: Draft)
    requires IsShort(d)
    ensures Run(Done, d, true) == d
  {
  }

  /** A placeholder in a message, a space before it. */
  lemma RunsMask(d: Draft, rest: Script) returns (e: Draft)
    requires IsShort(d) && !d.stmt && d.n == 0
    ensures Run(Then(Gap, Then(Mask, rest)), d, true) == Run(rest, e, true)
    ensures e.out == d.out + [SPACE] + [36, 49] && !e.space && !e.plan && e.list.step == Outside && !e.stmt
  {
    RunsGap(d, Then(Mask, rest));
    e := Put(d.(space := true), Mask, true);
  }

  lemma RunsMark(words: bytes, rest: Script) returns (e: Draft)
    requires |words| <= 10
    ensures Run(Then(Mark(words, true), rest), EMPTY, true) == Run(rest, e, true)
    ensures e.out == words + [36, 49] + [COLON] && !e.space && !e.plan && e.list.step == Outside && e.stmt
  {
    e := Put(EMPTY, Mark(words, true), true);
  }

  lemma SimpleTokens()
    ensures IsSimple(Word1(120)) && IsSimple(Word1(121)) && IsSimple(Mark1(45)) && IsSimple(Mark1(COLON))
    ensures IsSimple(Text(Word, BIND))
  {
  }

  lemma RunsHead(b: Act, rest: Script) returns (e: Draft)
    requires IsSimple(b)
    ensures Run(Then(b, Then(Gap, Then(Mask, rest))), EMPTY, true) == Run(rest, e, true)
    ensures e.out == b.text + [SPACE] + [36, 49] && !e.space && !e.plan && e.list.step == Outside
  {
    e := RunsText(EMPTY, b, Then(Gap, Then(Mask, rest)));
    e := RunsMask(e, rest);
  }

  /** Two tokens with a space before each. */
  lemma RunsTwo(d: Draft, a: Act, b: Act, rest: Script) returns (e: Draft)
    requires IsShort(d) && |d.out| <= 30 && IsSimple(a) && IsSimple(b)
    ensures Run(Then(Gap, Then(a, Then(Gap, Then(b, rest)))), d, true) == Run(rest, e, true)
    ensures e.out == d.out + [SPACE] + a.text + [SPACE] + b.text && !e.space && !e.plan && e.list.step == Outside
  {
    e := RunsSpaced(d, a, Then(Gap, Then(b, rest)));
    e := RunsSpaced(e, b, rest);
  }

  /** The last two tokens, with a space between them. */
  lemma RunsLast(d: Draft, a: Act, b: Act) returns (e: Draft)
    requires IsShort(d) && !d.space && |d.out| <= 25 && IsSimple(a) && IsSimple(b)
    ensures Run(Then(a, Then(Gap, Then(b, Done))), d, true) == e
    ensures e.out == d.out + a.text + [SPACE] + b.text && !e.plan
  {
    e := RunsText(d, a, Then(Gap, Then(b, Done)));
    e := RunsSpaced(e, b, Done);
    RunsDone(e);
  }

  lemma RunsTail(d: Draft, x: Act, m: Act, y: Act) returns (e: Draft)
    requires IsShort(d) && |d.out| <= 13 && !d.space && IsSimple(x) && IsSimple(m) && IsSimple(y)
    ensures Run(Then(Gap, Then(x, Then(Gap, Then(m, Then(m, Then(Gap, Then(y, Done))))))), d, true) == e
    ensures e.out == d.out + [SPACE] + x.text + [SPACE] + m.text + m.text + [SPACE] + y.text && !e.plan
  {
    e := RunsTwo(d, x, m, Then(m, Then(Gap, Then(y, Done))));
    e := RunsLast(e, m, y);
  }

  lemma RunsMessage(b: Act, c: Act, x: Act, m: Act, y: Act) returns (e: Draft)
    requires IsSimple(b) && IsSimple(c) && |c.text| == 1 && IsSimple(x) && IsSimple(m) && IsSimple(y)
    ensures Run(MessageOf(b, c, x, m, y), EMPTY, true) == e && !e.plan
    ensures e.out == b.text + [SPACE, 36, 49] + c.text + [SPACE] + x.text + [SPACE] + m.text + m.text + [SPACE] + y.text
  {
    var t := Then(Gap, Then(x, Then(Gap, Then(m, Then(m, Then(Gap, Then(y, Done)))))));
    e := RunsHead(b, Then(c, t));
    e := RunsText(e, c, t);
    e := RunsTail(e, x, m, y);
  }

  function MessageOf(b: Act, c: Act, x: Act, m: Act, y: Act): Script {
    Then(b, Then(Gap, Then(Mask, Then(c, Then(Gap, Then(x, Then(Gap, Then(m, Then(m, Then(Gap, Then(y, Done)))))))))))
  }

  function StatementOf(words: bytes, x: Act): Script { Then(Mark(words, true), Then(Gap, Then(x, Then(Gap, Then(Gap, Done))))) }

  lemma RunsStatement(words: bytes, x: Act) returns (e: Draft)
    requires |words| <= 10 && IsSimple(x)
    ensures Run(StatementOf(words, x), EMPTY, true) == e && e.out == words + [36, 49] + [COLON] + [SPACE] + x.text && !e.plan
  {
    e := RunsMark(words, Then(Gap, Then(x, Then(Gap, Then(Gap, Done)))));
    e := RunsSpaced(e, x, Then(Gap, Then(Gap, Done)));
    RunsGap(e, Then(Gap, Done));
    e := e.(space := true);
    RunsGap(e, Done);
    RunsDone(e);
  }

  lemma FromScript(m: bytes, s: Script, e: Draft)
    requires ReadMessage(m, 0, START, false) == s && Run(s, EMPTY, true) == e && |e.out| <= 40 && !e.plan
    ensures TemplateOf(m, false) == e.out
  {
  }

  lemma FromActs(s: bytes, b: Act, c: Act, x: Act, m: Act, y: Act, out: bytes)
    requires IsSimple(b) && IsSimple(c) && |c.text| == 1 && IsSimple(x) && IsSimple(m) && IsSimple(y)
    requires ReadMessage(s, 0, START, false) == MessageOf(b, c, x, m, y)
    requires out == b.text + [SPACE, 36, 49] + c.text + [SPACE] + x.text + [SPACE] + m.text + m.text + [SPACE] + y.text
    ensures TemplateOf(s, false) == out
  {
    var e := RunsMessage(b, c, x, m, y);
    FromScript(s, MessageOf(b, c, x, m, y), e);
  }

  lemma Spelled(b: Act, c: Act, x: Act, m: Act, y: Act)
    requires b.Text? && c.Text? && x.Text? && m.Text? && y.Text?
    requires b.text == BIND && c.text == [COLON] && x.text == [120] && m.text == [45] && y.text == [121]
    ensures FIRST == b.text + [SPACE, 36, 49] + c.text + [SPACE] + x.text + [SPACE] + m.text + m.text + [SPACE] + y.text
  {
  }

  lemma MessageTemplate(s: bytes, b: Act, c: Act, x: Act, m: Act, y: Act)
    requires s == MESSAGE && b == Text(Word, BIND) && c == Mark1(COLON) && x == Word1(120) && m == Mark1(45) && y == Word1(121)
    ensures TemplateOf(s, false) == FIRST
  {
    assert ReadMessage(s, 0, START, false) == MessageOf(b, c, x, m, y) by {
      ReadsHead();
    }
    SimpleTokens();
    Spelled(b, c, x, m, y);
    FromActs(s, b, c, x, m, y, FIRST);
  }

  lemma FromStatement(s: bytes, words: bytes, x: Act, out: bytes)
    requires |words| <= 10 && IsSimple(x) && ReadMessage(s, 0, START, false) == StatementOf(words, x)
    requires out == words + [36, 49] + [COLON] + [SPACE] + x.text
    ensures TemplateOf(s, false) == out
  {
    var e := RunsStatement(words, x);
    FromScript(s, StatementOf(words, x), e);
  }

  lemma SpelledStatement(words: bytes, x: Act)
    requires words == BIND + [SPACE] && x.Text? && x.text == [120]
    ensures |words| == 5 && SECOND == words + [36, 49] + [COLON] + [SPACE] + x.text
  {
  }

  lemma FirstTemplate(s: bytes, words: bytes, x: Act)
    requires s == FIRST && words == BIND + [SPACE] && x == Word1(120)
    ensures TemplateOf(s, false) == SECOND
  {
    assert ReadMessage(s, 0, START, false) == StatementOf(words, x) by {
      ReadsFirst();
    }
    SimpleTokens();
    SpelledStatement(words, x);
    FromStatement(s, words, x, SECOND);
  }

  /** Masking a template again can lose text that is no literal: masking is not idempotent on every message. */
  lemma MaskingAgainCanChange(m: bytes)
    requires m == MESSAGE
    ensures TemplateOf(m, false) == FIRST && TemplateOf(TemplateOf(m, false), false) == SECOND && FIRST != SECOND
  {
    MessageTemplate(m, Text(Word, BIND), Mark1(COLON), Word1(120), Mark1(45), Word1(121));
    FirstTemplate(TemplateOf(m, false), BIND + [SPACE], Word1(120));
  }
}
