/**
 * Names and data in double quotes, on the bytes of a message: which quoted tokens the template
 * hides, so that their text may be exchanged, and which it shows letter for letter.
 */
module Quoting {
  import opened Bytes
  import opened Tokenizer
  import opened Rules
  import opened Masking
  import opened Cutting
  import opened Templates
  import opened Steps
  import opened Twins
  import opened Verbatim
  import opened Words
  import Suffixes
  import MessageSuffixes
  import Invisible

  /** The double-quoted token at m: both quotes and what is between them. */
  function QuotedAt(s: bytes, m: nat): (b: bytes)
    requires m < |s|
  {
    s[m..QuotedEnd(s, m + 1, QUOTE, false)]
  }

  // ----- The step over a quoted token -----

  lemma NoPathAtQuote(s: bytes, m: nat)
    requires At(s, m, QUOTE)
    ensures PathAt(s, m) == 0
  {
    assert RunEnd(s, m, WordByte) == m;
  }

  lemma QuoteToken(s: bytes, m: nat)
    requires At(s, m, QUOTE)
    ensures TokenAt(s, m, false) == Token(Ident, QuotedEnd(s, m + 1, QUOTE, false))
  {
  }

  /** Reading takes a quoted token in one step: it becomes a placeholder, or stays. */
  lemma QuoteStep(s: bytes, m: nat, d: Context, data: bool, e: nat, masked: bool)
    requires At(s, m, QUOTE) && e == QuotedEnd(s, m + 1, QUOTE, false) && masked == IsMasked(d, Ident, QuotedAt(s, m), data)
    ensures m < e <= |s|
    ensures StepAt(s, m, d, data) ==
      Moves(Some(if masked then Mask else Text(Ident, QuotedAt(s, m))), e, AfterToken(d, Ident, QuotedAt(s, m), masked))
  {
    NoPathAtQuote(s, m);
    QuoteToken(s, m);
  }

  lemma QuoteEnds(s: bytes, m: nat)
    requires At(s, m, QUOTE)
    ensures var e := QuotedEnd(s, m + 1, QUOTE, false); e < |s| ==> s[e - 1] == QUOTE && m < e
  {
    if QuotedEnd(s, m + 1, QUOTE, false) < |s| {
      Invisible.ClosedByQuote(s, m + 1, QUOTE, false);
    }
  }

  /** Behind two quoted tokens the same rest reads the same. */
  lemma SameBehindQuotes(x: bytes, y: bytes, m: nat, e: nat, f: nat, c: Context, data: bool)
    requires At(x, m, QUOTE) && At(y, m, QUOTE) && e == QuotedEnd(x, m + 1, QUOTE, false) && f == QuotedEnd(y, m + 1, QUOTE, false)
    requires x[e..] == y[f..]
    ensures ReadAlike(x, e, y, f, c, data)
  {
    assert |x| - e == |x[e..]| == |y[f..]| == |y| - f;
    QuoteEnds(x, m);
    QuoteEnds(y, m);
    if e < |x| {
      MessageSuffixes.SameMessages(x, e, y, f, c, data);
    }
  }

  /** x and y are the same but for the body of the double-quoted token at m, which reading comes to in both. */
  ghost predicate DifferInQuotes(x: bytes, y: bytes, m: nat, data: bool, d: Context) {
    && AreTwins(x, y, m) && x[m] == 34 && Reaches(x, 0, START, data, m, d) && Reaches(y, 0, START, data, m, d)
    && x[QuotedEnd(x, m + 1, QUOTE, false)..] == y[QuotedEnd(y, m + 1, QUOTE, false)..]
  }

  /** Two quoted tokens that are both masked may be exchanged. */
  lemma MaskedIsInvisible(x: bytes, y: bytes, m: nat, data: bool, d: Context)
    requires DifferInQuotes(x, y, m, data, d) && IsMasked(d, Ident, QuotedAt(x, m), data) && IsMasked(d, Ident, QuotedAt(y, m), data)
    ensures TemplateOf(x, data) == TemplateOf(y, data)
  {
    var e, f := QuotedEnd(x, m + 1, QUOTE, false), QuotedEnd(y, m + 1, QUOTE, false);
    var after := AfterToken(d, Ident, QuotedAt(x, m), true);
    TwinBytes(x, y, m, m, m + 1);
    QuoteStep(x, m, d, data, e, true);
    QuoteStep(y, m, d, data, f, true);
    SameBehindQuotes(x, y, m, e, f, after, data);
    SameStepsAlike(x, m, StepAt(x, m, d, data), y, m, StepAt(y, m, d, data), d, data);
    TwinsReach(x, y, m, m, 0, START, data, d, d);
  }

  /** A template that ends in no ellipsis: nothing was cut. */
  predicate IsUncut(t: bytes) { |t| < 3 || t[|t| - 3..] != [0xE2, 0x80, 0xA6] }

  /** A quoted token that stays is in the template. */
  lemma KeptShows(x: bytes, m: nat, data: bool, d: Context)
    requires At(x, m, QUOTE) && Reaches(x, 0, START, data, m, d) && !IsMasked(d, Ident, QuotedAt(x, m), data)
    requires IsUncut(TemplateOf(x, data))
    ensures Shows(TemplateOf(x, data), QuotedAt(x, m))
  {
    QuoteStep(x, m, d, data, QuotedEnd(x, m + 1, QUOTE, false), false);
    ReadsByStep(x, m, d, data);
    KeptTokenShows(x, m, d, data, ReadMessage(x, m, d, data));
  }

  // ----- What the context remembers -----

  /** The first i bytes of s end with the word w, in either case. */
  predicate EndsFold(s: bytes, i: nat, w: string) { |w| <= i <= |s| && EqualFold(s[i - |w|..i], Ascii(w)) }

  /** Where the white space before m starts. */
  function BlanksBefore(s: bytes, m: nat): (k: nat)
    requires m <= |s|
    ensures k <= m
  {
    BackOverBlanks(s, m - 1) + 1
  }

  /** A name is expected, or a data value, only behind the word or the ':' that says so. */
  ghost predicate Tells(s: bytes, pos: nat, c: Context)
    requires pos <= |s|
  {
    var k := BlanksBefore(s, pos);
    && (c.named ==> EndsFold(s, k, "constraint") || EndsFold(s, k, "index") || EndsFold(s, k, "table"))
    && (c.after == Data ==> 0 < k && s[k - 1] == 58)
  }

  lemma NameEndsFold(s: bytes, pos: nat, e: nat)
    requires pos < e <= |s| && IsNameWord(s[pos..e])
    ensures BlanksBefore(s, e) == e && (EndsFold(s, e, "constraint") || EndsFold(s, e, "index") || EndsFold(s, e, "table"))
  {
    var k :| 0 <= k < 3 && EqualFold(s[pos..e], NameWord(k));
    NameWordLetters(k, |NameWord(k)| - 1);
    assert s[pos..e][e - pos - 1] == s[e - 1];
    assert pos == e - |NameWord(k)|;
  }

  lemma NameWordLetters(k: nat, i: nat)
    requires k < 3 && i < |NameWord(k)|
    ensures NameWord(k)[i] > 32
  {
  }

  lemma BlanksAreSkipped(s: bytes, pos: nat, e: nat)
    requires pos < e <= |s| && forall i | pos <= i < e :: IsBlank(s[i])
    ensures BlanksBefore(s, e) == BlanksBefore(s, pos)
  {
    Suffixes.LookOverBlanks(s, pos, e);
  }

  lemma SpaceTells(s: bytes, pos: nat, c: Context, d: Context, e: nat)
    requires pos < |s| && IsBlank(s[pos]) && e == RunEnd(s, pos, Blank) && Tells(s, pos, c) && d.named == c.named && d.after == c.after
    ensures Tells(s, e, d)
  {
    Suffixes.RunIsBlank(s, pos);
    BlanksAreSkipped(s, pos, e);
  }

  lemma PlainTells(s: bytes, pos: nat, c: Context, data: bool, t: Token)
    requires pos < t.end <= |s| && t.kind != Space && t.kind != Comment
    ensures Tells(s, PlainStep(s, pos, c, data, t).next, PlainStep(s, pos, c, data, t).ctx)
  {
    var b := s[pos..t.end];
    if t.kind == Word && IsNameWord(b) {
      NameEndsFold(s, pos, t.end);
    }
    if b == [58] {
      assert s[t.end - 1] == b[0];
    }
  }

  lemma NumericKind(s: bytes, i: nat)
    requires i < |s| && NumberAt(s, if s[i] == PLUS || s[i] == MINUS then i + 1 else i)
    ensures NumericToken(s, i, false).kind in {Number, Hex, Word, Punct}
  {
  }

  lemma WordKind(s: bytes, i: nat)
    requires i < |s| && IsWordByte(s[i])
    ensures WordToken(s, i, false).kind in {Ident, String, Hex, Word}
  {
  }

  lemma DollarKind(s: bytes, i: nat)
    requires i < |s|
    ensures DollarToken(s, i).kind in {Param, Punct, Dollar}
  {
  }

  lemma OtherKind(s: bytes, i: nat)
    requires i < |s| && !IsBlank(s[i])
    ensures TokenAt(s, i, false).kind != Space && TokenAt(s, i, false).kind != Comment
  {
    DollarKind(s, i);
    if StartsNumber(s, i, false) {
      NumericKind(s, i);
    }
    if IsWordByte(s[i]) {
      WordKind(s, i);
    }
  }

  lemma SpaceIsBlank(s: bytes, pos: nat)
    requires pos < |s| && (TokenAt(s, pos, false).kind == Space || TokenAt(s, pos, false).kind == Comment)
    ensures IsBlank(s[pos]) && TokenAt(s, pos, false).end == RunEnd(s, pos, Blank)
  {
    if !IsBlank(s[pos]) {
      OtherKind(s, pos);
    }
  }

  lemma StepTells(s: bytes, pos: nat, c: Context, data: bool)
    requires pos <= |s| && Tells(s, pos, c) && StepAt(s, pos, c, data).Moves?
    ensures Tells(s, StepAt(s, pos, c, data).next, StepAt(s, pos, c, data).ctx)
  {
    if PathAt(s, pos) == 0 {
      var t := TokenAt(s, pos, false);
      StaysInMessage(s, pos, c, data, t, MarkerAt(s, pos));
      if t.kind == Space || t.kind == Comment {
        SpaceIsBlank(s, pos);
        SpaceTells(s, pos, c, StepAt(s, pos, c, data).ctx, t.end);
      } else {
        PlainTells(s, pos, c, data, t);
      }
    }
  }

  lemma {:induction false} ReachedTells(s: bytes, pos: nat, c: Context, data: bool, m: nat, d: Context)
    requires pos <= m <= |s| && Tells(s, pos, c) && Reaches(s, pos, c, data, m, d)
    ensures Tells(s, m, d)
    decreases m - pos
  {
    if pos < m {
      var step := ReachesOn(s, pos, c, data, m, d);
      StepTells(s, pos, c, data);
      ReachedTells(s, step.next, step.ctx, data, m, d);
    }
  }

  // ----- Tokens that are hidden -----

  lemma DataIsMasked(x: bytes, m: nat, d: Context)
    requires m <= |x| && Reaches(x, 0, START, true, m, d)
    requires var k := BlanksBefore(x, m); !EndsFold(x, k, "constraint") && !EndsFold(x, k, "index") && !EndsFold(x, k, "table")
    ensures forall b :: IsMasked(d, Ident, b, true)
  {
    ReachedTells(x, 0, START, true, m, d);
  }

  /**
   * Under an SQLSTATE of class 22 or 23 the text of a double-quoted token that is not right behind
   * the word constraint, index or table does not show in the template.
   */
  lemma DataIsHidden(x: bytes, y: bytes, m: nat, code: bytes, d: Context)
    requires |code| == 5 && code[0] == 50 && (code[1] == 50 || code[1] == 51) && DifferInQuotes(x, y, m, true, d)
    requires var k := BlanksBefore(x, m); !EndsFold(x, k, "constraint") && !EndsFold(x, k, "index") && !EndsFold(x, k, "table")
    ensures TemplateOf(x, IsDataClass(code)) == TemplateOf(y, IsDataClass(code))
  {
    DataIsMasked(x, m, d);
    MaskedIsInvisible(x, y, m, true, d);
  }

  /** The body of a quoted token shows a value: a number, an interval, a time, a quoted text, or a path. */
  predicate ShowsValue(b: bytes) {
    |b| > 2 && (48 <= b[1] <= 57 || b[1] in {36, 43, 45, 46, 58} || 39 in b[1..] || (b[1] == 47 && IsLetter(b[2])))
  }

  lemma ValueIsMasked(x: bytes, m: nat, b: bytes, d: Context, data: bool)
    requires At(x, m, QUOTE) && b == QuotedAt(x, m) && ShowsValue(b)
    ensures IsMasked(d, Ident, b, data)
  {
    assert b[0] == x[m];
  }

  /** Blanks, and the no-break spaces U+00A0 and U+202F, that stand behind a guillemet. */
  predicate AreNoBreaks(w: bytes)
    decreases |w|
  {
    || w == []
    || (w[0] == 32 && AreNoBreaks(w[1..]))
    || (|w| >= 2 && w[..2] == [0xC2, 0xA0] && AreNoBreaks(w[2..]))
    || (|w| >= 3 && w[..3] == [0xE2, 0x80, 0xAF] && AreNoBreaks(w[3..]))
  }

  lemma {:induction false} NoBreaksEnd(pre: bytes, w: bytes, t: bytes, b: bytes)
    requires b == pre + w + t && AreNoBreaks(w) && t != [] && t[0] !in {32, 0xC2, 0xE2}
    ensures NoBreakEnd(b, |pre|) == |pre| + |w|
    decreases |w|
  {
    var i := |pre|;
    if w == [] {
      assert b[i] == t[0];
    } else {
      assert b[i] == w[0] && (|w| > 1 ==> b[i + 1] == w[1]) && (|w| > 2 ==> b[i + 2] == w[2]);
      var n := if w[0] == 32 then 1 else if w[0] == 0xC2 then 2 else 3;
      assert |w| >= 2 ==> w[..2][0] == w[0] && w[..2][1] == w[1];
      assert |w| >= 3 ==> w[..3][0] == w[0] && w[..3][1] == w[1] && w[..3][2] == w[2];
      assert b == (pre + w[..n]) + w[n..] + t;
      NoBreaksEnd(pre + w[..n], w[n..], t, b);
    }
  }

  /** Where the body of a quoted token starts: behind '"', behind U&", and behind a guillemet with its blanks. */
  lemma BodyStarts(t: bytes, w: bytes, g: byte)
    requires t != [] && t[0] !in {32, 0xC2, 0xE2} && AreNoBreaks(w)
    ensures BodyStart([34] + t) == 1 && BodyStart([85, 38, 34] + t) == 3 && BodyStart([117, 38, 34] + t) == 3
    ensures BodyStart([0xC2, g] + w + t) == 2 + |w|
  {
    NoBreaksEnd([0xC2, g], w, t, [0xC2, g] + w + t);
  }

  /** Between "for" and ':' stand words and quoted tokens; anything else ends the phrase. */
  lemma PhraseGoesOn(c: Context, k: Kind, b: bytes, masked: bool)
    requires c.after == Phrase.Words
    ensures AfterToken(c, k, b, masked).after ==
      if k in {Space, Word, Ident} then Phrase.Words else if k == Punct && b == [58] then Data else NoPhrase
    ensures c.after == Phrase.Words && k == Word && EqualFold(b, Ascii("for")) ==> AfterToken(c, k, b, masked).after == Phrase.Words
  {
  }

  /** Behind the ':' the phrase holds for the next token only. */
  lemma PhraseHoldsOnce(c: Context, k: Kind, b: bytes, masked: bool)
    requires c.after == Data && k != Space
    ensures AfterToken(c, k, b, masked).after == if k == Word && EqualFold(b, Ascii("for")) then Phrase.Words else NoPhrase
  {
  }

  /** Whatever the class, and whatever word is before it, the text of a token that shows a value does not show. */
  lemma ValueIsHidden(x: bytes, y: bytes, m: nat, data: bool, d: Context)
    requires DifferInQuotes(x, y, m, data, d) && ShowsValue(QuotedAt(x, m)) && ShowsValue(QuotedAt(y, m))
    ensures TemplateOf(x, data) == TemplateOf(y, data)
  {
    TwinBytes(x, y, m, m, m + 1);
    ValueIsMasked(x, m, QuotedAt(x, m), d, data);
    ValueIsMasked(y, m, QuotedAt(y, m), d, data);
    MaskedIsInvisible(x, y, m, data, d);
  }

  /** Only letters and white space from i to k, where a ':' stands. */
  predicate AreWords(s: bytes, i: nat, k: nat) {
    At(s, k, COLON) && forall j | i <= j < k :: IsLetter(s[j]) || IsBlank(s[j])
  }

  lemma {:induction false} LettersEnd(s: bytes, i: nat, j: nat, k: nat) returns (e: nat)
    requires AreWords(s, i, k) && StopsWord(s, k) && i <= j <= k && AreLetters(s, i, j)
    ensures j <= e <= k && AreLetters(s, i, e) && StopsWord(s, e)
    decreases k - j
  {
    e := j;
    if j < k && IsLetter(s[j]) {
      e := LettersEnd(s, i, j + 1, k);
    }
  }

  /** Words behind "for" keep the phrase open. */
  lemma {:induction false} OverWords(s: bytes, i: nat, k: nat, c: Context, data: bool) returns (d: Context)
    requires i <= k && AreWords(s, i, k) && StopsWord(s, k) && c.after == Phrase.Words && !c.marker
    ensures Reaches(s, i, c, data, k, d) && d.after == Phrase.Words && !d.marker
    decreases k - i
  {
    d := c;
    if i < k {
      var e, f: Context;
      if IsBlank(s[i]) {
        e := RunEnd(s, i, Blank);
        BlanksEndBefore(s, i, k);
        f := OverBlanks(s, i, c, data);
      } else {
        e := LettersEnd(s, i, i + 1, k);
        f := OverWord(s, i, e, c, data);
      }
      d := OverWords(s, e, k, f, data);
      ReachesThen(s, i, c, data, e, f, k, d);
    }
  }

  lemma BlanksEndBefore(s: bytes, i: nat, k: nat)
    requires i < k && At(s, k, COLON) && IsBlank(s[i])
    ensures i < RunEnd(s, i, Blank) <= k
    decreases k - i
  {
    if i + 1 < k && IsBlank(s[i + 1]) {
      BlanksEndBefore(s, i + 1, k);
    }
  }

  /** The words "for ... :" are from a to k, and the double quote at m is right behind them. */
  ghost predicate IsForPhrase(s: bytes, a: nat, k: nat, m: nat) {
    && a + 3 < k < m < |s| && EqualFold(s[a..a + 3], Ascii("for")) && IsBlank(s[a + 3])
    && AreWords(s, a + 3, k) && m == RunEnd(s, k + 1, Blank) && s[m] == 34
  }

  lemma ForLetters(b: bytes)
    requires EqualFold(b, Ascii("for"))
    ensures |b| == 3 && b[0] in {102, 70} && b[1] in {111, 79} && b[2] in {114, 82}
  {
    var w := Ascii("for");
    assert w[0] == 102 && w[1] == 111 && w[2] == 114;
    assert Lower(b[0]) == 102 && Lower(b[1]) == 111 && Lower(b[2]) == 114;
  }

  lemma ForBytes(s: bytes, a: nat, b: bytes)
    requires a + 3 < |s| && b == s[a..a + 3] && EqualFold(b, Ascii("for")) && IsBlank(s[a + 3])
    ensures s[a] in {102, 70} && s[a + 1] in {111, 79} && IsLetterWord(s, a, a + 3)
  {
    ForLetters(b);
    assert b[0] == s[a] && b[1] == s[a + 1] && b[2] == s[a + 2];
  }

  lemma ForIsNoMarker(s: bytes, a: nat, b: bytes)
    requires a + 3 < |s| && |b| == 3 && s[a] in {102, 70} && s[a + 1] in {111, 79}
    ensures MarkerAt(s, a).NoMarker? && b != Ascii("plan")
  {
    assert |Ascii("plan")| == 4;
    NoMarkerAt(s, a);
  }

  lemma ForOpensPhrase(c: Context, b: bytes)
    requires EqualFold(b, Ascii("for"))
    ensures var d := AfterToken(c, Word, b, false); d.after == Phrase.Words && !d.marker
  {
    ForLetters(b);
  }

  lemma ColonStops(s: bytes, a: nat, k: nat, m: nat)
    requires IsForPhrase(s, a, k, m)
    ensures StopsWord(s, k)
  {
  }

  lemma OverFor(s: bytes, a: nat, k: nat, m: nat, c: Context, data: bool) returns (d: Context)
    requires IsForPhrase(s, a, k, m)
    ensures Reaches(s, a, c, data, k, d) && d.after == Phrase.Words
  {
    var b := s[a..a + 3];
    ForBytes(s, a, b);
    ForIsNoMarker(s, a, b);
    ForOpensPhrase(c, b);
    ColonStops(s, a, k, m);
    var e := OverWord(s, a, a + 3, c, data);
    d := OverWords(s, a + 3, k, e, data);
    ReachesThen(s, a, c, data, a + 3, e, k, d);
  }

  lemma ColonExpectsData(s: bytes, k: nat, m: nat, f: Context, data: bool) returns (d: Context)
    requires At(s, k, COLON) && m == RunEnd(s, k + 1, Blank) && f.after == Phrase.Words
    ensures Reaches(s, k, f, data, m, d) && d.after == Data
  {
    ColonStep(s, k, f, data);
    OneStep(s, k, f, data);
    var g := AfterToken(f, Punct, [COLON], false);
    d := OverBlanks(s, k + 1, g, data);
    ReachesThen(s, k, f, data, k + 1, g, m, d);
  }

  /** Behind the phrase a data value is expected. */
  lemma PhraseExpectsData(s: bytes, a: nat, k: nat, m: nat, c: Context, data: bool) returns (d: Context)
    requires IsForPhrase(s, a, k, m)
    ensures Reaches(s, a, c, data, m, d) && d.after == Data
  {
    var f := OverFor(s, a, k, m, c, data);
    d := ColonExpectsData(s, k, m, f, data);
    ReachesThen(s, a, c, data, k, f, m, d);
  }

  lemma SamePhrase(x: bytes, y: bytes, a: nat, k: nat, m: nat)
    requires AreTwins(x, y, m) && IsForPhrase(x, a, k, m)
    ensures IsForPhrase(y, a, k, m)
  {
    TwinBytes(x, y, m, a, a + 3);
    forall i | a <= i <= m
      ensures x[i] == y[i]
    {
      TwinBytes(x, y, m, i, i + 1);
    }
    SameRun(x, y, k + 1, m);
  }

  lemma SameRun(x: bytes, y: bytes, i: nat, m: nat)
    requires i <= m < |x| && m < |y| && (forall j | i <= j <= m :: x[j] == y[j]) && RunEnd(x, i, Blank) == m
    ensures RunEnd(y, i, Blank) == m
    decreases m - i
  {
    if i < m {
      SameRun(x, y, i + 1, m);
    }
  }

  /** Behind "for", words, and a ':', whatever the class, the text of a double-quoted token does not show. */
  lemma PhraseDataIsHidden(x: bytes, y: bytes, a: nat, k: nat, m: nat, data: bool, c: Context, d: Context)
    requires AreTwins(x, y, m) && IsForPhrase(x, a, k, m)
    requires Reaches(x, 0, START, data, a, c) && Reaches(y, 0, START, data, a, d)
    requires x[QuotedEnd(x, m + 1, QUOTE, false)..] == y[QuotedEnd(y, m + 1, QUOTE, false)..]
    ensures TemplateOf(x, data) == TemplateOf(y, data)
  {
    SamePhrase(x, y, a, k, m);
    var e := PhraseExpectsData(x, a, k, m, c, data);
    var f := PhraseExpectsData(y, a, k, m, d, data);
    ReachesThen(x, 0, START, data, a, c, m, e);
    ReachesThen(y, 0, START, data, a, d, m, f);
    TwinsReach(x, y, m, m, 0, START, data, e, f);
    MaskedIsInvisible(x, y, m, data, e);
  }

  // ----- Tokens that are shown -----

  /** A name in double quotes: letters, digits, underscores and bytes past ASCII, no digit first. */
  predicate IsQuotedName(b: bytes) {
    && |b| > 2 && b[0] == 34 && b[|b| - 1] == 34 && !(48 <= b[1] <= 57)
    && forall i | 1 <= i < |b| - 1 :: IsWordByte(b[i])
  }

  lemma NameRun(b: bytes, i: nat)
    requires IsQuotedName(b) && 1 <= i < |b|
    ensures RunEnd(b, i, WordByte) == |b| - 1
    decreases |b| - i
  {
    if i < |b| - 1 {
      NameRun(b, i + 1);
    }
  }

  /** A name shows no value. */
  lemma NameIsNoValue(b: bytes)
    requires IsQuotedName(b)
    ensures !IsQuotedValue(b)
  {
    NameRun(b, 1);
    NoApostrophe(b);
    assert IsWordByte(b[1]);
  }

  lemma NoApostrophe(b: bytes)
    requires IsQuotedName(b)
    ensures APOSTROPHE !in b[1..]
  {
    forall i | 1 <= i < |b|
      ensures b[i] != APOSTROPHE
    {
    }
  }

  /**
   * Outside the classes 22 and 23 a quoted name that no ':' stands before is in the template, letter
   * for letter.
   */
  lemma NameIsShown(x: bytes, m: nat, code: bytes, d: Context)
    requires |code| == 5 && !(code[0] == 50 && (code[1] == 50 || code[1] == 51))
    requires At(x, m, 34) && Reaches(x, 0, START, false, m, d) && IsQuotedName(QuotedAt(x, m))
    requires var k := BlanksBefore(x, m); k == 0 || x[k - 1] != 58
    requires IsUncut(TemplateOf(x, IsDataClass(code)))
    ensures Shows(TemplateOf(x, IsDataClass(code)), QuotedAt(x, m))
  {
    ReachedTells(x, 0, START, false, m, d);
    NameIsNoValue(QuotedAt(x, m));
    KeptShows(x, m, false, d);
  }

  /** The word w, in either case, is from a to k, and the double quote at m is right behind it. */
  ghost predicate IsNameIntroduced(s: bytes, a: nat, w: string, m: nat) {
    var k := a + |w|;
    k <= m < |s| && EqualFold(s[a..k], Ascii(w)) && m == RunEnd(s, k, Blank) && s[m] == 34
  }

  lemma FoldedLetters(s: bytes, a: nat, k: nat, w: bytes)
    requires a <= k <= |s| && EqualFold(s[a..k], w) && forall i | 0 <= i < |w| :: 97 <= w[i] <= 122
    ensures AreLetters(s, a, k)
  {
    forall i | a <= i < k
      ensures IsLetter(s[i])
    {
      assert s[i] == s[a..k][i - a] && Lower(s[i]) == w[i - a];
    }
  }

  lemma NameWordIs(w: string)
    requires w in {"constraint", "index", "table"}
    ensures |w| >= 5 && Ascii(w)[0] in {99, 105, 116} && forall i | 0 <= i < |w| :: 97 <= Ascii(w)[i] <= 122
    ensures exists k :: 0 <= k < 3 && Ascii(w) == NameWord(k)
  {
    if w == "constraint" {
      assert Ascii(w) == NameWord(0);
    } else if w == "index" {
      assert Ascii(w) == NameWord(1);
    } else {
      assert Ascii(w) == NameWord(2);
    }
  }

  /** The word is read as a word, and remembered. */
  lemma NameWordBytes(s: bytes, a: nat, k: nat, w: string)
    requires w in {"constraint", "index", "table"} && k == a + |w| < |s| && EqualFold(s[a..k], Ascii(w)) && StopsWord(s, k)
    ensures IsLetterWord(s, a, k) && |s[a..k]| >= 5 && s[a] !in {115, 101, 112, 98, 102}
    ensures IsNameWord(s[a..k]) && !EqualFold(s[a..k], Ascii("for"))
  {
    NameWordIs(w);
    FoldedLetters(s, a, k, Ascii(w));
    assert s[a] == s[a..k][0] && Lower(s[a]) == Ascii(w)[0];
    assert |Ascii("for")| == 3;
  }

  lemma BlankOrQuote(s: bytes, k: nat, m: nat)
    requires k <= m < |s| && m == RunEnd(s, k, Blank) && s[m] == 34
    ensures StopsWord(s, k)
  {
  }

  /** Behind one of these words a name is expected, and no data value. */
  lemma WordExpectsName(s: bytes, a: nat, w: string, m: nat, c: Context, data: bool) returns (d: Context)
    requires w in {"constraint", "index", "table"} && IsNameIntroduced(s, a, w, m)
    ensures Reaches(s, a, c, data, m, d) && d.named && d.after != Data
  {
    var k := a + |w|;
    BlankOrQuote(s, k, m);
    NameWordBytes(s, a, k, w);
    assert |Ascii("plan")| == 4;
    NoMarkerAt(s, a);
    var e := OverWord(s, a, k, c, data);
    d := OverBlanks(s, k, e, data);
    ReachesThen(s, a, c, data, k, e, m, d);
  }

  /**
   * Whatever the class, a quoted name right behind the word constraint, index or table is in the
   * template, letter for letter.
   */
  lemma NamedIsShown(x: bytes, a: nat, w: string, m: nat, data: bool, c: Context)
    requires w in {"constraint", "index", "table"} && Reaches(x, 0, START, data, a, c) && IsNameIntroduced(x, a, w, m)
    requires IsQuotedName(QuotedAt(x, m)) && IsUncut(TemplateOf(x, data))
    ensures Shows(TemplateOf(x, data), QuotedAt(x, m))
  {
    var d := WordExpectsName(x, a, w, m, c, data);
    ReachesThen(x, 0, START, data, a, c, m, d);
    NameIsNoValue(QuotedAt(x, m));
    KeptShows(x, m, data, d);
  }

  // ----- A query plan -----

  /** "plan:" is at a, with white space or nothing behind it. */
  ghost predicate IsPlanText(s: bytes, a: nat) { a + 4 < |s| && s[a..a + 4] == [112, 108, 97, 110] && ColonEnds(s, a + 4) }

  lemma PlanStep(s: bytes, a: nat, d: Context, data: bool)
    requires IsPlanText(s, a) && d.marker && d.gap && !d.first
    ensures StepAt(s, a, d, data) == AtPlan
  {
    var b := s[a..a + 4];
    assert b[0] == s[a] && b[1] == s[a + 1] && b[2] == s[a + 2] && b[3] == s[a + 3];
    assert Ascii("plan") == b;
    LettersNoPath(s, a, a + 4);
    LettersToken(s, a, a + 4);
    PlanTokenStep(s, a, d, data, MarkerAt(s, a));
  }

  lemma PlanTokenStep(s: bytes, a: nat, d: Context, data: bool, found: Marker)
    requires IsPlanText(s, a) && d.marker && d.gap && !d.first && FoundIn(s, a, found) && Ascii("plan") == s[a..a + 4]
    ensures TokenStep(s, a, d, data, Token(Word, a + 4), found) == AtPlan
  {
  }

  lemma PlansAlike(x: bytes, y: bytes, a: nat, d: Context, data: bool)
    requires IsPlanText(x, a) && IsPlanText(y, a) && d.marker && d.gap && !d.first
    ensures ReadAlike(x, a, y, a, d, data)
  {
    PlanStep(x, a, d, data);
    PlanStep(y, a, d, data);
    SameStepsAlike(x, a, AtPlan, y, a, AtPlan, d, data);
  }

  /** Behind a value and white space, "plan:" ends the template: no byte of the plan shows. */
  lemma PlanIsHidden(x: bytes, y: bytes, a: nat, m: nat, data: bool, d: Context)
    requires m == a + 4 && AreTwins(x, y, m) && IsPlanText(x, a) && IsPlanText(y, a)
    requires Reaches(x, 0, START, data, a, d) && Reaches(y, 0, START, data, a, d) && d.marker && d.gap && !d.first
    ensures TemplateOf(x, data) == TemplateOf(y, data)
  {
    PlansAlike(x, y, a, d, data);
    TwinsReach(x, y, m, a, 0, START, data, d, d);
  }
}
