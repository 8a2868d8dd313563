/** Values in a message whose text does not show: strings in apostrophes, and what stands behind "key=". */
module Hidden {
  import opened Bytes
  import opened Tokenizer
  import opened Rules
  import opened Masking
  import opened Templates
  import opened Steps
  import opened Twins
  import opened Words
  import Suffixes
  import MessageSuffixes
  import Invisible

  // ----- Behind a value -----

  /** Where a value may end: at the end, before white space, or before ',', ';' or ')'. */
  predicate IsEdge(s: bytes, e: nat) { e == |s| || (e < |s| && (IsBlank(s[e]) || s[e] == 44 || s[e] == 59 || s[e] == 41)) }

  lemma SameHead(x: bytes, e: nat, y: bytes, f: nat)
    requires e < |x| && f <= |y| && x[e..] == y[f..]
    ensures f < |y| && x[e] == y[f] && |x| - e == |y| - f && x[e + 1..] == y[f + 1..]
  {
    assert x[e] == x[e..][0] == y[f..][0];
    assert x[e + 1..] == x[e..][1..] && y[f + 1..] == y[f..][1..];
  }

  lemma SameRuns(x: bytes, e: nat, y: bytes, f: nat) returns (k: nat, j: nat)
    requires e < |x| && f < |y| && x[e..] == y[f..] && IsBlank(x[e]) && x[e] == y[f]
    ensures k == RunEnd(x, e, Blank) && j == RunEnd(y, f, Blank) && e < k <= |x| && f < j <= |y|
    ensures x[k - 1] == y[j - 1] && x[k..] == y[j..]
  {
    Suffixes.RunShift(x, e, 0, Blank);
    Suffixes.RunShift(y, f, 0, Blank);
    k, j := RunEnd(x, e, Blank), RunEnd(y, f, Blank);
    var n := k - e;
    assert x[k - 1] == x[e..][n - 1] && y[j - 1] == y[f..][n - 1];
    assert x[k..] == x[e..][n..] && y[j..] == y[f..][n..];
  }

  lemma MarkStep(s: bytes, e: nat, c: Context, data: bool)
    requires e < |s| && s[e] in {COMMA, SEMICOLON, RPAREN}
    ensures StepAt(s, e, c, data) == Moves(Some(Text(Punct, [s[e]])), e + 1, AfterToken(c, Punct, [s[e]], false))
  {
    assert RunEnd(s, e, WordByte) == e;
    assert TokenAt(s, e, false) == Token(Punct, e + 1);
    assert s[e..e + 1] == [s[e]];
  }

  lemma SameFromBlank(x: bytes, e: nat, y: bytes, f: nat, c: Context, data: bool)
    requires e < |x| && f < |y| && x[e..] == y[f..] && IsBlank(x[e]) && x[e] == y[f]
    ensures ReadAlike(x, e, y, f, c, data)
  {
    var k, j := SameRuns(x, e, y, f);
    SpaceStep(x, e, c, data);
    SpaceStep(y, f, c, data);
    MessageSuffixes.SameMessages(x, k, y, j, c.(gap := !c.first, prev := Space), data);
    SameStepsAlike(x, e, StepAt(x, e, c, data), y, f, StepAt(y, f, c, data), c, data);
  }

  lemma SameFromMark(x: bytes, e: nat, y: bytes, f: nat, c: Context, data: bool)
    requires e < |x| && f < |y| && x[e + 1..] == y[f + 1..] && x[e] in {COMMA, SEMICOLON, RPAREN} && x[e] == y[f]
    ensures ReadAlike(x, e, y, f, c, data)
  {
    MarkStep(x, e, c, data);
    MarkStep(y, f, c, data);
    MessageSuffixes.SameMessages(x, e + 1, y, f + 1, AfterToken(c, Punct, [x[e]], false), data);
    SameStepsAlike(x, e, StepAt(x, e, c, data), y, f, StepAt(y, f, c, data), c, data);
  }

  lemma SameEnds(x: bytes, y: bytes, c: Context, data: bool)
    ensures ReadAlike(x, |x|, y, |y|, c, data)
  {
    SameStepsAlike(x, |x|, StepAt(x, |x|, c, data), y, |y|, StepAt(y, |y|, c, data), c, data);
  }

  /** From an edge on the same rest reads the same, whatever is before it. */
  lemma SameFromEdge(x: bytes, e: nat, y: bytes, f: nat, c: Context, data: bool)
    requires e <= |x| && f <= |y| && x[e..] == y[f..] && IsEdge(x, e)
    ensures ReadAlike(x, e, y, f, c, data)
  {
    if e == |x| {
      assert |y[f..]| == 0;
      SameEnds(x, y, c, data);
    } else {
      SameHead(x, e, y, f);
      if IsBlank(x[e]) {
        SameFromBlank(x, e, y, f, c, data);
      } else {
        SameFromMark(x, e, y, f, c, data);
      }
    }
  }

  // ----- Keys and values -----

  lemma KeyStep(s: bytes, m: nat, d: Context, data: bool)
    requires At(s, m, EQUALS) && d.prev == Word
    ensures StepAt(s, m, d, data) == Moves(Some(Key), ValueEnd(s, m + 1), AfterValue(false))
  {
    assert RunEnd(s, m, WordByte) == m;
    assert TokenAt(s, m, false) == Token(Punct, m + 1);
  }

  /** Behind anything but a word a '=' is a mark like any other. */
  lemma NoKeyStep(s: bytes, m: nat, d: Context, data: bool)
    requires At(s, m, EQUALS) && d.prev != Word
    ensures StepAt(s, m, d, data) == Moves(Some(Text(Punct, [61])), m + 1, AfterToken(d, Punct, [61], false))
  {
    assert RunEnd(s, m, WordByte) == m;
    assert TokenAt(s, m, false) == Token(Punct, m + 1);
    assert s[m..m + 1] == [61];
  }

  lemma {:induction false} ValueEndsAtEdge(s: bytes, pos: nat)
    requires pos <= |s|
    ensures IsEdge(s, ValueEnd(s, pos))
    decreases |s| - pos
  {
    if pos < |s| {
      var t := TokenAt(s, pos, false);
      if t.kind == Space {
        SpaceStarts(s, pos);
      } else if !(t.kind == Punct && EndsValue(s[pos])) {
        ValueEndsAtEdge(s, t.end);
      }
    }
  }

  lemma SpaceStarts(s: bytes, pos: nat)
    requires pos < |s| && TokenAt(s, pos, false).kind == Space
    ensures IsBlank(s[pos])
  {
    if !IsBlank(s[pos]) {
      NoSpace(s, pos);
    }
  }

  lemma NoSpace(s: bytes, i: nat)
    requires i < |s| && !IsBlank(s[i])
    ensures TokenAt(s, i, false).kind != Space
  {
    var d := DollarToken(s, i);
    assert d.kind in {Param, Punct, Dollar};
    if StartsNumber(s, i, false) {
      assert NumericToken(s, i, false).kind in {Number, Hex, Tokenizer.Word, Punct};
    }
    if IsWordByte(s[i]) {
      assert WordToken(s, i, false).kind in {Ident, String, Hex, Tokenizer.Word};
    }
  }

  /** Behind a word and '=' the value does not show: two messages that differ only in it have the same template. */
  lemma KeyedValueIsHidden(x: bytes, y: bytes, m: nat, data: bool, d: Context)
    requires AreTwins(x, y, m) && x[m] == 61 && y[m] == 61 && d.prev == Word
    requires Reaches(x, 0, START, data, m, d) && Reaches(y, 0, START, data, m, d)
    requires x[ValueEnd(x, m + 1)..] == y[ValueEnd(y, m + 1)..]
    ensures TemplateOf(x, data) == TemplateOf(y, data)
  {
    var e, f := ValueEnd(x, m + 1), ValueEnd(y, m + 1);
    KeyStep(x, m, d, data);
    KeyStep(y, m, d, data);
    ValueEndsAtEdge(x, m + 1);
    SameFromEdge(x, e, y, f, AfterValue(false), data);
    SameStepsAlike(x, m, Moves(Some(Key), e, AfterValue(false)), y, m, Moves(Some(Key), f, AfterValue(false)), d, data);
    TwinsReach(x, y, m, m, 0, START, data, d, d);
  }

  /** A value of letters ends where they do. */
  lemma LettersAreValue(s: bytes, pos: nat, k: nat)
    requires IsLetterWord(s, pos, k) && IsEdge(s, k)
    ensures ValueEnd(s, pos) == k
  {
    LettersToken(s, pos, k);
    if k < |s| {
      assert TokenAt(s, k, false) == if IsBlank(s[k]) then Token(Space, RunEnd(s, k + 1, Blank)) else Token(Punct, k + 1);
    }
  }

  // ----- Strings -----

  /** The text in apostrophes at m, which no word is before. */
  ghost predicate IsStringAt(s: bytes, m: nat) { At(s, m, 39) && (m > 0 ==> !IsWordByte(s[m - 1])) }

  lemma StringStep(s: bytes, m: nat, d: Context, data: bool, e: nat)
    requires IsStringAt(s, m) && e == QuotedEnd(s, m + 1, APOSTROPHE, false)
    ensures m < e <= |s|
    ensures StepAt(s, m, d, data) == Moves(Some(Mask), e, AfterToken(d, String, s[m..e], true))
  {
    assert RunEnd(s, m, WordByte) == m;
    assert TokenAt(s, m, false) == Token(String, e);
  }

  lemma StringEnds(s: bytes, m: nat, e: nat)
    requires At(s, m, 39) && e == QuotedEnd(s, m + 1, APOSTROPHE, false) < |s|
    ensures 0 < e && s[e - 1] == 39
  {
    Invisible.ClosedByQuote(s, m + 1, APOSTROPHE, false);
  }

  lemma SameBehindStrings(x: bytes, m: nat, e: nat, y: bytes, f: nat, c: Context, data: bool)
    requires At(x, m, 39) && At(y, m, 39) && m < e <= |x| && m < f <= |y| && x[e..] == y[f..]
    requires e == QuotedEnd(x, m + 1, APOSTROPHE, false) && f == QuotedEnd(y, m + 1, APOSTROPHE, false)
    ensures ReadAlike(x, e, y, f, c, data)
  {
    assert |x| - e == |x[e..]| == |y[f..]| == |y| - f;
    if e < |x| {
      StringEnds(x, m, e);
      StringEnds(y, m, f);
      MessageSuffixes.SameMessages(x, e, y, f, c, data);
    } else {
      SameEnds(x, y, c, data);
    }
  }

  /** A string in apostrophes does not show, in a message of any class. */
  lemma StringIsHidden(x: bytes, y: bytes, m: nat, data: bool, d: Context)
    requires AreTwins(x, y, m) && IsStringAt(x, m) && IsStringAt(y, m)
    requires Reaches(x, 0, START, data, m, d) && Reaches(y, 0, START, data, m, d)
    requires x[QuotedEnd(x, m + 1, APOSTROPHE, false)..] == y[QuotedEnd(y, m + 1, APOSTROPHE, false)..]
    ensures TemplateOf(x, data) == TemplateOf(y, data)
  {
    var e, f := QuotedEnd(x, m + 1, APOSTROPHE, false), QuotedEnd(y, m + 1, APOSTROPHE, false);
    var after := AfterToken(d, String, x[m..e], true);
    StringStep(x, m, d, data, e);
    StringStep(y, m, d, data, f);
    SameBehindStrings(x, m, e, y, f, after, data);
    SameStepsAlike(x, m, StepAt(x, m, d, data), y, m, StepAt(y, m, d, data), d, data);
    TwinsReach(x, y, m, m, 0, START, data, d, d);
  }
}
