/**
 * Messages, told by their bytes alone, that masking leaves alone the second time: words, numbers
 * with their units, "$1" and the like, white space, commas, semicolons and parentheses.
 */
module PlainMessages {
  import opened Bytes
  import opened Tokenizer
  import opened Rules
  import opened Masking
  import opened ListGrammar
  import opened Templates
  import opened Idempotence

  // ----- The bytes of a plain message -----

  predicate Separates(c: byte) { IsBlank(c) || IsSeparator(c) }

  /** A stretch ends at e. */
  predicate EndsAt(s: bytes, e: nat) { e == |s| || (e < |s| && Separates(s[e])) }

  /** The end of the stretch of bytes at i that do not separate. */
  function ChunkEnd(s: bytes, i: nat): (e: nat)
    requires i <= |s|
    ensures i <= e && EndsAt(s, e) && forall k | i <= k < e :: !Separates(s[k])
    decreases |s| - i
  {
    if i < |s| && !Separates(s[i]) then ChunkEnd(s, i + 1) else i
  }

  /** A word: ASCII letters, digits and '_', no digit at its head. */
  predicate WordIn(s: bytes, i: nat, e: nat)
    requires i < e <= |s|
  {
    IsWordStart(s[i]) && forall k | i <= k < e :: IsWordStart(s[k]) || IsDigit(s[k])
  }

  /** A placeholder: '$' and digits. */
  predicate HoleIn(s: bytes, i: nat, e: nat)
    requires i < e <= |s|
  {
    s[i] == DOLLAR && i + 1 < e && forall k | i < k < e :: IsDigit(s[k])
  }

  /** The end of the digits at i and of the fraction behind them. */
  function FixedEnd(s: bytes, i: nat): (f: nat)
    requires i <= |s|
    ensures i <= f <= |s|
  {
    var a := RunEnd(s, i, Digit);
    if At(s, a, DOT) && ClassAt(s, a + 1, Digit) then RunEnd(s, a + 1, Digit) else a
  }

  /** A number: digits, a fraction if any, and a '%' or a unit if any. */
  predicate NumberIn(s: bytes, i: nat, e: nat)
    requires i < e <= |s|
  {
    && IsDigit(s[i])
    && var f := FixedEnd(s, i); f <= e && (f == e || (f + 1 == e && s[f] == PERCENT) || IsUnit(s[f..e]))
  }

  /** From i on there are only words, numbers, placeholders and what separates them. */
  predicate IsPlain(s: bytes, i: nat)
    requires i <= |s|
    decreases |s| - i
  {
    if i == |s| then true
    else if Separates(s[i]) then IsPlain(s, i + 1)
    else
      var e := ChunkEnd(s, i);
      (WordIn(s, i, e) || NumberIn(s, i, e) || HoleIn(s, i, e)) && IsPlain(s, e)
  }

  // ----- No signs -----

  lemma UnitIsLetters(b: bytes)
    requires IsUnit(b)
    ensures 0 < |b| <= 3 && (forall k | 0 <= k < |b| :: IsLetter(b[k])) && (b[0] == 66 ==> |b| == 1)
    ensures !(b[0] in {101, 69, 120, 88, 111, 79, 98})
  {
  }

  lemma DigitsIn(s: bytes, i: nat)
    requires i <= |s|
    ensures forall k | i <= k < RunEnd(s, i, Digit) :: IsDigit(s[k])
    decreases |s| - i
  {
  }

  lemma NumberBytes(s: bytes, i: nat, e: nat, k: nat)
    requires i <= k < e <= |s| && NumberIn(s, i, e)
    ensures IsDigit(s[k]) || IsLetter(s[k]) || s[k] == DOT || s[k] == PERCENT
  {
    var a, f := RunEnd(s, i, Digit), FixedEnd(s, i);
    DigitsIn(s, i);
    if At(s, a, DOT) {
      DigitsIn(s, a + 1);
    }
    if f < e && !(f + 1 == e && s[f] == PERCENT) {
      UnitIsLetters(s[f..e]);
      if f <= k {
        assert s[k] == s[f..e][k - f];
      }
    }
  }

  predicate IsSign(c: byte) { c == COLON || c == SLASH || c == EQUALS }

  /** A plain message has no byte that makes a path, a marker or a key. */
  lemma {:induction false} PlainHasNoSign(s: bytes, i: nat, k: nat)
    requires i <= k < |s| && IsPlain(s, i)
    ensures !IsSign(s[k])
    decreases |s| - i
  {
    if Separates(s[i]) {
      if i < k {
        PlainHasNoSign(s, i + 1, k);
      }
    } else {
      var e := ChunkEnd(s, i);
      if e <= k {
        PlainHasNoSign(s, e, k);
      } else if NumberIn(s, i, e) {
        NumberBytes(s, i, e, k);
      }
    }
  }

  lemma PlainIsSignless(s: bytes)
    requires IsPlain(s, 0)
    ensures IsSignless(s)
  {
    forall k | 0 <= k < |s|
      ensures s[k] != COLON && s[k] != SLASH && s[k] != EQUALS
    {
      PlainHasNoSign(s, 0, k);
    }
  }

  // ----- The tokens of a plain message -----

  lemma WordStopsAt(s: bytes, i: nat, e: nat)
    requires i <= e <= |s| && (forall k | i <= k < e :: IsWordByte(s[k])) && EndsAt(s, e)
    ensures WordEnd(s, i) == e && RunEnd(s, i, WordByte) == e && !ContinuesWord(s, e)
    decreases e - i
  {
  }

  lemma NoLsn(s: bytes, i: nat)
    requires i <= |s| && IsSignless(s)
    ensures LsnEnd(s, i) == 0
  {
    var j := HexRun(s, i, 9);
    assert !At(s, j, SLASH);
  }

  lemma WordToken(s: bytes, i: nat, e: nat)
    requires i < e <= |s| && WordIn(s, i, e) && EndsAt(s, e) && IsSignless(s)
    ensures TokenAt(s, i, false) == Token(Word, e)
  {
    NoLsn(s, i);
    WordStopsAt(s, i + 1, e);
    assert i + 1 < e ==> s[i + 1] != AMPERSAND;
    assert QuotePrefix(s, i, false) == 0;
    assert Tokenizer.WordToken(s, i, false) == Token(Word, e);
  }

  lemma HoleStopsAt(s: bytes, i: nat, e: nat)
    requires i <= e <= |s| && (forall k | i <= k < e :: IsDigit(s[k])) && EndsAt(s, e)
    ensures RunEnd(s, i, Digit) == e
    decreases e - i
  {
  }

  lemma HoleToken(s: bytes, i: nat, e: nat)
    requires i < e <= |s| && HoleIn(s, i, e) && EndsAt(s, e)
    ensures TokenAt(s, i, false) == Token(Param, e)
  {
    HoleStopsAt(s, i + 1, e);
    assert DollarToken(s, i) == Token(Param, e);
  }

  lemma {:induction false} DigitsRun(s: bytes, i: nat)
    requires i <= |s| && !At(s, RunEnd(s, i, Digit), UNDERSCORE)
    ensures DigitsEnd(s, i, Digit) == RunEnd(s, i, Digit)
    decreases |s| - i
  {
    if ClassAt(s, i, Digit) {
      DigitsRun(s, i + 1);
    }
  }

  /** What stands behind the digits and the fraction of a number is no underscore and no exponent. */
  lemma BehindFixed(s: bytes, i: nat, e: nat)
    requires i < e <= |s| && NumberIn(s, i, e) && EndsAt(s, e)
    ensures var f := FixedEnd(s, i); f < |s| ==> s[f] != UNDERSCORE && s[f] != 101 && s[f] != 69
  {
    var f := FixedEnd(s, i);
    if f < e && !(f + 1 == e && s[f] == PERCENT) {
      UnitIsLetters(s[f..e]);
      assert s[f] == s[f..e][0];
    }
  }

  lemma FixedIsDecimal(s: bytes, i: nat, e: nat)
    requires i < e <= |s| && NumberIn(s, i, e) && EndsAt(s, e)
    ensures DecimalEnd(s, i) == FixedEnd(s, i)
  {
    BehindFixed(s, i, e);
    var a := RunEnd(s, i, Digit);
    DigitsRun(s, i);
    if At(s, a, DOT) && ClassAt(s, a + 1, Digit) {
      DigitsRun(s, a + 1);
    }
    assert ExponentEnd(s, FixedEnd(s, i)) == FixedEnd(s, i);
  }

  lemma NoRadix(s: bytes, i: nat, e: nat)
    requires i < e <= |s| && NumberIn(s, i, e) && EndsAt(s, e)
    ensures Radix(s, i).None?
  {
    if i + 2 < |s| && s[i] == 48 && !IsDigit(s[i + 1]) {
      assert RunEnd(s, i + 1, Digit) == i + 1;
      assert RunEnd(s, i, Digit) == i + 1;
      if s[i + 1] != DOT && i + 1 < e && s[i + 1] != PERCENT {
        UnitIsLetters(s[i + 1..e]);
        assert s[i + 1] == s[i + 1..e][0];
      }
    }
  }

  /** Behind e there is a space and a unit, which ends at u. */
  predicate UnitBehind(s: bytes, e: nat, u: nat) {
    && At(s, e, SPACE) && e + 1 < u <= |s| && IsUnit(s[e + 1..u]) && u == RunEnd(s, e + 1, WordByte) && !ContinuesWord(s, u)
  }

  lemma UnitStopsAt(s: bytes, f: nat, e: nat)
    requires f < e <= |s| && IsUnit(s[f..e]) && EndsAt(s, e)
    ensures ClassAt(s, f, WordByte) && RunEnd(s, f, WordByte) == e && !ContinuesWord(s, e)
  {
    UnitIsLetters(s[f..e]);
    forall k | f <= k < e
      ensures IsWordByte(s[k])
    {
      assert s[k] == s[f..e][k - f];
    }
    WordStopsAt(s, f, e);
  }

  lemma NumberEndsAt(s: bytes, i: nat, e: nat)
    requires i < e <= |s| && NumberIn(s, i, e) && EndsAt(s, e)
    ensures var t := WithUnit(s, i, FixedEnd(s, i), false, false);
      t.kind == Number && (t.end == e || UnitBehind(s, e, t.end))
  {
    var f := FixedEnd(s, i);
    if f < e && !(f + 1 == e && s[f] == PERCENT) {
      UnitStopsAt(s, f, e);
    }
  }

  lemma NumberToken(s: bytes, i: nat, e: nat)
    requires i < e <= |s| && NumberIn(s, i, e) && EndsAt(s, e) && IsSignless(s)
    ensures var t := TokenAt(s, i, false); t.kind == Number && (t.end == e || UnitBehind(s, e, t.end))
  {
    FixedIsDecimal(s, i, e);
    NoRadix(s, i, e);
    NoLsn(s, i);
    NumberEndsAt(s, i, e);
    assert NumericToken(s, i, false) == WithUnit(s, i, FixedEnd(s, i), false, false);
  }

  /** Behind a unit that a number has taken with it the message is plain. */
  lemma PlainBehindUnit(s: bytes, e: nat, u: nat)
    requires e < |s| && IsPlain(s, e) && UnitBehind(s, e, u)
    ensures EndsAt(s, u) && IsPlain(s, u)
  {
    var i := e + 1;
    assert IsPlain(s, i);
    UnitIsLetters(s[i..u]);
    assert s[i] == s[i..u][0];
    var k := ChunkEnd(s, i);
    assert WordIn(s, i, k);
    WordStopsAt(s, i, k);
  }

  // ----- The reading of a plain message -----

  /** What is read from i on is tame, and set apart from what is before it if the text is. */
  ghost predicate ReadsTame(s: bytes, i: nat, c: Context, data: bool)
    requires i <= |s|
  {
    var r := ReadMessage(s, i, c, data);
    IsTame(r) && IdsAreMasked(r, c.idNext) && (!c.first && EndsAt(s, i) ==> IsApart(r))
  }

  lemma {:induction false} PlainBehindBlanks(s: bytes, i: nat)
    requires i <= |s| && IsPlain(s, i)
    ensures IsPlain(s, RunEnd(s, i, Blank))
    decreases |s| - i
  {
    if ClassAt(s, i, Blank) {
      PlainBehindBlanks(s, i + 1);
    }
  }

  lemma IDWordIsLetters(k: nat)
    ensures forall i | 0 <= i < |IDWord(k)| :: IsLetter(IDWord(k)[i])
  {
  }

  lemma IDWordHasNoDigit(b: bytes)
    requires IsIDWord(b)
    ensures !HasDigit(b)
  {
    var k :| 0 <= k < 14 && EqualFold(b, IDWord(k));
    IDWordIsLetters(k);
    forall i | 0 <= i < |b|
      ensures !IsDigit(b[i])
    {
      assert Lower(b[i]) == IDWord(k)[i] && IsLetter(IDWord(k)[i]);
    }
  }

  lemma WordInSlice(s: bytes, i: nat, e: nat)
    requires i < e <= |s| && WordIn(s, i, e)
    ensures IsPlainWord(s[i..e])
  {
    forall k | 0 <= k < e - i
      ensures IsWordStart(s[i..e][k]) || IsDigit(s[i..e][k])
    {
      assert s[i..e][k] == s[i + k];
    }
  }

  /** A token in front of a tame reading, as an act. */
  lemma ActInFront(a: Act, r: Script, id: bool)
    requires IsTame(r) && IdsAreMasked(r, AwaitsID(a, id))
    requires a == Gap || IsMark(a) || ((a == Mask || IsKeptWord(a)) && IsApart(r))
    requires !(id && IsKeptWord(a) && HasDigit(a.text))
    ensures IsTame(Then(a, r)) && IdsAreMasked(Then(a, r), id)
  {
  }

  /** What the token k at i becomes, and what the reading awaits behind it. */
  lemma TokenActs(s: bytes, i: nat, c: Context, data: bool, k: Token) returns (a: Act, d: Context)
    requires i < k.end <= |s| && IsSignless(s) && TokenAt(s, i, false) == k
    requires k.kind == Word ==> IsPlainWord(s[i..k.end])
    requires k.kind == Word || k.kind == Number || k.kind == Param || (k.kind == Punct && k.end == i + 1 && IsSeparator(s[i]))
    ensures ReadMessage(s, i, c, data) == Then(a, ReadMessage(s, k.end, d, data))
    ensures !d.first && d.idNext == AwaitsID(a, c.idNext) && !(c.idNext && IsKeptWord(a) && HasDigit(a.text))
    ensures if k.kind == Punct then IsMark(a) else a == Mask || IsKeptWord(a)
    ensures a == if k.kind == Word && !(c.idNext && HasDigit(s[i..k.end])) then Text(Word, s[i..k.end])
                 else if k.kind == Punct then Text(Punct, s[i..k.end]) else Mask
  {
    NoPath(s, i);
    NoMarkerAt(s, i);
    NoSigns(s, i, k.end);
    PlainIsFound(s, i, c, data, k);
    var b := s[i..k.end];
    var masked := IsMasked(c, k.kind, b, data);
    a := if masked then Mask else Text(k.kind, b);
    d := AfterToken(c, k.kind, b, masked);
    if k.kind == Word && masked && IsIDWord(b) {
      IDWordHasNoDigit(b);
    }
  }

  /** The token of a stretch: a word, a number, with a unit behind it perhaps, or a placeholder. */
  lemma ChunkToken(s: bytes, i: nat) returns (k: Token)
    requires i < |s| && IsSignless(s) && IsPlain(s, i) && !Separates(s[i])
    ensures k == TokenAt(s, i, false) && i < k.end && IsPlain(s, k.end) && EndsAt(s, k.end)
    ensures (k.kind == Word && IsPlainWord(s[i..k.end])) || k.kind == Number || k.kind == Param
  {
    var e := ChunkEnd(s, i);
    k := TokenAt(s, i, false);
    if WordIn(s, i, e) {
      WordToken(s, i, e);
      WordInSlice(s, i, e);
    } else if NumberIn(s, i, e) {
      NumberToken(s, i, e);
      if k.end != e {
        PlainBehindUnit(s, e, k.end);
      }
    } else {
      HoleToken(s, i, e);
    }
  }

  lemma SpaceToken(s: bytes, i: nat, c: Context, data: bool)
    requires i < |s| && IsBlank(s[i]) && IsSignless(s)
    ensures var e := RunEnd(s, i, Blank);
      var rest := ReadMessage(s, e, c.(gap := !c.first, prev := Space), data);
      i < e && ReadMessage(s, i, c, data) == if c.first then rest else Then(Gap, rest)
  {
    NoPath(s, i);
    assert TokenAt(s, i, false) == Token(Space, RunEnd(s, i, Blank));
  }

  /** A plain message reads as a tame script, from each of its tokens on. */
  lemma {:induction false} PlainReads(s: bytes, i: nat, c: Context, data: bool)
    requires i <= |s| && IsSignless(s) && IsPlain(s, i)
    ensures ReadsTame(s, i, c, data)
    decreases |s| - i
  {
    if i == |s| {
      NoPath(s, i);
    } else if IsBlank(s[i]) {
      var d := c.(gap := !c.first, prev := Space);
      SpaceToken(s, i, c, data);
      PlainBehindBlanks(s, i);
      PlainReads(s, RunEnd(s, i, Blank), d, data);
    } else {
      var k := Token(Punct, i + 1);
      if !Separates(s[i]) {
        k := ChunkToken(s, i);
      } else {
        MarkIsRead(s, i);
      }
      var a, d := TokenActs(s, i, c, data, k);
      PlainReads(s, k.end, d, data);
      ActInFront(a, ReadMessage(s, k.end, d, data), c.idNext);
    }
  }

  /**
   * Masking the template of a plain message again changes nothing, if the template is within the
   * limit. Not so for every message: see Relapse.
   */
  lemma MaskingIsIdempotent(s: bytes, data: bool)
    requires IsPlain(s, 0) && |Drafted(s, data).out| <= LIMIT
    ensures TemplateOf(TemplateOf(s, data), data) == TemplateOf(s, data)
  {
    PlainIsSignless(s);
    PlainReads(s, 0, START, data);
    TameIsIdempotent(s, data);
  }
}
