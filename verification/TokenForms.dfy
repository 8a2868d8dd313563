/** The forms of values, byte by byte, and that each is one token, which becomes a placeholder. */
module TokenForms {
  import opened Bytes
  import opened Tokenizer
  import opened Rules
  import opened Masking
  import opened Steps
  import opened Hidden

  // ----- Runs up to an edge -----

  ghost predicate AreAll(s: bytes, i: nat, e: nat, k: Class) { e <= |s| && forall j | i <= j < e :: InClass(k, s[j]) }

  lemma {:induction false} RunsTo(s: bytes, i: nat, e: nat, k: Class)
    requires i <= e && AreAll(s, i, e, k) && (e < |s| ==> !InClass(k, s[e]))
    ensures RunEnd(s, i, k) == e
    decreases e - i
  {
    if i < e {
      RunsTo(s, i + 1, e, k);
    }
  }

  predicate IsDigits(k: Class) { k == Digit || k == HexDigit || k == OctalDigit || k == BinaryDigit }

  lemma {:induction false} DigitsTo(s: bytes, i: nat, e: nat, k: Class)
    requires i <= e && AreAll(s, i, e, k) && (e < |s| ==> !InClass(k, s[e]) && s[e] != UNDERSCORE) && IsDigits(k)
    ensures DigitsEnd(s, i, k) == e
    decreases e - i
  {
    if i < e {
      DigitsTo(s, i + 1, e, k);
    }
  }

  /** A value that stands at i up to e becomes a placeholder in a message. */
  ghost predicate IsHidden(s: bytes, i: nat, e: nat) {
    i < e <= |s| && forall c, data :: StepAt(s, i, c, data).Moves? && StepAt(s, i, c, data).act == Some(Mask) && StepAt(s, i, c, data).next == e
  }

  /** And in a statement. */
  ghost predicate IsMaskedIn(s: bytes, i: nat, e: nat) {
    i < e <= |s| && ReadStatement(s, i) == Then(Mask, ReadStatement(s, e))
  }

  lemma HidesIn(s: bytes, i: nat, t: Token)
    requires i < t.end <= |s| && TokenAt(s, i, false) == t && t.kind in {Number, Hex, String, Dollar, Param} && PathAt(s, i) == 0
    ensures IsHidden(s, i, t.end)
  {
    forall c, data
      ensures StepAt(s, i, c, data).Moves? && StepAt(s, i, c, data).act == Some(Mask) && StepAt(s, i, c, data).next == t.end
    {
      assert StepAt(s, i, c, data) == TokenStep(s, i, c, data, t, MarkerAt(s, i));
    }
  }

  lemma MasksIn(s: bytes, i: nat, t: Token)
    requires i < t.end <= |s| && TokenAt(s, i, true) == t && t.kind in {Number, Hex, String, Dollar, Param}
    ensures IsMaskedIn(s, i, t.end)
  {
  }

  // ----- Integers that are not decimal -----

  /** The letter behind the 0, and the digits it calls for. */
  function DigitsOf(c: byte): Option<Class> {
    if c == 120 || c == 88 then Some(HexDigit) else if c == 111 || c == 79 then Some(OctalDigit)
    else if c == 98 || c == 66 then Some(BinaryDigit) else None
  }

  /** 0x1F, 0o17, 0b11 and the like, with a capital letter too. */
  ghost predicate IsRadixText(s: bytes, i: nat, e: nat) {
    && i + 2 < e <= |s| && s[i] == 48 && DigitsOf(s[i + 1]).Some? && AreAll(s, i + 2, e, DigitsOf(s[i + 1]).value) && IsEdge(s, e)
  }

  lemma RadixToken(s: bytes, i: nat, e: nat, stmt: bool)
    requires IsRadixText(s, i, e)
    ensures TokenAt(s, i, stmt) == Token(Hex, e)
  {
    DigitsTo(s, i + 2, e, DigitsOf(s[i + 1]).value);
    assert Radix(s, i) == DigitsOf(s[i + 1]);
    assert NumericToken(s, i, stmt) == Token(Hex, e);
  }

  lemma RadixIsHidden(s: bytes, i: nat, e: nat)
    requires IsRadixText(s, i, e)
    ensures IsHidden(s, i, e) && IsMaskedIn(s, i, e)
  {
    RadixToken(s, i, e, false);
    RadixToken(s, i, e, true);
    RadixIsNoPath(s, i, e);
    HidesIn(s, i, Token(Hex, e));
    MasksIn(s, i, Token(Hex, e));
  }

  lemma RadixIsNoPath(s: bytes, i: nat, e: nat)
    requires IsRadixText(s, i, e)
    ensures PathAt(s, i) == 0
  {
    assert AreAll(s, i, e, WordByte);
    RunsTo(s, i, e, WordByte);
  }

  // ----- Numbers with an exponent -----

  /** Digits, a fraction from a on, and an exponent with its sign from b on. */
  ghost predicate IsScientific(s: bytes, i: nat, a: nat, b: nat, e: nat) {
    && i < a && a + 1 < b && b + 2 < e <= |s| && AreAll(s, i, a, Digit) && s[a] == 46 && AreAll(s, a + 1, b, Digit)
    && (s[b] == 101 || s[b] == 69) && (s[b + 1] == 43 || s[b + 1] == 45) && AreAll(s, b + 2, e, Digit) && IsEdge(s, e)
  }

  lemma ScientificEnd(s: bytes, i: nat, a: nat, b: nat, e: nat)
    requires IsScientific(s, i, a, b, e)
    ensures NumberAt(s, i) && DecimalEnd(s, i) == e
  {
    DigitsTo(s, i, a, Digit);
    DigitsTo(s, a + 1, b, Digit);
    DigitsTo(s, b + 2, e, Digit);
    assert FractionEnd(s, a) == b;
    assert ExponentEnd(s, b) == e;
  }

  lemma EdgeHasNoUnit(s: bytes, i: nat, e: nat, signed: bool)
    requires i < e <= |s| && IsEdge(s, e) && (signed || ContinuesWord(s, i))
    ensures WithUnit(s, i, e, signed, true) == Token(Number, e)
  {
  }

  lemma ScientificIsMasked(s: bytes, i: nat, a: nat, b: nat, e: nat)
    requires IsScientific(s, i, a, b, e)
    ensures IsMaskedIn(s, i, e)
  {
    ScientificEnd(s, i, a, b, e);
    EdgeHasNoUnit(s, i, e, false);
    assert Radix(s, i).None?;
    assert NumericToken(s, i, true) == Token(Number, e);
    MasksIn(s, i, Token(Number, e));
  }

  // ----- Signs -----

  /** Digits behind a sign at i, up to e. */
  ghost predicate IsSigned(s: bytes, i: nat, e: nat) {
    i + 1 < e <= |s| && (s[i] == 43 || s[i] == 45) && AreAll(s, i + 1, e, Digit) && IsEdge(s, e)
  }

  /** What stands before i, but for white space, ends at j; nothing does when j is -1. */
  ghost predicate IsBefore(s: bytes, j: int, i: nat) {
    -1 <= j < i <= |s| && (forall k | j < k < i :: IsBlank(s[k])) && (j >= 0 ==> !IsBlank(s[j]))
  }

  lemma {:induction false} LooksBack(s: bytes, j: int, k: int)
    requires -1 <= j <= k < |s| && (forall l | j < l <= k :: IsBlank(s[l])) && (j >= 0 ==> !IsBlank(s[j]))
    ensures BackOverBlanks(s, k) == j
    decreases k - j
  {
    if j < k {
      LooksBack(s, j, k - 1);
    }
  }

  /** A value ends at j: with ')', ']', a quote of either kind, '$', or a word. */
  predicate EndsOperand(s: bytes, j: int) {
    0 <= j < |s| && (s[j] in {41, 93, 34, 39, 36} || IsWordByte(s[j]))
  }

  lemma SignedNumber(s: bytes, i: nat, e: nat, stmt: bool)
    requires IsSigned(s, i, e) && (stmt || !At(s, e, SPACE))
    ensures DecimalToken(s, i, true, stmt) == Token(Number, e) && NumericToken(s, i, stmt) == Token(Number, e)
  {
    DigitsTo(s, i + 1, e, Digit);
    assert DecimalEnd(s, i + 1) == e;
    SignedEnd(s, i, e, stmt);
  }

  /** A number with its sign takes no unit that is not there. */
  lemma SignedEnd(s: bytes, i: nat, e: nat, stmt: bool)
    requires IsSigned(s, i, e)
    ensures stmt || !At(s, e, SPACE) ==> WithUnit(s, i, e, true, stmt) == Token(Number, e)
  {
  }

  /**
   * A sign belongs to the number behind it, unless an operand stands before it; in a message it also
   * does right behind white space.
   */
  lemma SignBelongs(s: bytes, i: nat, e: nat, j: int)
    requires IsSigned(s, i, e) && IsBefore(s, j, i)
    ensures !EndsOperand(s, j) ==> TokenAt(s, i, true) == Token(Number, e)
    ensures EndsOperand(s, j) ==> TokenAt(s, i, true) == Token(Punct, i + 1)
    ensures EndsOperand(s, j) && j + 1 == i ==> TokenAt(s, i, false) == Token(Punct, i + 1)
    ensures !At(s, e, SPACE) && (!EndsOperand(s, j) || j + 1 < i) ==> TokenAt(s, i, false) == Token(Number, e)
  {
    LooksBack(s, j, i - 1);
    assert !At(s, i + 1, MINUS);
    if !At(s, e, SPACE) {
      SignedNumber(s, i, e, false);
    }
    SignedNumberIn(s, i, e);
  }

  lemma SignedNumberIn(s: bytes, i: nat, e: nat)
    requires IsSigned(s, i, e)
    ensures NumberAt(s, i + 1) && NumericToken(s, i, true) == Token(Number, e)
  {
    DigitsTo(s, i + 1, e, Digit);
    assert DecimalEnd(s, i + 1) == e;
    SignedEnd(s, i, e, true);
  }

  // ----- Strings of a statement -----

  lemma {:induction false} ClosesAt(s: bytes, i: nat, q: nat, backslash: bool)
    requires i <= q < |s| && s[q] == APOSTROPHE && (forall j | i <= j < q :: s[j] != APOSTROPHE && s[j] != BACKSLASH)
    requires q + 1 == |s| || s[q + 1] != APOSTROPHE
    ensures QuotedEnd(s, i, APOSTROPHE, backslash) == q + 1
    decreases q - i
  {
    if i < q {
      ClosesAt(s, i + 1, q, backslash);
    }
  }

  /** The body of a string from i on, and the apostrophe that closes it at q. */
  ghost predicate IsBody(s: bytes, i: nat, q: nat) {
    && i <= q < |s| && s[q] == 39 && (q + 1 == |s| || s[q + 1] != 39)
    && forall j | i <= j < q :: s[j] != 39 && s[j] != 92
  }

  /** The letters before a string: e, b, x and n, in either case. */
  predicate IsStringLetter(c: byte) { c in {69, 101, 66, 98, 88, 120, 78, 110} }

  /** 'text', E'text' and the like, and U&'text' are one value of a statement. */
  lemma StringsAreMasked(s: bytes, i: nat, n: nat, q: nat)
    requires IsBody(s, n + 1, q) && s[n] == 39
    requires n == i || (n == i + 1 && IsStringLetter(s[i])) || (n == i + 2 && (s[i] == 85 || s[i] == 117) && s[i + 1] == 38)
    ensures IsMaskedIn(s, i, q + 1)
  {
    ClosesAt(s, n + 1, q, n > i && s[i] in {69, 101});
    if n > i {
      assert QuotePrefix(s, i, true) == n + 1 - i;
      assert WordToken(s, i, true) == Token(String, q + 1);
      assert !StartsNumber(s, i, true);
    }
    assert TokenAt(s, i, true) == Token(String, q + 1);
    MasksIn(s, i, Token(String, q + 1));
  }

  /** A doubled apostrophe goes on, and in E'...' so does an escaped one. */
  lemma StringsGoOn(s: bytes, i: nat, backslash: bool)
    requires i + 1 < |s|
    ensures s[i] == 39 == s[i + 1] ==> QuotedEnd(s, i, APOSTROPHE, false) == QuotedEnd(s, i + 2, APOSTROPHE, false)
    ensures s[i] == 92 ==> QuotedEnd(s, i, APOSTROPHE, true) == QuotedEnd(s, i + 2, APOSTROPHE, true)
    ensures s[i] == 92 ==> QuotedEnd(s, i, APOSTROPHE, false) == QuotedEnd(s, i + 1, APOSTROPHE, false)
  {
  }

  // ----- Dollar quotes -----

  /** "$tag$", the tag letters, digits or underscores and no digit first, or empty. */
  ghost predicate IsTag(s: bytes, i: nat, k: nat) {
    && i < k < |s| && s[i] == 36 && s[k] == 36 && AreAll(s, i + 1, k, WordByte) && !(48 <= s[i + 1] <= 57)
  }

  predicate HasTag(s: bytes, j: nat, tag: bytes) { j + |tag| <= |s| && s[j..j + |tag|] == tag }

  /** The tag comes again at c, and not before. */
  ghost predicate ComesAgain(s: bytes, tag: bytes, from: nat, c: nat) {
    from <= c && HasTag(s, c, tag) && forall j | from <= j < c :: !HasTag(s, j, tag)
  }

  lemma {:induction false} FindsAt(s: bytes, i: nat, c: nat, tag: bytes)
    requires i <= |s| && ComesAgain(s, tag, i, c)
    ensures Find(s, i, tag) == c
    decreases c - i
  {
    if i < c {
      assert !HasTag(s, i, tag);
      FindsAt(s, i + 1, c, tag);
    }
  }

  lemma TagToken(s: bytes, i: nat, k: nat, tag: bytes, c: nat)
    requires IsTag(s, i, k) && tag == s[i..k + 1] && ComesAgain(s, tag, k + 1, c)
    ensures DollarToken(s, i) == Token(Dollar, c + |tag|)
  {
    RunsTo(s, i + 1, k, WordByte);
    FindsAt(s, k + 1, c, tag);
  }

  /** Everything between the tags is one value, in a message and in a statement. */
  lemma DollarQuotesAreMasked(s: bytes, i: nat, k: nat, tag: bytes, c: nat)
    requires IsTag(s, i, k) && tag == s[i..k + 1] && ComesAgain(s, tag, k + 1, c)
    ensures IsHidden(s, i, c + |tag|) && IsMaskedIn(s, i, c + |tag|)
  {
    TagToken(s, i, k, tag, c);
    DollarIsNoPath(s, i);
    HidesIn(s, i, Token(Dollar, c + |tag|));
    MasksIn(s, i, Token(Dollar, c + |tag|));
  }

  lemma DollarIsNoPath(s: bytes, i: nat)
    requires At(s, i, DOLLAR)
    ensures PathAt(s, i) == 0 && TokenAt(s, i, false) == DollarToken(s, i) == TokenAt(s, i, true)
  {
    assert RunEnd(s, i, WordByte) == i;
  }

  // ----- Log sequence numbers -----

  /** Two halves of one to eight hexadecimal digits with a '/' between them at h. */
  ghost predicate IsLsnText(s: bytes, i: nat, h: nat, e: nat) {
    && i < h <= i + 8 && h + 1 < e <= h + 9 && e <= |s| && AreAll(s, i, h, HexDigit) && s[h] == 47 && AreAll(s, h + 1, e, HexDigit)
    && IsEdge(s, e) && s[i] != 48
  }

  lemma {:induction false} HexTo(s: bytes, i: nat, e: nat, left: nat)
    requires i <= e <= i + left && AreAll(s, i, e, HexDigit) && (e < |s| ==> !InClass(HexDigit, s[e]))
    ensures HexRun(s, i, left) == e
    decreases left
  {
    if i < e {
      HexTo(s, i + 1, e, left - 1);
    }
  }

  lemma LsnIs(s: bytes, i: nat, h: nat, e: nat)
    requires IsLsnText(s, i, h, e)
    ensures LsnEnd(s, i) == e
  {
    HexTo(s, i, h, 9);
    HexTo(s, h + 1, e, 9);
    assert LsnHalf(s, h + 1) == e;
  }

  lemma LsnToken(s: bytes, i: nat, h: nat, e: nat)
    requires IsLsnText(s, i, h, e)
    ensures TokenAt(s, i, false) == Token(Hex, e)
  {
    LsnIs(s, i, h, e);
    assert IsWordByte(s[i]);
    if IsDigit(s[i]) {
      assert NumericToken(s, i, false) == Token(Hex, e);
    } else {
      assert QuotePrefix(s, i, false) == 0;
      assert WordToken(s, i, false) == Token(Hex, e);
      assert !StartsNumber(s, i, false);
    }
  }

  lemma LsnIsNoPath(s: bytes, i: nat, h: nat, e: nat)
    requires IsLsnText(s, i, h, e)
    ensures PathAt(s, i) == 0
  {
    assert AreAll(s, i, h, WordByte);
    RunsTo(s, i, h, WordByte);
    NoPathWord(s, i, h);
  }

  lemma NoPathWord(s: bytes, i: nat, h: nat)
    requires i < h <= |s| && AreAll(s, i, h, HexDigit)
    ensures s[i..h] != Ascii("base") && s[i..h] != Ascii("global") && (h > i + 3 ==> s[i..i + 3] != Ascii("pg_"))
  {
    assert Ascii("base")[2] == 115 && Ascii("global")[0] == 103 && Ascii("pg_")[0] == 112;
    if h > i + 3 {
      assert s[i..i + 3][0] == s[i];
    }
    if h - i >= 3 {
      assert s[i..h][2] == s[i + 2];
    }
    assert s[i..h][0] == s[i];
  }

  lemma LsnIsHidden(s: bytes, i: nat, h: nat, e: nat)
    requires IsLsnText(s, i, h, e)
    ensures IsHidden(s, i, e)
  {
    LsnToken(s, i, h, e);
    LsnIsNoPath(s, i, h, e);
    HidesIn(s, i, Token(Hex, e));
  }

  // ----- Paths -----

  /** A path starts at i: "/x", "/.", "./", "../", a drive, "base/", "global/", or a name that starts with "pg_". */
  ghost predicate OpensPath(s: bytes, i: nat, j: nat) {
    || (i + 1 < |s| && s[i] == 47 && (IsWordByte(s[i + 1]) || s[i + 1] == 46))
    || (i + 1 < |s| && s[i] == 46 && s[i + 1] == 47)
    || (i + 2 < |s| && s[i] == 46 && s[i + 1] == 46 && s[i + 2] == 47)
    || (i + 2 < |s| && IsLetter(s[i]) && s[i + 1] == 58 && (s[i + 2] == 92 || s[i + 2] == 47))
    || (i < j < |s| && s[j] == 47 && AreAll(s, i, j, WordByte)
        && (s[i..j] == Ascii("base") || s[i..j] == Ascii("global") || (j > i + 3 && s[i..i + 3] == Ascii("pg_"))))
  }

  /** What stands before a path is no word, and no part of another path. */
  predicate MayOpen(s: bytes, i: nat) {
    i == 0 || (i <= |s| && !IsWordByte(s[i - 1]) && s[i - 1] !in {47, 46, 41, 93, 92, 36})
  }

  /** It goes on up to e: white space, a quote, or a ',', ';', ':', ')' or '.' that white space or the end follows. */
  ghost predicate GoesOnTo(s: bytes, i: nat, e: nat) {
    && i < e <= |s| && (forall k | i <= k < e :: GoesOnAt(s, k))
    && (e < |s| ==> !GoesOnAt(s, e))
  }

  predicate GoesOnAt(s: bytes, k: nat) {
    && k < |s| && !IsBlank(s[k]) && s[k] != 34 && s[k] != 39
    && (s[k] in {44, 59, 58, 41, 46} ==> k + 1 < |s| && !IsBlank(s[k + 1]))
  }

  lemma {:induction false} PathGoesTo(s: bytes, i: nat, k: nat, e: nat)
    requires GoesOnTo(s, i, e) && i <= k <= e
    ensures PathEnd(s, k) == e
    decreases e - k
  {
    if k < e {
      assert GoesOnAt(s, k);
      PathGoesTo(s, i, k + 1, e);
    }
  }

  lemma OpensIsPrefix(s: bytes, i: nat, j: nat)
    requires OpensPath(s, i, j)
    ensures i < |s| && PathPrefix(s, i)
  {
    if i < j < |s| && s[j] == SLASH && AreAll(s, i, j, WordByte) {
      RunsTo(s, i, j, WordByte);
    }
  }

  /** The whole path becomes a placeholder. */
  lemma PathIsHidden(s: bytes, i: nat, j: nat, e: nat)
    requires OpensPath(s, i, j) && MayOpen(s, i) && GoesOnTo(s, i, e)
    ensures IsHidden(s, i, e)
  {
    OpensIsPrefix(s, i, j);
    PathGoesTo(s, i, i, e);
    assert PathAt(s, i) == e;
  }

  /** Where no path opens there is none. */
  lemma NoOtherPath(s: bytes, i: nat)
    requires i <= |s| && (!MayOpen(s, i) || forall j: nat :: !OpensPath(s, i, j))
    ensures PathAt(s, i) == 0
  {
    if MayOpen(s, i) && i < |s| {
      var j := RunEnd(s, i, WordByte);
      RunBytes(s, i, WordByte);
      assert !OpensPath(s, i, j);
    }
  }

  lemma {:induction false} RunBytes(s: bytes, i: nat, k: Class)
    requires i <= |s|
    ensures AreAll(s, i, RunEnd(s, i, k), k)
    decreases |s| - i
  {
    if i < |s| && InClass(k, s[i]) {
      RunBytes(s, i + 1, k);
    }
  }

  // ----- Words, names and comments -----

  /** A name of several parts is one word: a '.' or a '$' inside belongs to it. */
  ghost predicate IsDotted(s: bytes, i: nat, e: nat) {
    && i < e <= |s| && forall k | i <= k < e :: IsWordByte(s[k]) || (i < k && s[k] == 36) || (i < k && s[k] == 46 && k + 1 < e && IsWordByte(s[k + 1]))
  }

  lemma {:induction false} DottedEnds(s: bytes, i: nat, k: nat, e: nat)
    requires IsDotted(s, i, e) && i < k <= e && IsEdge(s, e)
    ensures WordEnd(s, k) == e
    decreases e - k
  {
    if k < e {
      DottedEnds(s, i, k + 1, e);
      if s[k] == 46 {
        DottedEnds(s, i, k + 2, e);
      }
    }
  }

  /** Such a name stays in a statement. */
  lemma DottedStays(s: bytes, i: nat, e: nat)
    requires IsDotted(s, i, e) && IsEdge(s, e) && IsWordByte(s[i]) && !IsDigit(s[i]) && s[i] != 0xC2
    ensures ReadStatement(s, i) == Then(Text(Word, s[i..e]), ReadStatement(s, e))
  {
    DottedEnds(s, i, i + 1, e);
    assert QuotePrefix(s, i, true) == 0;
    assert Tokenizer.WordToken(s, i, true) == Token(Word, e);
    assert TokenAt(s, i, true) == Token(Word, e);
  }

  lemma {:induction false} LineEndsAt(s: bytes, i: nat, e: nat)
    requires i <= e <= |s| && (forall k | i <= k < e :: s[k] != 10 && s[k] != 13) && (e < |s| ==> s[e] == 10 || s[e] == 13)
    ensures LineCommentEnd(s, i) == e
    decreases e - i
  {
    if i < e {
      LineEndsAt(s, i + 1, e);
    }
  }

  /** A comment from "--" to the end of its line is a gap. */
  lemma LineCommentIsGap(s: bytes, i: nat, e: nat)
    requires i + 2 <= e <= |s| && s[i] == 45 && s[i + 1] == 45
    requires (forall k | i + 2 <= k < e :: s[k] != 10 && s[k] != 13) && (e < |s| ==> s[e] == 10 || s[e] == 13)
    ensures ReadStatement(s, i) == Then(Gap, ReadStatement(s, e))
  {
    LineEndsAt(s, i + 2, e);
  }

  /** Comments in slashes and stars nest: each opening calls for one closing more. */
  lemma CommentsNest(s: bytes, i: nat, depth: nat)
    requires i + 1 < |s| && depth > 0
    ensures s[i] == 47 && s[i + 1] == 42 ==> CommentEnd(s, i, depth) == CommentEnd(s, i + 2, depth + 1)
    ensures s[i] == 42 && s[i + 1] == 47 ==> CommentEnd(s, i, depth) == if depth == 1 then i + 2 else CommentEnd(s, i + 2, depth - 1)
    ensures !(s[i] == 47 && s[i + 1] == 42) && !(s[i] == 42 && s[i + 1] == 47) ==> CommentEnd(s, i, depth) == CommentEnd(s, i + 1, depth)
    ensures s[i] == 47 && s[i + 1] == 42 ==> ReadStatement(s, i) == Then(Gap, ReadStatement(s, CommentEnd(s, i + 2, 1)))
  {
  }

  // ----- Quoted names -----

  /** U&"..." is a name, in a message and in a statement, up to the next double quote that is not doubled. */
  lemma UnicodeNameIsToken(s: bytes, i: nat, stmt: bool)
    requires i + 2 < |s| && (s[i] == 85 || s[i] == 117) && s[i + 1] == 38 && s[i + 2] == 34
    ensures TokenAt(s, i, stmt) == Token(Ident, QuotedEnd(s, i + 3, QUOTE, false))
  {
    assert QuotePrefix(s, i, stmt) == 3;
    assert Tokenizer.WordToken(s, i, stmt) == Token(Ident, QuotedEnd(s, i + 3, QUOTE, false));
    assert !StartsNumber(s, i, stmt);
  }

  /** A doubled double quote goes on, a single one ends the name. */
  lemma NamesGoOn(s: bytes, i: nat)
    requires i < |s|
    ensures s[i] == 34 && At(s, i + 1, 34) ==> QuotedEnd(s, i, QUOTE, false) == QuotedEnd(s, i + 2, QUOTE, false)
    ensures s[i] == 34 && !At(s, i + 1, 34) ==> QuotedEnd(s, i, QUOTE, false) == i + 1
    ensures s[i] != 34 ==> QuotedEnd(s, i, QUOTE, false) == QuotedEnd(s, i + 1, QUOTE, false)
  {
  }

  lemma {:induction false} GuillemetClosesAt(s: bytes, i: nat, e: nat, closing: byte)
    requires i <= e && e + 1 < |s| && s[e] == 0xC2 && s[e + 1] == closing
    requires forall k | i <= k < e :: !(s[k] == 0xC2 && s[k + 1] == closing)
    ensures GuillemetEnd(s, i, closing) == e + 2
    decreases e - i
  {
    if i < e {
      GuillemetClosesAt(s, i + 1, e, closing);
    }
  }

  /** A name in guillemets, «x» or »x«, ends with the mirror of the one that opens it. */
  lemma GuillemetsAreToken(s: bytes, i: nat, e: nat, stmt: bool)
    requires i + 2 <= e && e + 1 < |s| && s[i] == 0xC2 && s[e] == 0xC2
    requires (s[i + 1] == 0xAB && s[e + 1] == 0xBB) || (s[i + 1] == 0xBB && s[e + 1] == 0xAB)
    requires forall k | i + 2 <= k < e :: !(s[k] == 0xC2 && s[k + 1] == s[e + 1])
    ensures TokenAt(s, i, stmt) == Token(Ident, e + 2)
  {
    GuillemetClosesAt(s, i + 2, e, s[e + 1]);
    assert !StartsNumber(s, i, stmt);
  }
}
