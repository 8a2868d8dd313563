/**
 * The template of a plain message, said directly about its bytes: a word stays, a number with its
 * unit, a "$1" and an id become placeholders, and white space becomes one space.
 */
module PlainTemplates {
  import opened Bytes
  import opened Tokenizer
  import opened Rules
  import opened Masking
  import opened ListGrammar
  import opened Cutting
  import opened Templates
  import opened Idempotence
  import opened PlainMessages
  import Numbers
  import Verbatim

  // ----- The template, byte by byte -----

  predicate IsUnitText(w: bytes) {
    || w == Ascii("B") || w == Ascii("kB") || w == Ascii("MB") || w == Ascii("GB") || w == Ascii("TB") || w == Ascii("PB")
    || w == Ascii("us") || w == Ascii("ms") || w == Ascii("s") || w == Ascii("min") || w == Ascii("h") || w == Ascii("d")
  }

  /** A word that makes the word behind it an id if that has a digit, in either case. */
  predicate IsIDText(w: bytes) {
    || EqualFold(w, Ascii("process")) || EqualFold(w, Ascii("pid")) || EqualFold(w, Ascii("backend"))
    || EqualFold(w, Ascii("worker")) || EqualFold(w, Ascii("transaction")) || EqualFold(w, Ascii("subtransaction"))
    || EqualFold(w, Ascii("xid")) || EqualFold(w, Ascii("multixact")) || EqualFold(w, Ascii("relation"))
    || EqualFold(w, Ascii("database")) || EqualFold(w, Ascii("tablespace")) || EqualFold(w, Ascii("role"))
    || EqualFold(w, Ascii("oid")) || EqualFold(w, Ascii("session"))
  }

  /** The end of a value that ends at e: a number without a unit takes one that stands behind a single space. */
  function ValueTo(s: bytes, i: nat, e: nat): (u: nat)
    requires i < e <= |s|
    ensures e <= u <= |s|
  {
    if 48 <= s[i] <= 57 && 48 <= s[e - 1] <= 57 && e < |s| && s[e] == 32 && IsUnitText(s[e + 1..ChunkEnd(s, e + 1)])
    then ChunkEnd(s, e + 1) else e
  }

  /** A space where there was white space, but not at the start. */
  function Spacer(gap: bool): bytes { if gap then [32] else [] }

  /**
   * The template of s from i on: gap tells of white space before i, first that nothing else is
   * before it, id that a word with a digit would be an id, and n how many placeholders there are.
   */
  function Shown(s: bytes, i: nat, gap: bool, first: bool, n: nat, id: bool): bytes
    requires i <= |s|
    decreases |s| - i
  {
    if i == |s| then []
    else if IsBlank(s[i]) then Shown(s, i + 1, gap || !first, first, n, id)
    else if IsSeparator(s[i]) then Spacer(gap) + [s[i]] + Shown(s, i + 1, false, false, n, false)
    else
      var e := ChunkEnd(s, i);
      var w := s[i..e];
      if s[i] == 36 || 48 <= s[i] <= 57 then
        Spacer(gap) + [36] + Numbers.Decimal(n + 1) + Shown(s, ValueTo(s, i, e), false, false, n + 1, false)
      else if id && HasDigit(w) then Spacer(gap) + [36] + Numbers.Decimal(n + 1) + Shown(s, e, false, false, n + 1, false)
      else Spacer(gap) + w + Shown(s, e, false, false, n, IsIDText(w))
  }

  // ----- The spelled lists -----

  lemma IDWords(w: bytes)
    ensures IsIDWord(w) <==> IsIDText(w)
  {
    assert IDWord(0) == Ascii("process") && IDWord(1) == Ascii("pid") && IDWord(2) == Ascii("backend") && IDWord(3) == Ascii("worker");
    assert IDWord(4) == Ascii("transaction") && IDWord(5) == Ascii("subtransaction") && IDWord(6) == Ascii("xid");
    assert IDWord(7) == Ascii("multixact") && IDWord(8) == Ascii("relation") && IDWord(9) == Ascii("database");
    assert IDWord(10) == Ascii("tablespace") && IDWord(11) == Ascii("role") && IDWord(12) == Ascii("oid") && IDWord(13) == Ascii("session");
    if IsIDWord(w) {
      var k :| 0 <= k < 14 && EqualFold(w, IDWord(k));
    }
  }

  lemma Units(w: bytes)
    ensures IsUnit(w) <==> IsUnitText(w)
  {
    assert Unit(0) == Ascii("B") && Unit(1) == Ascii("kB") && Unit(2) == Ascii("MB") && Unit(3) == Ascii("GB");
    assert Unit(4) == Ascii("TB") && Unit(5) == Ascii("PB") && Unit(6) == Ascii("us") && Unit(7) == Ascii("ms");
    assert Unit(8) == Ascii("s") && Unit(9) == Ascii("min") && Unit(10) == Ascii("h") && Unit(11) == Ascii("d");
    if IsUnit(w) {
      var k :| 0 <= k < 12 && w == Unit(k);
    }
  }

  // ----- Tokens -----

  lemma DigitsAtEnd(s: bytes, i: nat, e: nat)
    requires i < e <= |s| && NumberIn(s, i, e)
    ensures 48 <= s[e - 1] <= 57 <==> FixedEnd(s, i) == e
  {
    var a, f := RunEnd(s, i, Digit), FixedEnd(s, i);
    DigitsIn(s, i);
    if At(s, a, DOT) && ClassAt(s, a + 1, Digit) {
      DigitsIn(s, a + 1);
    }
    if f < e && !(f + 1 == e && s[f] == PERCENT) {
      UnitIsLetters(s[f..e]);
      assert s[e - 1] == s[f..e][e - 1 - f];
    }
  }

  /** Where the token of a number in a plain message ends. */
  lemma NumberTo(s: bytes, i: nat, e: nat)
    requires i < e <= |s| && NumberIn(s, i, e) && e == ChunkEnd(s, i) && IsSignless(s) && IsPlain(s, e)
    ensures TokenAt(s, i, false) == Token(Number, ValueTo(s, i, e))
  {
    FixedIsDecimal(s, i, e);
    NoRadix(s, i, e);
    NoLsn(s, i);
    assert NumericToken(s, i, false) == WithUnit(s, i, FixedEnd(s, i), false, false);
    DigitsAtEnd(s, i, e);
    if FixedEnd(s, i) < e {
      NumberEndsAt(s, i, e);
      UnitInside(s, i, e);
    } else {
      UnitBehindNumber(s, i, e);
    }
  }

  lemma UnitInside(s: bytes, i: nat, e: nat)
    requires i < e <= |s| && NumberIn(s, i, e) && EndsAt(s, e) && FixedEnd(s, i) < e
    ensures WithUnit(s, i, FixedEnd(s, i), false, false) == Token(Number, e)
  {
    var f := FixedEnd(s, i);
    if !(f + 1 == e && s[f] == PERCENT) {
      UnitStopsAt(s, f, e);
    }
  }

  lemma UnitBehindNumber(s: bytes, i: nat, e: nat)
    requires i < e <= |s| && NumberIn(s, i, e) && EndsAt(s, e) && FixedEnd(s, i) == e && IsPlain(s, e) && 48 <= s[e - 1] <= 57
    ensures WithUnit(s, i, e, false, false) == Token(Number, ValueTo(s, i, e))
  {
    if At(s, e, SPACE) {
      NextChunk(s, e);
      Units(s[e + 1..ChunkEnd(s, e + 1)]);
      Units(s[e + 1..RunEnd(s, e + 1, WordByte)]);
    }
  }

  /** Behind a space the next word is a unit as a stretch just when it is one as a run of word bytes. */
  lemma NextChunk(s: bytes, e: nat)
    requires At(s, e, SPACE) && IsPlain(s, e)
    ensures var k, j := ChunkEnd(s, e + 1), RunEnd(s, e + 1, WordByte);
      if ClassAt(s, e + 1, WordByte) && IsUnit(s[e + 1..j]) && !ContinuesWord(s, j) then j == k else !IsUnit(s[e + 1..k])
  {
    var i := e + 1;
    assert IsPlain(s, i);
    if i < |s| && !Separates(s[i]) {
      var k := ChunkEnd(s, i);
      if WordIn(s, i, k) {
        WordStopsAt(s, i, k);
      } else {
        NoUnitAt(s, i, k);
        NoUnitAt(s, i, RunEnd(s, i, WordByte));
      }
    } else {
      NoUnitAt(s, i, ChunkEnd(s, i));
    }
  }

  lemma NoUnitAt(s: bytes, i: nat, k: nat)
    requires i <= k <= |s| && (i < k ==> !IsLetter(s[i]))
    ensures !IsUnit(s[i..k])
  {
    if i < k {
      assert s[i..k][0] == s[i];
    }
    if IsUnit(s[i..k]) {
      UnitIsLetters(s[i..k]);
    }
  }

  // ----- The template -----

  /** From i on s is spelled as it is shown. */
  ghost predicate IsShown(out: bytes, s: bytes, i: nat, c: Context, data: bool, gap: bool, n: nat)
    requires i <= |s|
  {
    Spell(out, ReadMessage(s, i, c, data), gap, n, false) == out + Shown(s, i, gap, c.first, n, c.idNext)
  }

  /** A run of white space is one gap. */
  lemma {:induction false} BlanksAreShown(s: bytes, i: nat, gap: bool, first: bool, n: nat, id: bool)
    requires i <= |s|
    ensures Shown(s, RunEnd(s, i, Blank), gap || (!first && ClassAt(s, i, Blank)), first, n, id) == Shown(s, i, gap, first, n, id)
    decreases |s| - i
  {
    if ClassAt(s, i, Blank) {
      BlanksAreShown(s, i + 1, gap || !first, first, n, id);
    }
  }

  /** The token at i, as an act, and where reading goes on. */
  lemma NextToken(s: bytes, i: nat, c: Context, data: bool) returns (a: Act, k: nat, d: Context)
    requires i < |s| && IsPlain(s, i) && IsSignless(s) && !IsBlank(s[i])
    ensures i < k <= |s| && IsPlain(s, k) && !d.first && d.idNext == AwaitsID(a, c.idNext)
    ensures ReadMessage(s, i, c, data) == Then(a, ReadMessage(s, k, d, data)) && (a == Mask || a.Text?)
    ensures IsSeparator(s[i]) ==> k == i + 1 && a == Text(Punct, [s[i]])
    ensures !IsSeparator(s[i]) ==>
      var e := ChunkEnd(s, i);
      if s[i] == 36 || 48 <= s[i] <= 57 then a == Mask && k == ValueTo(s, i, e)
      else k == e && a == if c.idNext && HasDigit(s[i..e]) then Mask else Text(Word, s[i..e])
  {
    var t := Token(Punct, i + 1);
    if IsSeparator(s[i]) {
      MarkIsRead(s, i);
      assert s[i..i + 1] == [s[i]];
    } else {
      t := ChunkToken(s, i);
      TokenOfChunk(s, i, t);
    }
    k := t.end;
    a, d := TokenActs(s, i, c, data, t);
  }

  lemma TokenOfChunk(s: bytes, i: nat, t: Token)
    requires i < |s| && IsPlain(s, i) && IsSignless(s) && !Separates(s[i]) && t == TokenAt(s, i, false)
    ensures var e := ChunkEnd(s, i);
      if s[i] == 36 then t == Token(Param, e) && ValueTo(s, i, e) == e
      else if 48 <= s[i] <= 57 then t == Token(Number, ValueTo(s, i, e))
      else t == Token(Word, e)
  {
    var e := ChunkEnd(s, i);
    if WordIn(s, i, e) {
      PlainMessages.WordToken(s, i, e);
    } else if NumberIn(s, i, e) {
      NumberTo(s, i, e);
    } else {
      HoleToken(s, i, e);
    }
  }

  /** An act is spelled with the space before it. */
  lemma ActIsSpelled(out: bytes, a: Act, rest: Script, gap: bool, n: nat)
    requires IsTame(Then(a, rest)) && (a == Mask || a.Text?)
    ensures Spell(out, Then(a, rest), gap, n, false) ==
      Spell(out + Spacer(gap) + if a == Mask then [36] + Numbers.Decimal(n + 1) else a.text, rest, false,
            if a == Mask then n + 1 else n, false)
  {
    TameStep(out, Then(a, rest), gap, n);
    assert out + [] == out;
  }

  lemma Regroup(out: bytes, x: bytes, b: bytes, more: bytes)
    ensures out + x + b + more == out + (x + b + more)
  {
  }

  /** A piece, shown as an act with the rest behind it. */
  function Piece(gap: bool, a: Act, n: nat, rest: bytes): bytes
    requires a == Mask || a.Text?
  {
    Spacer(gap) + (if a == Mask then [36] + Numbers.Decimal(n + 1) else a.text) + rest
  }

  lemma MarkShown(s: bytes, i: nat, gap: bool, first: bool, n: nat, id: bool)
    requires i < |s| && IsSeparator(s[i])
    ensures Shown(s, i, gap, first, n, id) == Piece(gap, Text(Punct, [s[i]]), n, Shown(s, i + 1, false, false, n, false))
  {
  }

  lemma ValueShown(s: bytes, i: nat, gap: bool, first: bool, n: nat, id: bool, e: nat)
    requires i < |s| && !Separates(s[i]) && e == ChunkEnd(s, i) && (s[i] == 36 || 48 <= s[i] <= 57)
    ensures Shown(s, i, gap, first, n, id) == Piece(gap, Mask, n, Shown(s, ValueTo(s, i, e), false, false, n + 1, false))
  {
    assert Spacer(gap) + [36] + Numbers.Decimal(n + 1) == Spacer(gap) + ([36] + Numbers.Decimal(n + 1));
  }

  lemma WordShown(s: bytes, i: nat, gap: bool, first: bool, n: nat, id: bool, e: nat, w: bytes)
    requires i < |s| && !Separates(s[i]) && e == ChunkEnd(s, i) && w == s[i..e] && s[i] != 36 && !(48 <= s[i] <= 57)
    ensures Shown(s, i, gap, first, n, id) ==
      if id && HasDigit(w) then Piece(gap, Mask, n, Shown(s, e, false, false, n + 1, false))
      else Piece(gap, Text(Word, w), n, Shown(s, e, false, false, n, IsIDText(w)))
  {
    assert Spacer(gap) + [36] + Numbers.Decimal(n + 1) == Spacer(gap) + ([36] + Numbers.Decimal(n + 1));
  }

  /** The head of what is shown. */
  lemma ShownStep(s: bytes, i: nat, gap: bool, first: bool, n: nat, id: bool, a: Act, k: nat)
    requires i < k <= |s| && !IsBlank(s[i]) && (a == Mask || a.Text?)
    requires IsSeparator(s[i]) ==> k == i + 1 && a == Text(Punct, [s[i]])
    requires !IsSeparator(s[i]) ==>
      var e := ChunkEnd(s, i);
      if s[i] == 36 || 48 <= s[i] <= 57 then a == Mask && k == ValueTo(s, i, e)
      else k == e && a == if id && HasDigit(s[i..e]) then Mask else Text(Word, s[i..e])
    ensures Shown(s, i, gap, first, n, id) ==
      Piece(gap, a, n, Shown(s, k, false, false, if a == Mask then n + 1 else n, AwaitsID(a, id)))
  {
    var e := ChunkEnd(s, i);
    if IsSeparator(s[i]) {
      MarkShown(s, i, gap, first, n, id);
    } else if s[i] == 36 || 48 <= s[i] <= 57 {
      ValueShown(s, i, gap, first, n, id, e);
    } else {
      WordShown(s, i, gap, first, n, id, e, s[i..e]);
      IDWords(s[i..e]);
    }
  }

  lemma {:induction false} PlainIsShown(out: bytes, s: bytes, i: nat, c: Context, data: bool, gap: bool, n: nat)
    requires i <= |s| && IsPlain(s, i) && IsSignless(s)
    ensures IsShown(out, s, i, c, data, gap, n)
    decreases |s| - i
  {
    if i == |s| {
      NoPath(s, i);
    } else if IsBlank(s[i]) {
      var e, d := RunEnd(s, i, Blank), c.(gap := !c.first, prev := Space);
      SpaceToken(s, i, c, data);
      PlainBehindBlanks(s, i);
      PlainIsShown(out, s, e, d, data, gap || !c.first, n);
      BlanksAreShown(s, i, gap, c.first, n, c.idNext);
    } else {
      PlainReads(s, i, c, data);
      var a, k, d := NextToken(s, i, c, data);
      var b := if a == Mask then [36] + Numbers.Decimal(n + 1) else a.text;
      var m := if a == Mask then n + 1 else n;
      ShownStep(s, i, gap, c.first, n, c.idNext, a, k);
      PlainIsShown(out + Spacer(gap) + b, s, k, d, data, false, m);
      PieceIsShown(out, s, i, c, data, gap, n, a, k, d, b, m);
    }
  }

  lemma PieceIsShown(out: bytes, s: bytes, i: nat, c: Context, data: bool, gap: bool, n: nat, a: Act, k: nat, d: Context, b: bytes, m: nat)
    requires i < k <= |s| && (a == Mask || a.Text?) && !d.first && IsShown(out + Spacer(gap) + b, s, k, d, data, false, m)
    requires b == (if a == Mask then [36] + Numbers.Decimal(n + 1) else a.text) && m == if a == Mask then n + 1 else n
    requires ReadMessage(s, i, c, data) == Then(a, ReadMessage(s, k, d, data)) && IsTame(ReadMessage(s, i, c, data))
    requires Shown(s, i, gap, c.first, n, c.idNext) == Piece(gap, a, n, Shown(s, k, false, false, m, d.idNext))
    ensures IsShown(out, s, i, c, data, gap, n)
  {
    ActIsSpelled(out, a, ReadMessage(s, k, d, data), gap, n);
    Regroup(out, Spacer(gap), b, Shown(s, k, false, false, m, d.idNext));
  }

  // ----- Past the limit -----

  lemma FlushOnce(d: Draft, a: Act)
    requires !d.stmt && (a == Gap || a == Mask || a.Text?)
    ensures var b, u := Put(d, a, true), Put(d, a, false);
      |u.out| > LIMIT ==> |b.out| > LIMIT && b.out[..LIMIT + 1] == u.out[..LIMIT + 1] && b.list == d.list
  {
    if a.Text? {
      var f := Flush(d);
      var w := Fitting(f, a.text, true);
      assert f.out + w <= f.out + a.text;
    }
  }

  /** A tame script that does not fit is written as without a limit up to one byte past it. */
  lemma {:induction false} OverflowingTame(d: Draft, s: Script)
    requires IsTame(s) && IsEasy(d, s) && |d.out| <= LIMIT < |Run(s, d, false).out|
    ensures var b, u := Run(s, d, true).out, Run(s, d, false).out; |b| > LIMIT && b[..LIMIT + 1] == u[..LIMIT + 1]
    decreases Len(s)
  {
    var e := Put(d, s.act, false);
    EasyPut(d, s);
    if |e.out| <= LIMIT {
      PutFits(d, s.act);
      OverflowingTame(e, s.rest);
    } else {
      FlushOnce(d, s.act);
      TameIsProper(s.rest);
      RunMeaning(s.rest, e);
      EasyMeaning(e, s.rest);
      SpellExtends(e.out, s.rest, e.space, e.n);
    }
  }

  lemma {:induction false} SameDigitsBack(x: bytes, y: bytes, m: nat, i: nat)
    requires m <= |x| && m <= |y| && x[..m] == y[..m] && i <= m
    ensures DigitsBack(x, i) == DigitsBack(y, i)
    decreases i
  {
    if i > 0 {
      assert x[i - 1] == x[..m][i - 1] == y[i - 1];
      SameDigitsBack(x, y, m, i - 1);
    }
  }

  lemma {:induction false} SameTrim(x: bytes, y: bytes, m: nat, i: nat)
    requires m <= |x| && m <= |y| && x[..m] == y[..m] && i <= m
    ensures TrimNonWord(x, i) == TrimNonWord(y, i)
    decreases i
  {
    if i > 0 {
      assert x[i - 1] == x[..m][i - 1] == y[i - 1];
      SameTrim(x, y, m, i - 1);
    }
  }

  lemma {:induction false} SameCharBack(x: bytes, y: bytes, m: nat, i: nat)
    requires m <= |x| && m <= |y| && x[..m] == y[..m] && i < m
    ensures CharBack(x, i) == CharBack(y, i)
    decreases i
  {
    assert x[i] == x[..m][i] == y[i];
    if i > 0 {
      SameCharBack(x, y, m, i - 1);
    }
  }

  lemma SamePlaceholder(x: bytes, y: bytes, m: nat, i: nat, split: bool)
    requires m <= |x| && m <= |y| && x[..m] == y[..m] && i <= m
    ensures PlaceholderBefore(x, i, split) == PlaceholderBefore(y, i, split)
  {
    SameDigitsBack(x, y, m, i);
    var j := DigitsBack(x, i);
    if j > 0 {
      assert x[j - 1] == x[..m][j - 1] == y[j - 1];
    }
  }

  lemma SameWhole(x: bytes, y: bytes, m: nat)
    requires m == LIMIT + 1 <= |x| && m <= |y| && x[..m] == y[..m]
    ensures WholeBefore(x) == WholeBefore(y)
  {
    SameCharBack(x, y, m, LIMIT);
    var edge := CharBack(x, LIMIT);
    assert x[edge] == x[..m][edge] == y[edge];
    SamePlaceholder(x, y, m, edge, true);
  }

  lemma SameKeptBefore(x: bytes, y: bytes, m: nat, w: nat)
    requires m == LIMIT + 1 <= |x| && m <= |y| && x[..m] == y[..m] && w == WholeBefore(x) == WholeBefore(y)
    ensures KeptBefore(x) == KeptBefore(y)
  {
    SameTrim(x, y, m, w);
    var cut := TrimNonWord(x, w);
    SamePlaceholder(x, y, m, cut, false);
    var p := PlaceholderBefore(x, cut, false);
    if p >= 0 {
      SameTrim(x, y, m, p);
    }
  }

  /** How a template is cut depends on its first 1,025 bytes alone. */
  lemma SameCut(x: bytes, y: bytes, m: nat)
    requires m == LIMIT + 1 <= |x| && m <= |y| && x[..m] == y[..m] && AreAllowed(x) && AreAllowed(y)
    ensures CutTemplate(x, false) == CutTemplate(y, false)
  {
    SameWhole(x, y, m);
    SameKeptBefore(x, y, m, WholeBefore(x));
    var k := KeptBefore(x);
    SamePlaceholder(x, y, m, k, false);
    assert x[..k] == x[..m][..k] && y[..k] == y[..m][..k];
    NoEllipsis(x);
    NoEllipsis(y);
  }

  lemma NoEllipsis(t: bytes)
    requires AreAllowed(t)
    ensures !EndsWithEllipsis(t)
  {
    if |t| >= 3 {
      assert t[|t| - 3..][0] == t[|t| - 3];
    }
  }

  lemma PutAllowed(d: Draft, a: Act)
    requires AreAllowed(d.out) && !d.stmt && (a == Gap || a == Mask || IsMark(a) || IsKeptWord(a))
    ensures AreAllowed(Put(d, a, true).out) && !Put(d, a, true).stmt && Put(d, a, true).list == d.list
  {
    FlushAllowed(d);
    if a == Mask {
      PieceIsAllowed(a, d.n);
      MaskAllowed(Flush(d));
    } else if a.Text? {
      PieceIsAllowed(a, d.n);
      assert Fitting(Flush(d), a.text, true) <= a.text;
    }
  }

  lemma FlushAllowed(d: Draft)
    requires AreAllowed(d.out)
    ensures AreAllowed(Flush(d).out)
  {
  }

  lemma MaskAllowed(d: Draft)
    requires AreAllowed(d.out) && AreAllowed(Placeholder(d.n + 1))
    ensures AreAllowed(Masked(d).out)
  {
    assert AreAllowed(Kept(d));
  }

  lemma {:induction false} RunAllowed(d: Draft, s: Script)
    requires IsTame(s) && AreAllowed(d.out) && !d.stmt && d.list.step == Outside
    ensures AreAllowed(Run(s, d, true).out)
    decreases Len(s)
  {
    if !Stopped(d) && s.Then? {
      PutAllowed(CutBack(d), s.act);
      RunAllowed(Put(CutBack(d), s.act, true), s.rest);
    }
  }

  // ----- Every plain message -----

  /** The draft of a plain message is what it shows, as far as it goes. */
  lemma DraftIsShown(s: bytes, data: bool, t: bytes)
    requires IsPlain(s, 0) && t == Shown(s, 0, false, true, 0, false)
    ensures var r := ReadMessage(s, 0, START, data);
      IsTame(r) && Run(r, EMPTY, false).out == t && AreAllowed(t) && AreAllowed(Drafted(s, data).out) && !Drafted(s, data).plan
  {
    var r := ReadMessage(s, 0, START, data);
    PlainIsSignless(s);
    PlainReads(s, 0, START, data);
    PlainIsShown([], s, 0, START, data, false, 0);
    TameIsProper(r);
    RunMeaning(r, EMPTY);
    EasyMeaning(EMPTY, r);
    SpellExtends([], r, false, 0);
    RunAllowed(EMPTY, r);
    NoPlan(r, EMPTY, true);
  }

  /**
   * The template of every plain message is what its bytes show, cut at the limit; up to 1,024 bytes
   * nothing is cut.
   */
  lemma PlainTemplate(s: bytes, data: bool)
    requires IsPlain(s, 0)
    ensures var t := Shown(s, 0, false, true, 0, false);
      TemplateOf(s, data) == CutTemplate(t, false) && (|t| <= 1024 ==> TemplateOf(s, data) == t)
  {
    var r, t := ReadMessage(s, 0, START, data), Shown(s, 0, false, true, 0, false);
    DraftIsShown(s, data, t);
    NoEllipsis(t);
    if |t| <= 1024 {
      FittingTame(EMPTY, r);
    } else {
      OverflowingTame(EMPTY, r);
      SameCut(Drafted(s, data).out, t, LIMIT + 1);
    }
  }
}
