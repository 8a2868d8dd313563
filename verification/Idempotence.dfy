/**
 * Masking a template again changes nothing, for messages that keep only words, commas, semicolons
 * and parentheses besides their values. What the values are does not matter.
 */
module Idempotence {
  import opened Bytes
  import opened Tokenizer
  import opened Rules
  import opened Masking
  import opened ListGrammar
  import opened Limits
  import opened Templates
  import opened Cutting
  import Numbers

  predicate IsWordStart(c: byte) { IsLetter(c) || c == UNDERSCORE }

  /** An ASCII word: letters, digits and '_', no digit at its head. */
  predicate IsPlainWord(b: bytes) {
    b != [] && IsWordStart(b[0]) && forall i | 0 <= i < |b| :: IsWordStart(b[i]) || IsDigit(b[i])
  }

  predicate IsSeparator(c: byte) { c == COMMA || c == SEMICOLON || c == LPAREN || c == RPAREN }

  predicate IsMark(a: Act) { a.Text? && a.kind == Punct && |a.text| == 1 && IsSeparator(a.text[0]) }

  predicate IsKeptWord(a: Act) { a.Text? && a.kind == Word && IsPlainWord(a.text) }

  /** What follows a word or a value does not touch it. */
  predicate IsApart(s: Script) { s.Done? || s.act == Gap || IsMark(s.act) }

  /** Words, marks, values and white space, the words and the values set apart. */
  predicate IsTame(s: Script) {
    s.Done? || (IsTame(s.rest) &&
      (s.act == Gap || IsMark(s.act) || ((s.act == Mask || IsKeptWord(s.act)) && IsApart(s.rest))))
  }

  /** After this act a word with a digit would be an id. */
  predicate AwaitsID(a: Act, id: bool) { if a == Gap then id else a.Text? && a.kind == Word && IsIDWord(a.text) }

  /** No word with a digit stands behind a word that makes it an id; id tells that one is awaited. */
  predicate IdsAreMasked(s: Script, id: bool)
    decreases s
  {
    s.Done? || (!(id && IsKeptWord(s.act) && HasDigit(s.act.text)) && IdsAreMasked(s.rest, AwaitsID(s.act, id)))
  }

  // ----- The text of a tame script -----

  /** The bytes of such a text. */
  predicate IsAllowed(c: byte) { IsWordStart(c) || IsDigit(c) || c == DOLLAR || c == SPACE || IsSeparator(c) }

  predicate AreAllowed(b: bytes) { forall i | 0 <= i < |b| :: IsAllowed(b[i]) }

  /** out with one act of a tame script behind it. */
  function OneMore(out: bytes, a: Act, gap: bool, n: nat): bytes
    requires a == Mask || a.Text?
  {
    Spaced(out, gap) + if a == Mask then Placeholder(n + 1) else a.text
  }

  function Holes(a: Act): nat { if a == Mask then 1 else 0 }

  /** A tame script is spelled act by act. */
  lemma TameStep(out: bytes, s: Script, gap: bool, n: nat)
    requires IsTame(s) && s.Then? && s.act != Gap
    ensures Spell(out, s, gap, n, false) == Spell(OneMore(out, s.act, gap, n), s.rest, false, n + Holes(s.act), false)
  {
    if s.act == Mask {
      assert SkipDigitWords(s.rest) == s.rest;
    } else {
      assert AfterValueAt(s).None?;
    }
  }

  lemma PieceIsAllowed(a: Act, n: nat)
    requires a == Mask || IsMark(a) || IsKeptWord(a)
    ensures var b := if a == Mask then Placeholder(n + 1) else a.text; AreAllowed(b) && |b| > 0
  {
  }

  lemma {:induction false} SpellExtends(out: bytes, s: Script, gap: bool, n: nat)
    requires IsTame(s)
    ensures var t := Spell(out, s, gap, n, false); out <= t && (AreAllowed(out) ==> AreAllowed(t))
    decreases Len(s)
  {
    if s.Then? {
      if s.act == Gap {
        SpellExtends(out, s.rest, true, n);
      } else {
        TameStep(out, s, gap, n);
        PieceIsAllowed(s.act, n);
        SpellExtends(OneMore(out, s.act, gap, n), s.rest, false, n + Holes(s.act));
      }
    }
  }

  /** At i, t ends, or has a space or a mark. */
  predicate EndsPiece(t: bytes, i: nat) { i == |t| || (i < |t| && (t[i] == SPACE || IsSeparator(t[i]))) }

  lemma {:induction false} NextIsApart(out: bytes, s: Script, gap: bool, n: nat)
    requires IsTame(s) && (gap || IsApart(s))
    ensures EndsPiece(Spell(out, s, gap, n, false), |out|)
    decreases Len(s)
  {
    if s.Then? {
      if s.act == Gap {
        NextIsApart(out, s.rest, true, n);
      } else {
        var o := OneMore(out, s.act, gap, n);
        TameStep(out, s, gap, n);
        PieceIsAllowed(s.act, n);
        SpellExtends(o, s.rest, false, n + Holes(s.act));
        assert Spell(out, s, gap, n, false)[|out|] == o[|out|];
      }
    }
  }

  // ----- Reading the text again -----

  lemma WordEndsAt(t: bytes, i: nat, e: nat)
    requires i <= e <= |t| && (forall k | i <= k < e :: IsWordByte(t[k])) && EndsPiece(t, e)
    ensures WordEnd(t, i) == e
    decreases e - i
  {
  }

  lemma DigitsEndAt(t: bytes, i: nat, e: nat)
    requires i <= e <= |t| && (forall k | i <= k < e :: IsDigit(t[k])) && EndsPiece(t, e)
    ensures RunEnd(t, i, Digit) == e
    decreases e - i
  {
  }

  lemma HexRunIsInside(t: bytes, i: nat, left: nat)
    requires i <= |t| && AreAllowed(t)
    ensures !At(t, HexRun(t, i, left), SLASH)
  {
  }

  lemma WordIsRead(t: bytes, i: nat, e: nat)
    requires i < e <= |t| && AreAllowed(t) && IsWordStart(t[i]) && (forall k | i <= k < e :: IsWordByte(t[k])) && EndsPiece(t, e)
    ensures TokenAt(t, i, false) == Token(Word, e)
  {
    HexRunIsInside(t, i, 9);
    WordEndsAt(t, i + 1, e);
    assert QuotePrefix(t, i, false) == 0;
    assert WordToken(t, i, false) == Token(Word, e);
  }

  lemma HoleIsRead(t: bytes, i: nat, e: nat, n: nat)
    requires i < e <= |t| && t[i..e] == Placeholder(n) && EndsPiece(t, e)
    ensures TokenAt(t, i, false) == Token(Param, e)
  {
    assert t[i] == t[i..e][0] && t[i + 1] == t[i..e][1];
    forall k | i + 1 <= k < e
      ensures IsDigit(t[k])
    {
      assert t[k] == t[i..e][k - i] == Numbers.Decimal(n)[k - i - 1];
    }
    DigitsEndAt(t, i + 1, e);
    assert DollarToken(t, i) == Token(Param, e);
  }

  lemma MarkIsRead(t: bytes, i: nat)
    requires i < |t| && IsSeparator(t[i])
    ensures TokenAt(t, i, false) == Token(Punct, i + 1)
  {
  }

  lemma SpaceIsRead(t: bytes, i: nat)
    requires i + 1 < |t| && t[i] == SPACE && !IsBlank(t[i + 1])
    ensures TokenAt(t, i, false) == Token(Space, i + 1)
  {
  }

  /** No path, no marker and no key can be in such a text. */
  predicate IsSignless(t: bytes) { forall j | 0 <= j < |t| :: t[j] != COLON && t[j] != SLASH && t[j] != EQUALS }

  lemma AllowedIsSignless(t: bytes)
    requires AreAllowed(t)
    ensures IsSignless(t)
  {
    forall j | 0 <= j < |t|
      ensures t[j] != COLON && t[j] != SLASH && t[j] != EQUALS
    {
      assert IsAllowed(t[j]);
    }
  }

  lemma NoPath(t: bytes, i: nat)
    requires i <= |t| && IsSignless(t)
    ensures PathAt(t, i) == 0
  {
    if i < |t| {
      var j := RunEnd(t, i, WordByte);
      assert !At(t, j, SLASH) && !At(t, i + 1, COLON);
    }
  }

  lemma NoMarkerAt(t: bytes, i: nat)
    requires i <= |t| && IsSignless(t)
    ensures MarkerAt(t, i) == NoMarker
  {
    assert forall j | 0 <= j < |t| :: t[j] != COLON;
  }

  lemma NoSigns(t: bytes, i: nat, e: nat)
    requires i < e <= |t| && IsSignless(t)
    ensures t[i] != EQUALS && !ColonEnds(t, e)
  {
    assert forall j | 0 <= j < |t| :: t[j] != COLON;
  }

  lemma PieceIsKept(c: Context, k: Kind, b: bytes, data: bool, a: Act)
    requires if k == Param then a == Mask else a == Text(k, b) && (IsKeptWord(a) || IsMark(a))
    requires !(c.idNext && IsKeptWord(a) && HasDigit(a.text))
    ensures a == if IsMasked(c, k, b, data) then Mask else Text(k, b)
  {
  }

  /** A context in the middle of a message, and whether an id is awaited there. */
  predicate Leads(d: Context, id: bool) { !d.first && d.idNext == id }

  /** A token that is read as it is: a value, a word of letters or a mark. */
  lemma PieceIsFound(t: bytes, i: nat, c: Context, data: bool, k: Token, a: Act)
    requires i < k.end <= |t| && AreAllowed(t) && TokenAt(t, i, false) == k
    requires if k.kind == Param then a == Mask else a == Text(k.kind, t[i..k.end]) && (IsKeptWord(a) || IsMark(a))
    requires !(c.idNext && IsKeptWord(a) && HasDigit(a.text))
    ensures exists d: Context :: Leads(d, AwaitsID(a, c.idNext)) && ReadMessage(t, i, c, data) == Then(a, ReadMessage(t, k.end, d, data))
  {
    AllowedIsSignless(t);
    NoPath(t, i);
    NoMarkerAt(t, i);
    NoSigns(t, i, k.end);
    var b := t[i..k.end];
    PlainIsFound(t, i, c, data, k);
    var masked := IsMasked(c, k.kind, b, data);
    PieceIsKept(c, k.kind, b, data, a);
    var d := AfterToken(c, k.kind, b, masked);
    assert Leads(d, AwaitsID(a, c.idNext)) && ReadMessage(t, i, c, data) == Then(a, ReadMessage(t, k.end, d, data));
  }

  lemma PlainIsFound(t: bytes, i: nat, c: Context, data: bool, k: Token)
    requires i < k.end <= |t| && PathAt(t, i) == 0 && TokenAt(t, i, false) == k && k.kind != Space && k.kind != Comment
    requires MarkerAt(t, i) == NoMarker && !ColonEnds(t, k.end) && t[i] != EQUALS
    ensures var b := t[i..k.end];
      var masked := IsMasked(c, k.kind, b, data);
      ReadMessage(t, i, c, data)
        == Then(if masked then Mask else Text(k.kind, b), ReadMessage(t, k.end, AfterToken(c, k.kind, b, masked), data))
  {
    assert ReadToken(t, i, c, data, k) == ReadMarked(t, i, c, data, k, NoMarker);
    assert ReadMarked(t, i, c, data, k, NoMarker) == ReadPlain(t, i, c, data, k);
  }

  /** The space before a piece, and then what is read behind it. */
  lemma GapIsFound(t: bytes, i: nat, c: Context, data: bool)
    requires i + 1 < |t| && AreAllowed(t) && t[i] == SPACE && !IsBlank(t[i + 1]) && !c.first
    ensures exists d: Context :: Leads(d, c.idNext) && ReadMessage(t, i, c, data) == Then(Gap, ReadMessage(t, i + 1, d, data))
  {
    AllowedIsSignless(t);
    NoPath(t, i);
    SpaceIsRead(t, i);
    var d := c.(gap := true, prev := Space);
    assert Leads(d, c.idNext);
    assert ReadToken(t, i, c, data, Token(Space, i + 1)) == Then(Gap, ReadMessage(t, i + 1, d, data));
  }

  /** One act read back: its context is not the first. */
  lemma ReadsPiece(t: bytes, i: nat, c: Context, data: bool, a: Act, n: nat) returns (d: Context)
    requires AreAllowed(t) && (a == Mask || IsKeptWord(a) || IsMark(a))
    requires var b := if a == Mask then Placeholder(n + 1) else a.text;
      i + |b| <= |t| && t[i..i + |b|] == b && (IsMark(a) || EndsPiece(t, i + |b|))
    requires !(c.idNext && IsKeptWord(a) && HasDigit(a.text))
    ensures Leads(d, AwaitsID(a, c.idNext)) && ReadMessage(t, i, c, data) == Then(a, ReadMessage(t, i + |if a == Mask then Placeholder(n + 1) else a.text|, d, data))
  {
    var b := if a == Mask then Placeholder(n + 1) else a.text;
    var e := i + |b|;
    assert forall k | i <= k < e :: t[k] == b[k - i];
    var k: Token;
    if a == Mask {
      HoleIsRead(t, i, e, n + 1);
      k := Token(Param, e);
    } else if IsMark(a) {
      MarkIsRead(t, i);
      k := Token(Punct, e);
    } else {
      WordIsRead(t, i, e);
      k := Token(Word, e);
    }
    PieceIsFound(t, i, c, data, k, a);
    d :| Leads(d, AwaitsID(a, c.idNext)) && ReadMessage(t, i, c, data) == Then(a, ReadMessage(t, k.end, d, data));
  }

  /** What is read where a piece ends touches nothing before it. */
  lemma ReadsApart(t: bytes, i: nat, c: Context, data: bool)
    requires i <= |t| && AreAllowed(t) && EndsPiece(t, i) && !c.first && (At(t, i, SPACE) ==> i + 1 < |t| && !IsBlank(t[i + 1]))
    ensures IsApart(ReadMessage(t, i, c, data))
  {
    AllowedIsSignless(t);
    NoPath(t, i);
    if At(t, i, SPACE) {
      GapIsFound(t, i, c, data);
    } else if i < |t| {
      assert t[i..i + 1] == [t[i]];
      var _ := ReadsPiece(t, i, c, data, Text(Punct, [t[i]]), 0);
    }
  }

  /** A piece with something apart behind it is spelled as it is. */
  lemma PieceIsSpelled(out: bytes, a: Act, r: Script, gap: bool, n: nat)
    requires (IsApart(r) && (a == Mask || IsKeptWord(a))) || IsMark(a)
    ensures Spell(out, Then(a, r), gap, n, false) == Spell(OneMore(out, a, gap, n), r, false, n + Holes(a), false)
  {
    if a == Mask {
      assert SkipDigitWords(r) == r;
    } else {
      assert AfterValueAt(Then(a, r)).None?;
    }
  }

  /** A space in the text has a piece behind it. */
  lemma {:induction false} SpaceHasPiece(out: bytes, s: Script, gap: bool, n: nat)
    requires IsTame(s) && (gap || IsApart(s))
    ensures var t := Spell(out, s, gap, n, false); At(t, |out|, SPACE) ==> |out| + 1 < |t| && !IsBlank(t[|out| + 1])
    decreases Len(s)
  {
    if s.Then? {
      if s.act == Gap {
        SpaceHasPiece(out, s.rest, true, n);
      } else {
        var o := OneMore(out, s.act, gap, n);
        TameStep(out, s, gap, n);
        FirstOfPiece(s.act, n);
        SpellExtends(o, s.rest, false, n + Holes(s.act));
        var t := Spell(out, s, gap, n, false);
        assert forall k | 0 <= k < |o| :: t[k] == o[k];
      }
    }
  }

  lemma FirstOfPiece(a: Act, n: nat)
    requires a == Mask || IsMark(a) || IsKeptWord(a)
    ensures var b := if a == Mask then Placeholder(n + 1) else a.text; |b| > 0 && !IsBlank(b[0])
  {
  }

  /** Where a piece stands in the text. */
  lemma PieceStands(out: bytes, s: Script, gap: bool, n: nat, t: bytes, b: bytes, o: bytes)
    requires IsTame(s) && s.Then? && s.act != Gap && t == Spell(out, s, gap, n, false)
    requires b == (if s.act == Mask then Placeholder(n + 1) else s.act.text) && o == OneMore(out, s.act, gap, n)
    ensures var i := |out| + if gap then 1 else 0;
      && t == Spell(o, s.rest, false, n + Holes(s.act), false) && o <= t && |o| == i + |b|
      && t[i..i + |b|] == b && (gap ==> t[|out|] == SPACE) && !IsBlank(t[i])
  {
    TameStep(out, s, gap, n);
    FirstOfPiece(s.act, n);
    SpellExtends(o, s.rest, false, n + Holes(s.act));
    EndOfMore(out, gap, b, o, t);
  }

  lemma EndOfMore(out: bytes, gap: bool, b: bytes, o: bytes, t: bytes)
    requires o == Spaced(out, gap) + b && o <= t && b != [] && !IsBlank(b[0])
    ensures var i := |out| + if gap then 1 else 0;
      |o| == i + |b| <= |t| && t[i..i + |b|] == b && (gap ==> t[|out|] == SPACE) && !IsBlank(t[i])
  {
    var i := |out| + if gap then 1 else 0;
    assert o[i..] == b && t[i..|o|] == o[i..];
    assert t[i] == t[i..|o|][0];
    assert gap ==> t[|out|] == o[|out|];
  }

  /** The script that is read from the text of a tame script is tame again and spells the text again. */
  lemma {:induction false} Rereads(out: bytes, s: Script, gap: bool, n: nat, t: bytes, c: Context, data: bool)
    requires IsTame(s) && IdsAreMasked(s, c.idNext) && AreAllowed(out) && t == Spell(out, s, gap, n, false)
    requires if out == [] then !gap && !StartsGap(s) else !c.first
    ensures |out| <= |t| && Spell(out, ReadMessage(t, |out|, c, data), false, n, false) == t && IsTame(ReadMessage(t, |out|, c, data))
    decreases Len(s)
  {
    SpellExtends(out, s, gap, n);
    if s.Done? {
      AllowedIsSignless(t);
      NoPath(t, |t|);
    } else if s.act == Gap {
      Rereads(out, s.rest, true, n, t, c, data);
    } else {
      var i := |out| + if gap then 1 else 0;
      var a, o := s.act, OneMore(out, s.act, gap, n);
      PieceStands(out, s, gap, n, t, if a == Mask then Placeholder(n + 1) else a.text, o);
      var c1 := c;
      if gap {
        GapIsFound(t, |out|, c, data);
        c1 :| Leads(c1, c.idNext) && ReadMessage(t, |out|, c, data) == Then(Gap, ReadMessage(t, i, c1, data));
      }
      var r := RereadsPiece(out, s, gap, n, t, i, c1, data);
      assert ReadMessage(t, |out|, c, data) == if gap then Then(Gap, Then(a, r)) else Then(a, r);
    }
  }

  /** Behind a word or a value the text has a separator, and a separating space has a piece behind it. */
  predicate IsSetApart(t: bytes, i: nat) { EndsPiece(t, i) && (At(t, i, SPACE) ==> i + 1 < |t| && !IsBlank(t[i + 1])) }

  lemma BehindPiece(out: bytes, s: Script, gap: bool, n: nat, t: bytes)
    requires IsTame(s) && s.Then? && s.act != Gap && t == Spell(out, s, gap, n, false)
    ensures var o := OneMore(out, s.act, gap, n);
      t == Spell(o, s.rest, false, n + Holes(s.act), false) && (IsMark(s.act) || IsSetApart(t, |o|))
  {
    TameStep(out, s, gap, n);
    var o, m := OneMore(out, s.act, gap, n), n + Holes(s.act);
    if IsApart(s.rest) {
      NextIsApart(o, s.rest, false, m);
      SpaceHasPiece(o, s.rest, false, m);
    }
  }

  /** A piece read back, and what is read behind it. */
  lemma PieceReads(t: bytes, i: nat, e: nat, a: Act, n: nat, c: Context, data: bool) returns (d: Context, r: Script)
    requires AreAllowed(t) && (a == Mask || IsKeptWord(a) || IsMark(a))
    requires var b := if a == Mask then Placeholder(n + 1) else a.text; i <= e == i + |b| <= |t| && t[i..e] == b
    requires (IsMark(a) || IsSetApart(t, e)) && !(c.idNext && IsKeptWord(a) && HasDigit(a.text))
    ensures Leads(d, AwaitsID(a, c.idNext)) && r == ReadMessage(t, e, d, data)
    ensures ReadMessage(t, i, c, data) == Then(a, r)
    ensures IsMark(a) || IsApart(r)
  {
    d := ReadsPiece(t, i, c, data, a, n);
    r := ReadMessage(t, e, d, data);
    assert IsMark(a) || IsApart(r) by {
      if !IsMark(a) {
        ReadsApart(t, e, d, data);
      }
    }
  }

  lemma AllowedMore(out: bytes, a: Act, gap: bool, n: nat)
    requires AreAllowed(out) && (a == Mask || IsMark(a) || IsKeptWord(a))
    ensures AreAllowed(OneMore(out, a, gap, n)) && OneMore(out, a, gap, n) != []
  {
    PieceIsAllowed(a, n);
  }

  lemma PieceIsHere(out: bytes, s: Script, gap: bool, n: nat, t: bytes, i: nat, o: bytes, b: bytes)
    requires IsTame(s) && s.Then? && s.act != Gap && t == Spell(out, s, gap, n, false)
    requires i == |out| + (if gap then 1 else 0) && o == OneMore(out, s.act, gap, n)
    requires b == if s.act == Mask then Placeholder(n + 1) else s.act.text
    ensures i <= |o| == i + |b| <= |t| && t[i..|o|] == b && (IsMark(s.act) || IsSetApart(t, |o|))
    ensures t == Spell(o, s.rest, false, n + Holes(s.act), false)
  {
    PieceStands(out, s, gap, n, t, b, o);
    BehindPiece(out, s, gap, n, t);
  }

  /** A piece in front of a script that spells the rest of the text. */
  lemma PieceInFront(out: bytes, a: Act, r: Script, gap: bool, n: nat, t: bytes, o: bytes)
    requires IsMark(a) || (IsApart(r) && (a == Mask || IsKeptWord(a)))
    requires o == OneMore(out, a, gap, n) && t == Spell(o, r, false, n + Holes(a), false) && IsTame(r)
    ensures Spell(out, Then(a, r), gap, n, false) == t && IsTame(Then(a, r))
  {
    PieceIsSpelled(out, a, r, gap, n);
  }

  lemma {:induction false} RereadsPiece(out: bytes, s: Script, gap: bool, n: nat, t: bytes, i: nat, c: Context, data: bool) returns (r: Script)
    requires IsTame(s) && IdsAreMasked(s, c.idNext) && s.Then? && s.act != Gap
    requires AreAllowed(out) && AreAllowed(t) && t == Spell(out, s, gap, n, false)
    requires i == |out| + if gap then 1 else 0
    ensures i <= |t| && ReadMessage(t, i, c, data) == Then(s.act, r)
    ensures Spell(out, Then(s.act, r), gap, n, false) == t && IsTame(Then(s.act, r))
    decreases Len(s), 1
  {
    var o, d;
    o, d, r := PieceIsReread(out, s, gap, n, t, i, c, data);
    RereadsRest(o, s, n + Holes(s.act), t, d, data, r);
    PieceInFront(out, s.act, r, gap, n, t, o);
  }

  /** What stands behind the first piece of s. */
  lemma {:induction false} RereadsRest(o: bytes, s: Script, m: nat, t: bytes, d: Context, data: bool, r: Script)
    requires IsTame(s) && s.Then? && s.act != Gap && IdsAreMasked(s.rest, d.idNext)
    requires AreAllowed(o) && AreAllowed(t) && o != [] && t == Spell(o, s.rest, false, m, false)
    requires Leads(d, d.idNext) && |o| <= |t| && r == ReadMessage(t, |o|, d, data)
    ensures Spell(o, r, false, m, false) == t && IsTame(r)
    decreases Len(s), 0
  {
    Rereads(o, s.rest, false, m, t, d, data);
  }

  /** The piece s.act, read again, and the text behind it. */
  lemma PieceIsReread(out: bytes, s: Script, gap: bool, n: nat, t: bytes, i: nat, c: Context, data: bool)
    returns (o: bytes, d: Context, r: Script)
    requires IsTame(s) && IdsAreMasked(s, c.idNext) && s.Then? && s.act != Gap
    requires AreAllowed(out) && AreAllowed(t) && t == Spell(out, s, gap, n, false)
    requires i == |out| + if gap then 1 else 0
    ensures o == OneMore(out, s.act, gap, n) && AreAllowed(o) && o != [] && t == Spell(o, s.rest, false, n + Holes(s.act), false)
    ensures i <= |o| <= |t| && Leads(d, AwaitsID(s.act, c.idNext)) && r == ReadMessage(t, |o|, d, data)
    ensures ReadMessage(t, i, c, data) == Then(s.act, r) && (IsMark(s.act) || IsApart(r))
  {
    o := OneMore(out, s.act, gap, n);
    PieceIsHere(out, s, gap, n, t, i, o, if s.act == Mask then Placeholder(n + 1) else s.act.text);
    AllowedMore(out, s.act, gap, n);
    d, r := PieceReads(t, i, |o|, s.act, n, c, data);
  }

  // ----- Within the limit -----

  /** A draft of a message that nothing in s will take a piece of. */
  predicate IsEasy(d: Draft, s: Script) {
    && Neat(d) && !d.stmt && d.list.step == Outside
    && (d.space || (d.fuse < 0 && !d.glued) || IsApart(s))
  }

  lemma EasyMeaning(d: Draft, s: Script)
    requires IsEasy(d, s) && IsTame(s)
    ensures Meaning(s, d) == Spell(d.out, s, d.space, d.n, false)
  {
    if IsApart(s) {
      assert AfterValueAt(s).None? && SkipDigitWords(s) == s;
    }
  }

  lemma TameIsProper(s: Script)
    requires IsTame(s)
    ensures Proper(s, false)
  {
  }

  lemma EasyPut(d: Draft, s: Script)
    requires IsTame(s) && s.Then? && IsEasy(d, s)
    ensures IsEasy(Put(d, s.act, false), s.rest)
  {
  }

  /** What fits at the end fits all along. */
  lemma FitsAlong(d: Draft, s: Script)
    requires IsTame(s) && IsEasy(d, s) && |Run(s, d, false).out| <= LIMIT
    ensures |d.out| <= LIMIT
  {
    TameIsProper(s);
    RunMeaning(s, d);
    EasyMeaning(d, s);
    SpellExtends(d.out, s, d.space, d.n);
  }

  lemma PutFits(d: Draft, a: Act)
    requires !d.stmt && (a == Gap || a == Mask || a.Text?) && |Put(d, a, false).out| <= LIMIT
    ensures Put(d, a, true) == Put(d, a, false)
  {
  }

  /** A tame script that fits is written as if there were no limit. */
  lemma {:induction false} FittingTame(d: Draft, s: Script)
    requires IsTame(s) && IsEasy(d, s) && |Run(s, d, false).out| <= LIMIT
    ensures Run(s, d, true) == Run(s, d, false)
    decreases Len(s)
  {
    FitsAlong(d, s);
    if s.Then? {
      var e := Put(d, s.act, false);
      EasyPut(d, s);
      FitsAlong(e, s.rest);
      PutFits(d, s.act);
      FittingTame(e, s.rest);
    }
  }

  // ----- Idempotence -----

  /** The template of a tame message is its own template. */
  lemma TameIsIdempotent(s: bytes, data: bool)
    requires var r := ReadMessage(s, 0, START, data); IsTame(r) && IdsAreMasked(r, false)
    requires |Drafted(s, data).out| <= LIMIT
    ensures TemplateOf(TemplateOf(s, data), data) == TemplateOf(s, data)
  {
    var r := ReadMessage(s, 0, START, data);
    var t := Drafted(s, data).out;
    TemplateMeaning(s, data);
    NoLeadingGap(s, 0, START, data);
    NoPlan(r, EMPTY, true);
    assert TemplateOf(s, data) == t;
    Rereads([], r, false, 0, t, START, data);
    var again := ReadMessage(t, 0, START, data);
    TameIsProper(again);
    RunMeaning(again, EMPTY);
    EasyMeaning(EMPTY, again);
    assert Run(again, EMPTY, false).out == t;
    FittingTame(EMPTY, again);
    NoPlan(again, EMPTY, true);
    assert Drafted(t, data).out == t;
  }

  lemma TokenIsNoGap(s: bytes, pos: nat, c: Context, data: bool, t: Token, m: Marker)
    requires pos < t.end <= |s| && (m.Marker? ==> m.colon < |s|)
    ensures !StartsGap(ReadMarked(s, pos, c, data, t, m))
  {
    assert !StartsGap(ReadPlain(s, pos, c, data, t));
  }

  /** White space at the start of a message is not read as an act. */
  lemma {:induction false} NoLeadingGap(s: bytes, pos: nat, c: Context, data: bool)
    requires pos <= |s| && c.first
    ensures !StartsGap(ReadMessage(s, pos, c, data))
    decreases |s| - pos
  {
    if PathAt(s, pos) == 0 && pos < |s| {
      var t := TokenAt(s, pos, false);
      if t.kind == Space || t.kind == Comment {
        NoLeadingGap(s, t.end, c.(gap := !c.first, prev := Space), data);
      } else {
        TokenIsNoGap(s, pos, c, data, t, if MarkerPlace(c, t.kind) then MarkerAt(s, pos) else NoMarker);
      }
    }
  }

  lemma {:induction false} NoPlan(s: Script, d: Draft, bounded: bool)
    requires IsTame(s) && !d.plan
    ensures !Run(s, d, bounded).plan
    decreases Len(s)
  {
    var e := if bounded then CutBack(d) else d;
    if !(bounded && Stopped(d)) && s.Then? {
      PutKeepsPlan(e, s.act, bounded);
      NoPlan(s.rest, Put(e, s.act, bounded), bounded);
    }
  }
}
