/** In a valid text every token, path, value and marker ends on the edge of a character. */
module TokenEdges {
  import opened Bytes
  import opened Tokenizer
  import opened Rules
  import opened Masking
  import opened Utf8

  /** e is next to an ASCII byte, behind a guillemet, or at the end: no character goes on there. */
  predicate Ends(s: bytes, e: nat) {
    0 < e <= |s| && (e == |s| || s[e] < 0x80 || s[e - 1] < 0x80 || (e >= 2 && s[e - 2] == 0xC2))
  }

  lemma EndsIsEdge(s: bytes, e: nat)
    requires Valid(s) && Ends(s, e)
    ensures IsEdge(s, e)
  {
    if e < |s| && s[e] >= 0x80 {
      EdgeBehind(s, e);
    }
  }

  // ----- Scans -----

  lemma RunEnds(s: bytes, i: nat, k: Class)
    requires i <= |s| && (i > 0 && (k == WordByte || s[i - 1] < 0x80))
    ensures Ends(s, RunEnd(s, i, k))
    decreases |s| - i
  {
  }

  lemma DigitsEnds(s: bytes, i: nat, k: Class)
    requires 0 < i <= |s| && s[i - 1] < 0x80 && k in {Digit, HexDigit, OctalDigit, BinaryDigit}
    ensures s[DigitsEnd(s, i, k) - 1] < 0x80
    decreases |s| - i
  {
  }

  lemma DigitsFrom(s: bytes, i: nat, k: Class)
    requires ClassAt(s, i, k) && k in {Digit, HexDigit, OctalDigit, BinaryDigit}
    ensures s[DigitsEnd(s, i, k) - 1] < 0x80
  {
    DigitsEnds(s, i + 1, k);
  }

  lemma WordEnds(s: bytes, i: nat)
    requires 0 < i <= |s|
    ensures Ends(s, WordEnd(s, i))
    decreases |s| - i
  {
  }

  lemma QuotedEnds(s: bytes, i: nat, q: byte, backslash: bool)
    requires 0 < i && 0 < |s| && q < 0x80
    ensures Ends(s, QuotedEnd(s, i, q, backslash))
    decreases |s| - i
  {
  }

  lemma GuillemetEnds(s: bytes, k: nat, closing: byte)
    requires 0 < k <= |s|
    ensures Ends(s, GuillemetEnd(s, k, closing))
    decreases |s| - k
  {
  }

  lemma CommentEnds(s: bytes, i: nat, depth: nat)
    requires 0 < i <= |s|
    ensures Ends(s, CommentEnd(s, i, depth))
    decreases |s| - i
  {
  }

  lemma LineCommentEnds(s: bytes, i: nat)
    requires 0 < i <= |s|
    ensures Ends(s, LineCommentEnd(s, i))
    decreases |s| - i
  {
  }

  lemma HexRunEnds(s: bytes, i: nat, left: nat)
    requires i <= |s|
    ensures HexRun(s, i, left) > i ==> s[HexRun(s, i, left) - 1] < 0x80
    decreases left
  {
  }

  lemma LsnEnds(s: bytes, i: nat)
    requires i <= |s| && LsnEnd(s, i) > 0
    ensures Ends(s, LsnEnd(s, i))
  {
    HexRunEnds(s, HexRun(s, i, 9) + 1, 9);
  }

  lemma DecimalEnds(s: bytes, i: nat)
    requires NumberAt(s, i)
    ensures s[DecimalEnd(s, i) - 1] < 0x80
  {
    var a := DigitsEnd(s, i, Digit);
    if ClassAt(s, i, Digit) {
      DigitsFrom(s, i, Digit);
    }
    if At(s, a, DOT) && ClassAt(s, a + 1, Digit) {
      DigitsFrom(s, a + 1, Digit);
    }
    ExponentEnds(s, FractionEnd(s, a));
  }

  lemma ExponentEnds(s: bytes, b: nat)
    requires 0 < b <= |s| && s[b - 1] < 0x80
    ensures s[ExponentEnd(s, b) - 1] < 0x80
  {
    var j := if At(s, b + 1, PLUS) || At(s, b + 1, MINUS) then b + 2 else b + 1;
    if ClassAt(s, j, Digit) {
      DigitsFrom(s, j, Digit);
    }
  }

  // ----- Tokens -----

  lemma DecimalTokenEnds(s: bytes, start: nat, signed: bool, stmt: bool)
    requires start < |s| && s[start] < 0x80 && NumberAt(s, if signed then start + 1 else start)
    ensures Ends(s, DecimalToken(s, start, signed, stmt).end)
  {
    var i := DecimalEnd(s, if signed then start + 1 else start);
    DecimalEnds(s, if signed then start + 1 else start);
    if ClassAt(s, i, WordByte) {
      RunEnds(s, i, WordByte);
      if !signed {
        WordFrom(s, start);
      }
    } else if At(s, i, SPACE) && ClassAt(s, i + 1, WordByte) {
      RunEnds(s, i + 1, WordByte);
    }
  }

  lemma WordFrom(s: bytes, i: nat)
    requires i < |s| && ContinuesWord(s, i)
    ensures Ends(s, WordEnd(s, i))
  {
    WordEnds(s, i + 1);
    if i + 2 <= |s| {
      WordEnds(s, i + 2);
    }
  }

  lemma NumericTokenEnds(s: bytes, start: nat, stmt: bool)
    requires start < |s|
    requires NumberAt(s, if s[start] == PLUS || s[start] == MINUS then start + 1 else start)
    ensures Ends(s, NumericToken(s, start, stmt).end)
  {
    if s[start] == PLUS || s[start] == MINUS {
      DecimalTokenEnds(s, start, true, stmt);
    } else {
      var radix := Radix(s, start);
      if radix.Some? {
        DigitsEnds(s, start + 2, radix.value);
        WordFrom(s, start);
      } else {
        if LsnEnd(s, start) > 0 {
          LsnEnds(s, start);
        }
        DecimalTokenEnds(s, start, false, stmt);
      }
    }
  }

  lemma WordTokenEnds(s: bytes, start: nat, stmt: bool)
    requires start < |s| && IsWordByte(s[start])
    ensures Ends(s, WordToken(s, start, stmt).end)
  {
    var p := QuotePrefix(s, start, stmt);
    if p > 0 {
      QuotedEnds(s, start + p, s[start + p - 1], s[start] in {69, 101});
    } else {
      if LsnEnd(s, start) > 0 {
        LsnEnds(s, start);
      }
      WordEnds(s, start + 1);
    }
  }

  lemma TagEnds(s: bytes, from: nat, tag: bytes)
    requires from <= |s| && tag != [] && tag[|tag| - 1] == DOLLAR && Find(s, from, tag) >= 0
    ensures Ends(s, Find(s, from, tag) + |tag|)
  {
    var close := Find(s, from, tag);
    assert s[close..close + |tag|][|tag| - 1] == s[close + |tag| - 1];
  }

  lemma TagEndEnds(s: bytes, from: nat, tag: bytes)
    requires 0 < from <= |s| && tag != [] && tag[|tag| - 1] == DOLLAR
    ensures Ends(s, TagEnd(s, from, tag))
  {
    if Find(s, from, tag) >= 0 {
      TagEnds(s, from, tag);
    }
  }

  lemma DollarTokenEnds(s: bytes, start: nat)
    requires start < |s| && s[start] == DOLLAR
    ensures Ends(s, DollarToken(s, start).end)
  {
    var k := RunEnd(s, start + 1, WordByte);
    if ClassAt(s, start + 1, Digit) {
      RunEnds(s, start + 1, Digit);
    } else if At(s, k, DOLLAR) {
      TagEndEnds(s, k + 1, s[start..k + 1]);
    }
  }

  lemma TokenEnds(s: bytes, pos: nat, stmt: bool)
    requires pos < |s|
    ensures Ends(s, TokenAt(s, pos, stmt).end)
  {
    var c := s[pos];
    if IsBlank(c) {
      RunEnds(s, pos + 1, Blank);
    } else if stmt && c == MINUS && At(s, pos + 1, MINUS) {
      LineCommentEnds(s, pos + 2);
    } else if stmt && c == SLASH && At(s, pos + 1, STAR) {
      CommentEnds(s, pos + 2, 1);
    } else if c == QUOTE || c == APOSTROPHE {
      QuotedEnds(s, pos + 1, c, false);
    } else if c == DOLLAR {
      DollarTokenEnds(s, pos);
    } else if TokenAt(s, pos, stmt) == Token(Punct, pos + 1) {
      if c >= 0x80 {
        assert IsWordByte(c);
      }
    } else {
      LateTokenEnds(s, pos, stmt);
    }
  }

  lemma LateTokenEnds(s: bytes, pos: nat, stmt: bool)
    requires pos < |s|
    ensures NumberAt(s, if s[pos] == PLUS || s[pos] == MINUS then pos + 1 else pos) ==> Ends(s, NumericToken(s, pos, stmt).end)
    ensures IsWordByte(s[pos]) ==> Ends(s, WordToken(s, pos, stmt).end)
    ensures pos + 1 < |s| ==> Ends(s, GuillemetEnd(s, pos + 2, if s[pos + 1] == 0xAB then 0xBB else 0xAB))
  {
    if NumberAt(s, if s[pos] == PLUS || s[pos] == MINUS then pos + 1 else pos) {
      NumericTokenEnds(s, pos, stmt);
    }
    if IsWordByte(s[pos]) {
      WordTokenEnds(s, pos, stmt);
    }
    if pos + 1 < |s| {
      GuillemetEnds(s, pos + 2, if s[pos + 1] == 0xAB then 0xBB else 0xAB);
    }
  }

  // ----- Paths, values and markers -----

  lemma PathEnds(s: bytes, i: nat)
    requires i <= |s|
    ensures PathEnd(s, i) == |s| || s[PathEnd(s, i)] < 0x80
    decreases |s| - i
  {
  }

  lemma ValueEnds(s: bytes, pos: nat)
    requires Ends(s, pos)
    ensures Ends(s, ValueEnd(s, pos))
    decreases |s| - pos
  {
    if pos < |s| {
      TokenEnds(s, pos, false);
      ValueEnds(s, TokenAt(s, pos, false).end);
    }
  }

  lemma MarkersAreAscii(s: bytes, i: nat)
    requires i <= |s| && MarkerAt(s, i).Marker?
    ensures AllAscii(MarkerAt(s, i).words)
  {
    if !PlainMarker(s, i, Ascii("statement")).Marker? && !PlainMarker(s, i, Ascii("fastpath function call")).Marker? {
      NamedIsAscii(s, i, 0);
    }
  }

  lemma NamedIsAscii(s: bytes, i: nat, k: nat)
    requires i <= |s| && NamedMarker(s, i, k).Marker?
    ensures AllAscii(NamedMarker(s, i, k).words)
    decreases 4 - k
  {
    if MatchWords(s, i, NamedWords(k)) == 0 {
      NamedIsAscii(s, i, k + 1);
    }
  }

  // ----- Scripts -----

  predicate CleanAct(a: Act) { (a.Text? ==> Valid(a.text)) && (a.Mark? ==> AllAscii(a.words)) }

  /** The texts of a script are whole characters, and the words of its markers are ASCII. */
  predicate Clean(r: Script) { r.Then? ==> CleanAct(r.act) && Clean(r.rest) }

  lemma {:induction false} StatementClean(s: bytes, pos: nat)
    requires pos <= |s| && Valid(s) && IsEdge(s, pos)
    ensures Clean(ReadStatement(s, pos))
    decreases |s| - pos
  {
    if pos < |s| {
      var end := TokenAt(s, pos, true).end;
      TokenEnds(s, pos, true);
      EndsIsEdge(s, end);
      ValidSlice(s, pos, end);
      StatementClean(s, end);
    }
  }

  lemma {:induction false} MessageClean(s: bytes, pos: nat, c: Context, data: bool)
    requires pos <= |s| && Valid(s) && IsEdge(s, pos)
    ensures Clean(ReadMessage(s, pos, c, data))
    decreases |s| - pos, 4
  {
    var path := PathAt(s, pos);
    if path > 0 {
      PathEnds(s, pos);
      MessageClean(s, path, AfterValue(true), data);
    } else if pos < |s| {
      TokenClean(s, pos, c, data);
    }
  }

  lemma GapToken(s: bytes, pos: nat, c: Context, data: bool, t: Token)
    requires pos < t.end <= |s| && (t.kind == Space || t.kind == Comment)
    requires Clean(ReadMessage(s, t.end, c.(gap := !c.first, prev := Space), data))
    ensures Clean(ReadToken(s, pos, c, data, t))
  {
  }

  lemma OtherToken(s: bytes, pos: nat, c: Context, data: bool, t: Token, m: Marker)
    requires pos < t.end <= |s| && t.kind != Space && t.kind != Comment
    requires m == (if MarkerPlace(c, t.kind) then MarkerAt(s, pos) else NoMarker) && Clean(ReadMarked(s, pos, c, data, t, m))
    ensures Clean(ReadToken(s, pos, c, data, t))
  {
  }

  lemma {:induction false} TokenClean(s: bytes, pos: nat, c: Context, data: bool)
    requires pos < |s| && Valid(s) && IsEdge(s, pos)
    ensures Clean(ReadToken(s, pos, c, data, TokenAt(s, pos, false)))
    decreases |s| - pos, 3
  {
    var t := TokenAt(s, pos, false);
    TokenEnds(s, pos, false);
    if t.kind == Space || t.kind == Comment {
      EndsIsEdge(s, t.end);
      MessageClean(s, t.end, c.(gap := !c.first, prev := Space), data);
      GapToken(s, pos, c, data, t);
    } else {
      var m := if MarkerPlace(c, t.kind) then MarkerAt(s, pos) else NoMarker;
      MarkedClean(s, pos, c, data, t, m);
      OtherToken(s, pos, c, data, t, m);
    }
  }

  lemma MarkIsClean(s: bytes, pos: nat, c: Context, data: bool, t: Token, m: Marker)
    requires pos < t.end <= |s| && m.Marker? && m.colon < |s|
    requires AllAscii(m.words) && Clean(ReadStatement(s, m.colon + 1))
    ensures Clean(ReadMarked(s, pos, c, data, t, m))
  {
  }

  lemma {:induction false} MarkedClean(s: bytes, pos: nat, c: Context, data: bool, t: Token, m: Marker)
    requires pos < t.end <= |s| && Valid(s) && IsEdge(s, pos) && Ends(s, t.end)
    requires m == MarkerAt(s, pos) || m == NoMarker
    ensures Clean(ReadMarked(s, pos, c, data, t, m))
    decreases |s| - pos, 2
  {
    if m.Marker? {
      MarkersAreAscii(s, pos);
      BehindColonClean(s, m.colon);
      MarkIsClean(s, pos, c, data, t, m);
    } else {
      PlainClean(s, pos, c, data, t);
    }
  }

  lemma {:induction false} PlainClean(s: bytes, pos: nat, c: Context, data: bool, t: Token)
    requires pos < t.end <= |s| && Valid(s) && IsEdge(s, pos) && Ends(s, t.end)
    ensures Clean(ReadPlain(s, pos, c, data, t))
    decreases |s| - pos, 1
  {
    EndsIsEdge(s, t.end);
    if t.kind == Punct && s[pos] == EQUALS && c.prev == Word {
      ValueEnds(s, t.end);
      EndsIsEdge(s, ValueEnd(s, t.end));
      MessageClean(s, ValueEnd(s, t.end), AfterValue(false), data);
    } else {
      var b := s[pos..t.end];
      ValidSlice(s, pos, t.end);
      MessageClean(s, t.end, AfterToken(c, t.kind, b, IsMasked(c, t.kind, b, data)), data);
    }
  }

  lemma BehindColonClean(s: bytes, colon: nat)
    requires colon < |s| && s[colon] == COLON && Valid(s)
    ensures Clean(ReadStatement(s, colon + 1))
  {
    EndsIsEdge(s, colon + 1);
    StatementClean(s, colon + 1);
  }
}
