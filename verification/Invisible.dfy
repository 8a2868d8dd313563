/**
 * What a statement's template does not show: the text of its literals, whatever their form, its
 * comments but for one byte, and the amount of its white space.
 */
module Invisible {
  import opened Bytes
  import opened Tokenizer
  import opened Rules
  import opened Masking
  import opened ListGrammar
  import opened Gaps
  import opened Templates
  import opened Leading
  import opened Suffixes
  import Prefixes

  // ----- Statements that are alike -----

  predicate IsGap(k: Kind) { k == Space || k == Comment }

  /** Two tokens that leave the same trace: two literals, or the same text. */
  predicate AlikeTokens(k: Kind, b: bytes, l: Kind, d: bytes) {
    if MasksLiteral(k) then MasksLiteral(l) else k == l && b == d
  }

  /** The end of the white space and comments at i. */
  function GapEnd(s: bytes, i: nat): (e: nat)
    requires i <= |s|
    ensures i <= e <= |s|
    decreases |s| - i
  {
    if i < |s| && IsGap(TokenAt(s, i, true).kind) then GapEnd(s, TokenAt(s, i, true).end) else i
  }

  /** The statements at i and j have the same tokens with the same spacing, but for what their literals and gaps hold. */
  ghost predicate Alike(x: bytes, i: nat, y: bytes, j: nat)
    requires i <= |x| && j <= |y|
    decreases |x| - i
  {
    var a, b := GapEnd(x, i), GapEnd(y, j);
    if a == |x| || b == |y| then a == |x| && b == |y|
    else
      var t, u := TokenAt(x, a, true), TokenAt(y, b, true);
      (a > i <==> b > j) && AlikeTokens(t.kind, x[a..t.end], u.kind, y[b..u.end]) && Alike(x, t.end, y, u.end)
  }

  /** Behind its gaps, a statement reads on. */
  lemma {:induction false} GapsAreSkipped(s: bytes, i: nat)
    requires i <= |s|
    ensures SkipGaps(ReadStatement(s, i)) == ReadStatement(s, GapEnd(s, i))
    ensures StartsGap(ReadStatement(s, i)) <==> GapEnd(s, i) > i
    decreases |s| - i
  {
    if i < |s| && IsGap(TokenAt(s, i, true).kind) {
      GapsAreSkipped(s, TokenAt(s, i, true).end);
    }
  }

  lemma GapsEnd(s: bytes, i: nat)
    requires i <= |s|
    ensures GapEnd(s, i) < |s| ==> !IsGap(TokenAt(s, GapEnd(s, i), true).kind)
    decreases |s| - i
  {
  }

  lemma AlikeActs(k: Kind, b: bytes, l: Kind, d: bytes)
    requires AlikeTokens(k, b, l, d)
    ensures ActOf(k, b) == ActOf(l, d)
  {
  }

  /** Statements that are alike have the same acts. */
  lemma {:induction false} AlikeReads(x: bytes, i: nat, y: bytes, j: nat)
    requires i <= |x| && j <= |y| && Alike(x, i, y, j)
    ensures SameActs(ReadStatement(x, i), ReadStatement(y, j))
    decreases |x| - i
  {
    GapsAreSkipped(x, i);
    GapsAreSkipped(y, j);
    var a, b := GapEnd(x, i), GapEnd(y, j);
    if a < |x| {
      var t, u := TokenAt(x, a, true), TokenAt(y, b, true);
      GapsEnd(x, i);
      AlikeActs(t.kind, x[a..t.end], u.kind, y[b..u.end]);
      AlikeReads(x, t.end, y, u.end);
    }
  }

  /**
   * Behind the same text up to the ':' of a marker, two statements whose tokens, spacing and
   * non-literal texts agree have the same template, whatever their literals and comments hold.
   */
  lemma AlikeIsInvisible(x: bytes, y: bytes, q: nat, data: bool)
    requires q < |x| && MessageLeads(x, 0, START, data, q) && ColonEnds(x, q) && ColonEnds(y, q) && x[..q + 1] == y[..q + 1]
    requires Alike(x, q + 1, y, q + 1)
    ensures TemplateOf(x, data) == TemplateOf(y, data)
  {
    AlikeReads(x, q + 1, y, q + 1);
    StatementDecides(x, y, q, data);
  }

  // ----- Up to a token -----

  /** The tokens of a statement from pos on end right before m. */
  ghost predicate StatementReaches(s: bytes, pos: nat, m: nat)
    requires m <= |s|
    decreases |s| - pos
  {
    pos == m || (pos < m && StatementReaches(s, TokenAt(s, pos, true).end, m))
  }

  /** x and y are the same up to a stop at n, and have the same acts from m on. */
  ghost predicate SameTo(x: bytes, y: bytes, m: nat, n: nat) {
    && m <= n < |x| && n < |y| && Prefixes.IsStop(x, n) && Prefixes.IsStop(y, n) && x[..n + 1] == y[..n + 1]
    && SameActs(ReadStatement(x, m), ReadStatement(y, m))
  }

  lemma SameBefore(x: bytes, y: bytes, m: nat, n: nat, pos: nat)
    requires SameTo(x, y, m, n) && pos < m && TokenAt(x, pos, true).end <= m
    ensures TokenAt(y, pos, true) == TokenAt(x, pos, true)
    ensures x[pos..TokenAt(x, pos, true).end] == y[pos..TokenAt(x, pos, true).end]
  {
    Prefixes.TokenCut(x, x[..n + 1], n, pos, true);
    Prefixes.TokenCut(y, x[..n + 1], n, pos, true);
    var e := TokenAt(x, pos, true).end;
    SliceOfPrefix(x, n + 1, pos, e);
    SliceOfPrefix(y, n + 1, pos, e);
  }

  lemma {:induction false} ReachesEnd(s: bytes, pos: nat, m: nat)
    requires m <= |s| && pos < m && StatementReaches(s, pos, m)
    ensures TokenAt(s, pos, true).end <= m && StatementReaches(s, TokenAt(s, pos, true).end, m)
  {
  }

  lemma {:induction false} SameStatementsTo(x: bytes, y: bytes, m: nat, n: nat, pos: nat)
    requires SameTo(x, y, m, n) && StatementReaches(x, pos, m)
    ensures SameActs(ReadStatement(x, pos), ReadStatement(y, pos))
    decreases m - pos
  {
    if pos < m {
      ReachesEnd(x, pos, m);
      SameBefore(x, y, m, n, pos);
      var t := TokenAt(x, pos, true);
      SameStatementsTo(x, y, m, n, t.end);
      ThenSame(ActOf(t.kind, x[pos..t.end]), ReadStatement(x, t.end), ReadStatement(y, t.end));
    }
  }

  // ----- Literals -----

  /**
   * The literal at m opens with the stop at n: the quote of '...', of E'...', B'...', X'...',
   * N'...' or U&'...', or the first '$' of a dollar-quoted literal.
   */
  predicate OpensAt(s: bytes, m: nat, n: nat) {
    && m <= n < |s|
    && if s[m] == DOLLAR then n == m && TokenAt(s, m, true).kind == Dollar
       else s[n] == APOSTROPHE && (n == m || (!StartsNumber(s, m, true) && n == m + QuotePrefix(s, m, true) - 1))
  }

  lemma ClosedByQuote(s: bytes, i: nat, q: byte, backslash: bool)
    requires QuotedEnd(s, i, q, backslash) < |s|
    ensures 0 < QuotedEnd(s, i, q, backslash) && s[QuotedEnd(s, i, q, backslash) - 1] == q
    decreases |s| - i
  {
  }

  lemma ClosedByTag(s: bytes, i: nat, tag: bytes)
    requires i <= |s| && tag != [] && tag[|tag| - 1] == DOLLAR && TagEnd(s, i, tag) < |s|
    ensures 0 < TagEnd(s, i, tag) && s[TagEnd(s, i, tag) - 1] == DOLLAR
  {
    var close := Find(s, i, tag);
    assert s[close..close + |tag|][|tag| - 1] == s[close + |tag| - 1];
  }

  lemma DollarIsClosed(s: bytes, m: nat)
    requires m < |s| && s[m] == DOLLAR && TokenAt(s, m, true).kind == Dollar && TokenAt(s, m, true).end < |s|
    ensures s[TokenAt(s, m, true).end - 1] == DOLLAR
  {
    var k := RunEnd(s, m + 1, WordByte);
    assert s[m..k + 1][k - m] == s[k];
    ClosedByTag(s, k + 1, s[m..k + 1]);
  }

  lemma PrefixedToken(s: bytes, m: nat, n: nat)
    requires OpensAt(s, m, n) && m < n
    ensures TokenAt(s, m, true) == Token(String, QuotedEnd(s, n + 1, APOSTROPHE, s[m] in {69, 101}))
  {
  }

  /** A literal that does not reach the end of the text ends with its quote. */
  lemma LiteralIsClosed(s: bytes, m: nat, n: nat)
    requires OpensAt(s, m, n)
    ensures var t := TokenAt(s, m, true);
      MasksLiteral(t.kind) && (t.end < |s| ==> s[t.end - 1] == APOSTROPHE || s[t.end - 1] == DOLLAR)
  {
    if s[m] == DOLLAR {
      if TokenAt(s, m, true).end < |s| {
        DollarIsClosed(s, m);
      }
    } else {
      if m < n {
        PrefixedToken(s, m, n);
      }
      if TokenAt(s, m, true).end < |s| {
        ClosedByQuote(s, n + 1, APOSTROPHE, m < n && s[m] in {69, 101});
      }
    }
  }

  /** Behind two literals the same rest reads the same. */
  lemma BehindLiterals(x: bytes, y: bytes, m: nat, n: nat)
    requires OpensAt(x, m, n) && OpensAt(y, m, n)
    requires x[TokenAt(x, m, true).end..] == y[TokenAt(y, m, true).end..]
    ensures ReadStatement(x, m) == ReadStatement(y, m)
  {
    LiteralIsClosed(x, m, n);
    LiteralIsClosed(y, m, n);
    SameBehindLiterals(x, TokenAt(x, m, true).end, y, TokenAt(y, m, true).end);
  }

  predicate IsClosedAt(s: bytes, e: nat) { 0 < e < |s| && (s[e - 1] == APOSTROPHE || s[e - 1] == DOLLAR) }

  lemma SameBehindLiterals(x: bytes, e: nat, y: bytes, f: nat)
    requires 0 < e <= |x| && 0 < f <= |y| && x[e..] == y[f..] && (e < |x| ==> IsClosedAt(x, e)) && (f < |y| ==> IsClosedAt(y, f))
    ensures ReadStatement(x, e) == ReadStatement(y, f)
  {
    assert |x| - e == |x[e..]| == |y[f..]| == |y| - f;
    if e < |x| {
      assert BackOverBlanks(x, e - 1) == e - 1 && BackOverBlanks(y, f - 1) == f - 1;
    } else {
      assert RunEnd(x, e, Blank) == e;
    }
    SameStatements(x, e, y, f);
  }

  /**
   * Two messages that are the same but for the text of one quoted literal of their statement, of
   * whatever form, have the same template: the literals may hold quotes, comments, keywords, anything.
   */
  lemma LiteralIsInvisible(x: bytes, y: bytes, q: nat, m: nat, n: nat, data: bool)
    requires q < m <= n < |x| && n < |y| && x[..n + 1] == y[..n + 1] && OpensAt(x, m, n) && OpensAt(y, m, n)
    requires MessageLeads(x, 0, START, data, q) && ColonEnds(x, q) && StatementReaches(x, q + 1, m)
    requires x[TokenAt(x, m, true).end..] == y[TokenAt(y, m, true).end..]
    ensures TemplateOf(x, data) == TemplateOf(y, data)
  {
    assert SameActs(ReadStatement(x, q + 1), ReadStatement(y, q + 1)) by {
      BehindLiterals(x, y, m, n);
      SameIsSame(ReadStatement(x, m));
      SameStatementsTo(x, y, m, n, q + 1);
    }
    SameColon(x, y, q, n);
    StatementDecides(x, y, q, data);
  }

  lemma SameColon(x: bytes, y: bytes, q: nat, n: nat)
    requires q < n < |x| && n < |y| && x[..n + 1] == y[..n + 1] && ColonEnds(x, q)
    ensures ColonEnds(y, q) && x[..q + 1] == y[..q + 1]
  {
    SameBytesTo(x, y, n);
  }

  lemma SameBytesTo(x: bytes, y: bytes, n: nat)
    requires n < |x| && n < |y| && x[..n + 1] == y[..n + 1]
    ensures forall k | 0 <= k <= n :: x[k] == y[k]
  {
    forall k | 0 <= k <= n
      ensures x[k] == y[k]
    {
      assert x[..n + 1][k] == y[..n + 1][k];
    }
  }

  // ----- Comments -----

  predicate IsComment(s: bytes, m: nat) { m < |s| && TokenAt(s, m, true).kind == Comment }

  lemma LineCommentStops(s: bytes, i: nat)
    requires i <= |s|
    ensures LineCommentEnd(s, i) < |s| ==> s[LineCommentEnd(s, i)] == LF || s[LineCommentEnd(s, i)] == CR
    decreases |s| - i
  {
  }

  lemma BlockCommentStops(s: bytes, i: nat, depth: nat)
    requires i <= |s|
    ensures CommentEnd(s, i, depth) < |s| ==> 0 < CommentEnd(s, i, depth) && s[CommentEnd(s, i, depth) - 1] == SLASH
    decreases |s| - i
  {
  }

  /** No word ends where a comment ends, unless a line ends there. */
  lemma CommentEnds(s: bytes, m: nat)
    requires IsComment(s, m)
    ensures var e := TokenAt(s, m, true).end; At(s, e, DOT) ==> !ClassAt(s, e - 1, WordByte)
  {
    if s[m] == MINUS {
      LineCommentStops(s, m + 2);
    } else {
      BlockCommentStops(s, m + 2, 1);
    }
  }

  /** The statement at e is a sign with a number, behind white space if any: it reads as one value or as two. */
  lemma SignReads(s: bytes, e: nat)
    requires e <= |s| && SignAhead(s, e)
    ensures var k := RunEnd(s, e, Blank);
      && SkipGaps(ReadStatement(s, e)).Then?
      && SkipGaps(ReadStatement(s, e)).act == if SignFree(s, e) then Mask else Text(Punct, [s[k]])
  {
    var k := RunEnd(s, e, Blank);
    RunIsBlank(s, e);
    LookOverBlanks(s, e, k);
    if e < k {
      assert TokenAt(s, e, true) == Token(Space, k) by { SpaceToken(s, e); }
      assert ReadStatement(s, e) == Then(Gap, ReadStatement(s, k));
    }
    SignToken(s, k);
  }

  lemma SpaceToken(s: bytes, e: nat)
    requires e < |s| && IsBlank(s[e])
    ensures TokenAt(s, e, true) == Token(Space, RunEnd(s, e, Blank))
  {
  }

  lemma SignToken(s: bytes, k: nat)
    requires k < |s| && SignAt(s, k)
    ensures ReadStatement(s, k).Then? && ReadStatement(s, k).act == if SignFree(s, k) then Mask else Text(Punct, [s[k]])
  {
    BoundSign(s, k);
    assert s[k..k + 1] == [s[k]];
  }

  lemma BehindComment(s: bytes, m: nat)
    requires IsComment(s, m)
    ensures ReadStatement(s, m) == Then(Gap, ReadStatement(s, TokenAt(s, m, true).end))
  {
  }

  /**
   * A comment's text shows through in one way only. Two comments with the same rest behind them
   * leave the same trace exactly when no sign with a number follows, or both comments end, but for
   * white space, in a byte that lets the sign belong to the number, or neither does.
   */
  lemma CommentShowsSign(x: bytes, m: nat, y: bytes, k: nat)
    requires IsComment(x, m) && IsComment(y, k) && x[TokenAt(x, m, true).end..] == y[TokenAt(y, k, true).end..]
    ensures var e, f := TokenAt(x, m, true).end, TokenAt(y, k, true).end;
      SameActs(ReadStatement(x, m), ReadStatement(y, k)) <==> (SignAhead(x, e) ==> SignFree(x, e) == SignFree(y, f))
  {
    var e, f := TokenAt(x, m, true).end, TokenAt(y, k, true).end;
    if SignAhead(x, e) && SignFree(x, e) != SignFree(y, f) {
      CommentsDiffer(x, m, e, y, k, f);
    } else {
      CommentsAgree(x, m, e, y, k, f);
    }
  }

  lemma CommentsDiffer(x: bytes, m: nat, e: nat, y: bytes, k: nat, f: nat)
    requires IsComment(x, m) && IsComment(y, k) && e == TokenAt(x, m, true).end && f == TokenAt(y, k, true).end
    requires x[e..] == y[f..] && SignAhead(x, e) && SignFree(x, e) != SignFree(y, f)
    ensures !SameActs(ReadStatement(x, m), ReadStatement(y, k))
  {
    BehindComment(x, m);
    BehindComment(y, k);
    SignsDiffer(x, e, y, f);
  }

  lemma CommentsAgree(x: bytes, m: nat, e: nat, y: bytes, k: nat, f: nat)
    requires IsComment(x, m) && IsComment(y, k) && e == TokenAt(x, m, true).end && f == TokenAt(y, k, true).end
    requires x[e..] == y[f..] && (SignAhead(x, e) ==> SignFree(x, e) == SignFree(y, f))
    ensures SameActs(ReadStatement(x, m), ReadStatement(y, k))
  {
    BehindComment(x, m);
    BehindComment(y, k);
    RestsAgree(x, m, e, y, k, f);
    SameIsSame(ReadStatement(x, m));
  }

  lemma RestsAgree(x: bytes, m: nat, e: nat, y: bytes, k: nat, f: nat)
    requires IsComment(x, m) && IsComment(y, k) && e == TokenAt(x, m, true).end && f == TokenAt(y, k, true).end
    requires x[e..] == y[f..] && (SignAhead(x, e) ==> SignFree(x, e) == SignFree(y, f))
    ensures ReadStatement(x, e) == ReadStatement(y, f)
  {
    CommentEnds(x, m);
    CommentEnds(y, k);
    SameBehindComments(x, e, y, f);
  }

  lemma SameBehindComments(x: bytes, e: nat, y: bytes, f: nat)
    requires 0 < e <= |x| && 0 < f <= |y| && x[e..] == y[f..] && (SignAhead(x, e) ==> SignFree(x, e) == SignFree(y, f))
    requires (At(x, e, DOT) ==> !ClassAt(x, e - 1, WordByte)) && (At(y, f, DOT) ==> !ClassAt(y, f - 1, WordByte))
    ensures ReadStatement(x, e) == ReadStatement(y, f)
  {
    HeadShift(x, e, 0);
    HeadShift(y, f, 0);
    SameStatements(x, e, y, f);
  }

  lemma SignsDiffer(x: bytes, e: nat, y: bytes, f: nat)
    requires e <= |x| && f <= |y| && x[e..] == y[f..] && SignAhead(x, e) && SignFree(x, e) != SignFree(y, f)
    ensures !SameActs(Then(Gap, ReadStatement(x, e)), Then(Gap, ReadStatement(y, f)))
  {
    SignAheadShift(x, e);
    SignAheadShift(y, f);
    SignReads(x, e);
    SignReads(y, f);
  }

  /** Everything before it alike, a comment may be exchanged for another unless its end decides on a sign. */
  lemma CommentIsInvisible(x: bytes, y: bytes, q: nat, m: nat, k: nat, data: bool)
    requires q < |x| && MessageLeads(x, 0, START, data, q) && ColonEnds(x, q) && ColonEnds(y, q) && x[..q + 1] == y[..q + 1]
    requires q < m && q < k && AlikeTo(x, q + 1, m, y, q + 1, k) && IsComment(x, m) && IsComment(y, k)
    requires x[TokenAt(x, m, true).end..] == y[TokenAt(y, k, true).end..]
    requires SignAhead(x, TokenAt(x, m, true).end) ==> SignFree(x, TokenAt(x, m, true).end) == SignFree(y, TokenAt(y, k, true).end)
    ensures TemplateOf(x, data) == TemplateOf(y, data)
  {
    CommentShowsSign(x, m, y, k);
    AlikeToReads(x, q + 1, m, y, q + 1, k);
    StatementDecides(x, y, q, data);
  }

  /** The statements at i and j are alike, token by token, up to m and to k. */
  ghost predicate AlikeTo(x: bytes, i: nat, m: nat, y: bytes, j: nat, k: nat)
    decreases |x| - i
  {
    && i <= m < |x| && j <= k < |y|
    && if i == m || j == k then i == m && j == k
       else
         var t, u := TokenAt(x, i, true), TokenAt(y, j, true);
         AlikeTokens(t.kind, x[i..t.end], u.kind, y[j..u.end]) && AlikeTo(x, t.end, m, y, u.end, k)
  }

  lemma {:induction false} AlikeToReads(x: bytes, i: nat, m: nat, y: bytes, j: nat, k: nat)
    requires AlikeTo(x, i, m, y, j, k) && SameActs(ReadStatement(x, m), ReadStatement(y, k))
    ensures SameActs(ReadStatement(x, i), ReadStatement(y, j))
    decreases |x| - i
  {
    if i < m {
      var t, u := TokenAt(x, i, true), TokenAt(y, j, true);
      AlikeActs(t.kind, x[i..t.end], u.kind, y[j..u.end]);
      AlikeToReads(x, t.end, m, y, u.end, k);
      ThenSame(ActOf(t.kind, x[i..t.end]), ReadStatement(x, t.end), ReadStatement(y, u.end));
    }
  }
}
