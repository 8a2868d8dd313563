/**
 * What stands before a statement: up to the ':' of its marker two messages that are the same are
 * read the same, so the statements behind decide whether their templates are.
 */
module Leading {
  import opened Bytes
  import opened Tokenizer
  import opened Rules
  import opened Masking
  import opened Prefixes
  import opened Gaps
  import opened Templates

  // ----- Where reading goes -----

  /** Reading the message from pos on comes to a statement marker whose ':' is at q. */
  ghost predicate MessageLeads(s: bytes, pos: nat, c: Context, data: bool, q: nat)
    requires q < |s|
    decreases |s| - pos, 3
  {
    pos < q &&
    var path := PathAt(s, pos);
    if path > 0 then MessageLeads(s, path, AfterValue(true), data, q)
    else TokenLeads(s, pos, c, data, TokenAt(s, pos, false), q)
  }

  ghost predicate TokenLeads(s: bytes, pos: nat, c: Context, data: bool, t: Token, q: nat)
    requires pos < q < |s| && pos < t.end
    decreases |s| - pos, 2
  {
    t.end <= q &&
    if t.kind == Space || t.kind == Comment then
      MessageLeads(s, t.end, c.(gap := !c.first, prev := Space), data, q)
    else MarkedLeads(s, pos, c, data, t, if MarkerPlace(c, t.kind) then MarkerAt(s, pos) else NoMarker, q)
  }

  ghost predicate MarkedLeads(s: bytes, pos: nat, c: Context, data: bool, t: Token, m: Marker, q: nat)
    requires pos < t.end <= q < |s|
    decreases |s| - pos, 1
  {
    if m.Marker? then m.colon == q && ColonEnds(s, q)
    else if t.kind == Punct && s[pos] == EQUALS && c.prev == Word then
      MessageLeads(s, ValueEnd(s, t.end), AfterValue(false), data, q)
    else
      var b := s[pos..t.end];
      MessageLeads(s, t.end, AfterToken(c, t.kind, b, IsMasked(c, t.kind, b, data)), data, q)
  }

  /** s has the ':' of a marker at n, and t is s cut off behind it. */
  predicate ColonCutAt(s: bytes, t: bytes, n: nat) { ColonEnds(s, n) && t == s[..n + 1] }

  // ----- Paths, values and markers do not look past the ':' of a marker -----

  /** The same with a quote or a '=' at n, which no value looks past, and no path but over a '='. */
  predicate EdgeCutAt(s: bytes, t: bytes, n: nat) {
    (ColonEnds(s, n) || At(s, n, QUOTE) || At(s, n, APOSTROPHE) || At(s, n, EQUALS)) && t == s[..n + 1]
  }

  lemma PathCut(s: bytes, t: bytes, n: nat, i: nat)
    requires EdgeCutAt(s, t, n) && i < n
    ensures SameEnd(PathAt(s, i), PathAt(t, i), n) && (!At(s, n, EQUALS) ==> PathAt(s, i) == PathAt(t, i))
  {
    PathPrefixCut(s, t, n, i);
    PathEndCut(s, t, n, i);
  }

  lemma PathPrefixCut(s: bytes, t: bytes, n: nat, i: nat)
    requires EdgeCutAt(s, t, n) && i < n
    ensures PathPrefix(s, i) == PathPrefix(t, i)
  {
    RunCut(s, t, n, i, WordByte);
    var j := RunEnd(s, i, WordByte);
    assert s[i..j] == t[i..j];
    if j > i + 3 {
      assert s[i..i + 3] == t[i..i + 3];
    }
  }

  lemma PathEndCut(s: bytes, t: bytes, n: nat, i: nat)
    requires EdgeCutAt(s, t, n) && i <= n
    ensures SameEnd(PathEnd(s, i), PathEnd(t, i), n) && (!At(s, n, EQUALS) ==> PathEnd(s, i) == PathEnd(t, i) <= n)
    decreases n - i
  {
  }

  /** How a value goes on behind its token x. */
  lemma ValueStep(s: bytes, pos: nat, x: Token)
    requires pos < |s| && x == TokenAt(s, pos, false)
    ensures ValueEnd(s, pos) ==
      if x.kind == Space || (x.kind == Punct && EndsValue(s[pos])) then pos else ValueEnd(s, x.end)
  {
  }

  lemma ColonValue(s: bytes, n: nat)
    requires At(s, n, COLON) || At(s, n, QUOTE) || At(s, n, APOSTROPHE) || At(s, n, EQUALS)
    ensures ValueEnd(s, n) > n
  {
    ValueStep(s, n, TokenAt(s, n, false));
  }

  lemma ValueCut(s: bytes, t: bytes, n: nat, pos: nat)
    requires EdgeCutAt(s, t, n) && pos <= n
    ensures SameEnd(ValueEnd(s, pos), ValueEnd(t, pos), n)
    decreases n - pos
  {
    if pos == n {
      ColonValue(s, n);
      ColonValue(t, n);
    } else {
      TokenCut(s, t, n, pos, false);
      ValueBehind(s, t, n, pos, TokenAt(s, pos, false), TokenAt(t, pos, false));
    }
  }

  lemma ValueBehind(s: bytes, t: bytes, n: nat, pos: nat, x: Token, y: Token)
    requires EdgeCutAt(s, t, n) && pos < n && pos < x.end <= |s| && pos < y.end <= |t| && SameToken(x, y, n)
    requires x == TokenAt(s, pos, false) && y == TokenAt(t, pos, false)
    ensures SameEnd(ValueEnd(s, pos), ValueEnd(t, pos), n)
    decreases n - pos, 0
  {
    ValueStep(s, pos, x);
    ValueStep(t, pos, y);
    if x.end <= n {
      ValueCut(s, t, n, x.end);
    }
  }

  lemma MatchRestCut(s: bytes, t: bytes, n: nat, i: nat, m: bytes)
    requires ColonCutAt(s, t, n) && 0 < i <= n && COLON !in m
    ensures MatchRest(s, i, m) == MatchRest(t, i, m) <= n
    decreases |m|
  {
    if m != [] {
      if m[0] == SPACE {
        RunCut(s, t, n, i, Blank);
        if IsBlank(s[i]) {
          MatchRestCut(s, t, n, RunEnd(s, i, Blank), m[1..]);
        }
      } else if s[i] == m[0] {
        assert m[0] in m;
        MatchRestCut(s, t, n, i + 1, m[1..]);
      }
    }
  }

  lemma MatchCut(s: bytes, t: bytes, n: nat, i: nat, m: bytes)
    requires ColonCutAt(s, t, n) && i <= n && COLON !in m && m != []
    ensures MatchWords(s, i, m) == MatchWords(t, i, m) <= n
  {
    RunCut(s, t, n, i, Blank);
    if m[0] == SPACE {
      if IsBlank(s[i]) {
        MatchRestCut(s, t, n, RunEnd(s, i, Blank), m[1..]);
      }
    } else if s[i] == m[0] {
      assert m[0] in m;
      MatchRestCut(s, t, n, i + 1, m[1..]);
    }
  }

  lemma NameCut(s: bytes, t: bytes, n: nat, i: nat, q: nat)
    requires ColonCutAt(s, t, n) && i <= q <= n && s[q] == COLON
    ensures NameEnd(s, i) == NameEnd(t, i) <= q
    decreases n - i
  {
    if i < q {
      NameCut(s, t, n, i + 1, q);
    }
  }

  lemma RunHasNoColon(s: bytes, i: nat, q: nat)
    requires i <= q < |s| && s[q] == COLON
    ensures RunEnd(s, i, Blank) <= q
    decreases q - i
  {
    if i < q {
      RunHasNoColon(s, i + 1, q);
    }
  }

  lemma WordsEndBeforeColon(s: bytes, i: nat, m: bytes, q: nat)
    requires 0 < i <= q < |s| && s[q] == COLON && COLON !in m
    ensures MatchRest(s, i, m) <= q
    decreases |m|
  {
    if m != [] {
      assert m[0] in m;
      RunHasNoColon(s, i, q);
      if m[0] == SPACE {
        WordsEndBeforeColon(s, RunEnd(s, i, Blank), m[1..], q);
      } else if s[i] == m[0] {
        WordsEndBeforeColon(s, i + 1, m[1..], q);
      }
    }
  }

  lemma MatchEndsBeforeColon(s: bytes, i: nat, m: bytes, q: nat)
    requires i <= q < |s| && s[q] == COLON && COLON !in m && m != [] && m[0] != SPACE
    ensures MatchWords(s, i, m) <= q
  {
    assert m[0] in m;
    if s[i] == m[0] {
      WordsEndBeforeColon(s, i + 1, m[1..], q);
    }
  }

  lemma ColonCut(s: bytes, t: bytes, n: nat, j: nat)
    requires ColonCutAt(s, t, n) && j <= n
    ensures ColonEnds(s, j) == ColonEnds(t, j)
  {
  }

  lemma PlainCut(s: bytes, t: bytes, n: nat, i: nat, m: bytes)
    requires ColonCutAt(s, t, n) && i <= n && COLON !in m && m != []
    ensures PlainMarker(s, i, m) == PlainMarker(t, i, m) && (PlainMarker(s, i, m).Marker? ==> PlainMarker(s, i, m).colon <= n)
  {
    MatchCut(s, t, n, i, m);
    ColonCut(s, t, n, MatchWords(s, i, m));
  }

  lemma NamedCut(s: bytes, t: bytes, n: nat, i: nat, k: nat, q: nat)
    requires ColonCutAt(s, t, n) && i <= q <= n && s[q] == COLON
    ensures NamedMarker(s, i, k) == NamedMarker(t, i, k)
    decreases 4 - k
  {
    if k < 4 {
      WordsArePlain(k);
      MatchCut(s, t, n, i, NamedWords(k));
      MatchEndsBeforeColon(s, i, NamedWords(k), q);
      var head := MatchWords(s, i, NamedWords(k));
      if head == 0 {
        NamedCut(s, t, n, i, k + 1, q);
      } else {
        NameCut(s, t, n, head, q);
        ColonCut(s, t, n, NameEnd(s, head));
      }
    }
  }

  lemma WordsArePlain(k: nat)
    ensures var w := NamedWords(k); COLON !in w && w[0] != SPACE
    ensures COLON !in Ascii("statement") && COLON !in Ascii("fastpath function call")
  {
  }

  /** A marker is found without looking past a ':' that ends one. */
  lemma MarkerCut(s: bytes, t: bytes, n: nat, i: nat, q: nat)
    requires ColonCutAt(s, t, n) && i <= q <= n && s[q] == COLON
    ensures MarkerAt(s, i) == MarkerAt(t, i)
  {
    WordsArePlain(0);
    PlainCut(s, t, n, i, Ascii("statement"));
    PlainCut(s, t, n, i, Ascii("fastpath function call"));
    NamedCut(s, t, n, i, 0, q);
  }

  // ----- Two messages that differ behind a marker -----

  /** x and y are the same up to the ':' of a marker at n, and the statements behind it have the same acts. */
  ghost predicate Twins(x: bytes, y: bytes, n: nat) {
    && ColonEnds(x, n) && ColonEnds(y, n) && x[..n + 1] == y[..n + 1]
    && SameActs(ReadStatement(x, n + 1), ReadStatement(y, n + 1))
  }

  lemma SameTokens(x: bytes, y: bytes, n: nat, pos: nat, stmt: bool)
    requires Twins(x, y, n) && pos < n && TokenAt(x, pos, stmt).end <= n
    ensures TokenAt(y, pos, stmt) == TokenAt(x, pos, stmt)
    ensures x[pos..TokenAt(x, pos, stmt).end] == y[pos..TokenAt(x, pos, stmt).end]
  {
    TokenCut(x, x[..n + 1], n, pos, stmt);
    TokenCut(y, x[..n + 1], n, pos, stmt);
    var e := TokenAt(x, pos, stmt).end;
    SliceOfPrefix(x, n + 1, pos, e);
    SliceOfPrefix(y, n + 1, pos, e);
  }

  lemma SliceOfPrefix(s: bytes, n: nat, i: nat, j: nat)
    requires i <= j <= n <= |s|
    ensures s[..n][i..j] == s[i..j]
  {
  }

  lemma {:induction false} TwinMessages(x: bytes, y: bytes, n: nat, pos: nat, c: Context, data: bool)
    requires Twins(x, y, n) && MessageLeads(x, pos, c, data, n)
    ensures SameActs(ReadMessage(x, pos, c, data), ReadMessage(y, pos, c, data))
    decreases n - pos, 3
  {
    PathCut(x, x[..n + 1], n, pos);
    PathCut(y, x[..n + 1], n, pos);
    var path := PathAt(x, pos);
    if path > 0 {
      TwinMessages(x, y, n, path, AfterValue(true), data);
      ThenSame(Mask, ReadMessage(x, path, AfterValue(true), data), ReadMessage(y, path, AfterValue(true), data));
    } else {
      var t := TokenAt(x, pos, false);
      assert TokenLeads(x, pos, c, data, t, n);
      SameTokens(x, y, n, pos, false);
      TwinTokens(x, y, n, pos, c, data, t);
    }
  }

  lemma {:induction false} TwinTokens(x: bytes, y: bytes, n: nat, pos: nat, c: Context, data: bool, t: Token)
    requires Twins(x, y, n) && pos < n && pos < t.end <= n && TokenLeads(x, pos, c, data, t, n)
    requires x[pos..t.end] == y[pos..t.end]
    ensures SameActs(ReadToken(x, pos, c, data, t), ReadToken(y, pos, c, data, t))
    decreases n - pos, 2
  {
    if t.kind == Space || t.kind == Comment {
      var d := c.(gap := !c.first, prev := Space);
      TwinMessages(x, y, n, t.end, d, data);
      ThenSame(Gap, ReadMessage(x, t.end, d, data), ReadMessage(y, t.end, d, data));
    } else {
      ColonCut(x, x[..n + 1], n, t.end);
      ColonCut(y, x[..n + 1], n, t.end);
      MarkerCut(x, x[..n + 1], n, pos, n);
      MarkerCut(y, x[..n + 1], n, pos, n);
      var m := if MarkerPlace(c, t.kind) then MarkerAt(x, pos) else NoMarker;
      TwinMarked(x, y, n, pos, c, data, t, m);
    }
  }

  lemma SameMarked(x: bytes, y: bytes, pos: nat, c: Context, data: bool, t: Token, m: Marker)
    requires pos < t.end <= |x| && t.end <= |y| && m.Marker? && m.colon < |x| && m.colon < |y|
    requires SameActs(ReadStatement(x, m.colon + 1), ReadStatement(y, m.colon + 1))
    ensures SameActs(ReadMarked(x, pos, c, data, t, m), ReadMarked(y, pos, c, data, t, m))
  {
    MarkedStatement(x, pos, c, data, t, m);
    MarkedStatement(y, pos, c, data, t, m);
    ThenSame(Mark(m.words, m.head < m.colon), ReadStatement(x, m.colon + 1), ReadStatement(y, m.colon + 1));
  }

  lemma MarkedStatement(s: bytes, pos: nat, c: Context, data: bool, t: Token, m: Marker)
    requires pos < t.end <= |s| && m.Marker? && m.colon < |s|
    ensures ReadMarked(s, pos, c, data, t, m) == Then(Mark(m.words, m.head < m.colon), ReadStatement(s, m.colon + 1))
  {
  }

  lemma {:induction false} TwinMarked(x: bytes, y: bytes, n: nat, pos: nat, c: Context, data: bool, t: Token, m: Marker)
    requires Twins(x, y, n) && pos < t.end <= n && x[pos..t.end] == y[pos..t.end] && (m.Marker? ==> m.colon < |x|)
    requires MarkedLeads(x, pos, c, data, t, m, n)
    ensures m.Marker? ==> m.colon < |y|
    ensures SameActs(ReadMarked(x, pos, c, data, t, m), ReadMarked(y, pos, c, data, t, m))
    decreases n - pos, 1
  {
    if m.Marker? {
      SameMarked(x, y, pos, c, data, t, m);
    } else {
      TwinPlain(x, y, n, pos, c, data, t);
      assert ReadMarked(x, pos, c, data, t, m) == ReadPlain(x, pos, c, data, t);
      assert ReadMarked(y, pos, c, data, t, m) == ReadPlain(y, pos, c, data, t);
    }
  }

  lemma {:induction false} TwinPlain(x: bytes, y: bytes, n: nat, pos: nat, c: Context, data: bool, t: Token)
    requires Twins(x, y, n) && pos < t.end <= n && x[pos..t.end] == y[pos..t.end]
    requires MarkedLeads(x, pos, c, data, t, NoMarker, n)
    ensures SameActs(ReadPlain(x, pos, c, data, t), ReadPlain(y, pos, c, data, t))
    decreases n - pos, 0
  {
    assert x[pos] == x[pos..t.end][0] == y[pos];
    if t.kind == Punct && x[pos] == EQUALS && c.prev == Word {
      var e := ValueEnd(x, t.end);
      SameValue(x, y, n, t.end);
      TwinMessages(x, y, n, e, AfterValue(false), data);
      ThenSame(Key, ReadMessage(x, e, AfterValue(false), data), ReadMessage(y, e, AfterValue(false), data));
    } else {
      var b := x[pos..t.end];
      var masked := IsMasked(c, t.kind, b, data);
      var d := AfterToken(c, t.kind, b, masked);
      TwinMessages(x, y, n, t.end, d, data);
      ThenSame(if masked then Mask else Text(t.kind, b), ReadMessage(x, t.end, d, data), ReadMessage(y, t.end, d, data));
    }
  }

  lemma SameValue(x: bytes, y: bytes, n: nat, e: nat)
    requires Twins(x, y, n) && e <= n && ValueEnd(x, e) < n
    ensures ValueEnd(y, e) == ValueEnd(x, e)
  {
    var t := x[..n + 1];
    assert SameEnd(ValueEnd(x, e), ValueEnd(t, e), n) by { ValueCut(x, t, n, e); }
    assert SameEnd(ValueEnd(y, e), ValueEnd(t, e), n) by { ValueCut(y, t, n, e); }
  }

  /** Behind the same text up to the ':' of a marker, statements with the same acts have the same template. */
  lemma StatementDecides(x: bytes, y: bytes, q: nat, data: bool)
    requires q < |x| && MessageLeads(x, 0, START, data, q) && ColonEnds(x, q) && ColonEnds(y, q) && x[..q + 1] == y[..q + 1]
    requires SameActs(ReadStatement(x, q + 1), ReadStatement(y, q + 1))
    ensures TemplateOf(x, data) == TemplateOf(y, data)
  {
    TwinMessages(x, y, q, 0, START, data);
    RunSame(ReadMessage(x, 0, START, data), ReadMessage(y, 0, START, data), EMPTY);
  }
}
