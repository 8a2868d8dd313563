/**
 * What reading a message sees of the text before a position: one byte, and nothing before it. What
 * stands in front of that byte may be taken away.
 */
module MessageSuffixes {
  import opened Bytes
  import opened Tokenizer
  import opened Rules
  import opened Masking
  import opened Suffixes
  import opened Steps

  /** r is s without its first o bytes. */
  predicate Tails(s: bytes, r: bytes, o: nat) { o < |s| && r == s[o..] }

  lemma SameHere(s: bytes, r: bytes, o: nat, i: int, c: byte, k: Class)
    requires Tails(s, r, o) && 0 <= i
    ensures At(s, o + i, c) == At(r, i, c) && ClassAt(s, o + i, k) == ClassAt(r, i, k)
  {
  }

  // ----- Tokens -----

  lemma SignShift(s: bytes, r: bytes, o: nat, i: nat)
    requires Tails(s, r, o) && 0 < i < |r|
    ensures SignAllowed(s, o + i, false) == SignAllowed(r, i, false)
  {
    SameHere(s, r, o, i - 1, 0, Blank);
    assert s[o + i - 1] == r[i - 1];
  }

  lemma NumberStartShift(s: bytes, r: bytes, o: nat, i: nat)
    requires Tails(s, r, o) && 0 < i < |r|
    ensures StartsNumber(s, o + i, false) == StartsNumber(r, i, false)
  {
    assert s[o + i] == r[i];
    SignShift(s, r, o, i);
    SameHere(s, r, o, i + 1, DOT, Digit);
    SameHere(s, r, o, i + 2, DOT, Digit);
    SameHere(s, r, o, i - 1, DOT, WordByte);
  }

  lemma QuotedTokenShift(s: bytes, r: bytes, o: nat, i: nat)
    requires Tails(s, r, o) && 0 < i < |r| && (r[i] == QUOTE || r[i] == APOSTROPHE)
    ensures TokenAt(s, o + i, false) == Moved(TokenAt(r, i, false), o)
  {
    assert s[o + i] == r[i];
    SameHere(s, r, o, i - 1, 0, WordByte);
    QuotedShift(s, o, i + 1, r[i], false);
  }

  lemma NumberTokenShift(s: bytes, r: bytes, o: nat, i: nat)
    requires Tails(s, r, o) && 0 < i < |r| && StartsNumber(s, o + i, false) && StartsNumber(r, i, false)
    ensures TokenAt(s, o + i, false) == Moved(TokenAt(r, i, false), o)
  {
    assert s[o + i] == r[i];
    NumericShift(s, o, i, false);
    NumberIsToken(s, o + i);
    NumberIsToken(r, i);
  }

  lemma NumberIsToken(s: bytes, i: nat)
    requires i < |s| && StartsNumber(s, i, false)
    ensures TokenAt(s, i, false) == NumericToken(s, i, false)
  {
  }

  /** A byte that starts neither white space, nor a quoted token, nor a number. */
  predicate IsOther(s: bytes, i: nat)
    requires i < |s|
  {
    !IsBlank(s[i]) && s[i] != QUOTE && s[i] != APOSTROPHE && s[i] != DOLLAR && !StartsNumber(s, i, false)
  }

  lemma OtherToken(s: bytes, i: nat)
    requires i < |s| && IsOther(s, i)
    ensures TokenAt(s, i, false) ==
      if s[i] == 0xC2 && (At(s, i + 1, 0xBB) || At(s, i + 1, 0xAB)) then
        Token(Ident, GuillemetEnd(s, i + 2, if s[i + 1] == 0xAB then 0xBB else 0xAB))
      else if IsWordByte(s[i]) then WordToken(s, i, false)
      else Token(Punct, i + 1)
  {
  }

  lemma OtherShift(s: bytes, r: bytes, o: nat, i: nat)
    requires Tails(s, r, o) && 0 < i < |r| && IsOther(s, o + i) && IsOther(r, i)
    ensures TokenAt(s, o + i, false) == Moved(TokenAt(r, i, false), o)
  {
    assert s[o + i] == r[i];
    OtherToken(s, o + i);
    OtherToken(r, i);
    SameHere(s, r, o, i + 1, 0xBB, Blank);
    SameHere(s, r, o, i + 1, 0xAB, Blank);
    if s[o + i] == 0xC2 && (At(r, i + 1, 0xBB) || At(r, i + 1, 0xAB)) {
      assert s[o + i + 1] == r[i + 1];
      GuillemetShift(s, o, i + 2, if r[i + 1] == 0xAB then 0xBB else 0xAB);
    } else if IsWordByte(s[o + i]) {
      WordTokenShift(s, o, i, false);
    }
  }

  lemma TokenShift(s: bytes, r: bytes, o: nat, i: nat)
    requires Tails(s, r, o) && 0 < i < |r|
    ensures TokenAt(s, o + i, false) == Moved(TokenAt(r, i, false), o)
  {
    assert s[o + i] == r[i];
    NumberStartShift(s, r, o, i);
    if IsBlank(r[i]) {
      RunShift(s, o, i + 1, Blank);
    } else if r[i] == QUOTE || r[i] == APOSTROPHE {
      QuotedTokenShift(s, r, o, i);
    } else if r[i] == DOLLAR {
      DollarShift(s, o, i);
    } else if StartsNumber(r, i, false) {
      NumberTokenShift(s, r, o, i);
    } else {
      OtherShift(s, r, o, i);
    }
  }

  // ----- Paths -----

  lemma PathEndShift(s: bytes, r: bytes, o: nat, i: nat)
    requires Tails(s, r, o) && i <= |r|
    ensures PathEnd(s, o + i) == o + PathEnd(r, i)
    decreases |r| - i
  {
    if i < |r| {
      assert s[o + i] == r[i] && (i + 1 < |r| ==> s[o + i + 1] == r[i + 1]);
      PathEndShift(s, r, o, i + 1);
    }
  }

  lemma PathPrefixShift(s: bytes, r: bytes, o: nat, i: nat)
    requires Tails(s, r, o) && i <= |r|
    ensures PathPrefix(s, o + i) == PathPrefix(r, i)
  {
    RunShift(s, o, i, WordByte);
    var j := RunEnd(r, i, WordByte);
    assert s[o + i..o + j] == r[i..j];
    if j > i + 3 {
      assert s[o + i..o + i + 3] == r[i..i + 3];
    }
  }

  lemma PathShift(s: bytes, r: bytes, o: nat, i: nat)
    requires Tails(s, r, o) && 0 < i <= |r|
    ensures PathAt(s, o + i) == if PathAt(r, i) == 0 then 0 else o + PathAt(r, i)
  {
    assert s[o + i - 1] == r[i - 1];
    PathPrefixShift(s, r, o, i);
    PathEndShift(s, r, o, i);
  }

  // ----- Values and markers -----

  /** How a value goes on behind its token t. */
  lemma ValueStep(s: bytes, pos: nat, t: Token)
    requires pos < |s| && t == TokenAt(s, pos, false)
    ensures ValueEnd(s, pos) == if t.kind == Space || (t.kind == Punct && EndsValue(s[pos])) then pos else ValueEnd(s, t.end)
  {
  }

  lemma {:induction false} ValueShift(s: bytes, r: bytes, o: nat, i: nat, k: nat)
    requires Tails(s, r, o) && 0 < i <= |r| && k == o + i
    ensures ValueEnd(s, k) == o + ValueEnd(r, i)
    decreases |r| - i, 1
  {
    if i < |r| {
      TokenShift(s, r, o, i);
      assert s[k] == r[i];
      ValueBehind(s, r, o, i, k, TokenAt(r, i, false), TokenAt(s, k, false));
    }
  }

  lemma {:induction false} ValueBehind(s: bytes, r: bytes, o: nat, i: nat, k: nat, t: Token, u: Token)
    requires Tails(s, r, o) && 0 < i < t.end <= |r| && k == o + i && s[k] == r[i] && u == Moved(t, o)
    requires t == TokenAt(r, i, false) && u == TokenAt(s, k, false)
    ensures ValueEnd(s, k) == o + ValueEnd(r, i)
    decreases |r| - i, 0
  {
    ValueStep(r, i, t);
    ValueStep(s, k, u);
    ValueShift(s, r, o, t.end, u.end);
  }

  lemma ColonShift(s: bytes, r: bytes, o: nat, i: nat)
    requires Tails(s, r, o)
    ensures ColonEnds(s, o + i) == ColonEnds(r, i)
  {
  }

  lemma MatchRestShift(s: bytes, r: bytes, o: nat, i: nat, m: bytes)
    requires Tails(s, r, o) && 0 < i <= |r|
    ensures MatchRest(s, o + i, m) == if MatchRest(r, i, m) == 0 then 0 else o + MatchRest(r, i, m)
    decreases |m|
  {
    if m != [] && i < |r| {
      assert s[o + i] == r[i];
      if m[0] == SPACE {
        RunShift(s, o, i, Blank);
        if IsBlank(r[i]) {
          MatchRestShift(s, r, o, RunEnd(r, i, Blank), m[1..]);
        }
      } else if r[i] == m[0] {
        MatchRestShift(s, r, o, i + 1, m[1..]);
      }
    }
  }

  lemma MatchShift(s: bytes, r: bytes, o: nat, i: nat, m: bytes)
    requires Tails(s, r, o) && 0 < i <= |r| && m != []
    ensures MatchWords(s, o + i, m) == if MatchWords(r, i, m) == 0 then 0 else o + MatchWords(r, i, m)
  {
    if i < |r| {
      assert s[o + i] == r[i];
      if m[0] == SPACE {
        RunShift(s, o, i, Blank);
        if IsBlank(r[i]) {
          MatchRestShift(s, r, o, RunEnd(r, i, Blank), m[1..]);
        }
      } else if r[i] == m[0] {
        MatchRestShift(s, r, o, i + 1, m[1..]);
      }
    }
  }

  lemma NameEndShift(s: bytes, r: bytes, o: nat, i: nat)
    requires Tails(s, r, o) && i <= |r|
    ensures NameEnd(s, o + i) == o + NameEnd(r, i)
    decreases |r| - i
  {
    if i < |r| {
      assert s[o + i] == r[i];
      NameEndShift(s, r, o, i + 1);
    }
  }

  /** A marker o bytes further on. */
  function MovedMarker(m: Marker, o: nat): Marker {
    if m.Marker? then Marker(m.words, o + m.head, o + m.colon) else NoMarker
  }

  lemma PlainMarkerShift(s: bytes, r: bytes, o: nat, i: nat, m: bytes)
    requires Tails(s, r, o) && 0 < i <= |r| && m != []
    ensures PlainMarker(s, o + i, m) == MovedMarker(PlainMarker(r, i, m), o)
  {
    MatchShift(s, r, o, i, m);
    ColonShift(s, r, o, MatchWords(r, i, m));
  }

  /** The marker with the words w that end at head, and the name behind them, if that is one. */
  function NamedAt(s: bytes, w: bytes, head: nat): Marker
    requires head <= |s|
  {
    var j := NameEnd(s, head);
    if j == head || !ColonEnds(s, j) then NoMarker else Marker(w, head, j)
  }

  /** The first of the words that s has at i, with the name behind them. */
  function NamedIn(s: bytes, i: nat, words: seq<bytes>): Marker
    requires i <= |s|
  {
    if words == [] then NoMarker
    else
      var head := MatchWords(s, i, words[0]);
      if head == 0 then NamedIn(s, i, words[1..]) else NamedAt(s, words[0], head)
  }

  function WordsFrom(k: nat): seq<bytes>
    decreases 4 - k
  {
    if k >= 4 then [] else [NamedWords(k)] + WordsFrom(k + 1)
  }

  lemma NamedOneOf(s: bytes, i: nat, w: bytes, words: seq<bytes>)
    requires i <= |s|
    ensures NamedIn(s, i, [w] + words) ==
      if MatchWords(s, i, w) == 0 then NamedIn(s, i, words) else NamedAt(s, w, MatchWords(s, i, w))
  {
    assert ([w] + words)[1..] == words;
  }

  lemma {:induction false} NamedIsIn(s: bytes, i: nat, k: nat)
    requires i <= |s|
    ensures NamedMarker(s, i, k) == NamedIn(s, i, WordsFrom(k))
    decreases 4 - k
  {
    if k < 4 {
      NamedIsIn(s, i, k + 1);
      NamedOneOf(s, i, NamedWords(k), WordsFrom(k + 1));
    }
  }

  predicate AreSome(words: seq<bytes>) { words == [] || (words[0] != [] && AreSome(words[1..])) }

  lemma {:induction false} WordsAreSome(k: nat)
    ensures AreSome(WordsFrom(k))
    decreases 4 - k
  {
    if k < 4 {
      WordsAreSome(k + 1);
      assert WordsFrom(k)[1..] == WordsFrom(k + 1);
    }
  }

  lemma NamedAtShift(s: bytes, r: bytes, o: nat, w: bytes, head: nat)
    requires Tails(s, r, o) && head <= |r|
    ensures NamedAt(s, w, o + head) == MovedMarker(NamedAt(r, w, head), o)
  {
    NameEndShift(s, r, o, head);
    ColonShift(s, r, o, NameEnd(r, head));
  }

  lemma {:induction false} NamedInShift(s: bytes, r: bytes, o: nat, i: nat, words: seq<bytes>)
    requires Tails(s, r, o) && 0 < i <= |r| && AreSome(words)
    ensures NamedIn(s, o + i, words) == MovedMarker(NamedIn(r, i, words), o)
  {
    if words != [] {
      MatchShift(s, r, o, i, words[0]);
      var head := MatchWords(r, i, words[0]);
      if head == 0 {
        NamedInShift(s, r, o, i, words[1..]);
      } else {
        NamedAtShift(s, r, o, words[0], head);
      }
    }
  }

  lemma MovedAlike(m: Marker, n: Marker, x: Marker, y: Marker, o: nat)
    requires m == x && n == y && x == MovedMarker(y, o)
    ensures m == MovedMarker(n, o)
  {
  }

  lemma BothAreIn(s: bytes, p: nat, r: bytes, i: nat, k: nat, words: seq<bytes>)
    requires p <= |s| && i <= |r| && words == WordsFrom(k)
    ensures NamedMarker(s, p, k) == NamedIn(s, p, words) && NamedMarker(r, i, k) == NamedIn(r, i, words)
  {
    NamedIsIn(s, p, k);
    NamedIsIn(r, i, k);
  }

  lemma NamedMarkerShift(s: bytes, r: bytes, o: nat, i: nat, p: nat, k: nat, words: seq<bytes>)
    requires Tails(s, r, o) && 0 < i <= |r| && p == o + i && words == WordsFrom(k) && AreSome(words)
    ensures NamedMarker(s, p, k) == MovedMarker(NamedMarker(r, i, k), o)
  {
    BothAreIn(s, p, r, i, k, words);
    NamedInShift(s, r, o, i, words);
    MovedAlike(NamedMarker(s, p, k), NamedMarker(r, i, k), NamedIn(s, p, words), NamedIn(r, i, words), o);
  }

  /** The first of three that is one. */
  function FirstOf(a: Marker, b: Marker, c: Marker): Marker { if a.Marker? then a else if b.Marker? then b else c }

  lemma MarkerIsFirst(s: bytes, i: nat, m: bytes, n: bytes, k: nat)
    requires i <= |s| && m == Ascii("statement") && n == Ascii("fastpath function call") && k == 0
    ensures m != [] && n != [] && MarkerAt(s, i) == FirstOf(PlainMarker(s, i, m), PlainMarker(s, i, n), NamedMarker(s, i, k))
  {
  }

  lemma PartsShift(s: bytes, r: bytes, o: nat, i: nat, p: nat, m: bytes, n: bytes, k: nat, words: seq<bytes>)
    requires Tails(s, r, o) && 0 < i <= |r| && p == o + i && m != [] && n != [] && words == WordsFrom(k) && AreSome(words)
    ensures FirstOf(PlainMarker(s, p, m), PlainMarker(s, p, n), NamedMarker(s, p, k)) ==
      MovedMarker(FirstOf(PlainMarker(r, i, m), PlainMarker(r, i, n), NamedMarker(r, i, k)), o)
  {
    PlainMarkerShift(s, r, o, i, m);
    PlainMarkerShift(s, r, o, i, n);
    NamedMarkerShift(s, r, o, i, p, k, words);
  }

  lemma MarkerShift(s: bytes, r: bytes, o: nat, i: nat, p: nat, m: bytes, n: bytes, k: nat)
    requires Tails(s, r, o) && 0 < i <= |r| && p == o + i
    requires m == Ascii("statement") && n == Ascii("fastpath function call") && k == 0
    ensures MarkerAt(s, p) == MovedMarker(MarkerAt(r, i), o)
  {
    MarkerIsFirst(s, p, m, n, k);
    MarkerIsFirst(r, i, m, n, k);
    WordsAreSome(k);
    PartsShift(s, r, o, i, p, m, n, k, WordsFrom(k));
  }

  // ----- Reading -----

  lemma StatementShift(s: bytes, r: bytes, o: nat, i: nat)
    requires Tails(s, r, o) && 0 < i <= |r| && r[i - 1] == COLON
    ensures ReadStatement(s, o + i) == ReadStatement(r, i)
  {
    var k := o + i;
    assert s[k - 1] == r[i - 1];
    LookBehindToken(s, k - 1, k, 1);
    LookBehindToken(r, i - 1, i, 1);
    assert s[k - 1..] == r[i - 1..] && s[k..] == r[i..];
    SameStatements(s, k, r, i);
  }

  /** A step o bytes further on. */
  function MovedStep(m: Move, o: nat): Move {
    match m
    case Moves(act, next, ctx) => Moves(act, o + next, ctx)
    case IntoStatement(words, named, start) => IntoStatement(words, named, o + start)
    case _ => m
  }

  lemma SliceShift(s: bytes, r: bytes, o: nat, i: nat, e: nat)
    requires Tails(s, r, o) && i <= e <= |r|
    ensures s[o + i..o + e] == r[i..e]
  {
  }

  lemma PlainStepShift(s: bytes, r: bytes, o: nat, i: nat, c: Context, data: bool, t: Token, u: Token)
    requires Tails(s, r, o) && 0 < i < t.end <= |r| && u == Moved(t, o)
    ensures PlainStep(s, o + i, c, data, u) == MovedStep(PlainStep(r, i, c, data, t), o)
  {
    SliceShift(s, r, o, i, t.end);
    ValueShift(s, r, o, t.end, u.end);
    assert s[o + i] == r[i];
  }

  lemma PlanShift(s: bytes, r: bytes, o: nat, i: nat, c: Context, t: Token, u: Token)
    requires Tails(s, r, o) && 0 < i < t.end <= |r| && u == Moved(t, o)
    ensures IsPlanAt(s, o + i, c, u) == IsPlanAt(r, i, c, t)
  {
    ColonShift(s, r, o, t.end);
    SliceShift(s, r, o, i, t.end);
  }

  lemma TokenStepShift(s: bytes, r: bytes, o: nat, i: nat, c: Context, data: bool, t: Token, u: Token, m: Marker, n: Marker)
    requires Tails(s, r, o) && 0 < i < t.end <= |r| && u == Moved(t, o)
    requires n == MovedMarker(m, o) && FoundIn(r, i, m)
    ensures TokenStep(s, o + i, c, data, u, n) == MovedStep(TokenStep(r, i, c, data, t, m), o)
  {
    PlanShift(s, r, o, i, c, t, u);
    PlainStepShift(s, r, o, i, c, data, t, u);
  }

  lemma StepShift(s: bytes, r: bytes, o: nat, i: nat, p: nat, c: Context, data: bool)
    requires Tails(s, r, o) && 0 < i <= |r| && p == o + i
    ensures StepAt(s, p, c, data) == MovedStep(StepAt(r, i, c, data), o)
  {
    PathShift(s, r, o, i);
    if PathAt(r, i) == 0 && i < |r| {
      TokenShift(s, r, o, i);
      MarkerShift(s, r, o, i, p, Ascii("statement"), Ascii("fastpath function call"), 0);
      TokenStepShift(s, r, o, i, c, data, TokenAt(r, i, false), TokenAt(s, p, false), MarkerAt(r, i), MarkerAt(s, p));
    }
  }

  /** Two places read alike when the steps from them, which lead as far on, lead to places that do. */
  lemma NextSteps(s: bytes, r: bytes, o: nat, i: nat, p: nat, c: Context, data: bool) returns (m: Move, n: Move)
    requires Tails(s, r, o) && 0 < i <= |r| && p == o + i
    ensures m == MovedStep(n, o) && LeadsAlike(s, p, m, r, i, n, c, data)
  {
    m, n := StepAt(s, p, c, data), StepAt(r, i, c, data);
    StepShift(s, r, o, i, p, c, data);
    SameStepsAlike(s, p, m, r, i, n, c, data);
  }

  lemma {:induction false} MessageShift(s: bytes, r: bytes, o: nat, i: nat, p: nat, c: Context, data: bool)
    requires Tails(s, r, o) && 0 < i <= |r| && p == o + i
    ensures ReadAlike(s, p, r, i, c, data)
    decreases |r| - i, 1
  {
    var m, n := NextSteps(s, r, o, i, p, c, data);
    RestShift(s, r, o, i, p, c, data, m, n);
  }

  lemma {:induction false} RestShift(s: bytes, r: bytes, o: nat, i: nat, p: nat, c: Context, data: bool, m: Move, n: Move)
    requires Tails(s, r, o) && 0 < i <= |r| && p <= |s| && m == MovedStep(n, o) && LeadsAlike(s, p, m, r, i, n, c, data)
    ensures ReadAlike(s, p, r, i, c, data)
    decreases |r| - i, 0
  {
    if n.Moves? {
      MessageShift(s, r, o, n.next, m.next, n.ctx, data);
    } else if n.IntoStatement? {
      StatementShift(s, r, o, n.start);
    }
  }

  /** Behind the same byte the same rest reads the same. */
  lemma SameMessages(x: bytes, i: nat, y: bytes, j: nat, c: Context, data: bool)
    requires 0 < i <= |x| && 0 < j <= |y| && x[i - 1] == y[j - 1] && x[i..] == y[j..]
    ensures ReadAlike(x, i, y, j, c, data)
  {
    var r := x[i - 1..];
    assert r == [x[i - 1]] + x[i..] == y[j - 1..];
    MessageShift(x, r, i - 1, 1, i, c, data);
    MessageShift(y, r, j - 1, 1, j, c, data);
  }
}
