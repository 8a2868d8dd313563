/** The words that a statement stands behind, spelled, and the template of a plain statement behind them. */
module MarkerTexts {
  import opened Bytes
  import opened Tokenizer
  import opened Rules
  import opened Masking
  import opened ListGrammar
  import opened Templates
  import opened PlainMessages
  import opened PlainStatements
  import opened Steps
  import opened Words
  import opened Quoting
  import Numbers
  import Verbatim

  // ----- Words at a place -----

  /** No two spaces in a row. */
  predicate IsSpacedOnce(m: bytes) { forall k | 0 <= k && k + 1 < |m| && m[k] == SPACE :: !IsBlank(m[k + 1]) }

  lemma {:induction false} ExactRest(s: bytes, i: nat, m: bytes, e: nat)
    requires 0 < i && e == i + |m| <= |s| && s[i..e] == m && IsSpacedOnce(m)
    requires m != [] && m[|m| - 1] == SPACE ==> e < |s| && !IsBlank(s[e])
    ensures MatchRest(s, i, m) == e
    decreases |m|
  {
    if m != [] {
      assert s[i] == s[i..e][0] == m[0];
      assert s[i + 1..e] == s[i..e][1..] == m[1..];
      if |m| > 1 {
        assert s[i + 1] == s[i..e][1] == m[1];
      }
      assert m[0] == SPACE ==> RunEnd(s, i, Blank) == i + 1;
      ExactRest(s, i + 1, m[1..], e);
    }
  }

  lemma ExactMatch(s: bytes, m: bytes, e: nat)
    requires m != [] && m[0] != SPACE && e == |m| <= |s| && s[..e] == m && IsSpacedOnce(m)
    requires m[|m| - 1] == SPACE ==> e < |s| && !IsBlank(s[e])
    ensures MatchWords(s, 0, m) == e
  {
    assert s[0] == s[..e][0] && s[1..e] == s[..e][1..];
    ExactRest(s, 1, m[1..], e);
  }

  /** Words with a space do not fit before a ':' with no white space before it. */
  lemma {:induction false} NoRest(s: bytes, i: nat, m: bytes, q: nat)
    requires 0 < i <= q && At(s, q, COLON) && (forall k | i <= k < q :: !IsBlank(s[k])) && COLON !in m && SPACE in m
    ensures MatchRest(s, i, m) == 0
    decreases |m|
  {
    assert m[0] in m;
    if m[0] != SPACE && s[i] == m[0] {
      assert SPACE in m[1..];
      assert forall c <- m[1..] :: c in m;
      NoRest(s, i + 1, m[1..], q);
    }
  }

  lemma NameStops(s: bytes, i: nat, q: nat)
    requires i <= q && At(s, q, COLON) && forall k | i <= k < q :: !IsBlank(s[k]) && s[k] != COLON
    ensures NameEnd(s, i) == q
    decreases q - i
  {
    if i < q {
      NameStops(s, i + 1, q);
    }
  }

  // ----- The six markers -----

  const STATEMENT := "statement"
  const FASTPATH := "fastpath function call"
  const FETCH := "execute fetch from "
  const EXECUTE := "execute "
  const PARSE := "parse "
  const BIND := "bind "

  /** The message starts with the words and a ':' at q, behind which comes white space or nothing. */
  ghost predicate StartsPlain(s: bytes, words: string, q: nat) {
    ColonEnds(s, q) && q == |words| && s[..q] == Ascii(words)
  }

  /** The message starts with the words, a name without white space, and a ':' at q. */
  ghost predicate StartsNamed(s: bytes, words: string, head: nat, q: nat) {
    && ColonEnds(s, q) && head == |words| < q && s[..head] == Ascii(words)
    && forall k | head <= k < q :: !IsBlank(s[k]) && s[k] != COLON
  }

  lemma Letters()
    ensures Ascii(STATEMENT)[0] == 115 && Ascii(FASTPATH)[0] == 102 && Ascii(FETCH)[0] == 101
    ensures Ascii(EXECUTE)[0] == 101 && Ascii(PARSE)[0] == 112 && Ascii(BIND)[0] == 98
    ensures NamedWords(0) == Ascii(FETCH) && NamedWords(1) == Ascii(EXECUTE) && NamedWords(2) == Ascii(PARSE) && NamedWords(3) == Ascii(BIND)
  {
  }

  lemma PlainAreSpacedOnce()
    ensures IsSpacedOnce(Ascii(STATEMENT)) && IsSpacedOnce(Ascii(FASTPATH))
  {
  }

  lemma FetchIsSpacedOnce()
    ensures IsSpacedOnce(Ascii(FETCH))
  {
  }

  lemma NamedAreSpacedOnce()
    ensures IsSpacedOnce(Ascii(EXECUTE)) && IsSpacedOnce(Ascii(PARSE)) && IsSpacedOnce(Ascii(BIND))
  {
  }

  lemma PlainEnds()
    ensures Ascii(STATEMENT)[|STATEMENT| - 1] == 116 && Ascii(FASTPATH)[|FASTPATH| - 1] == 108
  {
  }

  /** The words without a name are found. */
  lemma PlainIsFound(s: bytes, words: string, q: nat)
    requires (words == STATEMENT || words == FASTPATH) && StartsPlain(s, words, q)
    ensures MarkerAt(s, 0) == Marker(Ascii(words), q, q)
  {
    Letters();
    PlainAreSpacedOnce();
    PlainEnds();
    ExactMatch(s, Ascii(words), q);
    assert s[0] == s[..q][0];
    if words == FASTPATH {
      NoMatch(s, 0, Ascii(STATEMENT));
    }
  }

  lemma NamedEnds(words: string)
    requires words == FETCH || words == EXECUTE || words == PARSE || words == BIND
    ensures |Ascii(words)| > 0 && Ascii(words)[|words| - 1] == SPACE && Ascii(words)[0] in {101, 112, 98} && IsSpacedOnce(Ascii(words))
  {
    FetchIsSpacedOnce();
    NamedAreSpacedOnce();
    Letters();
  }

  /** The number of the words in the order they are tried. */
  function Place(words: string): nat { if words == FETCH then 0 else if words == EXECUTE then 1 else if words == PARSE then 2 else 3 }

  lemma FoundAt(s: bytes, k: nat, w: bytes, head: nat, q: nat)
    requires k < 4 && w == NamedWords(k) && head == MatchWords(s, 0, w) && 0 < head < q && NameEnd(s, head) == q && ColonEnds(s, q)
    ensures NamedMarker(s, 0, k) == Marker(w, head, q)
  {
  }

  lemma NotAt(s: bytes, k: nat, w: bytes)
    requires k < 4 && w == NamedWords(k) && MatchWords(s, 0, w) == 0
    ensures NamedMarker(s, 0, k) == NamedMarker(s, 0, k + 1)
  {
  }

  lemma FetchParts()
    ensures var w := Ascii(FETCH); |w| == 19 && w[..8] == Ascii(EXECUTE) && COLON !in w && w[7] == SPACE && w[16..] == [111, 109, 32]
  {
  }

  /** "execute name:" is no "execute fetch from name:". */
  lemma NoFetch(s: bytes, q: nat)
    requires StartsNamed(s, EXECUTE, 8, q)
    ensures MatchWords(s, 0, Ascii(FETCH)) == 0
  {
    var w := Ascii(FETCH);
    FetchParts();
    forall k | 0 <= k < 8
      ensures s[k] == w[k]
    {
      assert s[k] == s[..8][k] == w[..8][k];
    }
    assert RunEnd(s, 7, Blank) == 8;
    FetchFails(s, 1, w[1..], q);
  }

  /** The words from i on run up to the name, and no further. */
  lemma {:induction false} FetchFails(s: bytes, i: nat, m: bytes, q: nat)
    requires 1 <= i <= 8 < q && At(s, q, COLON) && m == Ascii(FETCH)[i..] && (forall k | i <= k < 8 :: s[k] == Ascii(FETCH)[k])
    requires (forall k | 8 <= k < q :: !IsBlank(s[k])) && RunEnd(s, 7, Blank) == 8
    ensures MatchRest(s, i, m) == 0
    decreases 8 - i
  {
    FetchParts();
    FetchIsLetters(i);
    if i == 8 {
      assert m[10] == SPACE;
      NoRest(s, 8, m, q);
    } else {
      assert m[1..] == Ascii(FETCH)[i + 1..] && m[0] == s[i];
      FetchFails(s, i + 1, m[1..], q);
    }
  }

  lemma FetchIsLetters(i: nat)
    requires i <= 8
    ensures i < 7 ==> Ascii(FETCH)[i] != SPACE
    ensures |Ascii(FETCH)[i..]| == 19 - i && Ascii(FETCH)[18] == SPACE && COLON !in Ascii(FETCH)[i..]
  {
    FetchParts();
    assert forall c <- Ascii(FETCH)[i..] :: c in Ascii(FETCH);
  }

  /** The words with a name are found, the first that fit. */
  lemma NamedIsFound(s: bytes, words: string, head: nat, q: nat)
    requires (words == FETCH || words == EXECUTE || words == PARSE || words == BIND) && StartsNamed(s, words, head, q)
    ensures NamedMarker(s, 0, 0) == Marker(Ascii(words), head, q)
  {
    NamedEnds(words);
    ExactMatch(s, Ascii(words), head);
    NameStops(s, head, q);
    assert s[0] == s[..head][0];
    Letters();
    FoundAt(s, Place(words), Ascii(words), head, q);
    NotBefore(s, words, head, q);
  }

  lemma NotBefore(s: bytes, words: string, head: nat, q: nat)
    requires (words == FETCH || words == EXECUTE || words == PARSE || words == BIND) && StartsNamed(s, words, head, q)
    ensures NamedMarker(s, 0, 0) == NamedMarker(s, 0, Place(words))
  {
    Letters();
    assert s[0] == s[..head][0];
    if words != FETCH {
      if words == EXECUTE {
        NoFetch(s, q);
      } else {
        NoMatch(s, 0, NamedWords(0));
        NoMatch(s, 0, NamedWords(1));
        NotAt(s, 1, NamedWords(1));
        if words == BIND {
          NoMatch(s, 0, NamedWords(2));
          NotAt(s, 2, NamedWords(2));
        }
      }
      NotAt(s, 0, NamedWords(0));
    }
  }

  lemma NamedMarkerIsFound(s: bytes, words: string, head: nat, q: nat)
    requires (words == FETCH || words == EXECUTE || words == PARSE || words == BIND) && StartsNamed(s, words, head, q)
    ensures MarkerAt(s, 0) == Marker(Ascii(words), head, q)
  {
    NamedIsFound(s, words, head, q);
    NamedEnds(words);
    Letters();
    assert s[0] == s[..head][0] == Ascii(words)[0];
    NoMatch(s, 0, Ascii(STATEMENT));
    NoMatch(s, 0, Ascii(FASTPATH));
  }

  // ----- Reading -----

  lemma MarkedStep(s: bytes, p: nat, c: Context, k: nat, m: Marker, data: bool)
    requires p < k <= |s| && m.Marker? && FoundIn(s, p, m) && c.marker && c.first
    ensures TokenStep(s, p, c, data, Token(Word, k), m) == IntoStatement(m.words, m.head < m.colon, m.colon + 1)
  {
  }

  lemma FirstStep(s: bytes, p: nat, c: Context, k: nat, m: Marker, data: bool)
    requires p < k <= |s| && PathAt(s, p) == 0 && TokenAt(s, p, false) == Token(Word, k) && m == MarkerAt(s, p) && m.Marker?
    requires c.marker && c.first
    ensures StepAt(s, p, c, data) == IntoStatement(m.words, m.head < m.colon, m.colon + 1)
  {
    MarkedStep(s, p, c, k, m, data);
  }

  /** The first word of a marker, as a token. */
  lemma FirstWord(s: bytes, p: nat, c: Context, k: nat, m: Marker, data: bool)
    requires IsLetterWord(s, p, k) && MarkerAt(s, p) == m && m.Marker? && c.marker && c.first
    ensures StepAt(s, p, c, data) == IntoStatement(m.words, m.head < m.colon, m.colon + 1)
  {
    LettersNoPath(s, p, k);
    LettersToken(s, p, k);
    FirstStep(s, p, c, k, m, data);
  }

  lemma PlainFirstWord(s: bytes, words: string, q: nat) returns (k: nat)
    requires (words == STATEMENT || words == FASTPATH) && StartsPlain(s, words, q)
    ensures IsLetterWord(s, 0, k)
  {
    k := if words == STATEMENT then 9 else 8;
    forall i | 0 <= i < k
      ensures IsLetter(s[i])
    {
      assert s[i] == s[..q][i] == words[i] as int;
    }
    if words == FASTPATH {
      assert s[8] == s[..q][8] == 32;
    }
  }

  lemma NamedFirstWord(s: bytes, words: string, head: nat, q: nat) returns (k: nat)
    requires (words == FETCH || words == EXECUTE || words == PARSE || words == BIND) && StartsNamed(s, words, head, q)
    ensures IsLetterWord(s, 0, k)
  {
    k := if words == FETCH || words == EXECUTE then 7 else if words == PARSE then 5 else 4;
    forall i | 0 <= i < k
      ensures IsLetter(s[i])
    {
      assert s[i] == s[..head][i] == words[i] as int;
    }
    assert s[k] == s[..head][k] == 32;
  }

  /** What is written of a marker. */
  function Lead(words: bytes, named: bool): bytes { if named then words + [36, 49] + [58] else words + [58] }

  lemma MarkIsSpelled(words: bytes, named: bool, r: Script)
    ensures Spell([], Then(Mark(words, named), r), false, 0, false) == Spell(Lead(words, named), r, false, if named then 1 else 0, true)
  {
    assert Placeholder(1) == [36, 49];
    assert [] + words == words;
  }

  lemma UncutIsSpelled(s: bytes, data: bool, r: Script)
    requires IsUncut(TemplateOf(s, data)) && r == ReadMessage(s, 0, START, data)
    ensures TemplateOf(s, data) == Spell([], r, false, 0, false)
  {
    Verbatim.UncutIsDraft(s, data);
    TemplateMeaning(s, data);
  }

  lemma FirstReads(s: bytes, p: nat, c: Context, k: nat, m: Marker, data: bool)
    requires IsLetterWord(s, p, k) && MarkerAt(s, p) == m && m.Marker? && c.marker && c.first
    ensures ReadMessage(s, p, c, data) == Then(Mark(m.words, m.head < m.colon), ReadStatement(s, m.colon + 1))
  {
    FirstWord(s, p, c, k, m, data);
    StatementReads(s, p, c, data, m.words, m.head < m.colon, m.colon + 1);
  }

  lemma SpelledFrom(s: bytes, k: nat, m: Marker, data: bool, t: bytes)
    requires IsLetterWord(s, 0, k) && m == MarkerAt(s, 0) && m.Marker? && t == TemplateOf(s, data) && IsUncut(t)
    ensures t == Spell([], Then(Mark(m.words, m.head < m.colon), ReadStatement(s, m.colon + 1)), false, 0, false)
  {
    FirstReads(s, 0, START, k, m, data);
    UncutIsSpelled(s, data, Then(Mark(m.words, m.head < m.colon), ReadStatement(s, m.colon + 1)));
  }

  lemma NamedSpelled(s: bytes, k: nat, words: bytes, head: nat, q: nat, data: bool, t: bytes)
    requires IsLetterWord(s, 0, k) && MarkerAt(s, 0) == Marker(words, head, q) && head < q && t == TemplateOf(s, data) && IsUncut(t)
    ensures q + 1 <= |s| && t == Spell([], Then(Mark(words, true), ReadStatement(s, q + 1)), false, 0, false)
  {
    SpelledFrom(s, k, Marker(words, head, q), data, t);
  }

  lemma SpelledBehind(s: bytes, words: bytes, named: bool, i: nat, lead: bytes, n: nat)
    requires i <= |s| && IsPlain(s, i) && lead == Lead(words, named) && n == if named then 1 else 0
    ensures Spell([], Then(Mark(words, named), ReadStatement(s, i)), false, 0, false) == lead + Sql(s, i, false, n)
  {
    MarkIsSpelled(words, named, ReadStatement(s, i));
    PlainSql(lead, s, i, false, n);
  }

  /** Behind "statement:" and "fastpath function call:" the rest is a statement. */
  lemma StatementTemplate(s: bytes, words: string, q: nat, data: bool)
    requires words == "statement" || words == "fastpath function call"
    requires StartsPlain(s, words, q) && IsPlain(s, q + 1) && IsUncut(TemplateOf(s, data))
    ensures TemplateOf(s, data) == Ascii(words) + [58] + Sql(s, q + 1, false, 0)
  {
    PlainIsFound(s, words, q);
    var k := PlainFirstWord(s, words, q);
    SpelledFrom(s, k, MarkerAt(s, 0), data, TemplateOf(s, data));
    SpelledBehind(s, Ascii(words), false, q + 1, Lead(Ascii(words), false), 0);
  }

  /** So it is behind the four markers with a name, which becomes the first placeholder. */
  lemma NamedTemplate(s: bytes, words: string, head: nat, q: nat, data: bool)
    requires words == "execute fetch from " || words == "execute " || words == "parse " || words == "bind "
    requires StartsNamed(s, words, head, q) && IsPlain(s, q + 1) && IsUncut(TemplateOf(s, data))
    ensures TemplateOf(s, data) == Ascii(words) + [36, 49] + [58] + Sql(s, q + 1, false, 1)
  {
    NamedMarkerIsFound(s, words, head, q);
    var k := NamedFirstWord(s, words, head, q);
    NamedSpelled(s, k, Ascii(words), head, q, data, TemplateOf(s, data));
    SpelledBehind(s, Ascii(words), true, q + 1, Lead(Ascii(words), true), 1);
  }
}
