/** Words made of letters, as reading takes them, and what the context remembers of them. */
module Words {
  import opened Bytes
  import opened Tokenizer
  import opened Rules
  import opened Masking
  import opened Steps

  predicate AreLetters(s: bytes, a: nat, k: nat) { k <= |s| && forall i | a <= i < k :: IsLetter(s[i]) }

  /** A word may end at k: at the end, before white space, a double quote, ',', ';', '(', ')' or '=', or a ':' that ends. */
  predicate StopsWord(s: bytes, k: nat) {
    k == |s| || (k < |s| && (IsBlank(s[k]) || s[k] in {QUOTE, COMMA, SEMICOLON, LPAREN, RPAREN, EQUALS} || (s[k] == COLON && (k + 1 == |s| || IsBlank(s[k + 1]) || s[k + 1] == QUOTE))))
  }

  ghost predicate IsLetterWord(s: bytes, a: nat, k: nat) { a < k && AreLetters(s, a, k) && StopsWord(s, k) }

  // ----- Their tokens -----

  lemma LettersRun(s: bytes, a: nat, i: nat, k: nat)
    requires IsLetterWord(s, a, k) && a <= i <= k
    ensures RunEnd(s, i, WordByte) == k && WordEnd(s, i) == k
    decreases k - i
  {
    if i < k {
      LettersRun(s, a, i + 1, k);
    }
  }

  lemma LettersHex(s: bytes, a: nat, i: nat, k: nat, left: nat)
    requires IsLetterWord(s, a, k) && a <= i <= k
    ensures HexRun(s, i, left) <= k
    decreases left
  {
    if i < k && left > 0 {
      LettersHex(s, a, i + 1, k, left - 1);
    }
  }

  lemma LettersNoLsn(s: bytes, a: nat, k: nat)
    requires IsLetterWord(s, a, k)
    ensures LsnEnd(s, a) == 0
  {
    LettersHex(s, a, a, k, 9);
  }

  lemma LettersNoPath(s: bytes, a: nat, k: nat)
    requires IsLetterWord(s, a, k)
    ensures PathAt(s, a) == 0
  {
    LettersRun(s, a, a, k);
  }

  lemma LettersToken(s: bytes, a: nat, k: nat)
    requires IsLetterWord(s, a, k)
    ensures TokenAt(s, a, false) == Token(Word, k)
  {
    LettersRun(s, a, a + 1, k);
    LettersNoLsn(s, a, k);
    assert !At(s, a + 1, AMPERSAND);
  }

  // ----- Their steps -----

  lemma NoDigits(s: bytes, a: nat, k: nat)
    requires IsLetterWord(s, a, k)
    ensures !HasDigit(s[a..k])
  {
  }

  /** A word of letters that no marker starts with stays, and is remembered. */
  lemma WordStep(s: bytes, a: nat, k: nat, c: Context, data: bool)
    requires IsLetterWord(s, a, k)
    requires !MarkerPlace(c, Word) || (MarkerAt(s, a).NoMarker? && s[a..k] != Ascii("plan"))
    ensures StepAt(s, a, c, data) == Moves(Some(Text(Word, s[a..k])), k, AfterToken(c, Word, s[a..k], false))
  {
    LettersNoPath(s, a, k);
    LettersToken(s, a, k);
    NoDigits(s, a, k);
    WordTokenStep(s, a, k, c, data, MarkerAt(s, a));
  }

  lemma WordTokenStep(s: bytes, a: nat, k: nat, c: Context, data: bool, found: Marker)
    requires a < k <= |s| && !HasDigit(s[a..k]) && FoundIn(s, a, found)
    requires !MarkerPlace(c, Word) || (found.NoMarker? && s[a..k] != Ascii("plan"))
    ensures TokenStep(s, a, c, data, Token(Word, k), found) ==
      Moves(Some(Text(Word, s[a..k])), k, AfterToken(c, Word, s[a..k], false))
  {
  }

  /** White space is passed over in one step. */
  lemma SpaceStep(s: bytes, k: nat, c: Context, data: bool)
    requires k < |s| && IsBlank(s[k])
    ensures StepAt(s, k, c, data) ==
      Moves(if c.first then None else Some(Gap), RunEnd(s, k, Blank), c.(gap := !c.first, prev := Space))
  {
    NoPathAtBlank(s, k);
    assert TokenAt(s, k, false) == Token(Space, RunEnd(s, k, Blank));
  }

  lemma NoPathAtBlank(s: bytes, k: nat)
    requires k < |s| && (IsBlank(s[k]) || s[k] == COLON)
    ensures PathAt(s, k) == 0
  {
    assert RunEnd(s, k, WordByte) == k;
  }

  /** So is a ':'. */
  lemma ColonStep(s: bytes, k: nat, c: Context, data: bool)
    requires At(s, k, COLON)
    ensures StepAt(s, k, c, data) == Moves(Some(Text(Punct, [COLON])), k + 1, AfterToken(c, Punct, [COLON], false))
  {
    NoPathAtBlank(s, k);
    assert s[k..k + 1] == [COLON];
    assert TokenAt(s, k, false) == Token(Punct, k + 1);
  }

  // ----- Going on -----

  lemma {:induction false} ReachesThen(s: bytes, p: nat, c: Context, data: bool, a: nat, d: Context, m: nat, e: Context)
    requires p <= a <= m <= |s| && Reaches(s, p, c, data, a, d) && Reaches(s, a, d, data, m, e)
    ensures Reaches(s, p, c, data, m, e)
    decreases a - p
  {
    if p < a {
      var step := StepAt(s, p, c, data);
      ReachesThen(s, step.next, step.ctx, data, a, d, m, e);
    }
  }

  lemma OneStep(s: bytes, p: nat, c: Context, data: bool)
    requires p <= |s| && StepAt(s, p, c, data).Moves?
    ensures Reaches(s, p, c, data, StepAt(s, p, c, data).next, StepAt(s, p, c, data).ctx)
  {
    var step := StepAt(s, p, c, data);
    assert Reaches(s, step.next, step.ctx, data, step.next, step.ctx);
  }

  /** Reading comes to the other side of white space. */
  lemma OverBlanks(s: bytes, k: nat, c: Context, data: bool) returns (d: Context)
    requires k <= |s|
    ensures Reaches(s, k, c, data, RunEnd(s, k, Blank), d)
    ensures d.named == c.named && d.after == c.after && d.marker == c.marker && d.first == c.first
  {
    d := c;
    if k < |s| && IsBlank(s[k]) {
      SpaceStep(s, k, c, data);
      OneStep(s, k, c, data);
      d := StepAt(s, k, c, data).ctx;
    }
  }

  /** Reading comes to the other side of a word. */
  lemma OverWord(s: bytes, a: nat, k: nat, c: Context, data: bool) returns (d: Context)
    requires IsLetterWord(s, a, k)
    requires !MarkerPlace(c, Word) || (MarkerAt(s, a).NoMarker? && s[a..k] != Ascii("plan"))
    ensures d == AfterToken(c, Word, s[a..k], false) && Reaches(s, a, c, data, k, d)
  {
    WordStep(s, a, k, c, data);
    OneStep(s, a, c, data);
    d := StepAt(s, a, c, data).ctx;
  }

  // ----- Words that are no markers -----

  lemma MarkerLetters(k: nat)
    requires k < 4
    ensures NamedWords(k)[0] == if k < 2 then 101 else if k == 2 then 112 else 98
    ensures Ascii("statement")[0] == 115 && Ascii("fastpath function call")[0] == 102 && Ascii("fastpath function call")[1] == 97
  {
  }

  lemma NoMatch(s: bytes, i: nat, w: bytes)
    requires i < |s| && w != [] && w[0] != SPACE && s[i] != w[0]
    ensures MatchWords(s, i, w) == 0
  {
  }

  lemma NoSecondMatch(s: bytes, i: nat, w: bytes)
    requires i + 1 < |s| && |w| > 1 && w[0] != SPACE && w[1] != SPACE && s[i + 1] != w[1]
    ensures MatchWords(s, i, w) == 0
  {
  }

  lemma {:induction false} NoNamed(s: bytes, i: nat, k: nat)
    requires i < |s| && s[i] !in {101, 112, 98}
    ensures NamedMarker(s, i, k).NoMarker?
    decreases 4 - k
  {
    if k < 4 {
      MarkerLetters(k);
      NoMatch(s, i, NamedWords(k));
      NoNamed(s, i, k + 1);
    }
  }

  /** No marker starts with another letter than s, f, e, p and b, and none that starts with f goes on without an a. */
  lemma NoMarkerAt(s: bytes, i: nat)
    requires i + 1 < |s| && s[i] !in {115, 101, 112, 98} && (s[i] != 102 || s[i + 1] != 97)
    ensures MarkerAt(s, i).NoMarker?
  {
    MarkerLetters(0);
    NoNamed(s, i, 0);
    NoMatch(s, i, Ascii("statement"));
    if s[i] == 102 {
      NoSecondMatch(s, i, Ascii("fastpath function call"));
    } else {
      NoMatch(s, i, Ascii("fastpath function call"));
    }
  }
}
