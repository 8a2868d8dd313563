/** Where a statement marker, or "plan:", may stand in a message: at its start, and behind a value and white space. */
module MarkerPlaces {
  import opened Bytes
  import opened Tokenizer
  import opened Rules
  import opened Masking
  import opened Steps
  import opened Words
  import Hidden

  /** A value: a token that is a literal in itself, not part of a path. */
  ghost predicate IsValue(s: bytes, i: nat, e: nat) {
    && i < e <= |s| && PathAt(s, i) == 0 && TokenAt(s, i, false).end == e
    && TokenAt(s, i, false).kind in {Number, Hex, String, Dollar, Param}
  }

  lemma ValueStep(s: bytes, i: nat, e: nat, c: Context, data: bool)
    requires IsValue(s, i, e)
    ensures StepAt(s, i, c, data).Moves? && StepAt(s, i, c, data).next == e
    ensures var d := StepAt(s, i, c, data).ctx; d.marker && d.glued && !d.first && !d.gap
  {
    var t := TokenAt(s, i, false);
    assert StepAt(s, i, c, data) == TokenStep(s, i, c, data, t, MarkerAt(s, i)) == PlainStep(s, i, c, data, t);
  }

  /** Behind white space a gap is noted; whether a marker may stand there is not changed. */
  lemma BlankStep(s: bytes, e: nat, c: Context, data: bool)
    requires e < |s| && IsBlank(s[e]) && !c.first
    ensures StepAt(s, e, c, data).Moves? && StepAt(s, e, c, data).next == RunEnd(s, e, Blank)
    ensures var d := StepAt(s, e, c, data).ctx; d.marker == c.marker && d.gap && !d.first
  {
    SpaceStep(s, e, c, data);
  }

  /** Behind a value and white space a marker may stand. */
  lemma BehindValue(s: bytes, i: nat, e: nat, a: nat, c: Context, data: bool) returns (d: Context)
    requires IsValue(s, i, e) && e < |s| && IsBlank(s[e]) && a == RunEnd(s, e, Blank)
    ensures Reaches(s, i, c, data, a, d) && d.marker && d.gap && !d.first
  {
    ValueStep(s, i, e, c, data);
    OneStep(s, i, c, data);
    var f := StepAt(s, i, c, data).ctx;
    BlankStep(s, e, f, data);
    OneStep(s, e, f, data);
    d := StepAt(s, e, f, data).ctx;
    ReachesThen(s, i, c, data, e, f, a, d);
  }

  /** So it may behind a value, a word right behind it that starts with a digit, and white space. */
  lemma BehindGluedWord(s: bytes, i: nat, e: nat, k: nat, a: nat, c: Context, data: bool) returns (d: Context)
    requires IsValue(s, i, e) && e < |s| && IsDigit(s[e]) && TokenAt(s, e, false) == Token(Word, k) && PathAt(s, e) == 0
    requires k < |s| && IsBlank(s[k]) && a == RunEnd(s, k, Blank)
    ensures Reaches(s, i, c, data, a, d) && d.marker && d.gap && !d.first
  {
    ValueStep(s, i, e, c, data);
    OneStep(s, i, c, data);
    var f := StepAt(s, i, c, data).ctx;
    GluedStep(s, e, k, f, data);
    OneStep(s, e, f, data);
    var g := StepAt(s, e, f, data).ctx;
    BlankStep(s, k, g, data);
    OneStep(s, k, g, data);
    d := StepAt(s, k, g, data).ctx;
    ReachesThen(s, e, f, data, k, g, a, d);
    ReachesThen(s, i, c, data, e, f, a, d);
  }

  /** So it may behind a path and white space. */
  lemma BehindPath(s: bytes, i: nat, e: nat, a: nat, c: Context, data: bool) returns (d: Context)
    requires i <= |s| && PathAt(s, i) == e > 0 && e < |s| && IsBlank(s[e]) && a == RunEnd(s, e, Blank)
    ensures Reaches(s, i, c, data, a, d) && d.marker && d.gap && !d.first
  {
    OneStep(s, i, c, data);
    var f := StepAt(s, i, c, data).ctx;
    BlankStep(s, e, f, data);
    OneStep(s, e, f, data);
    d := StepAt(s, e, f, data).ctx;
    ReachesThen(s, i, c, data, e, f, a, d);
  }

  /** Behind the value of a key it may not. */
  lemma NoneBehindKey(s: bytes, i: nat, e: nat, a: nat, c: Context, data: bool) returns (d: Context)
    requires At(s, i, EQUALS) && c.prev == Word && e == ValueEnd(s, i + 1) < |s| && IsBlank(s[e]) && a == RunEnd(s, e, Blank)
    ensures Reaches(s, i, c, data, a, d) && !StepAt(s, a, d, data).IntoStatement? && !StepAt(s, a, d, data).AtPlan?
  {
    Hidden.KeyStep(s, i, c, data);
    OneStep(s, i, c, data);
    var f := AfterValue(false);
    BlankStep(s, e, f, data);
    OneStep(s, e, f, data);
    d := StepAt(s, e, f, data).ctx;
    ReachesThen(s, i, c, data, e, f, a, d);
  }

  lemma GluedStep(s: bytes, e: nat, k: nat, c: Context, data: bool)
    requires e < k <= |s| && IsDigit(s[e]) && TokenAt(s, e, false) == Token(Word, k) && PathAt(s, e) == 0
    requires c.glued && !c.gap && !c.first
    ensures StepAt(s, e, c, data).Moves? && StepAt(s, e, c, data).next == k
    ensures var d := StepAt(s, e, c, data).ctx; d.marker && !d.first
  {
    assert StepAt(s, e, c, data) == TokenStep(s, e, c, data, Token(Word, k), MarkerAt(s, e)) == PlainStep(s, e, c, data, Token(Word, k));
    assert s[e..k][0] == s[e];
  }

  /** What stands there is read as a marker. */
  lemma MarkerIsRead(s: bytes, a: nat, k: nat, m: Marker, d: Context, data: bool)
    requires IsLetterWord(s, a, k) && d.marker && (d.gap || d.first) && m == MarkerAt(s, a) && m.Marker?
    requires d.first || s[a..k] != [112, 108, 97, 110]
    ensures StepAt(s, a, d, data) == IntoStatement(m.words, m.head < m.colon, m.colon + 1)
  {
    LettersNoPath(s, a, k);
    LettersToken(s, a, k);
    PlanIs(s[a..k]);
    MarkerStep(s, a, k, m, d, data);
  }

  lemma PlanIs(b: bytes)
    ensures b == Ascii("plan") <==> b == [112, 108, 97, 110]
  {
    assert Ascii("plan") == [112, 108, 97, 110];
  }

  lemma MarkerStep(s: bytes, a: nat, k: nat, m: Marker, d: Context, data: bool)
    requires a < k <= |s| && PathAt(s, a) == 0 && TokenAt(s, a, false) == Token(Word, k) && m == MarkerAt(s, a) && m.Marker?
    requires d.marker && (d.gap || d.first) && (d.first || s[a..k] != Ascii("plan"))
    ensures StepAt(s, a, d, data) == IntoStatement(m.words, m.head < m.colon, m.colon + 1)
  {
    MarkerTokenStep(s, a, k, d, data, m);
  }

  lemma MarkerTokenStep(s: bytes, a: nat, k: nat, d: Context, data: bool, m: Marker)
    requires a < k <= |s| && m.Marker? && FoundIn(s, a, m) && d.marker && (d.gap || d.first) && (d.first || s[a..k] != Ascii("plan"))
    ensures TokenStep(s, a, d, data, Token(Word, k), m) == IntoStatement(m.words, m.head < m.colon, m.colon + 1)
  {
  }

  /** Behind a word that is no value, and white space, nothing is read as a marker: "error statement: x" has none. */
  lemma NoneBehindWord(s: bytes, i: nat, e: nat, a: nat, c: Context, data: bool) returns (d: Context)
    requires IsLetterWord(s, i, e) && e < |s| && IsBlank(s[e]) && a == RunEnd(s, e, Blank)
    requires !MarkerPlace(c, Word) || (MarkerAt(s, i).NoMarker? && s[i..e] != Ascii("plan"))
    ensures Reaches(s, i, c, data, a, d) && !StepAt(s, a, d, data).IntoStatement? && !StepAt(s, a, d, data).AtPlan?
  {
    var f := OverWord(s, i, e, c, data);
    NotGlued(s, i, e, c);
    BlankStep(s, e, f, data);
    OneStep(s, e, f, data);
    d := StepAt(s, e, f, data).ctx;
    ReachesThen(s, i, c, data, e, f, a, d);
  }

  lemma NotGlued(s: bytes, i: nat, e: nat, c: Context)
    requires IsLetterWord(s, i, e)
    ensures !AfterToken(c, Word, s[i..e], false).marker && !AfterToken(c, Word, s[i..e], false).first
  {
    assert s[i..e][0] == s[i];
  }

  /** Nothing is read as a marker without white space before it, but at the start; and "plan:" not there either. */
  lemma NoneWithoutSpace(s: bytes, a: nat, d: Context, data: bool)
    requires a <= |s|
    ensures !d.gap && !d.first ==> !StepAt(s, a, d, data).IntoStatement?
    ensures !d.gap || d.first ==> !StepAt(s, a, d, data).AtPlan?
  {
    if PathAt(s, a) == 0 && a < |s| {
      var t := TokenAt(s, a, false);
      NoMarkStep(s, a, d, data, t, MarkerAt(s, a));
    }
  }

  lemma NoMarkStep(s: bytes, a: nat, d: Context, data: bool, t: Token, m: Marker)
    requires a < t.end <= |s| && FoundIn(s, a, m)
    ensures !d.gap && !d.first ==> !TokenStep(s, a, d, data, t, m).IntoStatement?
    ensures !d.gap || d.first ==> !TokenStep(s, a, d, data, t, m).AtPlan?
  {
  }
}
