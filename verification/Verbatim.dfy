/** A quoted name that stays is in the template letter for letter, whatever stands around it. */
module Verbatim {
  import opened Bytes
  import opened Tokenizer
  import opened Rules
  import opened Masking
  import opened ListGrammar
  import opened Cutting
  import opened Templates
  import opened Steps

  /** The bytes b are in t. */
  ghost predicate Shows(t: bytes, b: bytes) { exists p, q :: t == p + b + q }

  lemma ShowsAt(t: bytes, p: bytes, b: bytes)
    requires p + b <= t
    ensures Shows(t, b)
  {
    assert t == p + b + t[|p + b|..];
  }

  /** t is what is left of s behind acts that stay in the message. */
  predicate Ahead(s: Script, t: Script)
    decreases s
  {
    s == t || (s.Then? && !s.act.Mark? && !s.act.Plan? && Ahead(s.rest, t))
  }

  /** t starts with a token that no value takes with it. */
  predicate StandsAlone(t: Script) { t.Then? && t.act.Text? && !Joins(t.act) && !IsDigitWord(t.act) }

  lemma {:induction false} DigitWordsAhead(s: Script, t: Script)
    requires Ahead(s, t) && StandsAlone(t)
    ensures Ahead(SkipDigitWords(s), t)
    decreases s
  {
    if s != t && IsDigitWord(s.act) {
      DigitWordsAhead(s.rest, t);
    }
  }

  lemma {:induction false} ValueAhead(s: Script, t: Script)
    requires Ahead(s, t) && StandsAlone(t)
    ensures AfterValueAt(s).Some? ==> s != t && Ahead(AfterValueAt(s).value, t)
    decreases s
  {
    if s != t {
      if s.act == Mask {
        DigitWordsAhead(s.rest, t);
      } else if Joins(s.act) {
        ValueAhead(s.rest, t);
      }
    }
  }

  lemma {:induction false} SpellGrows(out: bytes, s: Script, gap: bool, n: nat, stmt: bool)
    ensures out <= Spell(out, s, gap, n, stmt)
    decreases Len(s)
  {
    match s
    case Done =>
    case Then(Gap, rest) => SpellGrows(out, rest, true, n, stmt);
    case Then(Key, rest) => SpellGrows(Spaced(out, gap) + [EQUALS] + Placeholder(n + 1), SkipDigitWords(rest), false, n + 1, stmt);
    case Then(Mark(words, named), rest) =>
      SpellGrows(Spaced(out, gap) + words + Placeholder(n + 1) + [COLON], rest, false, n + 1, true);
      SpellGrows(Spaced(out, gap) + words + [COLON], rest, false, n, true);
    case Then(Plan, _) =>
    case Then(Mask, rest) => SpellGrows(Spaced(out, gap) + Placeholder(n + 1), SkipDigitWords(rest), false, n + 1, stmt);
    case Then(Text(k, b), rest) => TextGrows(out, s, k, b, rest, gap, n, stmt);
  }

  lemma {:induction false} TextGrows(out: bytes, s: Script, k: Kind, b: bytes, rest: Script, gap: bool, n: nat, stmt: bool)
    requires s == Then(Text(k, b), rest)
    ensures out <= Spell(out, s, gap, n, stmt)
    decreases Len(s), 0
  {
    var v := AfterValueAt(s);
    if v.Some? {
      SpellGrows(Spaced(out, gap) + Placeholder(n + 1), v.value, false, n + 1, stmt);
    } else {
      var o := Spaced(out, gap) + b;
      var l := if stmt then ListAfter(Text(k, b), rest) else None;
      if l.Some? {
        SpellGrows(Spaced(o, StartsGap(rest)) + Dots(), l.value, false, n, stmt);
      } else {
        SpellGrows(o, rest, false, n, stmt);
      }
    }
  }

  /** What is spelled behind out comes to t, with p before it. */
  ghost predicate SpellsTo(out: bytes, s: Script, gap: bool, n: nat, p: bytes, t: Script, h: bool, k: nat) {
    Spell(out, s, gap, n, false) == Spell(p, t, h, k, false)
  }

  /** Spelling comes to every token of the message that stands alone. */
  lemma {:induction false} SpellReaches(out: bytes, s: Script, gap: bool, n: nat, t: Script) returns (p: bytes, h: bool, k: nat)
    requires Ahead(s, t) && StandsAlone(t)
    ensures SpellsTo(out, s, gap, n, p, t, h, k)
    decreases Len(s)
  {
    if s == t {
      return out, gap, n;
    }
    match s.act
    case Gap => p, h, k := SpellReaches(out, s.rest, true, n, t);
    case Key =>
      DigitWordsAhead(s.rest, t);
      p, h, k := SpellReaches(Spaced(out, gap) + [EQUALS] + Placeholder(n + 1), SkipDigitWords(s.rest), false, n + 1, t);
    case Mask =>
      DigitWordsAhead(s.rest, t);
      p, h, k := SpellReaches(Spaced(out, gap) + Placeholder(n + 1), SkipDigitWords(s.rest), false, n + 1, t);
    case Text(kind, b) =>
      ValueAhead(s, t);
      if AfterValueAt(s).Some? {
        p, h, k := SpellReaches(Spaced(out, gap) + Placeholder(n + 1), AfterValueAt(s).value, false, n + 1, t);
      } else {
        p, h, k := SpellReaches(Spaced(out, gap) + b, s.rest, false, n, t);
      }
  }

  lemma AloneIsSpelled(p: bytes, t: Script, h: bool, k: nat)
    requires StandsAlone(t)
    ensures Spaced(p, h) + t.act.text <= Spell(p, t, h, k, false)
  {
    SpellGrows(Spaced(p, h) + t.act.text, t.rest, false, k, false);
  }

  /** Reading that comes to m reads on from there. */
  lemma {:induction false} ReachedIsAhead(s: bytes, pos: nat, c: Context, data: bool, m: nat, d: Context)
    requires pos <= m <= |s| && Reaches(s, pos, c, data, m, d)
    ensures Ahead(ReadMessage(s, pos, c, data), ReadMessage(s, m, d, data))
    decreases m - pos
  {
    if pos < m {
      var step := StepAt(s, pos, c, data);
      ReachedIsAhead(s, step.next, step.ctx, data, m, d);
      StepIsAhead(s, pos, c, data, step, ReadMessage(s, m, d, data));
    }
  }

  lemma StepIsAhead(s: bytes, pos: nat, c: Context, data: bool, step: Move, t: Script)
    requires pos <= |s| && step == StepAt(s, pos, c, data) && step.Moves? && Ahead(ReadMessage(s, step.next, step.ctx, data), t)
    ensures Ahead(ReadMessage(s, pos, c, data), t)
  {
    ReadsByStep(s, pos, c, data);
  }

  /** A template that was not cut, and has no query plan behind it, is the draft. */
  lemma UncutIsDraft(s: bytes, data: bool)
    requires !EndsWithEllipsis(TemplateOf(s, data))
    ensures TemplateOf(s, data) == Drafted(s, data).out && |Drafted(s, data).out| <= LIMIT
  {
    CutShows(Drafted(s, data).out, Drafted(s, data).plan);
  }

  lemma EllipsisEnds(w: bytes)
    ensures EndsWithEllipsis(w + ELLIPSIS)
  {
    assert (w + ELLIPSIS)[|w|..] == ELLIPSIS;
  }

  /** A cut, or a query plan, shows in the ellipsis at the end. */
  lemma CutShows(out: bytes, plan: bool)
    ensures !EndsWithEllipsis(CutTemplate(out, plan)) ==> CutTemplate(out, plan) == out && |out| <= LIMIT
  {
    EllipsisEnds(out);
    if |out| > LIMIT {
      EllipsisEnds(out[..KeptBefore(out)] + [SPACE]);
      EllipsisEnds(out[..KeptBefore(out)]);
    }
  }

  /** A token that reading comes to, and keeps, and that stands alone, is in the template. */
  lemma KeptTokenShows(s: bytes, m: nat, d: Context, data: bool, t: Script)
    requires m <= |s| && Reaches(s, 0, START, data, m, d) && t == ReadMessage(s, m, d, data) && StandsAlone(t)
    requires !EndsWithEllipsis(TemplateOf(s, data))
    ensures Shows(TemplateOf(s, data), t.act.text)
  {
    ReachedIsAhead(s, 0, START, data, m, d);
    UncutIsDraft(s, data);
    TemplateMeaning(s, data);
    SpelledShows(ReadMessage(s, 0, START, data), t);
  }

  lemma SpelledShows(r: Script, t: Script)
    requires Ahead(r, t) && StandsAlone(t)
    ensures Shows(Spell([], r, false, 0, false), t.act.text)
  {
    var p, h, k := SpellReaches([], r, false, 0, t);
    AloneIsSpelled(p, t, h, k);
    ShowsAt(Spell([], r, false, 0, false), Spaced(p, h), t.act.text);
  }
}
