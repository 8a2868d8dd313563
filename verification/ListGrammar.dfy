/**
 * What an unbounded template is, said with look-ahead instead of an automaton: where a literal
 * ends, which lists are lists of literals, and how placeholders are numbered from left to right.
 */
module ListGrammar {
  import opened Bytes
  import opened Tokenizer
  import opened Rules
  import opened Masking

  function Len(s: Script): nat { match s case Done => 0 case Then(_, rest) => 1 + Len(rest) }

  predicate Starts(s: Script, c: byte) { s.Then? && IsPunct(s.act, c) }

  function SkipGaps(s: Script): (r: Script)
    ensures Len(r) <= Len(s)
  {
    match s case Then(Gap, rest) => SkipGaps(rest) case _ => s
  }

  function SkipDigitWords(s: Script): (r: Script)
    ensures Len(r) <= Len(s)
  {
    if s.Then? && IsDigitWord(s.act) then SkipDigitWords(s.rest) else s
  }

  /** The rest behind one value: words and '$' right before a literal, the literal, and the words it takes. */
  function AfterValueAt(s: Script): (r: Option<Script>)
    ensures r.Some? ==> Len(r.value) < Len(s)
  {
    match s
    case Done => None
    case Then(a, rest) => if a == Mask then Some(SkipDigitWords(rest)) else if Joins(a) then AfterValueAt(rest) else None
  }

  // ----- The grammar of lists -----

  /** '(' value { ',' value } ')', and after VALUES { ',' '(' ... ')' }: the rest behind the list. */
  function AfterList(s: Script, values: bool): (r: Option<Script>)
    ensures r.Some? ==> Len(r.value) < Len(s)
    decreases Len(s), 0
  {
    var t := SkipGaps(s);
    if Starts(t, LPAREN) then AfterElements(t.rest, values) else None
  }

  function AfterElements(s: Script, values: bool): (r: Option<Script>)
    ensures r.Some? ==> Len(r.value) < Len(s)
    decreases Len(s), 0
  {
    var v := AfterValueAt(SkipGaps(s));
    if v.Some? then AfterElement(v.value, values) else None
  }

  function AfterElement(s: Script, values: bool): (r: Option<Script>)
    ensures r.Some? ==> Len(r.value) < Len(s)
    decreases Len(s), 0
  {
    var t := SkipGaps(s);
    if Starts(t, COMMA) then AfterElements(t.rest, values)
    else if !Starts(t, RPAREN) then None
    else if values then AfterTuple(t.rest)
    else Some(t.rest)
  }

  /** After the ')' of a VALUES tuple: a ',' must bring another tuple, anything else ends the list. */
  function AfterTuple(s: Script): (r: Option<Script>)
    ensures r.Some? ==> Len(r.value) <= Len(s)
    decreases Len(s), 0
  {
    var t := SkipGaps(s);
    if Starts(t, COMMA) then AfterList(t.rest, true) else Some(s)
  }

  /** The rest behind the list of literals that the keyword a introduces before s. */
  function ListAfter(a: Act, s: Script): (r: Option<Script>)
    ensures r.Some? ==> Len(r.value) < Len(s)
  {
    if IsIn(a) then AfterList(s, false) else if IsValues(a) then AfterList(s, true) else None
  }

  // ----- The template of a script -----

  function Spaced(out: bytes, gap: bool): bytes { if gap then out + [SPACE] else out }

  predicate StartsGap(s: Script) { s.Then? && s.act == Gap }

  /** out with the template of s behind it, its placeholders numbered from n + 1. */
  function Spell(out: bytes, s: Script, gap: bool, n: nat, stmt: bool): bytes
    decreases Len(s)
  {
    match s
    case Done => out
    case Then(Gap, rest) => Spell(out, rest, true, n, stmt)
    case Then(Key, rest) =>
      Spell(Spaced(out, gap) + [EQUALS] + Placeholder(n + 1), SkipDigitWords(rest), false, n + 1, stmt)
    case Then(Mark(words, named), rest) =>
      if named then Spell(Spaced(out, gap) + words + Placeholder(n + 1) + [COLON], rest, false, n + 1, true)
      else Spell(Spaced(out, gap) + words + [COLON], rest, false, n, true)
    case Then(Plan, _) => Spaced(out, gap) + Ascii("plan: ")
    case Then(Mask, rest) =>
      Spell(Spaced(out, gap) + Placeholder(n + 1), SkipDigitWords(rest), false, n + 1, stmt)
    case Then(Text(k, b), rest) =>
      var v := AfterValueAt(s);
      if v.Some? then Spell(Spaced(out, gap) + Placeholder(n + 1), v.value, false, n + 1, stmt)
      else
        var o := Spaced(out, gap) + b;
        var l := if stmt then ListAfter(Text(k, b), rest) else None;
        if l.Some? then Spell(Spaced(o, StartsGap(rest)) + Dots(), l.value, false, n, stmt)
        else Spell(o, rest, false, n, stmt)
  }

  // ----- The draft in the middle of a script -----

  /** What a draft becomes by s if its list does not collapse. */
  function Body(s: Script, d: Draft): bytes
    requires d.fuse <= |d.out|
  {
    if d.space then Spell(d.out, s, true, d.n, d.stmt)
    else if d.fuse >= 0 && AfterValueAt(s).Some? then
      Spell(d.out[..d.fuse] + Placeholder(d.n + 1), AfterValueAt(s).value, false, d.n + 1, d.stmt)
    else Spell(d.out, if d.glued then SkipDigitWords(s) else s, false, d.n, d.stmt)
  }

  /** The rest behind the list that the draft is in, if s completes it. */
  function Completed(s: Script, l: List, gap: bool): (r: Option<Script>)
  {
    match l.step
    case Elem => AfterElements(s, l.values)
    case Sep => AfterElement(if gap then s else SkipDigitWords(s), l.values)
    case Closed => AfterTuple(s)
    case Next => AfterList(s, true)
    case Fuse =>
      if !gap && AfterValueAt(s).Some? then AfterElement(AfterValueAt(s).value, l.values) else None
    case _ => None
  }

  /** The rest behind the list that s opens after the keyword the draft ends with. */
  function Opening(s: Script, l: List): Option<Script> {
    match l.step
    case Keyword => AfterList(s, l.values)
    case Fuse => if l.kw then AfterList(s, l.kwValues) else None
    case _ => None
  }

  function Meaning(s: Script, d: Draft): bytes
    requires d.fuse <= |d.out|
  {
    if !d.stmt then Body(s, d)
    else if Completed(s, d.list, d.space).Some? then
      Spell(d.out[..Min(d.list.start, |d.out|)] + Dots(), Completed(s, d.list, d.space).value,
            d.list.step == Closed && d.space && !Starts(SkipGaps(s), COMMA), d.list.n, true)
    else if Opening(s, d.list).Some? then
      Spell(Spaced(d.out, d.space || StartsGap(s)) + Dots(), Opening(s, d.list).value, false, d.n, true)
    else Body(s, d)
  }

  predicate Neat(d: Draft) { -1 <= d.fuse <= |d.out| && (d.glued ==> d.fuse < 0) }

  predicate InList(l: List) { l.step in {Elem, Sep, Closed, Next, Fuse} }

  predicate Sound(d: Draft) {
    && Neat(d)
    && (!d.stmt ==> d.list.step == Outside)
    && (d.list.step == Next || d.list.step == Closed ==> d.list.values)
    && (InList(d.list) ==> d.list.start <= |d.out| && (d.fuse < 0 || d.list.start <= d.fuse))
  }

  // ----- One act at a time -----

  lemma GapInBody(s: Script, d: Draft)
    requires Neat(d)
    ensures Body(Then(Gap, s), d) == Body(s, d.(space := true))
  {
  }

  lemma GapInList(s: Script, l: List, gap: bool)
    ensures l.step != Closed ==> Completed(Then(Gap, s), l, gap) == Completed(s, l, true)
    ensures Opening(Then(Gap, s), l) == Opening(s, l)
  {
  }

  lemma GapAfterTuple(s: Script)
    ensures Starts(SkipGaps(s), COMMA) ==> AfterTuple(Then(Gap, s)) == AfterTuple(s)
    ensures !Starts(SkipGaps(s), COMMA) ==> AfterTuple(Then(Gap, s)) == Some(Then(Gap, s)) && AfterTuple(s) == Some(s)
  {
  }

  lemma GapStep(s: Script, d: Draft)
    requires Sound(d)
    ensures Meaning(Then(Gap, s), d) == Meaning(s, Put(d, Gap, false)) && Sound(Put(d, Gap, false))
  {
    GapInBody(s, d);
    GapInList(s, d.list, d.space);
    GapAfterTuple(s);
  }

  lemma MaskStep(s: Script, d: Draft)
    requires Neat(d)
    ensures var e := Write(Flush(d), Mask, false); Neat(e) && Body(Then(Mask, s), d) == Body(s, e)
  {
  }

  lemma TextStep(a: Act, s: Script, d: Draft)
    requires Neat(d) && a.Text?
    requires ListAfter(a, s).None? || !d.stmt
    ensures var e := Write(Flush(d), a, false); Neat(e) && Body(Then(a, s), d) == Body(s, e)
  {
    var f := Flush(d);
    var o := f.out + a.text;
    assert o[..|f.out|] == f.out;
    if f.fuse >= 0 {
      assert o[..f.fuse] == f.out[..f.fuse];
    }
  }

  lemma KeywordIsNoDigitWord(a: Act)
    requires IsIn(a) || IsValues(a)
    ensures a.Text? && Joins(a) && !IsDigitWord(a) && !(IsIn(a) && IsValues(a))
  {
    var w := if IsIn(a) then Ascii("in") else Ascii("values");
    assert Lower(a.text[0]) == w[0];
  }

  /** A keyword that a list of literals follows. */
  lemma KeywordStep(a: Act, s: Script, d: Draft)
    requires Sound(d) && d.stmt && ListAfter(a, s).Some?
    ensures var e := Write(Flush(d), a, false);
      Neat(e) && !e.space && Body(Then(a, s), d) == Spell(Spaced(e.out, StartsGap(s)) + Dots(), ListAfter(a, s).value, false, d.n, true)
  {
    KeywordIsNoDigitWord(a);
    assert AfterValueAt(s).None?;
  }

  /** Writing a token leaves the list alone and does not look at it. */
  lemma WriteKeepsList(a: Act, d: Draft, l: List)
    requires a == Mask || a.Text?
    ensures Write(Flush(d.(list := l)), a, false) == Write(Flush(d), a, false).(list := l)
    ensures !Write(Flush(d), a, false).space
  {
  }

  lemma BodyIgnoresList(s: Script, d: Draft, l: List)
    requires Neat(d)
    ensures Body(s, d.(list := l)) == Body(s, d)
  {
  }

  /** A draft outside all lists. */
  lemma OutsideMeaning(s: Script, d: Draft)
    requires Neat(d) && d.list.step == Outside
    ensures Meaning(s, d) == Body(s, d)
  {
  }

  /** A draft behind a keyword. */
  lemma KeywordMeaning(s: Script, d: Draft)
    requires Neat(d) && d.stmt && d.list.step == Keyword
    ensures Meaning(s, d) ==
      if AfterList(s, d.list.values).Some?
      then Spell(Spaced(d.out, d.space || StartsGap(s)) + Dots(), AfterList(s, d.list.values).value, false, d.n, true)
      else Body(s, d)
  {
  }

  /** A token that belongs to no list. */
  lemma RestartStep(a: Act, s: Script, d: Draft)
    requires Sound(d) && d.stmt && (a == Mask || a.Text?)
    ensures var e := Write(Flush(d.(list := Restart(d.list, a))), a, false);
      Sound(e) && Body(Then(a, s), d) == Meaning(s, e)
  {
    var l := Restart(d.list, a);
    var w := Write(Flush(d), a, false);
    var e := w.(list := l);
    WriteKeepsList(a, d, l);
    BodyIgnoresList(s, w, l);
    if IsIn(a) || IsValues(a) {
      KeywordMeaning(s, e);
    } else {
      OutsideMeaning(s, e);
    }
    if ListAfter(a, s).Some? {
      KeywordIsNoDigitWord(a);
      KeywordStep(a, s, d);
    } else if a == Mask {
      MaskStep(s, d);
    } else {
      TextStep(a, s, d);
    }
  }

  /** Writing keeps what lies before the run of words at the end. */
  lemma WriteKeepsStart(a: Act, d: Draft, k: nat)
    requires (a == Mask || a.Text?) && k <= |d.out| && (d.fuse < 0 || k <= d.fuse <= |d.out|)
    ensures var w := Write(Flush(d), a, false); k <= |w.out| && w.out[..k] == d.out[..k]
    ensures var w := Write(Flush(d), a, false); w.fuse < 0 || k <= w.fuse
  {
  }

  /** The token a keeps the draft in a list, which is then l. */
  ghost predicate Stays(a: Act, s: Script, d: Draft, l: List) {
    && Sound(d) && d.stmt && InList(d.list) && (a == Mask || (a.Text? && ListAfter(a, s).None?))
    && InList(l) && l.start == d.list.start && l.n == d.list.n
    && (l.step == Next || l.step == Closed ==> l.values)
    && (d.list.step == Closed ==> IsPunct(a, COMMA))
    && Completed(Then(a, s), d.list, d.space) == Completed(s, l, false)
    && Opening(Then(a, s), d.list).None? && Opening(s, l).None?
  }

  lemma StayMeaning(a: Act, s: Script, d: Draft, l: List)
    requires Stays(a, s, d, l) && Completed(s, l, false).Some?
    ensures Meaning(Then(a, s), d) == Meaning(s, Write(Flush(d), a, false).(list := l))
  {
    WriteKeepsStart(a, d, l.start);
  }

  lemma StayStep(a: Act, s: Script, d: Draft, l: List)
    requires Stays(a, s, d, l)
    ensures var e := Write(Flush(d.(list := l)), a, false); Sound(e) && Meaning(Then(a, s), d) == Meaning(s, e)
  {
    var w := Write(Flush(d), a, false);
    WriteKeepsList(a, d, l);
    WriteKeepsStart(a, d, l.start);
    BodyIgnoresList(s, w, l);
    if a == Mask {
      MaskStep(s, d);
    } else {
      TextStep(a, s, d);
    }
    if Completed(s, l, false).Some? {
      StayMeaning(a, s, d, l);
    }
  }

  /** The '(' behind a keyword. */
  lemma OpenStep(s: Script, d: Draft)
    requires Sound(d) && d.stmt && d.list.step == Keyword
    ensures var a := Text(Punct, [LPAREN]);
      var e := Write(Opened(Flush(d.(list := d.list.(step := Elem)))), a, false);
      Sound(e) && Meaning(Then(a, s), d) == Meaning(s, e)
  {
    var a := Text(Punct, [LPAREN]);
    var f := Flush(d);
    var w := Write(f, a, false);
    var l := d.list.(step := Elem, start := |f.out|, n := d.n);
    TextStep(a, s, d);
    BodyIgnoresList(s, w, l);
    assert w.out[..|f.out|] == f.out;
  }

  /** A word or '$' where an element starts, or in a run of them. */
  lemma JoinStep(a: Act, s: Script, d: Draft)
    requires Sound(d) && d.stmt && Joins(a) && (d.list.step == Elem || (d.list.step == Fuse && !d.space))
    ensures var e := Write(Flush(d.(list := NoteKeyword(d.list.(step := Fuse), a))), a, false);
      Sound(e) && Meaning(Then(a, s), d) == Meaning(s, e)
  {
    var l := NoteKeyword(d.list.(step := Fuse), a);
    if ListAfter(a, s).None? {
      StayStep(a, s, d, l);
    } else {
      KeywordIsNoDigitWord(a);
      KeywordStep(a, s, d);
      WriteKeepsList(a, d, l);
      WriteKeepsStart(a, d, l.start);
      KeywordInList(a, s, d, l);
    }
  }

  /** A keyword inside a list, behind which a list of literals opens. */
  lemma KeywordInList(a: Act, s: Script, d: Draft, l: List)
    requires d.list.step == Elem || (d.list.step == Fuse && !d.space)
    requires Neat(d) && d.stmt && ListAfter(a, s).Some? && l == NoteKeyword(d.list.(step := Fuse), a)
    ensures var e := Write(Flush(d), a, false).(list := l);
      Neat(e) && Meaning(Then(a, s), d) == Body(Then(a, s), d) &&
      Meaning(s, e) == Spell(Spaced(e.out, StartsGap(s)) + Dots(), ListAfter(a, s).value, false, d.n, true)
  {
    KeywordIsNoDigitWord(a);
    assert AfterValueAt(s).None?;
    assert Completed(Then(a, s), d.list, d.space).None?;
  }

  /** The ')' that ends an IN list. */
  lemma CloseStep(s: Script, d: Draft)
    requires Sound(d) && d.stmt && d.list.step == Sep && !d.list.values
    ensures var e := Collapsed(d.(list := d.list.(step := Outside))).(space := false);
      Sound(e) && Meaning(Then(Text(Punct, [RPAREN]), s), d) == Meaning(s, e)
  {
  }

  /** The first token behind the tuples of a VALUES list. */
  lemma CollapseStep(a: Act, s: Script, d: Draft)
    requires Sound(d) && d.stmt && d.list.step == Closed && !IsPunct(a, COMMA) && (a == Mask || a.Text?)
    ensures var e := Write(Flush(Collapsed(d.(list := Restart(d.list, a)))), a, false);
      Sound(e) && Meaning(Then(a, s), d) == Meaning(s, e)
  {
    var c := Collapsed(d);
    RestartStep(a, s, c.(list := c.list.(step := Outside)));
    assert Meaning(Then(a, s), d) == Body(Then(a, s), c);
    BodyIgnoresList(Then(a, s), c, c.list.(step := Outside));
  }

  lemma SettleStep(a: Act, s: Script, d: Draft)
    requires Sound(d) && d.stmt && (a == Mask || a.Text?)
    ensures var e := d.(list := Settle(d.list, a, !d.space)); Sound(e) && Meaning(Then(a, s), d) == Meaning(Then(a, s), e)
  {
    var l := Settle(d.list, a, !d.space);
    if l != d.list {
      BodyIgnoresList(Then(a, s), d, l);
    }
  }

  /** A token that no list goes on with. */
  lemma LeaveStep(a: Act, s: Script, d: Draft)
    requires Sound(d) && d.stmt && (a == Mask || a.Text?) && d.list.step != Closed
    requires NextStep(d.list.step, d.list.values, a, !d.space).None?
    requires Settle(d.list, a, !d.space) == d.list
    ensures Meaning(Then(a, s), d) == Body(Then(a, s), d)
  {
  }

  /** One token of a statement, when the list is settled and does not end. */
  lemma KeepStep(a: Act, s: Script, d: Draft)
    requires Sound(d) && d.stmt && (a == Mask || a.Text?) && Settle(d.list, a, !d.space) == d.list
    requires ActionOf(d.list, a) == Keep
    ensures var e := Write(Flush(d.(list := Advance(d.list, a, !d.space))), a, false);
      Sound(e) && Meaning(Then(a, s), d) == Meaning(s, e)
  {
    var next := NextStep(d.list.step, d.list.values, a, !d.space);
    if next.None? {
      LeaveStep(a, s, d);
      RestartStep(a, s, d);
    } else if next.value == Fuse {
      JoinStep(a, s, d);
    } else {
      StaysInList(a, s, d);
      StayStep(a, s, d, Advance(d.list, a, !d.space));
    }
  }

  lemma SettledStep(a: Act, s: Script, d: Draft)
    requires Sound(d) && d.stmt && (a == Mask || a.Text?) && Settle(d.list, a, !d.space) == d.list
    ensures var e := PutInStatement(d, a, false); Sound(e) && Meaning(Then(a, s), d) == Meaning(s, e)
  {
    match ActionOf(d.list, a)
    case Open => OpenStep(s, d);
    case Collapse => CollapseStep(a, s, d);
    case CollapseClose => CloseStep(s, d);
    case Keep => KeepStep(a, s, d);
  }

  lemma StaysInList(a: Act, s: Script, d: Draft)
    requires Sound(d) && d.stmt && (a == Mask || a.Text?) && Settle(d.list, a, !d.space) == d.list
    requires ActionOf(d.list, a) == Keep
    requires var next := NextStep(d.list.step, d.list.values, a, !d.space); next.Some? && next.value != Fuse
    ensures Stays(a, s, d, Advance(d.list, a, !d.space))
  {
    if d.list.step == Sep {
      StaysAfterElement(a, s, d);
    }
  }

  lemma StaysAfterElement(a: Act, s: Script, d: Draft)
    requires Sound(d) && d.stmt && (a == Mask || a.Text?) && d.list.step == Sep
    requires ActionOf(d.list, a) == Keep && NextStep(Sep, d.list.values, a, !d.space).Some?
    ensures Stays(a, s, d, Advance(d.list, a, !d.space))
  {
    if !d.space && IsDigitWord(a) {
      assert ListAfter(a, s).None? by {
        if IsIn(a) || IsValues(a) {
          KeywordIsNoDigitWord(a);
        }
      }
    }
  }

  lemma StatementStep(a: Act, s: Script, d: Draft)
    requires Sound(d) && d.stmt && (a == Mask || a.Text?)
    ensures var e := PutInStatement(d, a, false); Sound(e) && Meaning(Then(a, s), d) == Meaning(s, e)
  {
    var e := d.(list := Settle(d.list, a, !d.space));
    SettleStep(a, s, d);
    SettledStep(a, s, e);
    assert PutInStatement(d, a, false) == PutInStatement(e, a, false);
  }

  // ----- Whole scripts -----

  /** Keys, markers and plans are read in a message only, and a marker begins the statement. */
  predicate Proper(s: Script, stmt: bool) {
    s.Then? ==>
      && (s.act.Key? || s.act.Mark? || s.act.Plan? ==> !stmt)
      && (s.act.Plan? || Proper(s.rest, stmt || s.act.Mark?))
  }

  lemma KeyStep(s: Script, d: Draft)
    requires Neat(d) && !d.stmt
    ensures var e := PutKey(d); Neat(e) && Meaning(Then(Key, s), d) == Meaning(s, e)
  {
    assert Flush(d).out == Spaced(d.out, d.space);
  }

  lemma MarkStep(words: bytes, named: bool, s: Script, d: Draft)
    requires Neat(d) && !d.stmt && d.list.step == Outside
    ensures var e := PutMark(d, words, named); Neat(e) && Meaning(Then(Mark(words, named), s), d) == Meaning(s, e)
  {
    assert Flush(d).out == Spaced(d.out, d.space);
  }

  lemma MessageStep(a: Act, s: Script, d: Draft)
    requires Neat(d) && !d.stmt && a != Plan && a != Gap && d.list.step == Outside
    ensures var e := Put(d, a, false); Neat(e) && Meaning(Then(a, s), d) == Meaning(s, e)
  {
    match a
    case Mask => MaskStep(s, d);
    case Text(_, _) => TextStep(a, s, d);
    case Key => KeyStep(s, d);
    case Mark(words, named) => MarkStep(words, named, s, d);
  }

  lemma ActStep(a: Act, s: Script, d: Draft)
    requires Sound(d) && Proper(Then(a, s), d.stmt) && a != Plan
    ensures var e := Put(d, a, false); Sound(e) && Proper(s, e.stmt) && Meaning(Then(a, s), d) == Meaning(s, e)
  {
    if a == Gap {
      GapStep(s, d);
    } else if d.stmt {
      StatementStep(a, s, d);
    } else {
      MessageStep(a, s, d);
    }
  }

  lemma EndMeaning(d: Draft)
    requires Sound(d)
    ensures Meaning(Done, d) == if d.list.step == Closed then Collapsed(d).out else d.out
  {
  }

  /**
   * Written without a limit, a script becomes what look-ahead says: exactly the lists of literals
   * collapse, and the placeholders that are left count from one without a gap.
   */
  lemma {:induction false} RunMeaning(s: Script, d: Draft)
    requires Sound(d) && Proper(s, d.stmt)
    ensures Run(s, d, false).out == Meaning(s, d)
    decreases s
  {
    match s
    case Done => EndMeaning(d);
    case Then(a, rest) =>
      if a == Plan {
        assert Run(s, d, false) == PutPlan(d);
      } else {
        ActStep(a, rest, d);
        RunMeaning(rest, Put(d, a, false));
      }
  }
}
