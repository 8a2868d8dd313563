/** What holds of the template of every message. */
module Templates {
  import opened Bytes
  import opened Tokenizer
  import opened Rules
  import opened Masking
  import opened ListGrammar
  import opened Limits
  import opened Utf8
  import opened TokenEdges
  import opened Cutting

  /** The template of the message s; data says that its SQLSTATE is in class 22 or 23. */
  function TemplateOf(s: bytes, data: bool): bytes {
    var d := Drafted(s, data);
    CutTemplate(d.out, d.plan)
  }

  // ----- Length -----

  lemma PlanEndsInSpace(d: Draft)
    ensures !EndsWithEllipsis(PutPlan(d).out)
  {
    var out := PutPlan(d).out;
    assert out[|out| - 1] == Ascii("plan: ")[5] == SPACE;
    if |out| >= 3 {
      assert out[|out| - 3..][2] == out[|out| - 1];
    }
  }

  lemma PutKeepsPlan(d: Draft, a: Act, bounded: bool)
    requires a != Plan
    ensures Put(d, a, bounded).plan == d.plan
  {
  }

  lemma RunPlan(s: Script, d: Draft, bounded: bool)
    requires !d.plan
    ensures var e := Run(s, d, bounded); e.plan ==> !EndsWithEllipsis(e.out)
    decreases s
  {
    var e := if bounded then CutBack(d) else d;
    if !(bounded && Stopped(d)) && s.Then? {
      if s.act == Plan {
        PlanEndsInSpace(e);
      } else {
        PutKeepsPlan(e, s.act, bounded);
        RunPlan(s.rest, Put(e, s.act, bounded), bounded);
      }
    }
  }

  /** A template is at most 1,027 bytes long and a fixed point of the cut. */
  lemma TemplateIsShort(s: bytes, data: bool)
    ensures |TemplateOf(s, data)| <= 1027 && CutTemplate(TemplateOf(s, data), false) == TemplateOf(s, data)
  {
    RunPlan(ReadMessage(s, 0, START, data), EMPTY, true);
    var d := Drafted(s, data);
    CutIsShort(d.out, d.plan);
    CutIsStable(d.out, d.plan);
  }

  // ----- Meaning -----

  lemma StatementProper(s: bytes, pos: nat)
    requires pos <= |s|
    ensures Proper(ReadStatement(s, pos), true)
    decreases |s| - pos
  {
    if pos < |s| {
      StatementProper(s, TokenAt(s, pos, true).end);
    }
  }

  lemma MessageProper(s: bytes, pos: nat, c: Context, data: bool)
    requires pos <= |s|
    ensures Proper(ReadMessage(s, pos, c, data), false)
    decreases |s| - pos, 3
  {
    var path := PathAt(s, pos);
    if path > 0 {
      MessageProper(s, path, AfterValue(true), data);
    } else if pos < |s| {
      TokenProper(s, pos, c, data, TokenAt(s, pos, false));
    }
  }

  lemma TokenProper(s: bytes, pos: nat, c: Context, data: bool, t: Token)
    requires pos < t.end <= |s|
    ensures Proper(ReadToken(s, pos, c, data, t), false)
    decreases |s| - pos, 2
  {
    if t.kind == Space || t.kind == Comment {
      MessageProper(s, t.end, c.(gap := !c.first, prev := Space), data);
    } else {
      MarkedProper(s, pos, c, data, t, if MarkerPlace(c, t.kind) then MarkerAt(s, pos) else NoMarker);
    }
  }

  lemma MarkedProper(s: bytes, pos: nat, c: Context, data: bool, t: Token, m: Marker)
    requires pos < t.end <= |s| && (m.Marker? ==> m.colon < |s|)
    ensures Proper(ReadMarked(s, pos, c, data, t, m), false)
    decreases |s| - pos, 1
  {
    if m.Marker? {
      StatementProper(s, m.colon + 1);
    } else {
      PlainProper(s, pos, c, data, t);
    }
  }

  lemma PlainProper(s: bytes, pos: nat, c: Context, data: bool, t: Token)
    requires pos < t.end <= |s|
    ensures Proper(ReadPlain(s, pos, c, data, t), false)
    decreases |s| - pos, 0
  {
    if t.kind == Punct && s[pos] == EQUALS && c.prev == Word {
      MessageProper(s, ValueEnd(s, t.end), AfterValue(false), data);
    } else {
      var b := s[pos..t.end];
      MessageProper(s, t.end, AfterToken(c, t.kind, b, IsMasked(c, t.kind, b, data)), data);
    }
  }

  /**
   * A template that fits is exactly what look-ahead over the script spells: the lists of literals,
   * and no others, are collapsed, and the placeholders count from $1 without a gap.
   */
  lemma TemplateMeaning(s: bytes, data: bool)
    requires |Drafted(s, data).out| <= LIMIT
    ensures Drafted(s, data).out == Spell([], ReadMessage(s, 0, START, data), false, 0, false)
  {
    var r := ReadMessage(s, 0, START, data);
    MessageProper(s, 0, START, data);
    FittingIsUnbounded(r, EMPTY, EMPTY);
    RunMeaning(r, EMPTY);
  }

  // ----- Characters -----

  /** The draft and the places it may be cut back to hold whole characters. */
  predicate Chars(u: Draft) {
    && u.fuse <= |u.out| && Valid(u.out)
    && (0 <= u.fuse ==> Valid(u.out[..u.fuse]))
    && (InList(u.list) ==> u.list.start <= |u.out| && (u.fuse < 0 || u.list.start <= u.fuse) && Valid(u.out[..u.list.start]))
  }

  lemma PlaceholderIsAscii(n: nat)
    ensures Valid(Placeholder(n))
  {
    AsciiIsValid(Placeholder(n));
  }

  lemma FlushChars(u: Draft)
    requires Chars(u)
    ensures Chars(Flush(u)) && Flush(u).list == u.list && |u.out| <= |Flush(u).out|
  {
    ValidJoin(u.out, [SPACE]);
    if InList(u.list) {
      assert (u.out + [SPACE])[..u.list.start] == u.out[..u.list.start];
    }
  }

  lemma Prefix(x: bytes, w: bytes, k: nat)
    requires k <= |x|
    ensures (x + w)[..k] == x[..k]
  {
  }

  lemma AppendChars(u: Draft, w: bytes, fuse: int, glued: bool)
    requires Chars(u) && Valid(w) && (fuse == -1 || fuse == |u.out| || fuse == u.fuse)
    ensures Chars(u.(out := u.out + w, fuse := fuse, glued := glued))
  {
    ValidJoin(u.out, w);
    if fuse >= 0 {
      Prefix(u.out, w, fuse);
      assert u.out[..|u.out|] == u.out;
    }
    if InList(u.list) {
      Prefix(u.out, w, u.list.start);
    }
  }

  lemma MaskChars(u: Draft)
    requires Chars(u)
    ensures Chars(Masked(u))
  {
    PlaceholderIsAscii(u.n + 1);
    ValidJoin(Kept(u), Placeholder(u.n + 1));
    if InList(u.list) {
      assert Masked(u).out[..u.list.start] == u.out[..u.list.start];
    }
  }

  lemma CollapseChars(u: Draft)
    requires Chars(u) && InList(u.list)
    ensures Chars(Collapsed(u).(list := u.list.(step := Outside)))
  {
    AsciiIsValid(Dots());
    ValidJoin(u.out[..u.list.start], Dots());
  }

  lemma WriteChars(u: Draft, a: Act)
    requires Chars(u) && (a == Mask || (a.Text? && Valid(a.text)))
    ensures Chars(Write(Flush(u), a, false))
  {
    FlushChars(u);
    var f := Flush(u);
    if a == Mask {
      MaskChars(f);
    } else if !(f.glued && IsDigitWord(a)) {
      AppendChars(f, a.text, Copied(f, a, false).fuse, false);
    }
  }

  /** The automaton may move while it stays in its list, or leave it. */
  lemma ListChars(u: Draft, l: List)
    requires Chars(u) && (InList(l) ==> InList(u.list) && l.start == u.list.start)
    ensures Chars(u.(list := l))
  {
  }

  /** What the automaton may do: m is where it goes from k with action. */
  predicate Moves(k: List, m: List, a: Act, action: Action) {
    && m.start == k.start && m.n == k.n
    && match action
       case Keep => InList(m) ==> InList(k)
       case Open => a.Text? && !Joins(a)
       case _ => InList(k) && !InList(m)
  }

  lemma AdvanceMoves(k: List, a: Act, adjacent: bool)
    ensures var l := Settle(k, a, adjacent); Moves(k, Advance(l, a, adjacent), a, ActionOf(l, a))
  {
  }

  lemma StatementChars(u: Draft, a: Act)
    requires Chars(u) && (a == Mask || (a.Text? && Valid(a.text)))
    ensures Chars(PutInStatement(u, a, false))
  {
    var l := Settle(u.list, a, !u.space);
    var m := Advance(l, a, !u.space);
    AdvanceMoves(u.list, a, !u.space);
    match ActionOf(l, a)
    case Keep => KeepChars(u, m, a);
    case Open => OpenChars(u, m, a);
    case Collapse => CollapsedChars(u, m, a);
    case CollapseClose => CollapsedChars(u, m, a);
  }

  lemma KeepChars(u: Draft, m: List, a: Act)
    requires Chars(u) && Moves(u.list, m, a, Keep) && (a == Mask || (a.Text? && Valid(a.text)))
    ensures Chars(Write(Flush(u.(list := m)), a, false))
  {
    ListChars(u, m);
    WriteChars(u.(list := m), a);
  }

  lemma CollapsedChars(u: Draft, m: List, a: Act)
    requires Chars(u) && Moves(u.list, m, a, Collapse) && (a == Mask || (a.Text? && Valid(a.text)))
    ensures Chars(Collapsed(u.(list := m))) && Chars(Write(Flush(Collapsed(u.(list := m))), a, false))
  {
    CollapseChars(u);
    var c := Collapsed(u.(list := m));
    assert c == Collapsed(u).(list := u.list.(step := Outside)).(list := m);
    WriteChars(c, a);
  }

  lemma OpenChars(u: Draft, m: List, a: Act)
    requires Chars(u) && a.Text? && !Joins(a) && Valid(a.text)
    ensures Chars(Write(Opened(Flush(u.(list := m))), a, false))
  {
    FlushChars(u);
    var f := Flush(u);
    AppendChars(f, a.text, -1, false);
    Prefix(f.out, a.text, |f.out|);
    assert f.out[..|f.out|] == f.out;
  }

  lemma KeyChars(u: Draft)
    requires Chars(u)
    ensures Chars(PutKey(u))
  {
    FlushChars(u);
    AsciiIsValid([EQUALS]);
    AppendChars(Flush(u), [EQUALS], -1, Flush(u).glued);
    MaskChars(Flush(u).(out := Flush(u).out + [EQUALS], fuse := -1));
  }

  lemma MarkChars(u: Draft, words: bytes, named: bool)
    requires Chars(u) && AllAscii(words)
    ensures Chars(PutMark(u, words, named))
  {
    FlushChars(u);
    AsciiIsValid(words);
    AsciiIsValid([COLON]);
    AppendChars(Flush(u), words, -1, Flush(u).glued);
    var g := Flush(u).(out := Flush(u).out + words, fuse := -1);
    MaskChars(g);
    AppendChars(if named then Masked(g) else g, [COLON], -1, false);
  }

  lemma PlanChars(u: Draft)
    requires Chars(u)
    ensures Chars(PutPlan(u))
  {
    FlushChars(u);
    AsciiIsValid(Ascii("plan: "));
    AppendChars(Flush(u), Ascii("plan: "), Flush(u).fuse, Flush(u).glued);
  }

  lemma PutChars(u: Draft, a: Act)
    requires Chars(u) && CleanAct(a)
    ensures Chars(Put(u, a, false))
  {
    match a
    case Gap =>
    case Plan => PlanChars(u);
    case Key => KeyChars(u);
    case Mark(words, named) => MarkChars(u, words, named);
    case _ =>
      if u.stmt {
        StatementChars(u, a);
      } else {
        WriteChars(u, a);
      }
  }

  /** Past the limit a bounded draft holds only ASCII bytes: what follows the byte that a copy is cut at. */
  predicate AsciiPast(out: bytes) { forall i | LIMIT < i < |out| :: out[i] < 0x80 }

  lemma AppendPast(x: bytes, w: bytes)
    requires AsciiPast(x) && AllAscii(w)
    ensures AsciiPast(x + w)
  {
  }

  lemma FlushPast(d: Draft)
    requires AsciiPast(d.out)
    ensures AsciiPast(Flush(d).out)
  {
    AppendPast(d.out, [SPACE]);
  }

  lemma MaskPast(d: Draft)
    requires AsciiPast(d.out)
    ensures AsciiPast(Masked(d).out)
  {
    AppendPast(d.out, [SPACE]);
    AppendPast(Kept(d), Placeholder(d.n + 1));
  }

  lemma CollapsePast(d: Draft)
    requires AsciiPast(d.out)
    ensures AsciiPast(Collapsed(d).out)
  {
    AppendPast(d.out[..Min(d.list.start, |d.out|)], Dots());
  }

  lemma WritePast(d: Draft, a: Act)
    requires AsciiPast(d.out) && (a == Mask || a.Text?)
    ensures AsciiPast(Write(d, a, true).out)
  {
    if a == Mask {
      MaskPast(d);
    } else {
      assert AsciiPast(d.out + Fitting(d, a.text, true));
    }
  }

  lemma StatementPast(d: Draft, a: Act)
    requires AsciiPast(d.out) && (a == Mask || a.Text?)
    ensures AsciiPast(PutInStatement(d, a, true).out)
  {
    var l := Settle(d.list, a, !d.space);
    var e := d.(list := Advance(l, a, !d.space));
    FlushPast(e);
    match ActionOf(l, a)
    case Keep => WritePast(Flush(e), a);
    case Open => WritePast(Opened(Flush(e)), a);
    case Collapse =>
      CollapsePast(e);
      FlushPast(Collapsed(e));
      WritePast(Flush(Collapsed(e)), a);
    case CollapseClose => CollapsePast(e);
  }

  lemma PutPast(d: Draft, a: Act)
    requires AsciiPast(d.out) && CleanAct(a)
    ensures AsciiPast(Put(d, a, true).out)
  {
    FlushPast(d);
    var f := Flush(d);
    match a
    case Gap =>
    case Plan => AppendPast(f.out, Ascii("plan: "));
    case Key =>
      AppendPast(f.out, [EQUALS]);
      MaskPast(f.(out := f.out + [EQUALS], fuse := -1));
    case Mark(words, named) => MarkPast(f, words, named);
    case _ =>
      if d.stmt {
        StatementPast(d, a);
      } else {
        WritePast(f, a);
      }
  }

  lemma MarkPast(f: Draft, words: bytes, named: bool)
    requires AsciiPast(f.out) && AllAscii(words) && !f.space
    ensures AsciiPast(PutMark(f, words, named).out)
  {
    AppendPast(f.out, words);
    var g := f.(out := f.out + words, fuse := -1);
    MaskPast(g);
    AppendPast(if named then Masked(g).out else g.out, [COLON]);
  }

  /** The bounded draft b has an unbounded shadow of whole characters. */
  predicate Shadowed(b: Draft, u: Draft) { Tied(b, u) && Chars(u) && AsciiPast(b.out) }

  lemma PutShadowed(b: Draft, u: Draft, a: Act)
    requires Shadowed(b, u) && GoesOn(b, u) && CleanAct(a)
    ensures Shadowed(Put(b, a, true), Put(u, a, false))
  {
    PutTied(b, u, a);
    PutChars(u, a);
    PutPast(b, a);
  }

  lemma EndShadowed(b: Draft, u: Draft)
    requires Shadowed(b, u) && GoesOn(b, u) && InList(b.list)
    ensures Tied(Collapsed(b), Collapsed(u)) && Valid(Collapsed(u).out) && AsciiPast(Collapsed(b).out)
  {
    CollapseTied(b, u);
    CollapseChars(u);
    CollapsePast(b);
  }

  /** Every bounded run has an unbounded draft of whole characters that it differs from only past the limit. */
  lemma {:induction false} Shadow(s: Script, b: Draft, u: Draft) returns (e: Draft, v: Draft)
    requires Shadowed(b, u) && Clean(s)
    ensures e == Run(s, b, true)
    ensures Tied(e, v) && Valid(v.out) && AsciiPast(e.out)
    decreases s
  {
    if Stopped(b) {
      return b, u;
    }
    e, v := CutBack(b), u;
    CutBackTied(b, u);
    match s
    case Done =>
      if e.list.step == Closed {
        EndShadowed(e, u);
        e, v := Collapsed(e), Collapsed(u);
      }
    case Then(a, rest) =>
      PutShadowed(e, u, a);
      e, v := Put(e, a, true), Put(u, a, false);
      if a != Plan {
        e, v := Shadow(rest, e, v);
      }
  }

  /** The template of a valid UTF-8 message is valid UTF-8. */
  lemma TemplateIsValid(s: bytes, data: bool)
    requires Valid(s)
    ensures Valid(TemplateOf(s, data))
  {
    var r := ReadMessage(s, 0, START, data);
    FirstIsNoTail(s);
    MessageClean(s, 0, START, data);
    var d, v := Shadow(r, EMPTY, EMPTY);
    CutIsValid(d.out, v.out, d.plan);
  }

  lemma CutIsValid(out: bytes, whole: bytes, plan: bool)
    requires Valid(whole) && AsciiPast(out) && (out == whole || Near(out, whole))
    ensures Valid(CutTemplate(out, plan))
  {
    if |out| > LIMIT && !(EndsWithEllipsis(out) && |out| - 3 <= LIMIT) {
      KeptIsValid(out, whole);
      EndingIsValid(out[..KeptBefore(out)]);
    } else {
      if out != whole {
        EllipsisAtLimit(out, whole);
      }
      EndingIsValid(out);
    }
  }

  lemma EndingIsValid(x: bytes)
    requires Valid(x)
    ensures Valid(x + ELLIPSIS) && Valid(x + [SPACE] + ELLIPSIS)
  {
    assert Valid(ELLIPSIS) && Valid([SPACE]);
    ValidJoin(x, [SPACE]);
    ValidJoin(x + [SPACE], ELLIPSIS);
    ValidJoin(x, ELLIPSIS);
  }

  lemma KeptIsValid(out: bytes, whole: bytes)
    requires Valid(whole) && |out| > LIMIT && (out == whole || Near(out, whole))
    ensures Valid(out[..KeptBefore(out)])
  {
    var k := KeptBefore(out);
    CutIsWhole(out);
    assert out[..LIMIT + 1] == whole[..LIMIT + 1];
    assert out[..LIMIT + 1][..k] == out[..k] && whole[..LIMIT + 1][..k] == whole[..k];
    assert out[..LIMIT + 1][k] == out[k] && whole[..LIMIT + 1][k] == whole[k];
    FirstIsNoTail(whole);
    ValidCut(whole, k);
  }

  /** A text that ends with an ellipsis right past the limit, or ends within it, holds whole characters. */
  lemma EllipsisAtLimit(out: bytes, whole: bytes)
    requires Valid(whole) && AsciiPast(out) && Near(out, whole) && EndsWithEllipsis(out)
    ensures Valid(out)
  {
    var n := |out|;
    assert out[n - 3..][2] == out[n - 1] && out[n - 3..][0] == out[n - 3];
    assert n == LIMIT + 1 && out == whole[..n];
    EdgeBehind(whole, n);
    ValidCut(whole, n);
  }
}
