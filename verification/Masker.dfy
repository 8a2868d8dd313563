/** The masker's loop, from a message to the template it appends. */
module Masker {
  import opened Bytes
  import opened Tokenizer
  import opened Rules
  import opened Masking
  import opened Reading
  import opened Appending
  import opened Templates

  /** What reading carries is what the draft shows. */
  predicate InStep(c: Context, d: Draft) {
    && (c.first <==> d.out == []) && c.gap == d.space && c.glued == d.glued && (d.out == [] ==> !d.glued && !d.space)
    && d.list.step == Outside && !d.plan
  }

  lemma MoveInStep(c: Context, d: Draft, l: Look, e: Context)
    requires InStep(c, d) && Moved(c, l, e) && |d.out| <= LIMIT && !d.stmt
    requires l.Found? && l.act != Plan && !l.act.Mark?
    ensures var f := Put(d, l.act, true); InStep(e, f) && !f.stmt
  {
  }

  /** Every act leaves something in the draft, and only a plan ends it. */
  lemma StatementStays(d: Draft, a: Act)
    requires d.stmt && (a == Gap || a == Mask || a.Text?)
    ensures Put(d, a, true).stmt && Put(d, a, true).plan == d.plan
  {
  }

  lemma MessagePlan(d: Draft, a: Act)
    requires !d.stmt && a != Plan
    ensures Put(d, a, true).plan == d.plan && (Put(d, a, true).stmt <==> a.Mark?)
  {
  }

  /** The draft d of s[..pos]: running the rest of the script on it gives the draft of the whole message. */
  ghost predicate OnTrack(d: Draft, s: bytes, pos: nat, c: Context, data: bool) {
    && pos <= |s| && d.n <= pos && Steady(d) && !d.plan && (d.stmt || InStep(c, d))
    && Run(Rest(s, pos, d.stmt, c, data), d, true) == Drafted(s, data)
  }

  /** One look at the message from a draft that has room. */
  method LookAhead(s: bytes, pos: nat, stmt: bool, c: Context, data: bool) returns (l: Look, next: nat, e: Context)
    requires pos <= |s|
    ensures next <= |s|
    ensures Looked(s, pos, next, l, Rest(s, pos, stmt, c, data), Rest(s, next, stmt || (l.Found? && l.act.Mark?), e, data))
    ensures if stmt then l != Blanks && (l.Found? ==> l.act == Gap || l.act == Mask || l.act.Text?) else Moved(c, l, e)
  {
    e := c;
    if stmt {
      l, next := LookInStatement(s, pos);
    } else {
      l, next, e := LookInMessage(s, pos, c, data);
    }
  }

  /** Running a script one act at a time. */
  lemma RunAct(s: Script, d: Draft, a: Act, rest: Script)
    requires !Stopped(d) && s == Then(a, rest)
    ensures Run(s, d, true) == if a == Plan then Put(CutBack(d), Plan, true) else Run(rest, Put(CutBack(d), a, true), true)
  {
  }

  method CutBackInto(dst: array<byte>, base: nat, len: nat, p: Pen, ghost pre: bytes, ghost d: Draft)
    returns (end: nat, ghost e: Draft)
    requires Holds(dst, pre, len, p, d) && base == |pre| && Steady(d) && !Stopped(d)
    ensures Holds(dst, pre, end, p, e) && end <= base + LIMIT + 1 && Steady(e) && e == CutBack(d)
  {
    end, e := len, d;
    if len - base > LIMIT {
      end, e := base + LIMIT + 1, CutBack(d);
      CutBackIsSteady(d);
      assert dst[base..end] == dst[base..len][..LIMIT + 1];
    }
  }

  /** The draft stays in step with what reading carries. */
  lemma PutInStep(c: Context, d: Draft, l: Look, e: Context)
    requires l.Found? && l.act != Plan && !d.plan && |d.out| <= LIMIT + 1
    requires if d.stmt then l.act == Gap || l.act == Mask || l.act.Text? else InStep(c, d) && Moved(c, l, e) && |d.out| <= LIMIT
    ensures var f := Put(d, l.act, true); !f.plan && (f.stmt <==> d.stmt || l.act.Mark?) && (f.stmt || InStep(e, f))
  {
    if d.stmt {
      StatementStays(d, l.act);
    } else {
      MessagePlan(d, l.act);
      if !l.act.Mark? {
        MoveInStep(c, d, l, e);
      }
    }
  }

  /** The end of the message: a VALUES list that is closed collapses. */
  method FinishInto(dst: array<byte>, base: nat, len: nat, p: Pen, ghost pre: bytes, ghost d: Draft)
    returns (end: nat, ghost e: Draft)
    requires Holds(dst, pre, len, p, d) && base == |pre| && Steady(d) && len <= base + LIMIT + 1 && base + ROOM <= dst.Length
    modifies dst
    ensures dst[..base] == pre && base <= end <= base + ROOM - 4 && end <= dst.Length && dst[base..end] == e.out
    ensures e == if d.list.step == Closed then Collapsed(d) else d
  {
    end, e := len, d;
    if p.list.step == Closed {
      var q: Pen;
      end, q := CollapseInto(dst, base, len, p, pre, d);
      e := Collapsed(d);
    }
  }

  /** What an act found at pos makes of the draft: it stays on track, or a plan ends it. */
  lemma PutOnTrack(d: Draft, s: bytes, pos: nat, c: Context, data: bool, l: Look, next: nat, e: Context)
    requires OnTrack(d, s, pos, c, data) && !Stopped(d) && l.Found? && next <= |s|
    requires Looked(s, pos, next, l, Rest(s, pos, d.stmt, c, data), Rest(s, next, d.stmt || l.act.Mark?, e, data))
    requires if d.stmt then l.act == Gap || l.act == Mask || l.act.Text? else Moved(c, l, e)
    requires Put(CutBack(d), l.act, true).n <= d.n + 1
    ensures var f := Put(CutBack(d), l.act, true); if l.act == Plan then f == Drafted(s, data) else OnTrack(f, s, next, e, data)
  {
    var rest := if l.act == Plan then Done else Rest(s, next, d.stmt || l.act.Mark?, e, data);
    RunAct(Rest(s, pos, d.stmt, c, data), d, l.act, rest);
    if l.act != Plan {
      CutBackIsSteady(d);
      PutIsSteady(CutBack(d), l.act);
      PutInStep(c, CutBack(d), l, e);
    }
  }

  /** White space at the start of the message leaves the draft as it is. */
  lemma BlankOnTrack(d: Draft, s: bytes, pos: nat, c: Context, data: bool, next: nat, e: Context)
    requires OnTrack(d, s, pos, c, data) && !d.stmt && pos < next <= |s| && Moved(c, Blanks, e)
    requires Rest(s, pos, false, c, data) == Rest(s, next, false, e, data)
    ensures OnTrack(d, s, next, e, data) && CutBack(d) == d
  {
  }

  lemma EndOnTrack(d: Draft, s: bytes, c: Context, data: bool)
    requires OnTrack(d, s, |s|, c, data) && !Stopped(d) && Rest(s, |s|, d.stmt, c, data) == Done
    ensures Drafted(s, data) == if d.list.step == Closed then Collapsed(CutBack(d)) else CutBack(d)
  {
  }

  method ActInto(dst: array<byte>, base: nat, len: nat, p: Pen, a: Act, ghost pre: bytes, ghost d: Draft)
    returns (end: nat, q: Pen, ghost f: Draft)
    requires Holds(dst, pre, len, p, CutBack(d)) && base == |pre| && len <= base + LIMIT + 1 && base + ROOM <= dst.Length
    requires p.n + 1 < MOST && Steady(CutBack(d)) && (a.Mark? ==> |a.words| <= 22)
    modifies dst
    ensures Holds(dst, pre, end, q, f) && end <= base + ROOM - 4 && q.n <= p.n + 1 && f == Put(CutBack(d), a, true)
  {
    end, q, f := PutInto(dst, base, len, p, a, pre, CutBack(d));
  }

  /** One turn of the loop: more says that there is another. */
  method Turn(dst: array<byte>, base: nat, len: nat, p: Pen, s: bytes, pos: nat, c: Context, data: bool,
              ghost pre: bytes, ghost d: Draft)
    returns (more: bool, end: nat, q: Pen, next: nat, e: Context, ghost f: Draft)
    requires Holds(dst, pre, len, p, d) && base == |pre| && base + ROOM <= dst.Length && |s| + 1 < MOST
    requires OnTrack(d, s, pos, c, data) && !Stopped(d)
    modifies dst
    ensures dst[..base] == pre && base <= end <= base + ROOM - 4 && end <= dst.Length && dst[base..end] == f.out && q.plan == f.plan
    ensures if more then pos < next && Holds(dst, pre, end, q, f) && OnTrack(f, s, next, e, data) else f == Drafted(s, data)
  {
    q, more := p, true;
    end, f := CutBackInto(dst, base, len, p, pre, d);
    var l: Look;
    l, next, e := LookAhead(s, pos, p.stmt, c.(first := end == base, gap := p.space, glued := p.glued), data);
    match l
    case Blanks => BlankOnTrack(d, s, pos, c, data, next, e);
    case End =>
      more := false;
      EndOnTrack(d, s, c, data);
      end, f := FinishInto(dst, base, end, p, pre, f);
    case Found(a) =>
      end, q, f := ActInto(dst, base, end, p, a, pre, d);
      PutOnTrack(d, s, pos, c, data, l, next, e);
      more := a != Plan;
  }

  lemma StoppedOnTrack(d: Draft, s: bytes, pos: nat, c: Context, data: bool)
    requires OnTrack(d, s, pos, c, data) && Stopped(d)
    ensures d == Drafted(s, data)
  {
  }

  lemma StartOnTrack(s: bytes, data: bool)
    ensures OnTrack(EMPTY, s, 0, START, data)
  {
  }

  /** The loop: it leaves the draft of the whole message behind base. */
  method DraftInto(dst: array<byte>, base: nat, s: bytes, data: bool) returns (len: nat, plan: bool)
    requires base + ROOM <= dst.Length && |s| + 1 < MOST
    modifies dst
    ensures dst[..base] == old(dst[..base]) && base <= len <= base + ROOM - 4 && dst[base..len] == Drafted(s, data).out
    ensures plan == Drafted(s, data).plan
  {
    var p := Pen(0, -1, false, false, false, false, NO_LIST);
    var pos, c, more := 0, START, true;
    len := base;
    ghost var pre, d := dst[..base], EMPTY;
    StartOnTrack(s, data);
    while more
      invariant dst[..base] == pre && base <= len <= base + ROOM - 4 && dst[base..len] == d.out && p.plan == d.plan
      invariant if more then Holds(dst, pre, len, p, d) && OnTrack(d, s, pos, c, data) else d == Drafted(s, data)
      decreases if more then |s| + 1 - pos else 0
    {
      if len - base > LIMIT && !(p.list.step in {Elem, Sep, Closed, Next, Fuse} && p.list.start <= LIMIT) {
        StoppedOnTrack(d, s, pos, c, data);
        more := false;
      } else {
        more, len, p, pos, c, d := Turn(dst, base, len, p, s, pos, c, data, pre, d);
      }
    }
    plan := p.plan;
  }

  /**
   * The template of msg, appended to dst[..base] in place. At most 1,027 bytes are added, the bytes
   * before base stay, and 1,100 bytes of room are enough for a message of any length.
   */
  method AppendInPlace(dst: array<byte>, base: nat, msg: bytes, sqlState: bytes) returns (len: nat)
    requires base + ROOM <= dst.Length && |sqlState| == 5 && |msg| + 1 < MOST
    modifies dst
    ensures base <= len <= base + 1027 && dst[..base] == old(dst[..base])
    ensures dst[base..len] == TemplateOf(msg, IsDataClass(sqlState))
  {
    var plan;
    len, plan := DraftInto(dst, base, msg, IsDataClass(sqlState));
    len := CutInto(dst, base, len, plan, Drafted(msg, IsDataClass(sqlState)).out);
    TemplateIsShort(msg, IsDataClass(sqlState));
  }

  /** A buffer with room behind base: dst itself when it has it. */
  method Grown(dst: array<byte>, base: nat) returns (out: array<byte>)
    requires base <= dst.Length
    ensures out.Length >= base + ROOM && out[..base] == dst[..base]
    ensures if base + ROOM <= dst.Length then out == dst else fresh(out)
  {
    if base + ROOM <= dst.Length {
      return dst;
    }
    out := new byte[base + ROOM];
    forall i | 0 <= i < base {
      out[i] := dst[i];
    }
  }

  /**
   * The template of msg, appended to dst[..base]: in dst when it has 1,100 bytes of room, in a larger
   * buffer that starts with the same bytes when it has not.
   */
  method AppendTemplate(dst: array<byte>, base: nat, msg: bytes, sqlState: bytes) returns (out: array<byte>, len: nat)
    requires base <= dst.Length && |sqlState| == 5 && |msg| + 1 < MOST
    modifies dst
    ensures if base + ROOM <= dst.Length then out == dst else fresh(out)
    ensures base <= len <= base + 1027 && len <= out.Length && out[..base] == old(dst[..base]) && dst[..base] == old(dst[..base])
    ensures out[base..len] == TemplateOf(msg, IsDataClass(sqlState))
  {
    out := Grown(dst, base);
    len := AppendInPlace(out, base, msg, sqlState);
  }
}
