/**
 * The masker's loop. It appends the template to a buffer in place, and never needs more than 1,100
 * bytes of room behind base, however long the message is.
 */
module Appending {
  import opened Bytes
  import opened Tokenizer
  import opened Rules
  import opened Masking
  import opened Utf8
  import opened Cutting
  import Limits
  import ListGrammar
  import Numbers
  import Scanners
  import Templates

  /** The spare bytes that are always enough. */
  const ROOM: nat := 1100

  /** Everything in a draft but its bytes, which are in the buffer. */
  datatype Pen = Pen(n: nat, fuse: int, glued: bool, space: bool, stmt: bool, plan: bool, list: List) {
    function With(out: bytes): Draft { Draft(out, n, fuse, glued, space, stmt, plan, list) }
  }

  /**
   * The buffer holds the draft d in dst[base..len], behind the bytes pre. A run that starts one byte
   * past the draft is behind the space that the buffer still has there.
   */
  ghost predicate Holds(dst: array<byte>, pre: bytes, len: nat, p: Pen, d: Draft)
    reads dst
  {
    && p.With(d.out) == d
    && |pre| <= len <= dst.Length && len == |pre| + |d.out|
    && dst[..|pre|] == pre && dst[|pre|..len] == d.out
    && (d.fuse > |d.out| ==> d.fuse == |d.out| + 1 && len < dst.Length && dst[len] == SPACE)
  }

  // ----- Appending -----

  method Append(dst: array<byte>, base: nat, len: nat, b: bytes) returns (end: nat)
    requires base <= len && len + |b| <= dst.Length
    modifies dst
    ensures end == len + |b| && dst[..base] == old(dst[..base]) && dst[base..end] == old(dst[base..len]) + b
    ensures b == [] ==> dst[..] == old(dst[..])
  {
    forall i | 0 <= i < |b| {
      dst[len + i] := b[i];
    }
    end := len + |b|;
  }

  method FlushInto(dst: array<byte>, len: nat, p: Pen, ghost pre: bytes, ghost d: Draft) returns (end: nat, q: Pen)
    requires Holds(dst, pre, len, p, d) && len < dst.Length
    modifies dst
    ensures Holds(dst, pre, end, q, Flush(d)) && end <= len + 1
  {
    end, q := len, p;
    if p.space {
      dst[len] := SPACE;
      end, q := len + 1, p.(fuse := -1, glued := false, space := false);
    }
  }

  function Pow10(k: nat): nat { if k == 0 then 1 else 10 * Pow10(k - 1) }

  lemma DecimalIsShort(n: nat, k: nat)
    requires 0 < k && n < Pow10(k)
    ensures |Numbers.Decimal(n)| <= k
  {
    if n >= 10 {
      DecimalIsShort(n / 10, k - 1);
    }
  }

  /** How many placeholders a message can have: they are numbered in 63 bits. */
  const MOST: nat := 0x8000_0000_0000_0000

  lemma PlaceholderIsShort(n: nat)
    requires n < MOST
    ensures |Placeholder(n)| <= 20
  {
    assert Pow10(7) == 1_0000000;
    assert Pow10(13) == 1_0000000_000000;
    assert Pow10(19) == 1_0000000_000000_000000;
    DecimalIsShort(n, 19);
  }

  method MaskInto(dst: array<byte>, base: nat, len: nat, p: Pen, ghost pre: bytes, ghost d: Draft)
    returns (end: nat, q: Pen)
    requires Holds(dst, pre, len, p, d) && base == |pre| && len + 21 <= dst.Length && p.n + 1 < MOST
    modifies dst
    ensures Holds(dst, pre, end, q, Masked(d)) && end <= len + 21 && q.n == p.n + 1
  {
    PlaceholderIsShort(p.n + 1);
    var from := if p.fuse >= 0 then base + p.fuse else len;
    assert dst[base..from] == Kept(d);
    end := Append(dst, base, from, Placeholder(p.n + 1));
    q := p.(n := p.n + 1, fuse := -1, glued := true);
  }

  method CollapseInto(dst: array<byte>, base: nat, len: nat, p: Pen, ghost pre: bytes, ghost d: Draft)
    returns (end: nat, q: Pen)
    requires Holds(dst, pre, len, p, d) && base == |pre| && len + 5 <= dst.Length && d.list.start <= |d.out|
    modifies dst
    ensures Holds(dst, pre, end, q, Collapsed(d)) && end <= len + 5
  {
    assert dst[base..base + p.list.start] == d.out[..p.list.start];
    end := Append(dst, base, base + p.list.start, Dots());
    q := p.(n := p.list.n, fuse := -1, glued := false);
  }

  method CopyInto(dst: array<byte>, base: nat, len: nat, p: Pen, a: Act, ghost pre: bytes, ghost d: Draft)
    returns (end: nat, q: Pen)
    requires Holds(dst, pre, len, p, d) && base == |pre| && base + LIMIT + 1 <= dst.Length && a.Text?
    modifies dst
    ensures Holds(dst, pre, end, q, Copied(d, a, true)) && end <= Max(len, base + LIMIT + 1)
  {
    var fuse := p.fuse;
    if !Joins(a) {
      fuse := -1;
    } else if fuse < 0 {
      fuse := len - base;
    }
    var out := a.text;
    var room := base + LIMIT + 1 - len;
    if |out| > room {
      out := out[..Max(room, 0)];
    }
    assert out == Fitting(d, a.text, true);
    end := Append(dst, base, len, out);
    q := p.(fuse := fuse, glued := false);
  }

  // ----- One act -----

  method WriteInto(dst: array<byte>, base: nat, len: nat, p: Pen, a: Act, ghost pre: bytes, ghost d: Draft)
    returns (end: nat, q: Pen)
    requires Holds(dst, pre, len, p, d) && base == |pre| && base + LIMIT + 1 <= dst.Length && len + 21 <= dst.Length
    requires (a == Mask || a.Text?) && p.n + 1 < MOST
    modifies dst
    ensures Holds(dst, pre, end, q, Write(d, a, true)) && end <= Max(len + 21, base + LIMIT + 1) && q.n <= p.n + 1
  {
    end, q := len, p;
    if a == Mask {
      end, q := MaskInto(dst, base, len, p, pre, d);
    } else if !(p.glued && IsDigitWord(a)) {
      end, q := CopyInto(dst, base, len, p, a, pre, d);
    }
  }

  /** There is room for one more act. */
  ghost predicate Roomy(dst: array<byte>, base: nat, len: nat, p: Pen, pre: bytes, d: Draft)
    reads dst
  {
    && Holds(dst, pre, len, p, d) && base == |pre| && len <= base + LIMIT + 1 && base + ROOM <= dst.Length
    && p.n + 1 < MOST && d.list.start <= |d.out| && d.list.n <= d.n
  }

  method KeepInto(dst: array<byte>, base: nat, len: nat, p: Pen, a: Act, ghost pre: bytes, ghost d: Draft)
    returns (end: nat, q: Pen)
    requires Roomy(dst, base, len, p, pre, d) && (a == Mask || a.Text?)
    modifies dst
    ensures Holds(dst, pre, end, q, Write(Flush(d), a, true)) && end <= base + ROOM - 4 && q.n <= p.n + 1
  {
    end, q := FlushInto(dst, len, p, pre, d);
    end, q := WriteInto(dst, base, end, q, a, pre, Flush(d));
  }

  method OpenInto(dst: array<byte>, base: nat, len: nat, p: Pen, a: Act, ghost pre: bytes, ghost d: Draft)
    returns (end: nat, q: Pen)
    requires Roomy(dst, base, len, p, pre, d) && (a == Mask || a.Text?)
    modifies dst
    ensures Holds(dst, pre, end, q, Write(Opened(Flush(d)), a, true)) && end <= base + ROOM - 4 && q.n <= p.n + 1
  {
    end, q := FlushInto(dst, len, p, pre, d);
    q := q.(list := q.list.(start := end - base, n := q.n));
    end, q := WriteInto(dst, base, end, q, a, pre, Opened(Flush(d)));
  }

  method CollapseThenInto(dst: array<byte>, base: nat, len: nat, p: Pen, a: Act, ghost pre: bytes, ghost d: Draft)
    returns (end: nat, q: Pen)
    requires Roomy(dst, base, len, p, pre, d) && (a == Mask || a.Text?)
    modifies dst
    ensures Holds(dst, pre, end, q, Write(Flush(Collapsed(d)), a, true)) && end <= base + ROOM - 4 && q.n <= p.n + 1
  {
    end, q := CollapseInto(dst, base, len, p, pre, d);
    end, q := FlushInto(dst, end, q, pre, Collapsed(d));
    end, q := WriteInto(dst, base, end, q, a, pre, Flush(Collapsed(d)));
  }

  method PutTokenInto(dst: array<byte>, base: nat, len: nat, p: Pen, a: Act, ghost pre: bytes, ghost d: Draft)
    returns (end: nat, q: Pen, ghost e: Draft)
    requires Roomy(dst, base, len, p, pre, d) && (a == Mask || a.Text?)
    modifies dst
    ensures Holds(dst, pre, end, q, e) && end <= base + ROOM - 4 && q.n <= p.n + 1
    ensures e == PutInStatement(d, a, true)
  {
    var l := Settle(p.list, a, !p.space);
    var m := Advance(l, a, !p.space);
    ListIsKept(p.list, a, !p.space);
    var o := p.(list := m);
    e := d.(list := m);
    match ActionOf(l, a)
    case Keep =>
      end, q := KeepInto(dst, base, len, o, a, pre, e);
      e := Write(Flush(e), a, true);
    case Open =>
      end, q := OpenInto(dst, base, len, o, a, pre, e);
      e := Write(Opened(Flush(e)), a, true);
    case Collapse =>
      end, q := CollapseThenInto(dst, base, len, o, a, pre, e);
      e := Write(Flush(Collapsed(e)), a, true);
    case CollapseClose =>
      end, q := CollapseInto(dst, base, len, o, pre, e);
      q, e := q.(space := false), Collapsed(e).(space := false);
  }

  /** The automaton leaves the place and the number of its list alone. */
  lemma ListIsKept(l: List, a: Act, adjacent: bool)
    ensures var m := Advance(Settle(l, a, adjacent), a, adjacent); m.start == l.start && m.n == l.n
  {
  }

  method KeyInto(dst: array<byte>, base: nat, len: nat, p: Pen, ghost pre: bytes, ghost d: Draft) returns (end: nat, q: Pen)
    requires Roomy(dst, base, len, p, pre, d)
    modifies dst
    ensures Holds(dst, pre, end, q, PutKey(d)) && end <= base + ROOM - 4 && q.n <= p.n + 1
  {
    end, q := FlushInto(dst, len, p, pre, d);
    end := Append(dst, base, end, [EQUALS]);
    ghost var f := Flush(d);
    end, q := MaskInto(dst, base, end, q.(fuse := -1), pre, f.(out := f.out + [EQUALS], fuse := -1));
  }

  method MarkInto(dst: array<byte>, base: nat, len: nat, p: Pen, words: bytes, named: bool, ghost pre: bytes, ghost d: Draft)
    returns (end: nat, q: Pen)
    requires Roomy(dst, base, len, p, pre, d) && |words| <= 22
    modifies dst
    ensures Holds(dst, pre, end, q, PutMark(d, words, named)) && end <= base + ROOM - 4 && q.n <= p.n + 1
  {
    end, q := FlushInto(dst, len, p, pre, d);
    ghost var e := Flush(d);
    end := Append(dst, base, end, words);
    q, e := q.(fuse := -1), e.(out := e.out + words, fuse := -1);
    if named {
      end, q := MaskInto(dst, base, end, q, pre, e);
      e := Masked(e);
    }
    end := Append(dst, base, end, [COLON]);
    q := q.(fuse := -1, glued := false, stmt := true);
  }

  method PlanInto(dst: array<byte>, base: nat, len: nat, p: Pen, ghost pre: bytes, ghost d: Draft) returns (end: nat, q: Pen)
    requires Roomy(dst, base, len, p, pre, d)
    modifies dst
    ensures Holds(dst, pre, end, q, PutPlan(d)) && end <= base + ROOM - 4
  {
    end, q := FlushInto(dst, len, p, pre, d);
    end := Append(dst, base, end, Ascii("plan: "));
    q := q.(plan := true);
  }

  method PutInto(dst: array<byte>, base: nat, len: nat, p: Pen, a: Act, ghost pre: bytes, ghost d: Draft)
    returns (end: nat, q: Pen, ghost e: Draft)
    requires Roomy(dst, base, len, p, pre, d) && (a.Mark? ==> |a.words| <= 22)
    modifies dst
    ensures Holds(dst, pre, end, q, e) && end <= base + ROOM - 4 && q.n <= p.n + 1
    ensures e == Put(d, a, true)
  {
    match a
    case Gap =>
      end, q, e := len, p.(space := true), d.(space := true);
    case Key =>
      end, q := KeyInto(dst, base, len, p, pre, d);
      e := PutKey(d);
    case Mark(words, named) =>
      end, q := MarkInto(dst, base, len, p, words, named, pre, d);
      e := PutMark(d, words, named);
    case Plan =>
      end, q := PlanInto(dst, base, len, p, pre, d);
      e := PutPlan(d);
    case _ =>
      if p.stmt {
        end, q, e := PutTokenInto(dst, base, len, p, a, pre, d);
      } else {
        end, q := KeepInto(dst, base, len, p, a, pre, d);
        e := Write(Flush(d), a, true);
      }
  }

  // ----- Cutting back -----

  /**
   * The places that a draft remembers are inside it. Only a run of words that was copied when there
   * was no room left starts two past the limit, right behind a space.
   */
  predicate Steady(d: Draft) {
    && (d.fuse <= |d.out| || (d.fuse == LIMIT + 2 && |d.out| == LIMIT + 1))
    && (|d.out| > LIMIT + 1 && d.fuse > LIMIT + 1 && !Stopped(d) ==> d.fuse == LIMIT + 2 && d.out[LIMIT + 1] == SPACE)
    && d.list.start <= |d.out| && (d.fuse >= 0 ==> d.list.start <= d.fuse) && d.list.n <= d.n
  }

  lemma CutBackIsSteady(d: Draft)
    requires Steady(d) && !Stopped(d)
    ensures Steady(CutBack(d))
  {
  }

  lemma WriteIsSteady(d: Draft, a: Act)
    requires Steady(d) && |d.out| <= LIMIT + 1 && (a == Mask || a.Text?)
    ensures Steady(Write(Flush(d), a, true))
  {
  }

  lemma OpenIsSteady(d: Draft, a: Act)
    requires Steady(d) && |d.out| <= LIMIT + 1 && a.Text? && !Joins(a)
    ensures Steady(Write(Opened(Flush(d)), a, true))
  {
  }

  lemma CollapseIsSteady(d: Draft, a: Act)
    requires Steady(d) && |d.out| <= LIMIT + 1 && (a == Mask || a.Text?) && !ListGrammar.InList(d.list)
    ensures Steady(Collapsed(d)) && Steady(Write(Flush(Collapsed(d)), a, true))
  {
  }

  lemma StatementIsSteady(d: Draft, a: Act)
    requires Steady(d) && |d.out| <= LIMIT + 1 && (a == Mask || a.Text?)
    ensures Steady(PutInStatement(d, a, true))
  {
    var l := Settle(d.list, a, !d.space);
    var e := d.(list := Advance(l, a, !d.space));
    ListIsKept(d.list, a, !d.space);
    Templates.AdvanceMoves(d.list, a, !d.space);
    match ActionOf(l, a)
    case Keep => WriteIsSteady(e, a);
    case Open => OpenIsSteady(e, a);
    case Collapse => CollapseIsSteady(e, a);
    case CollapseClose => CollapseIsSteady(e, a);
  }

  lemma KeyIsSteady(d: Draft)
    requires Steady(d) && |d.out| <= LIMIT + 1
    ensures Steady(PutKey(d))
  {
  }

  lemma PutIsSteady(d: Draft, a: Act)
    requires Steady(d) && |d.out| <= LIMIT + 1 && a != Plan
    ensures Steady(Put(d, a, true))
  {
    match a
    case Gap =>
    case Key => KeyIsSteady(d);
    case Mark(words, named) =>
    case _ =>
      if d.stmt {
        StatementIsSteady(d, a);
      } else {
        WriteIsSteady(d, a);
      }
  }

  /**
   * Every place in the buffer that the rest of the script s goes back to is within cap, the length
   * that the template has had at most. A buffer that only ever grew to hold what was written is so
   * never sliced past its capacity, however much room it was given.
   */
  ghost predicate StaysInside(s: Script, d: Draft, cap: nat)
    decreases s
  {
    && |d.out| <= cap && d.fuse <= cap && d.list.start <= |d.out|
    && (s.Then? && s.act != Plan && !Stopped(d) ==>
          var e := Put(CutBack(d), s.act, true);
          StaysInside(s.rest, e, Max(cap, |e.out|)))
  }

  /** A run of words is only ever kept, or begun at the end of the template. */
  lemma RunIsKeptOrNew(d: Draft, a: Act)
    requires Steady(d) && |d.out| <= LIMIT + 1 && a != Plan
    ensures var e := Put(d, a, true); Steady(e) && e.fuse <= Max(Max(0, d.fuse), |e.out|)
  {
    PutIsSteady(d, a);
  }

  lemma {:induction false} RunStaysInside(s: Script, d: Draft, cap: nat)
    requires Steady(d) && |d.out| <= cap && d.fuse <= cap
    ensures StaysInside(s, d, cap)
    decreases s
  {
    if s.Then? && s.act != Plan && !Stopped(d) {
      var e := Put(CutBack(d), s.act, true);
      CutBackIsSteady(d);
      RunIsKeptOrNew(CutBack(d), s.act);
      RunStaysInside(s.rest, e, Max(cap, |e.out|));
    }
  }

  /** So it is for every message. */
  lemma MessageStaysInside(s: bytes, data: bool)
    ensures StaysInside(ReadMessage(s, 0, START, data), EMPTY, 0)
  {
    RunStaysInside(ReadMessage(s, 0, START, data), EMPTY, 0);
  }

  // ----- The cut -----

  /** dst holds out behind base. */
  ghost predicate Shows(dst: array<byte>, base: nat, len: nat, out: bytes)
    reads dst
  {
    base <= len <= dst.Length && dst[base..len] == out
  }

  method BackToChar(dst: array<byte>, base: nat, len: nat, from: nat, ghost out: bytes) returns (cut: nat)
    requires Shows(dst, base, len, out) && base <= from < len
    ensures cut == base + CharBack(out, from - base)
  {
    cut := from;
    assert forall k | 0 <= k < |out| :: dst[base + k] == out[k];
    while cut > base && IsTail(dst[cut])
      invariant base <= cut <= from && CharBack(out, cut - base) == CharBack(out, from - base)
    {
      assert dst[base + (cut - base)] == out[cut - base];
      cut := cut - 1;
    }
    assert dst[base + (cut - base)] == out[cut - base];
  }

  method BackToPlaceholder(dst: array<byte>, base: nat, len: nat, i: nat, split: bool, ghost out: bytes) returns (j: int)
    requires Shows(dst, base, len, out) && base <= i <= len
    ensures j == if PlaceholderBefore(out, i - base, split) < 0 then -1 else base + PlaceholderBefore(out, i - base, split)
  {
    var k := i;
    while k > base && IsDigit(dst[k - 1])
      invariant base <= k <= i && DigitsBack(out, k - base) == DigitsBack(out, i - base)
    {
      assert dst[base..len][k - 1 - base] == out[k - 1 - base];
      k := k - 1;
    }
    if k > base {
      assert dst[base..len][k - 1 - base] == out[k - 1 - base];
    }
    j := if (k < i || split) && k > base && dst[k - 1] == DOLLAR then k - 1 else -1;
  }

  method BackToWord(dst: array<byte>, base: nat, len: nat, from: nat, ghost out: bytes) returns (i: nat)
    requires Shows(dst, base, len, out) && base <= from <= len
    ensures i == base + TrimNonWord(out, from - base)
  {
    i := from;
    while i > base && !IsWordByte(dst[i - 1])
      invariant base <= i <= from && TrimNonWord(out, i - base) == TrimNonWord(out, from - base)
    {
      assert dst[base..len][i - 1 - base] == out[i - 1 - base];
      i := i - 1;
    }
    if i > base {
      assert dst[base..len][i - 1 - base] == out[i - 1 - base];
    }
  }

  method FindWhole(dst: array<byte>, base: nat, len: nat, ghost out: bytes) returns (cut: nat)
    requires Shows(dst, base, len, out) && |out| > LIMIT
    ensures cut == base + WholeBefore(out)
  {
    cut := BackToChar(dst, base, len, base + LIMIT, out);
    assert dst[base..len][cut - base] == out[cut - base];
    if IsDigit(dst[cut]) {
      var j := BackToPlaceholder(dst, base, len, cut, true, out);
      if j >= 0 {
        cut := j;
      }
    }
  }

  method FindCut(dst: array<byte>, base: nat, len: nat, ghost out: bytes) returns (cut: nat)
    requires Shows(dst, base, len, out) && |out| > LIMIT
    ensures cut == base + KeptBefore(out)
  {
    cut := FindWhole(dst, base, len, out);
    cut := BackToWord(dst, base, len, cut, out);
    var j := BackToPlaceholder(dst, base, len, cut, false, out);
    if j >= 0 && cut - base == LIMIT {
      cut := BackToWord(dst, base, len, j, out);
    }
  }

  method LengthToCut(dst: array<byte>, base: nat, len: nat, ghost out: bytes) returns (n: nat)
    requires Shows(dst, base, len, out)
    ensures n == if EndsWithEllipsis(out) then |out| - 3 else |out|
  {
    n := len - base;
    if n >= 3 {
      assert dst[len - 3..len] == out[|out| - 3..];
      if dst[len - 3..len] == ELLIPSIS {
        n := n - 3;
      }
    }
  }

  method EndAt(dst: array<byte>, base: nat, len: nat, cut: nat, ghost out: bytes) returns (end: nat, ghost t: bytes)
    requires Shows(dst, base, len, out) && base <= cut <= len && cut + 4 <= dst.Length
    modifies dst
    ensures var k := cut - base;
      t == if PlaceholderBefore(out, k, false) >= 0 then out[..k] + [SPACE] + ELLIPSIS else out[..k] + ELLIPSIS
    ensures Shows(dst, base, end, t) && dst[..base] == old(dst[..base])
  {
    t := out[..cut - base];
    assert dst[base..cut] == out[..cut - base];
    var j := BackToPlaceholder(dst, base, len, cut, false, out);
    end := cut;
    if j >= 0 {
      end := Append(dst, base, end, [SPACE]);
      t := t + [SPACE];
    }
    end := Append(dst, base, end, ELLIPSIS);
    t := t + ELLIPSIS;
  }

  /** The cut of a template that is past the limit. */
  method CutLong(dst: array<byte>, base: nat, len: nat, ghost plan: bool, ghost out: bytes) returns (end: nat)
    requires Shows(dst, base, len, out) && len + 4 <= dst.Length
    requires |out| > LIMIT && (EndsWithEllipsis(out) ==> |out| - 3 > LIMIT)
    modifies dst
    ensures Shows(dst, base, end, CutTemplate(out, plan)) && dst[..base] == old(dst[..base])
  {
    var cut := FindCut(dst, base, len, out);
    ghost var t;
    end, t := EndAt(dst, base, len, cut, out);
    LongIsCut(out, plan, t);
  }

  lemma LongIsCut(out: bytes, plan: bool, t: bytes)
    requires |out| > LIMIT && (EndsWithEllipsis(out) ==> |out| - 3 > LIMIT)
    requires var k := KeptBefore(out);
      t == if PlaceholderBefore(out, k, false) >= 0 then out[..k] + [SPACE] + ELLIPSIS else out[..k] + ELLIPSIS
    ensures t == CutTemplate(out, plan)
  {
  }

  method CutInto(dst: array<byte>, base: nat, len: nat, plan: bool, ghost out: bytes) returns (end: nat)
    requires Shows(dst, base, len, out) && len + 4 <= dst.Length
    modifies dst
    ensures Shows(dst, base, end, CutTemplate(out, plan)) && dst[..base] == old(dst[..base])
  {
    var n := LengthToCut(dst, base, len, out);
    end := len;
    if n > LIMIT {
      end := CutLong(dst, base, len, plan, out);
    } else if plan {
      end := Append(dst, base, len, ELLIPSIS);
    }
  }
}
