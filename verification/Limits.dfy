/** Stopping at the limit and cutting the draft back change nothing in a template that fits. */
module Limits {
  import opened Bytes
  import opened Tokenizer
  import opened Rules
  import opened Masking
  import opened ListGrammar

  /** Two texts past the limit that agree up to one byte past it. */
  predicate Near(x: bytes, y: bytes) { |x| > LIMIT && |y| > LIMIT && x[..LIMIT + 1] == y[..LIMIT + 1] }

  predicate SameSpot(i: int, j: int) { i == j || (i > LIMIT && j > LIMIT) }

  predicate SameFlags(b: Draft, u: Draft) {
    && b.n == u.n && b.glued == u.glued && b.space == u.space && b.stmt == u.stmt && b.plan == u.plan
    && u.list == b.list.(start := u.list.start)
  }

  predicate SamePlaces(b: Draft, u: Draft) { b.out == u.out && b.fuse == u.fuse && b.list.start == u.list.start }

  /** The bounded draft b and the unbounded draft u differ only past the limit. */
  predicate Tied(b: Draft, u: Draft) {
    && SameFlags(b, u) && u.fuse <= |u.out|
    && SameSpot(b.fuse, u.fuse) && SameSpot(b.list.start, u.list.start)
    && (SamePlaces(b, u) || Near(b.out, u.out))
  }

  /** The bounded draft does not stop. */
  predicate GoesOn(b: Draft, u: Draft) { Tied(b, u) && (SamePlaces(b, u) || b.list.start <= LIMIT) }

  // ----- One step of writing -----

  lemma FlushTied(b: Draft, u: Draft)
    requires Tied(b, u)
    ensures Tied(Flush(b), Flush(u)) && (GoesOn(b, u) ==> GoesOn(Flush(b), Flush(u)))
  {
  }

  lemma MaskTied(b: Draft, u: Draft)
    requires GoesOn(b, u)
    ensures Tied(Masked(b), Masked(u))
  {
    if Near(b.out, u.out) && 0 <= b.fuse <= LIMIT {
      assert b.out[..LIMIT + 1][..b.fuse] == b.out[..b.fuse];
      assert u.out[..LIMIT + 1][..b.fuse] == u.out[..b.fuse];
    }
  }

  lemma CopyTied(b: Draft, u: Draft, a: Act)
    requires Tied(b, u) && a.Text?
    ensures Tied(Copied(b, a, true), Copied(u, a, false))
  {
  }

  lemma CollapseTied(b: Draft, u: Draft)
    requires GoesOn(b, u)
    ensures Tied(Collapsed(b), Collapsed(u)) && SamePlaces(Collapsed(b), Collapsed(u))
  {
    if !SamePlaces(b, u) {
      var k := b.list.start;
      assert b.out[..LIMIT + 1][..k] == b.out[..k];
      assert u.out[..LIMIT + 1][..k] == u.out[..k];
    }
  }

  lemma WriteTied(b: Draft, u: Draft, a: Act)
    requires GoesOn(b, u) && (a == Mask || a.Text?)
    ensures Tied(Write(Flush(b), a, true), Write(Flush(u), a, false))
  {
    FlushTied(b, u);
    if a == Mask {
      MaskTied(Flush(b), Flush(u));
    } else {
      CopyTied(Flush(b), Flush(u), a);
    }
  }

  lemma OpenTied(b: Draft, u: Draft, a: Act)
    requires Tied(b, u) && a.Text?
    ensures Tied(Write(Opened(Flush(b)), a, true), Write(Opened(Flush(u)), a, false))
  {
    FlushTied(b, u);
    CopyTied(Opened(Flush(b)), Opened(Flush(u)), a);
  }

  /** The automaton does not look at where its list starts. */
  lemma SettleStart(l: List, k: nat, a: Act, adjacent: bool)
    ensures Settle(l.(start := k), a, adjacent) == Settle(l, a, adjacent).(start := k)
    ensures Settle(l, a, adjacent).start == l.start
  {
  }

  lemma RestartStart(l: List, k: nat, a: Act)
    ensures Restart(l.(start := k), a) == Restart(l, a).(start := k) && Restart(l, a).start == l.start
  {
  }

  lemma AdvanceStart(l: List, k: nat, a: Act, adjacent: bool)
    ensures Advance(l.(start := k), a, adjacent) == Advance(l, a, adjacent).(start := k)
    ensures Advance(l, a, adjacent).start == l.start && ActionOf(l.(start := k), a) == ActionOf(l, a)
  {
    RestartStart(l, k, a);
  }

  /** A token in a statement: the draft with the list moved on, and what is to be done with it. */
  lemma StatementParts(d: Draft, a: Act, bounded: bool) returns (e: Draft, action: Action)
    requires a == Mask || a.Text?
    ensures var l := Settle(d.list, a, !d.space);
      e == d.(list := Advance(l, a, !d.space)) && action == ActionOf(l, a) && (action == Open ==> a.Text?)
    ensures PutInStatement(d, a, bounded) ==
      match action
      case Keep => Write(Flush(e), a, bounded)
      case Open => Write(Opened(Flush(e)), a, bounded)
      case Collapse => Write(Flush(Collapsed(e)), a, bounded)
      case CollapseClose => Collapsed(e).(space := false)
  {
    var l := Settle(d.list, a, !d.space);
    e, action := d.(list := Advance(l, a, !d.space)), ActionOf(l, a);
  }

  /** The parts of two tied drafts are tied. */
  lemma PartsTied(b: Draft, u: Draft, a: Act)
    requires GoesOn(b, u)
    ensures var l, m := Settle(b.list, a, !b.space), Settle(u.list, a, !u.space);
      && ActionOf(l, a) == ActionOf(m, a)
      && GoesOn(b.(list := Advance(l, a, !b.space)), u.(list := Advance(m, a, !u.space)))
  {
    SettleStart(b.list, u.list.start, a, !b.space);
    AdvanceStart(Settle(b.list, a, !b.space), u.list.start, a, !b.space);
  }

  lemma StatementTied(b: Draft, u: Draft, a: Act)
    requires GoesOn(b, u) && (a == Mask || a.Text?)
    ensures Tied(PutInStatement(b, a, true), PutInStatement(u, a, false))
  {
    var e, action := StatementParts(b, a, true);
    var v, same := StatementParts(u, a, false);
    PartsTied(b, u, a);
    ActTied(e, v, a, action);
  }

  lemma ActTied(b: Draft, u: Draft, a: Act, action: Action)
    requires GoesOn(b, u) && (a == Mask || a.Text?) && (action == Open ==> a.Text?)
    ensures Tied(
      match action
      case Keep => Write(Flush(b), a, true)
      case Open => Write(Opened(Flush(b)), a, true)
      case Collapse => Write(Flush(Collapsed(b)), a, true)
      case CollapseClose => Collapsed(b).(space := false),
      match action
      case Keep => Write(Flush(u), a, false)
      case Open => Write(Opened(Flush(u)), a, false)
      case Collapse => Write(Flush(Collapsed(u)), a, false)
      case CollapseClose => Collapsed(u).(space := false))
  {
    match action
    case Keep => WriteTied(b, u, a);
    case Open => OpenTied(b, u, a);
    case Collapse =>
      CollapseTied(b, u);
      WriteTied(Collapsed(b), Collapsed(u), a);
    case CollapseClose => CollapseTied(b, u);
  }

  lemma AppendTied(b: Draft, u: Draft, w: bytes)
    requires GoesOn(b, u)
    ensures GoesOn(b.(out := b.out + w, fuse := -1), u.(out := u.out + w, fuse := -1))
  {
  }

  lemma KeyTied(b: Draft, u: Draft)
    requires GoesOn(b, u)
    ensures Tied(PutKey(b), PutKey(u))
  {
    FlushTied(b, u);
    var f, g := Flush(b), Flush(u);
    AppendTied(f, g, [EQUALS]);
    MaskTied(f.(out := f.out + [EQUALS], fuse := -1), g.(out := g.out + [EQUALS], fuse := -1));
  }

  lemma ColonTied(b: Draft, u: Draft)
    requires Tied(b, u)
    ensures Tied(b.(out := b.out + [COLON], fuse := -1, glued := false, stmt := true),
                 u.(out := u.out + [COLON], fuse := -1, glued := false, stmt := true))
  {
  }

  lemma MarkTied(b: Draft, u: Draft, words: bytes, named: bool)
    requires GoesOn(b, u)
    ensures Tied(PutMark(b, words, named), PutMark(u, words, named))
  {
    FlushTied(b, u);
    AppendTied(Flush(b), Flush(u), words);
    var f := Flush(b).(out := Flush(b).out + words, fuse := -1);
    var g := Flush(u).(out := Flush(u).out + words, fuse := -1);
    if named {
      MaskTied(f, g);
      ColonTied(Masked(f), Masked(g));
    } else {
      ColonTied(f, g);
    }
  }

  lemma PutTied(b: Draft, u: Draft, a: Act)
    requires GoesOn(b, u)
    ensures Tied(Put(b, a, true), Put(u, a, false))
  {
    match a
    case Gap =>
    case Plan => FlushTied(b, u);
    case Key => KeyTied(b, u);
    case Mark(words, named) => MarkTied(b, u, words, named);
    case _ =>
      if b.stmt {
        StatementTied(b, u, a);
      } else {
        WriteTied(b, u, a);
      }
  }

  // ----- Whole scripts -----

  lemma CutBackTied(b: Draft, u: Draft)
    requires Tied(b, u) && !Stopped(b)
    ensures GoesOn(CutBack(b), u)
  {
    if |b.out| > LIMIT {
      assert b.out[..LIMIT + 1][..LIMIT + 1] == b.out[..LIMIT + 1];
    }
  }

  /** A draft that ends within the limit was never cut: it is the draft written without a limit. */
  lemma {:induction false} FittingIsUnbounded(s: Script, b: Draft, u: Draft)
    requires Tied(b, u) && |Run(s, b, true).out| <= LIMIT
    ensures Run(s, b, true).out == Run(s, u, false).out && Run(s, b, true).plan == Run(s, u, false).plan
    decreases s
  {
    var e := CutBack(b);
    CutBackTied(b, u);
    match s
    case Done =>
      if e.list.step == Closed {
        CollapseTied(e, u);
      }
    case Then(a, rest) =>
      PutTied(e, u, a);
      if a != Plan {
        FittingIsUnbounded(rest, Put(e, a, true), Put(u, a, false));
      }
  }
}
