/**
 * Repositioning inside a stderr log. The framer and the resynchronisation ask the same question
 * of a line, whether it continues a record; this is exactly when the two agree about a file.
 */
module StderrSeeking {
  import opened Bytes
  import opened Framing
  import opened Stream
  import opened Records
  import opened Seeking
  import opened TextLines

  /** A stderr file: framed, and resynchronised, by one test of a line. */
  ghost predicate IsStderr(log: Log, tail: bool, continues: bytes -> bool, starts: bytes -> bool) {
    && log.Valid() && log.max > 1 && AreCuts(log.cuts, Stderr(tail, continues), log.stream, log.max)
    && !continues([]) && forall line :: starts(line) == !continues(line)
  }

  /** The line at p, if there is one, continues no record. */
  predicate Opens(continues: bytes -> bool, stream: bytes, p: nat) {
    p < |stream| && LineText(stream, p) != [] ==> !continues(LineText(stream, p))
  }

  /** All lines from one that starts at p up to one that starts at to continue a record. */
  predicate AllContinue(continues: bytes -> bool, stream: bytes, p: nat, to: nat)
    requires p <= |stream|
    decreases |stream| - p
  {
    p >= to || p == |stream| || (continues(LineText(stream, p)) && AllContinue(continues, stream, LineEnd(stream, p), to))
  }

  /** All lines from one that starts at p on that end, with their newline, before to continue a record. */
  predicate WholeContinue(continues: bytes -> bool, stream: bytes, p: nat, to: nat)
    requires p <= |stream|
    decreases |stream| - p
  {
    var nl := if p < |stream| then IndexFrom(stream, LF, p) else -1;
    0 <= nl < to ==> continues(LineText(stream, p)) && WholeContinue(continues, stream, nl + 1, to)
  }

  // ----- What the framer decides -----

  lemma LineIn(stream: bytes, p: nat, n: nat, w: bytes, pos: nat)
    requires p + n <= |stream| && w == stream[p..p + n] && pos < n
    ensures var i, q := IndexFrom(w, LF, pos), p + pos;
      && (i >= 0 ==> LineEnd(stream, q) == p + i + 1 && LineText(stream, q) == TrimCR(w[pos..i]) && IndexFrom(stream, LF, q) == p + i)
      && (i < 0 && p + n == |stream| ==> LineEnd(stream, q) == |stream| && LineText(stream, q) == TrimCR(w[pos..n]))
      && (i < 0 ==> !(0 <= IndexFrom(stream, LF, q) < p + n))
  {
    WindowFrom(stream, p, n, w, pos);
    if p + n == |stream| {
      RestOf(stream, p, w, pos);
    }
  }

  lemma RestOf(stream: bytes, p: nat, w: bytes, pos: nat)
    requires p <= |stream| && w == stream[p..] && pos <= |w|
    ensures w[pos..] == stream[p + pos..] && w[pos..|w|] == w[pos..]
  {
  }

  lemma AllStep(continues: bytes -> bool, stream: bytes, q: nat, to: nat)
    requires q < |stream| && continues(LineText(stream, q)) && AllContinue(continues, stream, LineEnd(stream, q), to)
    ensures AllContinue(continues, stream, q, to)
  {
  }

  lemma WholeStep(continues: bytes -> bool, stream: bytes, q: nat, to: nat)
    requires q < |stream| && continues(LineText(stream, q)) && WholeContinue(continues, stream, LineEnd(stream, q), to)
    ensures WholeContinue(continues, stream, q, to)
  {
  }

  /** What the extent of a record, as far as a window of n bytes at p shows it, says about the lines from q on. */
  ghost predicate Says(continues: bytes -> bool, stream: bytes, p: nat, n: nat, q: nat, e: Extent)
    requires p <= q <= p + n <= |stream|
  {
    if e.Extent?
    then
      && q <= p + e.next <= p + n && AllContinue(continues, stream, q, p + e.next)
      && (p + e.next < |stream| ==> !continues(LineText(stream, p + e.next)))
    else WholeContinue(continues, stream, q, p + n)
  }

  lemma SaysMore(continues: bytes -> bool, stream: bytes, p: nat, n: nat, q: nat, next: nat, e: Extent)
    requires p <= q < next <= p + n <= |stream| && LineEnd(stream, q) == next && continues(LineText(stream, q))
    requires Says(continues, stream, p, n, next, e)
    ensures Says(continues, stream, p, n, q, e)
  {
    if e.Extent? {
      AllStep(continues, stream, q, p + e.next);
    } else {
      WholeStep(continues, stream, q, p + n);
    }
  }

  lemma SaysLast(continues: bytes -> bool, stream: bytes, p: nat, n: nat, w: bytes, pos: nat, recEnd: nat, atEOF: bool)
    requires p + n <= |stream| && w == stream[p..p + n] && recEnd < pos <= n && w[pos - 1] == LF
    requires (atEOF ==> p + n == |stream|) && IndexFrom(w, LF, pos) < 0
    ensures Says(continues, stream, p, n, p + pos, Absorb(continues, w, pos, recEnd, atEOF))
  {
    if pos < n {
      LineIn(stream, p, n, w, pos);
      AbsorbLast(continues, w, pos, recEnd, atEOF);
    }
  }

  /** What the search for the end of a record says about the lines of the stream. */
  lemma {:induction false} AbsorbSays(continues: bytes -> bool, stream: bytes, p: nat, n: nat, w: bytes, q: nat, pos: nat, recEnd: nat, atEOF: bool)
    requires p + n <= |stream| && w == stream[p..p + n] && recEnd < pos <= n && w[pos - 1] == LF && q == p + pos
    requires atEOF ==> p + n == |stream|
    ensures Says(continues, stream, p, n, q, Absorb(continues, w, pos, recEnd, atEOF))
    decreases n - pos, 0
  {
    var i := IndexFrom(w, LF, pos);
    if i < 0 {
      SaysLast(continues, stream, p, n, w, pos, recEnd, atEOF);
    } else {
      AbsorbLine(continues, w, pos, recEnd, atEOF, i);
      LineIn(stream, p, n, w, pos);
      if continues(LineText(stream, q)) {
        AbsorbSaysNext(continues, stream, p, n, w, q, p + i + 1, i, atEOF);
      }
    }
  }

  lemma {:induction false} AbsorbSaysNext(continues: bytes -> bool, stream: bytes, p: nat, n: nat, w: bytes, q: nat, next: nat, i: nat, atEOF: bool)
    requires p + n <= |stream| && w == stream[p..p + n] && i < n && w[i] == LF && p <= q < next == p + i + 1
    requires (atEOF ==> p + n == |stream|) && LineEnd(stream, q) == next && continues(LineText(stream, q))
    ensures Says(continues, stream, p, n, q, Absorb(continues, w, i + 1, i, atEOF))
    decreases n - (i + 1), 1
  {
    AbsorbSays(continues, stream, p, n, w, next, i + 1, i, atEOF);
    SaysMore(continues, stream, p, n, q, next, Absorb(continues, w, i + 1, i, atEOF));
  }

  /** What one move of a scan goes over. */
  ghost predicate MoveSays(log: Log, continues: bytes -> bool, p: nat)
    requires log.Valid() && p < |log.stream|
  {
    var next := MoveAt(log, p).next;
    if log.cuts[p].advance == 0 then
      && p + log.max <= next && (next < |log.stream| ==> IndexFrom(log.stream, LF, p + log.max) == next - 1)
      && (0 <= IndexFrom(log.stream, LF, p) < p + log.max ==> LineText(log.stream, p) != [])
      && WholeContinue(continues, log.stream, LineEnd(log.stream, p), p + log.max)
    else if LineText(log.stream, p) == [] then next == LineEnd(log.stream, p)
    else
      && LineEnd(log.stream, p) <= next && AllContinue(continues, log.stream, LineEnd(log.stream, p), next)
      && (next < |log.stream| ==> !continues(LineText(log.stream, next)))
  }

  lemma Undecides(log: Log, continues: bytes -> bool, p: nat)
    requires log.Valid() && p < |log.stream| && log.cuts[p].advance == 0
    requires 0 <= IndexFrom(log.stream, LF, p) < p + log.max ==> LineText(log.stream, p) != []
    requires WholeContinue(continues, log.stream, LineEnd(log.stream, p), p + log.max)
    ensures MoveSays(log, continues, p)
  {
  }

  lemma LongLine(stream: bytes, p: nat, to: nat, continues: bytes -> bool)
    requires p < |stream| && !(0 <= IndexFrom(stream, LF, p) < to)
    ensures WholeContinue(continues, stream, LineEnd(stream, p), to)
  {
  }

  /** Log, position and window of one decision of the stderr framer. */
  ghost predicate Decides(log: Log, tail: bool, continues: bytes -> bool, p: nat, n: nat, w: bytes, atEOF: bool)
    requires log.Valid() && p < |log.stream|
  {
    && 0 < n && p + n <= |log.stream| && w == log.stream[p..p + n] && (atEOF <==> |log.stream| - p < log.max)
    && n == (if atEOF then |log.stream| - p else log.max)
    && log.cuts[p] == SplitStderr(w, IndexFrom(w, LF, 0), atEOF, tail, continues)
  }

  lemma FirstLineMove(log: Log, tail: bool, continues: bytes -> bool, p: nat, n: nat, w: bytes, atEOF: bool)
    requires log.Valid() && p < |log.stream| && Decides(log, tail, continues, p, n, w, atEOF) && IndexFrom(w, LF, 0) < 0
    ensures MoveSays(log, continues, p)
  {
    LineIn(log.stream, p, n, w, 0);
    if !atEOF {
      LongLine(log.stream, p, p + log.max, continues);
      Undecides(log, continues, p);
    }
  }

  lemma RecordMove(log: Log, tail: bool, continues: bytes -> bool, p: nat, n: nat, w: bytes, atEOF: bool)
    requires log.Valid() && p < |log.stream| && Decides(log, tail, continues, p, n, w, atEOF) && IndexFrom(w, LF, 0) >= 0
    ensures MoveSays(log, continues, p)
  {
    var nl := IndexFrom(w, LF, 0);
    LineIn(log.stream, p, n, w, 0);
    StderrCut(w, nl, atEOF, tail, continues);
    assert w[0..nl] == w[..nl];
    if TrimCR(w[..nl]) != [] {
      LinesMove(log, continues, p, n, w, nl, atEOF);
    }
  }

  /** The move over a record whose first line ends at nl in the window. */
  lemma LinesMove(log: Log, continues: bytes -> bool, p: nat, n: nat, w: bytes, nl: nat, atEOF: bool)
    requires log.Valid() && p < |log.stream| && nl < n && p + n <= |log.stream| && w == log.stream[p..p + n] && w[nl] == LF
    requires LineEnd(log.stream, p) == p + nl + 1 && LineText(log.stream, p) != []
    requires n == (if atEOF then |log.stream| - p else log.max)
    requires var e := Absorb(continues, w, nl + 1, nl, atEOF); log.cuts[p].advance == if e.Open? then 0 else e.next
    ensures MoveSays(log, continues, p)
  {
    AbsorbSays(continues, log.stream, p, n, w, LineEnd(log.stream, p), nl + 1, nl, atEOF);
    if atEOF {
      AbsorbDecides(continues, w, nl + 1, nl);
    }
    ExtentMove(log, continues, p, n, Absorb(continues, w, nl + 1, nl, atEOF));
  }

  lemma ExtentMove(log: Log, continues: bytes -> bool, p: nat, n: nat, e: Extent)
    requires log.Valid() && p < |log.stream| && LineEnd(log.stream, p) <= p + n <= |log.stream| && Says(continues, log.stream, p, n, LineEnd(log.stream, p), e)
    requires LineText(log.stream, p) != [] && (e.Open? ==> n == log.max)
    requires log.cuts[p].advance == if e.Open? then 0 else e.next
    ensures MoveSays(log, continues, p)
  {
    if e.Open? {
      Undecides(log, continues, p);
    }
  }

  lemma WindowDecides(log: Log, tail: bool, continues: bytes -> bool, p: nat, n: nat, w: bytes, atEOF: bool)
    requires log.Valid() && p < |log.stream| && log.cuts[p] == CutAt(Stderr(tail, continues), log.stream, p, log.max)
    requires n == Min(|log.stream| - p, log.max) && w == log.stream[p..p + n] && (atEOF <==> |log.stream| - p < log.max)
    ensures Decides(log, tail, continues, p, n, w, atEOF)
  {
    assert atEOF ==> w == log.stream[p..];
  }

  /** Every move goes over a blank line, over a record, or drops an over-long one. */
  lemma StderrMove(log: Log, tail: bool, continues: bytes -> bool, p: nat)
    requires log.Valid() && AreCuts(log.cuts, Stderr(tail, continues), log.stream, log.max) && p < |log.stream|
    ensures MoveSays(log, continues, p)
  {
    var stream, n := log.stream, Min(|log.stream| - p, log.max);
    var w, atEOF := stream[p..p + n], |stream| - p < log.max;
    assert log.cuts[p] == CutAt(Stderr(tail, continues), stream, p, log.max);
    WindowDecides(log, tail, continues, p, n, w, atEOF);
    if IndexFrom(w, LF, 0) < 0 {
      FirstLineMove(log, tail, continues, p, n, w, atEOF);
    } else {
      RecordMove(log, tail, continues, p, n, w, atEOF);
    }
  }

  // ----- When the file is marked -----

  lemma {:induction false} ContinuesInside(continues: bytes -> bool, stream: bytes, p: nat, to: nat, q: nat)
    requires p <= q < to <= |stream| && AllContinue(continues, stream, p, to) && (q == p || stream[q - 1] == LF)
    ensures continues(LineText(stream, q))
    decreases |stream| - p
  {
    if p < q {
      ContinuesInside(continues, stream, LineEnd(stream, p), to, q);
    }
  }

  /** A dropped record: no line that starts inside the stretch that is dropped would open a record. */
  ghost predicate DropsInside(log: Log, continues: bytes -> bool, b: nat)
    requires log.Valid() && b < |log.stream|
  {
    log.cuts[b].advance == 0 ==> AllContinue(continues, log.stream, LineEnd(log.stream, b), MoveAt(log, b).next)
  }

  /** No continuation line stands right behind a blank line or behind a dropped record. */
  ghost predicate OpensBehind(log: Log, continues: bytes -> bool, b: nat)
    requires log.Valid() && b < |log.stream|
  {
    && (LineText(log.stream, b) == [] ==> Opens(continues, log.stream, LineEnd(log.stream, b)))
    && (log.cuts[b].advance == 0 ==> Opens(continues, log.stream, MoveAt(log, b).next))
  }

  /**
   * No continuation line opens the file, follows a blank line or follows a dropped record, and
   * where a record is dropped no other record is dropped with it.
   */
  ghost predicate IsOrderly(log: Log, continues: bytes -> bool)
    requires log.Valid()
  {
    && Opens(continues, log.stream, Head(log.stream))
    && forall b | Head(log.stream) <= b < |log.stream| && IsBoundary(log, b) ::
         OpensBehind(log, continues, b) && DropsInside(log, continues, b)
  }

  lemma NextIsBoundary(log: Log, b: nat)
    requires log.Valid() && b < |log.stream| && IsBoundary(log, b)
    ensures IsBoundary(log, MoveAt(log, b).next)
  {
    JoinStep(log, Head(log.stream), b);
  }

  lemma {:induction false} JoinStep(log: Log, p: nat, b: nat)
    requires log.Valid() && p <= b < |log.stream| && Join(log, p, b) == b
    ensures Join(log, p, MoveAt(log, b).next) == MoveAt(log, b).next
    decreases |log.stream| - p
  {
    if p < b {
      JoinStep(log, MoveAt(log, p).next, b);
    }
  }

  /** The boundary before a position that is none. */
  lemma {:induction false} BoundaryBefore(log: Log, p: nat, q: nat) returns (b: nat)
    requires log.Valid() && p < q <= |log.stream| && IsBoundary(log, p) && Join(log, p, q) != q
    ensures p <= b < q < MoveAt(log, b).next && IsBoundary(log, b)
    decreases |log.stream| - p
  {
    var next := MoveAt(log, p).next;
    if next > q {
      b := p;
    } else {
      NextIsBoundary(log, p);
      b := BoundaryBefore(log, next, q);
    }
  }

  /** In an orderly file the line at every boundary opens a record, or is blank. */
  lemma {:induction false} BoundaryOpens(log: Log, tail: bool, continues: bytes -> bool, starts: bytes -> bool, p: nat, b: nat)
    requires IsStderr(log, tail, continues, starts) && IsOrderly(log, continues)
    requires Head(log.stream) <= p <= b <= |log.stream| && IsBoundary(log, p) && Join(log, p, b) == b
    requires Opens(continues, log.stream, p)
    ensures Opens(continues, log.stream, b)
    decreases |log.stream| - p
  {
    if p < b {
      MoveOpens(log, tail, continues, starts, p);
      NextIsBoundary(log, p);
      BoundaryOpens(log, tail, continues, starts, MoveAt(log, p).next, b);
    }
  }

  lemma MoveOpens(log: Log, tail: bool, continues: bytes -> bool, starts: bytes -> bool, p: nat)
    requires IsStderr(log, tail, continues, starts) && p < |log.stream| && OpensBehind(log, continues, p)
    ensures Opens(continues, log.stream, MoveAt(log, p).next)
  {
    StderrMove(log, tail, continues, p);
  }

  /** A move over a blank line ends with it. */
  lemma BlankMove(log: Log, tail: bool, continues: bytes -> bool, starts: bytes -> bool, b: nat)
    requires IsStderr(log, tail, continues, starts) && b < |log.stream| && LineText(log.stream, b) == []
    ensures MoveAt(log, b).next == LineEnd(log.stream, b)
  {
    StderrMove(log, tail, continues, b);
    if log.cuts[b].advance == 0 {
      var nl := IndexFrom(log.stream, LF, b);
      assert nl < 0 || nl <= b + 1;
    }
  }

  /** In an orderly file no boundary looks like the inside of a record. */
  lemma {:induction false} BoundaryIsSeen(log: Log, tail: bool, continues: bytes -> bool, starts: bytes -> bool, verdicts: seq<Verdict>, b: nat)
    requires IsStderr(log, tail, continues, starts) && IsOrderly(log, continues) && AreVerdicts(verdicts, log, starts)
    requires Head(log.stream) <= b <= |log.stream| && IsBoundary(log, b)
    ensures verdicts[b] != Interior
    decreases |log.stream| - b
  {
    VerdictIs(log, starts, verdicts, b);
    if b < |log.stream| {
      if LineText(log.stream, b) == [] {
        BlankMove(log, tail, continues, starts, b);
        NextIsBoundary(log, b);
        BoundaryIsSeen(log, tail, continues, starts, verdicts, LineEnd(log.stream, b));
        VerdictIs(log, starts, verdicts, LineEnd(log.stream, b));
      } else {
        BoundaryOpens(log, tail, continues, starts, Head(log.stream), b);
      }
    }
  }

  /** In an orderly file a line that is no boundary continues a record. */
  lemma InsideContinues(log: Log, tail: bool, continues: bytes -> bool, starts: bytes -> bool, q: nat)
    requires IsStderr(log, tail, continues, starts) && IsOrderly(log, continues)
    requires Head(log.stream) < q < |log.stream| && log.stream[q - 1] == LF && !IsBoundary(log, q)
    ensures continues(LineText(log.stream, q))
  {
    var b := BoundaryBefore(log, Head(log.stream), q);
    StderrMove(log, tail, continues, b);
    assert DropsInside(log, continues, b);
    LineStartBehind(log.stream, b, q);
    ContinuesInside(continues, log.stream, LineEnd(log.stream, b), MoveAt(log, b).next, q);
  }

  /** A line start behind b is at or behind the end of the line of b. */
  lemma LineStartBehind(stream: bytes, b: nat, q: nat)
    requires b < q <= |stream| && stream[q - 1] == LF
    ensures LineEnd(stream, b) <= q
  {
  }

  lemma OrderlyIsMarked(log: Log, tail: bool, continues: bytes -> bool, starts: bytes -> bool, verdicts: seq<Verdict>)
    requires IsStderr(log, tail, continues, starts) && IsOrderly(log, continues) && AreVerdicts(verdicts, log, starts)
    ensures Marked(log, verdicts)
  {
    forall b | Head(log.stream) <= b < |log.stream| && IsBoundary(log, b)
      ensures verdicts[b] != Interior
    {
      BoundaryIsSeen(log, tail, continues, starts, verdicts, b);
    }
    forall q | Head(log.stream) < q < |log.stream| && log.stream[q - 1] == LF && !IsBoundary(log, q)
      ensures verdicts[q] == Interior
    {
      InsideContinues(log, tail, continues, starts, q);
      VerdictIs(log, starts, verdicts, q);
    }
  }

  // ----- And only then -----

  /** In a marked file the line at a boundary opens a record. */
  lemma MarkedOpens(log: Log, tail: bool, continues: bytes -> bool, starts: bytes -> bool, verdicts: seq<Verdict>, b: nat)
    requires IsStderr(log, tail, continues, starts) && AreVerdicts(verdicts, log, starts) && Marked(log, verdicts)
    requires Head(log.stream) <= b <= |log.stream| && IsBoundary(log, b)
    ensures Opens(continues, log.stream, b)
  {
    VerdictIs(log, starts, verdicts, b);
  }

  /** No boundary lies strictly inside a move. */
  lemma {:induction false} NoneInside(log: Log, p: nat, b: nat, q: nat)
    requires log.Valid() && p <= b < q < |log.stream| && b < |log.stream| && Join(log, p, b) == b && q < MoveAt(log, b).next
    ensures Join(log, p, q) != q
    decreases |log.stream| - p
  {
    if p < b {
      NoneInside(log, MoveAt(log, p).next, b, q);
    }
  }

  /** In a marked file the lines that start inside a dropped stretch continue a record. */
  lemma {:induction false} MarkedDrops(log: Log, continues: bytes -> bool, starts: bytes -> bool, verdicts: seq<Verdict>,
      b: nat, to: nat, next: nat, q: nat)
    requires log.Valid() && AreVerdicts(verdicts, log, starts) && Marked(log, verdicts) && forall line :: starts(line) == !continues(line)
    requires IsDropped(log, b, to, next) && b < q <= |log.stream| && (q == |log.stream| || log.stream[q - 1] == LF)
    requires WholeContinue(continues, log.stream, q, to)
    ensures AllContinue(continues, log.stream, q, next)
    decreases |log.stream| - q
  {
    if q < next {
      if 0 <= IndexFrom(log.stream, LF, q) < to {
        MarkedDrops(log, continues, starts, verdicts, b, to, next, LineEnd(log.stream, q));
      } else {
        DroppedIsInside(log, verdicts, b, to, next, q);
        LastLine(log.stream, q, to, next);
        LastContinues(log, continues, starts, verdicts, q, next);
      }
    }
  }

  /** A scan drops the record at b: it goes on at next, behind the first newline at or behind to. */
  ghost predicate IsDropped(log: Log, b: nat, to: nat, next: nat)
    requires log.Valid()
  {
    && Head(log.stream) <= b < |log.stream| && IsBoundary(log, b) && next == MoveAt(log, b).next && to <= next
    && (next < |log.stream| ==> IndexFrom(log.stream, LF, to) == next - 1)
    && (next == |log.stream| ==> IndexFrom(log.stream, LF, to) < 0 || IndexFrom(log.stream, LF, to) == next - 1)
    && Head(log.stream) <= next && IsBoundary(log, next)
  }

  lemma DroppedIsInside(log: Log, verdicts: seq<Verdict>, b: nat, to: nat, next: nat, q: nat)
    requires log.Valid() && |verdicts| == |log.stream| + 1 && Marked(log, verdicts) && IsDropped(log, b, to, next)
    requires b < q < next && log.stream[q - 1] == LF
    ensures verdicts[q] == Interior
  {
    NoneInside(log, Head(log.stream), b, q);
  }

  /** A line that looks like the inside of a record and has a boundary behind it continues a record. */
  lemma LastContinues(log: Log, continues: bytes -> bool, starts: bytes -> bool, verdicts: seq<Verdict>, q: nat, next: nat)
    requires log.Valid() && AreVerdicts(verdicts, log, starts) && Marked(log, verdicts) && forall line :: starts(line) == !continues(line)
    requires q < |log.stream| && verdicts[q] == Interior && next == LineEnd(log.stream, q) && Head(log.stream) <= next && IsBoundary(log, next)
    ensures AllContinue(continues, log.stream, q, next)
  {
    VerdictIs(log, starts, verdicts, q);
    VerdictIs(log, starts, verdicts, next);
  }

  /** The last line of a dropped stretch, which ends at the first newline at or behind to. */
  lemma LastLine(stream: bytes, q: nat, to: nat, next: nat)
    requires q < next <= |stream| && to <= |stream| && !(0 <= IndexFrom(stream, LF, q) < to)
    requires if next < |stream| then IndexFrom(stream, LF, to) == next - 1 else IndexFrom(stream, LF, to) < 0 || IndexFrom(stream, LF, to) == next - 1
    ensures LineEnd(stream, q) == next
  {
  }

  /** A stderr log is marked exactly when it is orderly. */
  lemma StderrIsMarked(log: Log, tail: bool, continues: bytes -> bool, starts: bytes -> bool, verdicts: seq<Verdict>)
    requires IsStderr(log, tail, continues, starts) && AreVerdicts(verdicts, log, starts)
    ensures Marked(log, verdicts) <==> IsOrderly(log, continues)
  {
    if IsOrderly(log, continues) {
      OrderlyIsMarked(log, tail, continues, starts, verdicts);
    } else if Marked(log, verdicts) {
      MarkedIsOrderly(log, tail, continues, starts, verdicts);
    }
  }

  lemma MarkedIsOrderly(log: Log, tail: bool, continues: bytes -> bool, starts: bytes -> bool, verdicts: seq<Verdict>)
    requires IsStderr(log, tail, continues, starts) && AreVerdicts(verdicts, log, starts) && Marked(log, verdicts)
    ensures IsOrderly(log, continues)
  {
    MarkedOpens(log, tail, continues, starts, verdicts, Head(log.stream));
    forall b | Head(log.stream) <= b < |log.stream| && IsBoundary(log, b)
      ensures OpensBehind(log, continues, b) && DropsInside(log, continues, b)
    {
      NextIsBoundary(log, b);
      MarkedOpens(log, tail, continues, starts, verdicts, MoveAt(log, b).next);
      if LineText(log.stream, b) == [] {
        BlankMove(log, tail, continues, starts, b);
      }
      if log.cuts[b].advance == 0 {
        StderrMove(log, tail, continues, b);
        MarkedDrops(log, continues, starts, verdicts, b, b + log.max, MoveAt(log, b).next, LineEnd(log.stream, b));
      }
    }
  }

  /**
   * With the rules of stderr logs, under which indented lines, lines without the prefix or a label
   * and, unless they are split off, lines with a continuation label continue a record: a log is
   * marked exactly when it is orderly.
   */
  lemma RulesMark(rules: StderrRules, starts: bytes -> bool, log: Log, tail: bool, verdicts: seq<Verdict>)
    requires forall line :: starts(line) == !rules.Continues(line)
    requires log.Valid() && log.max > 1 && AreCuts(log.cuts, Stderr(tail, rules.Continues), log.stream, log.max)
    requires AreVerdicts(verdicts, log, starts)
    ensures Marked(log, verdicts) <==> IsOrderly(log, rules.Continues)
  {
    assert !rules.Continues([]);
    StderrIsMarked(log, tail, rules.Continues, starts, verdicts);
  }
}
