/**
 * Where a record ends: the csvlog, jsonlog and stderr framers, each a split function over a
 * window of the stream, and the property that makes them safe to run on partial windows.
 */
module Framing {
  import opened Bytes

  /** A split function's answer. Consuming nothing and emitting nothing asks for more data. */
  datatype Cut = Cut(advance: nat, token: Option<bytes>) {
    predicate Undecided() { advance == 0 && token.None? }
  }

  const MORE := Cut(0, None)

  /** How far a stderr record reaches; Open means the window does not show enough to decide. */
  datatype Extent = Open | Extent(next: nat, recEnd: nat)

  /** Csvlog quoting, one byte at a time; Closing is a quote seen inside a quoted field. */
  datatype Quoting = Outside | Inside | Closing {
    function After(c: byte): Quoting {
      match this
      case Outside => if c == QUOTE then Inside else Outside
      case Inside => if c == QUOTE then Closing else Inside
      case Closing => if c == QUOTE then Inside else Outside
    }
  }

  /** What decides whether a stderr line continues the record above it. */
  datatype StderrRules = StderrRules(prefix: Option<bytes -> Option<bytes>>, splitContinuations: bool) {
    predicate Continues(line: bytes) {
      if line == [] then false
      else if IsSpaceOrTab(line[0]) then true
      else match prefix
        case None => false
        case Some(scan) =>
          match scan(line)
          case None => true
          case Some(rest) =>
            match Label(rest)
            case None => true
            case Some(word) => IsContinuationLabel(word) && !splitContinuations
    }
  }

  const MAX_LABEL_BYTES := 32

  /** The single word before the first ':' within the first 32 bytes. */
  function Label(rest: bytes): Option<bytes> {
    var head := rest[..Min(|rest|, MAX_LABEL_BYTES)];
    var i := IndexFrom(head, 58, 0);
    if i <= 0 || SPACE in rest[..i] then None else Some(rest[..i])
  }

  const DETAIL: bytes := [68, 69, 84, 65, 73, 76]
  const HINT: bytes := [72, 73, 78, 84]
  const STATEMENT: bytes := [83, 84, 65, 84, 69, 77, 69, 78, 84]
  const QUERY: bytes := [81, 85, 69, 82, 89]
  const CONTEXT: bytes := [67, 79, 78, 84, 69, 88, 84]

  predicate IsContinuationLabel(word: bytes) {
    word in {DETAIL, HINT, STATEMENT, QUERY, CONTEXT}
  }

  datatype Framer =
    | Csv(emitTail: bool)
    | Json(emitTail: bool)
    | Stderr(emitTail: bool, continues: bytes -> bool)

  /** The split answer each format is specified to give for a window. */
  function Split(f: Framer, data: bytes, atEOF: bool): Cut {
    match f
    case Csv(tail) => SplitAtEnd(data, CsvEnd(data, 0, Outside), atEOF, tail, false)
    case Json(tail) => SplitAtEnd(data, IndexFrom(data, LF, 0), atEOF, tail, true)
    case Stderr(tail, continues) => SplitStderr(data, IndexFrom(data, LF, 0), atEOF, tail, continues)
  }

  /** A stderr record whose first line ends at the newline at index nl, or does not end when nl < 0. */
  function SplitStderr(data: bytes, nl: int, atEOF: bool, emitTail: bool, continues: bytes -> bool): Cut
    requires -1 <= nl < |data|
    requires nl >= 0 ==> data[nl] == LF
  {
    if nl < 0 || TrimCR(data[..nl]) == [] then SplitAtEnd(data, nl, atEOF, emitTail, false)
    else
      var extent := Absorb(continues, data, nl + 1, nl, atEOF);
      if extent.Open? then MORE else Cut(extent.next, Some(TrimCR(data[..extent.recEnd])))
  }

  /**
   * A record that ends at the newline at index end, or at the end of the stream when end < 0. A
   * blank line is consumed and not emitted; only jsonlog emits a blank tail, a lone CR.
   */
  function SplitAtEnd(data: bytes, end: int, atEOF: bool, emitTail: bool, blankTail: bool): Cut
    requires -1 <= end < |data|
  {
    if end >= 0 then
      var line := TrimCR(data[..end]);
      Cut(end + 1, if line == [] then None else Some(line))
    else if !atEOF || data == [] then MORE
    else
      var line := TrimCR(data);
      Cut(|data|, if (line == [] && !blankTail) || !emitTail then None else Some(line))
  }

  /** The first newline outside quotes at or after i, given the quoting state at i; or -1. */
  function CsvEnd(data: bytes, i: nat, q: Quoting): (end: int)
    requires i <= |data|
    ensures end == -1 || (i <= end < |data| && data[end] == LF)
    decreases |data| - i
  {
    if i == |data| then -1
    else if data[i] == LF && q != Inside then i
    else CsvEnd(data, i + 1, q.After(data[i]))
  }

  /**
   * The continuation lines from pos on: where the record's last line ends, and where the next
   * record starts.
   */
  function Absorb(continues: bytes -> bool, data: bytes, pos: nat, recEnd: nat, atEOF: bool): (r: Extent)
    requires recEnd < pos <= |data| && data[pos - 1] == LF
    ensures r.Extent? ==> pos <= r.next <= |data| && recEnd <= r.recEnd <= r.next
    ensures r.Extent? && !atEOF ==> data[r.next - 1] == LF && r.next < |data|
    decreases |data| - pos
  {
    if pos == |data| then if atEOF then Extent(pos, recEnd) else Open
    else
      var i := IndexFrom(data, LF, pos);
      if i < 0 then
        if !atEOF then Open
        else if continues(TrimCR(data[pos..|data|])) then Extent(|data|, |data|) else Extent(pos, recEnd)
      else if continues(TrimCR(data[pos..i])) then Absorb(continues, data, i + 1, i, atEOF)
      else Extent(pos, recEnd)
  }

  // ----- A decided answer does not change when more of the stream arrives -----

  lemma {:induction false} CsvEndStable(data: bytes, all: bytes, i: nat, q: Quoting)
    requires data <= all && i <= |data| && CsvEnd(data, i, q) >= 0
    ensures CsvEnd(all, i, q) == CsvEnd(data, i, q)
    decreases |data| - i
  {
    assert all[i] == data[i];
    if !(data[i] == LF && q != Inside) {
      CsvEndStable(data, all, i + 1, q.After(data[i]));
    }
  }

  lemma IndexStable(data: bytes, all: bytes, c: byte, from: nat)
    requires data <= all && from <= |data| && IndexFrom(data, c, from) >= 0
    ensures IndexFrom(all, c, from) == IndexFrom(data, c, from)
  {
    var i := IndexFrom(data, c, from);
    assert all[i] == c;
    assert forall k | from <= k < i :: all[k] == data[k];
  }

  lemma SliceStable(data: bytes, all: bytes, from: nat, to: nat)
    requires data <= all && from <= to <= |data|
    ensures all[from..to] == data[from..to]
  {
  }

  /** One line more of a record whose next line, up to the newline at i, is there. */
  lemma AbsorbLine(continues: bytes -> bool, data: bytes, pos: nat, recEnd: nat, atEOF: bool, i: nat)
    requires recEnd < pos <= i < |data| && data[pos - 1] == LF && i == IndexFrom(data, LF, pos)
    ensures Absorb(continues, data, pos, recEnd, atEOF)
         == if continues(TrimCR(data[pos..i])) then Absorb(continues, data, i + 1, i, atEOF) else Extent(pos, recEnd)
  {
  }

  lemma AbsorbLast(continues: bytes -> bool, data: bytes, pos: nat, recEnd: nat, atEOF: bool)
    requires recEnd < pos < |data| && data[pos - 1] == LF && IndexFrom(data, LF, pos) < 0
    ensures Absorb(continues, data, pos, recEnd, atEOF)
         == if !atEOF then Open
            else if continues(TrimCR(data[pos..|data|])) then Extent(|data|, |data|) else Extent(pos, recEnd)
  {
  }

  lemma AbsorbOpen(continues: bytes -> bool, data: bytes, pos: nat, recEnd: nat)
    requires recEnd < pos <= |data| && data[pos - 1] == LF
    requires Absorb(continues, data, pos, recEnd, false).Extent?
    ensures pos <= IndexFrom(data, LF, pos) < |data|
  {
  }

  lemma {:induction false} AbsorbStable(continues: bytes -> bool, data: bytes, all: bytes, pos: nat, recEnd: nat, atEOF: bool)
    requires data <= all && recEnd < pos <= |data| && data[pos - 1] == LF && all[pos - 1] == LF
    requires Absorb(continues, data, pos, recEnd, false).Extent?
    ensures Absorb(continues, all, pos, recEnd, atEOF) == Absorb(continues, data, pos, recEnd, false)
    decreases |data| - pos
  {
    AbsorbOpen(continues, data, pos, recEnd);
    IndexStable(data, all, LF, pos);
    var i := IndexFrom(data, LF, pos);
    SliceStable(data, all, pos, i);
    AbsorbLine(continues, data, pos, recEnd, false, i);
    AbsorbLine(continues, all, pos, recEnd, atEOF, i);
    if continues(TrimCR(data[pos..i])) {
      AbsorbStable(continues, data, all, i + 1, i, atEOF);
    }
  }

  /** The key property of every framer: a decision taken on a partial window is final. */
  lemma SplitStable(f: Framer, data: bytes, all: bytes, atEOF: bool)
    requires data <= all && !Split(f, data, false).Undecided()
    ensures Split(f, all, atEOF) == Split(f, data, false)
    ensures var n := Split(f, data, false).advance; 0 < n <= |data| && data[n - 1] == LF
  {
    match f
    case Csv(_) =>
      CsvEndStable(data, all, 0, Outside);
      SliceStable(data, all, 0, CsvEnd(data, 0, Outside));
    case Json(_) =>
      IndexStable(data, all, LF, 0);
      SliceStable(data, all, 0, IndexFrom(data, LF, 0));
    case Stderr(tail, continues) =>
      IndexStable(data, all, LF, 0);
      SplitStderrStable(data, all, IndexFrom(data, LF, 0), atEOF, tail, continues);
  }

  lemma ExtentStable(data: bytes, all: bytes, nl: nat, atEOF: bool, continues: bytes -> bool)
    requires data <= all && nl < |data| && data[nl] == LF && all[nl] == LF
    requires Absorb(continues, data, nl + 1, nl, false).Extent?
    ensures var e := Absorb(continues, data, nl + 1, nl, false);
      && Absorb(continues, all, nl + 1, nl, atEOF) == e && all[..e.recEnd] == data[..e.recEnd]
      && 0 < e.next <= |data| && data[e.next - 1] == LF
  {
    AbsorbStable(continues, data, all, nl + 1, nl, atEOF);
    var e := Absorb(continues, data, nl + 1, nl, false);
    ExtentBounds(continues, data, nl);
    SliceStable(data, all, 0, e.recEnd);
  }

  lemma ExtentBounds(continues: bytes -> bool, data: bytes, nl: nat)
    requires nl < |data| && data[nl] == LF && Absorb(continues, data, nl + 1, nl, false).Extent?
    ensures var e := Absorb(continues, data, nl + 1, nl, false);
      e.recEnd <= e.next <= |data| && 0 < e.next && data[e.next - 1] == LF
  {
  }

  lemma StderrCut(data: bytes, nl: nat, atEOF: bool, emitTail: bool, continues: bytes -> bool)
    requires nl < |data| && data[nl] == LF
    ensures var e := Absorb(continues, data, nl + 1, nl, atEOF);
      SplitStderr(data, nl, atEOF, emitTail, continues)
        == if TrimCR(data[..nl]) == [] then Cut(nl + 1, None)
           else if e.Open? then MORE else Cut(e.next, Some(TrimCR(data[..e.recEnd])))
  {
  }

  lemma SplitStderrStable(data: bytes, all: bytes, nl: int, atEOF: bool, emitTail: bool, continues: bytes -> bool)
    requires data <= all && 0 <= nl < |data| && data[nl] == LF && all[nl] == LF
    requires !SplitStderr(data, nl, false, emitTail, continues).Undecided()
    ensures SplitStderr(all, nl, atEOF, emitTail, continues) == SplitStderr(data, nl, false, emitTail, continues)
    ensures var n := SplitStderr(data, nl, false, emitTail, continues).advance; 0 < n <= |data| && data[n - 1] == LF
  {
    SliceStable(data, all, 0, nl);
    StderrCut(data, nl, false, emitTail, continues);
    StderrCut(all, nl, atEOF, emitTail, continues);
    if TrimCR(data[..nl]) != [] {
      ExtentStable(data, all, nl, atEOF, continues);
    }
  }

  lemma {:induction false} AbsorbDecides(continues: bytes -> bool, data: bytes, pos: nat, recEnd: nat)
    requires recEnd < pos <= |data| && data[pos - 1] == LF
    ensures Absorb(continues, data, pos, recEnd, true).Extent?
    decreases |data| - pos
  {
    if pos < |data| {
      var i := IndexFrom(data, LF, pos);
      if i >= 0 && continues(TrimCR(data[pos..i])) {
        AbsorbDecides(continues, data, i + 1, i);
      }
    }
  }

  /** At the end of the stream every non-empty window is decided. */
  lemma SplitProgress(f: Framer, data: bytes)
    ensures Split(f, data, true).advance <= |data|
    ensures data != [] ==> Split(f, data, true).advance > 0
    ensures Split(f, data, true).token.Some? ==> Split(f, data, true).advance > 0
    ensures Split(f, [], true) == MORE
  {
    match f
    case Csv(_) =>
    case Json(_) =>
    case Stderr(_, continues) =>
      var nl := IndexFrom(data, LF, 0);
      if nl >= 0 {
        assert Absorb(continues, data, nl + 1, nl, true).Extent? by { AbsorbDecides(continues, data, nl + 1, nl); }
      }
  }

  /** A token that does not reach the end of the stream ends just past a newline. */
  lemma SplitEndsLine(f: Framer, data: bytes)
    ensures var n := Split(f, data, true).advance; 0 < n < |data| ==> data[n - 1] == LF
  {
    match f
    case Csv(_) =>
    case Json(_) =>
    case Stderr(_, continues) =>
      var nl := IndexFrom(data, LF, 0);
      if nl >= 0 {
        AbsorbEndsLine(continues, data, nl + 1, nl);
      }
  }

  lemma {:induction false} AbsorbEndsLine(continues: bytes -> bool, data: bytes, pos: nat, recEnd: nat)
    requires recEnd < pos <= |data| && data[pos - 1] == LF
    ensures var e := Absorb(continues, data, pos, recEnd, true); e.Extent? && e.next < |data| ==> data[e.next - 1] == LF
    decreases |data| - pos
  {
    if pos < |data| {
      var i := IndexFrom(data, LF, pos);
      if i >= 0 && continues(TrimCR(data[pos..i])) {
        AbsorbEndsLine(continues, data, i + 1, i);
      }
    }
  }

  // ----- The framers as the parser runs them -----

  /** The quoting state after data[from..to]. */
  ghost function QuotingAfter(data: bytes, from: nat, to: nat, q: Quoting): Quoting
    requires from <= to <= |data|
    decreases |data| - from
  {
    if from == to then q else QuotingAfter(data, from + 1, to, q.After(data[from]))
  }

  /**
   * Counting quotes decides whether a position is inside a quoted field: a doubled quote toggles
   * twice. A stretch without a newline can therefore be skipped whole.
   */
  lemma {:induction false} ParityIsQuoting(data: bytes, from: nat, to: nat, q: Quoting)
    requires from <= to <= |data| && forall k | from <= k < to :: data[k] != LF
    ensures CsvEnd(data, from, q) == CsvEnd(data, to, QuotingAfter(data, from, to, q))
    ensures QuotingAfter(data, from, to, q) == Inside
       <==> (CountIn(data, QUOTE, from, to) % 2 == 1) != (q == Inside)
    decreases |data| - from
  {
    if from < to {
      ParityIsQuoting(data, from + 1, to, q.After(data[from]));
    }
  }

  method SplitCSVRecord(data: bytes, atEOF: bool, emitTail: bool) returns (c: Cut)
    ensures c == Split(Csv(emitTail), data, atEOF)
  {
    var search, quotes := 0, 0;
    ghost var q := Outside;
    while true
      invariant search <= |data|
      invariant quotes % 2 == 1 <==> q == Inside
      invariant CsvEnd(data, 0, Outside) == CsvEnd(data, search, q)
      decreases |data| - search
    {
      var end := IndexFrom(data, LF, search);
      if end < 0 {
        ParityIsQuoting(data, search, |data|, q);
        break;
      }
      ParityIsQuoting(data, search, end, q);
      quotes := quotes + CountIn(data, QUOTE, search, end);
      q := QuotingAfter(data, search, end, q);
      if quotes % 2 == 0 {
        var line := TrimCR(data[..end]);
        return Cut(end + 1, if line == [] then None else Some(line));
      }
      search := end + 1;
    }
    if !atEOF {
      return MORE;
    }
    var line := TrimCR(data);
    c := Cut(|data|, if line == [] || !emitTail then None else Some(line));
  }

  method SplitLine(data: bytes, atEOF: bool, emitTail: bool) returns (c: Cut)
    ensures c == Split(Json(emitTail), data, atEOF)
  {
    var i := IndexFrom(data, LF, 0);
    if i >= 0 {
      var line := TrimCR(data[..i]);
      return Cut(i + 1, if line == [] then None else Some(line));
    }
    if !atEOF || data == [] {
      return MORE;
    }
    if !emitTail {
      return Cut(|data|, None);
    }
    c := Cut(|data|, Some(TrimCR(data)));
  }

  /** The loop over the lines behind the first one. */
  method AbsorbLines(continues: bytes -> bool, data: bytes, first: nat, atEOF: bool) returns (extent: Extent)
    requires first < |data| && data[first] == LF
    ensures extent == Absorb(continues, data, first + 1, first, atEOF)
  {
    var recEnd: nat, pos: nat := first, first + 1;
    ghost var whole := Absorb(continues, data, pos, recEnd, atEOF);
    while pos < |data|
      invariant recEnd < pos <= |data| && data[pos - 1] == LF
      invariant whole == Absorb(continues, data, pos, recEnd, atEOF)
    {
      var i := IndexFrom(data, LF, pos);
      if i < 0 {
        AbsorbLast(continues, data, pos, recEnd, atEOF);
        if !atEOF {
          return Open;
        }
        return if continues(TrimCR(data[pos..|data|])) then Extent(|data|, |data|) else Extent(pos, recEnd);
      }
      AbsorbLine(continues, data, pos, recEnd, atEOF, i);
      if !continues(TrimCR(data[pos..i])) {
        return Extent(pos, recEnd);
      }
      recEnd, pos := i, i + 1;
    }
    extent := if atEOF then Extent(pos, recEnd) else Open;
  }

  method SplitStderrRecord(data: bytes, atEOF: bool, emitTail: bool, continues: bytes -> bool) returns (c: Cut)
    ensures c == Split(Stderr(emitTail, continues), data, atEOF)
  {
    var nl := IndexFrom(data, LF, 0);
    if nl < 0 {
      if !atEOF {
        return MORE;
      }
      var line := TrimCR(data);
      return Cut(|data|, if line == [] || !emitTail then None else Some(line));
    }
    if TrimCR(data[..nl]) == [] {
      return Cut(nl + 1, None);
    }
    var extent := AbsorbLines(continues, data, nl, atEOF);
    c := if extent.Open? then MORE else Cut(extent.next, Some(TrimCR(data[..extent.recEnd])));
  }

  method SplitRecord(f: Framer, data: bytes, atEOF: bool) returns (c: Cut)
    ensures c == Split(f, data, atEOF)
  {
    match f
    case Csv(tail) => c := SplitCSVRecord(data, atEOF, tail);
    case Json(tail) => c := SplitLine(data, atEOF, tail);
    case Stderr(tail, continues) => c := SplitStderrRecord(data, atEOF, tail, continues);
  }
}
