/**
 * Files written line by line: what a scan of a jsonlog file, or of a csvlog file without quotes,
 * reads from its lines, its blank lines, its tail, and the mark at its head.
 */
module LineFiles {
  import opened Bytes
  import opened Framing
  import opened Stream
  import opened Records

  /** A line and how it is ended: by a newline, or by a carriage return and a newline. */
  datatype Line = Line(text: bytes, crlf: bool) {
    function Written(): bytes { text + if crlf then [13, 10] else [10] }
  }

  /** No line break, and no quote. */
  predicate IsText(t: bytes) { 10 !in t && 13 !in t && 34 !in t }

  /** Lines that fit into a record. */
  predicate AreLines(lines: seq<Line>, max: nat) {
    lines == [] || (IsText(lines[0].text) && |lines[0].Written()| <= max && AreLines(lines[1..], max))
  }

  function FileOf(lines: seq<Line>, tail: bytes): bytes {
    if lines == [] then tail else lines[0].Written() + FileOf(lines[1..], tail)
  }

  /** A line becomes a record with its text, at its offset, unless it is blank or does not parse. */
  ghost function LineRecords(lines: seq<Line>, off: nat, accepts: bytes -> bool): seq<Rec> {
    if lines == [] then []
    else LineRecord(lines[0].text, off, accepts) + LineRecords(lines[1..], off + |lines[0].Written()|, accepts)
  }

  ghost function LineRecord(text: bytes, off: nat, accepts: bytes -> bool): seq<Rec> {
    if text != [] && accepts(text) then [Rec(off, text, false)] else []
  }

  /** So does what is left behind the last newline, flagged, if tails are to be read. */
  ghost function TailRecords(tail: bytes, off: nat, emitTail: bool, accepts: bytes -> bool): seq<Rec> {
    if tail != [] && emitTail && accepts(tail) then [Rec(off, tail, true)] else []
  }

  predicate IsLineFramer(f: Framer) { f.Csv? || f.Json? }

  // ----- One line -----

  lemma {:induction false} NoQuotesNoState(data: bytes, i: nat, k: nat)
    requires i <= k <= |data| && (forall j | i <= j < k :: data[j] != QUOTE && data[j] != LF)
    ensures CsvEnd(data, i, Outside) == CsvEnd(data, k, Outside)
    decreases k - i
  {
    if i < k {
      NoQuotesNoState(data, i + 1, k);
    }
  }

  /** The end of the line is the first newline. */
  lemma LineEnd(l: Line, rest: bytes, data: bytes)
    requires IsText(l.text) && data == l.Written() + rest
    ensures var n := |l.Written()|;
      n <= |data| && IndexFrom(data, LF, 0) == n - 1 == CsvEnd(data, 0, Outside) && TrimCR(data[..n - 1]) == l.text
  {
    var n := |l.Written()|;
    assert data[..n] == l.Written();
    forall j | 0 <= j < n - 1
      ensures data[j] != LF && data[j] != QUOTE
    {
      assert data[j] == l.Written()[j];
    }
    assert data[n - 1] == l.Written()[n - 1] == LF;
    NoQuotesNoState(data, 0, n - 1);
    assert data[..n - 1] == l.Written()[..n - 1];
  }

  lemma LineIsSplit(f: Framer, l: Line, rest: bytes, data: bytes, atEOF: bool)
    requires IsLineFramer(f) && IsText(l.text) && data == l.Written() + rest
    ensures Split(f, data, atEOF) == Cut(|l.Written()|, if l.text == [] then None else Some(l.text))
  {
    LineEnd(l, rest, data);
  }

  /** The tail is emitted whole, or not at all; a csvlog tail of a lone carriage return never is. */
  lemma TailIsSplit(f: Framer, tail: bytes)
    requires IsLineFramer(f) && IsText(tail) && tail != []
    ensures Split(f, tail, true) == Cut(|tail|, if f.emitTail then Some(tail) else None)
    ensures Split(Json(f.emitTail), [13], true) == Cut(1, if f.emitTail then Some([]) else None)
    ensures Split(Csv(f.emitTail), [13], true) == Cut(1, None)
  {
    NoQuotesNoState(tail, 0, |tail|);
    assert CsvEnd([13], 0, Outside) == CsvEnd([13], 1, Outside) == -1;
    assert IndexFrom(tail, LF, 0) < 0 && IndexFrom([13], LF, 0) < 0;
  }

  // ----- The scan -----

  lemma WindowOf(stream: bytes, p: nat, w: bytes, rest: bytes, max: nat)
    requires p <= |stream| && stream[p..] == w + rest && |w| <= max <= |stream| - p
    ensures stream[p..p + max] == w + rest[..max - |w|]
  {
    assert stream[p..p + max] == stream[p..][..max];
  }

  lemma LineIsCut(f: Framer, stream: bytes, p: nat, max: nat, l: Line, rest: bytes)
    requires IsLineFramer(f) && IsText(l.text) && p <= |stream| && stream[p..] == l.Written() + rest && |l.Written()| <= max
    ensures CutAt(f, stream, p, max) == Cut(|l.Written()|, if l.text == [] then None else Some(l.text))
  {
    if |stream| - p < max {
      LineIsSplit(f, l, rest, stream[p..], true);
    } else {
      WindowOf(stream, p, l.Written(), rest, max);
      LineIsSplit(f, l, rest[..max - |l.Written()|], stream[p..p + max], false);
    }
  }

  /** log is a file framed by f. */
  ghost predicate IsFramed(log: Log, f: Framer) { log.Valid() && AreCuts(log.cuts, f, log.stream, log.max) }

  lemma LineMoves(log: Log, f: Framer, p: nat, l: Line, rest: bytes)
    requires IsFramed(log, f) && IsLineFramer(f) && IsText(l.text) && |l.Written()| <= log.max
    requires p <= |log.stream| && log.stream[p..] == l.Written() + rest
    ensures p < |log.stream| && MoveAt(log, p) == Move(p + |l.Written()|, if l.text == [] then None else Some(l.text))
    ensures log.stream[p + |l.Written()| - 1] == LF && log.stream[p + |l.Written()|..] == rest
  {
    LineIsCut(f, log.stream, p, log.max, l, rest);
    assert log.cuts[p] == CutAt(f, log.stream, p, log.max);
    var n := |l.Written()|;
    assert log.stream[p + n - 1] == log.stream[p..][n - 1] == l.Written()[n - 1];
    assert log.stream[p + n..] == log.stream[p..][n..];
  }

  lemma TailMoves(log: Log, f: Framer, p: nat, tail: bytes)
    requires IsFramed(log, f) && IsLineFramer(f) && IsText(tail) && 0 < |tail| < log.max
    requires p <= |log.stream| && log.stream[p..] == tail
    ensures p < |log.stream| && MoveAt(log, p) == Move(|log.stream|, if f.emitTail then Some(tail) else None)
    ensures Unterminated(log.stream, |log.stream|)
  {
    TailIsSplit(f, tail);
    assert log.cuts[p] == CutAt(f, log.stream, p, log.max);
    assert log.stream[|log.stream| - 1] == tail[|tail| - 1];
  }

  lemma RecordsAfter(log: Log, p: nat, m: Move, rest: seq<Rec>)
    requires log.Valid() && p < |log.stream| && m == MoveAt(log, p) && rest == RecordsFrom(log, m.next)
    ensures RecordsFrom(log, p) == Parsed(log, p, m) + rest
  {
  }

  lemma FirstLineRead(log: Log, f: Framer, table: seq<seq<Rec>>, p: nat, l: Line, rest: bytes, q: nat)
    requires IsFramed(log, f) && IsTable(table, log) && IsLineFramer(f) && IsText(l.text) && |l.Written()| <= log.max
    requires p <= |log.stream| && log.stream[p..] == l.Written() + rest && q == p + |l.Written()|
    ensures q <= |log.stream| && log.stream[q..] == rest
    ensures table[p] == LineRecord(l.text, p, log.accepts) + table[q]
  {
    LineMoves(log, f, p, l, rest);
    RecordsAfter(log, p, MoveAt(log, p), RecordsFrom(log, q));
  }

  lemma TailRead(log: Log, f: Framer, table: seq<seq<Rec>>, p: nat, tail: bytes)
    requires IsFramed(log, f) && IsTable(table, log) && IsLineFramer(f) && IsText(tail) && |tail| < log.max
    requires p <= |log.stream| && log.stream[p..] == tail
    ensures table[p] == TailRecords(tail, p, f.emitTail, log.accepts)
  {
    if tail != [] {
      TailMoves(log, f, p, tail);
      RecordsAfter(log, p, MoveAt(log, p), []);
    } else {
      assert table[p] == RecordsFrom(log, p);
    }
  }

  /** The records from p on are those of the line there and those behind it. */
  lemma RecordsJoin(here: seq<Rec>, rest: seq<Rec>, more: seq<Rec>, last: seq<Rec>)
    requires rest == more + last
    ensures here + rest == here + more + last
  {
  }

  lemma {:induction false} LinesAreRead(log: Log, f: Framer, table: seq<seq<Rec>>, p: nat, lines: seq<Line>, tail: bytes, last: seq<Rec>, end: nat)
    requires IsFramed(log, f) && IsTable(table, log) && IsLineFramer(f) && AreLines(lines, log.max) && IsText(tail) && |tail| < log.max
    requires p <= |log.stream| && log.stream[p..] == FileOf(lines, tail)
    requires end + |tail| == |log.stream| && last == TailRecords(tail, end, f.emitTail, log.accepts)
    ensures table[p] == LineRecords(lines, p, log.accepts) + last
    decreases |lines|
  {
    if lines != [] {
      var q := p + |lines[0].Written()|;
      FirstLineRead(log, f, table, p, lines[0], FileOf(lines[1..], tail), q);
      LinesAreRead(log, f, table, q, lines[1..], tail, last, end);
      RecordsJoin(LineRecord(lines[0].text, p, log.accepts), table[q], LineRecords(lines[1..], q, log.accepts), last);
    } else {
      TailRead(log, f, table, p, tail);
      assert [] + last == last;
    }
  }

  /** The file that holds these lines, this tail, and the mark at its head if there is one. */
  ghost predicate Holds(stream: bytes, mark: bytes, lines: seq<Line>, tail: bytes) {
    && stream == mark + FileOf(lines, tail)
    && (mark == [0xEF, 0xBB, 0xBF] || (mark == [] && (|stream| < 3 || stream[..3] != [0xEF, 0xBB, 0xBF])))
  }

  lemma HeadIsMark(stream: bytes, mark: bytes, lines: seq<Line>, tail: bytes)
    requires Holds(stream, mark, lines, tail)
    ensures Head(stream) == |mark| && stream[|mark|..] == FileOf(lines, tail)
  {
    if mark != [] {
      assert stream[..3] == mark;
    }
  }

  /**
   * A scan of a jsonlog file, or of a csvlog file without quotes, reads its lines in order, each at
   * its offset and without its line end; it passes over a byte order mark at the head, blank lines
   * and what does not parse; and it reads and flags an unterminated tail if it is to.
   */
  lemma FileIsRead(log: Log, f: Framer, mark: bytes, lines: seq<Line>, tail: bytes, end: nat)
    requires IsFramed(log, f) && IsLineFramer(f) && AreLines(lines, log.max) && IsText(tail) && |tail| < log.max
    requires Holds(log.stream, mark, lines, tail) && end + |tail| == |log.stream|
    ensures Serial(log) == LineRecords(lines, |mark|, log.accepts) + TailRecords(tail, end, f.emitTail, log.accepts)
  {
    HeadIsMark(log.stream, mark, lines, tail);
    LinesAreRead(log, f, Table(log), |mark|, lines, tail, TailRecords(tail, end, f.emitTail, log.accepts), end);
  }
}
