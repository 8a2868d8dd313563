/** Where a seek into a marked file lands, and how many lines it passes over at most. */
module Landing {
  import opened Bytes
  import opened Framing
  import opened Stream
  import opened Records
  import opened Seeking
  import opened Parsing

  /** The position behind the n-th newline from q on; the end of the stream when there are fewer. */
  ghost function Behind(stream: bytes, q: nat, n: nat): (e: nat)
    requires q <= |stream|
    ensures q <= e <= |stream|
    decreases n
  {
    if n == 0 then q
    else
      var nl := IndexFrom(stream, LF, q);
      if nl < 0 then |stream| else Behind(stream, nl + 1, n - 1)
  }

  /** A seek to q finds the record q belongs to unfinished, or starts at a line. */
  ghost predicate SeesLines(log: Log, verdicts: seq<Verdict>, q: nat)
    requires log.Valid() && |verdicts| == |log.stream| + 1
  {
    Head(log.stream) <= q <= |log.stream| && (IsBoundary(log, q) || (q > 0 && log.stream[q - 1] == 10) || verdicts[q] == Interior)
  }

  /** Inside a record the next line is no further than the next boundary. */
  lemma LineAhead(log: Log, verdicts: seq<Verdict>, q: nat, nl: nat)
    requires log.Valid() && |verdicts| == |log.stream| + 1 && SeesLines(log, verdicts, q)
    requires !IsBoundary(log, q) && nl == IndexFrom(log.stream, LF, q)
    ensures SeesLines(log, verdicts, nl + 1) && Join(log, Head(log.stream), nl + 1) == Join(log, Head(log.stream), q)
  {
    JoinAtLine(log, Head(log.stream), q);
    JoinMonotone(log, Head(log.stream), q, nl + 1);
  }

  lemma IsInside(log: Log, verdicts: seq<Verdict>, q: nat)
    requires log.Valid() && |verdicts| == |log.stream| + 1 && Marked(log, verdicts) && SeesLines(log, verdicts, q)
    requires Lines(log.stream, q, Join(log, Head(log.stream), q)) > 0
    ensures !IsBoundary(log, q) && verdicts[q] == Interior && q < Join(log, Head(log.stream), q)
  {
  }

  /** Too many lines before the next boundary: the resynchronisation stops behind the last one it may pass over. */
  lemma {:induction false} StopsShort(log: Log, verdicts: seq<Verdict>, q: nat, lines: nat, boundary: nat)
    requires log.Valid() && |verdicts| == |log.stream| + 1 && Marked(log, verdicts) && SeesLines(log, verdicts, q)
    requires boundary == Join(log, Head(log.stream), q) && Lines(log.stream, q, boundary) > lines
    ensures Resync(log, verdicts, q, lines) == Behind(log.stream, q, lines) < boundary
    decreases lines
  {
    IsInside(log, verdicts, q);
    if lines > 0 {
      var nl := IndexFrom(log.stream, LF, q);
      assert nl >= 0;
      LineAhead(log, verdicts, q, nl);
      StopsShort(log, verdicts, nl + 1, lines - 1, boundary);
    }
  }

  /**
   * A seek to at, a line start or a place that shows the inside of a record, in a marked file: when
   * the next boundary is at most 1,024 lines away the parser stands there, and what it reads is what
   * a scan of the whole file reads from at on. When it is further away the parser stands behind the
   * 1,024th line, short of the boundary.
   */
  lemma SeekStands(parser: Parser, verdicts: seq<Verdict>, at: nat)
    requires parser.Valid() && parser.Stands(verdicts, at) && parser.IsClear(verdicts, at, 1024)
    requires at > 0 && Marked(parser.log, verdicts) && SeesLines(parser.log, verdicts, at)
    ensures var stream, boundary := parser.log.stream, Join(parser.log, Head(parser.log.stream), at);
      if Lines(stream, at, boundary) <= 1024
      then parser.Offset() == boundary && parser.Remaining() == Since(Serial(parser.log), at)
      else parser.Offset() == Behind(stream, at, 1024) < boundary
  {
    var log := parser.log;
    var boundary := Join(log, Head(log.stream), at);
    if Lines(log.stream, at, boundary) <= 1024 {
      ResyncJoins(log, verdicts, at, MAX_RESYNC_LINES);
      JoinRecords(log, Head(log.stream), at);
    } else {
      StopsShort(log, verdicts, at, MAX_RESYNC_LINES, boundary);
    }
  }
}
