/**
 * A stderr log that a seek cannot resume in. A record that is too long is dropped up to its next
 * newline; the continuation line behind it is framed as a record, and a seek to it passes it over.
 */
module StderrLosses {
  import opened Bytes
  import opened Framing
  import opened Stream
  import opened Records
  import opened Seeking
  import opened TextLines
  import opened StderrSeeking

  /** A log without a prefix: only indented lines continue a record, and every line with content parses. */
  const PLAIN := StderrRules(None, false)

  predicate Opening(line: bytes) { !PLAIN.Continues(line) }

  predicate Accepts(text: bytes) { text != [] }

  const TAB: byte := 9

  /** A line of 600 bytes and, indented by a tab, a line of one byte. */
  const LONG: bytes := seq(600, _ => 97) + [LF, TAB, 120, LF]

  lemma LongLines(stream: bytes)
    requires stream == LONG
    ensures |stream| == 604 && stream[0] == 97 && Head(stream) == 0
    ensures stream[600] == LF && stream[601] == TAB && stream[602] == 120 && stream[603] == LF
    ensures forall k | 0 <= k < 600 :: stream[k] != LF
  {
  }

  lemma LongIsDropped(log: Log)
    requires log == LogOf(Stderr(true, PLAIN.Continues), LONG, 512, Accepts)
    ensures MoveAt(log, 0) == Move(601, None) && IsBoundary(log, 601)
  {
    LongLines(log.stream);
    var w := log.stream[0..512];
    assert log.cuts[0] == CutAt(Stderr(true, PLAIN.Continues), log.stream, 0, 512) == Split(Stderr(true, PLAIN.Continues), w, false);
    assert IndexFrom(w, LF, 0) < 0;
    assert IndexFrom(log.stream, LF, 512) == 600;
    assert Join(log, 0, 601) == Join(log, 601, 601) == 601;
  }

  lemma RestIsRecord(log: Log)
    requires log == LogOf(Stderr(true, PLAIN.Continues), LONG, 512, Accepts)
    ensures Parsed(log, 601, MoveAt(log, 601)) != [] && LineText(log.stream, 601) == [TAB, 120]
  {
    LongLines(log.stream);
    var w := log.stream[601..];
    assert w == [TAB, 120, LF];
    assert log.cuts[601] == CutAt(Stderr(true, PLAIN.Continues), log.stream, 601, 512) == Split(Stderr(true, PLAIN.Continues), w, true);
    assert w[..2] == [TAB, 120];
    assert IndexFrom(w, LF, 2) == 2;
    assert IndexFrom(w, LF, 1) == 2;
    assert IndexFrom(w, LF, 0) == 2;
    WindowLine(log.stream, 601, 3, w);
  }

  /** The continuation line of a dropped record is a record of its own, and a seek to its offset loses it. */
  lemma RestIsLost(log: Log, verdicts: seq<Verdict>)
    requires log == LogOf(Stderr(true, PLAIN.Continues), LONG, 512, Accepts) && AreVerdicts(verdicts, log, Opening)
    ensures IsBoundary(log, 601) && Parsed(log, 601, MoveAt(log, 601)) != []
    ensures RecordsFrom(log, Seeking.Resync(log, verdicts, 601, MAX_RESYNC_LINES)) != Since(Serial(log), 601)
  {
    LongLines(log.stream);
    LongIsDropped(log);
    RestIsRecord(log);
    VerdictIs(log, Opening, verdicts, 601);
    PassesItself(log, verdicts, 601);
  }
}
