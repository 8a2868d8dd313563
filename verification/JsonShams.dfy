/** Positions of a jsonlog file at which a seek is misled: inside every text that holds "{}". */
module JsonShams {
  import opened Bytes
  import opened Framing
  import opened Stream
  import opened Records
  import opened Seeking
  import opened TextLines
  import opened JsonSeeking
  import Jsonlog

  /** The scanner takes the text for an object. */
  predicate Accepts(text: bytes) { Jsonlog.ObjectMembers(text).Members? }

  /** Behind "{}" nothing is read: whatever follows, the text is an object without members. */
  lemma BracesAreAnObject(text: bytes)
    requires |text| > 1 && text[0] == LBRACE && text[1] == Jsonlog.CLOSE
    ensures Jsonlog.ObjectMembers(text) == Jsonlog.Members([])
  {
    assert Jsonlog.SkipSpace(text, 0) == 0 && Jsonlog.SkipSpace(text, 1) == 1;
  }

  lemma BracesShow(stream: bytes, s: nat)
    requires s + 1 < |stream| && stream[s] == LBRACE && stream[s + 1] == Jsonlog.CLOSE
    ensures |LineText(stream, s)| > 1 && LineText(stream, s)[0] == LBRACE && LineText(stream, s)[1] == Jsonlog.CLOSE
  {
    var nl := IndexFrom(stream, LF, s);
    assert nl < 0 || nl > s + 1;
    var line := if nl < 0 then stream[s..] else stream[s..nl];
    assert line[0] == LBRACE && line[1] == Jsonlog.CLOSE;
  }

  /** Every "{}" inside a line that fits the buffer is taken for a record, whatever stands behind it. */
  lemma BracesAreSham(log: Log, emitTail: bool, s: nat)
    requires IsJson(log, emitTail) && forall text :: log.accepts(text) == Accepts(text)
    requires Head(log.stream) <= s && s + 1 < |log.stream| && !IsBoundary(log, s)
    requires log.stream[s] == LBRACE && log.stream[s + 1] == Jsonlog.CLOSE
    requires log.cuts[s].token.Some?
    ensures ShamRecord(log, s)
  {
    JsonCut(log.stream, log.max, emitTail, s);
    assert log.cuts[s] == CutAt(Json(emitTail), log.stream, s, log.max);
    BracesShow(log.stream, s);
    BracesAreAnObject(LineText(log.stream, s));
  }

  // ----- A file of one line -----

  /** The line {"message":"x {} y"} */
  const LINE: bytes :=
    [123, 34, 109, 101, 115, 115, 97, 103, 101, 34, 58, 34, 120, 32, 123, 125, 32, 121, 34, 125, 10]

  /** Where its inner '{' is. */
  const INNER := 14

  lemma LineIsOne(stream: bytes, p: nat)
    requires stream == LINE && p < 21
    ensures IndexFrom(stream, LF, p) == 20 && Head(stream) == 0
  {
    assert stream[20] == LF && forall k | 0 <= k < 20 :: stream[k] != LF;
    assert stream[0] == 123;
  }

  lemma InnerIsInside(log: Log)
    requires IsJson(log, true) && log.stream == LINE && log.max == 512
    ensures !IsBoundary(log, INNER) && log.cuts[INNER].token.Some?
  {
    LineIsOne(log.stream, 0);
    LineIsOne(log.stream, INNER);
    JsonMove(log, true, 0);
    assert Join(log, 0, INNER) == Join(log, 21, INNER) == 21;
    InnerIsCut(log);
  }

  lemma InnerIsCut(log: Log)
    requires IsJson(log, true) && log.stream == LINE && log.max == 512
    ensures log.cuts[INNER].token.Some?
  {
    LineIsOne(log.stream, INNER);
    var w := log.stream[INNER..];
    assert log.cuts[INNER] == CutAt(Json(true), log.stream, INNER, log.max) == Split(Json(true), w, true);
    WindowLine(log.stream, INNER, 7, w);
    assert w[..6][0] == LBRACE && w[..6][5] == Jsonlog.CLOSE;
  }

  /** A seek into the message of this line reads a record that the file does not hold. */
  lemma SeekIsMisled(log: Log, verdicts: seq<Verdict>)
    requires log == LogOf(Json(true), LINE, 512, Accepts) && AreVerdicts(verdicts, log, StartsJson)
    ensures RecordsFrom(log, Seeking.Resync(log, verdicts, INNER, MAX_RESYNC_LINES)) != Since(Serial(log), INNER)
  {
    assert !Accepts([]);
    LineIsOne(log.stream, INNER);
    InnerIsInside(log);
    BracesAreSham(log, true, INNER);
    JsonSeekExact(log, true, verdicts, INNER);
  }

  // ----- A file with an indented record -----

  /** The lines {} and, indented by a space, {} */
  const INDENTED: bytes := [123, 125, 10, 32, 123, 125, 10]

  lemma IndentedLines(stream: bytes)
    requires stream == INDENTED
    ensures Head(stream) == 0 && IndexFrom(stream, LF, 0) == 2 && IndexFrom(stream, LF, 3) == 6
    ensures LineText(stream, 3) == [32, 123, 125]
  {
    assert IndexFrom(stream, LF, 6) == 6;
    assert IndexFrom(stream, LF, 4) == 6;
    assert IndexFrom(stream, LF, 1) == 2;
    assert stream[3..6] == [32, 123, 125];
  }

  lemma IndentedParses(text: bytes)
    requires text == [32, 123, 125]
    ensures Accepts(text)
  {
    assert Jsonlog.SkipSpace(text, 1) == 1 && Jsonlog.SkipSpace(text, 0) == 1 && Jsonlog.SkipSpace(text, 2) == 2;
  }

  lemma IndentedIsRead(log: Log)
    requires IsJson(log, true) && log.stream == INDENTED && log.max == 512 && log.accepts == Accepts
    ensures IsBoundary(log, 3) && Parsed(log, 3, MoveAt(log, 3)) != []
  {
    IndentedLines(log.stream);
    LineStartsJoin(log, true, 0, 3);
    var w := log.stream[3..];
    assert log.cuts[3] == CutAt(Json(true), log.stream, 3, log.max) == Split(Json(true), w, true);
    WindowLine(log.stream, 3, 4, w);
    assert w[..3] == [32, 123, 125];
    IndentedParses([32, 123, 125]);
  }

  /** A seek to the offset of the second record of this file loses it. */
  lemma IndentedIsLost(log: Log, verdicts: seq<Verdict>)
    requires log == LogOf(Json(true), INDENTED, 512, Accepts) && AreVerdicts(verdicts, log, StartsJson)
    ensures RecordsFrom(log, Seeking.Resync(log, verdicts, 3, MAX_RESYNC_LINES)) != Since(Serial(log), 3)
  {
    assert !Accepts([]);
    IndentedLines(log.stream);
    IndentedIsRead(log);
    JsonVerdict(log, verdicts, 3);
    PassesItself(log, verdicts, 3);
  }
}
