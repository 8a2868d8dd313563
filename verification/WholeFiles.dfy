/**
 * Whole files through the parser: when every decision fits the buffer, the records it reads are
 * those that the split function finds in the whole input at once; so what the printers write is
 * read back record by record, whatever the pieces it arrives in.
 */
module WholeFiles {
  import opened Bytes
  import opened Framing
  import opened Stream
  import opened ReadBuffer
  import opened Records
  import opened Parsing
  import opened RoundTrips
  import Csvlog
  import Jsonlog

  /** At every position the scan comes to, from p to end, a decision is made. */
  ghost predicate AllFit(cuts: seq<Cut>, p: nat, end: nat)
    requires p <= end < |cuts|
    decreases end - p
  {
    p == end || (0 < cuts[p].advance <= end - p && AllFit(cuts, p + cuts[p].advance, end))
  }

  /** A decision that fits is the decision on the whole rest. */
  lemma CutIsWhole(f: Framer, stream: bytes, p: nat, max: nat)
    requires p <= |stream| && !CutAt(f, stream, p, max).Undecided()
    ensures CutAt(f, stream, p, max) == Split(f, stream[p..], true)
  {
    if |stream| - p >= max {
      assert stream[p..p + max] <= stream[p..];
      SplitStable(f, stream[p..p + max], stream[p..], true);
    }
  }

  function Raws(rs: seq<Rec>): seq<bytes> { if rs == [] then [] else [rs[0].raw] + Raws(rs[1..]) }

  lemma {:induction false} RawsConcat(a: seq<Rec>, b: seq<Rec>)
    ensures Raws(a + b) == Raws(a) + Raws(b)
  {
    if a == [] {
      assert a + b == b;
    } else {
      assert (a + b)[1..] == a[1..] + b;
      RawsConcat(a[1..], b);
    }
  }

  /** The tokens that parse. */
  function Accepted(accepts: bytes -> bool, tokens: seq<bytes>): seq<bytes> {
    if tokens == [] then []
    else (if accepts(tokens[0]) then [tokens[0]] else []) + Accepted(accepts, tokens[1..])
  }

  lemma TokensStep(f: Framer, data: bytes, c: Cut)
    requires data != [] && c == Split(f, data, true) && 0 < c.advance <= |data|
    ensures Tokens(f, data) == (if c.token.Some? then [c.token.value] else []) + Tokens(f, data[c.advance..])
  {
  }

  /** A decision that fits shows the next token of the whole input. */
  lemma TokensAt(f: Framer, stream: bytes, p: nat, max: nat, c: Cut)
    requires p < |stream| && c == CutAt(f, stream, p, max) && 0 < c.advance <= |stream| - p
    ensures Tokens(f, stream[p..]) == (if c.token.Some? then [c.token.value] else []) + Tokens(f, stream[p + c.advance..])
  {
    CutIsWhole(f, stream, p, max);
    TokensStep(f, stream[p..], c);
    assert stream[p..][c.advance..] == stream[p + c.advance..];
  }

  lemma AcceptedStep(accepts: bytes -> bool, token: Option<bytes>, rest: seq<bytes>)
    ensures Accepted(accepts, (if token.Some? then [token.value] else []) + rest)
         == (if token.Some? && accepts(token.value) then [token.value] else []) + Accepted(accepts, rest)
  {
    if token.Some? {
      assert ([token.value] + rest)[1..] == rest;
    } else {
      assert [] + rest == rest && [] + Accepted(accepts, rest) == Accepted(accepts, rest);
    }
  }

  lemma RecordsStep(log: Log, p: nat)
    requires log.Valid() && p < |log.stream| && log.cuts[p].advance > 0
    ensures var c := log.cuts[p];
      Raws(RecordsFrom(log, p))
        == (if c.token.Some? && log.accepts(c.token.value) then [c.token.value] else []) + Raws(RecordsFrom(log, p + c.advance))
  {
    var here := Records.Parsed(log, p, MoveAt(log, p));
    RawsConcat(here, RecordsFrom(log, MoveAt(log, p).next));
    assert here != [] ==> here[1..] == [];
  }

  /** The tokens that the decisions from p on lead to. */
  ghost function CutTokens(cuts: seq<Cut>, p: nat, end: nat): seq<bytes>
    requires p <= end < |cuts| && AllFit(cuts, p, end)
    decreases end - p
  {
    if p == end then []
    else (if cuts[p].token.Some? then [cuts[p].token.value] else []) + CutTokens(cuts, p + cuts[p].advance, end)
  }

  /** What stands behind p is what the decision there says, and the rest. */
  ghost predicate IsLinked(cuts: seq<Cut>, tokens: seq<seq<bytes>>, p: nat)
    requires p < |cuts| == |tokens|
  {
    0 < cuts[p].advance < |cuts| - p ==>
      tokens[p] == (if cuts[p].token.Some? then [cuts[p].token.value] else []) + tokens[p + cuts[p].advance]
  }

  ghost predicate AreLinked(cuts: seq<Cut>, tokens: seq<seq<bytes>>) {
    && |tokens| == |cuts| > 0 && tokens[|cuts| - 1] == []
    && forall p | 0 <= p < |cuts| - 1 :: IsLinked(cuts, tokens, p)
  }

  lemma {:induction false} LinkedTokens(cuts: seq<Cut>, tokens: seq<seq<bytes>>, p: nat)
    requires AreLinked(cuts, tokens) && p < |cuts| && AllFit(cuts, p, |cuts| - 1)
    ensures CutTokens(cuts, p, |cuts| - 1) == tokens[p]
    decreases |cuts| - p
  {
    if p < |cuts| - 1 {
      assert IsLinked(cuts, tokens, p);
      LinkedTokens(cuts, tokens, p + cuts[p].advance);
    }
  }

  /** tokens[p] is what the split function finds in the whole input from p on. */
  ghost predicate AreTokens(tokens: seq<seq<bytes>>, f: Framer, stream: bytes) {
    |tokens| == |stream| + 1 && forall p | 0 <= p <= |stream| :: IsTokens(tokens[p], f, stream, p)
  }

  ghost predicate IsTokens(tokens: seq<bytes>, f: Framer, stream: bytes, p: nat)
    requires p <= |stream|
  {
    tokens == Tokens(f, stream[p..])
  }

  /** The link at p, when the decision there is c, and here and rest stand behind p and behind what c takes. */
  lemma LinkHere(cuts: seq<Cut>, f: Framer, stream: bytes, max: nat, tokens: seq<seq<bytes>>, p: nat, c: Cut)
    requires p < |stream| && |cuts| == |tokens| == |stream| + 1 && c == cuts[p] && c == CutAt(f, stream, p, max)
    requires tokens[p] == Tokens(f, stream[p..])
    requires 0 < c.advance <= |stream| - p ==> tokens[p + c.advance] == Tokens(f, stream[p + c.advance..])
    ensures IsLinked(cuts, tokens, p)
  {
    if 0 < c.advance <= |stream| - p {
      TokensAt(f, stream, p, max, c);
    }
  }

  lemma NoTokens(tokens: seq<bytes>, f: Framer, stream: bytes)
    requires IsTokens(tokens, f, stream, |stream|)
    ensures tokens == []
  {
  }

  lemma TokensAreLinked(cuts: seq<Cut>, f: Framer, stream: bytes, max: nat, tokens: seq<seq<bytes>>)
    requires AreCuts(cuts, f, stream, max) && AreTokens(tokens, f, stream)
    ensures AreLinked(cuts, tokens)
  {
    NoTokens(tokens[|stream|], f, stream);
    forall p | 0 <= p < |stream|
      ensures IsLinked(cuts, tokens, p)
    {
      assert IsTokens(tokens[p], f, stream, p);
      if cuts[p].advance <= |stream| - p {
        assert IsTokens(tokens[p + cuts[p].advance], f, stream, p + cuts[p].advance);
      }
      LinkHere(cuts, f, stream, max, tokens, p, cuts[p]);
    }
  }

  lemma CutTokensAreWhole(cuts: seq<Cut>, f: Framer, stream: bytes, p: nat, max: nat)
    requires AreCuts(cuts, f, stream, max) && p <= |stream| && AllFit(cuts, p, |stream|)
    ensures CutTokens(cuts, p, |stream|) == Tokens(f, stream[p..])
  {
    var tokens := seq(|stream| + 1, q requires 0 <= q <= |stream| => Tokens(f, stream[q..]));
    TokensAreLinked(cuts, f, stream, max, tokens);
    LinkedTokens(cuts, tokens, p);
  }

  lemma {:induction false} RecordsAreCutTokens(log: Log, p: nat)
    requires log.Valid() && p <= |log.stream| && AllFit(log.cuts, p, |log.stream|)
    ensures Raws(RecordsFrom(log, p)) == Accepted(log.accepts, CutTokens(log.cuts, p, |log.stream|))
    decreases |log.stream| - p
  {
    if p < |log.stream| {
      var c := log.cuts[p];
      RecordsAreCutTokens(log, p + c.advance);
      RecordsStep(log, p);
      AcceptedStep(log.accepts, c.token, CutTokens(log.cuts, p + c.advance, |log.stream|));
    }
  }

  /** The records the parser reads are those of the split function run once over the whole input. */
  lemma RecordsAreTokens(log: Log, f: Framer, p: nat)
    requires log.Valid() && AreCuts(log.cuts, f, log.stream, log.max) && p <= |log.stream|
    requires AllFit(log.cuts, p, |log.stream|)
    ensures Raws(RecordsFrom(log, p)) == Accepted(log.accepts, Tokens(f, log.stream[p..]))
  {
    RecordsAreCutTokens(log, p);
    CutTokensAreWhole(log.cuts, f, log.stream, p, log.max);
  }

  // ----- Printed files -----

  /** Every line and its newline is at most max bytes long. */
  predicate FitLines(lines: seq<bytes>, max: nat) { forall i | 0 <= i < |lines| :: |lines[i]| < max }

  /** A line is framed as a record of its own, whatever stands behind it. */
  ghost predicate IsFramed(f: Framer, line: bytes) {
    forall more, atEOF :: Split(f, line + [LF] + more, atEOF) == Cut(|line| + 1, Some(line))
  }

  ghost predicate AreFramed(f: Framer, lines: seq<bytes>) { forall i | 0 <= i < |lines| :: IsFramed(f, lines[i]) }

  /** A line that is framed whatever stands behind it is decided on in its first max bytes. */
  lemma LineFits(f: Framer, stream: bytes, p: nat, line: bytes, post: bytes, max: nat)
    requires p <= |stream| && stream[p..] == line + [LF] + post && |line| < max
    requires IsFramed(f, line)
    ensures CutAt(f, stream, p, max) == Cut(|line| + 1, Some(line))
  {
    if |stream| - p >= max {
      var w, more := stream[p..p + max], post[..max - |line| - 1];
      assert w == stream[p..][..max];
      assert w == line + [LF] + more;
      assert Split(f, line + [LF] + more, false) == Cut(|line| + 1, Some(line));
    }
  }

  lemma RestOfLines(stream: bytes, p: nat, lines: seq<bytes>)
    requires lines != [] && p <= |stream| && stream[p..] == FileOf(lines)
    ensures stream[p..] == lines[0] + [LF] + FileOf(lines[1..]) && p + |lines[0]| + 1 <= |stream|
    ensures stream[p + |lines[0]| + 1..] == FileOf(lines[1..])
  {
    var n := |lines[0]| + 1;
    assert stream[p..][n..] == stream[p + n..];
    assert (lines[0] + [LF] + FileOf(lines[1..]))[n..] == FileOf(lines[1..]);
  }

  lemma {:induction false} PrintedFits(cuts: seq<Cut>, f: Framer, stream: bytes, p: nat, lines: seq<bytes>, max: nat)
    requires p <= |stream| && AreCuts(cuts, f, stream, max) && stream[p..] == FileOf(lines)
    requires FitLines(lines, max) && AreFramed(f, lines)
    ensures AllFit(cuts, p, |stream|)
    decreases |lines|
  {
    if lines != [] {
      RestOfLines(stream, p, lines);
      LineFits(f, stream, p, lines[0], FileOf(lines[1..]), max);
      assert cuts[p] == CutAt(f, stream, p, max);
      PrintedFits(cuts, f, stream, p + |lines[0]| + 1, lines[1..], max);
    }
  }

  lemma RowIsLine(row: seq<Csvlog.Field>, emitTail: bool)
    requires Csvlog.IsRow(row) && row != [Csvlog.Plain([])]
    ensures IsFramed(Csv(emitTail), Csvlog.PrintRow(row))
  {
    forall more, atEOF
      ensures Split(Csv(emitTail), Csvlog.PrintRow(row) + [LF] + more, atEOF)
           == Cut(|Csvlog.PrintRow(row)| + 1, Some(Csvlog.PrintRow(row)))
    {
      Csvlog.RowIsFramed(row, more, emitTail, atEOF);
    }
  }

  lemma RowsAreFramed(rows: seq<seq<Csvlog.Field>>, emitTail: bool)
    requires AreRows(rows)
    ensures AreFramed(Csv(emitTail), Rows(rows))
  {
    var lines := Rows(rows);
    forall i | 0 <= i < |lines|
      ensures IsFramed(Csv(emitTail), lines[i])
    {
      RowAt(rows, i);
      RowIsLine(rows[i], emitTail);
    }
  }

  lemma ObjectIsLine(o: seq<Jsonlog.Entry>, emitTail: bool)
    requires Jsonlog.IsObject(o)
    ensures IsFramed(Json(emitTail), Jsonlog.PrintObject(o))
  {
    forall more, atEOF
      ensures Split(Json(emitTail), Jsonlog.PrintObject(o) + [LF] + more, atEOF)
           == Cut(|Jsonlog.PrintObject(o)| + 1, Some(Jsonlog.PrintObject(o)))
    {
      ObjectIsFramed(o, more, emitTail, atEOF);
    }
  }

  lemma ObjectsAreFramed(objects: seq<seq<Jsonlog.Entry>>, emitTail: bool)
    requires forall i | 0 <= i < |objects| :: Jsonlog.IsObject(objects[i])
    ensures AreFramed(Json(emitTail), Objects(objects))
  {
    var lines := Objects(objects);
    forall i | 0 <= i < |lines|
      ensures IsFramed(Json(emitTail), lines[i])
    {
      ObjectAt(objects, i);
      ObjectIsLine(objects[i], emitTail);
    }
  }

  lemma {:induction false} AllAccepted(accepts: bytes -> bool, tokens: seq<bytes>)
    requires forall i | 0 <= i < |tokens| :: accepts(tokens[i])
    ensures Accepted(accepts, tokens) == tokens
  {
    if tokens != [] {
      AllAccepted(accepts, tokens[1..]);
    }
  }

  /** Printed lines that all parse are read back, one record each. */
  lemma LinesAreRead(log: Log, f: Framer, lines: seq<bytes>)
    requires log.Valid() && AreCuts(log.cuts, f, log.stream, log.max) && log.stream[Head(log.stream)..] == FileOf(lines)
    requires AreFramed(f, lines) && FitLines(lines, log.max) && Tokens(f, FileOf(lines)) == lines
    requires forall i | 0 <= i < |lines| :: log.accepts(lines[i])
    ensures Raws(Serial(log)) == lines
  {
    PrintedFits(log.cuts, f, log.stream, Head(log.stream), lines, log.max);
    RecordsAreTokens(log, f, Head(log.stream));
    AllAccepted(log.accepts, lines);
  }

  method RawsOf(rs: seq<Rec>) returns (raws: seq<bytes>)
    ensures raws == Raws(rs)
  {
    raws := [];
    for i := 0 to |rs|
      invariant raws + Raws(rs[i..]) == Raws(rs)
    {
      assert rs[i..][1..] == rs[i + 1..];
      assert raws + Raws(rs[i..]) == raws + [rs[i].raw] + Raws(rs[i + 1..]);
      raws := raws + [rs[i].raw];
    }
    assert rs[|rs|..] == [];
  }

  /** A printed csvlog file comes out of the parser row by row, however its bytes arrive. */
  method ReadRows(src: Source, emitTail: bool, accepts: bytes -> bool, starts: bytes -> bool, max: nat, initial: nat,
      ghost rows: seq<seq<Csvlog.Field>>) returns (out: seq<bytes>)
    requires MIN_MAX_RECORD_BYTES <= max && 0 < initial <= max && src.pos == src.empties == 0
    requires AreRows(rows) && src.content[Head(src.content)..] == FileOf(Rows(rows)) && FitLines(Rows(rows), max)
    requires forall i | 0 <= i < |rows| :: accepts(Rows(rows)[i])
    modifies src
    ensures out == Rows(rows)
  {
    var p := new Parser(src, Csv(emitTail), accepts, starts, max, initial);
    RowsAreFramed(rows, emitTail);
    CsvFileComesBack(rows, emitTail);
    LinesAreRead(p.log, Csv(emitTail), Rows(rows));
    var rs := p.ReadAll();
    out := RawsOf(rs);
  }

  /** A printed jsonlog file comes out of the parser object by object, however its bytes arrive. */
  method ReadObjects(src: Source, emitTail: bool, accepts: bytes -> bool, starts: bytes -> bool, max: nat, initial: nat,
      ghost objects: seq<seq<Jsonlog.Entry>>) returns (out: seq<bytes>)
    requires MIN_MAX_RECORD_BYTES <= max && 0 < initial <= max && src.pos == src.empties == 0
    requires forall i | 0 <= i < |objects| :: Jsonlog.IsObject(objects[i])
    requires src.content[Head(src.content)..] == FileOf(Objects(objects)) && FitLines(Objects(objects), max)
    requires forall i | 0 <= i < |objects| :: accepts(Objects(objects)[i])
    modifies src
    ensures out == Objects(objects)
  {
    var p := new Parser(src, Json(emitTail), accepts, starts, max, initial);
    ObjectsAreFramed(objects, emitTail);
    JsonFileComesBack(objects, emitTail);
    LinesAreRead(p.log, Json(emitTail), Objects(objects));
    var rs := p.ReadAll();
    out := RawsOf(rs);
  }
}
