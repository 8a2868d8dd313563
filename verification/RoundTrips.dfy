/** Whole files: what the printers write, the framers and the parsers read back record by record. */
module RoundTrips {
  import opened Bytes
  import opened Framing
  import Csvlog
  import Jsonlog

  /** The records that a split function finds in a whole input. */
  function Tokens(f: Framer, data: bytes): seq<bytes> {
    if data == [] then []
    else
      var c := Split(f, data, true);
      if c.advance == 0 || c.advance > |data| then []
      else (if c.token.Some? then [c.token.value] else []) + Tokens(f, data[c.advance..])
  }

  /** Lines, each with its newline. */
  function FileOf(lines: seq<bytes>): bytes {
    if lines == [] then [] else lines[0] + [LF] + FileOf(lines[1..])
  }

  lemma FirstToken(f: Framer, line: bytes, post: bytes)
    requires Split(f, line + [LF] + post, true) == Cut(|line| + 1, Some(line))
    ensures Tokens(f, line + [LF] + post) == [line] + Tokens(f, post)
  {
    assert (line + [LF] + post)[|line| + 1..] == post;
  }

  // ----- Csvlog -----

  predicate AreRows(rows: seq<seq<Csvlog.Field>>) {
    forall i | 0 <= i < |rows| :: rows[i] != [] && Csvlog.IsRow(rows[i]) && rows[i] != [Csvlog.Plain([])]
  }

  function Rows(rows: seq<seq<Csvlog.Field>>): (lines: seq<bytes>)
    requires AreRows(rows)
    ensures |lines| == |rows|
  {
    if rows == [] then [] else [Csvlog.PrintRow(rows[0])] + Rows(rows[1..])
  }

  lemma {:induction false} RowAt(rows: seq<seq<Csvlog.Field>>, i: nat)
    requires AreRows(rows) && i < |rows|
    ensures Rows(rows)[i] == Csvlog.PrintRow(rows[i])
  {
    if i > 0 {
      RowAt(rows[1..], i - 1);
    }
  }

  /** A csvlog file comes back row by row, however many line breaks and quotes its columns hold. */
  lemma {:induction false} CsvFileComesBack(rows: seq<seq<Csvlog.Field>>, emitTail: bool)
    requires AreRows(rows)
    ensures Tokens(Csv(emitTail), FileOf(Rows(rows))) == Rows(rows)
    decreases |rows|
  {
    if rows != [] {
      var row, rest := rows[0], rows[1..];
      Csvlog.RowIsFramed(row, FileOf(Rows(rest)), emitTail, true);
      FirstToken(Csv(emitTail), Csvlog.PrintRow(row), FileOf(Rows(rest)));
      CsvFileComesBack(rest, emitTail);
      assert Rows(rows)[1..] == Rows(rest);
    }
  }

  // ----- Jsonlog -----

  function Objects(objects: seq<seq<Jsonlog.Entry>>): (lines: seq<bytes>)
    ensures |lines| == |objects|
  {
    if objects == [] then [] else [Jsonlog.PrintObject(objects[0])] + Objects(objects[1..])
  }

  lemma {:induction false} ObjectAt(objects: seq<seq<Jsonlog.Entry>>, i: nat)
    requires i < |objects|
    ensures Objects(objects)[i] == Jsonlog.PrintObject(objects[i])
  {
    if i > 0 {
      ObjectAt(objects[1..], i - 1);
    }
  }

  lemma NoNewlineIn(line: bytes, post: bytes)
    requires Jsonlog.IsOneLine(line)
    ensures IndexFrom(line + [LF] + post, LF, 0) == |line|
  {
    var data := line + [LF] + post;
    assert data[|line|] == LF;
    assert forall k | 0 <= k < |line| :: data[k] == line[k] && line[k] in line;
  }

  /** A printed object and its newline are framed as one record, whatever stands behind them. */
  lemma ObjectIsFramed(entries: seq<Jsonlog.Entry>, post: bytes, emitTail: bool, atEOF: bool)
    requires Jsonlog.IsObject(entries)
    ensures var line := Jsonlog.PrintObject(entries);
      Split(Json(emitTail), line + [LF] + post, atEOF) == Cut(|line| + 1, Some(line))
  {
    var line := Jsonlog.PrintObject(entries);
    Jsonlog.ObjectIsOneLine(entries);
    NoNewlineIn(line, post);
    assert (line + [LF] + post)[..|line|] == line;
    assert line[|line| - 1] == Jsonlog.CLOSE;
  }

  /** A jsonlog file comes back object by object. */
  lemma {:induction false} JsonFileComesBack(objects: seq<seq<Jsonlog.Entry>>, emitTail: bool)
    requires forall i | 0 <= i < |objects| :: Jsonlog.IsObject(objects[i])
    ensures Tokens(Json(emitTail), FileOf(Objects(objects))) == Objects(objects)
    decreases |objects|
  {
    if objects != [] {
      var first, rest := objects[0], objects[1..];
      ObjectIsFramed(first, FileOf(Objects(rest)), emitTail, true);
      FirstToken(Json(emitTail), Jsonlog.PrintObject(first), FileOf(Objects(rest)));
      JsonFileComesBack(rest, emitTail);
      assert Objects(objects)[1..] == Objects(rest);
    }
  }
}
