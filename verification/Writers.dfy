/**
 * The writers of both formats: the sequence of calls that prints an event, proved to print its row
 * and its object, and what becomes of a written file when it is read.
 */
module Writers {
  import opened Bytes
  import opened Framing
  import opened Numbers
  import opened JsonKeys
  import opened Events
  import opened RoundTrips
  import Csvlog
  import Jsonlog

  // ----- Jsonlog -----

  /** The members written before the k-th key. */
  function EntriesUpto(v: Values, k: nat): seq<Jsonlog.Entry>
    requires k <= WRITTEN
  {
    if k == 0 then []
    else if v[k - 1].None? then EntriesUpto(v, k - 1)
    else EntriesUpto(v, k - 1) + [Jsonlog.Entry(KeyName(k - 1), v[k - 1].value)]
  }

  lemma {:induction false} UptoAndFrom(v: Values, k: nat)
    requires k <= WRITTEN
    ensures EntriesUpto(v, k) + EntriesFrom(v, k) == EntriesFrom(v, 0)
    decreases k
  {
    if k > 0 {
      UptoAndFrom(v, k - 1);
      OneOver(v, k - 1);
    } else {
      assert [] + EntriesFrom(v, 0) == EntriesFrom(v, 0);
    }
  }

  /** One key moves over. */
  lemma OneOver(v: Values, j: nat)
    requires j < WRITTEN
    ensures EntriesUpto(v, j + 1) + EntriesFrom(v, j + 1) == EntriesUpto(v, j) + EntriesFrom(v, j)
  {
    if v[j].Some? {
      OverOne(EntriesUpto(v, j), Jsonlog.Entry(KeyName(j), v[j].value), EntriesFrom(v, j + 1));
    }
  }

  lemma OverOne(a: seq<Jsonlog.Entry>, e: Jsonlog.Entry, b: seq<Jsonlog.Entry>)
    ensures a + [e] + b == a + ([e] + b)
  {
  }

  /** What the builder holds when the first k keys are done. */
  function Progress(v: Values, k: nat): bytes
    requires k <= WRITTEN
  {
    Jsonlog.Built([Jsonlog.OPEN], EntriesUpto(v, k))
  }

  /** done[k] is what the builder holds when the first k keys are done. */
  ghost predicate IsNext(done: seq<bytes>, v: Values, k: nat)
    requires |done| == WRITTEN + 1 && k < WRITTEN
  {
    done[k + 1] == if v[k].None? then done[k] else Jsonlog.Appended(done[k], Jsonlog.Entry(KeyName(k), v[k].value))
  }

  ghost predicate AreSteps(done: seq<bytes>, v: Values) {
    |done| == WRITTEN + 1 && forall k | 0 <= k < WRITTEN :: IsNext(done, v, k)
  }

  lemma ProgressSteps(v: Values) returns (done: seq<bytes>)
    ensures AreSteps(done, v) && done[0] == [Jsonlog.OPEN] && done[WRITTEN] + [Jsonlog.CLOSE] == Jsonlog.PrintObject(EntriesFrom(v, 0))
  {
    done := seq(WRITTEN + 1, k requires 0 <= k <= WRITTEN => Progress(v, k));
    forall k | 0 <= k < WRITTEN
      ensures IsNext(done, v, k)
    {
      NextKey(v, k);
    }
    AllWritten(v, WRITTEN);
  }

  lemma AllWritten(v: Values, k: nat)
    requires k == WRITTEN
    ensures Progress(v, k) + [Jsonlog.CLOSE] == Jsonlog.PrintObject(EntriesFrom(v, 0))
  {
    UptoAndFrom(v, k);
    assert EntriesUpto(v, k) + [] == EntriesUpto(v, k);
    Jsonlog.BuiltObject(EntriesFrom(v, 0));
  }

  lemma NextKey(v: Values, k: nat)
    requires k < WRITTEN
    ensures Progress(v, k + 1) ==
      if v[k].None? then Progress(v, k) else Jsonlog.Appended(Progress(v, k), Jsonlog.Entry(KeyName(k), v[k].value))
  {
    if v[k].Some? {
      Jsonlog.BuiltThen([Jsonlog.OPEN], EntriesUpto(v, k), Jsonlog.Entry(KeyName(k), v[k].value));
    }
  }

  method WriteText(sb: bytes, k: nat, t: bytes, ghost v: Values, ghost done: seq<bytes>) returns (r: bytes)
    requires k < WRITTEN && v[k] == Text(t) && AreSteps(done, v) && sb == done[k] && (k == 0 ==> |sb| == 1)
    ensures r == done[k + 1]
  {
    r := Jsonlog.JsonStr(sb, KeyName(k), t, k == 0);
    assert IsNext(done, v, k);
  }

  method WriteNumber(sb: bytes, k: nat, n: int, ghost v: Values, ghost done: seq<bytes>) returns (r: bytes)
    requires k < WRITTEN && v[k] == Number(n) && AreSteps(done, v) && sb == done[k]
    ensures r == done[k + 1]
  {
    r := Jsonlog.JsonNum(sb, KeyName(k), n);
    assert IsNext(done, v, k);
  }

  /** A number that is left out when it is zero. */
  method WriteUnlessZero(sb: bytes, k: nat, n: int, ghost v: Values, ghost done: seq<bytes>) returns (r: bytes)
    requires k < WRITTEN && v[k] == (if n == 0 then None else Number(n)) && AreSteps(done, v) && sb == done[k]
    ensures r == done[k + 1]
  {
    r := sb;
    if n != 0 {
      r := WriteNumber(sb, k, n, v, done);
    }
    assert IsNext(done, v, k);
  }

  method WriteConnection(e: Event, ghost v: Values, ghost done: seq<bytes>) returns (sb: bytes)
    requires v == JsonValues(e) && AreSteps(done, v) && done[0] == [Jsonlog.OPEN]
    ensures sb == done[7]
  {
    sb := [Jsonlog.OPEN];
    sb := WriteText(sb, 0, e.time, v, done);
    sb := WriteText(sb, 1, e.user, v, done);
    sb := WriteText(sb, 2, e.database, v, done);
    sb := WriteNumber(sb, 3, e.pid, v, done);
    sb := WriteText(sb, 4, e.host, v, done);
    sb := WriteUnlessZero(sb, 5, e.port, v, done);
    sb := WriteText(sb, 6, e.sessionID, v, done);
  }

  method WriteSession(e: Event, start: bytes, ghost v: Values, ghost done: seq<bytes>) returns (sb: bytes)
    requires v == JsonValues(e) && AreSteps(done, v) && start == done[7]
    ensures sb == done[14]
  {
    sb := WriteNumber(start, 7, e.lineNum, v, done);
    sb := WriteText(sb, 8, e.tag, v, done);
    sb := WriteText(sb, 9, e.started, v, done);
    sb := WriteText(sb, 10, e.vxid, v, done);
    sb := WriteNumber(sb, 11, e.txid, v, done);
    sb := WriteText(sb, 12, e.severity, v, done);
    sb := WriteText(sb, 13, e.sqlState, v, done);
  }

  method WriteTexts(e: Event, start: bytes, ghost v: Values, ghost done: seq<bytes>) returns (sb: bytes)
    requires v == JsonValues(e) && AreSteps(done, v) && start == done[14]
    ensures sb == done[18]
  {
    sb := WriteText(start, 14, e.message, v, done);
    sb := WriteText(sb, 15, e.detail, v, done);
    sb := WriteText(sb, 16, e.hint, v, done);
    sb := WriteText(sb, 17, e.statement, v, done);
  }

  method WriteOrigin(e: Event, start: bytes, ghost v: Values, ghost done: seq<bytes>) returns (sb: bytes)
    requires v == JsonValues(e) && AreSteps(done, v) && start == done[18]
    ensures sb == done[WRITTEN]
  {
    sb := WriteText(start, 18, e.app, v, done);
    sb := WriteText(sb, 19, e.backend, v, done);
    sb := WriteUnlessZero(sb, 20, e.queryID, v, done);
  }

  /** One event, without its newline. */
  method WriteObject(e: Event) returns (line: bytes)
    ensures line == JsonLine(e)
  {
    ghost var v := JsonValues(e);
    ghost var done := ProgressSteps(v);
    var sb := WriteConnection(e, v, done);
    sb := WriteSession(e, sb, v, done);
    sb := WriteTexts(e, sb, v, done);
    sb := WriteOrigin(e, sb, v, done);
    line := sb + [Jsonlog.CLOSE];
  }

  /** The lines of a jsonlog file. */
  function ObjectLines(events: seq<Event>): (lines: seq<bytes>)
    ensures |lines| == |events| && forall i | 0 <= i < |events| :: lines[i] == JsonLine(events[i])
  {
    seq(|events|, i requires 0 <= i < |events| => JsonLine(events[i]))
  }

  lemma {:induction false} FileOfMore(lines: seq<bytes>, line: bytes)
    ensures FileOf(lines + [line]) == FileOf(lines) + line + [LF]
  {
    if lines == [] {
      assert [] + [line] == [line];
      assert [line][1..] == [];
    } else {
      assert (lines + [line])[1..] == lines[1..] + [line];
      FileOfMore(lines[1..], line);
    }
  }

  lemma NextLine(lines: seq<bytes>, i: nat, out: bytes)
    requires i < |lines| && out == FileOf(lines[..i])
    ensures out + lines[i] + [LF] == FileOf(lines[..i + 1])
  {
    assert lines[..i + 1] == lines[..i] + [lines[i]];
    FileOfMore(lines[..i], lines[i]);
  }

  lemma AllLines(lines: seq<bytes>)
    ensures lines[..|lines|] == lines
  {
  }

  /** A jsonlog file. */
  method WriteJSON(events: seq<Event>) returns (out: bytes)
    ensures out == FileOf(ObjectLines(events))
  {
    out := [];
    ghost var lines := ObjectLines(events);
    for i := 0 to |events|
      invariant out == FileOf(lines[..i])
    {
      var line := WriteObject(events[i]);
      NextLine(lines, i, out);
      out := out + line + [LF];
    }
    AllLines(lines);
  }

  // ----- Csvlog -----

  /** The first k columns, a ',' behind each. */
  function ColumnsUpto(row: seq<Csvlog.Field>, k: nat): bytes
    requires k <= |row|
  {
    if k == 0 then [] else ColumnsUpto(row, k - 1) + Csvlog.Print(row[k - 1]) + [COMMA]
  }

  lemma {:induction false} ColumnsBehind(row: seq<Csvlog.Field>, k: nat)
    requires k < |row|
    ensures ColumnsUpto(row, k) + Csvlog.PrintRow(row[k..]) == Csvlog.PrintRow(row)
  {
    if k == 0 {
      assert row[0..] == row && [] + Csvlog.PrintRow(row) == Csvlog.PrintRow(row);
    } else {
      ColumnsBehind(row, k - 1);
      assert row[k - 1..][1..] == row[k..];
      var a, b, c := ColumnsUpto(row, k - 1), Csvlog.Print(row[k - 1]), Csvlog.PrintRow(row[k..]);
      assert a + b + [COMMA] + c == a + (b + [COMMA] + c);
    }
  }

  ghost predicate IsNextColumn(done: seq<bytes>, row: seq<Csvlog.Field>, k: nat)
    requires |done| == |row| && k + 1 < |row|
  {
    done[k + 1] == done[k] + Csvlog.Print(row[k]) + [COMMA]
  }

  /** done[k] holds the first k columns, a ',' behind each. */
  ghost predicate AreColumns(done: seq<bytes>, row: seq<Csvlog.Field>) {
    |done| == |row| > 0 && done[0] == [] && forall k | 0 <= k < |row| - 1 :: IsNextColumn(done, row, k)
  }

  lemma RowSteps(row: seq<Csvlog.Field>) returns (done: seq<bytes>)
    requires row != []
    ensures AreColumns(done, row) && done[|row| - 1] + Csvlog.Print(row[|row| - 1]) == Csvlog.PrintRow(row)
  {
    done := seq(|row|, k requires 0 <= k < |row| => ColumnsUpto(row, k));
    forall k | 0 <= k < |row| - 1
      ensures IsNextColumn(done, row, k)
    {
    }
    ColumnsBehind(row, |row| - 1);
  }

  method PutQuoted(sb: bytes, k: nat, t: bytes, ghost row: seq<Csvlog.Field>, ghost done: seq<bytes>) returns (r: bytes)
    requires AreColumns(done, row) && k + 1 < |row| && row[k] == Csvlog.Quoted(t) && sb == done[k]
    ensures r == done[k + 1]
  {
    r := Csvlog.EscapeCSV(sb, t);
    r := r + [COMMA];
    assert IsNextColumn(done, row, k);
  }

  /** The last column of a row has no ',' behind it. */
  method PutLast(sb: bytes, t: bytes, ghost f: Csvlog.Field) returns (r: bytes)
    requires f == Csvlog.Quoted(t)
    ensures r == sb + Csvlog.Print(f)
  {
    r := Csvlog.EscapeCSV(sb, t);
  }

  method PutPlain(sb: bytes, k: nat, t: bytes, ghost row: seq<Csvlog.Field>, ghost done: seq<bytes>) returns (r: bytes)
    requires AreColumns(done, row) && k + 1 < |row| && row[k] == Csvlog.Plain(t) && sb == done[k]
    ensures r == done[k + 1]
  {
    r := sb + t + [COMMA];
    assert IsNextColumn(done, row, k);
  }

  /** The host and the port, when there is a host. */
  method PutHost(sb: bytes, e: Event, ghost row: seq<Csvlog.Field>, ghost done: seq<bytes>) returns (r: bytes)
    requires AreColumns(done, row) && 5 < |row| && row[4] == CsvField(e, 4) && sb == done[4]
    ensures r == done[5]
  {
    if e.host == [] {
      r := PutPlain(sb, 4, [], row, done);
    } else {
      r := PutQuoted(sb, 4, e.host + [Jsonlog.COLON] + FormatInt(e.port), row, done);
    }
  }

  /** The row of e has at least 23 columns. */
  ghost predicate IsRowOf(row: seq<Csvlog.Field>, e: Event) { |row| >= 23 && forall k | 0 <= k < |row| :: row[k] == CsvField(e, k) }

  method PutConnection(e: Event, ghost row: seq<Csvlog.Field>, ghost done: seq<bytes>) returns (sb: bytes)
    requires IsRowOf(row, e) && AreColumns(done, row)
    ensures sb == done[7]
  {
    sb := PutPlain([], 0, e.time, row, done);
    sb := PutQuoted(sb, 1, e.user, row, done);
    sb := PutQuoted(sb, 2, e.database, row, done);
    sb := PutPlain(sb, 3, FormatInt(e.pid), row, done);
    sb := PutHost(sb, e, row, done);
    sb := PutPlain(sb, 5, e.sessionID, row, done);
    sb := PutPlain(sb, 6, FormatInt(e.lineNum), row, done);
  }

  method PutSession(e: Event, start: bytes, ghost row: seq<Csvlog.Field>, ghost done: seq<bytes>) returns (sb: bytes)
    requires IsRowOf(row, e) && AreColumns(done, row) && start == done[7]
    ensures sb == done[13]
  {
    sb := PutQuoted(start, 7, e.tag, row, done);
    sb := PutPlain(sb, 8, e.started, row, done);
    sb := PutPlain(sb, 9, e.vxid, row, done);
    sb := PutPlain(sb, 10, FormatInt(e.txid), row, done);
    sb := PutPlain(sb, 11, e.severity, row, done);
    sb := PutPlain(sb, 12, e.sqlState, row, done);
  }

  method PutTexts(e: Event, start: bytes, ghost row: seq<Csvlog.Field>, ghost done: seq<bytes>) returns (sb: bytes)
    requires IsRowOf(row, e) && AreColumns(done, row) && start == done[13]
    ensures sb == done[19]
  {
    sb := PutQuoted(start, 13, e.message, row, done);
    sb := PutQuoted(sb, 14, e.detail, row, done);
    sb := PutQuoted(sb, 15, e.hint, row, done);
    sb := PutPlain(sb, 16, [], row, done);
    sb := PutPlain(sb, 17, [], row, done);
    sb := PutPlain(sb, 18, [], row, done);
  }

  method PutStatement(e: Event, start: bytes, ghost row: seq<Csvlog.Field>, ghost done: seq<bytes>) returns (sb: bytes)
    requires IsRowOf(row, e) && AreColumns(done, row) && start == done[19]
    ensures sb == done[22]
  {
    sb := PutQuoted(start, 19, e.statement, row, done);
    sb := PutPlain(sb, 20, [], row, done);
    sb := PutPlain(sb, 21, [], row, done);
  }

  /** The last columns of the newest layout; the last one has no ',' behind it. */
  method PutQueryID(e: Event, start: bytes, ghost row: seq<Csvlog.Field>, ghost done: seq<bytes>) returns (sb: bytes)
    requires IsRowOf(row, e) && AreColumns(done, row) && |row| == 26 && start == done[23]
    ensures sb == done[25] + Csvlog.Print(row[25])
  {
    sb := PutQuoted(start, 23, e.backend, row, done);
    sb := PutPlain(sb, 24, [], row, done);
    sb := sb + FormatInt(e.queryID);
  }

  /** The columns from the application's name on. */
  method PutOrigin(e: Event, start: bytes, ghost row: seq<Csvlog.Field>, ghost done: seq<bytes>, columns: nat) returns (sb: bytes)
    requires IsRowOf(row, e) && AreColumns(done, row) && |row| == columns && IsLayout(columns) && start == done[22]
    ensures sb == done[columns - 1] + Csvlog.Print(row[columns - 1])
  {
    assert row[22] == Csvlog.Quoted(e.app);
    if columns == 23 {
      sb := PutLast(start, e.app, row[22]);
    } else {
      sb := PutQuoted(start, 22, e.app, row, done);
      sb := PutBackend(e, sb, row, done, columns);
    }
  }

  method PutBackend(e: Event, start: bytes, ghost row: seq<Csvlog.Field>, ghost done: seq<bytes>, columns: nat) returns (sb: bytes)
    requires IsRowOf(row, e) && AreColumns(done, row) && |row| == columns && (columns == 24 || columns == 26) && start == done[23]
    ensures sb == done[columns - 1] + Csvlog.Print(row[columns - 1])
  {
    if columns == 24 {
      sb := PutLast(start, e.backend, row[23]);
    } else {
      sb := PutQueryID(e, start, row, done);
    }
  }

  /** One event in the layout of that many columns, without its newline. */
  method WriteRow(e: Event, columns: nat) returns (line: bytes)
    requires IsLayout(columns)
    ensures line == Csvlog.PrintRow(CsvRow(e, columns))
  {
    ghost var row := CsvRow(e, columns);
    ghost var done := RowSteps(row);
    line := PutConnection(e, row, done);
    line := PutSession(e, line, row, done);
    line := PutTexts(e, line, row, done);
    line := PutStatement(e, line, row, done);
    line := PutOrigin(e, line, row, done, columns);
  }

  function CsvRows(events: seq<Event>, columns: nat): (rows: seq<seq<Csvlog.Field>>)
    ensures |rows| == |events| && forall i | 0 <= i < |events| :: rows[i] == CsvRow(events[i], columns)
  {
    seq(|events|, i requires 0 <= i < |events| => CsvRow(events[i], columns))
  }

  function RowLines(events: seq<Event>, columns: nat): (lines: seq<bytes>)
    requires IsLayout(columns)
    ensures |lines| == |events| && forall i | 0 <= i < |events| :: lines[i] == Csvlog.PrintRow(CsvRow(events[i], columns))
  {
    seq(|events|, i requires 0 <= i < |events| => Csvlog.PrintRow(CsvRow(events[i], columns)))
  }

  /** A csvlog file. */
  method WriteCSV(events: seq<Event>, columns: nat) returns (out: bytes)
    requires IsLayout(columns)
    ensures out == FileOf(RowLines(events, columns))
  {
    out := [];
    ghost var lines := RowLines(events, columns);
    for i := 0 to |events|
      invariant out == FileOf(lines[..i])
    {
      var line := WriteRow(events[i], columns);
      NextLine(lines, i, out);
      out := out + line + [LF];
    }
    AllLines(lines);
  }

  // ----- Written files come back -----

  lemma RowsAreLines(rows: seq<seq<Csvlog.Field>>, lines: seq<bytes>)
    requires AreRows(rows) && |lines| == |rows| && forall i | 0 <= i < |rows| :: lines[i] == Csvlog.PrintRow(rows[i])
    ensures Rows(rows) == lines
  {
    forall i | 0 <= i < |rows|
      ensures Rows(rows)[i] == lines[i]
    {
      RowAt(rows, i);
    }
  }

  /** The rows of a written csvlog file are framed one by one, and each says what its event says. */
  lemma WrittenRowsComeBack(events: seq<Event>, columns: nat, emitTail: bool)
    requires IsLayout(columns) && forall i | 0 <= i < |events| :: Fits(events[i]) && IsPlainEvent(events[i])
    ensures var tokens := Tokens(Csv(emitTail), FileOf(RowLines(events, columns)));
      && |tokens| == |events|
      && forall i | 0 <= i < |events| :: CsvParsed(Csvlog.ColumnsFrom(tokens[i], 0)) == Some(SaidIn(events[i], columns))
  {
    var rows, lines := CsvRows(events, columns), RowLines(events, columns);
    forall i | 0 <= i < |events|
      ensures Csvlog.IsRow(rows[i]) && |rows[i]| > 1
      ensures CsvParsed(Csvlog.ColumnsFrom(lines[i], 0)) == Some(SaidIn(events[i], columns))
    {
      RowIsRow(events[i], columns);
      CsvReads(events[i], columns);
    }
    RowsAreLines(rows, lines);
    CsvFileComesBack(rows, emitTail);
  }

  lemma RowIsRow(e: Event, columns: nat)
    requires IsLayout(columns) && IsPlainEvent(e)
    ensures Csvlog.IsRow(CsvRow(e, columns)) && |CsvRow(e, columns)| > 1
  {
    forall k | 0 <= k < columns
      ensures Csvlog.Printable(CsvRow(e, columns)[k])
    {
      FieldIsPrintable(e, k);
    }
  }

  function JsonObjects(events: seq<Event>): (objects: seq<seq<Jsonlog.Entry>>)
    ensures |objects| == |events| && forall i | 0 <= i < |events| :: objects[i] == EntriesFrom(JsonValues(events[i]), 0)
  {
    seq(|events|, i requires 0 <= i < |events| => EntriesFrom(JsonValues(events[i]), 0))
  }

  lemma ObjectsAreLines(objects: seq<seq<Jsonlog.Entry>>, lines: seq<bytes>)
    requires |lines| == |objects| && forall i | 0 <= i < |objects| :: lines[i] == Jsonlog.PrintObject(objects[i])
    ensures Objects(objects) == lines
  {
    forall i | 0 <= i < |objects|
      ensures Objects(objects)[i] == lines[i]
    {
      ObjectAt(objects, i);
    }
  }

  /** The objects of a written jsonlog file are framed one by one, and each says what its event says. */
  lemma WrittenObjectsComeBack(events: seq<Event>, emitTail: bool)
    requires forall i | 0 <= i < |events| :: Fits(events[i]) && IsUnescapedEvent(events[i])
    ensures var tokens := Tokens(Json(emitTail), FileOf(ObjectLines(events)));
      && |tokens| == |events|
      && forall i | 0 <= i < |events| :: JsonParsed(Jsonlog.ObjectMembers(tokens[i])) == Some(Said(events[i]))
  {
    var objects, lines := JsonObjects(events), ObjectLines(events);
    forall i | 0 <= i < |events|
      ensures Jsonlog.IsObject(objects[i]) && lines[i] == Jsonlog.PrintObject(objects[i])
      ensures JsonParsed(Jsonlog.ObjectMembers(lines[i])) == Some(Said(events[i]))
    {
      EntriesAreNamed(JsonValues(events[i]), 0);
      JsonReads(events[i]);
    }
    ObjectsAreLines(objects, lines);
    JsonFileComesBack(objects, emitTail);
  }
}
