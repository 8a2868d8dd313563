/**
 * One event in both formats: the csvlog row and the jsonlog object that the writers print, what the
 * parsers read out of them, and that the two agree.
 */
module Events {
  import opened Bytes
  import opened Numbers
  import Csvlog
  import Jsonlog
  import opened JsonKeys
  import Unescaping

  /** An event; its two times are given as they are printed. */
  datatype Event = Event(
    time: bytes, user: bytes, database: bytes, pid: int, host: bytes, port: int, sessionID: bytes, lineNum: int,
    tag: bytes, started: bytes, vxid: bytes, txid: int, severity: bytes, sqlState: bytes, message: bytes,
    detail: bytes, hint: bytes, statement: bytes, app: bytes, backend: bytes, queryID: int)

  /** What a record of either format says, its texts unquoted. */
  datatype Parsed = Parsed(
    time: bytes, user: bytes, database: bytes, pid: int, from: bytes, sessionID: bytes, lineNum: int,
    tag: bytes, started: bytes, vxid: bytes, txid: int, severity: bytes, sqlState: bytes, message: bytes,
    detail: bytes, hint: bytes, query: bytes, app: bytes, backend: bytes, queryID: int)

  function HostAndPort(e: Event): bytes { e.host + [Jsonlog.COLON] + FormatInt(e.port) }

  /** An SQLSTATE that is not five bytes long counts as absent. */
  function StateOf(b: bytes): bytes { if |b| == 5 then b else [] }

  function OrZero(v: Option<int>): int { if v.Some? then v.value else 0 }

  /** What either format is to say about e. */
  function Said(e: Event): Parsed {
    Parsed(e.time, e.user, e.database, e.pid, if e.host == [] then [] else HostAndPort(e), e.sessionID, e.lineNum,
           e.tag, e.started, e.vxid, e.txid, e.severity, StateOf(e.sqlState), e.message,
           e.detail, e.hint, e.statement, e.app, e.backend, e.queryID)
  }

  /** The integers fit their widths. */
  predicate Fits(e: Event) { IsInt32(e.pid) && IsInt64(e.lineNum) && IsInt64(e.txid) && IsInt64(e.queryID) }

  /** The columns that csvlog writes without quotes need none. */
  predicate IsPlainEvent(e: Event) {
    && Csvlog.IsPlain(e.time) && Csvlog.IsPlain(e.started) && Csvlog.IsPlain(e.sessionID)
    && Csvlog.IsPlain(e.vxid) && Csvlog.IsPlain(e.severity) && Csvlog.IsPlain(e.sqlState)
  }

  /** The values that the jsonlog parser takes as they are need no escape, and a host has a port. */
  predicate IsUnescapedEvent(e: Event) {
    && !Jsonlog.HasEscape(e.time) && !Jsonlog.HasEscape(e.started) && !Jsonlog.HasEscape(e.sqlState)
    && !Jsonlog.HasEscape(e.host) && (e.host == [] || e.port != 0)
  }

  // ----- Csvlog -----

  function Digits(v: int): Csvlog.Field { Csvlog.Plain(FormatInt(v)) }

  function CsvField(e: Event, k: nat): Csvlog.Field {
    match k
    case 0 => Csvlog.Plain(e.time)
    case 1 => Csvlog.Quoted(e.user)
    case 2 => Csvlog.Quoted(e.database)
    case 3 => Digits(e.pid)
    case 4 => if e.host == [] then Csvlog.Plain([]) else Csvlog.Quoted(HostAndPort(e))
    case 5 => Csvlog.Plain(e.sessionID)
    case 6 => Digits(e.lineNum)
    case 7 => Csvlog.Quoted(e.tag)
    case 8 => Csvlog.Plain(e.started)
    case 9 => Csvlog.Plain(e.vxid)
    case 10 => Digits(e.txid)
    case 11 => Csvlog.Plain(e.severity)
    case 12 => Csvlog.Plain(e.sqlState)
    case 13 => Csvlog.Quoted(e.message)
    case 14 => Csvlog.Quoted(e.detail)
    case 15 => Csvlog.Quoted(e.hint)
    case 19 => Csvlog.Quoted(e.statement)
    case 22 => Csvlog.Quoted(e.app)
    case 23 => Csvlog.Quoted(e.backend)
    case 25 => Digits(e.queryID)
    case _ => Csvlog.Plain([])
  }

  /** The layouts of PostgreSQL 12, 13 and 14. */
  predicate IsLayout(columns: nat) { columns == 23 || columns == 24 || columns == 26 }

  function CsvRow(e: Event, columns: nat): (row: seq<Csvlog.Field>)
    ensures |row| == columns && forall k | 0 <= k < columns :: row[k] == CsvField(e, k)
  {
    seq(columns, k requires 0 <= k < columns => CsvField(e, k))
  }

  /** A column as the caller sees it, unquoted when the record is flagged. */
  function CsvText(raw: bytes, doubled: bool): bytes { if doubled then Csvlog.Unquoted(raw) else raw }

  /** What the parser makes of the columns of a row; None for a row that is too short. */
  function CsvParsed(c: Csvlog.Columns): Option<Parsed> {
    if c.Broken? || |c.vals| < 23 then None
    else
      var v, d := c.vals, c.doubled;
      Some(Parsed(
        v[0], CsvText(v[1], d), CsvText(v[2], d), OrZero(Signed32(v[3])), CsvText(v[4], d), CsvText(v[5], d), OrZero(Signed(v[6])),
        CsvText(v[7], d), v[8], CsvText(v[9], d), OrZero(Signed(v[10])), CsvText(v[11], d), StateOf(v[12]), CsvText(v[13], d),
        CsvText(v[14], d), CsvText(v[15], d), CsvText(v[19], d), CsvText(v[22], d),
        if |v| > 23 then CsvText(v[23], d) else [], if |v| > 25 then OrZero(Signed(v[25])) else 0))
  }

  lemma DigitsArePlain(v: int)
    ensures Csvlog.IsPlain(FormatInt(v))
  {
  }

  lemma FieldIsPrintable(e: Event, k: nat)
    requires IsPlainEvent(e)
    ensures Csvlog.Printable(CsvField(e, k))
  {
    DigitsArePlain(e.pid);
    DigitsArePlain(e.lineNum);
    DigitsArePlain(e.txid);
    DigitsArePlain(e.queryID);
  }

  lemma NoQuotesInRow(fields: seq<Csvlog.Field>, k: nat)
    requires !Csvlog.HasQuote(fields) && k < |fields|
    ensures !Csvlog.Quotes(fields[k])
    decreases k
  {
    if k > 0 {
      NoQuotesInRow(fields[1..], k - 1);
    }
  }

  /** A column reads back as its text, whether or not the record is flagged. */
  lemma ColumnReads(fields: seq<Csvlog.Field>, k: nat)
    requires k < |fields| && Csvlog.Printable(fields[k])
    ensures CsvText(Csvlog.Raw(fields[k]), Csvlog.HasQuote(fields)) == fields[k].text
  {
    var f := fields[k];
    if f.Plain? {
      Csvlog.UnquotedPlain(f.text);
    } else if Csvlog.HasQuote(fields) {
      Csvlog.UnquotedDoubled(f.text);
    } else {
      NoQuotesInRow(fields, k);
      Csvlog.UnquotedPlain(f.text);
    }
  }

  lemma NumbersRead(e: Event)
    requires Fits(e)
    ensures Signed32(FormatInt(e.pid)) == Some(e.pid) && Signed(FormatInt(e.lineNum)) == Some(e.lineNum)
    ensures Signed(FormatInt(e.txid)) == Some(e.txid) && Signed(FormatInt(e.queryID)) == Some(e.queryID)
  {
    PrintedReadsBack(e.pid);
    PrintedReadsBack(e.lineNum);
    PrintedReadsBack(e.txid);
    PrintedReadsBack(e.queryID);
  }

  /** What a row of a layout says: the older ones lack the last columns. */
  function SaidIn(e: Event, columns: nat): Parsed {
    Said(e).(backend := if columns > 23 then e.backend else [], queryID := if columns > 25 then e.queryID else 0)
  }

  /** The columns of e's row, as text and as they are. */
  ghost predicate ReadsAs(c: Csvlog.Columns, e: Event, columns: nat) {
    && c.Columns? && |c.vals| == columns
    && (forall k | 0 <= k < columns :: CsvText(c.vals[k], c.doubled) == CsvField(e, k).text)
    && (forall k | 0 <= k < columns && CsvField(e, k).Plain? :: c.vals[k] == CsvField(e, k).text)
  }

  lemma RowReads(e: Event, columns: nat)
    requires IsPlainEvent(e) && 0 < columns
    ensures ReadsAs(Csvlog.ColumnsFrom(Csvlog.PrintRow(CsvRow(e, columns)), 0), e, columns)
  {
    var row := CsvRow(e, columns);
    forall k | 0 <= k < columns
      ensures Csvlog.Printable(row[k])
    {
      FieldIsPrintable(e, k);
    }
    Csvlog.RowSplits(row);
    forall k | 0 <= k < columns
      ensures CsvText(Csvlog.Raws(row)[k], Csvlog.HasQuote(row)) == CsvField(e, k).text
    {
      ColumnReads(row, k);
    }
  }

  lemma PlainColumns(c: Csvlog.Columns, e: Event, columns: nat)
    requires columns >= 23 && ReadsAs(c, e, columns)
    ensures c.vals[0] == e.time && c.vals[8] == e.started && c.vals[12] == e.sqlState
    ensures c.vals[3] == FormatInt(e.pid) && c.vals[6] == FormatInt(e.lineNum) && c.vals[10] == FormatInt(e.txid)
    ensures columns > 25 ==> c.vals[25] == FormatInt(e.queryID)
  {
  }

  lemma FirstTexts(c: Csvlog.Columns, e: Event, columns: nat)
    requires columns >= 23 && ReadsAs(c, e, columns)
    ensures var v, d := c.vals, c.doubled;
      && CsvText(v[1], d) == e.user && CsvText(v[2], d) == e.database && CsvText(v[5], d) == e.sessionID
      && CsvText(v[7], d) == e.tag && CsvText(v[9], d) == e.vxid && CsvText(v[11], d) == e.severity
      && CsvText(v[4], d) == if e.host == [] then [] else HostAndPort(e)
  {
  }

  lemma LastTexts(c: Csvlog.Columns, e: Event, columns: nat)
    requires columns >= 23 && ReadsAs(c, e, columns)
    ensures var v, d := c.vals, c.doubled;
      && CsvText(v[13], d) == e.message && CsvText(v[14], d) == e.detail && CsvText(v[15], d) == e.hint
      && CsvText(v[19], d) == e.statement && CsvText(v[22], d) == e.app
      && (columns > 23 ==> CsvText(v[23], d) == e.backend)
  {
  }

  lemma FieldsParse(c: Csvlog.Columns, e: Event, columns: nat)
    requires Fits(e) && IsLayout(columns) && ReadsAs(c, e, columns)
    ensures CsvParsed(c) == Some(SaidIn(e, columns))
  {
    NumbersRead(e);
    PlainColumns(c, e, columns);
    FirstTexts(c, e, columns);
    LastTexts(c, e, columns);
  }

  /** A csvlog row of every layout says what the event says, whatever its quoted columns hold. */
  lemma CsvReads(e: Event, columns: nat)
    requires Fits(e) && IsPlainEvent(e) && IsLayout(columns)
    ensures CsvParsed(Csvlog.ColumnsFrom(Csvlog.PrintRow(CsvRow(e, columns)), 0)) == Some(SaidIn(e, columns))
  {
    RowReads(e, columns);
    FieldsParse(Csvlog.ColumnsFrom(Csvlog.PrintRow(CsvRow(e, columns)), 0), e, columns);
  }

  // ----- Jsonlog -----

  /** The value of the k-th key in the order they are written; None for a key that is left out. */
  function JsonValue(e: Event, k: nat): Option<Jsonlog.Value> {
    match k
    case 0 => Text(e.time)
    case 1 => Text(e.user)
    case 2 => Text(e.database)
    case 3 => Number(e.pid)
    case 4 => Text(e.host)
    case 5 => if e.port == 0 then None else Number(e.port)
    case 6 => Text(e.sessionID)
    case 7 => Number(e.lineNum)
    case 8 => Text(e.tag)
    case 9 => Text(e.started)
    case 10 => Text(e.vxid)
    case 11 => Number(e.txid)
    case 12 => Text(e.severity)
    case 13 => Text(e.sqlState)
    case 14 => Text(e.message)
    case 15 => Text(e.detail)
    case 16 => Text(e.hint)
    case 17 => Text(e.statement)
    case 18 => Text(e.app)
    case 19 => Text(e.backend)
    case 20 => if e.queryID == 0 then None else Number(e.queryID)
    case _ => None
  }

  /** An empty string is left out. */
  function Text(t: bytes): Option<Jsonlog.Value> { if t == [] then None else Some(Jsonlog.Str(t)) }

  function Number(n: int): Option<Jsonlog.Value> { Some(Jsonlog.Num(n)) }

  const WRITTEN: nat := 21

  type Values = v: seq<Option<Jsonlog.Value>> | |v| == WRITTEN witness seq(WRITTEN, _ => None)

  function JsonValues(e: Event): (v: Values)
    ensures forall k | 0 <= k < WRITTEN :: v[k] == JsonValue(e, k)
  {
    seq(WRITTEN, k requires 0 <= k < WRITTEN => JsonValue(e, k))
  }

  /** The members written from the k-th key on. */
  function EntriesFrom(v: Values, k: nat): seq<Jsonlog.Entry>
    decreases WRITTEN - k
  {
    if k >= WRITTEN then []
    else if v[k].None? then EntriesFrom(v, k + 1)
    else [Jsonlog.Entry(KeyName(k), v[k].value)] + EntriesFrom(v, k + 1)
  }

  /** The value visited last for a key. */
  function Lookup(ms: seq<Jsonlog.Member>, k: nat): Option<Jsonlog.Raw> {
    if ms == [] then None
    else
      var later := Lookup(ms[1..], k);
      if later.Some? then later else if KeyOf(ms[0].key) == k then Some(ms[0].val) else None
  }

  /** The keys whose values are handed to the caller as they are, with their escapes. */
  predicate IsTextKey(k: nat) { k in {1, 2, 6, 8, 10, 12, 14, 15, 16, 17, 18, 19, 21, 23} }

  /** The flag of the record: a value that the caller sees has an escape. */
  predicate NeedsUnquote(ms: seq<Jsonlog.Member>) {
    ms != [] && ((ms[0].val.escaped && IsTextKey(KeyOf(ms[0].key))) || NeedsUnquote(ms[1..]))
  }

  /** The SQLSTATE: the value visited last for its key that is five bytes long. */
  function StateIn(ms: seq<Jsonlog.Member>): bytes {
    if ms == [] then []
    else
      var later := StateIn(ms[1..]);
      if later != [] then later else if KeyOf(ms[0].key) == STATE_CODE then StateOf(ms[0].val.raw) else []
  }

  const STATE_CODE: nat := 13

  function RawText(ms: seq<Jsonlog.Member>, k: nat): bytes { if Lookup(ms, k).Some? then Lookup(ms, k).value.raw else [] }

  /** A text as the caller sees it, unescaped when the record is flagged. */
  function JsonText(raw: bytes, flag: bool): bytes { if flag then Unescaping.Unescaped(raw) else raw }

  function JoinedFrom(host: bytes, port: bytes): bytes {
    if host == [] then [] else if port == [] then host else host + [Jsonlog.COLON] + port
  }

  /** What the parser makes of the members of an object; None for a line that is no object. */
  function JsonParsed(m: Jsonlog.Members): Option<Parsed> {
    if m.Bad? then None
    else
      var ms, f := m.list, NeedsUnquote(m.list);
      Some(Parsed(
        RawText(ms, 0), JsonText(RawText(ms, 1), f), JsonText(RawText(ms, 2), f), OrZero(Signed32(RawText(ms, 3))),
        JsonText(JoinedFrom(RawText(ms, 4), RawText(ms, 5)), f), JsonText(RawText(ms, 6), f), OrZero(Signed(RawText(ms, 7))),
        JsonText(RawText(ms, 8), f), RawText(ms, 9), JsonText(RawText(ms, 10), f), OrZero(Signed(RawText(ms, 11))),
        JsonText(RawText(ms, 12), f), StateIn(ms), JsonText(RawText(ms, 14), f),
        JsonText(RawText(ms, 15), f), JsonText(RawText(ms, 16), f), JsonText(RawText(ms, 17), f), JsonText(RawText(ms, 18), f),
        JsonText(RawText(ms, 19), f), OrZero(Signed(RawText(ms, 20)))))
  }

  // ----- Reading the members back -----

  /** The member that was written for the k-th key, if it was. */
  function Printed(v: Values, k: nat): Option<Jsonlog.Raw> {
    if k < WRITTEN && v[k].Some? then Some(Jsonlog.RawOf(v[k].value)) else None
  }

  function Written(v: Values, k: nat): seq<Jsonlog.Member> { Jsonlog.MembersOf(EntriesFrom(v, k)) }

  lemma WrittenStep(v: Values, j: nat)
    requires j < WRITTEN
    ensures Written(v, j) ==
      if v[j].None? then Written(v, j + 1)
      else [Jsonlog.Member(KeyName(j), Jsonlog.RawOf(v[j].value))] + Written(v, j + 1)
  {
    if v[j].Some? {
      Jsonlog.MembersOfStep(Jsonlog.Entry(KeyName(j), v[j].value), EntriesFrom(v, j + 1));
    }
  }

  lemma LookupCons(m: Jsonlog.Member, rest: seq<Jsonlog.Member>, k: nat)
    ensures Lookup([m] + rest, k) ==
      if Lookup(rest, k).Some? then Lookup(rest, k) else if KeyOf(m.key) == k then Some(m.val) else None
  {
    assert ([m] + rest)[1..] == rest;
  }

  lemma FlagCons(m: Jsonlog.Member, rest: seq<Jsonlog.Member>)
    ensures NeedsUnquote([m] + rest) == ((m.val.escaped && IsTextKey(KeyOf(m.key))) || NeedsUnquote(rest))
  {
    assert ([m] + rest)[1..] == rest;
  }

  lemma LookupStep(v: Values, j: nat, k: nat)
    requires j < WRITTEN
    ensures Lookup(Written(v, j), k) ==
      if Lookup(Written(v, j + 1), k).Some? then Lookup(Written(v, j + 1), k) else if j == k then Printed(v, k) else None
  {
    WrittenStep(v, j);
    if v[j].Some? {
      LookupCons(Jsonlog.Member(KeyName(j), Jsonlog.RawOf(v[j].value)), Written(v, j + 1), k);
      KeyIsItself(j);
    }
  }

  lemma {:induction false} LookupFinds(v: Values, j: nat, k: nat)
    requires j <= WRITTEN
    ensures Lookup(Written(v, j), k) == if j <= k then Printed(v, k) else None
    decreases WRITTEN - j
  {
    if j < WRITTEN {
      LookupFinds(v, j + 1, k);
      LookupStep(v, j, k);
    }
  }

  lemma StateCons(m: Jsonlog.Member, rest: seq<Jsonlog.Member>)
    ensures StateIn([m] + rest) ==
      if StateIn(rest) != [] then StateIn(rest) else if KeyOf(m.key) == STATE_CODE then StateOf(m.val.raw) else []
  {
    assert ([m] + rest)[1..] == rest;
  }

  lemma StateStep(v: Values, j: nat)
    requires j < WRITTEN
    ensures StateIn(Written(v, j)) ==
      if StateIn(Written(v, j + 1)) != [] then StateIn(Written(v, j + 1))
      else if j == STATE_CODE && v[j].Some? then StateOf(Jsonlog.RawOf(v[j].value).raw) else []
  {
    WrittenStep(v, j);
    if v[j].Some? {
      StateCons(Jsonlog.Member(KeyName(j), Jsonlog.RawOf(v[j].value)), Written(v, j + 1));
      KeyIsItself(j);
    }
  }

  lemma {:induction false} StateFinds(v: Values, j: nat)
    requires j <= WRITTEN
    ensures StateIn(Written(v, j)) ==
      if j <= STATE_CODE && v[STATE_CODE].Some? then StateOf(Jsonlog.RawOf(v[STATE_CODE].value).raw) else []
    decreases WRITTEN - j
  {
    if j < WRITTEN {
      StateFinds(v, j + 1);
      StateStep(v, j);
    }
  }

  lemma StateReads(v: Values, t: bytes)
    requires v[STATE_CODE] == Text(t) && !Jsonlog.HasEscape(t)
    ensures StateIn(Written(v, 0)) == StateOf(t)
  {
    StateFinds(v, 0);
    Jsonlog.EscapedBytes(t);
  }

  lemma FlagStep(v: Values, j: nat)
    requires j < WRITTEN
    ensures NeedsUnquote(Written(v, j)) ==
      ((v[j].Some? && Jsonlog.RawOf(v[j].value).escaped && IsTextKey(j)) || NeedsUnquote(Written(v, j + 1)))
  {
    WrittenStep(v, j);
    if v[j].Some? {
      FlagCons(Jsonlog.Member(KeyName(j), Jsonlog.RawOf(v[j].value)), Written(v, j + 1));
      KeyIsItself(j);
    }
  }

  /** The object is flagged if a text that the caller sees has an escape. */
  lemma {:induction false} FlagIsSet(v: Values, j: nat, k: nat)
    requires j <= k < WRITTEN && IsTextKey(k) && v[k].Some? && Jsonlog.RawOf(v[k].value).escaped
    ensures NeedsUnquote(Written(v, j))
    decreases k - j
  {
    if j < k {
      FlagIsSet(v, j + 1, k);
    }
    FlagStep(v, j);
  }

  /** The text written for a key, as the caller sees it. */
  lemma TextReads(v: Values, k: nat, t: bytes)
    requires k < WRITTEN && v[k] == Text(t) && (IsTextKey(k) || !Jsonlog.HasEscape(t))
    ensures JsonText(RawText(Written(v, 0), k), NeedsUnquote(Written(v, 0))) == t
    ensures !Jsonlog.HasEscape(t) ==> RawText(Written(v, 0), k) == t
  {
    LookupFinds(v, 0, k);
    Jsonlog.UnescapedEscaped(t);
    Jsonlog.EscapedBytes(t);
    if t != [] && IsTextKey(k) && Jsonlog.HasEscape(t) {
      FlagIsSet(v, 0, k);
    }
  }

  lemma NumberReads(v: Values, k: nat, n: int)
    requires k < WRITTEN && v[k] == Some(Jsonlog.Num(n))
    ensures RawText(Written(v, 0), k) == FormatInt(n)
  {
    LookupFinds(v, 0, k);
  }

  lemma {:induction false} EntriesAreNamed(v: Values, k: nat)
    ensures Jsonlog.IsObject(EntriesFrom(v, k))
    decreases if k < WRITTEN then WRITTEN - k else 0
  {
    if k < WRITTEN {
      EntriesAreNamed(v, k + 1);
      KeyIsName(k);
    }
  }

  predicate ShowsRaw(ms: seq<Jsonlog.Member>, k: nat, t: bytes) { RawText(ms, k) == t }

  lemma RawReads(v: Values, ms: seq<Jsonlog.Member>, k: nat, t: bytes)
    requires ms == Written(v, 0) && k < WRITTEN && v[k] == Text(t) && !Jsonlog.HasEscape(t)
    ensures ShowsRaw(ms, k, t)
  {
    TextReads(v, k, t);
  }

  /** The values that are taken as they are. */
  lemma RawsRead(e: Event, v: Values, ms: seq<Jsonlog.Member>)
    requires v == JsonValues(e) && IsUnescapedEvent(e) && ms == Written(v, 0)
    ensures ShowsRaw(ms, 0, e.time) && ShowsRaw(ms, 9, e.started) && ShowsRaw(ms, 4, e.host) && StateIn(ms) == StateOf(e.sqlState)
  {
    RawReads(v, ms, 0, e.time);
    RawReads(v, ms, 9, e.started);
    RawReads(v, ms, 4, e.host);
    StateReads(v, e.sqlState);
  }

  lemma NumbersComeBack(e: Event, v: Values)
    requires v == JsonValues(e)
    ensures var ms := Written(v, 0);
      RawText(ms, 3) == FormatInt(e.pid) && RawText(ms, 7) == FormatInt(e.lineNum) && RawText(ms, 11) == FormatInt(e.txid)
  {
    NumberReads(v, 3, e.pid);
    NumberReads(v, 7, e.lineNum);
    NumberReads(v, 11, e.txid);
  }

  /** The caller sees the text t under the k-th key. */
  predicate ShowsText(ms: seq<Jsonlog.Member>, k: nat, t: bytes) { JsonText(RawText(ms, k), NeedsUnquote(ms)) == t }

  lemma TextShows(v: Values, ms: seq<Jsonlog.Member>, k: nat, t: bytes)
    requires ms == Written(v, 0) && k < WRITTEN && v[k] == Text(t) && IsTextKey(k)
    ensures ShowsText(ms, k, t)
  {
    TextReads(v, k, t);
  }

  lemma FirstTextsRead(e: Event, v: Values, ms: seq<Jsonlog.Member>)
    requires v == JsonValues(e) && ms == Written(v, 0)
    ensures ShowsText(ms, 1, e.user) && ShowsText(ms, 2, e.database) && ShowsText(ms, 6, e.sessionID)
    ensures ShowsText(ms, 8, e.tag) && ShowsText(ms, 10, e.vxid) && ShowsText(ms, 12, e.severity)
  {
    TextShows(v, ms, 1, e.user);
    TextShows(v, ms, 2, e.database);
    TextShows(v, ms, 6, e.sessionID);
    TextShows(v, ms, 8, e.tag);
    TextShows(v, ms, 10, e.vxid);
    TextShows(v, ms, 12, e.severity);
  }

  lemma LastTextsRead(e: Event, v: Values, ms: seq<Jsonlog.Member>)
    requires v == JsonValues(e) && ms == Written(v, 0)
    ensures ShowsText(ms, 14, e.message) && ShowsText(ms, 15, e.detail) && ShowsText(ms, 16, e.hint)
    ensures ShowsText(ms, 17, e.statement) && ShowsText(ms, 18, e.app) && ShowsText(ms, 19, e.backend)
  {
    TextShows(v, ms, 14, e.message);
    TextShows(v, ms, 15, e.detail);
    TextShows(v, ms, 16, e.hint);
    TextShows(v, ms, 17, e.statement);
    TextShows(v, ms, 18, e.app);
    TextShows(v, ms, 19, e.backend);
  }

  lemma UnescapedPlain(t: bytes)
    requires !Jsonlog.HasEscape(t)
    ensures Unescaping.Unescaped(t) == t
  {
    Jsonlog.EscapedBytes(t);
    Jsonlog.UnescapedEscaped(t);
  }

  lemma FromReads(e: Event, v: Values)
    requires v == JsonValues(e) && IsUnescapedEvent(e) && RawText(Written(v, 0), 4) == e.host
    ensures var ms := Written(v, 0);
      JsonText(JoinedFrom(RawText(ms, 4), RawText(ms, 5)), NeedsUnquote(ms)) == if e.host == [] then [] else HostAndPort(e)
  {
    var flag := NeedsUnquote(Written(v, 0));
    if e.host == [] {
      PlainReads([], flag);
    } else {
      NumberReads(v, 5, e.port);
      HostIsPlain(e);
      PlainReads(HostAndPort(e), flag);
    }
  }

  lemma PlainReads(t: bytes, flag: bool)
    requires !Jsonlog.HasEscape(t)
    ensures JsonText(t, flag) == t
  {
    UnescapedPlain(t);
  }

  lemma HostIsPlain(e: Event)
    requires IsUnescapedEvent(e) && e.host != []
    ensures JoinedFrom(e.host, FormatInt(e.port)) == HostAndPort(e) && !Jsonlog.HasEscape(HostAndPort(e))
  {
    DigitsArePlain(e.port);
    assert forall c | c in FormatInt(e.port) :: IsDigit(c) || c == HYPHEN;
  }

  lemma NothingIsZero(v: Values, k: nat)
    requires k < WRITTEN && v[k].None?
    ensures OrZero(Signed(RawText(Written(v, 0), k))) == 0
  {
    LookupFinds(v, 0, k);
  }

  lemma QueryIDReads(e: Event, v: Values)
    requires v == JsonValues(e) && IsInt64(e.queryID)
    ensures OrZero(Signed(RawText(Written(v, 0), 20))) == e.queryID
  {
    if e.queryID == 0 {
      NothingIsZero(v, 20);
    } else {
      NumberReads(v, 20, e.queryID);
      PrintedReadsBack(e.queryID);
    }
  }

  lemma MembersParse(e: Event, v: Values, m: Jsonlog.Members)
    requires v == JsonValues(e) && Fits(e) && IsUnescapedEvent(e) && m == Jsonlog.Members(Written(v, 0))
    ensures JsonParsed(m) == Some(Said(e))
  {
    NumbersRead(e);
    RawsRead(e, v, m.list);
    NumbersComeBack(e, v);
    FirstTextsRead(e, v, m.list);
    LastTextsRead(e, v, m.list);
    FromReads(e, v);
    QueryIDReads(e, v);
  }

  function JsonLine(e: Event): bytes { Jsonlog.PrintObject(EntriesFrom(JsonValues(e), 0)) }

  /** A jsonlog object says what the event says, whatever its strings hold. */
  lemma JsonReads(e: Event)
    requires Fits(e) && IsUnescapedEvent(e)
    ensures JsonParsed(Jsonlog.ObjectMembers(JsonLine(e))) == Some(Said(e))
  {
    var v := JsonValues(e);
    EntriesAreNamed(v, 0);
    Jsonlog.ObjectComesBack(EntriesFrom(v, 0));
    MembersParse(e, v, Jsonlog.ObjectMembers(JsonLine(e)));
  }

  // ----- The two formats -----

  /** The csvlog row of PostgreSQL 14 and the jsonlog object of an event say the same. */
  lemma FormatsAgree(e: Event)
    requires Fits(e) && IsPlainEvent(e) && IsUnescapedEvent(e)
    ensures CsvParsed(Csvlog.ColumnsFrom(Csvlog.PrintRow(CsvRow(e, 26)), 0)) == JsonParsed(Jsonlog.ObjectMembers(JsonLine(e)))
    ensures JsonParsed(Jsonlog.ObjectMembers(JsonLine(e))) == Some(Said(e))
  {
    CsvReads(e, 26);
    JsonReads(e);
  }
}
