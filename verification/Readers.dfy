/** The parsers of both formats: from the text of a record to what it says, proved against Events. */
module Readers {
  import opened Bytes
  import opened Numbers
  import opened JsonKeys
  import opened Events
  import Csvlog
  import Jsonlog
  import Unescaping

  // ----- Csvlog -----

  /** A column as the caller sees it. */
  method Shown(raw: bytes, doubled: bool) returns (t: bytes)
    ensures t == CsvText(raw, doubled)
  {
    t := raw;
    if doubled {
      t := Csvlog.AppendUnquoted([], raw);
      assert [] + Csvlog.Unquoted(raw) == Csvlog.Unquoted(raw);
    }
  }

  method Number32(b: bytes) returns (v: int)
    ensures v == OrZero(Signed32(b))
  {
    var ok;
    v, ok := ParseInt32(b);
  }

  method Number64(b: bytes) returns (v: int)
    ensures v == OrZero(Signed(b))
  {
    var ok;
    v, ok := ParseInt(b);
  }

  /** f holds the first columns of a row, at least those that every layout has. */
  ghost predicate HasColumns(f: array<bytes>, v: seq<bytes>)
    reads f
  {
    Csvlog.Stored(f, v) && |v| >= 23
  }

  method ReadConnection(f: array<bytes>, d: bool, blank: Parsed, ghost v: seq<bytes>) returns (p: Parsed)
    requires HasColumns(f, v)
    ensures p == blank.(time := v[0], user := CsvText(v[1], d), database := CsvText(v[2], d), pid := OrZero(Signed32(v[3])),
                        from := CsvText(v[4], d), sessionID := CsvText(v[5], d), lineNum := OrZero(Signed(v[6])))
  {
    var pid := Number32(f[3]);
    var line := Number64(f[6]);
    var user := Shown(f[1], d);
    var database := Shown(f[2], d);
    var from := Shown(f[4], d);
    var session := Shown(f[5], d);
    p := blank.(time := f[0], user := user, database := database, pid := pid, from := from, sessionID := session, lineNum := line);
  }

  method ReadSession(f: array<bytes>, d: bool, blank: Parsed, ghost v: seq<bytes>) returns (p: Parsed)
    requires HasColumns(f, v)
    ensures p == blank.(tag := CsvText(v[7], d), started := v[8], vxid := CsvText(v[9], d), txid := OrZero(Signed(v[10])),
                        severity := CsvText(v[11], d), sqlState := StateOf(v[12]))
  {
    var txid := Number64(f[10]);
    var tag := Shown(f[7], d);
    var vxid := Shown(f[9], d);
    var severity := Shown(f[11], d);
    p := blank.(tag := tag, started := f[8], vxid := vxid, txid := txid, severity := severity, sqlState := StateOf(f[12]));
  }

  method ReadTexts(f: array<bytes>, d: bool, blank: Parsed, ghost v: seq<bytes>) returns (p: Parsed)
    requires HasColumns(f, v)
    ensures p == blank.(message := CsvText(v[13], d), detail := CsvText(v[14], d), hint := CsvText(v[15], d),
                        query := CsvText(v[19], d), app := CsvText(v[22], d))
  {
    var message := Shown(f[13], d);
    var detail := Shown(f[14], d);
    var hint := Shown(f[15], d);
    var query := Shown(f[19], d);
    var app := Shown(f[22], d);
    p := blank.(message := message, detail := detail, hint := hint, query := query, app := app);
  }

  /** The columns of the newer layouts, guarded by the number of columns. */
  method ReadOrigin(f: array<bytes>, d: bool, n: nat, blank: Parsed, ghost v: seq<bytes>) returns (p: Parsed)
    requires HasColumns(f, v) && n == |v|
    ensures p == blank.(backend := if n > 23 then CsvText(v[23], d) else [], queryID := if n > 25 then OrZero(Signed(v[25])) else 0)
  {
    p := blank.(backend := [], queryID := 0);
    if n > 23 {
      var backend := Shown(f[23], d);
      p := p.(backend := backend);
    }
    if n > 25 {
      var id := Number64(f[25]);
      p := p.(queryID := id);
    }
  }

  const BLANK := Parsed([], [], [], 0, [], [], 0, [], [], [], 0, [], [], [], [], [], [], [], [], 0)

  /** A csvlog record: None when it does not split or is too short. */
  method ParseCSV(rec: bytes, f: array<bytes>) returns (p: Option<Parsed>)
    requires f.Length == Csvlog.MAX_COLUMNS
    modifies f
    ensures p == CsvParsed(Csvlog.ColumnsFrom(rec, 0))
  {
    var ok, n, d := Csvlog.SplitFields(rec, f);
    if !ok || n < 23 {
      return None;
    }
    ghost var v := Csvlog.ColumnsFrom(rec, 0).vals;
    var r := ReadConnection(f, d, BLANK, v);
    r := ReadSession(f, d, r, v);
    r := ReadTexts(f, d, r, v);
    r := ReadOrigin(f, d, n, r, v);
    p := Some(r);
  }

  // ----- Jsonlog -----

  lemma {:induction false} LookupMore(a: seq<Jsonlog.Member>, m: Jsonlog.Member, k: nat)
    ensures Lookup(a + [m], k) == if KeyOf(m.key) == k then Some(m.val) else Lookup(a, k)
  {
    if a == [] {
      LookupCons(m, [], k);
      assert [] + [m] == [m] == [m] + [];
    } else {
      LookupMore(a[1..], m, k);
      assert (a + [m])[1..] == a[1..] + [m];
    }
  }

  lemma {:induction false} FlagMore(a: seq<Jsonlog.Member>, m: Jsonlog.Member)
    ensures NeedsUnquote(a + [m]) == (NeedsUnquote(a) || (m.val.escaped && IsTextKey(KeyOf(m.key))))
  {
    if a == [] {
      FlagCons(m, []);
      assert [] + [m] == [m] == [m] + [];
    } else {
      FlagMore(a[1..], m);
      assert (a + [m])[1..] == a[1..] + [m];
    }
  }

  lemma {:induction false} StateMore(a: seq<Jsonlog.Member>, m: Jsonlog.Member)
    ensures StateIn(a + [m]) == if KeyOf(m.key) == STATE_CODE && |m.val.raw| == 5 then m.val.raw else StateIn(a)
  {
    if a == [] {
      StateCons(m, []);
      assert [] + [m] == [m] == [m] + [];
    } else {
      StateMore(a[1..], m);
      assert (a + [m])[1..] == a[1..] + [m];
    }
  }

  /** What has been set when the members ms were visited. */
  ghost predicate IsSet(raws: seq<bytes>, flag: bool, ms: seq<Jsonlog.Member>) {
    && |raws| == KEYS + 1 && flag == NeedsUnquote(ms)
    && forall k | 0 <= k < KEYS :: raws[k] == if k == STATE_CODE then StateIn(ms) else RawText(ms, k)
  }

  /** One member: the value is kept under its key, a key that is not known is passed over. */
  method Visit(raws: seq<bytes>, flag: bool, m: Jsonlog.Member, ghost ms: seq<Jsonlog.Member>) returns (r: seq<bytes>, f: bool)
    requires IsSet(raws, flag, ms)
    ensures IsSet(r, f, ms + [m])
  {
    var k := KeyOf(m.key);
    r, f := raws, flag || (m.val.escaped && IsTextKey(k));
    if k != STATE_CODE || |m.val.raw| == 5 {
      r := raws[k := m.val.raw];
    }
    FlagMore(ms, m);
    StateMore(ms, m);
    forall j | 0 <= j < KEYS
      ensures r[j] == if j == STATE_CODE then StateIn(ms + [m]) else RawText(ms + [m], j)
    {
      LookupMore(ms, m, j);
    }
  }

  method ShownText(raw: bytes, flag: bool) returns (t: bytes)
    ensures t == JsonText(raw, flag)
  {
    t := raw;
    if flag {
      t := Unescaping.AppendUnescaped([], raw);
      assert [] + Unescaping.Unescaped(raw) == Unescaping.Unescaped(raw);
    }
  }

  method ShowConnection(raws: seq<bytes>, f: bool, blank: Parsed, ghost ms: seq<Jsonlog.Member>) returns (p: Parsed)
    requires IsSet(raws, f, ms)
    ensures p == blank.(time := RawText(ms, 0), user := JsonText(RawText(ms, 1), f), database := JsonText(RawText(ms, 2), f),
                        pid := OrZero(Signed32(RawText(ms, 3))), from := JsonText(JoinedFrom(RawText(ms, 4), RawText(ms, 5)), f),
                        sessionID := JsonText(RawText(ms, 6), f), lineNum := OrZero(Signed(RawText(ms, 7))))
  {
    var pid := Number32(raws[3]);
    var line := Number64(raws[7]);
    var user := ShownText(raws[1], f);
    var database := ShownText(raws[2], f);
    var from := ShownText(JoinedFrom(raws[4], raws[5]), f);
    var session := ShownText(raws[6], f);
    p := blank.(time := raws[0], user := user, database := database, pid := pid, from := from, sessionID := session, lineNum := line);
  }

  method ShowSession(raws: seq<bytes>, f: bool, blank: Parsed, ghost ms: seq<Jsonlog.Member>) returns (p: Parsed)
    requires IsSet(raws, f, ms)
    ensures p == blank.(tag := JsonText(RawText(ms, 8), f), started := RawText(ms, 9), vxid := JsonText(RawText(ms, 10), f),
                        txid := OrZero(Signed(RawText(ms, 11))), severity := JsonText(RawText(ms, 12), f), sqlState := StateIn(ms))
  {
    var txid := Number64(raws[11]);
    var tag := ShownText(raws[8], f);
    var vxid := ShownText(raws[10], f);
    var severity := ShownText(raws[12], f);
    p := blank.(tag := tag, started := raws[9], vxid := vxid, txid := txid, severity := severity, sqlState := raws[STATE_CODE]);
  }

  method ShowTexts(raws: seq<bytes>, f: bool, blank: Parsed, ghost ms: seq<Jsonlog.Member>) returns (p: Parsed)
    requires IsSet(raws, f, ms)
    ensures p == blank.(message := JsonText(RawText(ms, 14), f), detail := JsonText(RawText(ms, 15), f), hint := JsonText(RawText(ms, 16), f),
                        query := JsonText(RawText(ms, 17), f), app := JsonText(RawText(ms, 18), f), backend := JsonText(RawText(ms, 19), f),
                        queryID := OrZero(Signed(RawText(ms, 20))))
  {
    var message := ShownText(raws[14], f);
    var detail := ShownText(raws[15], f);
    var hint := ShownText(raws[16], f);
    var query := ShownText(raws[17], f);
    var app := ShownText(raws[18], f);
    var backend := ShownText(raws[19], f);
    var id := Number64(raws[20]);
    p := blank.(message := message, detail := detail, hint := hint, query := query, app := app, backend := backend, queryID := id);
  }

  /** A jsonlog line: None when it is no object. */
  method ParseJSON(rec: bytes) returns (p: Option<Parsed>)
    ensures p == JsonParsed(Jsonlog.ObjectMembers(rec))
  {
    var members := Jsonlog.ScanObject(rec);
    if members.Bad? {
      return None;
    }
    var ms := members.list;
    var raws, f := seq(KEYS + 1, _ => []), false;
    for i := 0 to |ms|
      invariant IsSet(raws, f, ms[..i])
    {
      assert ms[..i + 1] == ms[..i] + [ms[i]];
      raws, f := Visit(raws, f, ms[i], ms[..i]);
    }
    assert ms[..|ms|] == ms;
    var r := ShowConnection(raws, f, BLANK, ms);
    r := ShowSession(raws, f, r, ms);
    r := ShowTexts(raws, f, r, ms);
    p := Some(r);
  }
}
