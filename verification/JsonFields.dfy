/**
 * The names of the jsonlog keys: which field of a record the value under each name becomes, and the
 * names that the writer puts before the values of an event.
 */
module JsonFields {
  import opened Bytes
  import opened Numbers
  import opened Jsonlog
  import opened JsonKeys
  import opened Events
  import opened Readers
  import Unescaping

  // ----- Objects with one member -----

  /** The object {"key":value}. */
  function Alone(key: string, value: bytes): bytes { [123, 34] + Ascii(key) + [34, 58] + value + [125] }

  function InQuotes(t: bytes): bytes { [34] + Escaped(t) + [34] }

  /** What the parser makes of the object {"key":value}. */
  function Read(key: string, value: bytes): Option<Parsed> { JsonParsed(ObjectMembers(Alone(key, value))) }

  lemma Joins(name: bytes, value: bytes)
    ensures [OPEN] + ([QUOTE] + name + [QUOTE, COLON] + value) + [CLOSE] == [123, 34] + name + [34, 58] + value + [125]
  {
    var e := [QUOTE] + name + [QUOTE, COLON] + value;
    assert [OPEN] + e == [123, 34] + name + [34, 58] + value;
  }

  lemma OneIsPrinted(e: Entry, entries: seq<Entry>)
    requires entries == [e]
    ensures PrintObject(entries) == [OPEN] + PrintEntry(e) + [CLOSE]
    ensures MembersOf(entries) == [Member(e.key, RawOf(e.val))] && (IsName(e.key) ==> IsObject(entries))
  {
    assert entries[1..] == [];
  }

  lemma AloneIsPrinted(key: string, v: Value, value: bytes)
    requires IsPlainSpelling(key) && value == PrintValue(v)
    ensures ObjectMembers(Alone(key, value)) == Members([Member(Ascii(key), RawOf(v))])
  {
    var e := Entry(Ascii(key), v);
    PlainIsName(key);
    OneIsPrinted(e, [e]);
    ObjectComesBack([e]);
    Joins(Ascii(key), value);
  }

  /** k is the number of the key that is spelled so. */
  predicate IsKey(key: string, k: nat) { k < KEYS && key == Spelling(k) }

  lemma KeyIs(key: string, k: nat)
    requires IsKey(key, k)
    ensures KeyOf(Ascii(key)) == k && IsPlainSpelling(key)
  {
    KeyIsItself(k);
    KeySpellsPlain(k);
  }

  /** Of the members ms only the k-th key has a value, raw. */
  ghost predicate HasOnly(ms: seq<Member>, k: nat, raw: bytes, flag: bool) {
    && RawText(ms, k) == raw && (forall j: nat :: j != k ==> RawText(ms, j) == [])
    && NeedsUnquote(ms) == flag && StateIn(ms) == if k == STATE_CODE then StateOf(raw) else []
  }

  lemma OneMember(key: bytes, val: Raw, k: nat)
    requires KeyOf(key) == k
    ensures HasOnly([Member(key, val)], k, val.raw, val.escaped && IsTextKey(k))
  {
    var m := Member(key, val);
    assert [m] == [m] + [];
    FlagCons(m, []);
    StateCons(m, []);
    forall j: nat
      ensures RawText([m], j) == if j == k then val.raw else []
    {
      LookupCons(m, [], j);
    }
  }

  /** The text t under the k-th key, and nothing else. */
  ghost predicate SaysText(p: Members, k: nat, t: bytes) {
    p.Members? && exists raw, flag :: HasOnly(p.list, k, raw, flag) && JsonText(raw, flag) == t
  }

  lemma TextIsSaid(key: string, k: nat, t: bytes)
    requires IsKey(key, k) && IsTextKey(k)
    ensures SaysText(ObjectMembers(Alone(key, InQuotes(t))), k, t)
  {
    KeyIs(key, k);
    AloneIsPrinted(key, Str(t), InQuotes(t));
    OneMember(Ascii(key), RawOf(Str(t)), k);
    UnescapedEscaped(t);
    EscapedBytes(t);
    assert HasOnly([Member(Ascii(key), RawOf(Str(t)))], k, Escaped(t), HasEscape(t));
  }

  lemma NothingReads(flag: bool)
    ensures JsonText([], flag) == [] && OrZero(Signed([])) == 0 && OrZero(Signed32([])) == 0
  {
  }

  /** A record in which only the k-th key has a text. */
  function WithText(k: nat, t: bytes): Parsed {
    match k
    case 1 => BLANK.(user := t)
    case 2 => BLANK.(database := t)
    case 6 => BLANK.(sessionID := t)
    case 8 => BLANK.(tag := t)
    case 10 => BLANK.(vxid := t)
    case 12 => BLANK.(severity := t)
    case 14 => BLANK.(message := t)
    case 15 => BLANK.(detail := t)
    case 16 => BLANK.(hint := t)
    case 17 => BLANK.(query := t)
    case 18 => BLANK.(app := t)
    case 19 => BLANK.(backend := t)
    case _ => BLANK
  }

  lemma TextBecomes(p: Members, k: nat, t: bytes)
    requires SaysText(p, k, t) && IsTextKey(k)
    ensures JsonParsed(p) == Some(WithText(k, t))
  {
    NothingReads(true);
    NothingReads(false);
  }

  lemma TextReads(key: string, k: nat, t: bytes)
    requires IsKey(key, k) && IsTextKey(k)
    ensures Read(key, InQuotes(t)) == Some(WithText(k, t))
  {
    TextIsSaid(key, k, t);
    TextBecomes(ObjectMembers(Alone(key, InQuotes(t))), k, t);
  }

  // Whatever text stands under one of these names is the text of its field, and no other field is set.

  lemma UserReads(t: bytes)
    ensures Read("user", InQuotes(t)) == Some(BLANK.(user := t))
  {
    TextReads("user", 1, t);
  }

  lemma DbnameReads(t: bytes)
    ensures Read("dbname", InQuotes(t)) == Some(BLANK.(database := t))
  {
    TextReads("dbname", 2, t);
  }

  lemma SessionIdReads(t: bytes)
    ensures Read("session_id", InQuotes(t)) == Some(BLANK.(sessionID := t))
  {
    TextReads("session_id", 6, t);
  }

  lemma PsReads(t: bytes)
    ensures Read("ps", InQuotes(t)) == Some(BLANK.(tag := t))
  {
    TextReads("ps", 8, t);
  }

  lemma VxidReads(t: bytes)
    ensures Read("vxid", InQuotes(t)) == Some(BLANK.(vxid := t))
  {
    TextReads("vxid", 10, t);
  }

  lemma ErrorSeverityReads(t: bytes)
    ensures Read("error_severity", InQuotes(t)) == Some(BLANK.(severity := t))
  {
    TextReads("error_severity", 12, t);
  }

  lemma MessageReads(t: bytes)
    ensures Read("message", InQuotes(t)) == Some(BLANK.(message := t))
  {
    TextReads("message", 14, t);
  }

  lemma DetailReads(t: bytes)
    ensures Read("detail", InQuotes(t)) == Some(BLANK.(detail := t))
  {
    TextReads("detail", 15, t);
  }

  lemma HintReads(t: bytes)
    ensures Read("hint", InQuotes(t)) == Some(BLANK.(hint := t))
  {
    TextReads("hint", 16, t);
  }

  lemma StatementReads(t: bytes)
    ensures Read("statement", InQuotes(t)) == Some(BLANK.(query := t))
  {
    TextReads("statement", 17, t);
  }

  lemma ApplicationNameReads(t: bytes)
    ensures Read("application_name", InQuotes(t)) == Some(BLANK.(app := t))
  {
    TextReads("application_name", 18, t);
  }

  lemma BackendTypeReads(t: bytes)
    ensures Read("backend_type", InQuotes(t)) == Some(BLANK.(backend := t))
  {
    TextReads("backend_type", 19, t);
  }

  // ----- Numbers and values taken as they are -----

  /** The bytes raw under the k-th key, as they are, and nothing else. */
  ghost predicate SaysRaw(p: Members, k: nat, raw: bytes) { p.Members? && HasOnly(p.list, k, raw, false) }

  lemma RawIsSaid(key: string, k: nat, v: Value)
    requires IsKey(key, k) && !IsTextKey(k)
    ensures SaysRaw(ObjectMembers(Alone(key, PrintValue(v))), k, RawOf(v).raw)
  {
    KeyIs(key, k);
    AloneIsPrinted(key, v, PrintValue(v));
    OneMember(Ascii(key), RawOf(v), k);
  }

  /** A record in which only the k-th key has a value, taken as it is. */
  function WithRaw(k: nat, raw: bytes): Parsed {
    match k
    case 0 => BLANK.(time := raw)
    case 3 => BLANK.(pid := OrZero(Signed32(raw)))
    case 4 => BLANK.(from := raw)
    case 7 => BLANK.(lineNum := OrZero(Signed(raw)))
    case 9 => BLANK.(started := raw)
    case 11 => BLANK.(txid := OrZero(Signed(raw)))
    case 13 => BLANK.(sqlState := StateOf(raw))
    case 20 => BLANK.(queryID := OrZero(Signed(raw)))
    case _ => BLANK
  }

  lemma RawBecomes(p: Members, k: nat, raw: bytes)
    requires SaysRaw(p, k, raw) && !IsTextKey(k)
    ensures JsonParsed(p) == Some(WithRaw(k, raw))
  {
    NothingReads(false);
  }

  lemma RawReads(key: string, k: nat, v: Value, value: bytes)
    requires IsKey(key, k) && !IsTextKey(k) && value == PrintValue(v)
    ensures Read(key, value) == Some(WithRaw(k, RawOf(v).raw))
  {
    RawIsSaid(key, k, v);
    RawBecomes(ObjectMembers(Alone(key, value)), k, RawOf(v).raw);
  }

  lemma RawTextReads(key: string, k: nat, t: bytes)
    requires IsKey(key, k) && !IsTextKey(k) && !HasEscape(t)
    ensures Read(key, InQuotes(t)) == Some(WithRaw(k, t))
  {
    EscapedBytes(t);
    RawReads(key, k, Str(t), InQuotes(t));
  }

  lemma NumberIsRead(key: string, k: nat, n: int, p: Parsed)
    requires IsKey(key, k) && !IsTextKey(k) && p == WithRaw(k, FormatInt(n))
    ensures Read(key, FormatInt(n)) == Some(p)
  {
    RawReads(key, k, Num(n), FormatInt(n));
  }

  lemma NumbersIn(n: int)
    ensures OrZero(Signed(FormatInt(n))) == if -0x8000_0000_0000_0000 <= n < 0x8000_0000_0000_0000 then n else 0
    ensures OrZero(Signed32(FormatInt(n))) == if -0x8000_0000 <= n < 0x8000_0000 then n else 0
  {
    PrintedReadsBack(n);
  }

  lemma PidReads(n: int)
    ensures Read("pid", FormatInt(n)) == Some(BLANK.(pid := if -0x8000_0000 <= n < 0x8000_0000 then n else 0))
  {
    var p := BLANK.(pid := if -0x8000_0000 <= n < 0x8000_0000 then n else 0);
    NumbersIn(n);
    NumberIsRead("pid", 3, n, p);
  }

  lemma LineNumReads(n: int)
    ensures Read("line_num", FormatInt(n)) == Some(BLANK.(lineNum := if -0x8000_0000_0000_0000 <= n < 0x8000_0000_0000_0000 then n else 0))
  {
    var p := BLANK.(lineNum := if -0x8000_0000_0000_0000 <= n < 0x8000_0000_0000_0000 then n else 0);
    NumbersIn(n);
    NumberIsRead("line_num", 7, n, p);
  }

  lemma TxidReads(n: int)
    ensures Read("txid", FormatInt(n)) == Some(BLANK.(txid := if -0x8000_0000_0000_0000 <= n < 0x8000_0000_0000_0000 then n else 0))
  {
    var p := BLANK.(txid := if -0x8000_0000_0000_0000 <= n < 0x8000_0000_0000_0000 then n else 0);
    NumbersIn(n);
    NumberIsRead("txid", 11, n, p);
  }

  lemma QueryIdReads(n: int)
    ensures Read("query_id", FormatInt(n)) == Some(BLANK.(queryID := if -0x8000_0000_0000_0000 <= n < 0x8000_0000_0000_0000 then n else 0))
  {
    var p := BLANK.(queryID := if -0x8000_0000_0000_0000 <= n < 0x8000_0000_0000_0000 then n else 0);
    NumbersIn(n);
    NumberIsRead("query_id", 20, n, p);
  }

  lemma TimestampReads(t: bytes)
    requires !HasEscape(t)
    ensures Read("timestamp", InQuotes(t)) == Some(BLANK.(time := t))
  {
    RawTextReads("timestamp", 0, t);
  }

  lemma SessionStartReads(t: bytes)
    requires !HasEscape(t)
    ensures Read("session_start", InQuotes(t)) == Some(BLANK.(started := t))
  {
    RawTextReads("session_start", 9, t);
  }

  lemma RemoteHostReads(t: bytes)
    requires !HasEscape(t)
    ensures Read("remote_host", InQuotes(t)) == Some(BLANK.(from := t))
  {
    RawTextReads("remote_host", 4, t);
  }

  /** An SQLSTATE is five bytes long. */
  lemma StateCodeReads(t: bytes)
    requires !HasEscape(t)
    ensures Read("state_code", InQuotes(t)) == Some(BLANK.(sqlState := if |t| == 5 then t else []))
  {
    var p := BLANK.(sqlState := if |t| == 5 then t else []);
    assert p == WithRaw(13, t);
    RawTextReads("state_code", 13, t);
  }

  // ----- Other names -----

  lemma SameName(s: string, t: string)
    requires IsPlainSpelling(s) && IsPlainSpelling(t) && Ascii(s) == Ascii(t)
    ensures s == t
  {
    forall i | 0 <= i < |s|
      ensures s[i] == t[i]
    {
      assert Ascii(s)[i] == Ascii(t)[i];
    }
  }

  /** A name with a number is spelled as the key of that number. */
  lemma NumberedIsKey(key: string, k: nat)
    requires IsPlainSpelling(key) && KeyOf(Ascii(key)) == k && k < KEYS
    ensures IsKey(key, k)
  {
    KeySpellsPlain(k);
    SameName(key, Spelling(k));
  }

  lemma KeySpellsPlain(k: nat)
    requires k < KEYS
    ensures IsPlainSpelling(Spelling(k))
  {
    if k < 9 {
      EarlyIsPlain(k);
    } else if k < 18 {
      MiddleIsPlain(k);
    } else if k < 24 {
      LateIsPlain(k);
    } else {
      LastIsPlain(k);
    }
  }

  /** The names whose values are handed to the caller with their escapes. */
  lemma TextNames(key: string, k: nat)
    requires IsKey(key, k)
    ensures IsTextKey(k) == (key in {"user", "dbname", "session_id", "ps", "vxid", "error_severity", "message", "detail", "hint",
                                     "statement", "application_name", "backend_type", "internal_query", "context"})
  {
  }

  /** The names that fill a field of an event. */
  lemma FieldNames(key: string, k: nat)
    requires IsKey(key, k) && k <= 20
    ensures key in {"timestamp", "user", "dbname", "pid", "remote_host", "remote_port", "session_id", "line_num", "ps",
                    "session_start", "vxid", "txid", "error_severity", "state_code", "message", "detail", "hint", "statement",
                    "application_name", "backend_type", "query_id"}
  {
  }

  /** The caller is told to unquote exactly when a text it sees has an escape. */
  lemma FlagIsSet(key: string, t: bytes)
    requires IsPlainSpelling(key)
    ensures var p := ObjectMembers(Alone(key, InQuotes(t)));
      p.Members? && NeedsUnquote(p.list) ==
        (HasEscape(t) && key in {"user", "dbname", "session_id", "ps", "vxid", "error_severity", "message", "detail", "hint",
                                 "statement", "application_name", "backend_type", "internal_query", "context"})
  {
    var k := KeyOf(Ascii(key));
    AloneIsPrinted(key, Str(t), InQuotes(t));
    OneMember(Ascii(key), RawOf(Str(t)), k);
    assert NeedsUnquote([Member(Ascii(key), RawOf(Str(t)))]) == (HasEscape(t) && IsTextKey(k));
    if k < KEYS {
      NumberedIsKey(key, k);
      TextNames(key, k);
    } else {
      NoTextName(key);
    }
  }

  lemma NoTextName(key: string)
    requires IsPlainSpelling(key) && KeyOf(Ascii(key)) == KEYS
    ensures key !in {"user", "dbname", "session_id", "ps", "vxid", "error_severity", "message", "detail", "hint",
                     "statement", "application_name", "backend_type", "internal_query", "context"}
  {
    forall k: nat | k < KEYS
      ensures key != Spelling(k)
    {
      KeyIsItself(k);
    }
    assert "user" == Spelling(1) && "dbname" == Spelling(2) && "session_id" == Spelling(6) && "ps" == Spelling(8);
    assert "vxid" == Spelling(10) && "error_severity" == Spelling(12) && "message" == Spelling(14) && "detail" == Spelling(15);
    assert "hint" == Spelling(16) && "statement" == Spelling(17) && "application_name" == Spelling(18);
    assert "backend_type" == Spelling(19) && "internal_query" == Spelling(21) && "context" == Spelling(23);
  }

  /** A name that is none of those of the fields sets nothing. */
  lemma OtherNamesRead(key: string, v: Value)
    requires IsPlainSpelling(key)
    requires key !in {"timestamp", "user", "dbname", "pid", "remote_host", "remote_port", "session_id", "line_num", "ps",
                      "session_start", "vxid", "txid", "error_severity", "state_code", "message", "detail", "hint", "statement",
                      "application_name", "backend_type", "query_id"}
    ensures Read(key, PrintValue(v)) == Some(BLANK)
  {
    var k := KeyOf(Ascii(key));
    AloneIsPrinted(key, v, PrintValue(v));
    OneMember(Ascii(key), RawOf(v), k);
    if k <= 20 {
      NumberedIsKey(key, k);
      FieldNames(key, k);
    }
    SaysNothing([Member(Ascii(key), RawOf(v))], k);
  }

  lemma SaysNothing(ms: seq<Member>, k: nat)
    requires k > 20 && exists raw, flag :: HasOnly(ms, k, raw, flag)
    ensures JsonParsed(Members(ms)) == Some(BLANK)
  {
    NothingReads(true);
    NothingReads(false);
  }

  // ----- Objects with two members -----

  /** The object {"key":value,"other":more}. */
  function Two(key: string, value: bytes, other: string, more: bytes): bytes {
    [123, 34] + Ascii(key) + [34, 58] + value + [44, 34] + Ascii(other) + [34, 58] + more + [125]
  }

  lemma JoinsTwo(name: bytes, value: bytes, other: bytes, more: bytes)
    ensures [OPEN] + (([QUOTE] + name + [QUOTE, COLON] + value) + [COMMA] + ([QUOTE] + other + [QUOTE, COLON] + more)) + [CLOSE] ==
      [123, 34] + name + [34, 58] + value + [44, 34] + other + [34, 58] + more + [125]
  {
    var front, back := [QUOTE] + name + [QUOTE, COLON] + value, [QUOTE] + other + [QUOTE, COLON] + more;
    assert [OPEN] + (front + [COMMA] + back) == [OPEN] + front + [COMMA] + back;
    assert [OPEN] + front == [123, 34] + name + [34, 58] + value;
    var ahead := [OPEN] + front;
    assert ahead + [COMMA] + back == ahead + [44, 34] + other + [34, 58] + more;
  }

  lemma TwoEntries(d: Entry, e: Entry, entries: seq<Entry>)
    requires entries == [d, e]
    ensures PrintObject(entries) == [OPEN] + (PrintEntry(d) + [COMMA] + PrintEntry(e)) + [CLOSE]
    ensures MembersOf(entries) == [Member(d.key, RawOf(d.val)), Member(e.key, RawOf(e.val))]
    ensures IsName(d.key) && IsName(e.key) ==> IsObject(entries)
  {
    OneIsPrinted(e, [e]);
    assert entries[1..] == [e];
  }

  lemma TwoArePrinted(key: string, v: Value, other: string, w: Value)
    requires IsPlainSpelling(key) && IsPlainSpelling(other)
    ensures ObjectMembers(Two(key, PrintValue(v), other, PrintValue(w))) ==
      Members([Member(Ascii(key), RawOf(v)), Member(Ascii(other), RawOf(w))])
  {
    var d, e := Entry(Ascii(key), v), Entry(Ascii(other), w);
    PlainIsName(key);
    PlainIsName(other);
    TwoEntries(d, e, [d, e]);
    ObjectComesBack([d, e]);
    JoinsTwo(Ascii(key), PrintValue(v), Ascii(other), PrintValue(w));
  }

  /** Of the members ms only the j-th and the k-th key have values. */
  ghost predicate HasTwo(ms: seq<Member>, j: nat, raw: bytes, k: nat, more: bytes, flag: bool) {
    && j != k && RawText(ms, j) == raw && RawText(ms, k) == more && (forall i: nat :: i != j && i != k ==> RawText(ms, i) == [])
    && NeedsUnquote(ms) == flag && (j != STATE_CODE && k != STATE_CODE ==> StateIn(ms) == [])
  }

  lemma TwoMembers(m: Member, n: Member, j: nat, k: nat)
    requires KeyOf(m.key) == j != k == KeyOf(n.key)
    ensures HasTwo([m, n], j, m.val.raw, k, n.val.raw, (m.val.escaped && IsTextKey(j)) || (n.val.escaped && IsTextKey(k)))
  {
    assert [m, n] == [m] + [n];
    OneMember(n.key, n.val, k);
    FlagCons(m, [n]);
    StateCons(m, [n]);
    forall i: nat
      ensures RawText([m, n], i) == if i == j then m.val.raw else if i == k then n.val.raw else []
    {
      LookupCons(m, [n], i);
      LookupCons(n, [], i);
      assert [n] == [n] + [];
    }
  }

  lemma FromBecomes(p: Members, h: bytes, port: bytes)
    requires p.Members? && h != [] && port != [] && HasTwo(p.list, 4, h, 5, port, false)
    ensures JsonParsed(p) == Some(BLANK.(from := h + [58] + port))
  {
    NothingReads(false);
  }

  /** The host and the port become one field. */
  lemma HostAndPortRead(h: bytes, n: int)
    requires h != [] && !HasEscape(h)
    ensures JsonParsed(ObjectMembers(Two("remote_host", InQuotes(h), "remote_port", FormatInt(n)))) ==
      Some(BLANK.(from := h + [58] + FormatInt(n)))
  {
    KeyIs("remote_host", 4);
    KeyIs("remote_port", 5);
    TwoArePrinted("remote_host", Str(h), "remote_port", Num(n));
    EscapedBytes(h);
    var l := [Member(Ascii("remote_host"), RawOf(Str(h))), Member(Ascii("remote_port"), RawOf(Num(n)))];
    TwoMembers(l[0], l[1], 4, 5);
    FromBecomes(Members(l), h, FormatInt(n));
  }

  lemma SameTwice(m: Member, n: Member, k: nat)
    requires KeyOf(m.key) == k == KeyOf(n.key) && k != STATE_CODE
    ensures HasOnly([m, n], k, n.val.raw, (m.val.escaped || n.val.escaped) && IsTextKey(k))
  {
    assert [m, n] == [m] + [n] && [n] == [n] + [];
    OneMember(n.key, n.val, k);
    FlagCons(m, [n]);
    StateCons(m, [n]);
    forall i: nat
      ensures RawText([m, n], i) == if i == k then n.val.raw else []
    {
      LookupCons(m, [n], i);
      LookupCons(n, [], i);
    }
  }

  /** A name that comes twice says what it says the second time. */
  lemma LaterWins(key: string, k: nat, t: bytes, u: bytes)
    requires IsKey(key, k) && IsTextKey(k)
    ensures JsonParsed(ObjectMembers(Two(key, InQuotes(t), key, InQuotes(u)))) == Read(key, InQuotes(u))
  {
    KeyIs(key, k);
    TwoArePrinted(key, Str(t), key, Str(u));
    SameTwice(Member(Ascii(key), RawOf(Str(t))), Member(Ascii(key), RawOf(Str(u))), k);
    UnescapedEscaped(u);
    EscapedBytes(u);
    var p := ObjectMembers(Two(key, InQuotes(t), key, InQuotes(u)));
    assert HasOnly(p.list, k, Escaped(u), HasEscape(t) || HasEscape(u));
    TextBecomes(p, k, u);
    TextReads(key, k, u);
  }

  /** The SQLSTATE is the last one that is five bytes long. */
  lemma StateCodeStays(t: bytes, u: bytes)
    requires |t| == 5 && |u| != 5 && !HasEscape(t) && !HasEscape(u)
    ensures JsonParsed(ObjectMembers(Two("state_code", InQuotes(t), "state_code", InQuotes(u)))) == Some(BLANK.(sqlState := t))
  {
    var m, n := Member(Ascii("state_code"), RawOf(Str(t))), Member(Ascii("state_code"), RawOf(Str(u)));
    KeyIs("state_code", 13);
    TwoArePrinted("state_code", Str(t), "state_code", Str(u));
    EscapedBytes(t);
    EscapedBytes(u);
    StateTwice(m, n, [m, n]);
    StateBecomes([m, n], t);
  }

  lemma StateTwice(m: Member, n: Member, ms: seq<Member>)
    requires ms == [m, n] && KeyOf(m.key) == 13 == KeyOf(n.key) && |m.val.raw| == 5 != |n.val.raw|
    ensures StateIn(ms) == m.val.raw && !NeedsUnquote(ms) && (forall i: nat :: i != 13 ==> RawText(ms, i) == [])
  {
    assert [m, n] == [m] + [n] && [n] == [n] + [];
    OneMember(n.key, n.val, 13);
    FlagCons(m, [n]);
    StateCons(m, [n]);
    forall i: nat | i != 13
      ensures RawText(ms, i) == []
    {
      LookupCons(m, [n], i);
      LookupCons(n, [], i);
    }
  }

  lemma StateBecomes(ms: seq<Member>, t: bytes)
    requires StateIn(ms) == t && !NeedsUnquote(ms) && (forall i: nat :: i != 13 ==> RawText(ms, i) == [])
    ensures JsonParsed(Members(ms)) == Some(BLANK.(sqlState := t))
  {
    NothingReads(false);
  }

  // ----- The names that the writer puts -----

  /** The member "name":value of an object; nothing when there is no value. */
  function Put(name: string, v: Option<Value>): seq<Entry> { if v.None? then [] else [Entry(Ascii(name), v.value)] }

  function NumberUnlessZero(n: int): Option<Value> { if n == 0 then None else Some(Num(n)) }

  /** rest is what is written from the k-th key on. */
  predicate IsRest(v: Values, k: nat, rest: seq<Entry>) { EntriesFrom(v, k) == rest }

  lemma PutsBefore(v: Values, k: nat, name: string, x: Option<Value>, rest: seq<Entry>) returns (all: seq<Entry>)
    requires IsRest(v, k + 1, rest) && k < WRITTEN && name == Spelling(k) && v[k] == x
    ensures IsRest(v, k, all) && all == Put(name, x) + rest
  {
    all := Put(name, x) + rest;
  }

  lemma PutsConnection(e: Event, v: Values, rest: seq<Entry>) returns (all: seq<Entry>)
    requires v == JsonValues(e) && IsRest(v, 7, rest)
    ensures IsRest(v, 0, all) && all == Put("timestamp", Text(e.time)) + (Put("user", Text(e.user)) + (Put("dbname", Text(e.database)) + (
      Put("pid", Number(e.pid)) + (Put("remote_host", Text(e.host)) + (Put("remote_port", NumberUnlessZero(e.port)) + (
      Put("session_id", Text(e.sessionID)) + rest))))))
  {
    all := rest;
    all := PutsBefore(v, 6, "session_id", Text(e.sessionID), all);
    all := PutsBefore(v, 5, "remote_port", NumberUnlessZero(e.port), all);
    all := PutsBefore(v, 4, "remote_host", Text(e.host), all);
    all := PutsBefore(v, 3, "pid", Number(e.pid), all);
    all := PutsBefore(v, 2, "dbname", Text(e.database), all);
    all := PutsBefore(v, 1, "user", Text(e.user), all);
    all := PutsBefore(v, 0, "timestamp", Text(e.time), all);
  }

  lemma PutsRun(e: Event, v: Values, rest: seq<Entry>) returns (all: seq<Entry>)
    requires v == JsonValues(e) && IsRest(v, 14, rest)
    ensures IsRest(v, 7, all) && all == Put("line_num", Number(e.lineNum)) + (Put("ps", Text(e.tag)) + (Put("session_start", Text(e.started)) + (
      Put("vxid", Text(e.vxid)) + (Put("txid", Number(e.txid)) + (Put("error_severity", Text(e.severity)) + (
      Put("state_code", Text(e.sqlState)) + rest))))))
  {
    all := rest;
    all := PutsBefore(v, 13, "state_code", Text(e.sqlState), all);
    all := PutsBefore(v, 12, "error_severity", Text(e.severity), all);
    all := PutsBefore(v, 11, "txid", Number(e.txid), all);
    all := PutsBefore(v, 10, "vxid", Text(e.vxid), all);
    all := PutsBefore(v, 9, "session_start", Text(e.started), all);
    all := PutsBefore(v, 8, "ps", Text(e.tag), all);
    all := PutsBefore(v, 7, "line_num", Number(e.lineNum), all);
  }

  lemma PutsMessage(e: Event, v: Values, rest: seq<Entry>) returns (all: seq<Entry>)
    requires v == JsonValues(e) && IsRest(v, 21, rest)
    ensures IsRest(v, 14, all) && all == Put("message", Text(e.message)) + (Put("detail", Text(e.detail)) + (Put("hint", Text(e.hint)) + (
      Put("statement", Text(e.statement)) + (Put("application_name", Text(e.app)) + (Put("backend_type", Text(e.backend)) + (
      Put("query_id", NumberUnlessZero(e.queryID)) + rest))))))
  {
    all := rest;
    all := PutsBefore(v, 20, "query_id", NumberUnlessZero(e.queryID), all);
    all := PutsBefore(v, 19, "backend_type", Text(e.backend), all);
    all := PutsBefore(v, 18, "application_name", Text(e.app), all);
    all := PutsBefore(v, 17, "statement", Text(e.statement), all);
    all := PutsBefore(v, 16, "hint", Text(e.hint), all);
    all := PutsBefore(v, 15, "detail", Text(e.detail), all);
    all := PutsBefore(v, 14, "message", Text(e.message), all);
  }

  /** The names of an event's members, in the order they are written; what has no value is left out. */
  lemma WritesNames(e: Event, connection: seq<Entry>, run: seq<Entry>, message: seq<Entry>)
    requires message == Put("message", Text(e.message)) + (Put("detail", Text(e.detail)) + (Put("hint", Text(e.hint)) + (
      Put("statement", Text(e.statement)) + (Put("application_name", Text(e.app)) + (Put("backend_type", Text(e.backend)) + (
      Put("query_id", NumberUnlessZero(e.queryID)) + []))))))
    requires run == Put("line_num", Number(e.lineNum)) + (Put("ps", Text(e.tag)) + (Put("session_start", Text(e.started)) + (
      Put("vxid", Text(e.vxid)) + (Put("txid", Number(e.txid)) + (Put("error_severity", Text(e.severity)) + (
      Put("state_code", Text(e.sqlState)) + message))))))
    requires connection == Put("timestamp", Text(e.time)) + (Put("user", Text(e.user)) + (Put("dbname", Text(e.database)) + (
      Put("pid", Number(e.pid)) + (Put("remote_host", Text(e.host)) + (Put("remote_port", NumberUnlessZero(e.port)) + (
      Put("session_id", Text(e.sessionID)) + run))))))
    ensures JsonLine(e) == PrintObject(connection)
  {
    var v := JsonValues(e);
    assert IsRest(v, WRITTEN, []);
    var third := PutsMessage(e, v, []);
    var second := PutsRun(e, v, message);
    var first := PutsConnection(e, v, run);
  }
}
