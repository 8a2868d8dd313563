/** The masking rules that look at one token or at a stretch of the message. */
module Rules {
  import opened Bytes
  import opened Tokenizer

  // ----- Words -----

  function Lower(c: byte): byte { if 65 <= c <= 90 then c + 32 else c }

  /** Equal to w, which is lower case, ignoring ASCII case. */
  predicate EqualFold(b: bytes, w: bytes) {
    |b| == |w| && forall i | 0 <= i < |b| :: Lower(b[i]) == w[i]
  }

  function IDWord(k: nat): bytes {
    Ascii(match k
          case 0 => "process" case 1 => "pid" case 2 => "backend" case 3 => "worker" case 4 => "transaction"
          case 5 => "subtransaction" case 6 => "xid" case 7 => "multixact" case 8 => "relation"
          case 9 => "database" case 10 => "tablespace" case 11 => "role" case 12 => "oid" case _ => "session")
  }

  function NameWord(k: nat): bytes {
    Ascii(match k case 0 => "constraint" case 1 => "index" case _ => "table")
  }

  predicate IsIDWord(w: bytes) { exists k | 0 <= k < 14 :: EqualFold(w, IDWord(k)) }

  predicate IsNameWord(w: bytes) { exists k | 0 <= k < 3 :: EqualFold(w, NameWord(k)) }

  predicate HasDigit(b: bytes) { exists i | 0 <= i < |b| :: IsDigit(b[i]) }

  /** A literal value: always a placeholder. */
  predicate MasksLiteral(k: Kind) { k in {Number, Hex, String, Dollar, Param} }

  /** Class 22 or 23, where PostgreSQL puts data in double quotes. */
  predicate IsDataClass(code: bytes)
    requires |code| == 5
  {
    code[0] == 50 && (code[1] == 50 || code[1] == 51)
  }

  /** The phrase that introduces a data value: "for", then words and quoted tokens, then ':'. */
  datatype Phrase = NoPhrase | Words | Data {
    function After(k: Kind, b: bytes): Phrase {
      match k
      case Space => this
      case Word =>
        if EqualFold(b, Ascii("for")) then Words else if this == Words then this else NoPhrase
      case Ident => if this == Words then this else NoPhrase
      case Punct => if this == Words && b == [COLON] then Data else NoPhrase
      case _ => NoPhrase
    }
  }

  // ----- Paths -----

  /** A file path starts at i. */
  predicate PathPrefix(s: bytes, i: nat)
    requires i <= |s|
  {
    if i == |s| then false
    else if s[i] == SLASH then ClassAt(s, i + 1, WordByte) || At(s, i + 1, DOT)
    else if s[i] == DOT && (At(s, i + 1, SLASH) || (At(s, i + 1, DOT) && At(s, i + 2, SLASH))) then true
    else if IsLetter(s[i]) && At(s, i + 1, COLON) && (At(s, i + 2, BACKSLASH) || At(s, i + 2, SLASH)) then true
    else
      var j := RunEnd(s, i, WordByte);
      && j > i && At(s, j, SLASH)
      && (s[i..j] == Ascii("base") || s[i..j] == Ascii("global") || (j > i + 3 && s[i..i + 3] == Ascii("pg_")))
  }

  /** The end of the bare path whose scan has come to i. */
  function PathEnd(s: bytes, i: nat): (e: nat)
    requires i <= |s|
    ensures i <= e <= |s|
    decreases |s| - i
  {
    if i == |s| || IsBlank(s[i]) || s[i] == QUOTE || s[i] == APOSTROPHE then i
    else if s[i] in {COMMA, SEMICOLON, COLON, RPAREN, DOT} && (i + 1 == |s| || IsBlank(s[i + 1])) then i
    else PathEnd(s, i + 1)
  }

  /** The end of the path at i; 0 when there is none. */
  function PathAt(s: bytes, i: nat): (e: nat)
    requires i <= |s|
    ensures e == 0 || i < e <= |s|
  {
    if ClassAt(s, i - 1, WordByte) || (0 < i && s[i - 1] in {SLASH, DOT, RPAREN, RBRACKET, BACKSLASH, DOLLAR}) then 0
    else if PathPrefix(s, i) then PathEnd(s, i)
    else 0
  }

  /** The quoted token b holds a value rather than an identifier. */
  predicate IsQuotedValue(b: bytes) {
    var i := BodyStart(b);
    if i >= |b| then false
    else PathPrefix(b, i) || APOSTROPHE in b[i..] || IsDigit(b[i]) || b[i] in {PLUS, MINUS, DOT, COLON, DOLLAR}
  }

  /** Where the body of the quoted token b starts: "x", U&"x", or x in guillemets. */
  function BodyStart(b: bytes): nat {
    if b != [] && b[0] == QUOTE then 1
    else if b != [] && b[0] == 0xC2 then NoBreakEnd(b, Min(2, |b|))
    else 3
  }

  function NoBreakEnd(b: bytes, i: nat): nat
    requires i <= |b|
    decreases |b| - i
  {
    if At(b, i, SPACE) then NoBreakEnd(b, i + 1)
    else if At(b, i, 0xC2) && At(b, i + 1, 0xA0) then NoBreakEnd(b, i + 2)
    else if At(b, i, 0xE2) && At(b, i + 1, 0x80) && At(b, i + 2, 0xAF) then NoBreakEnd(b, i + 3)
    else i
  }

  // ----- Markers -----

  /** A ':' at the end of s or before white space. */
  predicate ColonEnds(s: bytes, j: nat) {
    At(s, j, COLON) && (j + 1 == |s| || IsBlank(s[j + 1]))
  }

  /** Where the words m, a space standing for any run of white space, end if s has them at i; 0 if not. */
  function MatchWords(s: bytes, i: nat, m: bytes): (e: nat)
    requires i <= |s|
    ensures e <= |s| && (e > 0 && m != [] ==> i < e)
    decreases |m|
  {
    if m == [] then i
    else if i == |s| then 0
    else if m[0] == SPACE then
      if IsBlank(s[i]) then MatchRest(s, RunEnd(s, i, Blank), m[1..]) else 0
    else if s[i] == m[0] then MatchRest(s, i + 1, m[1..])
    else 0
  }

  function MatchRest(s: bytes, i: nat, m: bytes): (e: nat)
    requires 0 < i <= |s|
    ensures e <= |s| && (e > 0 ==> i <= e)
    decreases |m|
  {
    if m == [] then i
    else if i == |s| then 0
    else if m[0] == SPACE then
      if IsBlank(s[i]) then MatchRest(s, RunEnd(s, i, Blank), m[1..]) else 0
    else if s[i] == m[0] then MatchRest(s, i + 1, m[1..])
    else 0
  }

  /** A statement marker: its words as the template writes them, where its name starts, and its ':'. */
  datatype Marker = NoMarker | Marker(words: bytes, head: nat, colon: nat)

  function NamedWords(k: nat): (w: bytes)
    ensures 0 < |w| <= 19
  {
    Ascii(match k case 0 => "execute fetch from " case 1 => "execute " case 2 => "parse " case _ => "bind ")
  }

  /** The first of the words from k on that s has at i, with the name after them. */
  function NamedMarker(s: bytes, i: nat, k: nat): (m: Marker)
    requires i <= |s|
    ensures m.Marker? ==> i < m.head < m.colon < |s| && s[m.colon] == COLON && |m.words| <= 19
    decreases 4 - k
  {
    if k >= 4 then NoMarker
    else
      var head := MatchWords(s, i, NamedWords(k));
      if head == 0 then NamedMarker(s, i, k + 1)
      else
        var j := NameEnd(s, head);
        if j == head || !ColonEnds(s, j) then NoMarker else Marker(NamedWords(k), head, j)
  }

  /** The end of a prepared statement name. */
  function NameEnd(s: bytes, i: nat): (e: nat)
    requires i <= |s|
    ensures i <= e <= |s|
    decreases |s| - i
  {
    if i < |s| && s[i] != COLON && !IsBlank(s[i]) then NameEnd(s, i + 1) else i
  }

  /** The marker m, which has no name, at i. */
  function PlainMarker(s: bytes, i: nat, m: bytes): (r: Marker)
    requires i <= |s| && m != []
    ensures r.Marker? ==> i < r.head == r.colon < |s| && s[r.colon] == COLON && r.words == m
  {
    var end := MatchWords(s, i, m);
    if end > 0 && ColonEnds(s, end) then Marker(m, end, end) else NoMarker
  }

  function MarkerAt(s: bytes, i: nat): (m: Marker)
    requires i <= |s|
    ensures m.Marker? ==> i < m.head <= m.colon < |s| && s[m.colon] == COLON && |m.words| <= 22
  {
    var statement := PlainMarker(s, i, Ascii("statement"));
    if statement.Marker? then statement
    else
      var fastpath := PlainMarker(s, i, Ascii("fastpath function call"));
      if fastpath.Marker? then fastpath else NamedMarker(s, i, 0)
  }

  // ----- Values -----

  predicate EndsValue(c: byte) { c == COMMA || c == SEMICOLON || c == RPAREN }

  /** The end of a key=value value that starts at pos, made of whole tokens. */
  function ValueEnd(s: bytes, pos: nat): (e: nat)
    requires pos <= |s|
    ensures pos <= e <= |s|
    decreases |s| - pos
  {
    if pos == |s| then pos
    else
      var t := TokenAt(s, pos, false);
      if t.kind == Space || (t.kind == Punct && EndsValue(s[pos])) then pos else ValueEnd(s, t.end)
  }
}
