/** Reading a message one act at a time, with the loops that skip paths, values and markers. */
module Reading {
  import opened Bytes
  import opened Tokenizer
  import opened Rules
  import opened Masking
  import Scanners

  // ----- Loops -----

  method ScanPath(s: bytes, start: nat) returns (e: nat)
    requires start <= |s|
    ensures e == PathAt(s, start)
  {
    if start == |s| {
      return 0;
    }
    if start > 0 && (IsWordByte(s[start - 1]) || s[start - 1] in {SLASH, DOT, RPAREN, RBRACKET, BACKSLASH, DOLLAR}) {
      return 0;
    }
    if !PathPrefix(s, start) {
      return 0;
    }
    e := start;
    while e < |s|
      invariant start <= e <= |s| && PathEnd(s, e) == PathEnd(s, start)
    {
      var c := s[e];
      if IsBlank(c) || c == QUOTE || c == APOSTROPHE {
        return;
      }
      if c in {COMMA, SEMICOLON, COLON, RPAREN, DOT} && (e + 1 == |s| || IsBlank(s[e + 1])) {
        return;
      }
      e := e + 1;
    }
  }

  method SkipValue(s: bytes, start: nat) returns (pos: nat)
    requires start <= |s|
    ensures pos == ValueEnd(s, start)
  {
    pos := start;
    while pos < |s|
      invariant pos <= |s| && ValueEnd(s, pos) == ValueEnd(s, start)
    {
      var t := Scanners.Next(s, pos, false);
      if t.kind == Space || (t.kind == Punct && EndsValue(s[pos])) {
        return;
      }
      pos := t.end;
    }
  }

  method ScanWords(s: bytes, start: nat, m: bytes) returns (e: nat)
    requires start <= |s| && m != []
    ensures e == MatchWords(s, start, m)
  {
    var i, k := start, 0;
    while k < |m|
      invariant 0 <= k <= |m| && i <= |s|
      invariant if k == 0 then i == start else i > 0 && MatchRest(s, i, m[k..]) == MatchWords(s, start, m)
    {
      assert m[k..] != [] && m[k..][0] == m[k] && m[k..][1..] == m[k + 1..] && m[0..] == m;
      if i == |s| {
        return 0;
      }
      if m[k] == SPACE {
        if !IsBlank(s[i]) {
          return 0;
        }
        i := Scanners.ScanRun(s, i, Blank);
      } else {
        if s[i] != m[k] {
          return 0;
        }
        i := i + 1;
      }
      k := k + 1;
    }
    e := i;
  }

  method ScanPlain(s: bytes, i: nat, m: bytes) returns (r: Marker)
    requires i <= |s| && m != []
    ensures r == PlainMarker(s, i, m)
  {
    var end := ScanWords(s, i, m);
    r := if end > 0 && ColonEnds(s, end) then Marker(m, end, end) else NoMarker;
  }

  method ScanMarker(s: bytes, i: nat) returns (r: Marker)
    requires i <= |s|
    ensures r == MarkerAt(s, i)
  {
    r := ScanPlain(s, i, Ascii("statement"));
    if r.Marker? {
      return;
    }
    r := ScanPlain(s, i, Ascii("fastpath function call"));
    if r.Marker? {
      return;
    }
    r := ScanNamed(s, i);
  }

  method ScanNamed(s: bytes, i: nat) returns (r: Marker)
    requires i <= |s|
    ensures r == NamedMarker(s, i, 0)
  {
    var k := 0;
    while k < 4
      invariant 0 <= k <= 4 && NamedMarker(s, i, k) == NamedMarker(s, i, 0)
    {
      var head := ScanWords(s, i, NamedWords(k));
      if head > 0 {
        var j := ScanName(s, head);
        return if j == head || !ColonEnds(s, j) then NoMarker else Marker(NamedWords(k), head, j);
      }
      k := k + 1;
    }
    r := NoMarker;
  }

  method ScanName(s: bytes, head: nat) returns (j: nat)
    requires head <= |s|
    ensures j == NameEnd(s, head)
  {
    j := head;
    while j < |s| && s[j] != COLON && !IsBlank(s[j])
      invariant j <= |s| && NameEnd(s, j) == NameEnd(s, head)
    {
      j := j + 1;
    }
  }

  // ----- One act -----

  /** The acts from pos on. */
  function Rest(s: bytes, pos: nat, stmt: bool, c: Context, data: bool): Script
    requires pos <= |s|
  {
    if stmt then ReadStatement(s, pos) else ReadMessage(s, pos, c, data)
  }

  /** What one look at the message finds: its end, white space at its start, or an act. */
  datatype Look = End | Blanks | Found(act: Act)

  /** The rest of the script, after a look that went from pos to next. */
  ghost predicate Looked(s: bytes, pos: nat, next: nat, l: Look, here: Script, there: Script)
  {
    match l
    case End => pos == |s| && here == Done
    case Blanks => pos < next <= |s| && here == there
    case Found(a) => pos < next <= |s| && here == Then(a, if a == Plan then Done else there) && (a.Mark? ==> |a.words| <= 22)
  }

  /** How a look at a message moves what reading carries. */
  ghost predicate Moved(c: Context, l: Look, d: Context) {
    match l
    case End => true
    case Blanks => c.first && d == c.(gap := false, prev := Space)
    case Found(Gap) => !c.first && d == c.(gap := true, prev := Space)
    case Found(Text(k, b)) =>
      && b != [] && !d.first && !d.gap
      && (d.glued <==> c.glued && !c.gap && IsDigitWord(Text(k, b)))
    case Found(Mask) => !d.first && !d.gap && d.glued
    case Found(Key) => !d.first && !d.gap && d.glued
    case _ => true
  }

  method LookInStatement(s: bytes, pos: nat) returns (l: Look, next: nat)
    requires pos <= |s|
    ensures next <= |s| && l != Blanks && (l.Found? ==> l.act == Gap || l.act == Mask || l.act.Text?)
    ensures Looked(s, pos, next, l, ReadStatement(s, pos), ReadStatement(s, next))
  {
    if pos == |s| {
      return End, pos;
    }
    var t := Scanners.Next(s, pos, true);
    l, next := Found(ActOf(t.kind, s[pos..t.end])), t.end;
  }

  method LookInMessage(s: bytes, pos: nat, c: Context, data: bool) returns (l: Look, next: nat, d: Context)
    requires pos <= |s|
    ensures next <= |s|
    ensures Looked(s, pos, next, l, ReadMessage(s, pos, c, data), Rest(s, next, l.Found? && l.act.Mark?, d, data))
    ensures Moved(c, l, d)
  {
    var path := ScanPath(s, pos);
    if path > 0 {
      return Found(Mask), path, AfterValue(true);
    }
    if pos == |s| {
      return End, pos, c;
    }
    var t := Scanners.Next(s, pos, false);
    if t.kind == Space || t.kind == Comment {
      l, next, d := LookAtBlank(s, pos, c, data, t);
    } else {
      l, next, d := LookAtToken(s, pos, c, data, t);
    }
  }

  method LookAtBlank(s: bytes, pos: nat, c: Context, data: bool, t: Token) returns (l: Look, next: nat, d: Context)
    requires pos < t.end <= |s| && (t.kind == Space || t.kind == Comment)
    ensures next <= |s| && (l == Blanks || l == Found(Gap))
    ensures Looked(s, pos, next, l, ReadToken(s, pos, c, data, t), Rest(s, next, false, d, data)) && Moved(c, l, d)
  {
    l, next, d := if c.first then Blanks else Found(Gap), t.end, c.(gap := !c.first, prev := Space);
  }

  predicate IsPlanWord(s: bytes, pos: nat, end: nat)
    requires pos <= end <= |s|
  {
    s[pos..end] == Ascii("plan") && ColonEnds(s, end)
  }

  lemma ReadAsMarked(s: bytes, pos: nat, c: Context, data: bool, t: Token, m: Marker)
    requires pos < t.end <= |s| && t.kind != Space && t.kind != Comment
    requires m == if MarkerPlace(c, t.kind) then MarkerAt(s, pos) else NoMarker
    requires MarkerPlace(c, t.kind) ==> c.first || !IsPlanWord(s, pos, t.end)
    ensures ReadToken(s, pos, c, data, t) == ReadMarked(s, pos, c, data, t, m)
  {
  }

  method LookAtToken(s: bytes, pos: nat, c: Context, data: bool, t: Token) returns (l: Look, next: nat, d: Context)
    requires pos < t.end <= |s| && t.kind != Space && t.kind != Comment
    ensures pos < next <= |s| && l.Found? && (l.act.Mark? ==> |l.act.words| <= 22) && Moved(c, l, d)
    ensures ReadToken(s, pos, c, data, t) == Then(l.act, if l.act == Plan then Done else Rest(s, next, l.act.Mark?, d, data))
  {
    var m := NoMarker;
    if MarkerPlace(c, t.kind) {
      if !c.first && IsPlanWord(s, pos, t.end) {
        return Found(Plan), t.end, c;
      }
      m := ScanMarker(s, pos);
    }
    ReadAsMarked(s, pos, c, data, t, m);
    l, next, d := LookBehindMarker(s, pos, c, data, t, m);
    assert ReadToken(s, pos, c, data, t) == Then(l.act, Rest(s, next, l.act.Mark?, d, data));
  }

  method LookBehindMarker(s: bytes, pos: nat, c: Context, data: bool, t: Token, m: Marker)
    returns (l: Look, next: nat, d: Context)
    requires pos < t.end <= |s| && (m.Marker? ==> pos < m.colon < |s| && |m.words| <= 22)
    ensures pos < next <= |s| && l.Found? && l.act != Plan && (l.act.Mark? ==> |l.act.words| <= 22) && Moved(c, l, d)
    ensures ReadMarked(s, pos, c, data, t, m) == Then(l.act, Rest(s, next, l.act.Mark?, d, data))
  {
    if m.Marker? {
      return Found(Mark(m.words, m.head < m.colon)), m.colon + 1, c;
    }
    l, next, d := LookAtPlain(s, pos, c, data, t);
  }

  method LookAtPlain(s: bytes, pos: nat, c: Context, data: bool, t: Token) returns (l: Look, next: nat, d: Context)
    requires pos < t.end <= |s|
    ensures pos < next <= |s| && l.Found? && (l.act == Key || l.act == Mask || l.act.Text?)
    ensures ReadPlain(s, pos, c, data, t) == Then(l.act, ReadMessage(s, next, d, data))
    ensures Moved(c, l, d)
  {
    if t.kind == Punct && s[pos] == EQUALS && c.prev == Word {
      next := SkipValue(s, t.end);
      return Found(Key), next, AfterValue(false);
    }
    var b := s[pos..t.end];
    var masked := IsMasked(c, t.kind, b, data);
    l, next, d := Found(if masked then Mask else Text(t.kind, b)), t.end, AfterToken(c, t.kind, b, masked);
  }
}
