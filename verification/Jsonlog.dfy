/** Jsonlog objects: what the printer writes, what the scanner visits, and the round trip between the two. */
module Jsonlog {
  import opened Bytes
  import opened Numbers
  import opened Unescaping
  import Utf8

  const COLON: byte := 58
  const OPEN: byte := 123
  const CLOSE: byte := 125

  // ----- Printing -----

  datatype Value = Str(text: bytes) | Num(number: int)

  datatype Entry = Entry(key: bytes, val: Value)

  predicate NeedsEscape(c: byte) { c < 0x20 || c == QUOTE || c == BACKSLASH }

  function EscapeByte(c: byte): (e: bytes)
    ensures |e| >= 1
  {
    if c == QUOTE then [BACKSLASH, QUOTE]
    else if c == BACKSLASH then [BACKSLASH, BACKSLASH]
    else if c == LF then [BACKSLASH, 110]
    else if c == CR then [BACKSLASH, 114]
    else if c == TAB then [BACKSLASH, 116]
    else if c < 0x20 then EscapeUnit(c)
    else [c]
  }

  function Escaped(v: bytes): bytes { if v == [] then [] else EscapeByte(v[0]) + Escaped(v[1..]) }

  function PrintValue(v: Value): bytes {
    match v
    case Str(t) => [QUOTE] + Escaped(t) + [QUOTE]
    case Num(n) => FormatInt(n)
  }

  function PrintEntry(e: Entry): bytes { [QUOTE] + e.key + [QUOTE, COLON] + PrintValue(e.val) }

  function PrintEntries(entries: seq<Entry>): bytes
    requires entries != []
  {
    if |entries| == 1 then PrintEntry(entries[0]) else PrintEntry(entries[0]) + [COMMA] + PrintEntries(entries[1..])
  }

  function PrintObject(entries: seq<Entry>): bytes {
    if entries == [] then [OPEN, CLOSE] else [OPEN] + PrintEntries(entries) + [CLOSE]
  }

  /** A key that needs no escape. */
  predicate IsName(key: bytes) { forall c <- key :: !NeedsEscape(c) }

  // ----- Scanning -----

  predicate IsJsonSpace(c: byte) { c == SPACE || c == TAB || c == CR || c == LF }

  function SkipSpace(b: bytes, i: nat): (e: nat)
    requires i <= |b|
    ensures i <= e <= |b|
    decreases |b| - i
  {
    if i < |b| && IsJsonSpace(b[i]) then SkipSpace(b, i + 1) else i
  }

  /** The quote that closes the string whose body has been read up to j; or -1. */
  function StringEnd(b: bytes, j: nat): (q: int)
    ensures q == -1 || (j <= q < |b| && b[q] == QUOTE)
    decreases |b| - j
  {
    if j >= |b| then -1
    else if b[j] == BACKSLASH then StringEnd(b, j + 2)
    else if b[j] == QUOTE then j
    else StringEnd(b, j + 1)
  }

  /** A value as the scanner finds it: its bytes, without quotes and with its escapes. */
  datatype Raw = Raw(raw: bytes, str: bool, escaped: bool)

  datatype Scanned = NoValue | Scanned(val: Raw, next: nat)

  function StringAt(b: bytes, i: nat): (r: Scanned)
    requires i < |b|
    ensures r.Scanned? ==> i < r.next <= |b|
  {
    var q := StringEnd(b, i + 1);
    if q < 0 then NoValue else Scanned(Raw(b[i + 1..q], true, BACKSLASH in b[i + 1..q]), q + 1)
  }

  predicate IsNumberByte(c: byte) { IsDigit(c) || c in {HYPHEN, PLUS_SIGN, 46, 101, 69} }

  function NumberEnd(b: bytes, i: nat): (e: nat)
    requires i <= |b|
    ensures i <= e <= |b|
    decreases |b| - i
  {
    if i < |b| && IsNumberByte(b[i]) then NumberEnd(b, i + 1) else i
  }

  const NULL: bytes := [110, 117, 108, 108]
  const TRUE: bytes := [116, 114, 117, 101]
  const FALSE: bytes := [102, 97, 108, 115, 101]

  predicate HasAt(b: bytes, i: nat, word: bytes) { i + |word| <= |b| && b[i..i + |word|] == word }

  function ValueAt(b: bytes, i: nat): (r: Scanned)
    ensures r.Scanned? ==> i < r.next <= |b|
  {
    if i >= |b| then NoValue
    else if b[i] == QUOTE then StringAt(b, i)
    else if HasAt(b, i, NULL) then Scanned(Raw([], false, false), i + 4)
    else if HasAt(b, i, TRUE) then Scanned(Raw(TRUE, false, false), i + 4)
    else if HasAt(b, i, FALSE) then Scanned(Raw(FALSE, false, false), i + 5)
    else
      var e := NumberEnd(b, i);
      if e == i then NoValue else Scanned(Raw(b[i..e], false, false), e)
  }

  /** A key and its value, as the scanner hands them to its visitor. */
  datatype Member = Member(key: bytes, val: Raw)

  datatype Members = Bad | Members(list: seq<Member>) {
    function Behind(m: Member): Members { if Bad? then Bad else Members([m] + list) }
  }

  /** One member, and where the scan goes on; Broken when the text is not jsonlog there. */
  datatype Found = Broken | Last(member: Member) | More(member: Member, next: nat)

  function MemberAt(b: bytes, i: nat): (f: Found)
    ensures f.More? ==> i < f.next <= |b|
  {
    if i >= |b| || b[i] != QUOTE then Broken
    else
      var key := StringAt(b, i);
      if key.NoValue? then Broken
      else
        var colon := SkipSpace(b, key.next);
        if colon == |b| || b[colon] != COLON then Broken
        else MemberValue(b, key.val.raw, ValueAt(b, SkipSpace(b, colon + 1)))
  }

  function MemberValue(b: bytes, key: bytes, v: Scanned): (f: Found)
    requires v.Scanned? ==> v.next <= |b|
    ensures f.More? ==> v.Scanned? && v.next < f.next <= |b|
  {
    if v.NoValue? then Broken
    else
      var e := SkipSpace(b, v.next);
      if e == |b| then Broken
      else if b[e] == COMMA then More(Member(key, v.val), SkipSpace(b, e + 1))
      else if b[e] == CLOSE then Last(Member(key, v.val))
      else Broken
  }

  function MembersFrom(b: bytes, i: nat): Members
    decreases |b| - i
  {
    match MemberAt(b, i)
    case Broken => Bad
    case Last(m) => Members([m])
    case More(m, next) => MembersFrom(b, next).Behind(m)
  }

  /** The members of the object that rec holds. What stands behind its closing brace is not looked at. */
  function ObjectMembers(rec: bytes): Members {
    var open := SkipSpace(rec, 0);
    if open == |rec| || rec[open] != OPEN then Bad
    else
      var i := SkipSpace(rec, open + 1);
      if i < |rec| && rec[i] == CLOSE then Members([]) else MembersFrom(rec, i)
  }

  // ----- Strings come back -----

  /** Unescaping undoes the escapes of any byte string. */
  lemma {:induction false} UnescapedEscaped(v: bytes)
    ensures Unescaped(Escaped(v)) == v
  {
    if v != [] {
      var c, rest := v[0], Escaped(v[1..]);
      UnescapedEscaped(v[1..]);
      EscapeByteResolves(c, rest);
      assert v == [c] + v[1..];
    }
  }

  lemma EscapeByteResolves(c: byte, rest: bytes)
    ensures Unescaped(EscapeByte(c) + rest) == [c] + Unescaped(rest)
  {
    var e := EscapeByte(c);
    if |e| == 6 {
      EscapeResolves(c, rest);
    } else {
      assert (e + rest)[|e|..] == rest;
      assert (e + rest)[0] == e[0];
      if |e| == 2 {
        assert (e + rest)[1] == e[1];
      }
    }
  }

  /** Some byte is written as an escape. */
  predicate HasEscape(v: bytes) { exists c <- v :: NeedsEscape(c) }

  lemma {:induction false} EscapedBytes(v: bytes)
    ensures BACKSLASH in Escaped(v) <==> HasEscape(v)
    ensures forall c <- Escaped(v) :: c >= 0x20
    ensures !HasEscape(v) ==> Escaped(v) == v
  {
    if v != [] {
      EscapedBytes(v[1..]);
      assert v == [v[0]] + v[1..];
      EscapeByteBytes(v[0]);
    }
  }

  lemma EscapeByteBytes(c: byte)
    ensures BACKSLASH in EscapeByte(c) <==> NeedsEscape(c)
    ensures forall k <- EscapeByte(c) :: k >= 0x20
  {
    if |EscapeByte(c)| == 2 {
      assert EscapeByte(c)[0] == BACKSLASH;
    } else if |EscapeByte(c)| == 6 {
      assert EscapeByte(c)[0] == BACKSLASH;
    }
  }

  // ----- Strings are scanned -----

  lemma PlainIsPassed(b: bytes, i: nat, n: nat)
    requires i + n <= |b| && forall k | i <= k < i + n :: b[k] != QUOTE && b[k] != BACKSLASH
    ensures StringEnd(b, i) == StringEnd(b, i + n)
    decreases n
  {
    if n > 0 {
      PlainIsPassed(b, i + 1, n - 1);
    }
  }

  lemma SameAt(b: bytes, i: nat, e: bytes, k: nat)
    requires i + |e| <= |b| && b[i..i + |e|] == e && k < |e|
    ensures b[i + k] == e[k]
  {
    assert b[i..i + |e|][k] == b[i + k];
  }

  /** Behind the backslash and the character it escapes, an escape is plain. */
  lemma UnitIsPlain(c: byte, k: nat)
    requires |EscapeByte(c)| == 6 && 2 <= k < 6
    ensures EscapeByte(c)[k] != QUOTE && EscapeByte(c)[k] != BACKSLASH
  {
  }

  lemma EscapeIsPassed(b: bytes, i: nat, c: byte)
    requires i + |EscapeByte(c)| <= |b| && b[i..i + |EscapeByte(c)|] == EscapeByte(c)
    ensures StringEnd(b, i) == StringEnd(b, i + |EscapeByte(c)|)
  {
    var e := EscapeByte(c);
    SameAt(b, i, e, 0);
    if |e| == 6 {
      forall k | i + 2 <= k < i + 6
        ensures b[k] != QUOTE && b[k] != BACKSLASH
      {
        SameAt(b, i, e, k - i);
        UnitIsPlain(c, k - i);
      }
      PlainIsPassed(b, i + 2, 4);
    }
  }

  lemma EscapeInFront(pre: bytes, e: bytes, more: bytes, post: bytes, b: bytes)
    requires b == pre + (e + more) + [QUOTE] + post
    ensures b == (pre + e) + more + [QUOTE] + post && |pre| + |e| <= |b| && b[|pre|..|pre| + |e|] == e
  {
  }

  lemma FirstIsPassed(b: bytes, i: nat, c: byte, j: nat)
    requires j == i + |EscapeByte(c)| <= |b| && b[i..j] == EscapeByte(c)
    ensures StringEnd(b, i) == StringEnd(b, j)
  {
    EscapeIsPassed(b, i, c);
  }

  lemma {:induction false} StringEnds(pre: bytes, v: bytes, post: bytes, b: bytes)
    requires b == pre + Escaped(v) + [QUOTE] + post
    ensures StringEnd(b, |pre|) == |pre| + |Escaped(v)|
    decreases |v|
  {
    if v == [] {
      assert b[|pre|] == QUOTE;
    } else {
      var e := EscapeByte(v[0]);
      EscapeInFront(pre, e, Escaped(v[1..]), post, b);
      FirstIsPassed(b, |pre|, v[0], |pre + e|);
      StringEnds(pre + e, v[1..], post, b);
    }
  }

  lemma StringBetween(b: bytes, i: nat, q: nat, e: bytes)
    requires i < q < |b| && StringEnd(b, i + 1) == q && b[i + 1..q] == e
    ensures StringAt(b, i) == Scanned(Raw(e, true, BACKSLASH in e), q + 1)
  {
  }

  lemma EscapedFlag(v: bytes)
    ensures (BACKSLASH in Escaped(v)) == HasEscape(v)
  {
    EscapedBytes(v);
  }

  lemma Middle(pre: bytes, e: bytes, post: bytes, b: bytes)
    requires b == pre + e + post
    ensures |pre| + |e| <= |b| && b[|pre|..|pre| + |e|] == e
  {
  }

  lemma StringIsScanned(pre: bytes, v: bytes, post: bytes, b: bytes)
    requires b == pre + [QUOTE] + Escaped(v) + [QUOTE] + post
    ensures StringAt(b, |pre|) == Scanned(Raw(Escaped(v), true, HasEscape(v)), |pre| + |Escaped(v)| + 2)
  {
    var open, e := pre + [QUOTE], Escaped(v);
    StringEnds(open, v, post, b);
    assert b == open + e + ([QUOTE] + post);
    Middle(open, e, [QUOTE] + post, b);
    EscapedFlag(v);
    StringBetween(b, |pre|, |open| + |e|, e);
  }

  // ----- Objects are scanned -----

  /** A value as the scanner finds it when the printer wrote it. */
  function RawOf(v: Value): Raw {
    match v
    case Str(t) => Raw(Escaped(t), true, HasEscape(t))
    case Num(n) => Raw(FormatInt(n), false, false)
  }

  lemma NumberRunsTo(b: bytes, i: nat, n: nat)
    requires i + n < |b| && forall k | i <= k < i + n :: IsNumberByte(b[k])
    requires !IsNumberByte(b[i + n])
    ensures NumberEnd(b, i) == i + n
    decreases n
  {
    if n > 0 {
      NumberRunsTo(b, i + 1, n - 1);
    }
  }

  lemma NumberIsScanned(pre: bytes, n: int, post: bytes, b: bytes)
    requires post != [] && (post[0] == COMMA || post[0] == CLOSE) && b == pre + FormatInt(n) + post
    ensures ValueAt(b, |pre|) == Scanned(Raw(FormatInt(n), false, false), |pre| + |FormatInt(n)|)
  {
    var d, i := FormatInt(n), |pre|;
    assert forall k | 0 <= k < |d| :: b[i + k] == d[k] && IsNumberByte(d[k]);
    assert b[i + |d|] == post[0];
    NumberRunsTo(b, i, |d|);
    assert b[i] == d[0];
    NoWordAt(b, i);
    assert b[i..i + |d|] == d;
  }

  lemma NoWordAt(b: bytes, i: nat)
    requires i < |b| && (IsDigit(b[i]) || b[i] == HYPHEN)
    ensures !HasAt(b, i, NULL) && !HasAt(b, i, TRUE) && !HasAt(b, i, FALSE)
  {
    assert i + 4 <= |b| ==> b[i..i + 4][0] == b[i];
    assert i + 5 <= |b| ==> b[i..i + 5][0] == b[i];
  }

  lemma ValueIsScanned(pre: bytes, v: Value, post: bytes, b: bytes)
    requires post != [] && (post[0] == COMMA || post[0] == CLOSE) && b == pre + PrintValue(v) + post
    ensures ValueAt(b, |pre|) == Scanned(RawOf(v), |pre| + |PrintValue(v)|)
  {
    match v
    case Str(t) => StrIsScanned(pre, t, post, b);
    case Num(n) => NumberIsScanned(pre, n, post, b);
  }

  lemma StrIsScanned(pre: bytes, t: bytes, post: bytes, b: bytes)
    requires b == pre + PrintValue(Str(t)) + post
    ensures ValueAt(b, |pre|) == Scanned(RawOf(Str(t)), |pre| + |PrintValue(Str(t))|)
  {
    RegroupQuoted(pre, Escaped(t), post);
    StringIsScanned(pre, t, post, b);
    assert b[|pre|] == QUOTE;
  }

  lemma RegroupQuoted(pre: bytes, e: bytes, post: bytes)
    ensures pre + ([QUOTE] + e + [QUOTE]) + post == pre + [QUOTE] + e + [QUOTE] + post
  {
  }

  lemma NameIsItself(key: bytes)
    requires IsName(key)
    ensures Escaped(key) == key && !HasEscape(key)
  {
    EscapedBytes(key);
  }

  /** A printed key and its ':' are at i, and a value that starts without space is at p. */
  predicate KeyAt(b: bytes, i: nat, key: bytes, p: nat) {
    && i < p < |b| && b[i] == QUOTE && StringAt(b, i) == Scanned(Raw(key, true, false), p - 1)
    && b[p - 1] == COLON && !IsJsonSpace(b[p])
  }

  lemma NoSpace(b: bytes, i: nat)
    requires i < |b| && !IsJsonSpace(b[i])
    ensures SkipSpace(b, i) == i
  {
  }

  lemma ColonFollows(b: bytes, i: nat, key: Raw, colon: nat, v: Scanned)
    requires i < colon < |b| && b[i] == QUOTE && StringAt(b, i) == Scanned(key, colon)
    requires SkipSpace(b, colon) == colon && b[colon] == COLON && v == ValueAt(b, SkipSpace(b, colon + 1))
    ensures MemberAt(b, i) == MemberValue(b, key.raw, v)
  {
  }

  lemma MemberParts(b: bytes, i: nat, key: bytes, p: nat, v: Scanned)
    requires KeyAt(b, i, key, p) && v == ValueAt(b, p)
    ensures MemberAt(b, i) == MemberValue(b, key, v)
  {
    NoSpace(b, p - 1);
    NoSpace(b, p);
    ColonFollows(b, i, Raw(key, true, false), p - 1, v);
  }

  /** What stands behind a member: a separator and the next key, or the end of the object. */
  predicate EndsMember(post: bytes) {
    post != [] && (post[0] == CLOSE || (post[0] == COMMA && |post| > 1 && post[1] == QUOTE))
  }

  function FoundMember(m: Member, post: bytes, n: nat): Found
    requires EndsMember(post)
  {
    if post[0] == COMMA then More(m, n + 1) else Last(m)
  }

  lemma ValueEnds(b: bytes, key: bytes, v: Scanned, post: bytes)
    requires v.Scanned? && v.next <= |b| && EndsMember(post) && b[v.next..] == post
    ensures MemberValue(b, key, v) == FoundMember(Member(key, v.val), post, v.next)
  {
    assert b[v.next] == post[0];
    if post[0] == COMMA {
      assert b[v.next + 1] == post[1];
    }
  }

  lemma KeyIsScanned(pre: bytes, key: bytes, post: bytes, b: bytes)
    requires IsName(key) && b == pre + [QUOTE] + key + [QUOTE] + post
    ensures StringAt(b, |pre|) == Scanned(Raw(key, true, false), |pre| + |key| + 2)
  {
    NameIsItself(key);
    StringIsScanned(pre, key, post, b);
  }

  lemma ValueStarts(v: Value)
    ensures |PrintValue(v)| > 0 && !IsJsonSpace(PrintValue(v)[0])
  {
  }

  lemma KeyIsThere(pre: bytes, key: bytes, v: bytes, post: bytes, b: bytes)
    requires IsName(key) && |v| > 0 && !IsJsonSpace(v[0]) && b == pre + [QUOTE] + key + [QUOTE] + ([COLON] + v + post)
    ensures KeyAt(b, |pre|, key, |pre| + |key| + 3)
  {
    KeyIsScanned(pre, key, [COLON] + v + post, b);
    var p := |pre| + |key| + 3;
    assert b[|pre|] == QUOTE && b[p - 1] == COLON && b[p] == v[0];
  }

  lemma ValueIsThere(ahead: bytes, key: bytes, v: Value, post: bytes, b: bytes)
    requires EndsMember(post) && b == ahead + PrintValue(v) + post
    ensures MemberValue(b, key, ValueAt(b, |ahead|)) == FoundMember(Member(key, RawOf(v)), post, |ahead| + |PrintValue(v)|)
  {
    ValueIsScanned(ahead, v, post, b);
    assert b[|ahead| + |PrintValue(v)|..] == post;
    ValueEnds(b, key, ValueAt(b, |ahead|), post);
  }

  lemma MemberIsScanned(pre: bytes, e: Entry, post: bytes, b: bytes)
    requires IsName(e.key) && EndsMember(post) && b == pre + PrintEntry(e) + post
    ensures MemberAt(b, |pre|) == FoundMember(Member(e.key, RawOf(e.val)), post, |pre| + |PrintEntry(e)|)
  {
    var v := PrintValue(e.val);
    var ahead := pre + [QUOTE] + e.key + [QUOTE, COLON];
    ValueStarts(e.val);
    EntryParts(pre, e.key, v, post);
    KeyIsThere(pre, e.key, v, post, b);
    ValueIsThere(ahead, e.key, e.val, post, b);
    MemberParts(b, |pre|, e.key, |ahead|, ValueAt(b, |ahead|));
  }

  lemma EntryParts(pre: bytes, key: bytes, v: bytes, post: bytes)
    ensures pre + ([QUOTE] + key + [QUOTE, COLON] + v) + post == pre + [QUOTE] + key + [QUOTE] + ([COLON] + v + post)
    ensures pre + ([QUOTE] + key + [QUOTE, COLON] + v) + post == pre + [QUOTE] + key + [QUOTE, COLON] + v + post
  {
  }

  // ----- Whole objects -----

  predicate IsObject(entries: seq<Entry>) { forall e <- entries :: IsName(e.key) }

  function MembersOf(entries: seq<Entry>): seq<Member> {
    if entries == [] then [] else [Member(entries[0].key, RawOf(entries[0].val))] + MembersOf(entries[1..])
  }

  lemma MembersEnd(b: bytes, i: nat, m: Member)
    requires MemberAt(b, i) == Last(m)
    ensures MembersFrom(b, i) == Members([m])
  {
  }

  lemma MembersGoOn(b: bytes, i: nat, m: Member, next: nat, rest: seq<Member>)
    requires MemberAt(b, i) == More(m, next) && MembersFrom(b, next) == Members(rest)
    ensures MembersFrom(b, i) == Members([m] + rest)
  {
  }

  lemma LastEntry(pre: bytes, e: Entry, post: bytes, b: bytes)
    requires IsName(e.key) && post != [] && post[0] == CLOSE && b == pre + PrintEntry(e) + post
    ensures MembersFrom(b, |pre|) == Members(MembersOf([e]))
  {
    MemberIsScanned(pre, e, post, b);
    MembersEnd(b, |pre|, Member(e.key, RawOf(e.val)));
  }

  lemma EntriesUnfold(e: Entry, rest: seq<Entry>)
    requires rest != []
    ensures PrintEntries([e] + rest) == PrintEntry(e) + [COMMA] + PrintEntries(rest)
    ensures |PrintEntries(rest)| > 0 && PrintEntries(rest)[0] == QUOTE
  {
    assert ([e] + rest)[1..] == rest;
    assert PrintEntry(rest[0])[0] == QUOTE;
  }

  lemma RegroupEntries(pre: bytes, x: bytes, y: bytes, post: bytes)
    ensures pre + (x + [COMMA] + y) + post == pre + x + [COMMA] + y + post
    ensures pre + (x + [COMMA] + y) + post == pre + x + ([COMMA] + y + post)
  {
  }

  lemma EntriesStep(pre: bytes, e: Entry, rest: seq<Entry>, post: bytes)
    requires rest != []
    ensures var b := pre + PrintEntries([e] + rest) + post;
      var behind := [COMMA] + PrintEntries(rest) + post;
      b == pre + PrintEntry(e) + [COMMA] + PrintEntries(rest) + post && b == pre + PrintEntry(e) + behind && EndsMember(behind)
  {
    EntriesUnfold(e, rest);
    RegroupEntries(pre, PrintEntry(e), PrintEntries(rest), post);
    assert ([COMMA] + PrintEntries(rest) + post)[1] == PrintEntries(rest)[0];
  }

  lemma FirstEntry(pre: bytes, e: Entry, rest: seq<Entry>, post: bytes, b: bytes)
    requires rest != [] && IsName(e.key) && b == pre + PrintEntries([e] + rest) + post
    ensures MemberAt(b, |pre|) == More(Member(e.key, RawOf(e.val)), |pre| + |PrintEntry(e)| + 1)
  {
    EntriesStep(pre, e, rest, post);
    MemberIsScanned(pre, e, [COMMA] + PrintEntries(rest) + post, b);
  }

  lemma MembersOfStep(e: Entry, rest: seq<Entry>)
    ensures MembersOf([e] + rest) == [Member(e.key, RawOf(e.val))] + MembersOf(rest)
  {
    assert ([e] + rest)[1..] == rest;
  }

  lemma {:induction false} EntriesAreScanned(pre: bytes, entries: seq<Entry>, post: bytes, b: bytes, i: nat)
    requires entries != [] && IsObject(entries) && post != [] && post[0] == CLOSE
    requires b == pre + PrintEntries(entries) + post && i == |pre|
    ensures MembersFrom(b, i) == Members(MembersOf(entries))
    decreases |entries|
  {
    var e, rest := entries[0], entries[1..];
    assert entries == [e] + rest;
    if rest == [] {
      LastEntry(pre, e, post, b);
    } else {
      var m, next := Member(e.key, RawOf(e.val)), i + |PrintEntry(e)| + 1;
      assert MemberAt(b, i) == More(m, next) by { FirstEntry(pre, e, rest, post, b); }
      assert MembersFrom(b, next) == Members(MembersOf(rest)) by {
        EntriesStep(pre, e, rest, post);
        EntriesAreScanned(pre + PrintEntry(e) + [COMMA], rest, post, b, next);
      }
      MembersGoOn(b, i, m, next, MembersOf(rest));
      MembersOfStep(e, rest);
    }
  }

  /**
   * The scanner visits exactly the members that were printed, in order, each with the escaped flag
   * set just when an escape was written, and each string unescapes to the text that was printed.
   */
  lemma ObjectComesBack(entries: seq<Entry>)
    requires IsObject(entries)
    ensures ObjectMembers(PrintObject(entries)) == Members(MembersOf(entries))
  {
    if entries != [] {
      var b := PrintObject(entries);
      assert OpensWithKey(b) by { StartsWithKey(entries); }
      assert MembersFrom(b, 1) == Members(MembersOf(entries)) by { EntriesAreScanned([OPEN], entries, [CLOSE], b, 1); }
      ObjectAt(b, MembersFrom(b, 1));
    }
  }

  predicate OpensWithKey(b: bytes) { |b| > 1 && b[0] == OPEN && b[1] == QUOTE }

  lemma ObjectAt(b: bytes, members: Members)
    requires OpensWithKey(b) && members == MembersFrom(b, 1)
    ensures ObjectMembers(b) == members
  {
    assert SkipSpace(b, 0) == 0 && SkipSpace(b, 1) == 1;
  }

  lemma StartsWithKey(entries: seq<Entry>)
    requires entries != []
    ensures OpensWithKey(PrintObject(entries))
  {
    var b := PrintObject(entries);
    assert b[0] == OPEN && b[1] == PrintEntries(entries)[0];
    assert PrintEntries(entries)[0] == QUOTE;
  }

  lemma {:induction false} MembersAt(entries: seq<Entry>, i: nat)
    requires i < |entries|
    ensures |MembersOf(entries)| == |entries|
    ensures MembersOf(entries)[i] == Member(entries[i].key, RawOf(entries[i].val))
  {
    if i > 0 {
      MembersAt(entries[1..], i - 1);
    } else if |entries| > 1 {
      MembersAt(entries[1..], 0);
    }
  }

  // ----- One physical line -----

  /** No byte below a space, so no line break. */
  predicate IsOneLine(b: bytes) { forall c <- b :: c >= 0x20 }

  lemma {:induction false} EntriesAreOneLine(entries: seq<Entry>)
    requires entries != [] && IsObject(entries)
    ensures IsOneLine(PrintEntries(entries))
  {
    var e := entries[0];
    assert IsOneLine(PrintValue(e.val)) by {
      if e.val.Str? {
        EscapedBytes(e.val.text);
      }
    }
    assert IsOneLine(PrintEntry(e));
    if |entries| > 1 {
      EntriesAreOneLine(entries[1..]);
    }
  }

  /** Whatever the strings hold, the object is one line: the framer takes it whole. */
  lemma ObjectIsOneLine(entries: seq<Entry>)
    requires IsObject(entries)
    ensures IsOneLine(PrintObject(entries))
  {
    if entries != [] {
      EntriesAreOneLine(entries);
    }
  }

  // ----- The printer's loops -----

  /** The builder sb with one member more, a ',' before it unless it is the first. */
  function Appended(sb: bytes, e: Entry): bytes {
    (if |sb| > 1 then sb + [COMMA] else sb) + PrintEntry(e)
  }

  method JsonStr(sb: bytes, key: bytes, v: bytes, first: bool) returns (r: bytes)
    requires first ==> |sb| == 1
    ensures r == if v == [] then sb else Appended(sb, Entry(key, Str(v)))
  {
    r := sb;
    if v == [] {
      return;
    }
    if !first && |sb| > 1 {
      r := r + [COMMA];
    }
    r := r + [QUOTE] + key + [QUOTE, COLON, QUOTE];
    ghost var open := r;
    var i := 0;
    while i < |v|
      invariant 0 <= i <= |v| && r + Escaped(v[i..]) == open + Escaped(v)
    {
      ghost var was := r;
      r := r + EscapeByte(v[i]);
      assert v[i..][1..] == v[i + 1..];
      assert r + Escaped(v[i + 1..]) == was + Escaped(v[i..]);
      i := i + 1;
    }
    assert v[i..] == [] && r == open + Escaped(v);
    r := r + [QUOTE];
    EntryText(if |sb| > 1 then sb + [COMMA] else sb, key, Escaped(v));
  }

  lemma EntryText(sb: bytes, key: bytes, e: bytes)
    ensures sb + [QUOTE] + key + [QUOTE, COLON, QUOTE] + e + [QUOTE] == sb + ([QUOTE] + key + [QUOTE, COLON] + ([QUOTE] + e + [QUOTE]))
  {
  }

  method JsonNum(sb: bytes, key: bytes, v: int) returns (r: bytes)
    ensures r == Appended(sb, Entry(key, Num(v)))
  {
    r := sb;
    if |sb| > 1 {
      r := r + [COMMA];
    }
    r := r + [QUOTE] + key + [QUOTE, COLON];
    r := r + FormatInt(v);
  }

  /** Members appended one after the other to an opening brace, and closed, are the object. */
  function Built(sb: bytes, entries: seq<Entry>): bytes
    decreases |entries|
  {
    if entries == [] then sb else Built(Appended(sb, entries[0]), entries[1..])
  }

  lemma JoinEntries(sb: bytes, e: Entry, rest: seq<Entry>)
    requires rest != []
    ensures sb + PrintEntry(e) + [COMMA] + PrintEntries(rest) == sb + PrintEntries([e] + rest)
  {
    EntriesUnfold(e, rest);
    RegroupEntries(sb, PrintEntry(e), PrintEntries(rest), []);
  }

  lemma {:induction false} BuiltIsPrinted(sb: bytes, e: Entry, rest: seq<Entry>)
    requires sb != []
    ensures Built(sb + PrintEntry(e), rest) == sb + PrintEntries([e] + rest)
    decreases |rest|
  {
    if rest != [] {
      var next := sb + PrintEntry(e) + [COMMA];
      assert Appended(sb + PrintEntry(e), rest[0]) == next + PrintEntry(rest[0]);
      BuiltIsPrinted(next, rest[0], rest[1..]);
      assert [rest[0]] + rest[1..] == rest;
      JoinEntries(sb, e, rest);
    }
  }

  lemma BuiltObject(entries: seq<Entry>)
    ensures Built([OPEN], entries) + [CLOSE] == PrintObject(entries)
  {
    if entries != [] {
      assert Appended([OPEN], entries[0]) == [OPEN] + PrintEntry(entries[0]);
      BuiltIsPrinted([OPEN], entries[0], entries[1..]);
      assert [entries[0]] + entries[1..] == entries;
    }
  }

  lemma {:induction false} BuiltThen(sb: bytes, entries: seq<Entry>, e: Entry)
    ensures Built(sb, entries + [e]) == Appended(Built(sb, entries), e)
    decreases |entries|
  {
    if entries == [] {
      assert ([] + [e])[1..] == [];
    } else {
      assert (entries + [e])[1..] == entries[1..] + [e];
      BuiltThen(Appended(sb, entries[0]), entries[1..], e);
    }
  }

  // ----- The scanner's loops -----

  method ScanSpace(b: bytes, i: nat) returns (e: nat)
    requires i <= |b|
    ensures e == SkipSpace(b, i)
  {
    e := i;
    while e < |b| && IsJsonSpace(b[e])
      invariant e <= |b| && SkipSpace(b, e) == SkipSpace(b, i)
    {
      e := e + 1;
    }
  }

  method ScanString(b: bytes, i: nat) returns (r: Scanned)
    requires i < |b|
    ensures r == StringAt(b, i)
  {
    var j, escaped := i + 1, false;
    while j < |b|
      invariant i < j && StringEnd(b, j) == StringEnd(b, i + 1)
      invariant j <= |b| ==> (escaped <==> BACKSLASH in b[i + 1..j])
      decreases |b| - j
    {
      if b[j] == BACKSLASH {
        assert j + 2 <= |b| ==> b[i + 1..j + 2][j - i - 1] == BACKSLASH;
        escaped, j := true, j + 2;
      } else if b[j] == QUOTE {
        return Scanned(Raw(b[i + 1..j], true, escaped), j + 1);
      } else {
        assert b[i + 1..j + 1] == b[i + 1..j] + [b[j]];
        j := j + 1;
      }
    }
    r := NoValue;
  }

  method ScanValue(b: bytes, i: nat) returns (r: Scanned)
    ensures r == ValueAt(b, i)
  {
    if i >= |b| {
      return NoValue;
    }
    if b[i] == QUOTE {
      r := ScanString(b, i);
      return;
    }
    if HasAt(b, i, NULL) {
      return Scanned(Raw([], false, false), i + 4);
    }
    if HasAt(b, i, TRUE) {
      return Scanned(Raw(TRUE, false, false), i + 4);
    }
    if HasAt(b, i, FALSE) {
      return Scanned(Raw(FALSE, false, false), i + 5);
    }
    var n := i;
    while n < |b| && IsNumberByte(b[n])
      invariant i <= n <= |b| && NumberEnd(b, n) == NumberEnd(b, i)
    {
      n := n + 1;
    }
    r := if n == i then NoValue else Scanned(Raw(b[i..n], false, false), n);
  }

  method ScanMember(b: bytes, i: nat) returns (f: Found)
    requires i < |b|
    ensures f == MemberAt(b, i)
  {
    if b[i] != QUOTE {
      return Broken;
    }
    var key := ScanString(b, i);
    if key.NoValue? {
      return Broken;
    }
    var colon := ScanSpace(b, key.next);
    if colon == |b| || b[colon] != COLON {
      return Broken;
    }
    var start := ScanSpace(b, colon + 1);
    f := ScanMemberValue(b, key.val.raw, start);
  }

  method ScanMemberValue(b: bytes, key: bytes, start: nat) returns (f: Found)
    ensures f == MemberValue(b, key, ValueAt(b, start))
  {
    var v := ScanValue(b, start);
    if v.NoValue? {
      return Broken;
    }
    var e := ScanSpace(b, v.next);
    if e == |b| {
      return Broken;
    }
    if b[e] == COMMA {
      var next := ScanSpace(b, e + 1);
      return More(Member(key, v.val), next);
    }
    f := if b[e] == CLOSE then Last(Member(key, v.val)) else Broken;
  }

  /** The members visited and those still ahead. */
  function Visited(done: seq<Member>, ahead: Members): Members { if ahead.Bad? then Bad else Members(done + ahead.list) }

  lemma VisitOne(done: seq<Member>, m: Member, ahead: Members)
    ensures Visited(done, ahead.Behind(m)) == Visited(done + [m], ahead)
  {
    if ahead.Members? {
      assert done + ([m] + ahead.list) == done + [m] + ahead.list;
    }
  }

  method ScanObject(rec: bytes) returns (members: Members)
    ensures members == ObjectMembers(rec)
  {
    var i := ScanSpace(rec, 0);
    if i == |rec| || rec[i] != OPEN {
      return Bad;
    }
    i := ScanSpace(rec, i + 1);
    if i < |rec| && rec[i] == CLOSE {
      return Members([]);
    }
    var visited: seq<Member> := [];
    ghost var start := i;
    assert Visited([], MembersFrom(rec, i)) == MembersFrom(rec, i) by {
      assert MembersFrom(rec, i).Members? ==> [] + MembersFrom(rec, i).list == MembersFrom(rec, i).list;
    }
    while i < |rec|
      invariant i <= |rec| && Visited(visited, MembersFrom(rec, i)) == MembersFrom(rec, start)
      decreases |rec| - i
    {
      var f := ScanMember(rec, i);
      match f
      case Broken => return Bad;
      case Last(m) => return Members(visited + [m]);
      case More(m, next) =>
        VisitOne(visited, m, MembersFrom(rec, next));
        visited, i := visited + [m], next;
    }
    members := Bad;
  }
}
