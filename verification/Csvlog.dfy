/**
 * Csvlog text: what the printer writes, what the splitter and the unquoter make of it, and the
 * round trip between the two. The quoting rules are those of section 2 of RFC 4180.
 */
module Csvlog {
  import opened Bytes
  import opened Framing

  // ----- Printing -----

  /** A column as the printer writes it: in quotes, or as it is. */
  datatype Field = Quoted(text: bytes) | Plain(text: bytes)

  /** A text with each quote doubled. */
  function Doubled(t: bytes): (d: bytes)
    ensures |d| >= |t|
  {
    if t == [] then [] else (if t[0] == QUOTE then [QUOTE, QUOTE] else [t[0]]) + Doubled(t[1..])
  }

  function Print(f: Field): bytes {
    match f
    case Quoted(t) => [QUOTE] + Doubled(t) + [QUOTE]
    case Plain(t) => t
  }

  function PrintRow(fields: seq<Field>): bytes
    requires fields != []
  {
    if |fields| == 1 then Print(fields[0]) else Print(fields[0]) + [COMMA] + PrintRow(fields[1..])
  }

  /** What may stand in a column without quotes. */
  predicate IsPlain(t: bytes) { QUOTE !in t && COMMA !in t && LF !in t && CR !in t }

  predicate Printable(f: Field) { f.Plain? ==> IsPlain(f.text) }

  predicate IsRow(fields: seq<Field>) { fields != [] && forall i | 0 <= i < |fields| :: Printable(fields[i]) }

  /** A quoted column, appended to the builder sb. */
  method EscapeCSV(sb: bytes, s: bytes) returns (r: bytes)
    ensures r == sb + Print(Quoted(s))
  {
    r := sb + [QUOTE];
    var i := 0;
    while i < |s|
      invariant 0 <= i <= |s| && r + Doubled(s[i..]) == sb + [QUOTE] + Doubled(s)
    {
      ghost var was := r;
      if s[i] == QUOTE {
        r := r + [QUOTE];
      }
      r := r + [s[i]];
      assert s[i..][1..] == s[i + 1..];
      assert r + Doubled(s[i + 1..]) == was + Doubled(s[i..]);
      i := i + 1;
    }
    assert s[i..] == [] && r == sb + [QUOTE] + Doubled(s);
    r := r + [QUOTE];
    assert r == sb + ([QUOTE] + Doubled(s) + [QUOTE]);
  }

  // ----- Splitting -----

  /** The quote that closes the field whose body is at i: the first that is not doubled; or -1. */
  function ClosingQuote(rec: bytes, i: nat): (q: int)
    ensures q == -1 || (i <= q < |rec| && rec[q] == QUOTE)
    decreases |rec| - i
  {
    if i >= |rec| then -1
    else if rec[i] != QUOTE then ClosingQuote(rec, i + 1)
    else if i + 1 < |rec| && rec[i + 1] == QUOTE then ClosingQuote(rec, i + 2)
    else i
  }

  /** doubled says that the column holds doubled quotes, so it needs unquoting. */
  datatype Column = Unterminated | Column(val: bytes, next: nat, doubled: bool)

  /** The separator at or after i, or the end. */
  function SeparatorFrom(rec: bytes, i: nat): (c: nat)
    requires i <= |rec|
    ensures i <= c <= |rec|
  {
    var c := IndexFrom(rec, COMMA, i);
    if c >= 0 then c else |rec|
  }

  /** The column at i, without its quotes but with doubled quotes as they are, and where it ends. */
  function ColumnAt(rec: bytes, i: nat): (c: Column)
    requires i <= |rec|
    ensures c.Column? ==> i <= c.next <= |rec|
  {
    if i < |rec| && rec[i] == QUOTE then
      var q := ClosingQuote(rec, i + 1);
      if q < 0 then Unterminated else Column(rec[i + 1..q], SeparatorFrom(rec, q + 1), QUOTE in rec[i + 1..q])
    else Column(rec[i..SeparatorFrom(rec, i)], SeparatorFrom(rec, i), false)
  }

  /** The columns of a record, and whether some of them need unquoting; Broken when a quoted one does not end. */
  datatype Columns = Broken | Columns(vals: seq<bytes>, doubled: bool) {
    function Behind(val: bytes, valDoubled: bool): Columns {
      if Broken? then Broken else Columns([val] + vals, valDoubled || doubled)
    }
  }

  function ColumnsFrom(rec: bytes, i: nat): (r: Columns)
    requires i <= |rec|
    ensures r.Columns? ==> |r.vals| > 0
    decreases |rec| - i
  {
    var c := ColumnAt(rec, i);
    if c.Unterminated? then Broken
    else if c.next == |rec| then Columns([c.val], c.doubled)
    else ColumnsFrom(rec, c.next + 1).Behind(c.val, c.doubled)
  }

  /** The quote that closes the field whose body is at start, and whether the body has a quote in it. */
  method ScanQuoted(rec: bytes, start: nat) returns (j: int, doubled: bool)
    requires start <= |rec|
    ensures j == ClosingQuote(rec, start)
    ensures j >= 0 ==> (doubled <==> QUOTE in rec[start..j])
  {
    var i := start;
    doubled := false;
    while true
      invariant start <= i <= |rec| && ClosingQuote(rec, i) == ClosingQuote(rec, start)
      invariant doubled <==> QUOTE in rec[start..i]
      decreases |rec| - i
    {
      j := IndexFrom(rec, QUOTE, i);
      SkipToQuote(rec, i);
      if j < 0 {
        return;
      }
      if j + 1 == |rec| || rec[j + 1] != QUOTE {
        QuotesUpTo(rec, start, i, j);
        return;
      }
      assert QUOTE in rec[start..j + 2] by { assert rec[start..j + 2][j - start] == QUOTE; }
      i, doubled := j + 2, true;
    }
  }

  method ScanColumn(rec: bytes, start: nat) returns (c: Column)
    requires start <= |rec|
    ensures c == ColumnAt(rec, start)
  {
    if start == |rec| || rec[start] != QUOTE {
      var sep := IndexFrom(rec, COMMA, start);
      return if sep >= 0 then Column(rec[start..sep], sep, false) else Column(rec[start..], |rec|, false);
    }
    var j, doubled := ScanQuoted(rec, start + 1);
    c := if j < 0 then Unterminated else Column(rec[start + 1..j], SeparatorFrom(rec, j + 1), doubled);
  }

  lemma QuotesUpTo(rec: bytes, from: nat, i: nat, j: nat)
    requires from <= i <= j <= |rec| && forall k | i <= k < j :: rec[k] != QUOTE
    ensures QUOTE in rec[from..j] <==> QUOTE in rec[from..i]
  {
    assert rec[from..j] == rec[from..i] + rec[i..j];
  }

  lemma SkipToQuote(rec: bytes, i: nat)
    requires i <= |rec|
    ensures var j := IndexFrom(rec, QUOTE, i);
      ClosingQuote(rec, i) == if j < 0 then -1 else ClosingQuote(rec, j)
    decreases |rec| - i
  {
    if i < |rec| && rec[i] != QUOTE {
      SkipToQuote(rec, i + 1);
    }
  }

  const MAX_COLUMNS: nat := 32

  /** The columns done, and those that are still ahead. */
  ghost function All(done: seq<bytes>, doubled: bool, ahead: Columns): Columns {
    if ahead.Broken? then Broken else Columns(done + ahead.vals, doubled || ahead.doubled)
  }

  lemma OneInFront(done: seq<bytes>, doubled: bool, val: bytes, valDoubled: bool, rest: Columns)
    ensures All(done, doubled, rest.Behind(val, valDoubled)) == All(done + [val], doubled || valDoubled, rest)
  {
    if rest.Columns? {
      assert done + ([val] + rest.vals) == done + [val] + rest.vals;
    }
  }

  /** One column more is done. */
  lemma OneMore(rec: bytes, i: nat, done: seq<bytes>, doubled: bool, c: Column)
    requires i <= |rec| && c == ColumnAt(rec, i) && c.Column?
    ensures c.next < |rec| ==>
      All(done, doubled, ColumnsFrom(rec, i)) == All(done + [c.val], doubled || c.doubled, ColumnsFrom(rec, c.next + 1))
    ensures c.next == |rec| ==>
      All(done, doubled, ColumnsFrom(rec, i)) == Columns(done + [c.val], doubled || c.doubled)
  {
    if c.next < |rec| {
      ColumnsGoOn(rec, i, c.val, c.next, c.doubled, ColumnsFrom(rec, c.next + 1));
      OneInFront(done, doubled, c.val, c.doubled, ColumnsFrom(rec, c.next + 1));
    } else {
      ColumnsEnd(rec, i, c.val, c.doubled);
    }
  }

  lemma NoneDone(ahead: Columns)
    ensures All([], false, ahead) == ahead
  {
    assert ahead.Columns? ==> [] + ahead.vals == ahead.vals;
  }

  /** out holds the columns cols, as far as it has room. */
  ghost predicate Stored(out: array<bytes>, cols: seq<bytes>)
    reads out
  {
    out.Length == MAX_COLUMNS && forall k | 0 <= k < Min(|cols|, MAX_COLUMNS) :: out[k] == cols[k]
  }

  /** The columns of a record, the first 32 of them put into out. */
  method SplitFields(rec: bytes, out: array<bytes>) returns (ok: bool, n: nat, doubled: bool)
    requires out.Length == MAX_COLUMNS
    modifies out
    ensures ok <==> ColumnsFrom(rec, 0).Columns?
    ensures ok ==> n == |ColumnsFrom(rec, 0).vals| && doubled == ColumnsFrom(rec, 0).doubled
    ensures ok ==> Stored(out, ColumnsFrom(rec, 0).vals) && forall k | n <= k < MAX_COLUMNS :: out[k] == old(out[k])
  {
    var i := 0;
    ghost var done: seq<bytes> := [];
    ghost var all := ColumnsFrom(rec, 0);
    ok, n, doubled := true, 0, false;
    NoneDone(all);
    while true
      invariant i <= |rec| && n == |done| && ok && all == All(done, doubled, ColumnsFrom(rec, i))
      invariant Stored(out, done) && forall k | n <= k < MAX_COLUMNS :: out[k] == old(out[k])
      decreases |rec| - i
    {
      var c := ScanColumn(rec, i);
      if c.Unterminated? {
        ok := false;
        return;
      }
      OneMore(rec, i, done, doubled, c);
      Store(out, n, c.val, done);
      n, done, doubled := n + 1, done + [c.val], doubled || c.doubled;
      if c.next == |rec| {
        return;
      }
      i := c.next + 1;
    }
  }

  method Store(out: array<bytes>, n: nat, val: bytes, ghost done: seq<bytes>)
    requires Stored(out, done) && n == |done|
    modifies out
    ensures Stored(out, done + [val]) && forall k | |done| < k < MAX_COLUMNS :: out[k] == old(out[k])
  {
    if n < MAX_COLUMNS {
      out[n] := val;
    }
  }

  // ----- Unquoting -----

  function Unquoted(src: bytes): (t: bytes)
    ensures |t| <= |src|
  {
    if src == [] then []
    else if src[0] == QUOTE && |src| > 1 && src[1] == QUOTE then [QUOTE] + Unquoted(src[2..])
    else [src[0]] + Unquoted(src[1..])
  }

  method AppendUnquoted(dst: bytes, src: bytes) returns (r: bytes)
    ensures r == dst + Unquoted(src)
  {
    r := dst;
    var i := 0;
    while i < |src|
      invariant 0 <= i <= |src| && r + Unquoted(src[i..]) == dst + Unquoted(src)
    {
      var c := src[i];
      ghost var was, from := r, i;
      r := r + [c];
      if c == QUOTE && i + 1 < |src| && src[i + 1] == QUOTE {
        i := i + 1;
      }
      i := i + 1;
      assert src[i..] == src[from..][i - from..];
      assert r + Unquoted(src[i..]) == was + Unquoted(src[from..]);
    }
    assert src[i..] == [];
  }

  // ----- Round trips -----

  /** Unquoting undoes the doubling, whatever the text. */
  lemma {:induction false} UnquotedDoubled(t: bytes)
    ensures Unquoted(Doubled(t)) == t
  {
    if t != [] {
      UnquotedDoubled(t[1..]);
      var d := Doubled(t);
      if t[0] == QUOTE {
        assert d[2..] == Doubled(t[1..]);
      } else {
        assert d[1..] == Doubled(t[1..]);
      }
      assert t == [t[0]] + t[1..];
    }
  }

  lemma {:induction false} UnquotedPlain(t: bytes)
    requires QUOTE !in t
    ensures Unquoted(t) == t && Doubled(t) == t
  {
    if t != [] {
      assert t[0] in t;
      UnquotedPlain(t[1..]);
      assert t == [t[0]] + t[1..];
    }
  }

  /** A column as the splitter returns it. */
  function Raw(f: Field): bytes { if f.Quoted? then Doubled(f.text) else f.text }

  function Raws(fields: seq<Field>): (r: seq<bytes>)
    ensures |r| == |fields| && forall i | 0 <= i < |r| :: r[i] == Raw(fields[i])
  {
    seq(|fields|, i requires 0 <= i < |fields| => Raw(fields[i]))
  }

  /** At the end of a row, or where the next column starts. */
  predicate EndsColumn(post: bytes) { post == [] || post[0] == COMMA }

  lemma {:induction false} ClosingOfDoubled(pre: bytes, t: bytes, post: bytes)
    requires post == [] || post[0] != QUOTE
    ensures ClosingQuote(pre + Doubled(t) + [QUOTE] + post, |pre|) == |pre| + |Doubled(t)|
    decreases |t|
  {
    var rec := pre + Doubled(t) + [QUOTE] + post;
    if t == [] {
      assert rec[|pre|] == QUOTE;
      if post != [] {
        assert rec[|pre| + 1] == post[0];
      }
    } else if t[0] == QUOTE {
      assert rec == (pre + [QUOTE, QUOTE]) + Doubled(t[1..]) + [QUOTE] + post;
      assert rec[|pre|] == QUOTE && rec[|pre| + 1] == QUOTE;
      ClosingOfDoubled(pre + [QUOTE, QUOTE], t[1..], post);
    } else {
      assert rec == (pre + [t[0]]) + Doubled(t[1..]) + [QUOTE] + post;
      assert rec[|pre|] == t[0];
      ClosingOfDoubled(pre + [t[0]], t[1..], post);
    }
  }

  lemma SeparatorBehind(pre: bytes, t: bytes, post: bytes)
    requires COMMA !in t && EndsColumn(post)
    ensures SeparatorFrom(pre + t + post, |pre|) == |pre| + |t|
  {
    var rec := pre + t + post;
    assert forall k | |pre| <= k < |pre| + |t| :: rec[k] == t[k - |pre|];
    if post != [] {
      assert rec[|pre| + |t|] == COMMA;
    }
  }

  lemma SeparatorNext(rec: bytes, ahead: bytes, post: bytes)
    requires rec == ahead + post && EndsColumn(post)
    ensures SeparatorFrom(rec, |ahead|) == |ahead|
  {
    if post != [] {
      assert rec[|ahead|] == post[0];
    }
  }

  lemma QuotedSlice(rec: bytes, pre: bytes, d: bytes, post: bytes)
    requires rec == pre + [QUOTE] + d + [QUOTE] + post
    requires ClosingQuote(rec, |pre| + 1) == |pre| + 1 + |d| && SeparatorFrom(rec, |pre| + |d| + 2) == |pre| + |d| + 2
    ensures ColumnAt(rec, |pre|) == Column(d, |pre| + |d| + 2, QUOTE in d)
  {
    assert rec[|pre|] == QUOTE && rec[|pre| + 1..|pre| + 1 + |d|] == d;
  }

  lemma QuotedColumn(pre: bytes, t: bytes, post: bytes)
    requires EndsColumn(post)
    ensures ColumnAt(pre + Print(Quoted(t)) + post, |pre|) == Column(Doubled(t), |pre| + |Print(Quoted(t))|, QUOTE in t)
  {
    var d := Doubled(t);
    var rec := pre + Print(Quoted(t)) + post;
    Regroup(pre, d, post);
    assert ClosingQuote(rec, |pre| + 1) == |pre| + 1 + |d| by {
      ClosingOfDoubled(pre + [QUOTE], t, post);
    }
    SeparatorNext(rec, pre + [QUOTE] + d + [QUOTE], post);
    QuotedSlice(rec, pre, d, post);
    QuoteInDoubled(t);
  }

  lemma Regroup(pre: bytes, d: bytes, post: bytes)
    ensures pre + ([QUOTE] + d + [QUOTE]) + post == pre + [QUOTE] + d + [QUOTE] + post
    ensures pre + [QUOTE] + d + [QUOTE] + [] + post == pre + [QUOTE] + d + [QUOTE] + post
  {
  }

  lemma PlainColumn(pre: bytes, t: bytes, post: bytes)
    requires IsPlain(t) && EndsColumn(post)
    ensures ColumnAt(pre + t + post, |pre|) == Column(t, |pre| + |t|, false)
  {
    var rec := pre + t + post;
    SeparatorBehind(pre, t, post);
    assert rec[|pre|..|pre| + |t|] == t;
    if |pre| < |rec| {
      assert rec[|pre|] == if t != [] then t[0] else post[0];
      assert t != [] ==> t[0] in t;
    }
  }

  lemma ColumnOfPrinted(pre: bytes, f: Field, post: bytes)
    requires Printable(f) && EndsColumn(post)
    ensures ColumnAt(pre + Print(f) + post, |pre|) == Column(Raw(f), |pre| + |Print(f)|, Quotes(f))
  {
    if f.Quoted? {
      QuotedColumn(pre, f.text, post);
    } else {
      PlainColumn(pre, f.text, post);
    }
  }

  /** Some column has a quote in it. */
  predicate HasQuote(fields: seq<Field>) {
    fields != [] && (Quotes(fields[0]) || HasQuote(fields[1..]))
  }

  lemma QuoteInDoubled(t: bytes)
    ensures QUOTE in Doubled(t) <==> QUOTE in t
  {
    if t != [] {
      QuoteInDoubled(t[1..]);
      assert t == [t[0]] + t[1..];
    }
  }

  /** The column has a quote in it. */
  predicate Quotes(f: Field) { f.Quoted? && QUOTE in f.text }

  lemma ColumnsEnd(rec: bytes, i: nat, val: bytes, doubled: bool)
    requires i <= |rec| && ColumnAt(rec, i) == Column(val, |rec|, doubled)
    ensures ColumnsFrom(rec, i) == Columns([val], doubled)
  {
  }

  lemma ColumnsGoOn(rec: bytes, i: nat, val: bytes, next: nat, doubled: bool, rest: Columns)
    requires i <= next < |rec| && ColumnAt(rec, i) == Column(val, next, doubled) && rest == ColumnsFrom(rec, next + 1)
    ensures ColumnsFrom(rec, i) == rest.Behind(val, doubled)
  {
  }

  lemma ColumnsBehind(first: Field, rest: seq<Field>, c: Columns)
    requires c == Columns(Raws(rest), HasQuote(rest))
    ensures c.Behind(Raw(first), Quotes(first)) == Columns(Raws([first] + rest), HasQuote([first] + rest))
  {
    assert Raws([first] + rest) == [Raw(first)] + Raws(rest);
    assert ([first] + rest)[1..] == rest;
  }

  lemma LastColumn(pre: bytes, f: Field, rec: bytes)
    requires Printable(f) && rec == pre + Print(f)
    ensures ColumnsFrom(rec, |pre|) == Columns(Raws([f]), HasQuote([f]))
  {
    assert rec == pre + Print(f) + [];
    ColumnOfPrinted(pre, f, []);
    ColumnsEnd(rec, |pre|, Raw(f), Quotes(f));
    assert Raws([f]) == [Raw(f)];
  }

  lemma FirstColumn(pre: bytes, f: Field, post: bytes, rec: bytes)
    requires Printable(f) && post != [] && post[0] == COMMA && rec == pre + Print(f) + post
    ensures ColumnAt(rec, |pre|) == Column(Raw(f), |pre| + |Print(f)|, Quotes(f)) && |pre| + |Print(f)| < |rec|
  {
    ColumnOfPrinted(pre, f, post);
  }

  lemma PrintStep(pre: bytes, f: Field, rest: seq<Field>)
    requires rest != []
    ensures var rec := pre + PrintRow([f] + rest);
      rec == pre + Print(f) + [COMMA] + PrintRow(rest) && rec == pre + Print(f) + ([COMMA] + PrintRow(rest))
  {
    assert ([f] + rest)[1..] == rest;
  }

  lemma MoreColumns(pre: bytes, fields: seq<Field>, rec: bytes, i: nat, next: nat)
    requires |fields| > 1 && Printable(fields[0]) && rec == pre + PrintRow(fields) && i == |pre| && next == i + |Print(fields[0])|
    requires next < |rec| && ColumnsFrom(rec, next + 1) == Columns(Raws(fields[1..]), HasQuote(fields[1..]))
    ensures ColumnsFrom(rec, i) == Columns(Raws(fields), HasQuote(fields))
  {
    var f, rest := fields[0], fields[1..];
    assert fields == [f] + rest;
    assert ColumnAt(rec, i) == Column(Raw(f), next, Quotes(f)) by {
      PrintStep(pre, f, rest);
      FirstColumn(pre, f, [COMMA] + PrintRow(rest), rec);
    }
    ColumnsGoOn(rec, i, Raw(f), next, Quotes(f), ColumnsFrom(rec, next + 1));
    ColumnsBehind(f, rest, ColumnsFrom(rec, next + 1));
  }

  lemma RestOfRow(fields: seq<Field>)
    requires IsRow(fields) && |fields| > 1
    ensures Printable(fields[0]) && IsRow(fields[1..]) && fields == [fields[0]] + fields[1..]
  {
  }

  /** Where the rest of a row stands. */
  lemma RestIsBehind(pre: bytes, fields: seq<Field>, rec: bytes, next: nat) returns (ahead: bytes)
    requires |fields| > 1 && rec == pre + PrintRow(fields) && next == |pre| + |Print(fields[0])|
    ensures next < |rec| && rec == ahead + PrintRow(fields[1..]) && next + 1 == |ahead|
  {
    assert fields == [fields[0]] + fields[1..];
    PrintStep(pre, fields[0], fields[1..]);
    ahead := pre + Print(fields[0]) + [COMMA];
  }

  lemma OneColumn(pre: bytes, fields: seq<Field>, rec: bytes, i: nat)
    requires IsRow(fields) && |fields| == 1 && rec == pre + PrintRow(fields) && i == |pre|
    ensures ColumnsFrom(rec, i) == Columns(Raws(fields), HasQuote(fields))
  {
    assert fields == [fields[0]];
    LastColumn(pre, fields[0], rec);
  }

  lemma {:induction false} ColumnsOfPrinted(pre: bytes, fields: seq<Field>, rec: bytes, i: nat)
    requires IsRow(fields) && rec == pre + PrintRow(fields) && i == |pre|
    ensures ColumnsFrom(rec, i) == Columns(Raws(fields), HasQuote(fields))
    decreases |fields|, 1
  {
    if |fields| == 1 {
      OneColumn(pre, fields, rec, i);
    } else {
      var next := i + |Print(fields[0])|;
      RestOfPrinted(pre, fields, rec, next);
      MoreColumns(pre, fields, rec, i, next);
    }
  }

  lemma {:induction false} RestOfPrinted(pre: bytes, fields: seq<Field>, rec: bytes, next: nat)
    requires IsRow(fields) && |fields| > 1 && rec == pre + PrintRow(fields) && next == |pre| + |Print(fields[0])|
    ensures next < |rec| && ColumnsFrom(rec, next + 1) == Columns(Raws(fields[1..]), HasQuote(fields[1..]))
    decreases |fields|, 0
  {
    RestOfRow(fields);
    var ahead := RestIsBehind(pre, fields, rec, next);
    ColumnsOfPrinted(ahead, fields[1..], rec, next + 1);
  }

  /**
   * A printed row splits into exactly its columns, each of which unquotes to the text that was
   * printed, and it is flagged as in need of unquoting just when some column has a quote in it.
   */
  lemma RowSplits(fields: seq<Field>)
    requires IsRow(fields)
    ensures ColumnsFrom(PrintRow(fields), 0) == Columns(Raws(fields), HasQuote(fields))
    ensures forall i | 0 <= i < |fields| :: Unquoted(Raw(fields[i])) == fields[i].text
  {
    var row := PrintRow(fields);
    assert row == [] + row;
    ColumnsOfPrinted([], fields, row, 0);
    TextsComeBack(fields);
  }

  lemma TextsComeBack(fields: seq<Field>)
    requires IsRow(fields)
    ensures forall i | 0 <= i < |fields| :: Unquoted(Raw(fields[i])) == fields[i].text
  {
    forall i | 0 <= i < |fields|
      ensures Unquoted(Raw(fields[i])) == fields[i].text
    {
      assert Printable(fields[i]);
      if fields[i].Quoted? {
        UnquotedDoubled(fields[i].text);
      } else {
        UnquotedPlain(fields[i].text);
      }
    }
  }

  // ----- Framing -----

  lemma {:induction false} DoubledStaysInside(pre: bytes, t: bytes, post: bytes)
    ensures var data := pre + Doubled(t) + post;
      CsvEnd(data, |pre|, Inside) == CsvEnd(data, |pre| + |Doubled(t)|, Inside)
    decreases |t|
  {
    var data := pre + Doubled(t) + post;
    if t != [] {
      var step := if t[0] == QUOTE then [QUOTE, QUOTE] else [t[0]];
      assert data == (pre + step) + Doubled(t[1..]) + post;
      assert data[|pre|] == step[0] && data[|pre| + |step| - 1] == step[|step| - 1];
      DoubledStaysInside(pre + step, t[1..], post);
    }
  }

  lemma {:induction false} PlainStaysOutside(data: bytes, i: nat, j: nat)
    requires i <= j <= |data| && QUOTE !in data[i..j] && LF !in data[i..j]
    ensures CsvEnd(data, i, Outside) == CsvEnd(data, j, Outside)
    decreases j - i
  {
    if i < j {
      assert data[i] == data[i..j][0] && data[i + 1..j] == data[i..j][1..];
      PlainStaysOutside(data, i + 1, j);
    }
  }

  /** The quoting state right behind a printed column. */
  function StateBehind(f: Field): Quoting { if f.Quoted? then Closing else Outside }

  lemma QuotesArePassed(data: bytes, i: nat, j: nat)
    requires i < j < |data| && data[i] == QUOTE && data[j] == QUOTE && CsvEnd(data, i + 1, Inside) == CsvEnd(data, j, Inside)
    ensures CsvEnd(data, i, Outside) == CsvEnd(data, j + 1, Closing)
  {
  }

  lemma QuotedIsPassed(pre: bytes, t: bytes, post: bytes, data: bytes)
    requires data == pre + [QUOTE] + Doubled(t) + [QUOTE] + post
    ensures CsvEnd(data, |pre|, Outside) == CsvEnd(data, |pre| + |Doubled(t)| + 2, Closing)
  {
    var d := Doubled(t);
    DoubledStaysInside(pre + [QUOTE], t, [QUOTE] + post);
    assert data == (pre + [QUOTE]) + d + ([QUOTE] + post);
    QuotesArePassed(data, |pre|, |pre| + 1 + |d|);
  }

  lemma PlainIsPassed(pre: bytes, t: bytes, post: bytes)
    requires IsPlain(t)
    ensures CsvEnd(pre + t + post, |pre|, Outside) == CsvEnd(pre + t + post, |pre| + |t|, Outside)
  {
    assert (pre + t + post)[|pre|..|pre| + |t|] == t;
    PlainStaysOutside(pre + t + post, |pre|, |pre| + |t|);
  }

  lemma FieldIsPassed(pre: bytes, f: Field, post: bytes, data: bytes)
    requires Printable(f) && data == pre + Print(f) + post
    ensures CsvEnd(data, |pre|, Outside) == CsvEnd(data, |pre| + |Print(f)|, StateBehind(f))
  {
    if f.Quoted? {
      Regroup(pre, Doubled(f.text), post);
      QuotedIsPassed(pre, f.text, post, data);
    } else {
      PlainIsPassed(pre, f.text, post);
    }
  }

  lemma LastIsPassed(pre: bytes, f: Field, post: bytes, data: bytes)
    requires Printable(f) && data == pre + Print(f) + [LF] + post
    ensures CsvEnd(data, |pre|, Outside) == |pre| + |Print(f)|
  {
    var next := |pre| + |Print(f)|;
    assert CsvEnd(data, |pre|, Outside) == CsvEnd(data, next, StateBehind(f)) by {
      assert data == pre + Print(f) + ([LF] + post);
      FieldIsPassed(pre, f, [LF] + post, data);
    }
    assert data[next] == LF;
  }

  lemma FirstIsPassed(pre: bytes, f: Field, rest: seq<Field>, post: bytes, data: bytes, next: nat)
    requires Printable(f) && rest != [] && data == pre + PrintRow([f] + rest) + [LF] + post && next == |pre| + |Print(f)|
    ensures next < |data| && CsvEnd(data, |pre|, Outside) == CsvEnd(data, next + 1, Outside)
    ensures data == (pre + Print(f) + [COMMA]) + PrintRow(rest) + [LF] + post
    ensures |PrintRow([f] + rest)| == |Print(f)| + 1 + |PrintRow(rest)|
  {
    PrintStep(pre, f, rest);
    var more := [COMMA] + PrintRow(rest) + [LF] + post;
    assert data == pre + Print(f) + more;
    FieldIsPassed(pre, f, more, data);
    assert data[next] == more[0];
  }

  lemma {:induction false} RowEnds(pre: bytes, fields: seq<Field>, post: bytes, data: bytes, i: nat)
    requires IsRow(fields) && data == pre + PrintRow(fields) + [LF] + post && i == |pre|
    ensures CsvEnd(data, i, Outside) == i + |PrintRow(fields)|
    decreases |fields|
  {
    if |fields| == 1 {
      LastIsPassed(pre, fields[0], post, data);
    } else {
      RestOfRow(fields);
      var f, rest := fields[0], fields[1..];
      var next := i + |Print(f)|;
      FirstIsPassed(pre, f, rest, post, data, next);
      RowEnds(pre + Print(f) + [COMMA], rest, post, data, next + 1);
    }
  }

  lemma {:induction false} RowEndsWithoutCR(fields: seq<Field>)
    requires IsRow(fields)
    ensures var row := PrintRow(fields); row != [] ==> row[|row| - 1] != CR
  {
    if |fields| == 1 {
      var f := fields[0];
      assert Printable(f);
      if f.Plain? && f.text != [] {
        assert f.text[|f.text| - 1] in f.text;
      }
    } else {
      RowEndsWithoutCR(fields[1..]);
    }
  }

  /** A printed row and its newline are framed as one record, whatever stands behind them. */
  lemma RowIsFramed(fields: seq<Field>, post: bytes, emitTail: bool, atEOF: bool)
    requires IsRow(fields) && fields != [Plain([])]
    ensures var row := PrintRow(fields); Split(Csv(emitTail), row + [LF] + post, atEOF) == Cut(|row| + 1, Some(row))
  {
    var row := PrintRow(fields);
    var data := row + [LF] + post;
    RowEnds([], fields, post, data, 0);
    RowEndsWithoutCR(fields);
    assert data[..|row|] == row;
    assert row != [];
  }
}
