/**
 * The columns of a csvlog row by their numbers: which field of a record each becomes, in a row of
 * any layout, and the bytes that a row is made of.
 */
module CsvFields {
  import opened Bytes
  import opened Numbers
  import opened Csvlog
  import opened Events

  // ----- The bytes of a row -----

  /** Quotes stand around a quoted column and are doubled inside it; commas stand between columns. */
  lemma RowBytes(f: Field, rest: seq<Field>, c: byte, t: bytes)
    ensures Print(Quoted(t)) == [34] + Doubled(t) + [34] && Print(Plain(t)) == t
    ensures Doubled([]) == [] && Doubled([c] + t) == (if c == 34 then [34, 34] else [c]) + Doubled(t)
    ensures PrintRow([f]) == Print(f)
    ensures rest != [] ==> PrintRow([f] + rest) == Print(f) + [44] + PrintRow(rest)
  {
    assert ([c] + t)[1..] == t && ([f] + rest)[1..] == rest;
  }

  /** A row with a quoted column that does not end is none. */
  lemma OpenRowFails(t: bytes)
    ensures ColumnsFrom([34] + Doubled(t), 0).Broken?
  {
    NeverCloses([34], t);
  }

  /** What stands between the closing quote and the next comma is passed over. */
  lemma JunkIsSkipped(t: bytes, d: bytes, junk: bytes, rest: bytes, rec: bytes, k: nat)
    requires d == Doubled(t) && rec == [34] + d + [34] + (junk + [44] + rest) && 44 !in junk && (junk == [] || junk[0] != 34)
    requires k == |d| + 2 + |junk|
    ensures k < |rec| && rec[k + 1..] == rest && ColumnsFrom(rec, 0) == ColumnsFrom(rec, k + 1).Behind(d, 34 in t)
  {
    JunkEnds(t, d, junk, rest, rec, k);
    ColumnsGoOn(rec, 0, d, k, 34 in t, ColumnsFrom(rec, k + 1));
  }

  lemma JunkEnds(t: bytes, d: bytes, junk: bytes, rest: bytes, rec: bytes, k: nat)
    requires d == Doubled(t) && rec == [34] + d + [34] + (junk + [44] + rest) && 44 !in junk && (junk == [] || junk[0] != 34)
    requires k == |d| + 2 + |junk|
    ensures k < |rec| && rec[k + 1..] == rest && ColumnAt(rec, 0) == Column(d, k, 34 in t)
  {
    QuotedParts(rec, d, junk + [44] + rest);
    FirstComma(rec, |d| + 2, k, junk, rest);
    QuoteInDoubled(t);
    JunkClosing(t, d, junk + [44] + rest, rec);
    JunkColumn(rec, d, k);
  }

  lemma JunkClosing(t: bytes, d: bytes, post: bytes, rec: bytes)
    requires d == Doubled(t) && rec == [34] + d + [34] + post && post != [] && post[0] != 34
    ensures ClosingQuote(rec, 1) == 1 + |d|
  {
    ClosingOfDoubled([34], t, post);
  }

  lemma QuotedParts(rec: bytes, d: bytes, post: bytes)
    requires rec == [34] + d + [34] + post
    ensures |d| + 2 <= |rec| && rec[0] == 34 && rec[1..1 + |d|] == d && rec[|d| + 2..] == post
  {
  }

  lemma JunkColumn(rec: bytes, d: bytes, k: nat)
    requires |d| + 2 <= |rec| && rec[0] == 34 && rec[1..1 + |d|] == d && ClosingQuote(rec, 1) == 1 + |d| && SeparatorFrom(rec, |d| + 2) == k
    ensures ColumnAt(rec, 0) == Column(d, k, 34 in d)
  {
  }

  lemma FirstComma(rec: bytes, i: nat, k: nat, junk: bytes, rest: bytes)
    requires i <= |rec| && rec[i..] == junk + [44] + rest && k == i + |junk| && 44 !in junk
    ensures k < |rec| && rec[k + 1..] == rest && SeparatorFrom(rec, i) == k
  {
    assert rec[k] == rec[i..][|junk|] == 44 && rec[k + 1..] == rec[i..][|junk| + 1..];
    forall j | i <= j < k
      ensures rec[j] != COMMA
    {
      assert rec[j] == rec[i..][j - i] == junk[j - i];
    }
  }

  lemma {:induction false} NeverCloses(pre: bytes, t: bytes)
    ensures ClosingQuote(pre + Doubled(t), |pre|) < 0
    decreases |t|
  {
    var rec := pre + Doubled(t);
    if t != [] {
      var d := if t[0] == QUOTE then [QUOTE, QUOTE] else [t[0]];
      assert Doubled(t) == d + Doubled(t[1..]) && rec == (pre + d) + Doubled(t[1..]);
      assert rec[|pre|] == d[0] && (t[0] == QUOTE ==> rec[|pre| + 1] == d[1]);
      NeverCloses(pre + d, t[1..]);
    }
  }

  // ----- The fields of a row -----

  /** What the parser makes of the row of these columns. */
  function ReadRow(fields: seq<Field>): Option<Parsed>
    requires fields != []
  {
    CsvParsed(ColumnsFrom(PrintRow(fields), 0))
  }

  /** The columns of a row, split. */
  ghost predicate AreColumns(c: Columns, fields: seq<Field>) {
    && c.Columns? && |c.vals| == |fields|
    && (forall k | 0 <= k < |fields| :: CsvText(c.vals[k], c.doubled) == fields[k].text)
    && (forall k | 0 <= k < |fields| && fields[k].Plain? :: c.vals[k] == fields[k].text)
  }

  lemma RowColumns(fields: seq<Field>, c: Columns)
    requires IsRow(fields) && c == ColumnsFrom(PrintRow(fields), 0)
    ensures AreColumns(c, fields)
  {
    RowSplits(fields);
    forall k | 0 <= k < |fields|
      ensures CsvText(Raws(fields)[k], HasQuote(fields)) == fields[k].text
    {
      ColumnReads(fields, k);
    }
  }

  /** Rows of fewer than 23 columns are refused, all others are read. */
  lemma ShortRowFails(fields: seq<Field>)
    requires IsRow(fields)
    ensures ReadRow(fields).Some? <==> |fields| >= 23
  {
    RowColumns(fields, ColumnsFrom(PrintRow(fields), 0));
  }

  lemma WhoAndWhere(c: Columns, fields: seq<Field>)
    requires AreColumns(c, fields) && |fields| >= 23
    ensures var p := CsvParsed(c).value;
      && p.user == fields[1].text && p.database == fields[2].text && p.from == fields[4].text
      && p.sessionID == fields[5].text && p.tag == fields[7].text && p.vxid == fields[9].text && p.severity == fields[11].text
  {
  }

  lemma Texts(c: Columns, fields: seq<Field>)
    requires AreColumns(c, fields) && |fields| >= 23
    ensures var p := CsvParsed(c).value;
      && p.message == fields[13].text && p.detail == fields[14].text && p.hint == fields[15].text
      && p.query == fields[19].text && p.app == fields[22].text
      && p.backend == if |fields| > 23 then fields[23].text else []
  {
  }

  lemma TimesAndNumbers(c: Columns, fields: seq<Field>)
    requires AreColumns(c, fields) && |fields| >= 23
    requires forall k | 0 <= k < |fields| && k in {0, 3, 6, 8, 10, 12, 25} :: fields[k].Plain?
    ensures var p := CsvParsed(c).value;
      && p.time == fields[0].text && p.started == fields[8].text
      && p.sqlState == (if |fields[12].text| == 5 then fields[12].text else [])
      && p.pid == OrZero(Signed32(fields[3].text)) && p.lineNum == OrZero(Signed(fields[6].text))
      && p.txid == OrZero(Signed(fields[10].text))
      && p.queryID == if |fields| > 25 then OrZero(Signed(fields[25].text)) else 0
  {
  }

  /**
   * The columns of a row, counted from 0, are the fields of the record, whatever the quoted ones
   * hold; times, numbers and the SQLSTATE stand without quotes, and the newest layout adds columns
   * at the end.
   */
  lemma ColumnsAreFields(fields: seq<Field>)
    requires IsRow(fields) && |fields| >= 23
    requires forall k | 0 <= k < |fields| && k in {0, 3, 6, 8, 10, 12, 25} :: fields[k].Plain?
    ensures ReadRow(fields) == Some(Parsed(
      fields[0].text, fields[1].text, fields[2].text, OrZero(Signed32(fields[3].text)), fields[4].text,
      fields[5].text, OrZero(Signed(fields[6].text)), fields[7].text, fields[8].text, fields[9].text,
      OrZero(Signed(fields[10].text)), fields[11].text, if |fields[12].text| == 5 then fields[12].text else [],
      fields[13].text, fields[14].text, fields[15].text, fields[19].text, fields[22].text,
      if |fields| > 23 then fields[23].text else [], if |fields| > 25 then OrZero(Signed(fields[25].text)) else 0))
  {
    var c := ColumnsFrom(PrintRow(fields), 0);
    RowColumns(fields, c);
    WhoAndWhere(c, fields);
    Texts(c, fields);
    TimesAndNumbers(c, fields);
  }
}
