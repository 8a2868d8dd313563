/**
 * The template of a plain statement behind its marker, said directly about its bytes: values become
 * placeholders, and a list of values behind IN or VALUES becomes "(...)".
 */
module PlainStatements {
  import opened Bytes
  import opened Tokenizer
  import opened Rules
  import opened Masking
  import opened ListGrammar
  import opened Cutting
  import opened Templates
  import opened Idempotence
  import opened PlainMessages
  import opened PlainTemplates
  import Numbers

  // ----- Lists, byte by byte -----

  function BlanksEnd(s: bytes, i: nat): (e: nat)
    requires i <= |s|
    ensures i <= e <= |s|
    decreases |s| - i
  {
    if i < |s| && IsBlank(s[i]) then BlanksEnd(s, i + 1) else i
  }

  /** A number or a "$1" starts at i. */
  predicate IsValueAt(s: bytes, i: nat) { i < |s| && (s[i] == 36 || 48 <= s[i] <= 57) }

  /** The end of '(' value { ',' value } ')' at i, white space aside; 0 when there is no such list. */
  function ListTo(s: bytes, i: nat, tuples: bool): (e: nat)
    requires i <= |s|
    ensures e == 0 || i < e <= |s|
    decreases |s| - i, 2
  {
    var k := BlanksEnd(s, i);
    if k < |s| && s[k] == 40 then ValuesTo(s, k + 1, tuples) else 0
  }

  function ValuesTo(s: bytes, i: nat, tuples: bool): (e: nat)
    requires i <= |s|
    ensures e == 0 || i < e <= |s|
    decreases |s| - i, 1
  {
    var k := BlanksEnd(s, i);
    if IsValueAt(s, k) then BehindValue(s, ChunkEnd(s, k), tuples) else 0
  }

  function BehindValue(s: bytes, i: nat, tuples: bool): (e: nat)
    requires i <= |s|
    ensures e == 0 || i < e <= |s|
    decreases |s| - i, 0
  {
    var k := BlanksEnd(s, i);
    if k == |s| then 0
    else if s[k] == 44 then ValuesTo(s, k + 1, tuples)
    else if s[k] != 41 then 0
    else if tuples then BehindTuple(s, k + 1)
    else k + 1
  }

  /** Behind a tuple of VALUES a ',' must bring another tuple. */
  function BehindTuple(s: bytes, i: nat): (e: nat)
    requires 0 < i <= |s|
    ensures e == 0 || i <= e <= |s|
    decreases |s| - i, 0
  {
    var k := BlanksEnd(s, i);
    if k < |s| && s[k] == 44 then ListTo(s, k + 1, true) else i
  }

  /** The end of the list behind the word w that ends at e; 0 when w takes none or there is none. */
  function ListBehind(s: bytes, w: bytes, e: nat): (k: nat)
    requires e <= |s|
    ensures k == 0 || e < k <= |s|
  {
    if EqualFold(w, Ascii("in")) then ListTo(s, e, false)
    else if EqualFold(w, Ascii("values")) then ListTo(s, e, true)
    else 0
  }

  // ----- The template, byte by byte -----

  /** The template of the statement from i on: gap tells of white space before i, n how many placeholders there are. */
  function Sql(s: bytes, i: nat, gap: bool, n: nat): bytes
    requires i <= |s|
    decreases |s| - i
  {
    if i == |s| then []
    else if IsBlank(s[i]) then Sql(s, i + 1, true, n)
    else if IsSeparator(s[i]) then Spacer(gap) + [s[i]] + Sql(s, i + 1, false, n)
    else
      var e := ChunkEnd(s, i);
      var w := s[i..e];
      if IsValueAt(s, i) then Spacer(gap) + [36] + Numbers.Decimal(n + 1) + Sql(s, e, false, n + 1)
      else
        var k := ListBehind(s, w, e);
        if k > 0 then Spacer(gap) + w + Spacer(e < |s| && IsBlank(s[e])) + [40, 46, 46, 46, 41] + Sql(s, k, false, n)
        else Spacer(gap) + w + Sql(s, e, false, n)
  }

  // ----- Tokens of a plain statement -----

  lemma SqlWord(s: bytes, i: nat, e: nat)
    requires i < e <= |s| && WordIn(s, i, e) && EndsAt(s, e)
    ensures TokenAt(s, i, true) == Token(Word, e)
  {
    WordStopsAt(s, i + 1, e);
    assert i + 1 < e ==> s[i + 1] != AMPERSAND && s[i + 1] != APOSTROPHE;
    assert QuotePrefix(s, i, true) == 0;
    assert Tokenizer.WordToken(s, i, true) == Token(Word, e);
  }

  lemma SqlNumber(s: bytes, i: nat, e: nat)
    requires i < e <= |s| && NumberIn(s, i, e) && EndsAt(s, e)
    ensures TokenAt(s, i, true) == Token(Number, e)
  {
    FixedIsDecimal(s, i, e);
    NoRadix(s, i, e);
    UnitAttached(s, i, e);
    assert NumericToken(s, i, true) == WithUnit(s, i, FixedEnd(s, i), false, true);
  }

  lemma UnitAttached(s: bytes, i: nat, e: nat)
    requires i < e <= |s| && NumberIn(s, i, e) && EndsAt(s, e)
    ensures WithUnit(s, i, FixedEnd(s, i), false, true) == Token(Number, e)
  {
    var f := FixedEnd(s, i);
    if f < e && !(f + 1 == e && s[f] == PERCENT) {
      UnitStopsAt(s, f, e);
    }
  }

  lemma SqlHole(s: bytes, i: nat, e: nat)
    requires i < e <= |s| && HoleIn(s, i, e) && EndsAt(s, e)
    ensures TokenAt(s, i, true) == Token(Param, e)
  {
    HoleStopsAt(s, i + 1, e);
    assert DollarToken(s, i) == Token(Param, e);
  }

  lemma SqlMark(s: bytes, i: nat)
    requires i < |s| && IsSeparator(s[i])
    ensures TokenAt(s, i, true) == Token(Punct, i + 1)
  {
  }

  lemma SqlBlank(s: bytes, i: nat)
    requires i < |s| && IsBlank(s[i])
    ensures TokenAt(s, i, true) == Token(Space, BlanksEnd(s, i)) && i < BlanksEnd(s, i)
  {
    BlanksEndIsRun(s, i);
  }

  lemma {:induction false} BlanksEndIsRun(s: bytes, i: nat)
    requires i <= |s|
    ensures BlanksEnd(s, i) == RunEnd(s, i, Blank) && (BlanksEnd(s, i) < |s| ==> !IsBlank(s[BlanksEnd(s, i)]))
    decreases |s| - i
  {
    if i < |s| && IsBlank(s[i]) {
      BlanksEndIsRun(s, i + 1);
    }
  }

  /** The statement from i on is its first token and the rest. */
  lemma SqlReads(s: bytes, i: nat) returns (k: nat, a: Act)
    requires i < |s| && IsPlain(s, i)
    ensures i < k <= |s| && IsPlain(s, k) && ReadStatement(s, i) == Then(a, ReadStatement(s, k))
    ensures IsBlank(s[i]) ==> k == BlanksEnd(s, i) && a == Gap
    ensures IsSeparator(s[i]) ==> k == i + 1 && a == Text(Punct, [s[i]])
    ensures !Separates(s[i]) ==> k == ChunkEnd(s, i) && EndsAt(s, k) && a == if IsValueAt(s, i) then Mask else Text(Word, s[i..k])
  {
    var t := TokenAt(s, i, true);
    if IsBlank(s[i]) {
      SqlBlank(s, i);
      BlanksEndIsRun(s, i);
      PlainBehindBlanks(s, i);
    } else if IsSeparator(s[i]) {
      SqlMark(s, i);
      assert s[i..i + 1] == [s[i]];
    } else {
      SqlChunk(s, i, ChunkEnd(s, i));
    }
    k, a := t.end, ActOf(t.kind, s[i..t.end]);
  }

  lemma SqlChunk(s: bytes, i: nat, e: nat)
    requires i < |s| && IsPlain(s, i) && !Separates(s[i]) && e == ChunkEnd(s, i)
    ensures i < e && TokenAt(s, i, true).end == e && IsPlain(s, e)
    ensures TokenAt(s, i, true).kind == if s[i] == 36 then Param else if 48 <= s[i] <= 57 then Number else Word
  {
    if WordIn(s, i, e) {
      SqlWord(s, i, e);
    } else if NumberIn(s, i, e) {
      SqlNumber(s, i, e);
    } else {
      SqlHole(s, i, e);
    }
  }

  // ----- Lists of values -----

  /** The list that the script has, if any, ends where the bytes say. */
  ghost predicate SameList(s: bytes, r: Option<Script>, e: nat) {
    if e == 0 then r.None? else e <= |s| && IsPlain(s, e) && r == Some(ReadStatement(s, e))
  }

  lemma {:induction false} BlanksInStatement(s: bytes, i: nat)
    requires i <= |s| && IsPlain(s, i)
    ensures SkipGaps(ReadStatement(s, i)) == ReadStatement(s, BlanksEnd(s, i)) && IsPlain(s, BlanksEnd(s, i))
    ensures BlanksEnd(s, i) < |s| ==> !IsBlank(s[BlanksEnd(s, i)])
    decreases |s| - i
  {
    BlanksEndIsRun(s, i);
    if i < |s| {
      var k, a := SqlReads(s, i);
      if IsBlank(s[i]) {
        BlanksInStatement(s, k);
        assert BlanksEnd(s, k) == k;
      } else {
        assert SkipGaps(Then(a, ReadStatement(s, k))) == Then(a, ReadStatement(s, k));
      }
    }
  }

  /** Behind a stretch comes the end, white space, or a separator. */
  lemma ApartBehind(s: bytes, k: nat)
    requires k <= |s| && IsPlain(s, k) && EndsAt(s, k)
    ensures SkipDigitWords(ReadStatement(s, k)) == ReadStatement(s, k) && AfterValueAt(ReadStatement(s, k)).None?
  {
    if k < |s| {
      var e, a := SqlReads(s, k);
    }
  }

  /** A value at i, if there is one. */
  lemma ValueIs(s: bytes, i: nat)
    requires i <= |s| && IsPlain(s, i)
    ensures if IsValueAt(s, i) then IsPlain(s, ChunkEnd(s, i)) && AfterValueAt(ReadStatement(s, i)) == Some(ReadStatement(s, ChunkEnd(s, i)))
            else AfterValueAt(ReadStatement(s, i)).None?
  {
    if i < |s| {
      var k, a := SqlReads(s, i);
      if !Separates(s[i]) {
        ApartBehind(s, k);
      }
    }
  }

  /** A separator at i, if there is one. */
  lemma SeparatorIs(s: bytes, i: nat, c: byte)
    requires i <= |s| && IsPlain(s, i) && IsSeparator(c) && (i < |s| ==> !IsBlank(s[i]))
    ensures Starts(ReadStatement(s, i), c) <==> i < |s| && s[i] == c
    ensures Starts(ReadStatement(s, i), c) ==> ReadStatement(s, i).rest == ReadStatement(s, i + 1) && IsPlain(s, i + 1)
  {
    if i < |s| {
      var k, a := SqlReads(s, i);
    }
  }

  // the grammar's functions, once white space is skipped

  lemma ListStep(r: Script, t: Script, tuples: bool)
    requires t == SkipGaps(r)
    ensures AfterList(r, tuples) == if Starts(t, LPAREN) then AfterElements(t.rest, tuples) else None
  {
  }

  lemma ElementStep(r: Script, t: Script, tuples: bool)
    requires t == SkipGaps(r)
    ensures AfterElement(r, tuples) ==
      if Starts(t, COMMA) then AfterElements(t.rest, tuples)
      else if !Starts(t, RPAREN) then None
      else if tuples then AfterTuple(t.rest)
      else Some(t.rest)
  {
  }

  lemma TupleStep(r: Script, t: Script)
    requires t == SkipGaps(r)
    ensures AfterTuple(r) == if Starts(t, COMMA) then AfterList(t.rest, true) else Some(r)
  {
  }

  // one step of each, given the rest

  lemma ListFrom(s: bytes, i: nat, k: nat, tuples: bool, r: Script, t: Script)
    requires i <= |s| && k == BlanksEnd(s, i) && t == SkipGaps(r) && (Starts(t, LPAREN) <==> k < |s| && s[k] == 40)
    requires k < |s| && s[k] == 40 ==> SameList(s, AfterElements(t.rest, tuples), ValuesTo(s, k + 1, tuples))
    ensures SameList(s, AfterList(r, tuples), ListTo(s, i, tuples))
  {
    ListStep(r, t, tuples);
  }

  lemma BehindValueIs(s: bytes, i: nat, k: nat, tuples: bool)
    requires i <= |s| && k == BlanksEnd(s, i)
    ensures BehindValue(s, i, tuples) ==
      if k == |s| then 0
      else if s[k] == 44 then ValuesTo(s, k + 1, tuples)
      else if s[k] != 41 then 0
      else if tuples then BehindTuple(s, k + 1)
      else k + 1
  {
  }

  lemma SameLists(s: bytes, x: Option<Script>, y: Option<Script>, e: nat, f: nat)
    requires SameList(s, y, f) && x == y && e == f
    ensures SameList(s, x, e)
  {
  }

  lemma CommaBehind(s: bytes, i: nat, k: nat, tuples: bool, r: Script, t: Script, f: nat)
    requires i <= |s| && k == BlanksEnd(s, i) && t == SkipGaps(r) && k < |s| && s[k] == 44 && Starts(t, COMMA)
    requires f == ValuesTo(s, k + 1, tuples) && SameList(s, AfterElements(t.rest, tuples), f)
    ensures SameList(s, AfterElement(r, tuples), BehindValue(s, i, tuples))
  {
    ElementStep(r, t, tuples);
    BehindValueIs(s, i, k, tuples);
    SameLists(s, AfterElement(r, tuples), AfterElements(t.rest, tuples), BehindValue(s, i, tuples), f);
  }

  lemma TupleBehind(s: bytes, i: nat, k: nat, r: Script, t: Script, f: nat)
    requires i <= |s| && k == BlanksEnd(s, i) && t == SkipGaps(r) && k < |s| && s[k] == 41 && Starts(t, RPAREN)
    requires f == BehindTuple(s, k + 1) && SameList(s, AfterTuple(t.rest), f)
    ensures SameList(s, AfterElement(r, true), BehindValue(s, i, true))
  {
    ElementStep(r, t, true);
    BehindValueIs(s, i, k, true);
    SameLists(s, AfterElement(r, true), AfterTuple(t.rest), BehindValue(s, i, true), f);
  }

  lemma EndBehind(s: bytes, i: nat, k: nat, r: Script, t: Script)
    requires i <= |s| && k == BlanksEnd(s, i) && t == SkipGaps(r) && k < |s| && s[k] == 41 && Starts(t, RPAREN)
    requires IsPlain(s, k + 1) && t.rest == ReadStatement(s, k + 1)
    ensures SameList(s, AfterElement(r, false), BehindValue(s, i, false))
  {
    ElementStep(r, t, false);
    BehindValueIs(s, i, k, false);
    SameLists(s, AfterElement(r, false), Some(t.rest), BehindValue(s, i, false), k + 1);
  }

  lemma NothingBehind(s: bytes, i: nat, k: nat, tuples: bool, r: Script, t: Script)
    requires i <= |s| && k == BlanksEnd(s, i) && t == SkipGaps(r) && !Starts(t, COMMA) && !Starts(t, RPAREN)
    requires k < |s| ==> s[k] != 44 && s[k] != 41
    ensures SameList(s, AfterElement(r, tuples), BehindValue(s, i, tuples))
  {
    ElementStep(r, t, tuples);
    BehindValueIs(s, i, k, tuples);
  }

  lemma ValueFrom(s: bytes, i: nat, k: nat, e: nat, tuples: bool, r: Script, t: Script)
    requires i <= |s| && k == BlanksEnd(s, i) && t == SkipGaps(r) && IsValueAt(s, k) && e == ChunkEnd(s, k) <= |s|
    requires AfterValueAt(t) == Some(ReadStatement(s, e))
    requires SameList(s, AfterElement(ReadStatement(s, e), tuples), BehindValue(s, e, tuples))
    ensures SameList(s, AfterElements(r, tuples), ValuesTo(s, i, tuples))
  {
  }

  lemma NoValueFrom(s: bytes, i: nat, k: nat, tuples: bool, r: Script, t: Script)
    requires i <= |s| && k == BlanksEnd(s, i) && t == SkipGaps(r) && !IsValueAt(s, k) && AfterValueAt(t).None?
    ensures SameList(s, AfterElements(r, tuples), ValuesTo(s, i, tuples))
  {
  }

  /** White space skipped, at k the script goes on as t. */
  lemma Skipped(s: bytes, i: nat) returns (k: nat, t: Script)
    requires i <= |s| && IsPlain(s, i)
    ensures k == BlanksEnd(s, i) && i <= k <= |s| && t == SkipGaps(ReadStatement(s, i)) == ReadStatement(s, k) && IsPlain(s, k)
    ensures forall c | c in {LPAREN, COMMA, RPAREN} ::
      && (Starts(t, c) <==> k < |s| && s[k] == c)
      && (Starts(t, c) ==> t.rest == ReadStatement(s, k + 1) && IsPlain(s, k + 1))
  {
    BlanksInStatement(s, i);
    k := BlanksEnd(s, i);
    t := ReadStatement(s, k);
    SeparatorIs(s, k, LPAREN);
    SeparatorIs(s, k, COMMA);
    SeparatorIs(s, k, RPAREN);
  }

  // the same for all of them

  lemma {:induction false} ListIs(s: bytes, i: nat, tuples: bool, r: Script)
    requires i <= |s| && IsPlain(s, i) && r == ReadStatement(s, i)
    ensures SameList(s, AfterList(r, tuples), ListTo(s, i, tuples))
    decreases |s| - i, 4
  {
    var k, t := Skipped(s, i);
    if k < |s| && s[k] == 40 {
      OpenList(s, i, k, tuples, r, t, t.rest);
    } else {
      NoList(s, i, k, tuples, r, t);
    }
  }

  lemma {:induction false} OpenList(s: bytes, i: nat, k: nat, tuples: bool, r: Script, t: Script, rest: Script)
    requires i <= |s| && k == BlanksEnd(s, i) && t == SkipGaps(r) && k < |s| && s[k] == 40 && Starts(t, LPAREN)
    requires rest == t.rest == ReadStatement(s, k + 1) && IsPlain(s, k + 1)
    ensures SameList(s, AfterList(r, tuples), ListTo(s, i, tuples))
    decreases |s| - i, 3
  {
    ValuesAre(s, k + 1, tuples, rest);
    ListFrom(s, i, k, tuples, r, t);
  }

  lemma NoList(s: bytes, i: nat, k: nat, tuples: bool, r: Script, t: Script)
    requires i <= |s| && k == BlanksEnd(s, i) && t == SkipGaps(r) && (k < |s| ==> s[k] != 40) && !Starts(t, LPAREN)
    ensures SameList(s, AfterList(r, tuples), ListTo(s, i, tuples))
  {
    ListStep(r, t, tuples);
  }

  lemma {:induction false} ValuesAre(s: bytes, i: nat, tuples: bool, r: Script)
    requires i <= |s| && IsPlain(s, i) && r == ReadStatement(s, i)
    ensures SameList(s, AfterElements(r, tuples), ValuesTo(s, i, tuples))
    decreases |s| - i, 2
  {
    var k, t := Skipped(s, i);
    ValueIs(s, k);
    if IsValueAt(s, k) {
      BehindIs(s, ChunkEnd(s, k), tuples, ReadStatement(s, ChunkEnd(s, k)));
      ValueFrom(s, i, k, ChunkEnd(s, k), tuples, r, t);
    } else {
      NoValueFrom(s, i, k, tuples, r, t);
    }
  }

  lemma {:induction false} BehindIs(s: bytes, i: nat, tuples: bool, r: Script)
    requires i <= |s| && IsPlain(s, i) && r == ReadStatement(s, i)
    ensures SameList(s, AfterElement(r, tuples), BehindValue(s, i, tuples))
    decreases |s| - i, 1
  {
    var k, t := Skipped(s, i);
    if k < |s| && s[k] == 44 {
      MoreBehind(s, i, k, tuples, r, t, t.rest);
    } else if k < |s| && s[k] == 41 && tuples {
      TuplesBehind(s, i, k, r, t, t.rest);
    } else if k < |s| && s[k] == 41 {
      EndBehind(s, i, k, r, t);
    } else {
      NothingBehind(s, i, k, tuples, r, t);
    }
  }

  lemma {:induction false} MoreBehind(s: bytes, i: nat, k: nat, tuples: bool, r: Script, t: Script, rest: Script)
    requires i <= |s| && k == BlanksEnd(s, i) && t == SkipGaps(r) && k < |s| && s[k] == 44 && Starts(t, COMMA)
    requires rest == t.rest == ReadStatement(s, k + 1) && IsPlain(s, k + 1)
    ensures SameList(s, AfterElement(r, tuples), BehindValue(s, i, tuples))
    decreases |s| - i, 0
  {
    ValuesAre(s, k + 1, tuples, rest);
    CommaBehind(s, i, k, tuples, r, t, ValuesTo(s, k + 1, tuples));
  }

  lemma {:induction false} TuplesBehind(s: bytes, i: nat, k: nat, r: Script, t: Script, rest: Script)
    requires i <= |s| && k == BlanksEnd(s, i) && t == SkipGaps(r) && k < |s| && s[k] == 41 && Starts(t, RPAREN)
    requires rest == t.rest == ReadStatement(s, k + 1) && IsPlain(s, k + 1)
    ensures SameList(s, AfterElement(r, true), BehindValue(s, i, true))
    decreases |s| - i, 0
  {
    TupleIs(s, k + 1, rest);
    TupleBehind(s, i, k, r, t, BehindTuple(s, k + 1));
  }

  lemma {:induction false} TupleIs(s: bytes, i: nat, r: Script)
    requires 0 < i <= |s| && IsPlain(s, i) && r == ReadStatement(s, i)
    ensures SameList(s, AfterTuple(r), BehindTuple(s, i))
    decreases |s| - i, 1
  {
    var k, t := Skipped(s, i);
    if k < |s| && s[k] == 44 {
      MoreTuples(s, i, k, r, t, t.rest);
    } else {
      NoTuple(s, i, k, r, t);
    }
  }

  lemma {:induction false} MoreTuples(s: bytes, i: nat, k: nat, r: Script, t: Script, rest: Script)
    requires 0 < i <= |s| && IsPlain(s, i) && k == BlanksEnd(s, i) && t == SkipGaps(r) && k < |s| && s[k] == 44 && Starts(t, COMMA)
    requires rest == t.rest == ReadStatement(s, k + 1) && IsPlain(s, k + 1)
    ensures SameList(s, AfterTuple(r), BehindTuple(s, i))
    decreases |s| - i, 0
  {
    ListIs(s, k + 1, true, rest);
    TupleStep(r, t);
    SameLists(s, AfterTuple(r), AfterList(rest, true), BehindTuple(s, i), ListTo(s, k + 1, true));
  }

  lemma NoTuple(s: bytes, i: nat, k: nat, r: Script, t: Script)
    requires 0 < i <= |s| && IsPlain(s, i) && r == ReadStatement(s, i) && k == BlanksEnd(s, i) && t == SkipGaps(r)
    requires (k < |s| ==> s[k] != 44) && !Starts(t, COMMA)
    ensures SameList(s, AfterTuple(r), BehindTuple(s, i))
  {
    TupleStep(r, t);
  }

  /** The list behind a word. */
  lemma WordList(s: bytes, w: bytes, e: nat)
    requires e <= |s| && IsPlain(s, e)
    ensures SameList(s, ListAfter(Text(Word, w), ReadStatement(s, e)), ListBehind(s, w, e))
  {
    ListIs(s, e, false, ReadStatement(s, e));
    ListIs(s, e, true, ReadStatement(s, e));
    assert |Ascii("in")| != |Ascii("values")|;
  }

  // ----- The template -----

  /** From i on the statement is spelled as its bytes show. */
  ghost predicate IsSql(out: bytes, s: bytes, i: nat, gap: bool, n: nat)
    requires i <= |s|
  {
    Spell(out, ReadStatement(s, i), gap, n, true) == out + Sql(s, i, gap, n)
  }

  lemma {:induction false} BlanksInSql(s: bytes, i: nat, gap: bool, n: nat)
    requires i <= |s|
    ensures Sql(s, BlanksEnd(s, i), gap || BlanksEnd(s, i) > i, n) == Sql(s, i, gap, n)
    decreases |s| - i
  {
    if i < |s| && IsBlank(s[i]) {
      BlanksInSql(s, i + 1, true, n);
    }
  }

  lemma Joined(out: bytes, x: bytes, b: bytes, more: bytes)
    ensures out + x + b + more == out + (x + b + more)
  {
  }

  lemma MarkIsSql(out: bytes, s: bytes, i: nat, gap: bool, n: nat)
    requires i < |s| && IsPlain(s, i) && IsSeparator(s[i]) && IsSql(out + Spacer(gap) + [s[i]], s, i + 1, false, n)
    ensures IsSql(out, s, i, gap, n)
  {
    var k, a := SqlReads(s, i);
    assert Spaced(out, gap) == out + Spacer(gap);
    assert AfterValueAt(ReadStatement(s, i)).None?;
    NoListBehindMark(a, ReadStatement(s, k));
    Joined(out, Spacer(gap), [s[i]], Sql(s, i + 1, false, n));
  }

  lemma NoListBehindMark(a: Act, r: Script)
    requires a.Text? && a.kind == Punct
    ensures ListAfter(a, r).None?
  {
  }

  lemma ValueIsSql(out: bytes, s: bytes, i: nat, gap: bool, n: nat, e: nat)
    requires i < |s| && IsPlain(s, i) && !Separates(s[i]) && IsValueAt(s, i) && e == ChunkEnd(s, i) <= |s|
    requires IsSql(out + Spacer(gap) + ([36] + Numbers.Decimal(n + 1)), s, e, false, n + 1)
    ensures IsSql(out, s, i, gap, n)
  {
    var k, a := SqlReads(s, i);
    ApartBehind(s, k);
    assert Spaced(out, gap) == out + Spacer(gap);
    Joined(out, Spacer(gap), [36] + Numbers.Decimal(n + 1), Sql(s, e, false, n + 1));
    assert Spacer(gap) + [36] + Numbers.Decimal(n + 1) == Spacer(gap) + ([36] + Numbers.Decimal(n + 1));
  }

  /** How a word is spelled. */
  lemma WordIsSpelled(out: bytes, s: bytes, i: nat, gap: bool, n: nat, e: nat, w: bytes, k: nat)
    requires i < |s| && IsPlain(s, i) && !Separates(s[i]) && !IsValueAt(s, i) && e == ChunkEnd(s, i) <= |s| && w == s[i..e]
    requires k == ListBehind(s, w, e)
    ensures IsPlain(s, e) && (k > 0 ==> IsPlain(s, k))
    ensures Spell(out, ReadStatement(s, i), gap, n, true) ==
      if k > 0 then Spell(Spaced(Spaced(out, gap) + w, StartsGap(ReadStatement(s, e))) + Dots(), ReadStatement(s, k), false, n, true)
      else Spell(Spaced(out, gap) + w, ReadStatement(s, e), false, n, true)
  {
    var f, a := SqlReads(s, i);
    ApartBehind(s, f);
    WordList(s, w, e);
  }

  lemma GapBehind(s: bytes, e: nat)
    requires e <= |s| && IsPlain(s, e)
    ensures StartsGap(ReadStatement(s, e)) <==> e < |s| && IsBlank(s[e])
  {
    if e < |s| {
      var k, a := SqlReads(s, e);
    }
  }

  /** What is written of a word, and of the list it takes with it. */
  function WordText(s: bytes, gap: bool, w: bytes, e: nat, k: nat): bytes {
    if k > 0 then Spacer(gap) + w + Spacer(e < |s| && IsBlank(s[e])) + [40, 46, 46, 46, 41] else Spacer(gap) + w
  }

  lemma WordInSql(s: bytes, i: nat, gap: bool, n: nat, e: nat, w: bytes, k: nat)
    requires i < |s| && !Separates(s[i]) && !IsValueAt(s, i) && e == ChunkEnd(s, i) <= |s| && w == s[i..e] && k == ListBehind(s, w, e)
    ensures Sql(s, i, gap, n) == WordText(s, gap, w, e, k) + Sql(s, if k > 0 then k else e, false, n)
  {
  }

  lemma Spelled(out: bytes, spelled: bytes, text: bytes, more: bytes, shown: bytes)
    requires spelled == out + text + more && shown == text + more
    ensures spelled == out + shown
  {
  }

  /** A word in front of what is shown. */
  lemma WordIsSql(out: bytes, s: bytes, i: nat, gap: bool, n: nat, e: nat, w: bytes, k: nat, text: bytes, next: nat)
    requires i < |s| && IsPlain(s, i) && !Separates(s[i]) && !IsValueAt(s, i) && e == ChunkEnd(s, i) <= |s| && w == s[i..e]
    requires k == ListBehind(s, w, e) && text == WordText(s, gap, w, e, k) && next == (if k > 0 then k else e)
    requires IsSql(out + text, s, next, false, n)
    ensures IsSql(out, s, i, gap, n)
  {
    WordIsSpelled(out, s, i, gap, n, e, w, k);
    GapBehind(s, e);
    WordInSql(s, i, gap, n, e, w, k);
    WordIsWritten(out, s, gap, w, e, k);
    Spelled(out, Spell(out, ReadStatement(s, i), gap, n, true), text, Sql(s, next, false, n), Sql(s, i, gap, n));
  }

  lemma WordIsWritten(out: bytes, s: bytes, gap: bool, w: bytes, e: nat, k: nat)
    ensures out + WordText(s, gap, w, e, k) ==
      if k > 0 then Spaced(Spaced(out, gap) + w, e < |s| && IsBlank(s[e])) + Dots() else Spaced(out, gap) + w
  {
    assert Dots() == [40, 46, 46, 46, 41];
    assert Spaced(out, gap) == out + Spacer(gap);
    assert out + (Spacer(gap) + w) == out + Spacer(gap) + w;
    var g := Spacer(e < |s| && IsBlank(s[e]));
    assert Spaced(out + Spacer(gap) + w, e < |s| && IsBlank(s[e])) == out + Spacer(gap) + w + g;
    assert out + (Spacer(gap) + w + g + Dots()) == out + Spacer(gap) + w + g + Dots();
  }

  lemma {:induction false} PlainSql(out: bytes, s: bytes, i: nat, gap: bool, n: nat)
    requires i <= |s| && IsPlain(s, i)
    ensures IsSql(out, s, i, gap, n)
    decreases |s| - i
  {
    if i == |s| {
      assert out + [] == out;
    } else if IsBlank(s[i]) {
      var k, a := SqlReads(s, i);
      PlainSql(out, s, k, true, n);
      BlanksInSql(s, i, gap, n);
    } else if IsSeparator(s[i]) {
      SeparatorIs(s, i, s[i]);
      PlainSql(out + Spacer(gap) + [s[i]], s, i + 1, false, n);
      MarkIsSql(out, s, i, gap, n);
    } else {
      var e := ChunkEnd(s, i);
      SqlChunk(s, i, e);
      if IsValueAt(s, i) {
        PlainSql(out + Spacer(gap) + ([36] + Numbers.Decimal(n + 1)), s, e, false, n + 1);
        ValueIsSql(out, s, i, gap, n, e);
      } else {
        var w := s[i..e];
        var k := ListBehind(s, w, e);
        WordList(s, w, e);
        var next := if k > 0 then k else e;
        PlainSql(out + WordText(s, gap, w, e, k), s, next, false, n);
        WordIsSql(out, s, i, gap, n, e, w, k, WordText(s, gap, w, e, k), next);
      }
    }
  }
}
