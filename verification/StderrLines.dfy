/**
 * Which lines of a stderr log belong to the record above them, on the bytes of three lines: the
 * first one of a record, one more line, and the first one of the next record.
 */
module StderrLines {
  import opened Bytes
  import opened Framing

  /** The text of a line: no line break. */
  predicate IsText(t: bytes) { 10 !in t && 13 !in t }

  /** Three lines, each ended as eol says, by a newline or by a carriage return and a newline. */
  function Three(first: bytes, line: bytes, next: bytes, eol: bytes): bytes { first + eol + line + eol + next + eol }

  ghost predicate AreThree(first: bytes, line: bytes, next: bytes, eol: bytes) {
    IsText(first) && IsText(line) && IsText(next) && first != [] && (eol == [10] || eol == [13, 10])
  }

  // ----- Finding the lines -----

  lemma LineEndsAt(data: bytes, pos: nat, t: bytes, eol: bytes, end: nat)
    requires IsText(t) && (eol == [10] || eol == [13, 10]) && pos + |t| + |eol| <= |data| && end == pos + |t| + |eol|
    requires data[pos..pos + |t|] == t && data[pos + |t|..end] == eol
    ensures IndexFrom(data, LF, pos) == end - 1 && TrimCR(data[pos..end - 1]) == t && data[end - 1] == LF
  {
    assert data[end - 1] == data[pos + |t|..end][|eol| - 1];
    forall k | pos <= k < end - 1
      ensures data[k] != LF
    {
      if k < pos + |t| {
        assert data[k] == data[pos..pos + |t|][k - pos];
      } else {
        assert data[k] == data[pos + |t|..end][k - pos - |t|];
      }
    }
    if |eol| == 2 {
      assert data[end - 2] == data[pos + |t|..end][0];
      assert data[pos..end - 1] == t + [13];
    } else {
      assert data[pos..end - 1] == t;
    }
  }

  lemma Parts(first: bytes, line: bytes, next: bytes, eol: bytes, data: bytes, a: nat, b: nat, c: nat)
    requires data == Three(first, line, next, eol)
    requires a == |first| + |eol| && b == a + |line| + |eol| && c == b + |next| + |eol|
    ensures |data| == c && data[..|first|] == first && data[|first|..a] == eol
    ensures data[a..a + |line|] == line && data[a + |line|..b] == eol
    ensures data[b..b + |next|] == next && data[b + |next|..c] == eol
  {
  }

  lemma FirstLineEnds(first: bytes, line: bytes, next: bytes, eol: bytes, data: bytes)
    requires AreThree(first, line, next, eol) && data == Three(first, line, next, eol)
    ensures var a := |first| + |eol|;
      IndexFrom(data, LF, 0) == a - 1 && TrimCR(data[..a - 1]) == first && data[a - 1] == LF && a <= |data|
  {
    var a := |first| + |eol|;
    Parts(first, line, next, eol, data, a, a + |line| + |eol|, |data|);
    LineEndsAt(data, 0, first, eol, a);
    assert data[..a - 1] == data[0..a - 1];
  }

  lemma OtherLinesEnd(first: bytes, line: bytes, next: bytes, eol: bytes, data: bytes, a: nat, b: nat)
    requires AreThree(first, line, next, eol) && data == Three(first, line, next, eol)
    requires a == |first| + |eol| && b == a + |line| + |eol|
    ensures b < |data| && IndexFrom(data, LF, a) == b - 1 && TrimCR(data[a..b - 1]) == line && data[b - 1] == LF
    ensures IndexFrom(data, LF, b) == |data| - 1 && TrimCR(data[b..|data| - 1]) == next
  {
    Parts(first, line, next, eol, data, a, b, |data|);
    LineEndsAt(data, a, line, eol, b);
    LineEndsAt(data, b, next, eol, |data|);
  }

  // ----- Framing them -----

  /** The line is taken into the record of the first line, whether or not more of the stream will come. */
  ghost predicate Takes(f: Framer, first: bytes, line: bytes, next: bytes, eol: bytes) {
    forall atEOF ::
      Split(f, Three(first, line, next, eol), atEOF)
        == Cut(|first + eol + line + eol|, Some(TrimCR(first + eol + line + if |eol| == 2 then [13] else [])))
  }

  /** The record ends before the line. */
  ghost predicate StopsBefore(f: Framer, first: bytes, line: bytes, next: bytes, eol: bytes) {
    forall atEOF :: Split(f, Three(first, line, next, eol), atEOF) == Cut(|first + eol|, Some(first))
  }

  /** The line from a up to b, and whether the line from b on continues the record, decide how far a record reaches. */
  lemma Reach(continues: bytes -> bool, data: bytes, a: nat, b: nat, c: nat, atEOF: bool)
    requires 0 < a < b < c <= |data| && data[a - 1] == LF && data[b - 1] == LF
    requires IndexFrom(data, LF, a) == b - 1 && IndexFrom(data, LF, b) == c - 1 && !continues(TrimCR(data[b..c - 1]))
    ensures Absorb(continues, data, a, a - 1, atEOF) == if continues(TrimCR(data[a..b - 1])) then Extent(b, b - 1) else Extent(a, a - 1)
  {
    AbsorbLine(continues, data, a, a - 1, atEOF, b - 1);
    AbsorbLine(continues, data, b, b - 1, atEOF, c - 1);
  }

  lemma CutAfter(f: Framer, tail: bool, continues: bytes -> bool, data: bytes, a: nat, b: nat, c: nat, atEOF: bool, line: bytes)
    requires f == Stderr(tail, continues) && 0 < a < b < c <= |data| && data[a - 1] == LF && data[b - 1] == LF
    requires IndexFrom(data, LF, 0) == a - 1 && IndexFrom(data, LF, a) == b - 1 && IndexFrom(data, LF, b) == c - 1
    requires TrimCR(data[..a - 1]) != [] && !continues(TrimCR(data[b..c - 1])) && TrimCR(data[a..b - 1]) == line
    ensures Split(f, data, atEOF) == if continues(line) then Cut(b, Some(TrimCR(data[..b - 1]))) else Cut(a, Some(TrimCR(data[..a - 1])))
  {
    Reach(continues, data, a, b, c, atEOF);
    StderrCut(data, a - 1, atEOF, tail, continues);
  }

  lemma Front(first: bytes, line: bytes, next: bytes, eol: bytes, data: bytes, b: nat)
    requires AreThree(first, line, next, eol) && data == Three(first, line, next, eol) && b == |first + eol + line + eol|
    ensures b <= |data| && data[..b - 1] == first + eol + line + if |eol| == 2 then [13] else []
  {
    assert data[..b] == first + eol + line + eol;
    assert data[..b - 1] == data[..b][..b - 1];
  }

  lemma Frames(tail: bool, continues: bytes -> bool, first: bytes, line: bytes, next: bytes, eol: bytes)
    requires AreThree(first, line, next, eol) && !continues(next)
    ensures continues(line) ==> Takes(Stderr(tail, continues), first, line, next, eol)
    ensures !continues(line) ==> StopsBefore(Stderr(tail, continues), first, line, next, eol)
  {
    var data := Three(first, line, next, eol);
    var a := |first| + |eol|;
    var b := a + |line| + |eol|;
    FirstLineEnds(first, line, next, eol, data);
    OtherLinesEnd(first, line, next, eol, data, a, b);
    Front(first, line, next, eol, data, b);
    forall atEOF
      ensures Split(Stderr(tail, continues), data, atEOF) ==
        if continues(line) then Cut(b, Some(TrimCR(data[..b - 1]))) else Cut(a, Some(TrimCR(data[..a - 1])))
    {
      CutAfter(Stderr(tail, continues), tail, continues, data, a, b, |data|, atEOF, line);
    }
  }

  // ----- By the rules -----

  /** The line opens a record: it is not indented and shows the prefix, if there is one, and LOG: behind it. */
  ghost predicate IsLogLine(rules: StderrRules, next: bytes) {
    && next != [] && next[0] != 32 && next[0] != 9
    && (rules.prefix.Some? ==> exists more :: rules.prefix.value(next) == Some(Ascii("LOG:") + more))
  }

  /** A word and a ':' within the first 32 bytes. */
  predicate IsLabelled(rest: bytes, word: bytes) {
    0 < |word| < 32 && |word| < |rest| && rest[..|word|] == word && rest[|word|] == 58 && 58 !in word && 32 !in word
  }

  lemma LabelIs(rest: bytes, word: bytes)
    requires IsLabelled(rest, word)
    ensures Label(rest) == Some(word)
  {
    var head := rest[..Min(|rest|, MAX_LABEL_BYTES)];
    assert head[|word|] == 58;
    assert forall k | 0 <= k < |word| :: head[k] == rest[..|word|][k];
    assert IndexFrom(head, 58, 0) == |word|;
  }

  lemma LabelShows(rest: bytes, word: bytes)
    requires Label(rest) == Some(word)
    ensures IsLabelled(rest, word)
  {
    var head := rest[..Min(|rest|, MAX_LABEL_BYTES)];
    var i := IndexFrom(head, 58, 0);
    assert forall k | 0 <= k < i :: word[k] == head[k];
  }

  lemma LogIsLabel(rest: bytes, more: bytes)
    requires rest == Ascii("LOG:") + more
    ensures IsLabelled(rest, Ascii("LOG"))
  {
    assert rest[..3] == Ascii("LOG");
  }

  lemma LogOpens(rules: StderrRules, next: bytes)
    requires IsLogLine(rules, next)
    ensures !rules.Continues(next)
  {
    if rules.prefix.Some? {
      var more :| rules.prefix.value(next) == Some(Ascii("LOG:") + more);
      LogIsLabel(Ascii("LOG:") + more, more);
      LabelIs(Ascii("LOG:") + more, Ascii("LOG"));
    }
  }

  /** A line that starts with a space or a tab belongs to the record above it. */
  lemma IndentedIsTaken(rules: StderrRules, tail: bool, first: bytes, line: bytes, next: bytes, eol: bytes)
    requires AreThree(first, line, next, eol) && IsLogLine(rules, next)
    requires line != [] && (line[0] == 32 || line[0] == 9)
    ensures Takes(Stderr(tail, rules.Continues), first, line, next, eol)
  {
    LogOpens(rules, next);
    Frames(tail, rules.Continues, first, line, next, eol);
  }

  /** So does a line that lacks the prefix, or has no label behind it. */
  lemma UnlabelledIsTaken(rules: StderrRules, tail: bool, first: bytes, line: bytes, next: bytes, eol: bytes)
    requires AreThree(first, line, next, eol) && IsLogLine(rules, next) && line != [] && rules.prefix.Some?
    requires var rest := rules.prefix.value(line); rest.None? || (forall word :: !IsLabelled(rest.value, word))
    ensures Takes(Stderr(tail, rules.Continues), first, line, next, eol)
  {
    LogOpens(rules, next);
    var rest := rules.prefix.value(line);
    if rest.Some? && Label(rest.value).Some? {
      LabelShows(rest.value, Label(rest.value).value);
    }
    Frames(tail, rules.Continues, first, line, next, eol);
  }

  /** A line labelled as a detail is taken, unless such lines are to be records of their own. */
  lemma DetailIsTaken(rules: StderrRules, tail: bool, first: bytes, line: bytes, next: bytes, eol: bytes, rest: bytes, word: bytes)
    requires AreThree(first, line, next, eol) && IsLogLine(rules, next) && line != [] && line[0] != 32 && line[0] != 9
    requires rules.prefix.Some? && rules.prefix.value(line) == Some(rest) && IsLabelled(rest, word)
    requires word in {Ascii("DETAIL"), Ascii("HINT"), Ascii("STATEMENT"), Ascii("QUERY"), Ascii("CONTEXT")}
    ensures !rules.splitContinuations ==> Takes(Stderr(tail, rules.Continues), first, line, next, eol)
    ensures rules.splitContinuations ==> StopsBefore(Stderr(tail, rules.Continues), first, line, next, eol)
  {
    LogOpens(rules, next);
    LabelIs(rest, word);
    LabelsAre(word);
    Frames(tail, rules.Continues, first, line, next, eol);
  }

  lemma LabelsAre(word: bytes)
    ensures IsContinuationLabel(word) <==>
      word in {Ascii("DETAIL"), Ascii("HINT"), Ascii("STATEMENT"), Ascii("QUERY"), Ascii("CONTEXT")}
  {
    assert DETAIL == Ascii("DETAIL");
    assert HINT == Ascii("HINT");
    assert STATEMENT == Ascii("STATEMENT");
    assert QUERY == Ascii("QUERY");
    assert CONTEXT == Ascii("CONTEXT");
  }

  /** Any other label opens a record. */
  lemma OtherLabelStops(rules: StderrRules, tail: bool, first: bytes, line: bytes, next: bytes, eol: bytes, rest: bytes, word: bytes)
    requires AreThree(first, line, next, eol) && IsLogLine(rules, next) && line != [] && line[0] != 32 && line[0] != 9
    requires rules.prefix.Some? && rules.prefix.value(line) == Some(rest) && IsLabelled(rest, word)
    requires word !in {Ascii("DETAIL"), Ascii("HINT"), Ascii("STATEMENT"), Ascii("QUERY"), Ascii("CONTEXT")}
    ensures StopsBefore(Stderr(tail, rules.Continues), first, line, next, eol)
  {
    LogOpens(rules, next);
    LabelIs(rest, word);
    LabelsAre(word);
    Frames(tail, rules.Continues, first, line, next, eol);
  }

  /** Without a prefix every line that is not indented opens a record, and a blank line always ends one. */
  lemma PlainLineStops(rules: StderrRules, tail: bool, first: bytes, line: bytes, next: bytes, eol: bytes)
    requires AreThree(first, line, next, eol) && IsLogLine(rules, next)
    requires line == [] || (rules.prefix.None? && line[0] != 32 && line[0] != 9)
    ensures StopsBefore(Stderr(tail, rules.Continues), first, line, next, eol)
  {
    LogOpens(rules, next);
    Frames(tail, rules.Continues, first, line, next, eol);
  }
}
