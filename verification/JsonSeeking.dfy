/**
 * Repositioning inside a jsonlog file. Its resynchronisation accepts any position that shows a
 * '{', so a cut inside a message can be taken for a record; this is exactly when that happens.
 */
module JsonSeeking {
  import opened Bytes
  import opened Framing
  import opened Stream
  import opened Records
  import opened Seeking
  import opened TextLines

  const LBRACE: byte := 123

  predicate StartsJson(line: bytes) { line != [] && line[0] == LBRACE }

  /** A jsonlog file: framed by lines, and no empty text parses. */
  ghost predicate IsJson(log: Log, emitTail: bool) {
    log.Valid() && AreCuts(log.cuts, Json(emitTail), log.stream, log.max) && !log.accepts([])
  }

  lemma JsonCut(stream: bytes, max: nat, emitTail: bool, p: nat)
    requires p < |stream| && max > 0
    ensures var c := CutAt(Json(emitTail), stream, p, max);
      && (c.advance > 0 ==> p + c.advance == LineEnd(stream, p))
      && (c.advance == 0 ==> forall k | p <= k < p + max :: k < |stream| && stream[k] != LF)
      && (c.token.Some? ==> c.token.value == LineText(stream, p))
  {
    var n := Min(|stream| - p, max);
    var w := stream[p..p + n];
    WindowLine(stream, p, n, w);
    if n < max {
      assert w == stream[p..];
    }
  }

  /** A move goes over exactly one line. */
  lemma JsonMove(log: Log, emitTail: bool, p: nat)
    requires IsJson(log, emitTail) && p < |log.stream|
    ensures MoveAt(log, p).next == LineEnd(log.stream, p)
    ensures Parsed(log, p, MoveAt(log, p)) != [] ==> LineText(log.stream, p) != []
  {
    JsonCut(log.stream, log.max, emitTail, p);
    assert log.cuts[p] == CutAt(Json(emitTail), log.stream, p, log.max);
    if log.cuts[p].advance == 0 {
      var nl := IndexFrom(log.stream, LF, p);
      assert nl >= 0 ==> nl >= p + log.max;
    }
  }

  ghost predicate AtLine(log: Log, q: nat) {
    q == Head(log.stream) || q == |log.stream| || (0 < q < |log.stream| && log.stream[q - 1] == LF)
  }

  /** Every line start is a boundary. */
  lemma {:induction false} LineStartsJoin(log: Log, emitTail: bool, p: nat, q: nat)
    requires IsJson(log, emitTail) && p <= q <= |log.stream| && AtLine(log, q)
    requires q == Head(log.stream) ==> p == q
    ensures Join(log, p, q) == q
    decreases |log.stream| - p
  {
    if p < q {
      JsonMove(log, emitTail, p);
      LineStartsJoin(log, emitTail, MoveAt(log, p).next, q);
    }
  }

  /** Off a line start, a scan of the whole file goes on at the next one. */
  lemma NextLineJoins(log: Log, emitTail: bool, s: nat)
    requires IsJson(log, emitTail) && Head(log.stream) <= s <= |log.stream| && !IsBoundary(log, s)
    ensures s < |log.stream| && Join(log, Head(log.stream), s) == LineEnd(log.stream, s)
  {
    var head := Head(log.stream);
    if AtLine(log, s) {
      LineStartsJoin(log, emitTail, head, s);
    }
    var e, b := LineEnd(log.stream, s), Join(log, head, s);
    LineStartsJoin(log, emitTail, head, e);
    JoinLeast(log, head, s, e);
    JoinAtLine(log, head, s);
  }

  // ----- What a sample has to show -----

  predicate IsLineEnd(c: byte) { c == LF || c == CR }

  /** Where the first byte from p on is that ends no line. */
  function ContentAt(stream: bytes, p: nat): (k: nat)
    requires p <= |stream|
    ensures p <= k <= |stream| && (k < |stream| ==> !IsLineEnd(stream[k])) && forall j | p <= j < k :: IsLineEnd(stream[j])
    decreases |stream| - p
  {
    if p == |stream| || !IsLineEnd(stream[p]) then p else ContentAt(stream, p + 1)
  }

  /** Two samples open alike: their first lines start with the same byte. */
  predicate OpenAlike(a: bytes, b: bytes) {
    var l, m := FirstLine(a), FirstLine(b);
    l.Some? && m.Some? && l.value != [] && m.value != [] && l.value[0] == m.value[0]
  }

  /** Two samples that agree up to the first byte with content open alike. */
  lemma {:induction false} SamplesOpenAlike(a: bytes, b: bytes, k: nat)
    requires k < |a| <= |b| && b[..|a|] == a && !IsLineEnd(a[k])
    ensures OpenAlike(a, b)
    decreases |a|
  {
    var i := IndexFrom(a, LF, 0);
    if 0 <= i < k {
      var c, d := RestsAlike(a, b, i, k);
      if TrimCR(a[..i]) == [] {
        SamplesOpenAlike(c, d, k - i - 1);
      }
      OpenBehind(a, b, i, c, d);
    } else {
      OpenAtOnce(a, b, k);
    }
  }

  lemma OpenAtOnce(a: bytes, b: bytes, k: nat)
    requires k < |a| <= |b| && b[..|a|] == a && !IsLineEnd(a[k]) && !(0 <= IndexFrom(a, LF, 0) < k)
    ensures OpenAlike(a, b)
  {
    SameBytes(a, b);
    OpensLine(a, k);
    OpensLine(b, k);
  }

  /** What is behind the first line of both samples. */
  lemma RestsAlike(a: bytes, b: bytes, i: nat, k: nat) returns (c: bytes, d: bytes)
    requires i < k < |a| <= |b| && b[..|a|] == a && !IsLineEnd(a[k]) && IndexFrom(a, LF, 0) == i
    ensures c == a[i + 1..] && d == b[i + 1..] && k - i - 1 < |c| <= |d| && d[..|c|] == c && c[k - i - 1] == a[k]
    ensures IndexFrom(b, LF, 0) == i && a[..i] == b[..i]
  {
    SameBytes(a, b);
    FirstLineAlike(a, b, i);
    c, d := a[i + 1..], b[i + 1..];
  }

  lemma SameBytes(a: bytes, b: bytes)
    requires |a| <= |b| && b[..|a|] == a
    ensures forall j | 0 <= j < |a| :: a[j] == b[j]
  {
    forall j | 0 <= j < |a|
      ensures a[j] == b[j]
    {
      assert b[..|a|][j] == b[j];
    }
  }

  lemma OpenBehind(a: bytes, b: bytes, i: nat, c: bytes, d: bytes)
    requires IndexFrom(a, LF, 0) == IndexFrom(b, LF, 0) == i && a[..i] == b[..i] && c == a[i + 1..] && d == b[i + 1..]
    requires TrimCR(a[..i]) == [] ==> OpenAlike(c, d)
    ensures OpenAlike(a, b)
  {
    FirstLineStep(a, i);
    FirstLineStep(b, i);
  }

  lemma FirstLineAlike(a: bytes, b: bytes, i: nat)
    requires |a| <= |b| && (forall j | 0 <= j < |a| :: a[j] == b[j]) && IndexFrom(a, LF, 0) == i
    ensures IndexFrom(b, LF, 0) == i && a[..i] == b[..i] && b[i + 1..][..|a| - i - 1] == a[i + 1..]
  {
  }

  /** The first line has content, and its first byte is the first byte of all. */
  lemma OpensLine(a: bytes, k: nat)
    requires k < |a| && !IsLineEnd(a[k]) && !(0 <= IndexFrom(a, LF, 0) < k)
    ensures FirstLine(a).Some? && FirstLine(a).value != [] && FirstLine(a).value[0] == a[0]
  {
    var i := IndexFrom(a, LF, 0);
    var line := if i < 0 then a else a[..i];
    assert line[k] == a[k] && line[0] == a[0];
    assert |line| == k + 1 ==> line[|line| - 1] != CR;
  }

  /** The bytes that are sure to be seen at p show one with content, or all of the rest. */
  predicate ShowsByte(log: Log, p: nat)
    requires p <= |log.stream|
  {
    Seen(log, p) == |log.stream| - p || ContentAt(log.stream, p) < p + Seen(log, p)
  }

  /** In a jsonlog file such a position is clear, however long its line is. */
  lemma ByteIsClear(log: Log, p: nat)
    requires p <= |log.stream| && ShowsByte(log, p)
    ensures Clear(log, StartsJson, p)
  {
    var k := ContentAt(log.stream, p);
    forall n | Seen(log, p) <= n <= |log.stream| - p
      ensures Judge(StartsJson, Sample(log, p, n)) == Judge(StartsJson, Rest(log, p))
    {
      var a, b := Sample(log, p, n), Rest(log, p);
      if n == |log.stream| - p {
        assert a == b;
      } else {
        assert b[..n] == a;
        SamplesOpenAlike(a, b, k - p);
      }
    }
  }

  // ----- What resynchronisation passes over -----

  /** The line at q shows a '{' first. */
  predicate ShowsBrace(stream: bytes, q: nat)
    requires q < |stream|
  {
    LineText(stream, q) != [] && stream[q] == LBRACE
  }

  /** From q on, at most that many lines up to and with the one at b, and none of them shows a '{' first. */
  predicate PassedOver(stream: bytes, q: nat, b: nat, lines: nat)
    requires q < |stream|
    decreases lines
  {
    && lines > 0 && !ShowsBrace(stream, q)
    && (q == b || (LineEnd(stream, q) <= b && LineEnd(stream, q) < |stream| && PassedOver(stream, LineEnd(stream, q), b, lines - 1)))
  }

  /** A verdict tells whether the first line that is not blank shows a '{' first. */
  lemma JsonVerdict(log: Log, verdicts: seq<Verdict>, q: nat)
    requires log.Valid() && AreVerdicts(verdicts, log, StartsJson) && q < |log.stream|
    ensures LineText(log.stream, q) != [] ==> verdicts[q] == if ShowsBrace(log.stream, q) then Starts else Interior
    ensures LineText(log.stream, q) == [] ==> verdicts[q] == verdicts[LineEnd(log.stream, q)]
  {
    VerdictIs(log, StartsJson, verdicts, q);
    VerdictIs(log, StartsJson, verdicts, LineEnd(log.stream, q));
    if LineText(log.stream, q) != [] {
      LineTextStart(log.stream, q);
    }
  }

  lemma ResyncOver(log: Log, verdicts: seq<Verdict>, q: nat, lines: nat)
    requires q < |log.stream| && |verdicts| == |log.stream| + 1 && lines > 0 && verdicts[q] == Interior
    ensures Seeking.Resync(log, verdicts, q, lines)
         == if LineEnd(log.stream, q) == |log.stream| then |log.stream|
            else Seeking.Resync(log, verdicts, LineEnd(log.stream, q), lines - 1)
  {
    assert LineEnd(log.stream, q) == |log.stream| ==>
      Seeking.Resync(log, verdicts, |log.stream|, lines - 1) == |log.stream|;
  }

  lemma NextBoundary(log: Log, emitTail: bool, q: nat)
    requires IsJson(log, emitTail) && Head(log.stream) <= q < |log.stream|
    ensures IsBoundary(log, LineEnd(log.stream, q)) && LineEnd(log.stream, q) > q
  {
    LineStartsJoin(log, emitTail, Head(log.stream), LineEnd(log.stream, q));
  }

  /** A verdict does not change along the blank lines before a line with content at b. */
  lemma {:induction false} VerdictAhead(log: Log, verdicts: seq<Verdict>, q: nat, b: nat, lines: nat)
    requires log.Valid() && AreVerdicts(verdicts, log, StartsJson) && q <= b < |log.stream| && LineText(log.stream, b) != []
    requires PassedOver(log.stream, q, b, lines)
    ensures verdicts[q] == Interior
    decreases lines
  {
    JsonVerdict(log, verdicts, q);
    if LineText(log.stream, q) == [] {
      VerdictAhead(log, verdicts, LineEnd(log.stream, q), b, lines - 1);
    }
  }

  /** Resynchronisation from q goes past the line at b exactly when it passes it over. */
  lemma {:induction false} PastIsPassed(log: Log, emitTail: bool, verdicts: seq<Verdict>, q: nat, b: nat, lines: nat)
    requires IsJson(log, emitTail) && AreVerdicts(verdicts, log, StartsJson) && b < |log.stream| && LineText(log.stream, b) != []
    requires Head(log.stream) <= q <= b && (q == b || LineEnd(log.stream, q) <= b) && IsBoundary(log, b)
    ensures b < Seeking.Resync(log, verdicts, q, lines) <==> PassedOver(log.stream, q, b, lines)
    decreases lines, 0
  {
    if PassedOver(log.stream, q, b, lines) {
      VerdictAhead(log, verdicts, q, b, lines);
    }
    if lines > 0 && verdicts[q] == Interior {
      JsonVerdict(log, verdicts, q);
      ResyncOver(log, verdicts, q, lines);
      if q < b {
        PastIsPassedNext(log, emitTail, verdicts, q, LineEnd(log.stream, q), b, lines - 1);
      }
    }
  }

  lemma {:induction false} PastIsPassedNext(log: Log, emitTail: bool, verdicts: seq<Verdict>, q: nat, e: nat, b: nat, lines: nat)
    requires IsJson(log, emitTail) && AreVerdicts(verdicts, log, StartsJson) && b < |log.stream| && LineText(log.stream, b) != []
    requires Head(log.stream) <= q < e <= b && e == LineEnd(log.stream, q) && IsBoundary(log, b)
    ensures b < Seeking.Resync(log, verdicts, e, lines) <==> PassedOver(log.stream, e, b, lines)
    decreases lines, 1
  {
    LineStart(log, b, e);
    PastIsPassed(log, emitTail, verdicts, e, b, lines);
  }

  /** Of two line starts the later is not inside the line of the earlier. */
  lemma LineStart(log: Log, b: nat, e: nat)
    requires log.Valid() && Head(log.stream) < e <= b < |log.stream| && IsBoundary(log, b)
    ensures e == b || LineEnd(log.stream, e) <= b
  {
    JoinAtLine(log, Head(log.stream), b);
  }

  // ----- What a seek reads -----

  /** The record at b is passed over by a seek to s. */
  ghost predicate IsLost(log: Log, s: nat, b: nat)
    requires log.Valid() && s < |log.stream|
  {
    && s <= b < |log.stream| && IsBoundary(log, b) && Parsed(log, b, MoveAt(log, b)) != []
    && PassedOver(log.stream, s, b, MAX_RESYNC_LINES)
  }

  /** A seek to s passes over a record: one that is indented, with no '{' at the head of a line before it. */
  ghost predicate LosesRecord(log: Log, s: nat)
    requires log.Valid() && s < |log.stream|
  {
    exists b :: IsLost(log, s, b)
  }

  /** Position s is inside a line, and what the line shows from s on is a record by itself. */
  ghost predicate ShamRecord(log: Log, s: nat)
    requires log.Valid() && s < |log.stream|
  {
    !IsBoundary(log, s) && log.stream[s] == LBRACE && Parsed(log, s, MoveAt(log, s)) != []
  }

  /** Resynchronisation ends at s, or at a line start behind it. */
  lemma {:induction false} ResyncLands(log: Log, emitTail: bool, verdicts: seq<Verdict>, q: nat, lines: nat)
    requires IsJson(log, emitTail) && |verdicts| == |log.stream| + 1 && Head(log.stream) <= q <= |log.stream|
    ensures var to := Seeking.Resync(log, verdicts, q, lines); to == q || (IsBoundary(log, to) && q < to)
    decreases lines
  {
    if q < |log.stream| && lines > 0 && verdicts[q] == Interior {
      ResyncOver(log, verdicts, q, lines);
      NextBoundary(log, emitTail, q);
      ResyncLands(log, emitTail, verdicts, LineEnd(log.stream, q), lines - 1);
    }
  }

  /** From a boundary on, a landing behind it reads the same records exactly when none is passed over. */
  lemma LandingReads(log: Log, emitTail: bool, verdicts: seq<Verdict>, s: nat, p: nat, to: nat)
    requires IsJson(log, emitTail) && AreVerdicts(verdicts, log, StartsJson) && Head(log.stream) <= s <= p <= to <= |log.stream|
    requires s < |log.stream| && (p == s || p == LineEnd(log.stream, s)) && IsBoundary(log, p) && IsBoundary(log, to)
    requires to == Seeking.Resync(log, verdicts, s, MAX_RESYNC_LINES) && (p > s ==> !IsBoundary(log, s))
    ensures RecordsFrom(log, to) == RecordsFrom(log, p) <==> !LosesRecord(log, s)
  {
    var head := Head(log.stream);
    ChainJoins(log, head, p, to);
    if LosesRecord(log, s) {
      var b :| IsLost(log, s, b);
      LostIsBetween(log, emitTail, verdicts, s, p, b);
      ChainJoins(log, head, p, b);
      ChainJoins(log, head, b, to);
      OneFewer(log, p, b, to);
    } else {
      forall b | p <= b < to && Join(log, p, b) == b
        ensures Parsed(log, b, MoveAt(log, b)) == []
      {
        BetweenIsLost(log, emitTail, verdicts, s, p, b);
      }
      NoneBetween(log, p, to);
    }
  }

  lemma LostIsBetween(log: Log, emitTail: bool, verdicts: seq<Verdict>, s: nat, p: nat, b: nat)
    requires IsJson(log, emitTail) && AreVerdicts(verdicts, log, StartsJson) && Head(log.stream) <= s < |log.stream| && IsLost(log, s, b)
    requires (p == s || p == LineEnd(log.stream, s)) && (p > s ==> !IsBoundary(log, s))
    ensures p <= b < Seeking.Resync(log, verdicts, s, MAX_RESYNC_LINES)
  {
    JsonMove(log, emitTail, b);
    if s < b {
      JoinAtLine(log, Head(log.stream), b);
    }
    PastIsPassed(log, emitTail, verdicts, s, b, MAX_RESYNC_LINES);
  }

  lemma BetweenIsLost(log: Log, emitTail: bool, verdicts: seq<Verdict>, s: nat, p: nat, b: nat)
    requires IsJson(log, emitTail) && AreVerdicts(verdicts, log, StartsJson) && Head(log.stream) <= s < |log.stream|
    requires s <= p && (p == s || p == LineEnd(log.stream, s)) && IsBoundary(log, p)
    requires p <= b < Seeking.Resync(log, verdicts, s, MAX_RESYNC_LINES) && Join(log, p, b) == b && !LosesRecord(log, s)
    ensures Parsed(log, b, MoveAt(log, b)) == []
  {
    ChainOn(log, Head(log.stream), p, b);
    if Parsed(log, b, MoveAt(log, b)) != [] {
      JsonMove(log, emitTail, b);
      if s < b {
        JoinAtLine(log, Head(log.stream), b);
      }
      PastIsPassed(log, emitTail, verdicts, s, b, MAX_RESYNC_LINES);
      assert IsLost(log, s, b);
    }
  }

  /**
   * Seeking to s reads exactly the records from s on, unless the rest of the line at s starts
   * with '{' and parses, or resynchronisation passes over a record because it is indented.
   */
  lemma JsonSeekExact(log: Log, emitTail: bool, verdicts: seq<Verdict>, s: nat)
    requires IsJson(log, emitTail) && AreVerdicts(verdicts, log, StartsJson) && Head(log.stream) <= s < |log.stream|
    ensures RecordsFrom(log, Seeking.Resync(log, verdicts, s, MAX_RESYNC_LINES)) == Since(Serial(log), s)
      <==> !ShamRecord(log, s) && !LosesRecord(log, s)
  {
    var to := Seeking.Resync(log, verdicts, s, MAX_RESYNC_LINES);
    JoinRecords(log, Head(log.stream), s);
    ResyncLands(log, emitTail, verdicts, s, MAX_RESYNC_LINES);
    if IsBoundary(log, s) {
      LandingReads(log, emitTail, verdicts, s, s, to);
    } else {
      NextLineJoins(log, emitTail, s);
      if to == s {
        StaysReads(log, emitTail, verdicts, s);
      } else {
        NoSham(log, emitTail, verdicts, s);
        NextLineStarts(log, emitTail, verdicts, s, to);
        LandingReads(log, emitTail, verdicts, s, LineEnd(log.stream, s), to);
      }
    }
  }

  /** A seek into a line that stays there reads the fragment, and loses nothing. */
  lemma StaysReads(log: Log, emitTail: bool, verdicts: seq<Verdict>, s: nat)
    requires IsJson(log, emitTail) && AreVerdicts(verdicts, log, StartsJson) && Head(log.stream) <= s < |log.stream| && !IsBoundary(log, s)
    requires Seeking.Resync(log, verdicts, s, MAX_RESYNC_LINES) == s
    ensures RecordsFrom(log, s) == RecordsFrom(log, LineEnd(log.stream, s)) <==> !ShamRecord(log, s)
    ensures !LosesRecord(log, s)
  {
    FragmentRecords(log, emitTail, s);
    if LosesRecord(log, s) {
      var b :| IsLost(log, s, b);
      LostIsBetween(log, emitTail, verdicts, s, LineEnd(log.stream, s), b);
    }
    ResyncMoves(log, verdicts, s);
    JsonMove(log, emitTail, s);
    JsonVerdict(log, verdicts, s);
  }

  lemma ResyncMoves(log: Log, verdicts: seq<Verdict>, s: nat)
    requires log.Valid() && |verdicts| == |log.stream| + 1 && s < |log.stream|
    ensures Seeking.Resync(log, verdicts, s, MAX_RESYNC_LINES) == s <==> verdicts[s] != Interior
  {
    if verdicts[s] == Interior {
      ResyncOver(log, verdicts, s, MAX_RESYNC_LINES);
    }
  }

  lemma NoSham(log: Log, emitTail: bool, verdicts: seq<Verdict>, s: nat)
    requires IsJson(log, emitTail) && AreVerdicts(verdicts, log, StartsJson) && s < |log.stream|
    requires Seeking.Resync(log, verdicts, s, MAX_RESYNC_LINES) != s
    ensures !ShamRecord(log, s)
  {
    ResyncMoves(log, verdicts, s);
    JsonMove(log, emitTail, s);
    JsonVerdict(log, verdicts, s);
  }

  lemma NextLineStarts(log: Log, emitTail: bool, verdicts: seq<Verdict>, s: nat, to: nat)
    requires IsJson(log, emitTail) && Head(log.stream) <= s < to <= |log.stream| && |verdicts| == |log.stream| + 1
    requires to == Seeking.Resync(log, verdicts, s, MAX_RESYNC_LINES)
    ensures IsBoundary(log, LineEnd(log.stream, s)) && LineEnd(log.stream, s) <= to
  {
    NextBoundary(log, emitTail, s);
    ResyncMoves(log, verdicts, s);
    ResyncOver(log, verdicts, s, MAX_RESYNC_LINES);
  }

  /** Reading from s on gives the record the fragment at s makes, if any, and those of the later lines. */
  lemma FragmentRecords(log: Log, emitTail: bool, s: nat)
    requires IsJson(log, emitTail) && s < |log.stream|
    ensures RecordsFrom(log, s) == RecordsFrom(log, LineEnd(log.stream, s)) <==> Parsed(log, s, MoveAt(log, s)) == []
  {
    JsonMove(log, emitTail, s);
    var here, later := Parsed(log, s, MoveAt(log, s)), RecordsFrom(log, LineEnd(log.stream, s));
    assert RecordsFrom(log, s) == here + later;
    assert |here + later| == |here| + |later|;
    assert here == [] ==> here + later == later;
  }
}
