/**
 * Resynchronisation: how a scan that starts in the middle of a file finds a record, and when it
 * then reads exactly the records a scan of the whole file reads from there on.
 */
module Seeking {
  import opened Bytes
  import opened Framing
  import opened Stream
  import opened Records

  const MAX_RESYNC_LINES := 1024
  const RESYNC_PEEK_BYTES := 8192

  /** What the first line of a sample tells about the position. */
  datatype Verdict = Blank | Starts | Interior

  /** The first line with content. */
  function FirstLine(sample: bytes): Option<bytes>
    decreases |sample|
  {
    var i := IndexFrom(sample, LF, 0);
    var line := TrimCR(if i < 0 then sample else sample[..i]);
    if line != [] then Some(line)
    else if i < 0 then None
    else FirstLine(sample[i + 1..])
  }

  method FirstNonEmptyLine(sample: bytes) returns (line: Option<bytes>)
    ensures line == FirstLine(sample)
  {
    var rest := sample;
    while |rest| > 0
      invariant FirstLine(rest) == FirstLine(sample)
      decreases |rest|
    {
      var i := IndexFrom(rest, LF, 0);
      if i < 0 {
        var last := TrimCR(rest);
        return if last != [] then Some(last) else None;
      }
      var first := TrimCR(rest[..i]);
      if first != [] {
        return Some(first);
      }
      rest := rest[i + 1..];
    }
    line := None;
  }

  function Judge(starts: bytes -> bool, sample: bytes): Verdict {
    match FirstLine(sample)
    case None => Blank
    case Some(line) => if starts(line) then Starts else Interior
  }

  /** How many bytes a resynchronisation is sure to see at p. */
  function Seen(log: Log, p: nat): nat
    requires p <= |log.stream|
  {
    Min(Min(RESYNC_PEEK_BYTES, log.max), |log.stream| - p)
  }

  /** The n bytes at p. */
  ghost function Sample(log: Log, p: nat, n: nat): bytes
    requires p + n <= |log.stream|
  {
    log.stream[p..p + n]
  }

  /** All bytes from p on. */
  ghost function Rest(log: Log, p: nat): bytes
    requires p <= |log.stream|
  {
    log.stream[p..]
  }

  /** The verdicts are those on the whole rest of the file. */
  ghost predicate AreVerdicts(verdicts: seq<Verdict>, log: Log, starts: bytes -> bool) {
    && |verdicts| == |log.stream| + 1
    && forall p {:trigger Rest(log, p)} :: 0 <= p <= |log.stream| ==> verdicts[p] == Judge(starts, Rest(log, p))
  }

  /**
   * What is seen at p does not depend on how much more than the minimum happens to be buffered.
   * TextLines.ShownIsClear and JsonSeeking.ByteIsClear say when this is so.
   */
  ghost predicate Clear(log: Log, starts: bytes -> bool, p: nat)
    requires p <= |log.stream|
  {
    forall n {:trigger Sample(log, p, n)} ::
      Seen(log, p) <= n <= |log.stream| - p ==> Judge(starts, Sample(log, p, n)) == Judge(starts, Rest(log, p))
  }

  /** Judges a sample of the file taken at p. */
  method Examine(starts: bytes -> bool, sample: bytes, ghost log: Log, ghost verdicts: seq<Verdict>, ghost p: nat)
    returns (v: Verdict)
    requires p + |sample| <= |log.stream| && sample == log.stream[p..p + |sample|]
    requires Seen(log, p) <= |sample|
    ensures AreVerdicts(verdicts, log, starts) && Clear(log, starts, p) ==> v == verdicts[p]
  {
    var line := FirstNonEmptyLine(sample);
    v := match line
      case None => Blank
      case Some(first) => if starts(first) then Starts else Interior;
    assert v == Judge(starts, Sample(log, p, |sample|));
    assert Rest(log, p) == log.stream[p..];
  }

  /** Where the resynchronisation stops, given the verdicts, when it may pass over that many lines. */
  ghost function Resync(log: Log, verdicts: seq<Verdict>, p: nat, lines: nat): (q: nat)
    requires p <= |log.stream| && |verdicts| == |log.stream| + 1
    ensures p <= q <= |log.stream|
    decreases lines
  {
    if lines == 0 || verdicts[p] != Interior then p
    else
      var nl := IndexFrom(log.stream, LF, p);
      if nl < 0 then |log.stream| else Resync(log, verdicts, nl + 1, lines - 1)
  }

  /** Every position that the resynchronisation from p looks at is clear. */
  ghost predicate ClearAlong(log: Log, starts: bytes -> bool, verdicts: seq<Verdict>, p: nat, lines: nat)
    requires p <= |log.stream| && |verdicts| == |log.stream| + 1
    decreases lines
  {
    lines == 0 ||
      (Clear(log, starts, p) &&
       (verdicts[p] == Interior && IndexFrom(log.stream, LF, p) >= 0 ==>
          ClearAlong(log, starts, verdicts, IndexFrom(log.stream, LF, p) + 1, lines - 1)))
  }

  /** The same one probe at a time. */
  lemma ClearStep(log: Log, starts: bytes -> bool, verdicts: seq<Verdict>, p: nat, lines: nat)
    requires p <= |log.stream| && |verdicts| == |log.stream| + 1 && lines > 0
    requires ClearAlong(log, starts, verdicts, p, lines)
    ensures Clear(log, starts, p)
    ensures After(log, verdicts, p).GoOn? ==> ClearAlong(log, starts, verdicts, After(log, verdicts, p).at, lines - 1)
  {
  }

  /** The i-th position of the way is clear, and the probe there goes on to the next one. */
  ghost predicate GoesOnAt(way: seq<nat>, log: Log, starts: bytes -> bool, verdicts: seq<Verdict>, i: nat)
    requires i + 1 < |way| && |verdicts| == |log.stream| + 1
  {
    way[i] <= |log.stream| && Clear(log, starts, way[i]) && After(log, verdicts, way[i]) == GoOn(way[i + 1])
  }

  /** The positions that a resynchronisation looks at, when it may pass over most lines, and the goal where it lands. */
  ghost predicate IsWay(way: seq<nat>, log: Log, starts: bytes -> bool, verdicts: seq<Verdict>, most: nat, goal: nat) {
    && 0 < |way| <= most + 1 && AreVerdicts(verdicts, log, starts)
    && (forall i | 0 <= i < |way| - 1 :: GoesOnAt(way, log, starts, verdicts, i))
    && EndsAt(way[|way| - 1], log, starts, verdicts, |way| == most + 1, goal)
  }

  ghost predicate EndsAt(last: nat, log: Log, starts: bytes -> bool, verdicts: seq<Verdict>, none: bool, goal: nat)
    requires |verdicts| == |log.stream| + 1
  {
    if none then last == goal
    else last <= |log.stream| && Clear(log, starts, last) && After(log, verdicts, last) == Stop(goal)
  }

  /** A clear resynchronisation has its way. */
  lemma {:induction false} WayOf(log: Log, starts: bytes -> bool, verdicts: seq<Verdict>, p: nat, most: nat) returns (way: seq<nat>)
    requires AreVerdicts(verdicts, log, starts) && p <= |log.stream| && ClearAlong(log, starts, verdicts, p, most)
    ensures IsWay(way, log, starts, verdicts, most, Resync(log, verdicts, p, most)) && way[0] == p
    decreases most
  {
    way := [p];
    if most > 0 {
      ClearStep(log, starts, verdicts, p, most);
      ResyncStep(log, verdicts, p, most);
      var probe := After(log, verdicts, p);
      if probe.GoOn? {
        var rest := WayOf(log, starts, verdicts, probe.at, most - 1);
        way := [p] + rest;
        WayInFront(log, starts, verdicts, p, rest, most - 1, Resync(log, verdicts, probe.at, most - 1));
      }
    }
  }

  lemma WayInFront(log: Log, starts: bytes -> bool, verdicts: seq<Verdict>, p: nat, rest: seq<nat>, most: nat, goal: nat)
    requires IsWay(rest, log, starts, verdicts, most, goal)
    requires p <= |log.stream| && Clear(log, starts, p) && After(log, verdicts, p) == GoOn(rest[0])
    ensures IsWay([p] + rest, log, starts, verdicts, most + 1, goal)
  {
    var way := [p] + rest;
    forall i | 0 <= i < |way| - 1
      ensures GoesOnAt(way, log, starts, verdicts, i)
    {
      if i > 0 {
        assert GoesOnAt(rest, log, starts, verdicts, i - 1);
      }
    }
  }

  /** One more line may be passed over when there is one to pass over. */
  lemma ResyncStep(log: Log, verdicts: seq<Verdict>, p: nat, lines: nat)
    requires p <= |log.stream| && |verdicts| == |log.stream| + 1 && lines > 0
    ensures Resync(log, verdicts, p, lines) == After(log, verdicts, p).Landing(log, verdicts, lines - 1)
  {
  }

  /** What one probe of a resynchronisation does: stop at a position, or go on from it. */
  datatype Probe = Stop(at: nat) | GoOn(at: nat) {
    ghost function Landing(log: Log, verdicts: seq<Verdict>, lines: nat): nat
      requires at <= |log.stream| && |verdicts| == |log.stream| + 1
    {
      if Stop? then at else Resync(log, verdicts, at, lines)
    }
  }

  ghost function After(log: Log, verdicts: seq<Verdict>, p: nat): (probe: Probe)
    requires p <= |log.stream| && |verdicts| == |log.stream| + 1
    ensures p <= probe.at <= |log.stream|
  {
    if verdicts[p] != Interior then Stop(p)
    else
      var nl := IndexFrom(log.stream, LF, p);
      if nl < 0 then Stop(|log.stream|) else GoOn(nl + 1)
  }

  // ----- Joining the scan of the whole file -----

  /** The first position at or after s where a scan from p takes a decision. */
  ghost function Join(log: Log, p: nat, s: nat): (b: nat)
    requires log.Valid() && p <= |log.stream| && s <= |log.stream|
    ensures p <= b <= |log.stream| && s <= b
    decreases |log.stream| - p
  {
    if p >= s then p else Join(log, MoveAt(log, p).next, s)
  }

  /** Position b is one where a scan of the whole file takes a decision. */
  ghost predicate IsBoundary(log: Log, b: nat)
    requires log.Valid()
  {
    b <= |log.stream| && Join(log, Head(log.stream), b) == b
  }

  /** The records that start at or after s. */
  ghost function Since(rs: seq<Rec>, s: nat): seq<Rec> {
    if rs == [] then [] else (if rs[0].off >= s then [rs[0]] else []) + Since(rs[1..], s)
  }

  /** The leading records that start before end; all of them when there is no end. */
  ghost function Upto(rs: seq<Rec>, end: int): seq<Rec> {
    if rs == [] || (end >= 0 && rs[0].off >= end) then [] else [rs[0]] + Upto(rs[1..], end)
  }

  lemma {:induction false} UptoEnd(rs: seq<Rec>)
    ensures Upto(rs, -1) == rs
  {
    if rs != [] {
      UptoEnd(rs[1..]);
    }
  }

  lemma UptoNext(out: seq<Rec>, r: Rec, rest: seq<Rec>, end: int)
    requires end < 0 || r.off < end
    ensures out + Upto([r] + rest, end) == (out + [r]) + Upto(rest, end)
  {
    assert ([r] + rest)[1..] == rest;
  }

  lemma SinceStep(rs: seq<Rec>, s: nat)
    requires rs != []
    ensures Since(rs, s) == if rs[0].off >= s then [rs[0]] + Since(rs[1..], s) else Since(rs[1..], s)
  {
    assert [] + Since(rs[1..], s) == Since(rs[1..], s);
  }

  lemma SinceCons(r: Rec, rest: seq<Rec>, s: nat)
    ensures Since([r] + rest, s) == (if r.off >= s then [r] else []) + Since(rest, s)
  {
    assert ([r] + rest)[1..] == rest;
  }

  lemma {:induction false} SinceConcat(a: seq<Rec>, b: seq<Rec>, s: nat)
    ensures Since(a + b, s) == Since(a, s) + Since(b, s)
  {
    if a == [] {
      assert a + b == b && [] + Since(b, s) == Since(b, s);
    } else {
      var r, rest := a[0], a[1..];
      SinceConcat(rest, b, s);
      assert a == [r] + rest && a + b == [r] + (rest + b);
      SinceCons(r, rest, s);
      SinceCons(r, rest + b, s);
      Regroup(if r.off >= s then [r] else [], Since(rest, s), Since(b, s));
    }
  }

  lemma Regroup(a: seq<Rec>, b: seq<Rec>, c: seq<Rec>)
    ensures a + (b + c) == a + b + c
  {
  }

  lemma {:induction false} SinceAll(log: Log, p: nat, s: nat)
    requires log.Valid() && s <= p <= |log.stream|
    ensures Since(RecordsFrom(log, p), s) == RecordsFrom(log, p)
    decreases |log.stream| - p
  {
    if p < |log.stream| {
      var m := MoveAt(log, p);
      SinceAll(log, m.next, s);
      SinceConcat(Parsed(log, p, m), RecordsFrom(log, m.next), s);
    }
  }

  /** The records from s on are the records a scan reads once it has joined at or after s. */
  lemma {:induction false} JoinRecords(log: Log, p: nat, s: nat)
    requires log.Valid() && p <= |log.stream| && s <= |log.stream|
    ensures Since(RecordsFrom(log, p), s) == RecordsFrom(log, Join(log, p, s))
    decreases |log.stream| - p
  {
    if p >= s {
      SinceAll(log, p, s);
    } else {
      var m := MoveAt(log, p);
      JoinRecords(log, m.next, s);
      SinceConcat(Parsed(log, p, m), RecordsFrom(log, m.next), s);
      assert [] + RecordsFrom(log, Join(log, p, s)) == RecordsFrom(log, Join(log, p, s));
    }
  }

  lemma {:induction false} JoinMonotone(log: Log, p: nat, s: nat, t: nat)
    requires log.Valid() && p <= |log.stream| && s <= |log.stream| && s <= t <= Join(log, p, s)
    ensures Join(log, p, t) == Join(log, p, s)
    decreases |log.stream| - p
  {
    if p < s {
      JoinMonotone(log, MoveAt(log, p).next, s, t);
    }
  }

  lemma {:induction false} JoinAtLine(log: Log, p: nat, s: nat)
    requires log.Valid() && p <= |log.stream| && s <= |log.stream|
    ensures var b := Join(log, p, s); b == p || b == |log.stream| || log.stream[b - 1] == LF
    decreases |log.stream| - p
  {
    if p < s {
      JoinAtLine(log, MoveAt(log, p).next, s);
    }
  }

  lemma {:induction false} JoinLeast(log: Log, p: nat, s: nat, t: nat)
    requires log.Valid() && p <= |log.stream| && s <= t <= |log.stream| && Join(log, p, t) == t
    ensures p < s ==> Join(log, p, s) <= t
    decreases |log.stream| - p
  {
    if p < s {
      JoinLeast(log, MoveAt(log, p).next, s, t);
    }
  }

  /** Of two boundaries, a scan from the earlier comes to the later. */
  lemma {:induction false} ChainJoins(log: Log, head: nat, p: nat, q: nat)
    requires log.Valid() && head <= p <= q <= |log.stream| && Join(log, head, p) == p && Join(log, head, q) == q
    ensures Join(log, p, q) == q
    decreases |log.stream| - head
  {
    if head < p {
      ChainJoins(log, MoveAt(log, head).next, p, q);
    }
  }

  lemma {:induction false} NoneFewer(log: Log, p: nat, q: nat)
    requires log.Valid() && p <= q <= |log.stream| && Join(log, p, q) == q
    ensures |RecordsFrom(log, q)| <= |RecordsFrom(log, p)|
    decreases |log.stream| - p
  {
    if p < q {
      NoneFewer(log, MoveAt(log, p).next, q);
    }
  }

  /** A record at b is read from p on, and not from q on. */
  lemma OneFewer(log: Log, p: nat, b: nat, q: nat)
    requires log.Valid() && p <= b < q <= |log.stream| && Join(log, p, b) == b && Join(log, b, q) == q
    requires Parsed(log, b, MoveAt(log, b)) != []
    ensures RecordsFrom(log, p) != RecordsFrom(log, q)
  {
    NoneFewer(log, p, b);
    NoneFewer(log, MoveAt(log, b).next, q);
    assert |RecordsFrom(log, b)| > |RecordsFrom(log, MoveAt(log, b).next)|;
  }

  lemma {:induction false} NoneBetween(log: Log, p: nat, q: nat)
    requires log.Valid() && p <= q <= |log.stream| && Join(log, p, q) == q
    requires forall b | p <= b < q && Join(log, p, b) == b :: Parsed(log, b, MoveAt(log, b)) == []
    ensures RecordsFrom(log, p) == RecordsFrom(log, q)
    decreases |log.stream| - p
  {
    if p < q {
      var next := MoveAt(log, p).next;
      assert Join(log, p, p) == p;
      forall b | next <= b < q && Join(log, next, b) == b
        ensures Parsed(log, b, MoveAt(log, b)) == []
      {
        assert Join(log, p, b) == b;
      }
      NoneBetween(log, next, q);
      assert [] + RecordsFrom(log, next) == RecordsFrom(log, next);
    }
  }

  lemma {:induction false} ChainOn(log: Log, head: nat, p: nat, b: nat)
    requires log.Valid() && head <= p <= b <= |log.stream| && Join(log, head, p) == p && Join(log, p, b) == b
    ensures Join(log, head, b) == b
    decreases |log.stream| - head
  {
    if head < p {
      ChainOn(log, MoveAt(log, head).next, p, b);
    }
  }

  // ----- What a seek reads -----

  /** The first position at or after q, on the scan from q, that a scan of the whole file comes to. */
  ghost function Meet(log: Log, q: nat): (m: nat)
    requires log.Valid() && Head(log.stream) <= q <= |log.stream|
    ensures q <= m <= |log.stream| && IsBoundary(log, m)
    decreases |log.stream| - q
  {
    if IsBoundary(log, q) then q else Meet(log, MoveAt(log, q).next)
  }

  /** The records that the scan from q reads before that. */
  ghost function Strays(log: Log, q: nat): seq<Rec>
    requires log.Valid() && Head(log.stream) <= q <= |log.stream|
    decreases |log.stream| - q
  {
    if IsBoundary(log, q) then [] else Parsed(log, q, MoveAt(log, q)) + Strays(log, MoveAt(log, q).next)
  }

  /** A record of the file starts between s and m. */
  ghost predicate Skips(log: Log, s: nat, m: nat)
    requires log.Valid() && m <= |log.stream|
  {
    exists b :: s <= b < m && IsBoundary(log, b) && Parsed(log, b, MoveAt(log, b)) != []
  }

  lemma {:induction false} StraysFirst(log: Log, q: nat)
    requires log.Valid() && Head(log.stream) <= q <= |log.stream|
    ensures RecordsFrom(log, q) == Strays(log, q) + RecordsFrom(log, Meet(log, q))
    ensures Strays(log, q) != [] ==> !IsBoundary(log, Strays(log, q)[0].off)
    decreases |log.stream| - q
  {
    if IsBoundary(log, q) {
      assert [] + RecordsFrom(log, q) == RecordsFrom(log, q);
    } else {
      StraysFirst(log, MoveAt(log, q).next);
    }
  }

  /** Every record of the file starts at a boundary. */
  lemma RecordsAreBound(log: Log, b: nat, i: nat)
    requires log.Valid() && Head(log.stream) <= b <= |log.stream| && IsBoundary(log, b) && i < |RecordsFrom(log, b)|
    ensures IsBoundary(log, RecordsFrom(log, b)[i].off)
  {
    RecordIsBoundary(log, b, i);
    ChainOn(log, Head(log.stream), b, RecordsFrom(log, b)[i].off);
  }

  /** From one boundary to a later one nothing is read exactly when no record starts between them. */
  lemma SkipsNothing(log: Log, s: nat, b: nat, m: nat)
    requires log.Valid() && Head(log.stream) <= s <= b <= m <= |log.stream| && IsBoundary(log, m)
    requires b == Join(log, Head(log.stream), s) && IsBoundary(log, b)
    ensures RecordsFrom(log, b) == RecordsFrom(log, m) <==> !Skips(log, s, m)
  {
    var head := Head(log.stream);
    ChainJoins(log, head, b, m);
    if Skips(log, s, m) {
      var c :| s <= c < m && IsBoundary(log, c) && Parsed(log, c, MoveAt(log, c)) != [];
      JoinLeast(log, head, s, c);
      ChainJoins(log, head, b, c);
      ChainJoins(log, head, c, m);
      OneFewer(log, b, c, m);
    } else {
      forall c | b <= c < m && Join(log, b, c) == c
        ensures Parsed(log, c, MoveAt(log, c)) == []
      {
        ChainOn(log, head, b, c);
      }
      NoneBetween(log, b, m);
    }
  }

  /**
   * The seek to s lands well: what it reads before it meets the scan of the whole file does not
   * parse, and no record starts between s and there.
   */
  ghost predicate LandsWell(log: Log, verdicts: seq<Verdict>, s: nat)
    requires log.Valid() && |verdicts| == |log.stream| + 1 && Head(log.stream) <= s <= |log.stream|
  {
    var to := Resync(log, verdicts, s, MAX_RESYNC_LINES);
    Strays(log, to) == [] && !Skips(log, s, Meet(log, to))
  }

  /** Whatever the format: a seek to s reads exactly the records from s on if and only if it lands well. */
  lemma SeekExact(log: Log, verdicts: seq<Verdict>, s: nat)
    requires log.Valid() && |verdicts| == |log.stream| + 1 && Head(log.stream) <= s <= |log.stream|
    ensures RecordsFrom(log, Resync(log, verdicts, s, MAX_RESYNC_LINES)) == Since(Serial(log), s) <==> LandsWell(log, verdicts, s)
  {
    LandingExact(log, s, Resync(log, verdicts, s, MAX_RESYNC_LINES));
  }

  lemma LandingExact(log: Log, s: nat, to: nat)
    requires log.Valid() && Head(log.stream) <= s <= to <= |log.stream|
    ensures RecordsFrom(log, to) == Since(Serial(log), s) <==> Strays(log, to) == [] && !Skips(log, s, Meet(log, to))
  {
    var head := Head(log.stream);
    var b, m := Join(log, head, s), Meet(log, to);
    JoinRecords(log, head, s);
    JoinMonotone(log, head, s, b);
    JoinLeast(log, head, s, m);
    StraysFirst(log, to);
    SkipsNothing(log, s, b, m);
    if Strays(log, to) == [] {
      assert [] + RecordsFrom(log, m) == RecordsFrom(log, m);
    } else if RecordsFrom(log, to) == RecordsFrom(log, b) {
      RecordsAreBound(log, b, 0);
    }
  }

  /** A record whose first line fails the start test is lost by a seek to its own offset. */
  lemma PassesItself(log: Log, verdicts: seq<Verdict>, b: nat)
    requires log.Valid() && |verdicts| == |log.stream| + 1 && Head(log.stream) <= b < |log.stream|
    requires IsBoundary(log, b) && Parsed(log, b, MoveAt(log, b)) != [] && verdicts[b] == Interior
    ensures RecordsFrom(log, Resync(log, verdicts, b, MAX_RESYNC_LINES)) != Since(Serial(log), b)
  {
    ResyncStep(log, verdicts, b, MAX_RESYNC_LINES);
    var to := Resync(log, verdicts, b, MAX_RESYNC_LINES);
    assert b < to <= Meet(log, to);
    SeekExact(log, verdicts, b);
  }

  /** How many lines the stretch from q to b is made of. */
  ghost function Lines(stream: bytes, q: nat, b: nat): nat
    requires q <= |stream|
    decreases |stream| - q
  {
    if q >= b then 0
    else
      var nl := IndexFrom(stream, LF, q);
      if nl < 0 then 1 else 1 + Lines(stream, nl + 1, b)
  }

  /**
   * The file is marked: a line that starts a record is told from a line inside one. This is what
   * the test of a format is meant to do.
   */
  ghost predicate Marked(log: Log, verdicts: seq<Verdict>)
    requires log.Valid() && |verdicts| == |log.stream| + 1
  {
    && (forall b | Head(log.stream) <= b < |log.stream| && IsBoundary(log, b) :: verdicts[b] != Interior)
    && (forall q | Head(log.stream) < q < |log.stream| && log.stream[q - 1] == LF && !IsBoundary(log, q) ::
          verdicts[q] == Interior)
  }

  /** From a line start, resynchronisation finds the first boundary. */
  lemma {:induction false} ResyncJoins(log: Log, verdicts: seq<Verdict>, q: nat, lines: nat)
    requires log.Valid() && |verdicts| == |log.stream| + 1 && Marked(log, verdicts)
    requires Head(log.stream) <= q <= |log.stream|
    requires IsBoundary(log, q) || log.stream[q - 1] == LF || verdicts[q] == Interior
    requires Lines(log.stream, q, Join(log, Head(log.stream), q)) <= lines
    ensures Resync(log, verdicts, q, lines) == Join(log, Head(log.stream), q)
    decreases lines
  {
    var head, b := Head(log.stream), Join(log, Head(log.stream), q);
    if q < |log.stream| && !IsBoundary(log, q) {
      JoinAtLine(log, head, q);
      var nl := IndexFrom(log.stream, LF, q);
      if nl >= 0 {
        assert nl + 1 <= b;
        JoinMonotone(log, head, q, nl + 1);
        ResyncJoins(log, verdicts, nl + 1, lines - 1);
      }
    }
  }

  /**
   * Seeking to s reads exactly the records that start at or after s: when s is a boundary, when
   * the fragment at s fails the start test, and when it passes it but frames to the end of its
   * record and does not parse.
   */
  lemma SeekReads(log: Log, verdicts: seq<Verdict>, s: nat)
    requires log.Valid() && |verdicts| == |log.stream| + 1 && Marked(log, verdicts)
    requires Head(log.stream) <= s <= |log.stream| && LeadsOn(log, verdicts, s)
    ensures RecordsFrom(log, Resync(log, verdicts, s, MAX_RESYNC_LINES)) == Since(Serial(log), s)
  {
    JoinRecords(log, Head(log.stream), s);
    if IsBoundary(log, s) || verdicts[s] == Interior {
      ResyncJoins(log, verdicts, s, MAX_RESYNC_LINES);
    } else {
      var b := MoveAt(log, s).next;
      assert RecordsFrom(log, s) == [] + RecordsFrom(log, b) == RecordsFrom(log, b);
    }
  }

  /** Position s of a marked file is one from which resynchronisation finds the next record. */
  ghost predicate LeadsOn(log: Log, verdicts: seq<Verdict>, s: nat)
    requires log.Valid() && |verdicts| == |log.stream| + 1 && s <= |log.stream|
  {
    && Lines(log.stream, s, Join(log, Head(log.stream), s)) <= MAX_RESYNC_LINES
    && (IsBoundary(log, s) || verdicts[s] == Interior ||
        (s < |log.stream| && Parsed(log, s, MoveAt(log, s)) == [] &&
         MoveAt(log, s).next == Join(log, Head(log.stream), s)))
  }

  /** Reading from s on delivers the records of the file from there on. */
  ghost predicate CleanCut(log: Log, verdicts: seq<Verdict>, s: nat)
    requires log.Valid() && |verdicts| == |log.stream| + 1
  {
    s == 0 || (s <= |log.stream| && RecordsFrom(log, Resync(log, verdicts, s, MAX_RESYNC_LINES)) == Since(Serial(log), s))
  }

  /** What a shard delivers: the records that start before end, from where start leads to. */
  ghost function ShardRecords(log: Log, verdicts: seq<Verdict>, start: nat, end: int): seq<Rec>
    requires log.Valid() && |verdicts| == |log.stream| + 1 && start <= |log.stream|
  {
    Upto(if start == 0 then Serial(log) else RecordsFrom(log, Resync(log, verdicts, start, MAX_RESYNC_LINES)), end)
  }

  /** Seeking to the offset of a record resumes at that very record. */
  lemma SeekResumes(log: Log, verdicts: seq<Verdict>, i: nat)
    requires log.Valid() && |verdicts| == |log.stream| + 1 && Marked(log, verdicts)
    requires i < |Serial(log)|
    ensures var s := Serial(log)[i].off;
      && s <= |log.stream|
      && Resync(log, verdicts, s, MAX_RESYNC_LINES) == s
      && RecordsFrom(log, s) == Serial(log)[i..]
  {
    RecordIsBoundary(log, Head(log.stream), i);
  }

  lemma {:induction false} RecordIsBoundary(log: Log, p: nat, i: nat)
    requires log.Valid() && p <= |log.stream| && i < |RecordsFrom(log, p)|
    ensures var s := RecordsFrom(log, p)[i].off;
      && p <= s < |log.stream| && Join(log, p, s) == s
      && RecordsFrom(log, s) == RecordsFrom(log, p)[i..]
    decreases |log.stream| - p
  {
    var m := MoveAt(log, p);
    var here := |Parsed(log, p, m)|;
    if i < here {
      assert RecordsFrom(log, p)[0..] == RecordsFrom(log, p);
    } else {
      RecordIsBoundary(log, m.next, i - here);
      assert RecordsFrom(log, p)[i..] == RecordsFrom(log, m.next)[i - here..];
    }
  }
}
