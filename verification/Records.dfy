/**
 * The records of a log, as one uninterrupted scan of the whole file reads them, and where a scan
 * that starts in the middle joins it.
 */
module Records {
  import opened Bytes
  import opened Framing
  import opened Stream

  /** A record, where it starts, and whether the file ends inside it. */
  datatype Rec = Rec(off: nat, raw: bytes, truncated: bool)

  /** A log file, the framing decision at every position, and which framed tokens parse. */
  datatype Log = Log(stream: bytes, cuts: seq<Cut>, max: nat, accepts: bytes -> bool) {
    /** A decision stays inside the file and ends past a newline; only a long rest is undecided. */
    ghost predicate Valid() {
      && |cuts| == |stream| + 1 && max > 0
      && forall p | 0 <= p < |stream| ::
           var c := cuts[p];
           && c.advance <= |stream| - p && (c.token.Some? ==> c.advance > 0)
           && (|stream| - p < max ==> c.advance > 0)
           && (0 < c.advance < |stream| - p ==> stream[p + c.advance - 1] == LF)
    }
  }

  ghost function LogOf(f: Framer, stream: bytes, max: nat, accepts: bytes -> bool): (log: Log)
    requires max > 0
    ensures log.Valid() && AreCuts(log.cuts, f, stream, max)
  {
    var log := Log(stream, Cuts(f, stream, max), max, accepts);
    assert log.Valid() by {
      forall p | 0 <= p < |stream|
        ensures var c := log.cuts[p];
          && c.advance <= |stream| - p && (c.token.Some? ==> c.advance > 0)
          && (|stream| - p < max ==> c.advance > 0)
          && (0 < c.advance < |stream| - p ==> stream[p + c.advance - 1] == LF)
      {
        CutBounds(f, stream, p, max);
      }
    }
    log
  }

  lemma CutBounds(f: Framer, stream: bytes, p: nat, max: nat)
    requires p < |stream| && max > 0
    ensures var c := CutAt(f, stream, p, max);
      && c.advance <= |stream| - p && (c.token.Some? ==> c.advance > 0)
      && (|stream| - p < max ==> c.advance > 0)
      && (0 < c.advance < |stream| - p ==> stream[p + c.advance - 1] == LF)
  {
    if |stream| - p < max {
      SplitProgress(f, stream[p..]);
      SplitEndsLine(f, stream[p..]);
    } else if !CutAt(f, stream, p, max).Undecided() {
      SplitStable(f, stream[p..p + max], stream[p..p + max], false);
    }
  }

  datatype Move = Move(next: nat, token: Option<bytes>)

  /** One move of the scan: over a token, a blank line or an over-long record. */
  ghost function MoveAt(log: Log, p: nat): (m: Move)
    requires log.Valid() && p < |log.stream|
    ensures p < m.next <= |log.stream|
    ensures m.next == |log.stream| || log.stream[m.next - 1] == LF
  {
    var c := log.cuts[p];
    if c.advance > 0 then Move(p + c.advance, c.token)
    else
      var nl := IndexFrom(log.stream, LF, p + log.max);
      Move(if nl < 0 then |log.stream| else nl + 1, None)
  }

  /** The records from p on. */
  ghost function RecordsFrom(log: Log, p: nat): seq<Rec>
    requires log.Valid() && p <= |log.stream|
    decreases |log.stream| - p
  {
    if p == |log.stream| then []
    else Parsed(log, p, MoveAt(log, p)) + RecordsFrom(log, MoveAt(log, p).next)
  }

  ghost function Parsed(log: Log, off: nat, m: Move): seq<Rec> {
    if m.token.Some? && log.accepts(m.token.value)
    then [Rec(off, m.token.value, Unterminated(log.stream, m.next))] else []
  }

  /** The records from every position on. */
  ghost function Table(log: Log): (table: seq<seq<Rec>>)
    requires log.Valid()
    ensures IsTable(table, log)
  {
    seq(|log.stream| + 1, p requires 0 <= p <= |log.stream| => RecordsFrom(log, p))
  }

  ghost predicate IsTable(table: seq<seq<Rec>>, log: Log)
    requires log.Valid()
  {
    && |table| == |log.stream| + 1
    && forall p {:trigger RecordsFrom(log, p)} :: 0 <= p <= |log.stream| ==> table[p] == RecordsFrom(log, p)
  }

  /** How many tokens from p on do not parse. */
  ghost function FlawsFrom(log: Log, p: nat): nat
    requires log.Valid() && p <= |log.stream|
    decreases |log.stream| - p
  {
    if p == |log.stream| then 0
    else
      var m := MoveAt(log, p);
      (if m.token.Some? && !log.accepts(m.token.value) then 1 else 0) + FlawsFrom(log, m.next)
  }

  /** The numbers of flaws from every position on. */
  ghost function Flaws(log: Log): (flaws: seq<nat>)
    requires log.Valid()
    ensures AreFlaws(flaws, log)
  {
    seq(|log.stream| + 1, p requires 0 <= p <= |log.stream| => FlawsFrom(log, p))
  }

  ghost predicate AreFlaws(flaws: seq<nat>, log: Log)
    requires log.Valid()
  {
    && |flaws| == |log.stream| + 1
    && forall p {:trigger FlawsFrom(log, p)} :: 0 <= p <= |log.stream| ==> flaws[p] == FlawsFrom(log, p)
  }

  /** What a scan of the whole file reads. */
  ghost function Serial(log: Log): seq<Rec>
    requires log.Valid()
  {
    RecordsFrom(log, Head(log.stream))
  }

  /** A move that emits nothing changes neither what is read next nor the records. */
  lemma SilentMove(log: Log, p: nat, dropped: nat)
    requires log.Valid() && p < |log.stream| && MoveAt(log, p).token.None?
    ensures RecordsFrom(log, p) == RecordsFrom(log, MoveAt(log, p).next)
    ensures NextToken(log.cuts, log.stream, p, log.max, dropped) ==
      NextToken(log.cuts, log.stream, MoveAt(log, p).next, log.max,
        if log.cuts[p].advance > 0 then dropped else dropped + 1)
  {
    assert [] + RecordsFrom(log, MoveAt(log, p).next) == RecordsFrom(log, MoveAt(log, p).next);
  }

  /** The parser's next token is what the moves from p lead to. */
  lemma TokenIsNextMove(log: Log, table: seq<seq<Rec>>, p: nat, dropped: nat)
    requires log.Valid() && IsTable(table, log) && p <= |log.stream|
    ensures var found := NextToken(log.cuts, log.stream, p, log.max, dropped);
      if found.Token?
      then
        && p <= found.off < found.next <= |log.stream|
        && table[p] == Parsed(log, found.off, Move(found.next, Some(found.token))) + table[found.next]
      else table[p] == []
  {
    NextTokenRecords(log, p, dropped);
  }

  lemma {:induction false} NextTokenRecords(log: Log, p: nat, dropped: nat)
    requires log.Valid() && p <= |log.stream|
    ensures var found := NextToken(log.cuts, log.stream, p, log.max, dropped);
      if found.Token?
      then
        && p <= found.off < found.next <= |log.stream|
        && RecordsFrom(log, p) == Parsed(log, found.off, Move(found.next, Some(found.token))) + RecordsFrom(log, found.next)
      else RecordsFrom(log, p) == []
    decreases |log.stream| - p
  {
    if p < |log.stream| && MoveAt(log, p).token.None? {
      SilentMove(log, p, dropped);
      NextTokenRecords(log, MoveAt(log, p).next, if log.cuts[p].advance > 0 then dropped else dropped + 1);
    }
  }

  /** The parser's next token takes one flaw away, or none. */
  lemma TokenIsNextFlaw(log: Log, flaws: seq<nat>, p: nat, dropped: nat)
    requires log.Valid() && AreFlaws(flaws, log) && p <= |log.stream|
    ensures var found := NextToken(log.cuts, log.stream, p, log.max, dropped);
      if found.Token?
      then found.next <= |log.stream| && flaws[p] == (if log.accepts(found.token) then 0 else 1) + flaws[found.next]
      else flaws[p] == 0
  {
    NextTokenFlaws(log, p, dropped);
  }

  lemma {:induction false} NextTokenFlaws(log: Log, p: nat, dropped: nat)
    requires log.Valid() && p <= |log.stream|
    ensures var found := NextToken(log.cuts, log.stream, p, log.max, dropped);
      if found.Token?
      then found.next <= |log.stream| && FlawsFrom(log, p) == (if log.accepts(found.token) then 0 else 1) + FlawsFrom(log, found.next)
      else FlawsFrom(log, p) == 0
    decreases |log.stream| - p
  {
    if p < |log.stream| && MoveAt(log, p).token.None? {
      SilentMove(log, p, dropped);
      NextTokenFlaws(log, MoveAt(log, p).next, if log.cuts[p].advance > 0 then dropped else dropped + 1);
    }
  }
}
