/** The parser: records out of the buffer, repositioning, and the scan of one shard of a file. */
module Parsing {
  import opened Bytes
  import opened Framing
  import opened Stream
  import opened ReadBuffer
  import opened Records
  import opened Seeking

  /** What an offset is counted from. */
  datatype Whence = FromStart | FromCurrent | FromEnd | Unknown

  /** How a seek ended. */
  datatype Sought = Landed(at: nat) | BadWhence | NegativeOffset

  /** How the parsing of one token went. */
  datatype Answer = Parsed | Malformed | End

  class Parser {
    const buf: Buf
    const framer: Framer
    const accepts: bytes -> bool
    const starts: bytes -> bool
    var rec: Rec
    var records: nat
    var malformed: nat
    var err: Option<ReadError>
    var done: bool
    // how far past the end of the file the last seek went
    var beyond: nat
    // the file being read, and from every position on its records and the number of tokens that do not parse
    ghost var log: Log
    ghost var table: seq<seq<Rec>>
    ghost var flaws: seq<nat>

    ghost predicate Valid()
      reads this, buf, buf.data, buf.src
    {
      buf.Valid() && Reads()
    }

    /** The ghost log describes the stream the buffer reads. */
    ghost predicate Reads()
      reads this, buf
    {
      && log.Valid() && log.stream == buf.src.content && log.max == buf.max && log.accepts == accepts
      && AreCuts(log.cuts, framer, log.stream, buf.max) && IsTable(table, log) && AreFlaws(flaws, log)
    }

    /** Where the parser will go on. */
    ghost function Position(): nat
      reads this, buf
    {
      if buf.bomChecked || buf.consumed != 0 then buf.consumed else Head(log.stream)
    }

    /** The records still to come. */
    ghost function Remaining(): seq<Rec>
      requires Valid()
      reads this, buf, buf.data, buf.src
    {
      table[Position()]
    }

    /** How many tokens still to come do not parse. */
    ghost function FlawsLeft(): nat
      requires Valid()
      reads this, buf, buf.data, buf.src
    {
      flaws[Position()]
    }

    constructor (src: Source, framer: Framer, accepts: bytes -> bool, starts: bytes -> bool, max: nat, initial: nat)
      requires MIN_MAX_RECORD_BYTES <= max && 0 < initial <= max && src.pos == src.empties == 0
      ensures Valid() && fresh(buf) && fresh(buf.data) && buf.src == src && this.framer == framer
      ensures log == LogOf(framer, src.content, max, accepts) && Position() == Head(src.content) && !done
    {
      this.framer, this.accepts, this.starts := framer, accepts, starts;
      buf := new Buf(src, max, initial);
      rec, records, malformed, err, done, beyond := Rec(0, [], false), 0, 0, None, false, 0;
      log := LogOf(framer, src.content, max, accepts);
      table := Table(LogOf(framer, src.content, max, accepts));
      flaws := Flaws(LogOf(framer, src.content, max, accepts));
    }

    /** The next record that parses; tokens that do not are counted and passed over. */
    method Next() returns (ok: bool)
      requires Valid()
      modifies this`rec, this`records, this`malformed, this`err, this`done
      modifies buf, buf.data, buf.src
      ensures Valid() && buf.src == old(buf.src) && (buf.data == old(buf.data) || fresh(buf.data))
      ensures old(done) ==> !ok && Position() == old(Position()) && done
      ensures ok ==> old(Remaining()) == [rec] + Remaining() && records == old(records) + 1 && !done
      ensures !ok && !old(done) ==> old(Remaining()) == [] && done && records == old(records)
      ensures !ok && !old(done) ==> err == if buf.src.ending == Eof then old(err) else Some(buf.src.ending)
      ensures !old(done) ==> old(malformed + FlawsLeft()) == if ok then malformed + FlawsLeft() else malformed
    {
      if done {
        return false;
      }
      ghost var rs := Remaining();
      ghost var flawed := malformed + FlawsLeft();
      var answer := Malformed;
      while answer == Malformed
        invariant Valid() && buf.src == old(buf.src) && (buf.data == old(buf.data) || fresh(buf.data))
        invariant match answer
          case Parsed => rs == [rec] + Remaining() && records == old(records) + 1 && !done
          case Malformed => rs == Remaining() && records == old(records) && err == old(err) && !done
          case End =>
            rs == [] && done && records == old(records) &&
            err == if buf.src.ending == Eof then old(err) else Some(buf.src.ending)
        invariant flawed == if answer == End then malformed else malformed + FlawsLeft()
        decreases |log.stream| - Position(), answer == Malformed
      {
        answer := TryNext();
      }
      ok := answer == Parsed;
    }

    /** One token, parsed if it parses. */
    method TryNext() returns (answer: Answer)
      requires Valid() && !done
      modifies this`rec, this`records, this`malformed, this`err, this`done
      modifies buf, buf.data, buf.src
      ensures Valid() && buf.src == old(buf.src) && (buf.data == old(buf.data) || fresh(buf.data))
      ensures answer != End ==> Position() > old(Position()) && done == old(done) && err == old(err)
      ensures records == old(records) + (if answer == Answer.Parsed then 1 else 0)
      ensures old(malformed + FlawsLeft()) == if answer == End then malformed else malformed + FlawsLeft()
      ensures match answer
        case Parsed => old(Remaining()) == [rec] + Remaining()
        case Malformed => old(Remaining()) == Remaining()
        case End =>
          && old(Remaining()) == [] && done && Position() >= old(Position())
          && err == if buf.src.ending == Eof then old(err) else Some(buf.src.ending)
    {
      var token, off, tail, e := NextToken();
      if token.None? {
        if e != Eof {
          err := Some(e);
        }
        done, answer := true, End;
      } else if accepts(token.value) {
        rec, records, answer := Rec(off, token.value, tail), records + 1, Answer.Parsed;
      } else {
        malformed, answer := malformed + 1, Malformed;
      }
    }

    /** One token out of the buffer. */
    method NextToken() returns (token: Option<bytes>, off: nat, tail: bool, e: ReadError)
      requires Valid()
      modifies buf, buf.data, buf.src
      ensures Valid() && buf.src == old(buf.src) && (buf.data == old(buf.data) || fresh(buf.data))
      ensures token.Some? ==> Position() > old(Position())
      ensures token.Some? ==>
        old(Remaining()) == if accepts(token.value) then [Rec(off, token.value, tail)] + Remaining() else Remaining()
      ensures old(FlawsLeft()) == if token.None? then 0 else (if accepts(token.value) then 0 else 1) + FlawsLeft()
      ensures token.None? ==> old(Remaining()) == [] && e == buf.src.ending && Position() >= old(Position())
    {
      TokenIsNextMove(log, table, Position(), buf.stats.truncated);
      TokenIsNextFlaw(log, flaws, Position(), buf.stats.truncated);
      token, off, tail, e := buf.Next(framer, log.cuts);
    }

    /** One probe of the resynchronisation. */
    method TryResync(ghost verdicts: seq<Verdict>) returns (more: bool)
      requires Valid() && buf.consumed > 0 && !buf.skipping
      modifies buf, buf.data, buf.src
      ensures Valid() && buf.src == old(buf.src) && (buf.data == old(buf.data) || fresh(buf.data))
      ensures old(buf.consumed) <= buf.consumed && !buf.skipping
      ensures AreVerdicts(verdicts, log, starts) && Clear(log, starts, old(buf.consumed)) ==>
        After(log, verdicts, old(buf.consumed)) == if more then GoOn(buf.consumed) else Stop(buf.consumed)
    {
      var sample := buf.Peek(RESYNC_PEEK_BYTES);
      var v := Examine(starts, sample, log, verdicts, buf.consumed);
      more := false;
      if v == Interior {
        more := buf.DiscardToNewline();
      }
    }

    /** A resynchronisation from at sees what the whole file shows. */
    ghost predicate IsClear(verdicts: seq<Verdict>, at: nat, lines: nat)
      reads this
    {
      AreVerdicts(verdicts, log, starts) && at <= |log.stream| && ClearAlong(log, starts, verdicts, at, lines)
    }

    /** Advances to the next line that starts a record, over at most most lines. */
    method Resync(most: nat, ghost verdicts: seq<Verdict>)
      requires Valid() && buf.consumed > 0 && !buf.skipping
      modifies buf, buf.data, buf.src
      ensures Valid() && buf.src == old(buf.src) && (buf.data == old(buf.data) || fresh(buf.data))
      ensures old(buf.consumed) <= buf.consumed && !buf.skipping
      ensures IsClear(verdicts, old(buf.consumed), most) ==>
        buf.consumed == Seeking.Resync(log, verdicts, old(buf.consumed), most)
    {
      ghost var clear, way, goal := IsClear(verdicts, buf.consumed, most), [], 0;
      if clear {
        way := WayOf(log, starts, verdicts, buf.consumed, most);
        goal := Seeking.Resync(log, verdicts, buf.consumed, most);
      }
      Follow(most, verdicts, clear, way, goal);
    }

    /** The probe at the i-th position of the way: whether it goes on, and where it leads. */
    method Probe(ghost verdicts: seq<Verdict>, ghost clear: bool, ghost way: seq<nat>, ghost goal: nat, ghost most: nat, i: nat)
      returns (more: bool)
      requires Valid() && buf.consumed > 0 && !buf.skipping && i < most
      requires clear ==> IsWay(way, log, starts, verdicts, most, goal) && i < |way| && buf.consumed == way[i]
      modifies buf, buf.data, buf.src
      ensures Valid() && buf.src == old(buf.src) && (buf.data == old(buf.data) || fresh(buf.data))
      ensures old(buf.consumed) <= buf.consumed && !buf.skipping
      ensures clear ==> if more then i + 1 < |way| && buf.consumed == way[i + 1] else buf.consumed == goal
    {
      if clear && i + 1 < |way| {
        assert GoesOnAt(way, log, starts, verdicts, i);
      }
      more := TryResync(verdicts);
    }

    /** The loop over the probes. */
    method Follow(most: nat, ghost verdicts: seq<Verdict>, ghost clear: bool, ghost way: seq<nat>, ghost goal: nat)
      requires Valid() && buf.consumed > 0 && !buf.skipping
      requires clear ==> IsWay(way, log, starts, verdicts, most, goal) && buf.consumed == way[0]
      modifies buf, buf.data, buf.src
      ensures Valid() && buf.src == old(buf.src) && (buf.data == old(buf.data) || fresh(buf.data))
      ensures old(buf.consumed) <= buf.consumed && !buf.skipping
      ensures clear ==> buf.consumed == goal
    {
      var lines, more := 0, true;
      while lines < most && more
        invariant Valid() && buf.src == old(buf.src) && (buf.data == old(buf.data) || fresh(buf.data))
        invariant old(buf.consumed) <= buf.consumed && !buf.skipping
        invariant lines <= most
        invariant clear ==> if more then lines < |way| && buf.consumed == way[lines] else buf.consumed == goal
        decreases most - lines
      {
        more := Probe(verdicts, clear, way, goal, most, lines);
        lines := lines + 1;
      }
    }

    /** Repositions the parser at a byte offset of the file and resynchronises. */
    method SeekTo(at: nat, plan: seq<nat>, ghost verdicts: seq<Verdict>) returns (landed: nat)
      requires Reads() && buf.Sized() && at <= |log.stream|
      modifies this`rec, this`records, this`malformed, this`err, this`done, this`beyond, buf, buf.data, buf.src
      ensures Valid() && buf.src == old(buf.src) && (buf.data == old(buf.data) || fresh(buf.data)) && !done && beyond == 0
      ensures landed == buf.consumed && at <= landed && err == None && records == malformed == 0
      ensures at == 0 ==> landed == 0 && Position() == Head(log.stream)
      ensures at > 0 && IsClear(verdicts, at, MAX_RESYNC_LINES) ==>
        landed == Position() == Seeking.Resync(log, verdicts, at, MAX_RESYNC_LINES)
    {
      buf.src.Seek(at, plan);
      buf.Reset(buf.src, at);
      rec, records, malformed, err, done, beyond := Rec(0, [], false), 0, 0, None, false, 0;
      if at > 0 {
        Resync(MAX_RESYNC_LINES, verdicts);
      }
      landed := buf.consumed;
    }

    /** A seek past the end of the file: the offset is kept, and there is nothing to read. */
    method SeekBeyond(at: nat)
      requires Reads() && buf.Sized() && at > |log.stream|
      modifies this`rec, this`records, this`malformed, this`err, this`done, this`beyond, buf, buf.src
      ensures Valid() && buf.src == old(buf.src) && buf.data == old(buf.data) && !done && Offset() == at
      ensures err == None && records == malformed == 0 && Remaining() == []
    {
      var end := buf.src.SeekEnd();
      buf.Reset(buf.src, end);
      rec, records, malformed, err, done, beyond := Rec(0, [], false), 0, 0, None, false, at - end;
      assert table[|log.stream|] == RecordsFrom(log, |log.stream|);
    }

    /** The offset that the parser stands at. */
    function Offset(): nat
      reads this, buf
    {
      buf.consumed + beyond
    }

    /** What an offset from whence counts from. */
    ghost function Base(whence: Whence): nat
      reads this, buf, buf.src
    {
      match whence
      case FromCurrent => Offset()
      case FromEnd => |buf.src.content|
      case _ => 0
    }

    /**
     * The absolute offset. Counting from the end moves the reader there: what it has not read yet is
     * lost when no seek follows.
     */
    method Resolve(offset: int, whence: Whence) returns (r: Sought)
      requires Valid()
      modifies buf.src
      ensures var at := old(Base(whence)) + offset;
        r == if whence == Unknown then BadWhence else if at < 0 then NegativeOffset else Landed(at)
      ensures Reads() && buf.Sized()
      ensures Valid() <==> whence != FromEnd || old(buf.src.pos) == |log.stream|
    {
      var base := 0;
      match whence {
        case FromStart =>
        case FromCurrent => base := Offset();
        case FromEnd => base := buf.src.SeekEnd();
        case Unknown => return BadWhence;
      }
      r := if base + offset < 0 then NegativeOffset else Landed(base + offset);
    }

    /** What a seek to at comes to. */
    ghost predicate Stands(verdicts: seq<Verdict>, at: nat)
      requires Valid()
      reads this, buf, buf.data, buf.src
    {
      && !done && err == None && records == malformed == 0 && at <= Offset()
      && (at == 0 ==> Offset() == 0 && Position() == Head(log.stream))
      && (at > |log.stream| ==> Offset() == at && Remaining() == [])
      && (0 < at <= |log.stream| && IsClear(verdicts, at, MAX_RESYNC_LINES) ==>
            Offset() == Position() == Seeking.Resync(log, verdicts, at, MAX_RESYNC_LINES))
    }

    method SeekAbsolute(at: nat, plan: seq<nat>, ghost verdicts: seq<Verdict>)
      requires Reads() && buf.Sized()
      modifies this`rec, this`records, this`malformed, this`err, this`done, this`beyond, buf, buf.data, buf.src
      ensures Valid() && buf.src == old(buf.src) && Stands(verdicts, at)
    {
      if at > |buf.src.content| {
        SeekBeyond(at);
      } else {
        var landed := SeekTo(at, plan, verdicts);
      }
    }

    /** Repositions the parser: where it stands then, or why it does not. */
    method Seek(offset: int, whence: Whence, plan: seq<nat>, ghost verdicts: seq<Verdict>) returns (r: Sought)
      requires Valid()
      modifies this`rec, this`records, this`malformed, this`err, this`done, this`beyond, buf, buf.data, buf.src
      ensures var at := old(Base(whence)) + offset;
        && (r.BadWhence? <==> whence == Unknown) && (r.NegativeOffset? <==> whence != Unknown && at < 0)
        && (r.Landed? ==> r.at == Offset() && Valid() && Stands(verdicts, at))
      ensures !r.Landed? ==> (Valid() <==> whence != FromEnd || old(buf.src.pos) == |log.stream|)
    {
      r := Resolve(offset, whence);
      if r.Landed? {
        SeekAbsolute(r.at, plan, verdicts);
        r := Landed(Offset());
      }
    }

    /** Points the parser at another file. */
    method Reset(src: Source)
      requires Valid() && src.pos == src.empties == 0
      modifies this, buf
      ensures Valid() && buf.src == src && buf.data == old(buf.data) && !done
      ensures log == LogOf(framer, src.content, buf.max, accepts) && Position() == Head(log.stream)
    {
      buf.Reset(src, 0);
      rec, records, malformed, err, done, beyond := Rec(0, [], false), 0, 0, None, false, 0;
      log := LogOf(framer, src.content, buf.max, accepts);
      table := Table(log);
      flaws := Flaws(log);
    }

    /** Delivers the records of one shard: those that start before end, from where start leads to. */
    method ScanShard(start: nat, end: int, plan: seq<nat>, ghost verdicts: seq<Verdict>) returns (out: seq<Rec>)
      requires Valid() && start <= |log.stream| && |verdicts| == |log.stream| + 1
      modifies this`rec, this`records, this`malformed, this`err, this`done, this`beyond, buf, buf.data, buf.src
      ensures Valid() && buf.src == old(buf.src) && (buf.data == old(buf.data) || fresh(buf.data))
      ensures start == 0 || IsClear(verdicts, start, MAX_RESYNC_LINES) ==> out == ShardRecords(log, verdicts, start, end)
    {
      var landed := SeekTo(start, plan, verdicts);
      assert start == 0 || IsClear(verdicts, start, MAX_RESYNC_LINES) ==> ShardRecords(log, verdicts, start, end) == Upto(Remaining(), end);
      out := Deliver(end);
    }

    /** All records that are still to come. */
    method ReadAll() returns (out: seq<Rec>)
      requires Valid() && !done
      modifies this`rec, this`records, this`malformed, this`err, this`done, buf, buf.data, buf.src
      ensures Valid() && buf.src == old(buf.src) && out == old(Remaining()) && malformed == old(malformed + FlawsLeft())
    {
      UptoEnd(Remaining());
      out := Deliver(-1);
    }

    /** Delivers the records from the current position up to end. */
    method Deliver(end: int) returns (out: seq<Rec>)
      requires Valid() && !done
      modifies this`rec, this`records, this`malformed, this`err, this`done, buf, buf.data, buf.src
      ensures Valid() && buf.src == old(buf.src) && (buf.data == old(buf.data) || fresh(buf.data))
      ensures out == Upto(old(Remaining()), end)
      ensures end < 0 ==> malformed == old(malformed + FlawsLeft())
    {
      ghost var goal := Upto(Remaining(), end);
      ghost var flawed := malformed + FlawsLeft();
      out := [];
      while true
        invariant Valid() && buf.src == old(buf.src) && (buf.data == old(buf.data) || fresh(buf.data))
        invariant goal == out + Upto(Remaining(), end) && !done
        invariant flawed == malformed + FlawsLeft()
        decreases |Remaining()|
      {
        var ok := Next();
        if !ok || (end >= 0 && rec.off >= end) {
          assert out + [] == out;
          return;
        }
        UptoNext(out, rec, Remaining(), end);
        out := out + [rec];
      }
    }
  }
}
