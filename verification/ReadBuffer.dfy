/** The sliding, growing read buffer, proved to frame any delivery of a stream as the whole stream. */
module ReadBuffer {
  import opened Bytes
  import opened Framing
  import opened Stream

  /** The length of the buffer after it grew that many times. */
  ghost function LengthAfter(initial: nat, max: nat, grows: nat): (n: nat)
    requires 0 < initial <= max
    ensures initial <= n <= max
  {
    if grows == 0 then initial else Min(2 * LengthAfter(initial, max, grows - 1), max)
  }

  /** A buffer of that length that grew that many times, each time from below the maximum. */
  ghost predicate HasGrown(initial: nat, max: nat, grows: nat, length: nat)
    requires 0 < initial <= max
    decreases grows
  {
    && length == LengthAfter(initial, max, grows)
    && (grows > 0 ==>
        var before := LengthAfter(initial, max, grows - 1);
        before < max && HasGrown(initial, max, grows - 1, before))
  }

  const MIN_MAX_RECORD_BYTES := 512

  datatype Stats = Stats(truncated: nat, bytes: nat, bufferGrows: nat)

  /** How one decision of the split function went. */
  datatype Progress = Emitted | Moved | Dropped | Ended | Starved

  class Buf {
    var src: Source
    var data: array<byte>
    var r: nat
    var w: nat
    var consumed: nat
    var err: Option<ReadError>
    var atEOF: bool
    const max: nat
    const initial: nat
    var skipping: bool
    var bomChecked: bool
    var stats: Stats
    // where the counters started, and the growth of the buffer over its whole life
    ghost var origin: nat
    ghost var growths: nat

    ghost predicate Sized()
      reads this
    {
      && MIN_MAX_RECORD_BYTES <= max && 0 < initial <= max
      && HasGrown(initial, max, growths, data.Length)
    }

    /** The window holds the stream from consumed on, and the reader stands where it ends. */
    ghost predicate Core()
      reads this, data, src
    {
      && Sized()
      && r <= w <= data.Length
      && src.pos == consumed + (w - r) <= |src.content|
      && data[r..w] == src.content[consumed..src.pos]
      && (if err.Some? then src.pos == |src.content| && err.value == src.ending else src.empties == 0)
      && (atEOF ==> err.Some? && w - r < max)
      && consumed == origin + stats.bytes
    }

    /** Between calls. */
    ghost predicate Valid()
      reads this, data, src
    {
      Core() && (skipping ==> consumed == |src.content|)
    }

    constructor (src: Source, max: nat, initial: nat)
      requires MIN_MAX_RECORD_BYTES <= max && 0 < initial <= max && src.pos == src.empties == 0
      ensures Valid() && fresh(data) && this.src == src && this.max == max && this.initial == initial
      ensures consumed == growths == 0 && !bomChecked && stats == Stats(0, 0, 0)
    {
      this.src, this.max, this.initial := src, max, initial;
      data := new byte[initial];
      r, w, consumed, err, atEOF := 0, 0, 0, None, false;
      skipping, bomChecked, stats := false, false, Stats(0, 0, 0);
      origin, growths := 0, 0;
    }

    /** Points the buffer at a stream that stands at position at, keeping its storage. */
    method Reset(src: Source, at: nat)
      requires Sized() && src.pos == at <= |src.content| && src.empties == 0
      modifies this
      ensures Valid() && data == old(data) && this.src == src && growths == old(growths)
      ensures consumed == at && !bomChecked && !skipping && stats == Stats(0, 0, 0)
    {
      Empty(src);
      consumed, origin, stats := at, at, Stats(0, 0, 0);
    }

    method Empty(src: Source)
      modifies this
      ensures data == old(data) && this.src == src && growths == old(growths)
      ensures r == w == 0 && err == None && !atEOF && !skipping && !bomChecked
    {
      this.src := src;
      r, w, err, atEOF := 0, 0, None, false;
      skipping, bomChecked := false, false;
    }

    method Advance(n: nat)
      requires Core() && n <= w - r
      modifies this`r, this`consumed, this`stats
      ensures Core() && r == old(r) + n && consumed == old(consumed) + n
      ensures stats == old(stats).(bytes := old(stats).bytes + n)
    {
      assert data[r..w][n..] == data[r + n..w];
      r, consumed, stats := r + n, consumed + n, stats.(bytes := stats.bytes + n);
    }

    /** Doubles the buffer, up to max. */
    method Grow() returns (grew: bool)
      requires Core() && r == 0
      modifies this`data, this`stats, this`growths
      ensures Core() && grew == (old(data.Length) < max)
      ensures if grew then fresh(data) && data.Length > old(data.Length) else data == old(data)
      ensures growths == old(growths) + (if grew then 1 else 0)
      ensures stats == old(stats).(bufferGrows := old(stats).bufferGrows + (if grew then 1 else 0))
    {
      if data.Length >= max {
        return false;
      }
      var size := Min(Max(data.Length * 2, initial), max);
      var grown := new byte[size];
      forall i | 0 <= i < w { grown[i] := data[i]; }
      assert grown[r..w] == data[r..w];
      growths := growths + 1;
      data, stats := grown, stats.(bufferGrows := stats.bufferGrows + 1);
      return true;
    }

    /** Moves the unconsumed bytes to the front. */
    method Slide()
      requires Core()
      modifies this`r, this`w, data
      ensures Core() && r == 0 && w - r == old(w - r)
    {
      if r > 0 {
        forall i | 0 <= i < w - r { data[i] := data[r + i]; }
        assert data[0..w - r] == old(data[r..w]);
        w := w - r;
        r := 0;
      }
    }

    /** Makes room and reads; false means the stream has ended, never that there was no room. */
    method Fill() returns (got: bool)
      requires Core() && w - r < max
      modifies this`r, this`w, this`data, this`err, this`stats, this`growths, data, src
      ensures Core() && (data == old(data) || fresh(data))
      ensures if got then w - r > old(w - r) else err.Some? && w - r == old(w - r)
      ensures stats == old(stats).(bufferGrows := stats.bufferGrows)
    {
      if err.Some? {
        return false;
      }
      Slide();
      if w == data.Length {
        var grew := Grow();
        assert grew;
      }
      got := ReadMore();
    }

    /** What is buffered, from the start of the storage on, is the stream from consumed on. */
    ghost predicate HoldsFront()
      reads this, data, src
    {
      w <= data.Length && src.pos == consumed + w <= |src.content| && data[..w] == src.content[consumed..src.pos]
    }

    /** Reads once. */
    method ReadOnce() returns (n: nat, e: Option<ReadError>)
      requires HoldsFront() && w < data.Length && src.empties < MAX_EMPTY_READS
      modifies this`w, data, src
      ensures HoldsFront() && w == old(w) + n
      ensures e.Some? ==> src.pos == |src.content| && e.value == src.ending
      ensures src.empties == if n == 0 then old(src.empties) + 1 else 0
      ensures e.None? && src.empties == MAX_EMPTY_READS ==> src.pos == |src.content| && src.ending == NoProgress
    {
      n, e := src.Read(data, w);
      assert data[..w + n] == data[..w] + data[w..w + n];
      SliceJoin(src.content, consumed, consumed + w, src.pos);
      w := w + n;
    }

    /** Reads until something arrives, at most a hundred times. */
    method ReadMore() returns (got: bool)
      requires Core() && r == 0 && w < data.Length && err == None
      modifies this`w, this`err, data, src
      ensures Core()
      ensures if got then w > old(w) else err.Some? && w == old(w)
    {
      assert data[..w] == data[r..w];
      var tries := 0;
      while tries < MAX_EMPTY_READS
        invariant w == old(w) < data.Length && err == None && HoldsFront()
        invariant tries == src.empties <= MAX_EMPTY_READS
        invariant tries == MAX_EMPTY_READS ==> src.pos == |src.content| && src.ending == NoProgress
      {
        var n, e := ReadOnce();
        assert data[..w] == data[r..w];
        if e.Some? {
          err := e;
        }
        if n > 0 {
          return true;
        }
        if e.Some? {
          return false;
        }
        tries := tries + 1;
      }
      err := Some(NoProgress);
      return false;
    }

    /** Fills, and notes the end of the stream. */
    method FillOrEnd()
      requires Core() && w - r < max
      modifies this`r, this`w, this`data, this`err, this`atEOF, this`stats, this`growths, data, src
      ensures Core() && (data == old(data) || fresh(data))
      ensures if atEOF then src.pos == |src.content| && w - r == old(w - r) else w - r > old(w - r)
      ensures old(atEOF) ==> atEOF
      ensures stats == old(stats).(bufferGrows := stats.bufferGrows)
    {
      var got := Fill();
      if !got {
        atEOF := true;
      }
    }

    /** Drops a byte order mark at the head of the stream, once. */
    method ConsumeBOM()
      requires Core()
      modifies this`r, this`w, this`data, this`err, this`atEOF, this`stats, this`growths
      modifies this`consumed, this`bomChecked, data, src
      ensures Core() && (data == old(data) || fresh(data)) && bomChecked
      ensures consumed == if old(bomChecked) || old(consumed) != 0 then old(consumed) else Head(src.content)
      ensures stats.truncated == old(stats).truncated
    {
      if bomChecked {
        return;
      }
      bomChecked := true;
      if consumed != 0 {
        return;
      }
      while w - r < 3 && !atEOF
        invariant Core() && (data == old(data) || fresh(data))
        invariant consumed == 0 && bomChecked && stats.truncated == old(stats).truncated
        decreases |src.content| - (w - r), if atEOF then 0 else 1
      {
        FillOrEnd();
      }
      if BOM <= data[r..w] {
        Advance(3);
      }
    }

    /** Drops bytes until just past the next newline; false means the stream ended first. */
    method DiscardToNewline() returns (found: bool)
      requires Core()
      modifies this`r, this`w, this`data, this`err, this`atEOF, this`stats, this`growths
      modifies this`consumed, data, src
      ensures Core() && (data == old(data) || fresh(data))
      ensures var nl := IndexFrom(src.content, LF, old(consumed));
        if found then nl >= 0 && consumed == nl + 1 else nl < 0 && consumed == |src.content| && atEOF
      ensures stats.truncated == old(stats).truncated
    {
      while true
        invariant Core() && (data == old(data) || fresh(data))
        invariant old(consumed) <= consumed
        invariant IndexFrom(src.content, LF, old(consumed)) == IndexFrom(src.content, LF, consumed)
        invariant stats.truncated == old(stats).truncated
        decreases |src.content| - src.pos, |src.content| - consumed
      {
        found := DiscardBuffered();
        if found {
          return;
        }
        FillOrEnd();
        if atEOF {
          return;
        }
      }
    }

    /** Drops the buffered bytes up to just past the next newline, or all of them. */
    method DiscardBuffered() returns (found: bool)
      requires Core()
      modifies this`r, this`consumed, this`stats
      ensures Core() && consumed >= old(consumed)
      ensures var nl := IndexFrom(src.content, LF, old(consumed));
        if found then nl >= 0 && consumed == nl + 1 else r == w && nl == IndexFrom(src.content, LF, consumed)
      ensures stats.truncated == old(stats).truncated
    {
      SearchSlice(src.content, LF, consumed, src.pos);
      var i := IndexFrom(data[r..w], LF, 0);
      if i >= 0 {
        Advance(i + 1);
        return true;
      }
      Advance(w - r);
      return false;
    }

    /** The read error that ended the stream, Eof for a clean end. */
    function FinalErr(): ReadError
      reads this
    {
      if err.Some? && err.value != Eof then err.value else Eof
    }

    /** Shows the buffered bytes, at least want of them unless the stream or the limit ends before. */
    method Peek(want: nat) returns (sample: bytes)
      requires Core()
      modifies this`r, this`w, this`data, this`err, this`atEOF, this`stats, this`growths
      modifies this`consumed, this`bomChecked, data, src
      ensures Core() && (data == old(data) || fresh(data)) && bomChecked
      ensures consumed == if old(bomChecked) || old(consumed) != 0 then old(consumed) else Head(src.content)
      ensures stats.truncated == old(stats).truncated
      ensures Min(Min(want, max), |src.content| - consumed) <= |sample| <= |src.content| - consumed
      ensures sample == src.content[consumed..consumed + |sample|]
    {
      ConsumeBOM();
      var enough := Min(want, max);
      while w - r < enough && !atEOF
        invariant Core() && (data == old(data) || fresh(data)) && bomChecked
        invariant consumed == if old(bomChecked) || old(consumed) != 0 then old(consumed) else Head(src.content)
        invariant stats.truncated == old(stats).truncated
        decreases |src.content| - src.pos, if atEOF then 0 else 1
      {
        FillOrEnd();
      }
      sample := data[r..w];
    }

    /** Runs the split function on the window; tail tells that the stream ends inside the token. */
    method TryCut(f: Framer, ghost cuts: seq<Cut>) returns (c: Cut, tail: bool)
      requires Core() && AreCuts(cuts, f, src.content, max)
      ensures if c.Undecided()
        then (atEOF || w - r >= max ==> cuts[consumed].Undecided()) && (atEOF ==> consumed == |src.content|)
        else c == cuts[consumed] && 0 < c.advance <= w - r
      ensures tail == (c.token.Some? && Unterminated(src.content, consumed + c.advance))
    {
      assert r < w ==> data[r..w][w - 1 - r] == src.content[src.pos - 1];
      c := Decide(f, data[r..w], atEOF, src.content, consumed, max, cuts);
      tail := c.token.Some? && atEOF && c.advance == w - r && r < w && data[w - 1] != LF;
    }

    /** What the reference scan makes of the rest of the stream. */
    ghost function Remaining(cuts: seq<Cut>): Found
      requires consumed <= |src.content| && |cuts| == |src.content| + 1
      reads this
    {
      Resume(cuts, src.content, consumed, max, stats.truncated, skipping)
    }

    /** Drops a window that is full and holds no whole record. */
    method Drop()
      requires Core()
      modifies this`r, this`stats, this`consumed, this`skipping
      ensures Core() && skipping && consumed == old(consumed) + old(w - r)
      ensures stats.truncated == old(stats).truncated + 1
    {
      stats := stats.(truncated := stats.truncated + 1);
      Advance(w - r);
      skipping := true;
    }

    /** One decision of the split function. */
    method Step(f: Framer, ghost cuts: seq<Cut>) returns (step: Progress, token: Option<bytes>, tail: bool)
      requires Core() && !skipping && AreCuts(cuts, f, src.content, max)
      modifies this`r, this`stats, this`consumed, this`skipping
      ensures Core() && old(consumed) <= consumed && skipping == (step == Dropped)
      ensures var goal := old(Remaining(cuts));
        match step
        case Emitted =>
          && token.Some? && goal == Token(old(consumed), token.value, consumed, stats.truncated)
          && tail == Unterminated(src.content, consumed)
        case Moved => token == None && consumed > old(consumed) && goal == Remaining(cuts)
        case Dropped => token == None && consumed > old(consumed) && goal == Remaining(cuts)
        case Ended =>
          token == None && goal == Exhausted(stats.truncated) && atEOF && consumed == |src.content|
        case Starved =>
          token == None && !atEOF && w - r < max && consumed == old(consumed) && stats == old(stats)
    {
      var c;
      c, tail := TryCut(f, cuts);
      token := None;
      if !c.Undecided() {
        Advance(c.advance);
        token, step := c.token, if c.token.Some? then Emitted else Moved;
      } else if atEOF {
        step := Ended;
      } else if w - r >= max {
        Drop();
        step := Dropped;
      } else {
        step := Starved;
      }
    }

    /** Goes on after the newline that ends an over-long record. */
    method EndSkip(ghost cuts: seq<Cut>) returns (found: bool)
      requires Core() && skipping && |cuts| == |src.content| + 1
      modifies this`r, this`w, this`data, this`err, this`atEOF, this`stats, this`growths
      modifies this`consumed, this`skipping, data, src
      ensures Core() && (data == old(data) || fresh(data)) && consumed >= old(consumed)
      ensures if found
        then !skipping && old(Remaining(cuts)) == Remaining(cuts) && consumed > old(consumed)
        else skipping && old(Remaining(cuts)) == Exhausted(stats.truncated) && atEOF && consumed == |src.content|
    {
      found := DiscardToNewline();
      if found {
        skipping := false;
      }
    }

    /** Finishes the skipping of an over-long record, if there is one, then takes one decision or reads more. */
    method Turn(f: Framer, ghost cuts: seq<Cut>)
      returns (step: Progress, token: Option<bytes>, off: nat, tail: bool)
      requires Core() && AreCuts(cuts, f, src.content, max)
      modifies this`r, this`w, this`data, this`err, this`atEOF, this`stats, this`growths
      modifies this`consumed, this`skipping, data, src
      ensures Core() && (data == old(data) || fresh(data)) && old(consumed) <= consumed
      ensures match step
        case Emitted =>
          && !skipping && token.Some? && tail == Unterminated(src.content, consumed)
          && old(Remaining(cuts)) == Token(off, token.value, consumed, stats.truncated)
        case Ended =>
          && token == None && atEOF && consumed == |src.content|
          && old(Remaining(cuts)) == Exhausted(stats.truncated)
        case _ =>
          && old(Remaining(cuts)) == Remaining(cuts)
          && (consumed > old(consumed) || src.pos > old(src.pos) || (src.pos == old(src.pos) && atEOF && !old(atEOF)))
    {
      off, tail, token := consumed, false, None;
      if skipping {
        var found := EndSkip(cuts);
        if !found {
          step := Ended;
          return;
        }
        off := consumed;
      }
      step, token, tail := Step(f, cuts);
      if step == Starved {
        FillOrEnd();
      }
    }

    /**
     * The next token, its offset and whether the stream ends inside it; or the error the stream
     * ended with. Whatever the pieces the stream came in, this is what the reference scan finds.
     */
    method Next(f: Framer, ghost cuts: seq<Cut>) returns (token: Option<bytes>, off: nat, tail: bool, e: ReadError)
      requires Valid() && AreCuts(cuts, f, src.content, max)
      modifies this`r, this`w, this`data, this`err, this`atEOF, this`stats, this`growths
      modifies this`consumed, this`bomChecked, this`skipping, data, src
      ensures Valid() && (data == old(data) || fresh(data)) && bomChecked
      ensures var p := if old(bomChecked) || old(consumed) != 0 then old(consumed) else Head(src.content);
        match NextToken(cuts, src.content, p, max, old(stats).truncated)
        case Token(o, t, next, dropped) =>
          && token == Some(t) && off == o && consumed == next && tail == Unterminated(src.content, next)
          && stats.truncated == dropped
        case Exhausted(dropped) =>
          token == None && e == src.ending && consumed == |src.content| && stats.truncated == dropped
    {
      ConsumeBOM();
      if skipping {
        EndsAtEnd(cuts, f, src.content, max, stats.truncated, true);
        EndsAtEnd(cuts, f, src.content, max, stats.truncated, false);
      }
      e := Eof;
      ghost var goal := Remaining(cuts);
      while true
        invariant Core() && (data == old(data) || fresh(data)) && bomChecked
        invariant goal == Remaining(cuts)
        decreases |src.content| - consumed, |src.content| - src.pos, if atEOF then 0 else 1
      {
        var step;
        step, token, off, tail := Turn(f, cuts);
        if step == Emitted {
          return;
        }
        if step == Ended {
          e := FinalErr();
          return;
        }
      }
    }
  }

  ghost function Pow2(n: nat): nat { if n == 0 then 1 else 2 * Pow2(n - 1) }

  /** The buffer is always the initial length times a power of two, or the maximum. */
  lemma {:induction false} LengthIsPowerOfTwo(initial: nat, max: nat, grows: nat)
    requires 0 < initial <= max
    ensures LengthAfter(initial, max, grows) == Min(initial * Pow2(grows), max)
  {
    if grows > 0 {
      LengthIsPowerOfTwo(initial, max, grows - 1);
      assert initial * Pow2(grows) == 2 * (initial * Pow2(grows - 1));
    }
  }

  /**
   * Over its whole life, through every Reset, a buffer grows g times only if the initial length
   * doubled g - 1 times is still below the maximum; and its length tells how often it grew.
   */
  lemma GrowsSeldom(b: Buf)
    requires b.Sized()
    ensures b.data.Length == Min(b.initial * Pow2(b.growths), b.max)
    ensures b.growths > 0 ==> b.initial * Pow2(b.growths - 1) < b.max
  {
    LengthIsPowerOfTwo(b.initial, b.max, b.growths);
    if b.growths > 0 {
      LengthIsPowerOfTwo(b.initial, b.max, b.growths - 1);
    }
  }
}
