/**
 * The stream under the parser: a reader that delivers bytes in pieces of its own choosing, and
 * what the parser is to make of the bytes whatever the pieces are.
 */
module Stream {
  import opened Bytes
  import opened Framing

  datatype ReadError = Eof | Failure(code: int) | NoProgress

  const MAX_EMPTY_READS := 100

  /**
   * An io.Reader over content from pos on. It hands the bytes over in pieces whose sizes plan
   * chooses, with up to 99 empty answers in a row in between, and then ends with ending: reported
   * with the last bytes when early is set, and for NoProgress by giving empty answers for ever.
   */
  class Source {
    const content: bytes
    const ending: ReadError
    var pos: nat
    var plan: seq<nat>
    var early: bool
    var empties: nat

    constructor (content: bytes, ending: ReadError, plan: seq<nat>, early: bool)
      ensures this.content == content && this.ending == ending && pos == empties == 0
    {
      this.content, this.ending, this.plan, this.early := content, ending, plan, early;
      pos, empties := 0, 0;
    }

    /** Repositions the reader; from there on it may cut the content up differently. */
    method Seek(at: nat, plan: seq<nat>)
      requires at <= |content|
      modifies this
      ensures pos == at && empties == 0
    {
      pos, empties, this.plan := at, 0, plan;
    }

    /** Repositions the reader at its end, and tells where that is. */
    method SeekEnd() returns (end: nat)
      modifies this
      ensures end == pos == |content| && empties == 0
    {
      pos, empties := |content|, 0;
      end := pos;
    }

    method Copy(into: array<byte>, at: nat, b: bytes)
      requires at + |b| <= into.Length
      modifies into
      ensures into[..at] == old(into[..at]) && into[at..at + |b|] == b
    {
      forall i | 0 <= i < |b| {
        into[at + i] := b[i];
      }
    }

    method Read(into: array<byte>, at: nat) returns (n: nat, err: Option<ReadError>)
      requires at < into.Length && pos <= |content| && empties < 100
      modifies this, into
      ensures pos == old(pos) + n <= |content| && at + n <= into.Length
      ensures into[..at] == old(into[..at]) && into[at..at + n] == content[old(pos)..pos]
      ensures err.Some? ==> pos == |content| && err.value == ending
      ensures empties == if n == 0 then old(empties) + 1 else 0
      ensures err.None? && empties == 100 ==> pos == |content| && ending == NoProgress
    {
      var size := into.Length - at;
      if plan != [] {
        size, plan := Min(plan[0], size), plan[1..];
      }
      if size == 0 && empties + 1 == 100 {
        size := 1;
      }
      n := Min(size, |content| - pos);
      Copy(into, at, content[pos..pos + n]);
      pos := pos + n;
      empties := if n == 0 then empties + 1 else 0;
      err := None;
      if pos == |content| && ending != NoProgress && (early || (empties > 0 && size > 0)) {
        err := Some(ending);
      }
    }
  }

  // ----- What the parser is to read out of a stream -----

  /** The split of everything from p on, of which at most max bytes are looked at. */
  ghost function CutAt(f: Framer, stream: bytes, p: nat, max: nat): Cut
    requires p <= |stream|
  {
    if |stream| - p < max then Split(f, stream[p..], true) else Split(f, stream[p..p + max], false)
  }

  /** The decisions of a framer at every position of a stream. */
  ghost function Cuts(f: Framer, stream: bytes, max: nat): (cuts: seq<Cut>)
    ensures AreCuts(cuts, f, stream, max)
  {
    seq(|stream| + 1, p requires 0 <= p <= |stream| => CutAt(f, stream, p, max))
  }

  ghost predicate AreCuts(cuts: seq<Cut>, f: Framer, stream: bytes, max: nat) {
    && |cuts| == |stream| + 1
    && forall p {:trigger CutAt(f, stream, p, max)} :: 0 <= p <= |stream| ==> cuts[p] == CutAt(f, stream, p, max)
  }

  /** The next token, where it starts, where the scan goes on, and how many records were dropped by then. */
  datatype Found =
    | Token(off: nat, token: bytes, next: nat, dropped: nat)
    | Exhausted(dropped: nat)

  /**
   * The reference scan from p, given the decisions at every position and the records dropped
   * before p: it sees the whole stream at once. A record whose end is not among its first max
   * bytes is dropped, together with everything up to the next newline.
   */
  ghost function NextToken(cuts: seq<Cut>, stream: bytes, p: nat, max: nat, dropped: nat): Found
    requires p <= |stream| && |cuts| == |stream| + 1
    decreases |stream| - p, 1
  {
    var c := cuts[p];
    if 0 < c.advance <= |stream| - p then
      if c.token.Some? then Token(p, c.token.value, p + c.advance, dropped)
      else NextToken(cuts, stream, p + c.advance, max, dropped)
    else if 0 < max <= |stream| - p then AfterNewline(cuts, stream, p + max, max, dropped + 1)
    else Exhausted(dropped)
  }

  /** The reference scan while an over-long record is being dropped. */
  ghost function AfterNewline(cuts: seq<Cut>, stream: bytes, p: nat, max: nat, dropped: nat): Found
    requires p <= |stream| && |cuts| == |stream| + 1
    decreases |stream| - p, 0
  {
    var nl := IndexFrom(stream, LF, p);
    if nl < 0 then Exhausted(dropped) else NextToken(cuts, stream, nl + 1, max, dropped)
  }

  /** The reference scan, inside an over-long record or not. */
  ghost function Resume(cuts: seq<Cut>, stream: bytes, p: nat, max: nat, dropped: nat, skipping: bool): Found
    requires p <= |stream| && |cuts| == |stream| + 1
  {
    if skipping then AfterNewline(cuts, stream, p, max, dropped) else NextToken(cuts, stream, p, max, dropped)
  }

  /**
   * Runs the split function on a window of the stream. Whatever part of the stream the window
   * shows, a decision taken on it is the decision on the whole.
   */
  method Decide(f: Framer, window: bytes, atEOF: bool, ghost stream: bytes, ghost p: nat, ghost max: nat,
      ghost cuts: seq<Cut>)
    returns (c: Cut)
    requires AreCuts(cuts, f, stream, max) && p + |window| <= |stream| && |window| <= max
    requires window == stream[p..p + |window|]
    requires atEOF ==> p + |window| == |stream| && |window| < max
    ensures if c.Undecided()
      then (atEOF || |window| >= max ==> cuts[p].Undecided()) && (atEOF ==> window == [])
      else c == cuts[p] && 0 < c.advance <= |window|
    ensures c.token.Some? && !atEOF ==> window[c.advance - 1] == LF
  {
    c := SplitRecord(f, window, atEOF);
    assert cuts[p] == CutAt(f, stream, p, max);
    if atEOF {
      assert stream[p..] == window;
      SplitProgress(f, window);
    } else if !c.Undecided() {
      DecidedOnWindow(f, window, stream, p, max);
    } else if |window| == max {
      assert stream[p..p + max] == window;
    }
  }

  lemma DecidedOnWindow(f: Framer, window: bytes, stream: bytes, p: nat, max: nat)
    requires p + |window| <= |stream| && |window| <= max && window == stream[p..p + |window|]
    requires !Split(f, window, false).Undecided()
    ensures CutAt(f, stream, p, max) == Split(f, window, false)
    ensures var n := Split(f, window, false).advance; 0 < n <= |window| && window[n - 1] == LF
  {
    if |stream| - p < max {
      assert window <= stream[p..];
      SplitStable(f, window, stream[p..], true);
    } else {
      assert window <= stream[p..p + max];
      SplitStable(f, window, stream[p..p + max], false);
    }
  }

  lemma EndsAtEnd(cuts: seq<Cut>, f: Framer, stream: bytes, max: nat, dropped: nat, skipping: bool)
    requires AreCuts(cuts, f, stream, max) && max > 0
    ensures Resume(cuts, stream, |stream|, max, dropped, skipping) == Exhausted(dropped)
  {
  }

  /** A token that ends at p is the last thing in the stream and has no newline. */
  ghost predicate Unterminated(stream: bytes, p: nat) {
    p == |stream| && p > 0 && stream[p - 1] != LF
  }

  const BOM: bytes := [0xEF, 0xBB, 0xBF]

  /** Where the records of a stream start: after a byte order mark. */
  function Head(stream: bytes): (p: nat)
    ensures p <= |stream|
  {
    if BOM <= stream then 3 else 0
  }
}
