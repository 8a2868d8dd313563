/** Which lines of a line-framed stream are dropped, and how many. */
module LineDrops {
  import opened Bytes
  import opened Framing
  import opened Stream

  /** A line that starts at p and is dropped: max bytes remain, and its newline is not among the first max. */
  predicate IsOverLong(stream: bytes, p: nat, max: nat)
    requires p <= |stream|
  {
    var nl := IndexFrom(stream, LF, p);
    |stream| - p >= max && (nl < 0 || nl >= p + max)
  }

  /** How many lines from p on are dropped. */
  function OverLongLines(stream: bytes, p: nat, max: nat): nat
    requires p <= |stream|
    decreases |stream| - p
  {
    if p == |stream| then 0
    else
      var nl := IndexFrom(stream, LF, p);
      (if IsOverLong(stream, p, max) then 1 else 0) + if nl < 0 then 0 else OverLongLines(stream, nl + 1, max)
  }

  /** How many records have been dropped when the scan from p comes to the end. */
  ghost function DroppedAtEnd(cuts: seq<Cut>, stream: bytes, p: nat, max: nat, dropped: nat): nat
    requires p <= |stream| && |cuts| == |stream| + 1
    decreases |stream| - p
  {
    match NextToken(cuts, stream, p, max, dropped)
    case Exhausted(n) => n
    case Token(_, _, next, n) => if p < next <= |stream| then DroppedAtEnd(cuts, stream, next, max, n) else n
  }

  lemma NewlineInWindow(stream: bytes, p: nat, to: nat)
    requires p <= to <= |stream|
    ensures var i, nl := IndexFrom(stream[p..to], LF, 0), IndexFrom(stream, LF, p);
      if 0 <= nl < to then i == nl - p else i < 0
  {
    SearchSlice(stream, LF, p, to);
  }

  /** A line that is not dropped is decided on: up to its newline, or up to the end of the stream. */
  lemma LineIsCut(cuts: seq<Cut>, stream: bytes, p: nat, max: nat, tail: bool)
    requires AreCuts(cuts, Json(tail), stream, max) && max > 0 && p < |stream|
    ensures var nl := IndexFrom(stream, LF, p);
      cuts[p].advance == if IsOverLong(stream, p, max) then 0 else if nl >= 0 then nl + 1 - p else |stream| - p
    ensures IsOverLong(stream, p, max) ==> cuts[p].token.None?
  {
    assert cuts[p] == CutAt(Json(tail), stream, p, max);
    if |stream| - p < max {
      NewlineInWindow(stream, p, |stream|);
      assert stream[p..] == stream[p..|stream|];
    } else {
      NewlineInWindow(stream, p, p + max);
    }
  }

  /** A dropped line counts one, and the scan goes on at the next line, as if it had begun there. */
  lemma DropIsOne(cuts: seq<Cut>, stream: bytes, p: nat, max: nat, tail: bool, dropped: nat)
    requires AreCuts(cuts, Json(tail), stream, max) && max > 0 && p < |stream| && IsOverLong(stream, p, max)
    ensures var nl := IndexFrom(stream, LF, p);
      NextToken(cuts, stream, p, max, dropped) ==
        if nl < 0 then Exhausted(dropped + 1) else NextToken(cuts, stream, nl + 1, max, dropped + 1)
  {
    LineIsCut(cuts, stream, p, max, tail);
    NewlineInWindow(stream, p, p + max);
    SearchSlice(stream, LF, p, p + max);
  }

  /** The scan drops exactly the over-long lines, no others and each once. */
  lemma {:induction false} DropsExactly(cuts: seq<Cut>, stream: bytes, p: nat, max: nat, tail: bool, dropped: nat)
    requires AreCuts(cuts, Json(tail), stream, max) && max > 0 && p <= |stream|
    ensures DroppedAtEnd(cuts, stream, p, max, dropped) == dropped + OverLongLines(stream, p, max)
    decreases |stream| - p
  {
    if p == |stream| {
      EndsAtEnd(cuts, Json(tail), stream, max, dropped, false);
      return;
    }
    var nl := IndexFrom(stream, LF, p);
    LineIsCut(cuts, stream, p, max, tail);
    if IsOverLong(stream, p, max) {
      DropIsOne(cuts, stream, p, max, tail, dropped);
      if nl >= 0 {
        DropsExactly(cuts, stream, nl + 1, max, tail, dropped + 1);
        SameEnd(cuts, stream, p, nl + 1, max, dropped, dropped + 1);
      }
    } else {
      var next := p + cuts[p].advance;
      DropsExactly(cuts, stream, next, max, tail, dropped);
      if cuts[p].token.None? {
        SameEnd(cuts, stream, p, next, max, dropped, dropped);
      }
    }
  }

  /** Two places from which the scan finds the same come to the same end. */
  lemma SameEnd(cuts: seq<Cut>, stream: bytes, p: nat, q: nat, max: nat, d: nat, e: nat)
    requires p < q <= |stream| && |cuts| == |stream| + 1
    requires NextToken(cuts, stream, p, max, d) == NextToken(cuts, stream, q, max, e)
    ensures DroppedAtEnd(cuts, stream, p, max, d) == DroppedAtEnd(cuts, stream, q, max, e)
  {
    TokenIsAhead(cuts, stream, q, max, e);
  }

  lemma {:induction false} TokenIsAhead(cuts: seq<Cut>, stream: bytes, p: nat, max: nat, d: nat)
    requires p <= |stream| && |cuts| == |stream| + 1
    ensures var f := NextToken(cuts, stream, p, max, d); f.Token? ==> p <= f.off && p < f.next <= |stream|
    decreases |stream| - p
  {
    var c := cuts[p];
    if 0 < c.advance <= |stream| - p {
      if c.token.None? {
        TokenIsAhead(cuts, stream, p + c.advance, max, d);
      }
    } else if 0 < max <= |stream| - p {
      var nl := IndexFrom(stream, LF, p + max);
      if nl >= 0 {
        TokenIsAhead(cuts, stream, nl + 1, max, d + 1);
      }
    }
  }
}
