/**
 * Two messages that are the same up to a quote, a '=', or a ':' with white space behind it: as long as
 * reading stays before it, it takes the same steps in both.
 */
module Twins {
  import opened Bytes
  import opened Tokenizer
  import opened Rules
  import opened Masking
  import opened Steps
  import Prefixes
  import Leading

  /** x and y are the same up to the quote, the '=', or the final ':', at m. */
  predicate AreTwins(x: bytes, y: bytes, m: nat) {
    && m < |x| && m < |y| && x[..m + 1] == y[..m + 1]
    && (x[m] in {QUOTE, APOSTROPHE, EQUALS} || (ColonEnds(x, m) && ColonEnds(y, m)))
  }

  lemma TwinBytes(x: bytes, y: bytes, m: nat, i: nat, e: nat)
    requires AreTwins(x, y, m) && i < e <= m + 1
    ensures x[i..e] == y[i..e] && x[i] == y[i]
  {
    Leading.SliceOfPrefix(x, m + 1, i, e);
    Leading.SliceOfPrefix(y, m + 1, i, e);
    assert x[i..e][0] == x[i] && y[i..e][0] == y[i];
  }

  lemma TwinPaths(x: bytes, y: bytes, m: nat, pos: nat)
    requires AreTwins(x, y, m) && pos < m && PathAt(x, pos) <= m && PathAt(y, pos) <= m
    ensures PathAt(x, pos) == PathAt(y, pos)
  {
    TwinBytes(x, y, m, m, m + 1);
    Leading.PathCut(x, x[..m + 1], m, pos);
    Leading.PathCut(y, x[..m + 1], m, pos);
  }

  lemma TwinTokens(x: bytes, y: bytes, m: nat, pos: nat)
    requires AreTwins(x, y, m) && pos < m && TokenAt(x, pos, false).end <= m
    ensures TokenAt(y, pos, false) == TokenAt(x, pos, false)
  {
    TwinBytes(x, y, m, m, m + 1);
    Prefixes.TokenCut(x, x[..m + 1], m, pos, false);
    Prefixes.TokenCut(y, x[..m + 1], m, pos, false);
  }

  lemma TwinValues(x: bytes, y: bytes, m: nat, e: nat)
    requires AreTwins(x, y, m) && e <= m && ValueEnd(x, e) <= m
    ensures ValueEnd(y, e) == ValueEnd(x, e)
  {
    TwinBytes(x, y, m, m, m + 1);
    Leading.ValueCut(x, x[..m + 1], m, e);
    Leading.ValueCut(y, x[..m + 1], m, e);
  }

  /** A step over a token that stays in the message. */
  lemma StaysInMessage(s: bytes, pos: nat, c: Context, data: bool, t: Token, found: Marker)
    requires pos < t.end <= |s| && FoundIn(s, pos, found) && TokenStep(s, pos, c, data, t, found).Moves?
    ensures TokenStep(s, pos, c, data, t, found) ==
      if t.kind == Space || t.kind == Comment then Moves(if c.first then None else Some(Gap), t.end, c.(gap := !c.first, prev := Space))
      else PlainStep(s, pos, c, data, t)
    ensures t.end <= TokenStep(s, pos, c, data, t, found).next
  {
  }

  lemma TwinPlain(x: bytes, y: bytes, m: nat, pos: nat, c: Context, data: bool, t: Token)
    requires AreTwins(x, y, m) && pos < t.end <= m && PlainStep(x, pos, c, data, t).next <= m
    ensures PlainStep(y, pos, c, data, t) == PlainStep(x, pos, c, data, t)
  {
    TwinBytes(x, y, m, pos, t.end);
    if t.kind == Punct && x[pos] == EQUALS && c.prev == Word {
      TwinValues(x, y, m, t.end);
    }
  }

  lemma TwinTokenStep(x: bytes, y: bytes, m: nat, pos: nat, c: Context, data: bool, t: Token, f: Marker, g: Marker)
    requires AreTwins(x, y, m) && pos < m && pos < t.end <= |x| && t.end <= |y|
    requires FoundIn(x, pos, f) && FoundIn(y, pos, g)
    requires TokenStep(x, pos, c, data, t, f).Moves? && TokenStep(y, pos, c, data, t, g).Moves? && TokenStep(x, pos, c, data, t, f).next <= m
    ensures TokenStep(y, pos, c, data, t, g) == TokenStep(x, pos, c, data, t, f)
  {
    StaysInMessage(x, pos, c, data, t, f);
    StaysInMessage(y, pos, c, data, t, g);
    if t.kind != Space && t.kind != Comment {
      TwinPlain(x, y, m, pos, c, data, t);
    }
  }

  lemma StepEnds(s: bytes, pos: nat, c: Context, data: bool, m: nat)
    requires pos < m <= |s| && PathAt(s, pos) == 0 && StepAt(s, pos, c, data).Moves? && StepAt(s, pos, c, data).next <= m
    ensures TokenAt(s, pos, false).end <= m
    ensures StepAt(s, pos, c, data) == TokenStep(s, pos, c, data, TokenAt(s, pos, false), MarkerAt(s, pos))
  {
    StaysInMessage(s, pos, c, data, TokenAt(s, pos, false), MarkerAt(s, pos));
  }

  lemma PathIsStep(s: bytes, pos: nat, c: Context, data: bool)
    requires pos <= |s| && StepAt(s, pos, c, data).Moves?
    ensures PathAt(s, pos) > 0 ==> StepAt(s, pos, c, data) == Moves(Some(Mask), PathAt(s, pos), AfterValue(true))
  {
  }

  lemma TwinStep(x: bytes, y: bytes, m: nat, pos: nat, c: Context, data: bool)
    requires AreTwins(x, y, m) && pos < m && StepAt(x, pos, c, data).Moves? && StepAt(y, pos, c, data).Moves?
    requires StepAt(x, pos, c, data).next <= m && StepAt(y, pos, c, data).next <= m
    ensures StepAt(y, pos, c, data) == StepAt(x, pos, c, data)
  {
    PathIsStep(x, pos, c, data);
    PathIsStep(y, pos, c, data);
    TwinPaths(x, y, m, pos);
    if PathAt(x, pos) == 0 {
      StepEnds(x, pos, c, data, m);
      StepEnds(y, pos, c, data, m);
      TwinTokens(x, y, m, pos);
      TwinTokenStep(x, y, m, pos, c, data, TokenAt(x, pos, false), MarkerAt(x, pos), MarkerAt(y, pos));
    }
  }

  lemma ReachesOn(s: bytes, pos: nat, c: Context, data: bool, m: nat, d: Context) returns (step: Move)
    requires pos < m <= |s| && Reaches(s, pos, c, data, m, d)
    ensures step == StepAt(s, pos, c, data) && step.Moves? && pos < step.next <= m && Reaches(s, step.next, step.ctx, data, m, d)
  {
    step := StepAt(s, pos, c, data);
    assert step.next == m || step.next < m;
  }

  /** What reads alike from a place before the quote on reads alike from before that place on. */
  lemma {:induction false} TwinsReach(x: bytes, y: bytes, m: nat, r: nat, pos: nat, c: Context, data: bool, d: Context, e: Context)
    requires AreTwins(x, y, m) && pos <= r <= m && Reaches(x, pos, c, data, r, d) && Reaches(y, pos, c, data, r, e)
    ensures d == e && (ReadAlike(x, r, y, r, d, data) ==> ReadAlike(x, pos, y, pos, c, data))
    decreases r - pos
  {
    if pos < r {
      var f := ReachesOn(x, pos, c, data, r, d);
      var g := ReachesOn(y, pos, c, data, r, e);
      TwinStep(x, y, m, pos, c, data);
      TwinsReach(x, y, m, r, f.next, f.ctx, data, d, e);
      SameStepsAlike(x, pos, f, y, pos, g, c, data);
    }
  }
}
