/** Reading a message one step at a time. */
module Steps {
  import opened Bytes
  import opened Tokenizer
  import opened Rules
  import opened Masking

  /** What reading does at a position: where it goes on, with which act behind it. */
  datatype Move =
    | Finished
    | Moves(act: Option<Act>, next: nat, ctx: Context)
    | IntoStatement(words: bytes, named: bool, start: nat)
    | AtPlan

  /** The act, if any, does not leave the message. */
  predicate StaysHere(m: Move)
    requires m.Moves?
  {
    m.act.Some? ==> !m.act.value.Mark? && !m.act.value.Plan?
  }

  function StepAt(s: bytes, pos: nat, c: Context, data: bool): (m: Move)
    requires pos <= |s|
    ensures m.Moves? ==> pos < m.next <= |s| && StaysHere(m)
    ensures m.IntoStatement? ==> pos < m.start <= |s| && s[m.start - 1] == COLON
  {
    var path := PathAt(s, pos);
    if path > 0 then Moves(Some(Mask), path, AfterValue(true))
    else if pos == |s| then Finished
    else TokenStep(s, pos, c, data, TokenAt(s, pos, false), MarkerAt(s, pos))
  }

  /** The marker found, if any, is behind pos. */
  predicate FoundIn(s: bytes, pos: nat, found: Marker) { found.Marker? ==> pos < found.colon < |s| && s[found.colon] == COLON }

  /** The step over the token t, which the marker found, if any, starts with. */
  function TokenStep(s: bytes, pos: nat, c: Context, data: bool, t: Token, found: Marker): (m: Move)
    requires pos < t.end <= |s| && FoundIn(s, pos, found)
    ensures m.Moves? ==> pos < m.next <= |s| && StaysHere(m)
    ensures m.IntoStatement? ==> pos < m.start <= |s| && s[m.start - 1] == COLON
  {
    if t.kind == Space || t.kind == Comment then
      Moves(if c.first then None else Some(Gap), t.end, c.(gap := !c.first, prev := Space))
    else if IsPlanAt(s, pos, c, t) then AtPlan
    else if MarkerPlace(c, t.kind) && found.Marker? then IntoStatement(found.words, found.head < found.colon, found.colon + 1)
    else PlainStep(s, pos, c, data, t)
  }

  /** "plan:" is at pos, where a marker may stand. */
  predicate IsPlanAt(s: bytes, pos: nat, c: Context, t: Token)
    requires pos < t.end <= |s|
  {
    MarkerPlace(c, t.kind) && !c.first && s[pos..t.end] == Ascii("plan") && ColonEnds(s, t.end)
  }

  function PlainStep(s: bytes, pos: nat, c: Context, data: bool, t: Token): (m: Move)
    requires pos < t.end <= |s|
    ensures m.Moves? && pos < m.next <= |s| && StaysHere(m)
  {
    if t.kind == Punct && s[pos] == EQUALS && c.prev == Word then Moves(Some(Key), ValueEnd(s, t.end), AfterValue(false))
    else
      var b := s[pos..t.end];
      var masked := IsMasked(c, t.kind, b, data);
      Moves(Some(if masked then Mask else Text(t.kind, b)), t.end, AfterToken(c, t.kind, b, masked))
  }

  /** What is read from a step on. */
  function Behind(s: bytes, m: Move, data: bool): Script
    requires (m.Moves? ==> m.next <= |s|) && (m.IntoStatement? ==> m.start <= |s|)
  {
    match m
    case Finished => Done
    case AtPlan => Then(Plan, Done)
    case IntoStatement(words, named, start) => Then(Mark(words, named), ReadStatement(s, start))
    case Moves(act, next, ctx) =>
      if act.None? then ReadMessage(s, next, ctx, data) else Then(act.value, ReadMessage(s, next, ctx, data))
  }

  lemma PlainReads(s: bytes, pos: nat, c: Context, data: bool, t: Token)
    requires pos < t.end <= |s|
    ensures ReadPlain(s, pos, c, data, t) == Behind(s, PlainStep(s, pos, c, data, t), data)
  {
  }

  lemma GapReads(s: bytes, pos: nat, c: Context, data: bool, t: Token, found: Marker)
    requires pos < t.end <= |s| && FoundIn(s, pos, found) && (t.kind == Space || t.kind == Comment)
    ensures ReadToken(s, pos, c, data, t) == Behind(s, TokenStep(s, pos, c, data, t, found), data)
  {
  }

  lemma PlanReads(s: bytes, pos: nat, c: Context, data: bool, t: Token, found: Marker)
    requires pos < t.end <= |s| && FoundIn(s, pos, found) && t.kind != Space && t.kind != Comment
    requires IsPlanAt(s, pos, c, t)
    ensures ReadToken(s, pos, c, data, t) == Behind(s, TokenStep(s, pos, c, data, t, found), data)
  {
  }

  /** The marker that t starts with, if one may stand there. */
  function MarkerHere(c: Context, t: Token, found: Marker): Marker { if MarkerPlace(c, t.kind) then found else NoMarker }

  lemma MarkedReads(s: bytes, pos: nat, c: Context, data: bool, t: Token, found: Marker)
    requires pos < t.end <= |s| && FoundIn(s, pos, found) && t.kind != Space && t.kind != Comment
    requires !IsPlanAt(s, pos, c, t) && found == MarkerAt(s, pos)
    ensures ReadToken(s, pos, c, data, t) == ReadMarked(s, pos, c, data, t, MarkerHere(c, t, found))
  {
  }

  lemma MarkReads(s: bytes, pos: nat, c: Context, data: bool, t: Token, m: Marker)
    requires pos < t.end <= |s| && m.Marker? && m.colon < |s|
    ensures ReadMarked(s, pos, c, data, t, m) == Behind(s, IntoStatement(m.words, m.head < m.colon, m.colon + 1), data)
  {
  }

  lemma NoMarkReads(s: bytes, pos: nat, c: Context, data: bool, t: Token)
    requires pos < t.end <= |s|
    ensures ReadMarked(s, pos, c, data, t, NoMarker) == Behind(s, PlainStep(s, pos, c, data, t), data)
  {
    PlainReads(s, pos, c, data, t);
  }

  lemma MarkedStep(s: bytes, pos: nat, c: Context, data: bool, t: Token, found: Marker, m: Marker)
    requires pos < t.end <= |s| && FoundIn(s, pos, found) && t.kind != Space && t.kind != Comment
    requires !IsPlanAt(s, pos, c, t) && m == MarkerHere(c, t, found)
    ensures TokenStep(s, pos, c, data, t, found) ==
      if m.Marker? then IntoStatement(m.words, m.head < m.colon, m.colon + 1) else PlainStep(s, pos, c, data, t)
  {
  }

  lemma OtherReads(s: bytes, pos: nat, c: Context, data: bool, t: Token, found: Marker, m: Marker)
    requires pos < t.end <= |s| && FoundIn(s, pos, found) && t.kind != Space && t.kind != Comment
    requires !IsPlanAt(s, pos, c, t) && found == MarkerAt(s, pos) && m == MarkerHere(c, t, found)
    ensures ReadToken(s, pos, c, data, t) == Behind(s, TokenStep(s, pos, c, data, t, found), data)
  {
    MarkedReads(s, pos, c, data, t, found);
    MarkedStep(s, pos, c, data, t, found, m);
    if m.Marker? {
      MarkReads(s, pos, c, data, t, m);
    } else {
      NoMarkReads(s, pos, c, data, t);
    }
  }

  lemma TokenReads(s: bytes, pos: nat, c: Context, data: bool, t: Token, found: Marker)
    requires pos < t.end <= |s| && found == MarkerAt(s, pos)
    ensures ReadToken(s, pos, c, data, t) == Behind(s, TokenStep(s, pos, c, data, t, found), data)
  {
    if t.kind == Space || t.kind == Comment {
      GapReads(s, pos, c, data, t, found);
    } else if IsPlanAt(s, pos, c, t) {
      PlanReads(s, pos, c, data, t, found);
    } else {
      OtherReads(s, pos, c, data, t, found, MarkerHere(c, t, found));
    }
  }

  /** Reading is its steps. */
  lemma ReadsByStep(s: bytes, pos: nat, c: Context, data: bool)
    requires pos <= |s|
    ensures ReadMessage(s, pos, c, data) == Behind(s, StepAt(s, pos, c, data), data)
  {
    if PathAt(s, pos) == 0 && pos < |s| {
      TokenReads(s, pos, c, data, TokenAt(s, pos, false), MarkerAt(s, pos));
    }
  }

  // ----- Reading alike -----

  /** s from k on and r from i on read the same. */
  ghost predicate ReadAlike(s: bytes, k: nat, r: bytes, i: nat, c: Context, data: bool) {
    k <= |s| && i <= |r| && ReadMessage(s, k, c, data) == ReadMessage(r, i, c, data)
  }

  /** Steps that differ only in where they lead. */
  predicate SameButPlaces(m: Move, n: Move) {
    match m
    case Moves(act, _, ctx) => n.Moves? && n.act == act && n.ctx == ctx
    case IntoStatement(words, named, _) => n.IntoStatement? && n.words == words && n.named == named
    case _ => m == n
  }

  /** The steps m and n lead to places inside; if these read alike, so do k and i. */
  ghost predicate LeadsAlike(s: bytes, k: nat, m: Move, r: bytes, i: nat, n: Move, c: Context, data: bool) {
    && (m.Moves? && n.Moves? ==>
          k < m.next <= |s| && i < n.next <= |r| && (ReadAlike(s, m.next, r, n.next, n.ctx, data) ==> ReadAlike(s, k, r, i, c, data)))
    && (m.IntoStatement? && n.IntoStatement? ==>
          && k < m.start <= |s| && i < n.start <= |r| && r[n.start - 1] == COLON
          && (ReadStatement(s, m.start) == ReadStatement(r, n.start) ==> ReadAlike(s, k, r, i, c, data)))
    && (m == n && !m.Moves? && !m.IntoStatement? ==> ReadAlike(s, k, r, i, c, data))
  }

  lemma SameStepsAlike(s: bytes, k: nat, m: Move, r: bytes, i: nat, n: Move, c: Context, data: bool)
    requires k <= |s| && i <= |r| && m == StepAt(s, k, c, data) && n == StepAt(r, i, c, data) && SameButPlaces(m, n)
    ensures LeadsAlike(s, k, m, r, i, n, c, data)
  {
    ReadsByStep(s, k, c, data);
    ReadsByStep(r, i, c, data);
  }

  /** A step into a statement. */
  lemma StatementReads(s: bytes, pos: nat, c: Context, data: bool, words: bytes, named: bool, start: nat)
    requires pos <= |s| && StepAt(s, pos, c, data) == IntoStatement(words, named, start)
    ensures start <= |s| && ReadMessage(s, pos, c, data) == Then(Mark(words, named), ReadStatement(s, start))
  {
    ReadsByStep(s, pos, c, data);
  }

  /** Reading from pos on with the context c comes to m with the context d, still in the message. */
  ghost predicate Reaches(s: bytes, pos: nat, c: Context, data: bool, m: nat, d: Context)
    requires pos <= |s|
    decreases |s| - pos
  {
    if pos == m then c == d
    else
      var step := StepAt(s, pos, c, data);
      pos < m && step.Moves? && Reaches(s, step.next, step.ctx, data, m, d)
  }
}
