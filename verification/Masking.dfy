/**
 * What the masker makes of a message, in two steps. Reading turns the message into a script of
 * acts in which no literal, path, id, value or comment is left. Writing turns the script into the
 * template: it numbers placeholders, fuses them with the words they touch, collapses lists of
 * literals and stops at the limit.
 */
module Masking {
  import opened Bytes
  import opened Tokenizer
  import opened Rules
  import Numbers

  /** The most bytes a template keeps before its ellipsis. */
  const LIMIT: nat := 1024

  datatype Act =
    | Gap                                // white space or a comment
    | Mask                               // a value: its text is not kept
    | Key                                // '=' after a key, and the value behind it
    | Text(kind: Kind, text: bytes)      // a token that stays
    | Mark(words: bytes, named: bool)    // a statement marker
    | Plan                               // "plan:", where the template stops

  datatype Script = Done | Then(act: Act, rest: Script)

  // ----- Reading -----

  /** What reading a message carries from token to token. */
  datatype Context = Context(first: bool, gap: bool, glued: bool, marker: bool,
                             prev: Kind, idNext: bool, named: bool, after: Phrase)

  const START := Context(true, false, false, true, Space, false, false, NoPhrase)

  function AfterValue(marker: bool): Context {
    Context(false, false, true, marker, Param, false, false, NoPhrase)
  }

  function AfterToken(c: Context, k: Kind, b: bytes, masked: bool): Context {
    var glued := masked || (c.glued && !c.gap && k == Word && b != [] && IsDigit(b[0]));
    Context(false, false, glued, glued, k, k == Word && IsIDWord(b), k == Word && IsNameWord(b), c.after.After(k, b))
  }

  /** The token of kind k and text b becomes a placeholder; data says that the SQLSTATE is in class 22 or 23. */
  predicate IsMasked(c: Context, k: Kind, b: bytes, data: bool) {
    || MasksLiteral(k)
    || (k == Word && c.idNext && HasDigit(b))
    || (k == Ident && ((data && !c.named) || c.after == Data || IsQuotedValue(b)))
  }

  predicate MarkerPlace(c: Context, k: Kind) { c.marker && (c.gap || c.first) && k == Word }

  function ReadMessage(s: bytes, pos: nat, c: Context, data: bool): Script
    requires pos <= |s|
    decreases |s| - pos, 3
  {
    var path := PathAt(s, pos);
    if path > 0 then Then(Mask, ReadMessage(s, path, AfterValue(true), data))
    else if pos == |s| then Done
    else ReadToken(s, pos, c, data, TokenAt(s, pos, false))
  }

  function ReadToken(s: bytes, pos: nat, c: Context, data: bool, t: Token): Script
    requires pos < t.end <= |s|
    decreases |s| - pos, 2
  {
    var b := s[pos..t.end];
    if t.kind == Space || t.kind == Comment then
      var rest := ReadMessage(s, t.end, c.(gap := !c.first, prev := Space), data);
      if c.first then rest else Then(Gap, rest)
    else if MarkerPlace(c, t.kind) && !c.first && b == Ascii("plan") && ColonEnds(s, t.end) then Then(Plan, Done)
    else ReadMarked(s, pos, c, data, t, if MarkerPlace(c, t.kind) then MarkerAt(s, pos) else NoMarker)
  }

  /** A token that the marker m, if any, starts with. */
  function ReadMarked(s: bytes, pos: nat, c: Context, data: bool, t: Token, m: Marker): Script
    requires pos < t.end <= |s| && (m.Marker? ==> m.colon < |s|)
    decreases |s| - pos, 1
  {
    if m.Marker? then Then(Mark(m.words, m.head < m.colon), ReadStatement(s, m.colon + 1))
    else ReadPlain(s, pos, c, data, t)
  }

  /** A token that is neither white space nor a marker. */
  function ReadPlain(s: bytes, pos: nat, c: Context, data: bool, t: Token): Script
    requires pos < t.end <= |s|
    decreases |s| - pos, 0
  {
    if t.kind == Punct && s[pos] == EQUALS && c.prev == Word then
      Then(Key, ReadMessage(s, ValueEnd(s, t.end), AfterValue(false), data))
    else
      var b := s[pos..t.end];
      var masked := IsMasked(c, t.kind, b, data);
      Then(if masked then Mask else Text(t.kind, b), ReadMessage(s, t.end, AfterToken(c, t.kind, b, masked), data))
  }

  /** In a statement an act depends on its token alone. */
  function ActOf(k: Kind, b: bytes): Act {
    if k == Space || k == Comment then Gap else if MasksLiteral(k) then Mask else Text(k, b)
  }

  function ReadStatement(s: bytes, pos: nat): Script
    requires pos <= |s|
    decreases |s| - pos
  {
    if pos == |s| then Done
    else
      var t := TokenAt(s, pos, true);
      Then(ActOf(t.kind, s[pos..t.end]), ReadStatement(s, t.end))
  }

  // ----- The list automaton -----

  datatype Step = Outside | Keyword | Elem | Sep | Closed | Next | Fuse

  datatype List = List(step: Step, values: bool, start: nat, n: nat, kw: bool, kwValues: bool)

  const NO_LIST := List(Outside, false, 0, 0, false, false)

  datatype Action = Keep | Open | Collapse | CollapseClose

  predicate IsPunct(a: Act, c: byte) { a == Text(Punct, [c]) }

  predicate IsWord(a: Act, w: bytes) { a.Text? && a.kind == Word && EqualFold(a.text, w) }

  predicate IsIn(a: Act) { IsWord(a, Ascii("in")) }

  predicate IsValues(a: Act) { IsWord(a, Ascii("values")) }

  /** A token that a literal right after it takes with it. */
  predicate Joins(a: Act) { a.Text? && (a.kind == Word || IsPunct(a, DOLLAR)) }

  /** A word that a placeholder right before it takes with it. */
  predicate IsDigitWord(a: Act) { a.Text? && a.kind == Word && a.text != [] && IsDigit(a.text[0]) }

  /** The list after a token that belongs to no list. */
  function Restart(l: List, a: Act): List {
    if IsIn(a) then l.(step := Keyword, values := false)
    else if IsValues(a) then l.(step := Keyword, values := true)
    else l.(step := Outside)
  }

  function NoteKeyword(l: List, a: Act): List { l.(kw := IsIn(a) || IsValues(a), kwValues := IsValues(a)) }

  /** A run of words that no literal follows is read as if its last word had been read on its own. */
  function Settle(l: List, a: Act, adjacent: bool): List {
    if l.step == Fuse && !(adjacent && (a == Mask || Joins(a)))
    then l.(step := if l.kw then Keyword else Outside, values := l.kwValues)
    else l
  }

  /** The step that goes on with the list, if the token does. */
  function NextStep(step: Step, values: bool, a: Act, adjacent: bool): Option<Step> {
    match step
    case Outside => None
    case Keyword => if IsPunct(a, LPAREN) then Some(Elem) else None
    case Next => if IsPunct(a, LPAREN) then Some(Elem) else None
    case Elem => if a == Mask then Some(Sep) else if Joins(a) then Some(Fuse) else None
    case Fuse => Some(if a == Mask then Sep else Fuse)
    case Sep =>
      if adjacent && IsDigitWord(a) then Some(Sep)
      else if IsPunct(a, COMMA) then Some(Elem)
      else if IsPunct(a, RPAREN) then Some(if values then Closed else Outside)
      else None
    case Closed => if IsPunct(a, COMMA) then Some(Next) else None
  }

  function Advance(l: List, a: Act, adjacent: bool): List {
    var next := NextStep(l.step, l.values, a, adjacent);
    if next.None? then Restart(l, a)
    else if next.value == Fuse then NoteKeyword(l.(step := Fuse), a)
    else l.(step := next.value)
  }

  function ActionOf(l: List, a: Act): Action {
    match l.step
    case Keyword => if IsPunct(a, LPAREN) then Open else Keep
    case Sep => if IsPunct(a, RPAREN) && !l.values then CollapseClose else Keep
    case Closed => if IsPunct(a, COMMA) then Keep else Collapse
    case _ => Keep
  }

  // ----- Writing -----

  /**
   * The template so far: out is what has been written, n how many placeholders it has, fuse the
   * start in out of the run of words and '$' that out ends with (-1 for none), glued that it ends
   * with a placeholder, space that a space is due before the next token.
   */
  datatype Draft = Draft(out: bytes, n: nat, fuse: int, glued: bool, space: bool, stmt: bool, plan: bool, list: List)

  const EMPTY := Draft([], 0, -1, false, false, false, false, NO_LIST)

  function Placeholder(n: nat): bytes { [DOLLAR] + Numbers.Decimal(n) }

  function Dots(): bytes { [LPAREN, DOT, DOT, DOT, RPAREN] }

  function Flush(d: Draft): Draft {
    if d.space then d.(out := d.out + [SPACE], fuse := -1, glued := false, space := false) else d
  }

  /**
   * What stays before a placeholder. After the draft was cut back, its run may start one byte past
   * its end; the byte there is still the space that was written before the run.
   */
  function Kept(d: Draft): bytes {
    if d.fuse < 0 then d.out else if d.fuse <= |d.out| then d.out[..d.fuse] else d.out + [SPACE]
  }

  function Masked(d: Draft): Draft {
    d.(out := Kept(d) + Placeholder(d.n + 1), n := d.n + 1, fuse := -1, glued := true)
  }

  function Collapsed(d: Draft): Draft {
    d.(out := d.out[..Min(d.list.start, |d.out|)] + Dots(), n := d.list.n, fuse := -1, glued := false)
  }

  /** The part of a token that is copied: when bounded, only up to one byte past the limit. */
  function Fitting(d: Draft, b: bytes, bounded: bool): bytes {
    if bounded then b[..Min(|b|, Max(0, LIMIT + 1 - |d.out|))] else b
  }

  function Copied(d: Draft, a: Act, bounded: bool): Draft
    requires a.Text?
  {
    d.(out := d.out + Fitting(d, a.text, bounded),
       fuse := if !Joins(a) then -1 else if d.fuse < 0 then |d.out| else d.fuse,
       glued := false)
  }

  /** The draft with the token a, whose white space is written already. */
  function Write(d: Draft, a: Act, bounded: bool): Draft
    requires a == Mask || a.Text?
  {
    if a == Mask then Masked(d)
    else if d.glued && IsDigitWord(a) then d
    else Copied(d, a, bounded)
  }

  function Opened(d: Draft): Draft { d.(list := d.list.(start := |d.out|, n := d.n)) }

  /** The draft with one more token of a statement. */
  function PutInStatement(d: Draft, a: Act, bounded: bool): Draft
    requires a == Mask || a.Text?
  {
    var l := Settle(d.list, a, !d.space);
    var e := d.(list := Advance(l, a, !d.space));
    match ActionOf(l, a)
    case Keep => Write(Flush(e), a, bounded)
    case Open => Write(Opened(Flush(e)), a, bounded)
    case Collapse => Write(Flush(Collapsed(e)), a, bounded)
    case CollapseClose => Collapsed(e).(space := false)
  }

  function PutKey(d: Draft): Draft {
    var f := Flush(d);
    Masked(f.(out := f.out + [EQUALS], fuse := -1))
  }

  function PutMark(d: Draft, words: bytes, named: bool): Draft {
    var f := Flush(d);
    var g := f.(out := f.out + words, fuse := -1);
    var h := if named then Masked(g) else g;
    h.(out := h.out + [COLON], fuse := -1, glued := false, stmt := true)
  }

  function PutPlan(d: Draft): Draft {
    var f := Flush(d);
    f.(out := f.out + Ascii("plan: "), plan := true)
  }

  function Put(d: Draft, a: Act, bounded: bool): Draft {
    match a
    case Gap => d.(space := true)
    case Key => PutKey(d)
    case Mark(words, named) => PutMark(d, words, named)
    case Plan => PutPlan(d)
    case _ => if d.stmt then PutInStatement(d, a, bounded) else Write(Flush(d), a, bounded)
  }

  /** A list that began within the limit and may still collapse. */
  predicate Pending(d: Draft) {
    d.list.step in {Elem, Sep, Closed, Next, Fuse} && d.list.start <= LIMIT
  }

  predicate Stopped(d: Draft) { |d.out| > LIMIT && !Pending(d) }

  function CutBack(d: Draft): Draft {
    if |d.out| > LIMIT then d.(out := d.out[..LIMIT + 1]) else d
  }

  /** The draft when the script is done, or when it has passed the limit and is bounded. */
  function Run(s: Script, d: Draft, bounded: bool): Draft
    decreases s
  {
    if bounded && Stopped(d) then d
    else
      var e := if bounded then CutBack(d) else d;
      match s
      case Done => if e.list.step == Closed then Collapsed(e) else e
      case Then(a, rest) => if a == Plan then PutPlan(e) else Run(rest, Put(e, a, bounded), bounded)
  }

  /** The draft of a message when its reading is over. */
  function Drafted(s: bytes, data: bool): Draft { Run(ReadMessage(s, 0, START, data), EMPTY, true) }
}
