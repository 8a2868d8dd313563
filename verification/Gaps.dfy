/** White space in a script: a run of gaps is one gap, and gaps at the end are none. */
module Gaps {
  import opened Bytes
  import opened Masking
  import opened ListGrammar

  /** The same acts with the same spacing. */
  predicate SameActs(s: Script, r: Script)
    decreases Len(s)
  {
    var a, b := SkipGaps(s), SkipGaps(r);
    if a.Done? || b.Done? then a == b
    else (StartsGap(s) <==> StartsGap(r)) && a.act == b.act && SameActs(a.rest, b.rest)
  }

  lemma {:induction false} SameIsSame(s: Script)
    ensures SameActs(s, s)
    decreases Len(s)
  {
    var a := SkipGaps(s);
    if a.Then? {
      SameIsSame(a.rest);
    }
  }

  lemma ThenSame(a: Act, s: Script, r: Script)
    requires SameActs(s, r)
    ensures SameActs(Then(a, s), Then(a, r))
  {
    if a != Gap {
      assert SkipGaps(Then(a, s)) == Then(a, s) && SkipGaps(Then(a, r)) == Then(a, r);
    }
  }

  /** What a gap does to a draft. */
  function Spaced(d: Draft): Draft { CutBack(d).(space := true) }

  lemma SpacedOnce(d: Draft)
    requires !Stopped(d)
    ensures !Stopped(Spaced(d)) && Spaced(Spaced(d)) == Spaced(d)
  {
    if |d.out| > LIMIT {
      assert d.out[..LIMIT + 1][..LIMIT + 1] == d.out[..LIMIT + 1];
    }
  }

  lemma RunGap(s: Script, d: Draft)
    requires !Stopped(d)
    ensures Run(Then(Gap, s), d, true) == Run(s, Spaced(d), true)
  {
  }

  /** A run of gaps does what one gap does. */
  lemma {:induction false} RunGaps(s: Script, d: Draft)
    requires StartsGap(s) && !Stopped(d)
    ensures Run(s, d, true) == Run(SkipGaps(s), Spaced(d), true)
    decreases Len(s)
  {
    RunGap(s.rest, d);
    if StartsGap(s.rest) {
      SpacedOnce(d);
      RunGaps(s.rest, Spaced(d));
    }
  }

  lemma EndSpaced(d: Draft)
    requires !Stopped(d)
    ensures Run(Done, Spaced(d), true).out == Run(Done, d, true).out && Run(Done, Spaced(d), true).plan == Run(Done, d, true).plan
  {
    SpacedOnce(d);
    if |d.out| > LIMIT {
      assert d.out[..LIMIT + 1][..LIMIT + 1] == d.out[..LIMIT + 1];
    }
  }

  /** Gaps at the end change nothing. */
  lemma RunLastGaps(s: Script, d: Draft)
    requires SkipGaps(s).Done?
    ensures Run(s, d, true).out == Run(Done, d, true).out && Run(s, d, true).plan == Run(Done, d, true).plan
  {
    if !Stopped(d) && StartsGap(s) {
      RunGaps(s, d);
      EndSpaced(d);
    }
  }

  lemma RunAct(s: Script, d: Draft)
    requires s.Then? && s.act != Plan && !Stopped(d)
    ensures Run(s, d, true) == Run(s.rest, Put(CutBack(d), s.act, true), true)
  {
  }

  lemma {:induction false} RunSameHead(a: Script, b: Script, d: Draft)
    requires a.Then? && b.Then? && a.act == b.act && SameActs(a.rest, b.rest)
    ensures Run(a, d, true).out == Run(b, d, true).out && Run(a, d, true).plan == Run(b, d, true).plan
    decreases Len(a), 0
  {
    if !Stopped(d) && a.act != Plan {
      RunAct(a, d);
      RunAct(b, d);
      RunSame(a.rest, b.rest, Put(CutBack(d), a.act, true));
    }
  }

  /** Scripts with the same acts and the same spacing write the same template. */
  lemma {:induction false} RunSame(s: Script, r: Script, d: Draft)
    requires SameActs(s, r)
    ensures Run(s, d, true).out == Run(r, d, true).out && Run(s, d, true).plan == Run(r, d, true).plan
    decreases Len(s), 1
  {
    var a, b := SkipGaps(s), SkipGaps(r);
    if a.Done? {
      RunLastGaps(s, d);
      RunLastGaps(r, d);
    } else if !Stopped(d) {
      if StartsGap(s) {
        RunGaps(s, d);
        RunGaps(r, d);
        RunSameHead(a, b, Spaced(d));
      } else {
        RunSameHead(a, b, d);
      }
    }
  }
}
