/** What a placeholder takes with it: the words and '$' right before it, and a word with a digit at its head right behind it. */
module Fusion {
  import opened Bytes
  import opened Tokenizer
  import opened Masking
  import opened ListGrammar

  lemma Skips(rest: Script, b: bytes)
    requires b != [] && 48 <= b[0] <= 57
    ensures SkipDigitWords(Then(Text(Word, b), rest)) == SkipDigitWords(rest)
  {
  }

  /** A word, or a '$', right before a value goes with it. */
  lemma WordGoesWithValue(out: bytes, a: Act, rest: Script, gap: bool, n: nat, stmt: bool)
    requires a.Text? && (a.kind == Word || (a.kind == Punct && a.text == [36]))
    ensures Spell(out, Then(a, Then(Mask, rest)), gap, n, stmt) == Spell(out, Then(Mask, rest), gap, n, stmt)
  {
    assert AfterValueAt(Then(a, Then(Mask, rest))) == Some(SkipDigitWords(rest));
  }

  /** Anything else stays before it. */
  lemma OtherStays(out: bytes, a: Act, rest: Script, gap: bool, n: nat, stmt: bool)
    requires a.Text? && a.kind != Word && !(a.kind == Punct && a.text == [36])
    ensures Spell(out, Then(a, Then(Mask, rest)), gap, n, stmt) == Spell(Spaced(out, gap) + a.text, Then(Mask, rest), false, n, stmt)
  {
    assert AfterValueAt(Then(a, Then(Mask, rest))).None?;
    assert ListAfter(a, Then(Mask, rest)).None?;
  }

  /** White space between them keeps a word, unless a list of values is opened behind it. */
  lemma SpacedWordStays(out: bytes, b: bytes, rest: Script, gap: bool, n: nat)
    ensures Spell(out, Then(Text(Word, b), Then(Gap, Then(Mask, rest))), gap, n, false)
      == Spell(Spaced(out, gap) + b + [32], Then(Mask, rest), false, n, false)
  {
    assert AfterValueAt(Then(Text(Word, b), Then(Gap, Then(Mask, rest)))).None?;
    assert Spaced(Spaced(out, gap) + b, true) == Spaced(out, gap) + b + [32];
    GapIsSpelled(Spaced(out, gap) + b, Then(Mask, rest), n);
  }

  lemma GapIsSpelled(out: bytes, r: Script, n: nat)
    requires r.Then? && r.act == Mask
    ensures Spell(out, Then(Gap, r), false, n, false) == Spell(out + [32], r, false, n, false)
  {
    assert Spaced(out, true) == out + [32] && Spaced(out + [32], false) == out + [32];
  }

  /** A word right behind a value goes with it if a digit is at its head; otherwise it stays. */
  lemma DigitWordGoesWithValue(out: bytes, b: bytes, rest: Script, gap: bool, n: nat, stmt: bool)
    requires b != []
    ensures 48 <= b[0] <= 57 ==>
      Spell(out, Then(Mask, Then(Text(Word, b), rest)), gap, n, stmt) == Spell(out, Then(Mask, rest), gap, n, stmt)
    ensures !(48 <= b[0] <= 57) ==>
      Spell(out, Then(Mask, Then(Text(Word, b), rest)), gap, n, stmt)
        == Spell(Spaced(out, gap) + Placeholder(n + 1), Then(Text(Word, b), rest), false, n + 1, stmt)
  {
    if 48 <= b[0] <= 57 {
      Skips(rest, b);
    }
  }

  /** Of a key and its value "=" and a placeholder are written. */
  lemma KeyIsSpelled(out: bytes, rest: Script, gap: bool, n: nat, stmt: bool)
    ensures Spell(out, Then(Key, rest), gap, n, stmt) == Spell(Spaced(out, gap) + [61] + Placeholder(n + 1), SkipDigitWords(rest), false, n + 1, stmt)
  {
  }

  /** "plan: " is the end. */
  lemma PlanIsSpelled(out: bytes, rest: Script, gap: bool, n: nat, stmt: bool)
    ensures Spell(out, Then(Plan, rest), gap, n, stmt) == (if gap then out + [32] else out) + [112, 108, 97, 110, 58, 32]
  {
    assert Ascii("plan: ") == [112, 108, 97, 110, 58, 32];
  }
}
