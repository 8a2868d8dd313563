/** Ending a template: the cut at the limit and the ellipsis. */
module Cutting {
  import opened Bytes
  import opened Tokenizer
  import opened Masking
  import opened Utf8

  const ELLIPSIS: bytes := [0xE2, 0x80, 0xA6]

  predicate EndsWithEllipsis(out: bytes) { |out| >= 3 && out[|out| - 3..] == ELLIPSIS }

  /** The last edge of a character at or before cut. */
  function CharBack(out: bytes, cut: nat): (r: nat)
    requires cut < |out|
    ensures r <= cut && (r == 0 || !IsTail(out[r]))
  {
    if cut == 0 || !IsTail(out[cut]) then cut else CharBack(out, cut - 1)
  }

  function DigitsBack(out: bytes, i: nat): (j: nat)
    requires i <= |out|
    ensures j <= i && (j == 0 || !IsDigit(out[j - 1])) && forall k | j <= k < i :: IsDigit(out[k])
  {
    if i > 0 && IsDigit(out[i - 1]) then DigitsBack(out, i - 1) else i
  }

  /** The '$' of the placeholder whose digits end before i, or -1; split allows it to have no digits. */
  function PlaceholderBefore(out: bytes, i: nat, split: bool): (k: int)
    requires i <= |out|
    ensures -1 <= k < i
  {
    var j := DigitsBack(out, i);
    if (j < i || split) && j > 0 && out[j - 1] == DOLLAR then j - 1 else -1
  }

  function TrimNonWord(out: bytes, i: nat): (r: nat)
    requires i <= |out|
    ensures r <= i && (r == 0 || IsWordByte(out[r - 1])) && forall k | r <= k < i :: !IsWordByte(out[k])
  {
    if i > 0 && !IsWordByte(out[i - 1]) then TrimNonWord(out, i - 1) else i
  }

  /** Where a template past the limit is cut: before a character and a placeholder that the limit would split. */
  function WholeBefore(out: bytes): (k: nat)
    requires |out| > LIMIT
    ensures k <= LIMIT
  {
    var edge := CharBack(out, LIMIT);
    var p := if IsDigit(out[edge]) then PlaceholderBefore(out, edge, true) else -1;
    if p >= 0 then p else edge
  }

  /** How much of a template past the limit is kept. */
  function KeptBefore(out: bytes): (k: nat)
    requires |out| > LIMIT
    ensures k <= LIMIT
  {
    var cut := TrimNonWord(out, WholeBefore(out));
    var p := PlaceholderBefore(out, cut, false);
    if p >= 0 && cut == LIMIT then TrimNonWord(out, p) else cut
  }

  function CutTemplate(out: bytes, plan: bool): bytes {
    var n := if EndsWithEllipsis(out) then |out| - 3 else |out|;
    if n <= LIMIT then if plan then out + ELLIPSIS else out
    else
      var k := KeptBefore(out);
      if PlaceholderBefore(out, k, false) >= 0 then out[..k] + [SPACE] + ELLIPSIS else out[..k] + ELLIPSIS
  }

  // ----- What a cut keeps -----

  /** Cutting at k would split a placeholder: '$' and digits before it, a digit behind it. */
  ghost predicate SplitsPlaceholder(out: bytes, k: nat) {
    k < |out| && IsDigit(out[k]) && exists a | 0 <= a < k :: out[a] == DOLLAR && forall i | a < i < k :: IsDigit(out[i])
  }

  lemma PlaceholderFound(out: bytes, k: nat, a: nat)
    requires a < k <= |out| && out[a] == DOLLAR && forall i | a < i < k :: IsDigit(out[i])
    ensures PlaceholderBefore(out, k, true) == a
  {
    assert DigitsBack(out, k) == a + 1;
  }

  lemma NoSplitAtNonDigit(out: bytes, k: nat)
    requires k < |out| && (IsDigit(out[k]) ==> PlaceholderBefore(out, k, true) < 0)
    ensures !SplitsPlaceholder(out, k)
  {
    if SplitsPlaceholder(out, k) {
      var a :| 0 <= a < k && out[a] == DOLLAR && forall i | a < i < k :: IsDigit(out[i]);
      PlaceholderFound(out, k, a);
    }
  }

  lemma WholeIsWhole(out: bytes)
    requires |out| > LIMIT
    ensures var k := WholeBefore(out); !SplitsPlaceholder(out, k) && (k == 0 || !IsTail(out[k]))
  {
    NoSplitAtNonDigit(out, WholeBefore(out));
  }

  lemma TrimmedIsWhole(out: bytes, i: nat)
    requires i < |out| && !SplitsPlaceholder(out, i) && (i == 0 || !IsTail(out[i]))
    ensures var k := TrimNonWord(out, i); !SplitsPlaceholder(out, k) && (k == 0 || !IsTail(out[k]))
  {
    var k := TrimNonWord(out, i);
    if k < i {
      assert !IsWordByte(out[k]);
    }
  }

  /** The cut never splits a character or a placeholder, and the text before it ends with a word byte. */
  lemma CutIsWhole(out: bytes)
    requires |out| > LIMIT
    ensures var k := KeptBefore(out);
      && k <= LIMIT && !SplitsPlaceholder(out, k)
      && (k == 0 || (!IsTail(out[k]) && IsWordByte(out[k - 1])))
  {
    WholeIsWhole(out);
    TrimmedIsWhole(out, WholeBefore(out));
    var cut := TrimNonWord(out, WholeBefore(out));
    var p := PlaceholderBefore(out, cut, false);
    if p >= 0 {
      assert out[p] == DOLLAR;
      TrimmedIsWhole(out, p);
    }
  }

  /** A template is at most the limit and an ellipsis long. */
  lemma CutIsShort(out: bytes, plan: bool)
    requires plan ==> !EndsWithEllipsis(out)
    ensures |CutTemplate(out, plan)| <= LIMIT + 3
  {
  }

  /** Cutting a template that was cut already changes nothing. */
  lemma CutIsStable(out: bytes, plan: bool)
    requires plan ==> !EndsWithEllipsis(out)
    ensures CutTemplate(CutTemplate(out, plan), false) == CutTemplate(out, plan)
  {
    CutIsShort(out, plan);
    var t := CutTemplate(out, plan);
    if t != out {
      assert t[|t| - 3..] == ELLIPSIS;
    }
  }

  // ----- The cut keeps as much as it may -----

  lemma {:induction false} TailsAreSkipped(out: bytes, cut: nat, j: nat)
    requires cut < |out| && CharBack(out, cut) < j <= cut
    ensures IsTail(out[j])
    decreases cut
  {
    if j < cut {
      TailsAreSkipped(out, cut - 1, j);
    }
  }

  /** A '$' and digits, at least one, end right before i. */
  ghost predicate EndsInPlaceholder(out: bytes, i: nat) {
    i <= |out| && exists a: nat {:trigger out[a]} | a < i - 1 :: out[a] == 36 && forall j | a < j < i :: 48 <= out[j] <= 57
  }

  lemma PlaceholderEnds(out: bytes, i: nat)
    requires i <= |out|
    ensures PlaceholderBefore(out, i, false) >= 0 <==> EndsInPlaceholder(out, i)
  {
    var p := PlaceholderBefore(out, i, false);
    if p >= 0 {
      assert out[p] == 36 && forall j | p < j < i :: 48 <= out[j] <= 57;
    }
    if EndsInPlaceholder(out, i) {
      var a: nat :| a < i - 1 && out[a] == 36 && forall j | a < j < i :: 48 <= out[j] <= 57;
      PlaceholderFound(out, i, a);
    }
  }

  lemma SplitBehind(out: bytes, p: nat, edge: nat, j: nat)
    requires p < j <= edge < |out| && out[p] == DOLLAR && IsDigit(out[edge]) && forall i | p < i < edge :: IsDigit(out[i])
    ensures SplitsPlaceholder(out, j)
  {
  }

  /** No place behind the one before characters and placeholders that the limit splits is whole. */
  lemma WholeIsLast(out: bytes, j: nat)
    requires |out| > LIMIT && WholeBefore(out) < j <= LIMIT
    ensures IsTail(out[j]) || SplitsPlaceholder(out, j)
  {
    var edge := CharBack(out, LIMIT);
    if j > edge {
      TailsAreSkipped(out, LIMIT, j);
    } else {
      SplitBehind(out, WholeBefore(out), edge, j);
    }
  }

  /**
   * A cut further on, at most behind the 1,024th byte, would split a character or a placeholder, or
   * end in something else than a word; unless a placeholder ends right there, which is cut whole.
   */
  lemma CutIsLongest(out: bytes, j: nat)
    requires |out| > 1024 && KeptBefore(out) < j <= 1024 && !IsTail(out[j]) && !SplitsPlaceholder(out, j) && IsWordByte(out[j - 1])
    ensures EndsInPlaceholder(out, 1024)
  {
    if j > WholeBefore(out) {
      WholeIsLast(out, j);
    }
    PlaceholderEnds(out, LIMIT);
  }

  /** A template past the limit is what is kept, a space if a placeholder ends it, and the ellipsis. */
  lemma CutEndsSo(out: bytes)
    requires |out| > 1024 && (|out| < 1028 ==> !EndsWithEllipsis(out))
    ensures CutTemplate(out, false) ==
      out[..KeptBefore(out)] + (if EndsInPlaceholder(out, KeptBefore(out)) then [32] else []) + [0xE2, 0x80, 0xA6]
  {
    PlaceholderEnds(out, KeptBefore(out));
    assert out[..KeptBefore(out)] + [] == out[..KeptBefore(out)];
  }
}
