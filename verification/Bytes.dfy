/** Bytes, byte sequences and the few library searches the parser is built on. */
module Bytes {
  type byte = b: int | 0 <= b < 256
  type bytes = seq<byte>

  datatype Option<+T> = None | Some(value: T)

  const TAB: byte := 9
  const LF: byte := 10
  const CR: byte := 13
  const SPACE: byte := 32
  const QUOTE: byte := 34
  const COMMA: byte := 44

  predicate IsDigit(c: byte) { 48 <= c <= 57 }

  predicate IsSpaceOrTab(c: byte) { c == SPACE || c == TAB }

  /** The bytes of an ASCII text. */
  function Ascii(s: string): (b: bytes)
    ensures |b| == |s| && forall i | 0 <= i < |b| :: b[i] < 0x80
  {
    seq(|s|, i requires 0 <= i < |s| => s[i] as int % 0x80)
  }

  /** The first index of c at or after from, or -1. */
  function IndexFrom(s: bytes, c: byte, from: nat): (i: int)
    requires from <= |s|
    ensures -1 <= i < |s|
    ensures i >= 0 ==> from <= i && s[i] == c && forall k | from <= k < i :: s[k] != c
    ensures i < 0 ==> forall k | from <= k < |s| :: s[k] != c
    decreases |s| - from
  {
    if from == |s| then -1
    else if s[from] == c then from
    else IndexFrom(s, c, from + 1)
  }

  /** The last index of c, or -1. */
  function LastIndexOf(s: bytes, c: byte): (i: int)
    ensures -1 <= i < |s|
    ensures i >= 0 ==> s[i] == c
    ensures forall k | i < k < |s| :: s[k] != c
  {
    if s == [] then -1
    else if s[|s| - 1] == c then |s| - 1
    else LastIndexOf(s[..|s| - 1], c)
  }

  /** How often c occurs in s[from..to]. */
  function CountIn(s: bytes, c: byte, from: nat, to: nat): nat
    requires from <= to <= |s|
    decreases |s| - from
  {
    if from == to then 0 else (if s[from] == c then 1 else 0) + CountIn(s, c, from + 1, to)
  }

  /** A line without the carriage return that may precede its newline. */
  function TrimCR(line: bytes): bytes {
    if |line| > 0 && line[|line| - 1] == CR then line[..|line| - 1] else line
  }

  function Min(a: int, b: int): int { if a <= b then a else b }

  function Max(a: int, b: int): int { if a >= b then a else b }

  /** Searching a slice finds what searching the whole from there finds, if it is inside the slice. */
  lemma SearchSlice(s: bytes, c: byte, from: nat, to: nat)
    requires from <= to <= |s|
    ensures var i := IndexFrom(s[from..to], c, 0);
      IndexFrom(s, c, from) == if i >= 0 then from + i else IndexFrom(s, c, to)
  {
    var slice := s[from..to];
    assert forall k | from <= k < to :: s[k] == slice[k - from];
    var i := IndexFrom(slice, c, 0);
    if i >= 0 {
      assert s[from + i] == c;
    }
  }

  lemma SliceJoin(s: bytes, a: nat, b: nat, c: nat)
    requires a <= b <= c <= |s|
    ensures s[a..b] + s[b..c] == s[a..c]
  {
  }
}
