/** UTF-8 as section 4 of RFC 3629 defines it, and where a valid text may be cut. */
module Utf8 {
  import opened Bytes

  predicate IsTail(c: byte) { 0x80 <= c <= 0xBF }

  predicate TailAt(s: bytes, i: nat) { i < |s| && IsTail(s[i]) }

  predicate Between(s: bytes, i: nat, low: byte, high: byte) { i < |s| && low <= s[i] <= high }

  /** The length of the character that s starts with; 0 when it starts with none. */
  function CharLen(s: bytes): (n: nat)
    ensures n <= 4 && n <= |s|
  {
    if s == [] then 0
    else if s[0] < 0x80 then 1
    else if 0xC2 <= s[0] <= 0xDF then if TailAt(s, 1) then 2 else 0
    else if 0xE0 <= s[0] <= 0xEF then
      var low: byte := if s[0] == 0xE0 then 0xA0 else 0x80;
      var high: byte := if s[0] == 0xED then 0x9F else 0xBF;
      if Between(s, 1, low, high) && TailAt(s, 2) then 3 else 0
    else if 0xF0 <= s[0] <= 0xF4 then
      var low: byte := if s[0] == 0xF0 then 0x90 else 0x80;
      var high: byte := if s[0] == 0xF4 then 0x8F else 0xBF;
      if Between(s, 1, low, high) && TailAt(s, 2) && TailAt(s, 3) then 4 else 0
    else 0
  }

  /** s is a sequence of characters. */
  predicate Valid(s: bytes) { s == [] || (CharLen(s) > 0 && Valid(s[CharLen(s)..])) }

  /** Where a valid text may be cut. */
  predicate IsEdge(s: bytes, i: nat) { i <= |s| && (i < |s| ==> !IsTail(s[i])) }

  predicate AllAscii(s: bytes) { forall i | 0 <= i < |s| :: s[i] < 0x80 }

  lemma FirstIsNoTail(s: bytes)
    requires Valid(s)
    ensures s != [] ==> !IsTail(s[0])
  {
  }

  /** The bytes of a character behind its first are tails. */
  lemma InsideChar(s: bytes, i: nat)
    requires 0 < i < CharLen(s)
    ensures IsTail(s[i])
  {
  }

  /** Whether a text starts with a character does not depend on what follows the character. */
  lemma CharLenLocal(s: bytes, t: bytes)
    requires 0 < CharLen(s) <= |t| && t[..CharLen(s)] == s[..CharLen(s)]
    ensures CharLen(t) == CharLen(s)
  {
    var n := CharLen(s);
    assert forall i | 0 <= i < n :: t[i] == t[..n][i] == s[i];
  }

  lemma {:induction false} ValidJoin(a: bytes, b: bytes)
    requires Valid(a) && Valid(b)
    ensures Valid(a + b)
  {
    if a == [] {
      assert a + b == b;
    } else {
      var n := CharLen(a);
      CharLenLocal(a, a + b);
      ValidJoin(a[n..], b);
      assert (a + b)[n..] == a[n..] + b;
    }
  }

  /** A valid text cut at an edge is two valid texts. */
  lemma {:induction false} ValidCut(s: bytes, i: nat)
    requires Valid(s) && IsEdge(s, i)
    ensures Valid(s[..i]) && Valid(s[i..])
    decreases |s|
  {
    if i == 0 {
      assert s[..0] == [] && s[0..] == s;
    } else {
      var n := CharLen(s);
      if i < n {
        InsideChar(s, i);
      } else {
        ValidCut(s[n..], i - n);
        CharLenLocal(s, s[..i]);
        assert s[..i][n..] == s[n..][..i - n] && s[n..][i - n..] == s[i..];
      }
    }
  }

  lemma {:induction false} AsciiIsValid(s: bytes)
    requires AllAscii(s)
    ensures Valid(s)
  {
    if s != [] {
      AsciiIsValid(s[1..]);
    }
  }

  /** Behind an ASCII byte, a two-byte lead 0xC2 with its tail, or an ellipsis, there is an edge. */
  lemma {:induction false} EdgeBehind(s: bytes, i: nat)
    requires Valid(s) && 0 < i <= |s|
    requires s[i - 1] < 0x80 || (i >= 2 && s[i - 2] == 0xC2) || (i >= 3 && s[i - 3] == 0xE2)
    ensures IsEdge(s, i)
    decreases |s|
  {
    var n := CharLen(s);
    if n < i {
      if i - 1 >= n && s[i - 1] < 0x80 {
        EdgeBehind(s[n..], i - n);
      } else if i >= 2 && s[i - 2] == 0xC2 {
        if i - 2 < n && i - 2 > 0 {
          InsideChar(s, i - 2);
        }
        if i - 2 >= n {
          EdgeBehind(s[n..], i - n);
        }
      } else {
        if i - 3 < n && i - 3 > 0 {
          InsideChar(s, i - 3);
        }
        if i - 3 >= n {
          EdgeBehind(s[n..], i - n);
        }
      }
    } else if i == n {
      FirstIsNoTail(s[n..]);
    } else {
      InsideChar(s, i);
      if i > 1 {
        InsideChar(s, i - 1);
      }
    }
  }

  lemma ValidSlice(s: bytes, i: nat, j: nat)
    requires Valid(s) && i <= j && IsEdge(s, i) && IsEdge(s, j)
    ensures Valid(s[i..j])
  {
    ValidCut(s, i);
    ValidCut(s[i..], j - i);
    assert s[i..][..j - i] == s[i..j];
  }
}
