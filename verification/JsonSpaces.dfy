/** White space around the parts of a jsonlog object, and values that are no strings. */
module JsonSpaces {
  import opened Bytes
  import opened Jsonlog
  import opened JsonKeys
  import opened JsonFields

  /** Spaces, tabs and line breaks. */
  predicate AreSpaces(w: bytes) { forall c <- w :: c == 32 || c == 9 || c == 13 || c == 10 }

  lemma {:induction false} SkipsTo(b: bytes, i: nat, j: nat)
    requires i <= j < |b| && (forall k | i <= k < j :: IsJsonSpace(b[k])) && !IsJsonSpace(b[j])
    ensures SkipSpace(b, i) == j
    decreases j - i
  {
    if i < j {
      SkipsTo(b, i + 1, j);
    }
  }

  lemma SkipsOver(pre: bytes, w: bytes, post: bytes, b: bytes)
    requires b == pre + w + post && AreSpaces(w) && post != [] && !IsJsonSpace(post[0])
    ensures SkipSpace(b, |pre|) == |pre| + |w| < |b| && b[|pre| + |w|] == post[0]
  {
    forall k | |pre| <= k < |pre| + |w|
      ensures IsJsonSpace(b[k])
    {
      assert b[k] == w[k - |pre|] && w[k - |pre|] in w;
    }
    SkipsTo(b, |pre|, |pre| + |w|);
  }

  lemma Regroup(a: bytes, w: bytes, c: bytes, b: bytes)
    requires b == a + (w + c)
    ensures b == a + w + c
  {
  }

  /** Behind the value: white space and the closing brace. */
  lemma LastValue(b: bytes, key: bytes, v: Scanned, close: nat)
    requires v.Scanned? && v.next <= |b| && SkipSpace(b, v.next) == close < |b| && b[close] == CLOSE
    ensures MemberValue(b, key, v) == Last(Member(key, v.val))
  {
  }

  /** From the value on: the value, white space, the closing brace, and whatever is behind it. */
  lemma ValueRead(ahead: bytes, key: bytes, t: bytes, w: bytes, tail: bytes, b: bytes)
    requires b == ahead + InQuotes(t) + (w + tail) && AreSpaces(w) && tail != [] && tail[0] == 125
    ensures MemberValue(b, key, ValueAt(b, |ahead|)) == Last(Member(key, RawOf(Str(t))))
  {
    StrIsScanned(ahead, t, w + tail, b);
    Regroup(ahead + InQuotes(t), w, tail, b);
    SkipsOver(ahead + InQuotes(t), w, tail, b);
    LastValue(b, key, ValueAt(b, |ahead|), |ahead + InQuotes(t)| + |w|);
  }

  /** The parts of a member by their places: its key, its ':', and its value. */
  lemma MemberParts(b: bytes, i: nat, key: bytes, e: nat, colon: nat, p: nat, f: Found)
    requires i < |b| && b[i] == QUOTE && StringAt(b, i) == Scanned(Raw(key, true, false), e) && e <= |b|
    requires SkipSpace(b, e) == colon < |b| && b[colon] == COLON && SkipSpace(b, colon + 1) == p
    requires MemberValue(b, key, ValueAt(b, p)) == f
    ensures MemberAt(b, i) == f
  {
  }

  /** From behind the ':' on. */
  lemma AfterColon(ahead: bytes, key: bytes, x: bytes, t: bytes, y: bytes, tail: bytes, b: bytes)
    requires b == ahead + (x + (InQuotes(t) + (y + tail))) && AreSpaces(x) && AreSpaces(y) && tail != [] && tail[0] == 125
    ensures SkipSpace(b, |ahead|) == |ahead| + |x|
    ensures MemberValue(b, key, ValueAt(b, |ahead| + |x|)) == Last(Member(key, RawOf(Str(t))))
  {
    var value := InQuotes(t) + (y + tail);
    Regroup(ahead, x, value, b);
    SkipsOver(ahead, x, value, b);
    Regroup(ahead + x, InQuotes(t), y + tail, b);
    ValueRead(ahead + x, key, t, y, tail, b);
  }

  /** From behind the key on. */
  lemma AfterKey(front: bytes, w: bytes, more: bytes, b: bytes)
    requires b == front + (w + ([58] + more)) && AreSpaces(w)
    ensures var c := |front| + |w|; SkipSpace(b, |front|) == c < |b| && b[c] == COLON && b == (front + w + [58]) + more
  {
    Regroup(front, w, [58] + more, b);
    SkipsOver(front, w, [58] + more, b);
    Regroup(front + w, [58], more, b);
  }

  /** A key at i that ends at e, and a ':' at colon behind it. */
  predicate KeyThenColon(b: bytes, i: nat, key: bytes, e: nat, colon: nat) {
    && i < e <= |b| && b[i] == QUOTE && StringAt(b, i) == Scanned(Raw(key, true, false), e)
    && SkipSpace(b, e) == colon < |b| && b[colon] == COLON
  }

  lemma FrontIs(pre: bytes, key: bytes, more: bytes, b: bytes, front: bytes)
    requires b == pre + [34] + key + [34] + more && front == pre + [34] + key + [34]
    ensures b == front + more && |front| == |pre| + |key| + 2 && |pre| < |b| && b[|pre|] == 34
  {
  }

  lemma KeyRead(pre: bytes, key: bytes, w: bytes, more: bytes, b: bytes, front: bytes)
    requires IsName(key) && AreSpaces(w) && b == pre + [34] + key + [34] + (w + ([58] + more))
    requires front == pre + [34] + key + [34]
    ensures KeyThenColon(b, |pre|, key, |front|, |front| + |w|) && b == (front + w + [58]) + more
  {
    FrontIs(pre, key, w + ([58] + more), b, front);
    KeyIsScanned(pre, key, w + ([58] + more), b);
    AfterKey(front, w, more, b);
  }

  lemma MemberIs(b: bytes, i: nat, key: bytes, e: nat, colon: nat, p: nat, m: Member)
    requires KeyThenColon(b, i, key, e, colon) && SkipSpace(b, colon + 1) == p && MemberValue(b, key, ValueAt(b, p)) == Last(m)
    ensures MemberAt(b, i) == Last(m)
  {
    MemberParts(b, i, key, e, colon, p, Last(m));
  }

  /** From the key on. */
  lemma MemberRead(pre: bytes, key: bytes, w: bytes, x: bytes, t: bytes, y: bytes, tail: bytes, b: bytes, more: bytes, front: bytes, m: Member)
    requires IsName(key) && AreSpaces(w) && AreSpaces(x) && AreSpaces(y) && tail != [] && tail[0] == 125
    requires more == x + (InQuotes(t) + (y + tail)) && b == pre + [34] + key + [34] + (w + ([58] + more))
    requires front == pre + [34] + key + [34] && m == Member(key, RawOf(Str(t)))
    ensures |pre| < |b| && b[|pre|] == 34 && MemberAt(b, |pre|) == Last(m)
  {
    KeyRead(pre, key, w, more, b, front);
    AfterColon(front + w + [58], key, x, t, y, tail, b);
    MemberIs(b, |pre|, key, |front|, |front| + |w|, |front| + |w| + 1 + |x|, m);
  }

  lemma OpensAt(b: bytes, o: nat, i: nat)
    requires SkipSpace(b, 0) == o < |b| && b[o] == OPEN && SkipSpace(b, o + 1) == i < |b| && b[i] == QUOTE
    ensures ObjectMembers(b) == MembersFrom(b, i)
  {
  }

  /** Before the opening brace. */
  lemma BeforeBrace(u: bytes, more: bytes, b: bytes)
    requires AreSpaces(u) && b == u + ([123] + more)
    ensures SkipSpace(b, 0) == |u| < |b| && b[|u|] == OPEN && b == (u + [123]) + more
  {
    Regroup([], u, [123] + more, b);
    assert [] + u == u;
    SkipsOver([], u, [123] + more, b);
    Regroup(u, [123], more, b);
  }

  /** Before the first key. */
  lemma BeforeKey(front: bytes, v: bytes, rest: bytes, b: bytes)
    requires AreSpaces(v) && b == front + (v + rest) && rest != [] && rest[0] == 34
    ensures SkipSpace(b, |front|) == |front| + |v| < |b| && b[|front| + |v|] == 34 && b == (front + v) + rest
  {
    Regroup(front, v, rest, b);
    SkipsOver(front, v, rest, b);
  }

  lemma InFront(pre: bytes, key: bytes, more: bytes, b: bytes)
    requires b == pre + ([34] + key + [34] + more)
    ensures b == pre + [34] + key + [34] + more
  {
  }

  /** Where the first key stands. */
  lemma KeyIsAt(u: bytes, v: bytes, key: bytes, more: bytes, rest: bytes, b: bytes) returns (pre: bytes)
    requires AreSpaces(u) && AreSpaces(v) && rest == [34] + key + [34] + more && b == u + ([123] + (v + rest))
    ensures SkipSpace(b, 0) == |u| < |b| && b[|u|] == OPEN && SkipSpace(b, |u| + 1) == |pre| < |b|
    ensures b == pre + [34] + key + [34] + more
  {
    var front := u + [123];
    BeforeBrace(u, v + rest, b);
    BeforeKey(front, v, rest, b);
    pre := front + v;
    InFront(pre, key, more, b);
  }

  lemma OneMemberRead(b: bytes, o: nat, i: nat, m: Member)
    requires SkipSpace(b, 0) == o < |b| && b[o] == OPEN && SkipSpace(b, o + 1) == i < |b| && b[i] == QUOTE
    requires MemberAt(b, i) == Last(m)
    ensures ObjectMembers(b) == Members([m])
  {
    OpensAt(b, o, i);
    MembersEnd(b, i, m);
  }

  lemma SpacedObject(key: bytes, t: bytes, u: bytes, v: bytes, w: bytes, x: bytes, y: bytes, tail: bytes, more: bytes, rest: bytes, b: bytes)
    requires IsName(key) && AreSpaces(u) && AreSpaces(v) && AreSpaces(w) && AreSpaces(x) && AreSpaces(y)
    requires tail != [] && tail[0] == 125 && more == x + (InQuotes(t) + (y + tail))
    requires rest == [34] + key + [34] + (w + ([58] + more)) && b == u + ([123] + (v + rest))
    ensures ObjectMembers(b) == Members([Member(key, RawOf(Str(t)))])
  {
    var pre := KeyIsAt(u, v, key, w + ([58] + more), rest, b);
    var m := Member(key, RawOf(Str(t)));
    MemberRead(pre, key, w, x, t, y, tail, b, more, pre + [34] + key + [34], m);
    OneMemberRead(b, |u|, |pre|, m);
  }

  /** The object is read the same with any white space around its parts, and whatever stands behind it. */
  lemma SpacesAreSkipped(key: string, t: bytes, u: bytes, v: bytes, w: bytes, x: bytes, y: bytes, tail: bytes, more: bytes, rest: bytes)
    requires IsPlainSpelling(key) && AreSpaces(u) && AreSpaces(v) && AreSpaces(w) && AreSpaces(x) && AreSpaces(y)
    requires tail != [] && tail[0] == 125 && more == x + (InQuotes(t) + (y + tail))
    requires rest == [34] + Ascii(key) + [34] + (w + ([58] + more))
    ensures ObjectMembers(u + ([123] + (v + rest))) == ObjectMembers(Alone(key, InQuotes(t)))
  {
    PlainIsName(key);
    SpacedObject(Ascii(key), t, u, v, w, x, y, tail, more, rest, u + ([123] + (v + rest)));
    AloneIsPrinted(key, Str(t), InQuotes(t));
  }

  /** An empty object has no members; what opens with another byte is no object. */
  lemma EmptyAndNone(v: bytes, junk: bytes, b: bytes, c: byte)
    requires b == [123] + (v + ([125] + junk)) && AreSpaces(v)
    ensures ObjectMembers(b) == Members([])
    ensures c !in {123, 32, 9, 13, 10} ==> ObjectMembers([c] + junk).Bad?
    ensures ObjectMembers([]).Bad?
  {
    assert b == [123] + v + ([125] + junk);
    SkipsOver([123], v, [125] + junk, b);
    assert SkipSpace(b, 0) == 0;
    if c !in {123, 32, 9, 13, 10} {
      assert SkipSpace([c] + junk, 0) == 0;
    }
  }

  /** The words null, true and false are values: null is empty, the others stand for themselves. */
  lemma WordsAreValues(pre: bytes, post: bytes)
    ensures ValueAt(pre + ([110, 117, 108, 108] + post), |pre|) == Scanned(Raw([], false, false), |pre| + 4)
    ensures ValueAt(pre + ([116, 114, 117, 101] + post), |pre|) == Scanned(Raw([116, 114, 117, 101], false, false), |pre| + 4)
    ensures ValueAt(pre + ([102, 97, 108, 115, 101] + post), |pre|) == Scanned(Raw([102, 97, 108, 115, 101], false, false), |pre| + 5)
  {
    WordIsThere(pre, NULL, post, pre + ([110, 117, 108, 108] + post));
    WordIsThere(pre, TRUE, post, pre + ([116, 114, 117, 101] + post));
    WordIsThere(pre, FALSE, post, pre + ([102, 97, 108, 115, 101] + post));
  }

  lemma WordIsThere(pre: bytes, word: bytes, post: bytes, b: bytes)
    requires b == pre + (word + post) && word != []
    ensures |pre| < |b| && b[|pre|] == word[0] && HasAt(b, |pre|, word)
    ensures |pre| + 4 <= |b| && |word| >= 4 ==> b[|pre|..|pre| + 4][0] == word[0]
  {
    assert b[|pre|..|pre| + |word|] == word;
  }

  /** Bytes of numbers are a value as far as they go; anything else is none. */
  lemma NumbersAreValues(pre: bytes, n: bytes, c: byte, post: bytes, b: bytes)
    requires b == pre + (n + ([c] + post))
    requires forall k <- n :: 48 <= k <= 57 || k in {43, 45, 46, 69, 101}
    requires !(48 <= c <= 57 || c in {43, 45, 46, 69, 101} || c in {34, 110, 116, 102})
    ensures ValueAt(b, |pre|) == if n == [] then NoValue else Scanned(Raw(n, false, false), |pre| + |n|)
  {
    var e := |pre| + |n|;
    assert b[e] == c && b[|pre|..e] == n;
    forall k | |pre| <= k < e
      ensures IsNumberByte(b[k])
    {
      assert b[k] == n[k - |pre|] && n[k - |pre|] in n;
    }
    NumberRunsTo(b, |pre|, |n|);
    NoWordStarts(b, |pre|);
  }

  lemma NoWordStarts(b: bytes, i: nat)
    requires i < |b| && b[i] !in {110, 116, 102}
    ensures !HasAt(b, i, NULL) && !HasAt(b, i, TRUE) && !HasAt(b, i, FALSE)
  {
    assert i + 4 <= |b| ==> b[i..i + 4][0] == b[i];
    assert i + 5 <= |b| ==> b[i..i + 5][0] == b[i];
  }
}
