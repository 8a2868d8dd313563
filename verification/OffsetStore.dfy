/**
 * The bounded offset store of the local reader: a list of entries, the most recently used one first,
 * and a map that finds an entry by its path. When it is full, the entry used longest ago goes.
 */
module OffsetStore {
  import opened Bytes
  import Following

  type Path = Following.Path

  datatype Kept = Kept(path: Path, offset: nat)

  // ----- What the store is: a list of different paths -----

  /** Where p is in s. */
  function PlaceOf(s: seq<Kept>, p: Path): (i: nat)
    ensures i <= |s| && (i < |s| ==> s[i].path == p) && forall k | 0 <= k < i :: s[k].path != p
  {
    if s == [] || s[0].path == p then 0 else 1 + PlaceOf(s[1..], p)
  }

  function Lookup(s: seq<Kept>, p: Path): Option<nat> {
    if PlaceOf(s, p) < |s| then Some(s[PlaceOf(s, p)].offset) else None
  }

  function Without(s: seq<Kept>, i: nat): seq<Kept> { if i < |s| then s[..i] + s[i + 1..] else s }

  /** Reading the offset of p makes it the most recently used path. */
  function Fronted(s: seq<Kept>, p: Path): seq<Kept> {
    var i := PlaceOf(s, p);
    if i < |s| then [s[i]] + Without(s, i) else s
  }

  /** Recording an offset does too, and when there is no room for one path more, the last one goes. */
  function Stored(s: seq<Kept>, p: Path, off: nat, max: nat): seq<Kept> {
    var t := [Kept(p, off)] + Without(s, PlaceOf(s, p));
    if |t| > max then t[..max] else t
  }

  ghost predicate AreDistinct(s: seq<Kept>) {
    forall i, j | 0 <= i < |s| && 0 <= j < |s| :: s[i].path == s[j].path ==> i == j
  }

  function Paths(s: seq<Kept>): set<Path> { set i | 0 <= i < |s| :: s[i].path }

  // ----- What the store keeps and what it forgets -----

  /** Paths are found where they are. */
  lemma PlaceIs(s: seq<Kept>, p: Path, i: nat)
    requires AreDistinct(s) && i < |s| && s[i].path == p
    ensures PlaceOf(s, p) == i
  {
    assert s[PlaceOf(s, p)].path == s[i].path;
  }

  /** The list with the entry e in front, and without what was kept of its path before. */
  function Led(s: seq<Kept>, e: Kept): seq<Kept> { [e] + Without(s, PlaceOf(s, e.path)) }

  lemma LedIsDistinct(s: seq<Kept>, e: Kept)
    requires AreDistinct(s)
    ensures AreDistinct(Led(s, e))
  {
    var k, t := PlaceOf(s, e.path), Led(s, e);
    forall i, j | 0 <= i < j < |t|
      ensures t[i].path != t[j].path
    {
      assert t[j] == s[if j <= k then j - 1 else j];
      assert i > 0 ==> t[i] == s[if i <= k then i - 1 else i];
      assert i == 0 && j > k ==> s[j].path != s[k].path;
    }
  }

  lemma LedIndex(s: seq<Kept>, e: Kept, k: nat)
    requires k < |s| && s[k].path != e.path
    ensures var i := if PlaceOf(s, e.path) < k then k else k + 1; i < |Led(s, e)| && Led(s, e)[i] == s[k]
  {
  }

  /** Where another path q is in the list that e leads: one place further, if e comes from behind it. */
  lemma LedPlace(s: seq<Kept>, e: Kept, q: Path)
    requires AreDistinct(s) && q != e.path && PlaceOf(s, q) < |s|
    ensures var k, t := PlaceOf(s, q), Led(s, e);
      var i := if PlaceOf(s, e.path) < k then k else k + 1;
      PlaceOf(t, q) == i < |t| && t[i] == s[k]
  {
    var k := PlaceOf(s, q);
    LedIsDistinct(s, e);
    LedIndex(s, e, k);
    PlaceIs(Led(s, e), q, if PlaceOf(s, e.path) < k then k else k + 1);
  }

  lemma LedLookup(s: seq<Kept>, e: Kept, q: Path)
    requires AreDistinct(s)
    ensures Lookup(Led(s, e), q) == if q == e.path then Some(e.offset) else Lookup(s, q)
  {
    if q != e.path {
      if PlaceOf(s, q) < |s| {
        LedPlace(s, e, q);
      } else {
        var t := Led(s, e);
        var k := PlaceOf(s, e.path);
        forall j | 0 < j < |t|
          ensures t[j].path != q
        {
          assert t[j] == s[if j <= k then j - 1 else j];
        }
      }
    }
  }

  lemma {:induction false} SizeOfPaths(s: seq<Kept>)
    requires AreDistinct(s)
    ensures |Paths(s)| == |s|
  {
    if s == [] {
      assert Paths(s) == {};
    } else {
      var t := s[1..];
      assert AreDistinct(t) by {
        assert forall i | 0 <= i < |t| :: t[i] == s[i + 1];
      }
      SizeOfPaths(t);
      PathsOfRest(s);
    }
  }

  lemma PathsOfRest(s: seq<Kept>)
    requires s != [] && AreDistinct(s)
    ensures s[0].path !in Paths(s[1..]) && Paths(s) == {s[0].path} + Paths(s[1..])
  {
    forall p
      ensures p in Paths(s) <==> p in {s[0].path} + Paths(s[1..])
    {
      if p in Paths(s) {
        var i :| 0 <= i < |s| && s[i].path == p;
        assert i > 0 ==> s[1..][i - 1] == s[i];
      }
      if p in Paths(s[1..]) {
        var i :| 0 <= i < |s| - 1 && s[1..][i].path == p;
        assert s[i + 1].path == p;
      }
    }
  }

  /** One use of the store. */
  datatype Use = Read(path: Path) | Write(path: Path, offset: nat)

  function Apply(s: seq<Kept>, u: Use, max: nat): seq<Kept> {
    if u.Read? then Fronted(s, u.path) else Stored(s, u.path, u.offset, max)
  }

  function ApplyAll(s: seq<Kept>, us: seq<Use>, max: nat): seq<Kept>
    decreases |us|
  {
    if us == [] then s else ApplyAll(Apply(s, us[0], max), us[1..], max)
  }

  /** A use puts its path in front, unless it asks for a path that is not kept. */
  predicate Finds(s: seq<Kept>, u: Use) { u.Write? || Lookup(s, u.path).Some? }

  ghost function UsedNow(s: seq<Kept>, u: Use): set<Path> { if Finds(s, u) then {u.path} else {} }

  /** The paths that the uses us put in front. */
  ghost function Used(s: seq<Kept>, us: seq<Use>, max: nat): set<Path>
    decreases |us|
  {
    if us == [] then {} else UsedNow(s, us[0]) + Used(Apply(s, us[0], max), us[1..], max)
  }

  /** What u puts in front. */
  function LedBy(s: seq<Kept>, u: Use): Kept
    requires Finds(s, u)
  {
    if u.Write? then Kept(u.path, u.offset) else Kept(u.path, Lookup(s, u.path).value)
  }

  lemma ApplyLeads(s: seq<Kept>, u: Use, max: nat)
    requires AreDistinct(s) && |s| <= max
    ensures Apply(s, u, max) == if Finds(s, u) then Led(s, LedBy(s, u))[..Min(|Led(s, LedBy(s, u))|, max)] else s
  {
  }

  lemma CutPlace(s: seq<Kept>, p: Path, n: nat)
    requires n <= |s|
    ensures PlaceOf(s[..n], p) == Min(PlaceOf(s, p), n)
  {
    var i := PlaceOf(s[..n], p);
    if i < n {
      assert s[..n][i] == s[i];
    }
    if PlaceOf(s, p) < n {
      assert s[..n][PlaceOf(s, p)] == s[PlaceOf(s, p)];
    }
  }

  lemma ApplyIsDistinct(s: seq<Kept>, u: Use, max: nat)
    requires AreDistinct(s) && |s| <= max
    ensures var t := Apply(s, u, max); AreDistinct(t) && |t| <= max
  {
    ApplyLeads(s, u, max);
    if Finds(s, u) {
      LedIsDistinct(s, LedBy(s, u));
    }
  }

  lemma IsBefore(s: seq<Kept>, p: Path, n: nat)
    requires n <= |s|
    ensures p in Paths(s[..n]) <==> PlaceOf(s, p) < n
  {
    if PlaceOf(s, p) < n {
      assert s[..n][PlaceOf(s, p)].path == p;
    }
  }

  /** Two paths keep their order when neither is put in front, and what is put in front is first. */
  lemma OrderStays(s: seq<Kept>, e: Kept, p: Path, q: Path)
    requires AreDistinct(s) && q != e.path && PlaceOf(s, q) < |s|
    ensures var t := Led(s, e); PlaceOf(t, p) < PlaceOf(t, q) <==> p == e.path || PlaceOf(s, p) < PlaceOf(s, q)
  {
    LedPlace(s, e, q);
    LedLookup(s, e, p);
    if p != e.path && PlaceOf(s, p) < |s| {
      LedPlace(s, e, p);
    }
  }

  /** The paths before q are those before it so far, and the one that is put in front. */
  lemma AheadOf(s: seq<Kept>, e: Kept, q: Path)
    requires AreDistinct(s) && q != e.path && PlaceOf(s, q) < |s|
    ensures var t := Led(s, e); PlaceOf(t, q) <= |t| && Paths(t[..PlaceOf(t, q)]) == Paths(s[..PlaceOf(s, q)]) + {e.path}
  {
    var t := Led(s, e);
    forall p
      ensures p in Paths(t[..PlaceOf(t, q)]) <==> p in Paths(s[..PlaceOf(s, q)]) + {e.path}
    {
      IsBefore(t, p, PlaceOf(t, q));
      IsBefore(s, p, PlaceOf(s, q));
      OrderStays(s, e, p, q);
    }
  }

  lemma PrefixIsDistinct(s: seq<Kept>, n: nat)
    requires AreDistinct(s) && n <= |s|
    ensures AreDistinct(s[..n]) && |Paths(s[..n])| == n
  {
    assert forall i | 0 <= i < n :: s[..n][i] == s[i];
    SizeOfPaths(s[..n]);
  }

  /** One use moves q back by one path at most, and out when max paths are before it. */
  lemma UseMoves(s: seq<Kept>, u: Use, max: nat, q: Path)
    requires AreDistinct(s) && |s| <= max && q != u.path && PlaceOf(s, q) < |s|
    ensures var t, a := Apply(s, u, max), Paths(s[..PlaceOf(s, q)]) + UsedNow(s, u);
      if |a| < max then PlaceOf(t, q) < |t| && t[PlaceOf(t, q)] == s[PlaceOf(s, q)] && Paths(t[..PlaceOf(t, q)]) == a
      else Lookup(t, q) == None
  {
    ApplyLeads(s, u, max);
    if Finds(s, u) {
      var e := LedBy(s, u);
      LedPlace(s, e, q);
      AheadOf(s, e, q);
      LedIsDistinct(s, e);
      CutMoves(Led(s, e), q, max);
    } else {
      PrefixIsDistinct(s, PlaceOf(s, q));
      assert Paths(s[..PlaceOf(s, q)]) + {} == Paths(s[..PlaceOf(s, q)]);
    }
  }

  /** What is left of the list l with room for max entries. */
  lemma CutMoves(l: seq<Kept>, q: Path, max: nat)
    requires AreDistinct(l) && PlaceOf(l, q) < |l|
    ensures var t, i := l[..Min(|l|, max)], PlaceOf(l, q);
      && |Paths(l[..i])| == i
      && if i < max then PlaceOf(t, q) == i < |t| && t[i] == l[i] && t[..i] == l[..i] else Lookup(t, q) == None
  {
    PrefixIsDistinct(l, PlaceOf(l, q));
    CutPlace(l, q, Min(|l|, max));
  }

  lemma {:induction false} GoneStaysGone(s: seq<Kept>, us: seq<Use>, max: nat, q: Path)
    requires AreDistinct(s) && |s| <= max && Lookup(s, q) == None && forall i | 0 <= i < |us| :: us[i].path != q
    ensures Lookup(ApplyAll(s, us, max), q) == None
    decreases |us|
  {
    if us != [] {
      ApplyLeads(s, us[0], max);
      ApplyIsDistinct(s, us[0], max);
      if Finds(s, us[0]) {
        var l := Led(s, LedBy(s, us[0]));
        LedLookup(s, LedBy(s, us[0]), q);
        CutPlace(l, q, Min(|l|, max));
      }
      GoneStaysGone(Apply(s, us[0], max), us[1..], max, q);
    }
  }

  /** q is kept with the offset off, behind the paths a. */
  ghost predicate IsBehind(s: seq<Kept>, q: Path, a: set<Path>, off: nat) {
    PlaceOf(s, q) < |s| && s[PlaceOf(s, q)].offset == off && Paths(s[..PlaceOf(s, q)]) == a
  }

  lemma BehindFew(s: seq<Kept>, q: Path, a: set<Path>, off: nat, max: nat)
    requires AreDistinct(s) && |s| <= max && IsBehind(s, q, a, off)
    ensures |a| < max && Lookup(s, q) == Some(off)
  {
    PrefixIsDistinct(s, PlaceOf(s, q));
  }

  lemma UseKeeps(s: seq<Kept>, u: Use, max: nat, q: Path, a: set<Path>, off: nat)
    requires AreDistinct(s) && |s| <= max && q != u.path && IsBehind(s, q, a, off)
    ensures var t, b := Apply(s, u, max), a + UsedNow(s, u); if |b| < max then IsBehind(t, q, b, off) else Lookup(t, q) == None
  {
    UseMoves(s, u, max, q);
  }

  lemma {:induction false} KeptWhileFewUsed(s: seq<Kept>, us: seq<Use>, max: nat, q: Path, a: set<Path>, off: nat)
    requires AreDistinct(s) && |s| <= max && IsBehind(s, q, a, off) && forall i | 0 <= i < |us| :: us[i].path != q
    ensures Lookup(ApplyAll(s, us, max), q) == if |a + Used(s, us, max)| < max then Some(off) else None
    decreases |us|
  {
    if us == [] {
      BehindFew(s, q, a, off, max);
      assert a + {} == a;
    } else {
      var t, b := Apply(s, us[0], max), a + UsedNow(s, us[0]);
      UsedUnion(s, us, max, a);
      UseKeeps(s, us[0], max, q, a, off);
      ApplyIsDistinct(s, us[0], max);
      if |b| < max {
        KeptWhileFewUsed(t, us[1..], max, q, b, off);
      } else {
        SubsetIsSmaller(b, b + Used(t, us[1..], max));
        GoneStaysGone(t, us[1..], max, q);
      }
    }
  }

  lemma UsedUnion(s: seq<Kept>, us: seq<Use>, max: nat, a: set<Path>)
    requires us != []
    ensures a + Used(s, us, max) == a + UsedNow(s, us[0]) + Used(Apply(s, us[0], max), us[1..], max)
  {
  }

  lemma SubsetIsSmaller(a: set<Path>, b: set<Path>)
    requires a <= b
    ensures |a| <= |b|
  {
    assert b == a + (b - a);
  }

  /**
   * An offset is forgotten exactly when as many other paths as the store has room for were used
   * since it was last used, and is what was recorded last until then.
   */
  lemma {:induction false} ForgetsUsedLongestAgo(s: seq<Kept>, us: seq<Use>, max: nat)
    requires AreDistinct(s) && 0 < |s| <= max && forall i | 0 <= i < |us| :: us[i].path != s[0].path
    ensures Lookup(ApplyAll(s, us, max), s[0].path) == if |Used(s, us, max)| < max then Some(s[0].offset) else None
  {
    KeptWhileFewUsed(s, us, max, s[0].path, {}, s[0].offset);
    assert {} + Used(s, us, max) == Used(s, us, max);
  }

  // ----- A store with room for every path -----

  /** The recorded offset of p, 0 when there is none. */
  function OffsetOf(s: seq<Kept>, p: Path): nat { if Lookup(s, p).Some? then Lookup(s, p).value else 0 }

  /** All paths are among some that the store has room for. */
  ghost predicate HasRoom(s: seq<Kept>, all: set<Path>, max: nat) { AreDistinct(s) && Paths(s) <= all && |all| <= max }

  lemma PathsAreFound(s: seq<Kept>, p: Path)
    ensures p in Paths(s) <==> Lookup(s, p).Some?
  {
    IsBefore(s, p, |s|);
    assert s[..|s|] == s;
  }

  lemma LedHasRoom(s: seq<Kept>, e: Kept, all: set<Path>, max: nat)
    requires HasRoom(s, all, max) && e.path in all
    ensures HasRoom(Led(s, e), all, max) && |Led(s, e)| <= max
  {
    var t := Led(s, e);
    LedIsDistinct(s, e);
    forall p | p in Paths(t)
      ensures p in all
    {
      PathsAreFound(t, p);
      PathsAreFound(s, p);
      LedLookup(s, e, p);
    }
    SizeOfPaths(t);
    SubsetIsSmaller(Paths(t), all);
  }

  /** Such a store forgets nothing. */
  lemma RoomForgetsNothing(s: seq<Kept>, p: Path, off: nat, all: set<Path>, max: nat)
    requires HasRoom(s, all, max) && p in all
    ensures var t := Stored(s, p, off, max);
      HasRoom(t, all, max) && forall q :: OffsetOf(t, q) == if q == p then off else OffsetOf(s, q)
  {
    LedHasRoom(s, Kept(p, off), all, max);
    forall q
      ensures OffsetOf(Stored(s, p, off, max), q) == if q == p then off else OffsetOf(s, q)
    {
      LedLookup(s, Kept(p, off), q);
    }
  }

  /** The store, which has room for all paths, knows the offsets m. */
  ghost predicate Remembers(s: seq<Kept>, m: map<Path, nat>, all: set<Path>, max: nat) {
    HasRoom(s, all, max) && m.Keys <= all && forall q :: OffsetOf(s, q) == Following.OffsetOf(m, q)
  }

  lemma WritingRemembers(s: seq<Kept>, m: map<Path, nat>, all: set<Path>, max: nat, p: Path, off: nat)
    requires Remembers(s, m, all, max) && p in all
    ensures Remembers(Stored(s, p, off, max), m[p := off], all, max)
  {
    RoomForgetsNothing(s, p, off, all, max);
  }

  lemma ReadingRemembers(s: seq<Kept>, m: map<Path, nat>, all: set<Path>, max: nat, p: Path)
    requires Remembers(s, m, all, max)
    ensures Remembers(Fronted(s, p), m, all, max)
  {
    ReadingForgetsNothing(s, p, all, max);
  }

  lemma ReadingForgetsNothing(s: seq<Kept>, p: Path, all: set<Path>, max: nat)
    requires HasRoom(s, all, max)
    ensures HasRoom(Fronted(s, p), all, max) && forall q :: OffsetOf(Fronted(s, p), q) == OffsetOf(s, q)
  {
    if PlaceOf(s, p) < |s| {
      var e := s[PlaceOf(s, p)];
      assert e.path in Paths(s);
      LedHasRoom(s, e, all, max);
      forall q
        ensures OffsetOf(Fronted(s, p), q) == OffsetOf(s, q)
      {
        LedLookup(s, e, q);
      }
    }
  }

  // ----- The store, which is updated in place -----

  /** The entries of the paths in order. */
  function KeptIn(order: seq<Path>, items: map<Path, nat>): (s: seq<Kept>)
    ensures |s| == |order| && forall i | 0 <= i < |s| :: s[i] == Kept(order[i], Following.OffsetOf(items, order[i]))
  {
    seq(|order|, i requires 0 <= i < |order| => Kept(order[i], Following.OffsetOf(items, order[i])))
  }

  /** The list has every path of the map, once. */
  ghost predicate IsIndex(order: seq<Path>, items: map<Path, nat>) {
    && (forall p :: p in order <==> p in items)
    && forall i, j | 0 <= i < j < |order| :: order[i] != order[j]
  }

  lemma PlaceInOrder(order: seq<Path>, items: map<Path, nat>, i: nat)
    requires IsIndex(order, items) && i < |order|
    ensures PlaceOf(KeptIn(order, items), order[i]) == i
  {
    var j := PlaceOf(KeptIn(order, items), order[i]);
    assert j <= i;
  }

  lemma NotInOrder(order: seq<Path>, items: map<Path, nat>, p: Path)
    requires IsIndex(order, items) && p !in items
    ensures PlaceOf(KeptIn(order, items), p) == |order|
  {
    forall i | 0 <= i < |order|
      ensures KeptIn(order, items)[i].path != p
    {
      assert order[i] in order;
    }
  }

  function IndexIn(order: seq<Path>, p: Path): (i: nat)
    requires p in order
    ensures i < |order| && order[i] == p
  {
    if order[0] == p then 0 else 1 + IndexIn(order[1..], p)
  }

  function Moved(order: seq<Path>, i: nat): seq<Path>
    requires i < |order|
  {
    [order[i]] + (order[..i] + order[i + 1..])
  }

  lemma MovedIsIndex(order: seq<Path>, items: map<Path, nat>, i: nat)
    requires IsIndex(order, items) && i < |order|
    ensures IsIndex(Moved(order, i), items)
  {
    var t := Moved(order, i);
    forall p
      ensures p in t <==> p in order
    {
      assert order == order[..i] + [order[i]] + order[i + 1..];
    }
    forall j, k | 0 <= j < k < |t|
      ensures t[j] != t[k]
    {
      assert t[k] == order[if k <= i then k - 1 else k];
      assert j > 0 ==> t[j] == order[if j <= i then j - 1 else j];
    }
  }

  lemma KeptMoved(order: seq<Path>, items: map<Path, nat>, i: nat)
    requires i < |order|
    ensures KeptIn(Moved(order, i), items) == [KeptIn(order, items)[i]] + Without(KeptIn(order, items), i)
  {
    var s, t := KeptIn(order, items), KeptIn(Moved(order, i), items);
    forall k | 0 < k < |t|
      ensures t[k] == s[if k <= i then k - 1 else k]
    {
    }
    assert t[1..] == Without(s, i);
  }

  lemma MovedIsFronted(order: seq<Path>, items: map<Path, nat>, i: nat)
    requires IsIndex(order, items) && i < |order|
    ensures IsIndex(Moved(order, i), items) && |Moved(order, i)| == |order|
    ensures KeptIn(Moved(order, i), items) == Fronted(KeptIn(order, items), order[i])
  {
    MovedIsIndex(order, items, i);
    PlaceInOrder(order, items, i);
    KeptMoved(order, items, i);
  }

  lemma OthersStay(order: seq<Path>, items: map<Path, nat>, i: nat, off: nat)
    requires IsIndex(order, items) && i < |order|
    ensures IsIndex(order, items[order[i] := off])
    ensures var t := KeptIn(order, items[order[i] := off]); t[i] == Kept(order[i], off) && Without(t, i) == Without(KeptIn(order, items), i)
  {
    var s, t := KeptIn(order, items), KeptIn(order, items[order[i] := off]);
    assert s[..i] == t[..i];
    assert s[i + 1..] == t[i + 1..];
  }

  lemma RenewedIsStored(s: seq<Kept>, t: seq<Kept>, p: Path, i: nat, off: nat, max: nat)
    requires i < |s| == |t| <= max && PlaceOf(s, p) == PlaceOf(t, p) == i && t[i] == Kept(p, off) && Without(t, i) == Without(s, i)
    ensures Fronted(t, p) == Stored(s, p, off, max)
  {
  }

  /** What the store holds is a list of different paths. */
  lemma KeptAreDistinct(order: seq<Path>, items: map<Path, nat>)
    requires IsIndex(order, items)
    ensures AreDistinct(KeptIn(order, items))
  {
  }

  /** The paths, the one used last in front, and their offsets. */
  class Store {
    const max: nat
    var order: seq<Path>
    var items: map<Path, nat>

    ghost predicate Valid()
      reads this
    {
      0 < max && |order| <= max && IsIndex(order, items)
    }

    function Contents(): seq<Kept>
      reads this
    {
      KeptIn(order, items)
    }

    constructor (max: nat)
      requires max > 0
      ensures Valid() && Contents() == [] && this.max == max
    {
      this.max, order, items := max, [], map[];
    }

    method MoveToFront(p: Path)
      requires Valid() && p in order
      modifies this`order
      ensures Valid() && Contents() == Fronted(old(Contents()), p)
    {
      var i := IndexIn(order, p);
      MovedIsFronted(order, items, i);
      order := Moved(order, i);
    }

    method Get(p: Path) returns (off: Option<nat>)
      requires Valid()
      modifies this`order
      ensures Valid() && Contents() == Apply(old(Contents()), Read(p), max) && off == Lookup(old(Contents()), p)
    {
      if p !in items {
        NotInOrder(order, items, p);
        return None;
      }
      ghost var i := IndexIn(order, p);
      PlaceInOrder(order, items, i);
      MoveToFront(p);
      off := Some(items[p]);
    }

    method Renew(p: Path, off: nat)
      requires Valid() && p in items
      modifies this
      ensures Valid() && Contents() == Stored(old(Contents()), p, off, max)
    {
      ghost var s := Contents();
      ghost var i := IndexIn(order, p);
      PlaceInOrder(order, items, i);
      OthersStay(order, items, i, off);
      items := items[p := off];
      PlaceInOrder(order, items, i);
      RenewedIsStored(s, Contents(), p, i, off, max);
      MoveToFront(p);
    }

    /** Drops the paths used longest ago until there are no more than max. */
    method Evict()
      requires max > 0 && IsIndex(order, items)
      modifies this
      ensures Valid() && order == old(order)[..Min(|old(order)|, max)]
      ensures Contents() == old(Contents())[..|order|]
    {
      ghost var all, was := order, Contents();
      while |order| > max
        invariant Min(|all|, max) <= |order| <= |all|
        invariant order == all[..|order|] && IsIndex(order, items) && Contents() == was[..|order|]
      {
        DropBack();
      }
    }

    method DropBack()
      requires order != [] && IsIndex(order, items)
      modifies this
      ensures var last := |old(order)| - 1;
        order == old(order)[..last] && IsIndex(order, items) && Contents() == old(Contents())[..last]
    {
      BackIsDropped(order, items);
      var last := |order| - 1;
      order, items := order[..last], items - {order[last]};
    }

    method Set(p: Path, off: nat)
      requires Valid()
      modifies this
      ensures Valid() && Contents() == Apply(old(Contents()), Write(p, off), max)
    {
      if p in items {
        Renew(p, off);
        return;
      }
      ghost var s := Contents();
      NotInOrder(order, items, p);
      NewInFront(order, items, p, off);
      order, items := [p] + order, items[p := off];
      Evict();
      NewIsStored(s, p, off, max, Contents());
    }
  }

  lemma NewInFront(order: seq<Path>, items: map<Path, nat>, p: Path, off: nat)
    requires IsIndex(order, items) && p !in items
    ensures IsIndex([p] + order, items[p := off])
    ensures KeptIn([p] + order, items[p := off]) == [Kept(p, off)] + KeptIn(order, items)
  {
    assert forall i | 0 <= i < |order| :: order[i] in order;
  }

  lemma NewIsStored(s: seq<Kept>, p: Path, off: nat, max: nat, t: seq<Kept>)
    requires PlaceOf(s, p) == |s| && t == ([Kept(p, off)] + s)[..Min(|s| + 1, max)]
    ensures t == Stored(s, p, off, max)
  {
  }

  lemma BackIsDropped(order: seq<Path>, items: map<Path, nat>)
    requires order != [] && IsIndex(order, items)
    ensures var last := |order| - 1; IsIndex(order[..last], items - {order[last]})
    ensures var last := |order| - 1; KeptIn(order[..last], items - {order[last]}) == KeptIn(order, items)[..last]
  {
    var last := |order| - 1;
    assert order == order[..last] + [order[last]];
  }

  /**
   * A store in which an offset is recorded, and which is then used for other paths: the offset is
   * forgotten exactly when as many of them were found or recorded as there is room for.
   */
  lemma {:induction false} StoreForgets(store: Store, p: Path, off: nat, us: seq<Use>)
    requires store.Valid() && forall i | 0 <= i < |us| :: us[i].path != p
    ensures var s := Apply(store.Contents(), Write(p, off), store.max);
      Lookup(ApplyAll(s, us, store.max), p) == if |Used(s, us, store.max)| < store.max then Some(off) else None
  {
    KeptAreDistinct(store.order, store.items);
    ApplyIsDistinct(store.Contents(), Write(p, off), store.max);
    ForgetsUsedLongestAgo(Apply(store.Contents(), Write(p, off), store.max), us, store.max);
  }
}
