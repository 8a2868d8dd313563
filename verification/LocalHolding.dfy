/**
 * What the one-shot reader of local files delivers in one turn, how much it reads, and where it takes
 * a file up, each in terms of the bytes pending and the files as they are.
 */
module LocalHolding {
  import opened Bytes
  import opened OffsetStore
  import opened FileSets
  import Following
  import Holding

  // ----- What a turn delivers -----

  /** Whole lines go out, as far as the caller's room reaches. */
  lemma DeliversWholeLines(r: Reader, e: Event, k: nat)
    requires 0 < k <= |r.pending| && r.pending[k - 1] == 10 && 10 !in r.pending[k..]
    ensures Output(r, e) == r.pending[..Min(e.room, k)]
  {
    Holding.LastLineEnd(r.pending, k);
  }

  /** A line that does not end goes out when its file was closed, and not before. */
  lemma DeliversRest(r: Reader, e: Event)
    requires 10 !in r.pending
    ensures Output(r, e) == if r.flush then r.pending[..Min(e.room, |r.pending|)] else []
  {
  }

  // ----- What a turn reads -----

  /** One read takes what it is given, at most 32,768 bytes; at the end of the file it closes it. */
  lemma ReadsScratch(r: Reader, f: bytes, got: nat, max: nat, n: nat)
    requires r.cur.Some? && r.pos <= |f| && n == Min(got, 32768)
    ensures 0 < n <= |f| - r.pos ==> Filled(r, f, got, max).pending == r.pending + f[r.pos..r.pos + n] && Filled(r, f, got, max).pos == r.pos + n
    ensures 0 < |f| - r.pos < n ==> Filled(r, f, got, max).pending == r.pending + f[r.pos..] && Filled(r, f, got, max).pos == |f|
    ensures r.pos == |f| ==> var s := Filled(r, f, got, max); s.cur.None? && s.flush && r.cur.value in s.done && s.pending == r.pending
    ensures n == 0 && r.pos < |f| ==> Filled(r, f, got, max) == r
  {
  }

  // ----- Where a file is taken up -----

  /** What the store says about p. */
  function Known(s: seq<Kept>, p: Path): nat { if Lookup(s, p).Some? then Lookup(s, p).value else 0 }

  /** Nothing has been written to p since it was left, or it is gone, or it was closed in this pass. */
  predicate IsPassedOver(r: Reader, p: Path, files: Files) {
    p in r.done || p !in files || (Known(r.store, p) > 0 && |files[p]| == Known(r.store, p))
  }

  /**
   * A listed file is opened unless it is passed over: at its recorded offset, and at its head when it
   * has none or has become shorter than it.
   */
  lemma TakesUp(r: Reader, p: Path, files: Files)
    requires r.cur.None?
    ensures IsPassedOver(r, p, files) ==> Tried(r, p, files).cur.None?
    ensures !IsPassedOver(r, p, files) ==>
      var s := Tried(r, p, files);
      s.cur == Some(p) && s.pos == if Known(r.store, p) <= |files[p]| then Known(r.store, p) else 0
  {
  }

  /** The first listed file that is not passed over is opened; when all are, none is. */
  lemma OpensFirst(r: Reader, paths: seq<Path>, files: Files)
    requires r.cur.None?
    ensures paths == [] ==> Opened(r, paths, files).cur.None?
    ensures paths != [] && !IsPassedOver(r, paths[0], files) ==> Opened(r, paths, files).cur == Some(paths[0])
    ensures paths != [] && IsPassedOver(r, paths[0], files) ==>
      Opened(r, paths, files) == Opened(Tried(r, paths[0], files), paths[1..], files)
  {
    if paths != [] {
      TakesUp(r, paths[0], files);
    }
  }

  // ----- Fair directories -----

  lemma {:induction false} PathsExist(left: set<Path>) returns (paths: seq<Path>)
    ensures forall p <- left :: p in paths
    decreases |left|
  {
    paths := [];
    if left != {} {
      var p :| p in left;
      var rest := PathsExist(left - {p});
      paths := [p] + rest;
    }
  }

  /** Whatever files there are, no more than the store has room for, there is a fair event. */
  lemma FairEventExists(h: History, files: Files, room: nat, got: nat, max: nat) returns (e: Event)
    requires room > 0 && Following.Grows(h.files, files) && |files.Keys| <= max
    ensures IsFair(h, e, max) && e.files == files && e.room == room && e.got == got
  {
    var paths := PathsExist(files.Keys);
    e := Event(room, files, paths, got);
  }
}
