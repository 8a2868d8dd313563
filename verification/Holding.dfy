/**
 * How much the remote follower delivers in one turn, how much it holds back, and where it takes a
 * file up, each in terms of the bytes pending and the sizes listed.
 */
module Holding {
  import opened Bytes
  import opened Following

  // ----- What a turn delivers -----

  lemma NotBehind(s: bytes, c: byte, k: nat, i: nat)
    requires k <= i < |s| && c !in s[k..]
    ensures s[i] != c
  {
    assert s[i] == s[k..][i - k];
  }

  /** Whole lines end where the last newline is. */
  lemma LastLineEnd(s: bytes, k: nat)
    requires k <= |s| && (k > 0 ==> s[k - 1] == 10) && 10 !in s[k..]
    ensures LastIndexOf(s, LF) == k - 1
  {
    forall i | k <= i < |s|
      ensures s[i] != LF
    {
      NotBehind(s, LF, k, i);
    }
  }

  /** Whole lines go out, as far as the caller's room reaches. */
  lemma DeliversWholeLines(r: Reader, e: Event, chunk: nat, k: nat)
    requires 0 < k <= |r.pending| && r.pending[k - 1] == 10 && 10 !in r.pending[k..]
    ensures Output(r, e, chunk) == r.pending[..Min(e.room, k)]
  {
    LastLineEnd(r.pending, k);
  }

  /** Without a newline nothing goes out, until two chunks are held; then everything the caller has room for. */
  lemma ReleasesLongLine(r: Reader, e: Event, chunk: nat)
    requires 10 !in r.pending
    ensures Output(r, e, chunk) == if |r.pending| < 2 * chunk then [] else r.pending[..Min(e.room, |r.pending|)]
  {
  }

  /** A turn that finds two chunks pending always delivers: whole lines, or as much as the caller has room for. */
  lemma {:induction false} NeverHoldsTwoChunks(r: Reader, e: Event, chunk: nat)
    requires chunk > 0 && e.room > 0 && |r.pending| >= 2 * chunk
    ensures var out := Output(r, e, chunk);
      out != [] && out <= r.pending && (|out| == Min(e.room, |r.pending|) || out[|out| - 1] == 10)
  {
    var end := LastIndexOf(r.pending, LF);
    if end >= 0 {
      DeliversWholeLines(r, e, chunk, end + 1);
    } else {
      ReleasesLongLine(r, e, chunk);
    }
  }

  // ----- How much is held -----

  lemma FetchHoldsLess(r: Reader, got: bytes, chunk: nat)
    requires r.cur.Some? && |r.pending| <= r.off && |got| <= chunk
    ensures |Fetched(r, got, chunk).pending| <= |r.pending| + chunk
  {
  }

  /** A turn begun with fewer than three chunks pending ends so. */
  lemma TurnHoldsLess(r: Reader, e: Event, chunk: nat)
    requires IsDefined(r, chunk) && e.room > 0 && chunk > 0 && |r.pending| < 3 * chunk
    ensures |Turn(r, e, chunk).pending| < 3 * chunk
  {
    if Due(r, e, chunk) == 0 {
      if |r.pending| >= 2 * chunk {
        NeverHoldsTwoChunks(r, e, chunk);
      }
      var s := if r.cur.None? then Advanced(r) else r;
      if s.cur.Some? {
        assert |r.pending| <= r.off || r.cur.None?;
        assert r.cur.None? ==> r.pending == [];
        FetchHoldsLess(s, ReadFile(e.files, s.cur.value, s.off, chunk), chunk);
      }
    }
  }

  lemma {:induction false} RunHoldsLess(r: Reader, h: History, events: seq<Event>, chunk: nat, s: Reader, k: History)
    requires chunk > 0 && |r.pending| < 3 * chunk && Runs(r, h, events, chunk, s, k)
    ensures |s.pending| < 3 * chunk
    decreases |events|
  {
    if events != [] {
      var t, g :| Leads(r, h, events[0], chunk, t, g) && Runs(t, g, events[1..], chunk, s, k);
      TurnHoldsLess(r, events[0], chunk);
      RunHoldsLess(t, g, events[1..], chunk, s, k);
    }
  }

  /**
   * However the server writes and however long its lines are, after every turn of every run fewer
   * than three chunks are pending.
   */
  lemma EveryRunHoldsLittle(names: seq<Listed>, files: Files, offsets: map<Path, nat>, events: seq<Event>, chunk: nat, s: Reader, k: History)
    requires chunk > 0 && Runs(Opened(names, offsets), Begun(files, offsets), events, chunk, s, k)
    ensures |s.pending| < 3 * chunk
  {
    RunHoldsLess(Opened(names, offsets), Begun(files, offsets), events, chunk, s, k);
  }

  // ----- Where a file is taken up -----

  /** Nothing has been written to a listed file since it was left. */
  predicate IsUnchanged(f: Listed, offsets: map<Path, nat>) { f.name in offsets && f.size == offsets[f.name] > 0 }

  /**
   * The next file is the first one listed that is not unchanged. It is read from its recorded
   * offset, and from its head when it has none or has become shorter than it.
   */
  lemma {:induction false} TakesUp(r: Reader, k: nat)
    requires r.idx <= k <= |r.names| && (forall i | r.idx <= i < k :: IsUnchanged(r.names[i], r.offsets))
    requires k < |r.names| ==> !IsUnchanged(r.names[k], r.offsets)
    ensures k == |r.names| ==> Advanced(r).cur.None?
    ensures k < |r.names| ==>
      var f, s := r.names[k], Advanced(r);
      && s.idx == k + 1 && s.cur == Some(f.name)
      && s.off == if f.name in r.offsets && r.offsets[f.name] <= f.size then r.offsets[f.name] else 0
    decreases k - r.idx
  {
    if r.idx < k {
      assert IsUnchanged(r.names[r.idx], r.offsets);
      TakesUp(r.(idx := r.idx + 1), k);
    }
  }

  /** A chunk shorter than asked for ends the file for now: its last partial line is left to be read again. */
  lemma ShortChunkEndsFile(r: Reader, got: bytes, chunk: nat, k: nat)
    requires r.cur.Some? && |r.pending| <= r.off && (|got| < chunk || got == [])
    requires var b := r.pending + got; k <= |b| && (k > 0 ==> b[k - 1] == 10) && 10 !in b[k..]
    ensures var s := Fetched(r, got, chunk);
      s.cur.None? && s.pending == (r.pending + got)[..k] && OffsetOf(s.offsets, r.cur.value) == r.off + |got| - (|r.pending| + |got| - k)
  {
    LastLineEnd(r.pending + got, k);
  }

  /** A full chunk does not end it. */
  lemma FullChunkGoesOn(r: Reader, got: bytes, chunk: nat)
    requires r.cur.Some? && |r.pending| <= r.off && |got| == chunk > 0
    ensures Fetched(r, got, chunk) == r.(pending := r.pending + got, off := r.off + |got|)
  {
  }

  /** From the 2,500th path on, recording one more offset forgets the others. */
  lemma RecordForgets(m: map<Path, nat>, p: Path, off: nat, q: Path)
    ensures OffsetOf(SetOffset(m, p, off), q) == if q == p then off else if |m| < 2500 then OffsetOf(m, q) else 0
  {
  }

  // ----- Fair servers -----

  lemma {:induction false} ListingExists(files: Files, left: set<Path>) returns (names: seq<Listed>)
    requires left <= files.Keys
    ensures SizesOk(names, files) && (forall i | 0 <= i < |names| :: names[i].name in left)
    ensures AreDistinct(names) && forall p <- left :: IsAhead(names, 0, p)
    decreases |left|
  {
    names := [];
    if left != {} {
      var p :| p in left;
      var rest := ListingExists(files, left - {p});
      names := [Listed(p, |files[p]|)] + rest;
      forall q <- left
        ensures IsAhead(names, 0, q)
      {
        if q == p {
          assert names[0].name == p;
        } else {
          assert IsAhead(rest, 0, q);
          var i :| 0 <= i < |rest| && rest[i].name == q;
          assert names[i + 1].name == q;
        }
      }
    }
  }

  /** Whatever the server has, below 2,500 files, it can be listed: there is a fair event. */
  lemma FairEventExists(h: History, files: Files, room: nat) returns (e: Event)
    requires room > 0 && Grows(h.files, files) && |files| < 2500
    ensures IsFair(h, e) && e.files == files && e.room == room
  {
    var names := ListingExists(files, files.Keys);
    e := Event(room, files, names);
  }
}
