/**
 * The remote follower: it lists the server's log directory, reads each file chunk by chunk from its
 * recorded offset while the server goes on appending, and delivers whole lines.
 */
module Following {
  import opened Bytes

  type Path = string

  /** The server's log files. They only grow. */
  type Files = map<Path, bytes>

  ghost predicate Grows(f: Files, g: Files) { forall p <- f :: p in g && f[p] <= g[p] }

  /** One entry of the directory listing. */
  datatype Listed = Listed(name: Path, size: nat)

  // ----- Offsets -----

  /** The number of paths after which the in-memory store forgets everything. */
  const MAX_TRACKED: nat := 2500

  function OffsetOf(m: map<Path, nat>, p: Path): nat { if p in m then m[p] else 0 }

  function SetOffset(m: map<Path, nat>, p: Path, off: nat): map<Path, nat> {
    (if |m| >= MAX_TRACKED then map[] else m)[p := off]
  }

  // ----- The reader -----

  /** cur is the file being read, off the offset of its next byte, pending what is fetched but not delivered. */
  datatype Reader = Reader(names: seq<Listed>, idx: nat, cur: Option<Path>, off: nat, pending: bytes, offsets: map<Path, nat>)

  /** How many bytes after the last newline are held. */
  function PartialTail(pending: bytes): (n: nat)
    ensures n <= |pending| && LF !in pending[|pending| - n..]
    ensures n < |pending| ==> pending[|pending| - n - 1] == LF
  {
    |pending| - 1 - LastIndexOf(pending, LF)
  }

  /** How much may be delivered: whole lines, or everything when no line ends within two chunks. */
  function Ready(pending: bytes, chunk: nat): (n: nat)
    ensures n <= |pending|
  {
    var end := LastIndexOf(pending, LF);
    if end >= 0 then end + 1 else if |pending| >= 2 * chunk then |pending| else 0
  }

  /** The reader after n bytes were delivered; the offset of the file being read is recorded. */
  function Delivered(r: Reader, n: nat): Reader
    requires n <= |r.pending| && (r.cur.Some? ==> |r.pending| <= r.off)
  {
    var rest := r.pending[n..];
    r.(pending := rest,
       offsets := if r.cur.Some? then SetOffset(r.offsets, r.cur.value, r.off - |rest|) else r.offsets)
  }

  /** The end of the file for now: a partial line is given back, to be read again whole. */
  function Finished(r: Reader): Reader
    requires r.cur.Some? && |r.pending| <= r.off
  {
    var tail := PartialTail(r.pending);
    r.(pending := r.pending[..|r.pending| - tail], off := r.off - tail, cur := None,
       offsets := SetOffset(r.offsets, r.cur.value, r.off - tail))
  }

  /** The reader with one more chunk, at most chunk bytes long, of the file it reads. */
  function Fetched(r: Reader, got: bytes, chunk: nat): Reader
    requires r.cur.Some? && |r.pending| <= r.off
  {
    var s := r.(pending := r.pending + got, off := r.off + |got|);
    if |got| < chunk || got == [] then Finished(s) else s
  }

  /** The reader moved to the next listed file with unread bytes, if there is one. */
  function Advanced(r: Reader): (s: Reader)
    requires r.idx <= |r.names|
    ensures r.idx <= s.idx <= |r.names| && s.names == r.names && s.pending == r.pending && s.offsets == r.offsets
    ensures s.cur.None? ==> s.idx == |r.names|
    decreases |r.names| - r.idx
  {
    if r.idx == |r.names| then r.(cur := None)
    else
      var f := r.names[r.idx];
      var off := OffsetOf(r.offsets, f.name);
      var s := r.(idx := r.idx + 1);
      if off > 0 && f.size == off then Advanced(s)
      else s.(cur := Some(f.name), off := if f.size < off then 0 else off)
  }

  /** What the server returns for a chunk of a file. */
  function ReadFile(files: Files, p: Path, off: nat, chunk: nat): bytes {
    if p !in files || off >= |files[p]| then [] else files[p][off..Min(off + chunk, |files[p]|)]
  }

  /** What happens around one turn: the caller's room, and the files and the listing the server would show. */
  datatype Event = Event(room: nat, files: Files, listing: seq<Listed>)

  /** How many bytes a turn delivers. */
  function Due(r: Reader, e: Event, chunk: nat): (n: nat)
    ensures n <= |r.pending| && n <= e.room
  {
    Min(e.room, Ready(r.pending, chunk))
  }

  function Output(r: Reader, e: Event, chunk: nat): bytes { r.pending[..Due(r, e, chunk)] }

  /** Nothing is left of the last listing: the turn waits, and lists the directory again. */
  predicate Waits(r: Reader, e: Event, chunk: nat)
    requires r.idx <= |r.names|
  {
    Due(r, e, chunk) == 0 && r.cur.None? && Advanced(r).cur.None?
  }

  /** One turn of the reader's loop. */
  function Turn(r: Reader, e: Event, chunk: nat): Reader
    requires r.idx <= |r.names| && (r.cur.Some? ==> |r.pending| <= r.off) && (r.cur.None? ==> Ready(r.pending, chunk) == |r.pending|)
    requires e.room > 0
  {
    if Due(r, e, chunk) > 0 then Delivered(r, Due(r, e, chunk))
    else
      var s := if r.cur.None? then Advanced(r) else r;
      if s.cur.None? then s.(names := e.listing, idx := 0)
      else Fetched(s, ReadFile(e.files, s.cur.value, s.off, chunk), chunk)
  }

  // ----- What has happened -----

  /** The files as they are now, where each was begun, what was sent of each, whose bytes are pending, and what was listed last. */
  datatype History = History(files: Files, from: map<Path, nat>, sent: map<Path, bytes>, owner: Option<Path>, listed: Files)

  function SentOf(h: History, p: Path): bytes { if p in h.sent then h.sent[p] else [] }

  /** How far a file has been delivered. */
  function Position(h: History, p: Path): nat { OffsetOf(h.from, p) + |SentOf(h, p)| }

  /** What is pending of a file that is not being read any more. */
  function Held(r: Reader, h: History, p: Path): nat {
    if r.cur.None? && h.owner == Some(p) then |r.pending| else 0
  }

  /** What was delivered of p is exactly a stretch of it from where it was begun. */
  ghost predicate IsExact(h: History, p: Path)
    requires p in h.files
  {
    Position(h, p) <= |h.files[p]| && SentOf(h, p) == h.files[p][OffsetOf(h.from, p)..Position(h, p)]
  }

  /** The recorded offset of p is where it has been delivered up to, and what is held of it. */
  predicate IsRecorded(r: Reader, h: History, p: Path) { OffsetOf(r.offsets, p) == Position(h, p) + Held(r, h, p) }

  ghost predicate FilesOk(r: Reader, h: History) {
    forall p <- h.files :: IsExact(h, p) && IsRecorded(r, h, p)
  }

  /** What is pending is the stretch of its file behind what was delivered of it. */
  ghost predicate PendingOk(r: Reader, h: History) {
    && (r.cur.Some? ==> r.cur == h.owner)
    && (r.cur.None? ==> r.pending == [] || r.pending[|r.pending| - 1] == LF)
    && (h.owner.None? ==> r.pending == [])
    && (h.owner.Some? ==>
        var p := h.owner.value;
        && p in h.files && Position(h, p) + |r.pending| <= |h.files[p]|
        && r.pending == h.files[p][Position(h, p)..Position(h, p) + |r.pending|]
        && (r.cur.Some? ==> r.off == Position(h, p) + |r.pending|))
  }

  /** p is listed at or behind idx. */
  ghost predicate IsAhead(names: seq<Listed>, idx: nat, p: Path) { exists i | idx <= i < |names| :: names[i].name == p }

  ghost predicate AreDistinct(names: seq<Listed>) {
    forall i, j | 0 <= i < |names| && 0 <= j < |names| :: names[i].name == names[j].name ==> i == j
  }

  ghost predicate SizesOk(names: seq<Listed>, files: Files) {
    forall i | 0 <= i < |names| :: names[i].name in files && names[i].size == |files[names[i].name]|
  }

  /** Every file, once, with its size. */
  ghost predicate IsListing(names: seq<Listed>, files: Files) {
    AreDistinct(names) && SizesOk(names, files) && forall p <- files :: IsAhead(names, 0, p)
  }

  /** Every newline of f is before off. */
  ghost predicate Caught(f: bytes, off: nat) { forall j | off <= j < |f| :: f[j] != LF }

  /** Of every listed file, all lines were read, or it is being read, or it is still ahead. */
  ghost predicate CaughtOk(r: Reader, h: History) {
    forall p <- h.listed :: IsAhead(r.names, r.idx, p) || r.cur == Some(p) || Caught(h.listed[p], OffsetOf(r.offsets, p))
  }

  /** The files ahead are not being read, and are at least as long as what was read of them. */
  ghost predicate AheadOk(r: Reader) {
    forall i | r.idx <= i < |r.names| ::
      r.cur != Some(r.names[i].name) && OffsetOf(r.offsets, r.names[i].name) <= r.names[i].size
  }

  ghost predicate ListOk(r: Reader, h: History) {
    && r.idx <= |r.names| && AreDistinct(r.names) && SizesOk(r.names, h.listed) && Grows(h.listed, h.files)
    && CaughtOk(r, h) && AheadOk(r)
  }

  ghost predicate Inv(r: Reader, h: History) {
    && FilesOk(r, h) && PendingOk(r, h) && ListOk(r, h)
    && r.offsets.Keys <= h.files.Keys && h.from.Keys <= h.files.Keys && h.sent.Keys <= h.files.Keys
    && |h.files| < MAX_TRACKED
  }

  // ----- The server appends -----

  lemma GrownSlice(f: bytes, g: bytes, i: nat, j: nat)
    requires f <= g && i <= j <= |f|
    ensures g[i..j] == f[i..j]
  {
  }

  lemma GrowExact(h: History, files: Files, p: Path)
    requires p in h.files && p in files && h.files[p] <= files[p] && IsExact(h, p)
    ensures IsExact(h.(files := files), p)
  {
    GrownSlice(h.files[p], files[p], OffsetOf(h.from, p), Position(h, p));
  }

  lemma GrowFilesOk(r: Reader, h: History, files: Files)
    requires Inv(r, h) && Grows(h.files, files)
    ensures FilesOk(r, h.(files := files))
  {
    var k := h.(files := files);
    forall p <- files
      ensures IsExact(k, p) && IsRecorded(r, k, p)
    {
      if p in h.files {
        GrowExact(h, files, p);
        assert IsRecorded(r, h, p);
      } else {
        assert p !in h.sent && p !in h.from && p !in r.offsets && h.owner != Some(p);
      }
    }
  }

  lemma GrowPendingOk(r: Reader, h: History, files: Files)
    requires PendingOk(r, h) && Grows(h.files, files)
    ensures PendingOk(r, h.(files := files))
  {
    if h.owner.Some? {
      var p := h.owner.value;
      GrownSlice(h.files[p], files[p], Position(h, p), Position(h, p) + |r.pending|);
    }
  }

  lemma GrowsTransitive(f: Files, g: Files, k: Files)
    requires Grows(f, g) && Grows(g, k)
    ensures Grows(f, k)
  {
  }

  /** What the server appends between two requests changes nothing that was promised. */
  lemma GrowKeeps(r: Reader, h: History, files: Files)
    requires Inv(r, h) && Grows(h.files, files) && |files| < MAX_TRACKED
    ensures Inv(r, h.(files := files))
  {
    GrowFilesOk(r, h, files);
    GrowPendingOk(r, h, files);
    GrowsTransitive(h.listed, h.files, files);
  }

  // ----- Delivering -----

  lemma SmallMap(m: map<Path, nat>, files: Files)
    requires m.Keys <= files.Keys
    ensures |m| <= |files|
  {
    SmallSet(m.Keys, files.Keys);
  }

  lemma SmallSet(a: set<Path>, b: set<Path>)
    requires a <= b
    ensures |a| <= |b|
  {
    if a != {} {
      var x :| x in a;
      SmallSet(a - {x}, b - {x});
    }
  }

  /** While fewer than 2,500 paths are known, recording an offset forgets nothing. */
  lemma RecordForgetsNothing(m: map<Path, nat>, files: Files, p: Path, off: nat)
    requires m.Keys <= files.Keys && |files| < MAX_TRACKED
    ensures SetOffset(m, p, off) == m[p := off]
  {
    SmallMap(m, files);
  }

  function SentMore(h: History, p: Path, out: bytes): History { h.(sent := h.sent[p := SentOf(h, p) + out]) }

  lemma JoinStretches(f: bytes, i: nat, j: nat, k: nat)
    requires i <= j <= k <= |f|
    ensures f[i..j] + f[j..k] == f[i..k]
  {
  }

  lemma SentExact(r: Reader, h: History, n: nat)
    requires PendingOk(r, h) && h.owner.Some? && n <= |r.pending| && IsExact(h, h.owner.value)
    ensures var p := h.owner.value; IsExact(SentMore(h, p, r.pending[..n]), p)
  {
    var p := h.owner.value;
    var f, i, j := h.files[p], OffsetOf(h.from, p), Position(h, p);
    StretchPrefix(f, j, |r.pending|, n);
    JoinStretches(f, i, j, j + n);
    var k := SentMore(h, p, r.pending[..n]);
    assert SentOf(k, p) == SentOf(h, p) + f[j..j + n] && Position(k, p) == j + n;
  }

  /** The reader after a delivery, when the store forgets nothing. */
  function After(r: Reader, p: Path, n: nat): Reader
    requires n <= |r.pending| && (r.cur.Some? ==> |r.pending| <= r.off)
  {
    r.(pending := r.pending[n..], offsets := if r.cur.Some? then r.offsets[p := r.off - |r.pending| + n] else r.offsets)
  }

  lemma DeliveredIsAfter(r: Reader, h: History, n: nat)
    requires Inv(r, h) && h.owner.Some? && n <= |r.pending|
    ensures Delivered(r, n) == After(r, h.owner.value, n)
  {
    if r.cur.Some? {
      RecordForgetsNothing(r.offsets, h.files, h.owner.value, r.off - (|r.pending| - n));
    }
  }

  lemma DeliverOther(r: Reader, h: History, n: nat, q: Path)
    requires PendingOk(r, h) && h.owner.Some? && n <= |r.pending| && q in h.files && q != h.owner.value
    requires IsExact(h, q) && IsRecorded(r, h, q)
    ensures var p := h.owner.value; var k := SentMore(h, p, r.pending[..n]);
      IsExact(k, q) && IsRecorded(After(r, p, n), k, q)
  {
  }

  lemma DeliverOwner(r: Reader, h: History, n: nat)
    requires PendingOk(r, h) && h.owner.Some? && n <= |r.pending| && IsRecorded(r, h, h.owner.value)
    ensures var p := h.owner.value; IsRecorded(After(r, p, n), SentMore(h, p, r.pending[..n]), p)
  {
  }

  lemma DeliverFilesOk(r: Reader, h: History, n: nat)
    requires FilesOk(r, h) && PendingOk(r, h) && h.owner.Some? && n <= |r.pending|
    ensures FilesOk(After(r, h.owner.value, n), SentMore(h, h.owner.value, r.pending[..n]))
  {
    var p := h.owner.value;
    forall q <- h.files
      ensures IsExact(SentMore(h, p, r.pending[..n]), q) && IsRecorded(After(r, p, n), SentMore(h, p, r.pending[..n]), q)
    {
      assert IsExact(h, q) && IsRecorded(r, h, q);
      if q == p {
        SentExact(r, h, n);
        DeliverOwner(r, h, n);
      } else {
        DeliverOther(r, h, n, q);
      }
    }
  }

  lemma SuffixOfSlice(f: bytes, i: nat, b: bytes, n: nat)
    requires i + |b| <= |f| && b == f[i..i + |b|] && n <= |b|
    ensures b[n..] == f[i + n..i + |b|]
  {
  }

  lemma DeliverPendingOk(r: Reader, h: History, n: nat)
    requires PendingOk(r, h) && h.owner.Some? && n <= |r.pending|
    ensures PendingOk(After(r, h.owner.value, n), SentMore(h, h.owner.value, r.pending[..n]))
  {
    var p := h.owner.value;
    SentPosition(h, p, r.pending[..n]);
    ShorterPendingOk(r, After(r, p, n), h, SentMore(h, p, r.pending[..n]), p, n);
  }

  lemma ShorterPendingOk(r: Reader, s: Reader, h: History, k: History, p: Path, n: nat)
    requires PendingOk(r, h) && h.owner == k.owner == Some(p) && n <= |r.pending|
    requires s.cur == r.cur && s.off == r.off && s.pending == r.pending[n..]
    requires k.files == h.files && Position(k, p) == Position(h, p) + n
    ensures PendingOk(s, k)
  {
    SuffixOfSlice(h.files[p], Position(h, p), r.pending, n);
    LastOfSuffix(r.pending, n);
  }

  lemma SentPosition(h: History, p: Path, out: bytes)
    ensures Position(SentMore(h, p, out), p) == Position(h, p) + |out|
  {
  }

  lemma LastOfSuffix(b: bytes, n: nat)
    requires n <= |b|
    ensures |b[n..]| == |b| - n && (n < |b| ==> b[n..][|b| - n - 1] == b[|b| - 1])
  {
  }

  /** The list is as good as before when only the offset of the file being read has changed. */
  lemma SameList(r: Reader, s: Reader, h: History, k: History)
    requires ListOk(r, h) && s.names == r.names && s.idx == r.idx && s.cur == r.cur && k.listed == h.listed && k.files == h.files
    requires forall q: Path :: r.cur != Some(q) ==> OffsetOf(s.offsets, q) == OffsetOf(r.offsets, q)
    ensures ListOk(s, k)
  {
  }

  lemma DeliverKeeps(r: Reader, h: History, n: nat)
    requires Inv(r, h) && h.owner.Some? && n <= |r.pending|
    ensures Inv(Delivered(r, n), SentMore(h, h.owner.value, r.pending[..n]))
  {
    var p := h.owner.value;
    DeliveredIsAfter(r, h, n);
    DeliverFilesOk(r, h, n);
    DeliverPendingOk(r, h, n);
    SameList(r, After(r, p, n), h, SentMore(h, p, r.pending[..n]));
  }

  // ----- Moving on to the next file -----

  lemma OneLessAhead(names: seq<Listed>, idx: nat, p: Path)
    requires idx < |names| && IsAhead(names, idx, p) && names[idx].name != p
    ensures IsAhead(names, idx + 1, p)
  {
  }

  /** Moving on by one is fine when the file passed is read, or read to the end. */
  lemma PassedCaughtOk(r: Reader, s: Reader, h: History)
    requires CaughtOk(r, h) && r.idx < |r.names| && s.names == r.names && s.idx == r.idx + 1 && s.offsets == r.offsets && r.cur.None?
    requires var p := r.names[r.idx].name; p in h.listed && (s.cur == Some(p) || (s.cur.None? && Caught(h.listed[p], OffsetOf(r.offsets, p))))
    ensures CaughtOk(s, h)
  {
    forall p <- h.listed
      ensures IsAhead(s.names, s.idx, p) || s.cur == Some(p) || Caught(h.listed[p], OffsetOf(s.offsets, p))
    {
      if p != r.names[r.idx].name && IsAhead(r.names, r.idx, p) {
        OneLessAhead(r.names, r.idx, p);
      }
    }
  }

  lemma PassedOk(r: Reader, s: Reader, h: History)
    requires AheadOk(r) && PendingOk(r, h) && s == r.(idx := r.idx + 1)
    ensures AheadOk(s) && PendingOk(s, h)
  {
  }

  /** Leaving out a listed file of which everything is delivered. */
  lemma SkipKeeps(r: Reader, h: History)
    requires Inv(r, h) && r.cur.None? && r.idx < |r.names|
    requires r.names[r.idx].size == OffsetOf(r.offsets, r.names[r.idx].name)
    ensures Inv(r.(idx := r.idx + 1), h)
  {
    var s := r.(idx := r.idx + 1);
    assert CaughtOk(s, h) by { PassedCaughtOk(r, s, h); }
    assert FilesOk(s, h) by { SameFiles(r, s, h, h); }
    PassedOk(r, s, h);
  }

  lemma SameFiles(r: Reader, s: Reader, h: History, k: History)
    requires FilesOk(r, h) && s.offsets == r.offsets && r.cur.None? && s.pending == r.pending
    requires k == h || (r.pending == [] && k == h.(owner := k.owner))
    requires s.cur.Some? ==> r.pending == []
    ensures FilesOk(s, k)
  {
    forall q <- k.files
      ensures IsExact(k, q) && IsRecorded(s, k, q)
    {
      assert IsExact(h, q) && IsRecorded(r, h, q);
    }
  }

  lemma BeginPendingOk(r: Reader, h: History, p: Path)
    requires r.pending == [] && p in h.files && OffsetOf(r.offsets, p) == Position(h, p) <= |h.files[p]|
    ensures PendingOk(r.(cur := Some(p), off := OffsetOf(r.offsets, p)), h.(owner := Some(p)))
  {
    var j := Position(h, p);
    assert h.files[p][j..j + 0] == [];
    assert Position(h.(owner := Some(p)), p) == j;
  }

  lemma BeginAheadOk(r: Reader, p: Path)
    requires AheadOk(r) && AreDistinct(r.names) && r.idx < |r.names| && p == r.names[r.idx].name
    ensures AheadOk(r.(idx := r.idx + 1, cur := Some(p), off := OffsetOf(r.offsets, p)))
  {
  }

  lemma RecordedPosition(r: Reader, h: History, p: Path)
    requires FilesOk(r, h) && r.pending == [] && p in h.files
    ensures OffsetOf(r.offsets, p) == Position(h, p) <= |h.files[p]|
  {
    assert IsExact(h, p) && IsRecorded(r, h, p);
  }

  lemma BeginKeeps(r: Reader, h: History)
    requires Inv(r, h) && r.cur.None? && r.pending == [] && r.idx < |r.names|
    ensures var p := r.names[r.idx].name;
      Inv(r.(idx := r.idx + 1, cur := Some(p), off := OffsetOf(r.offsets, p)), h.(owner := Some(p)))
  {
    var p := r.names[r.idx].name;
    var s, k := r.(idx := r.idx + 1, cur := Some(p), off := OffsetOf(r.offsets, p)), h.(owner := Some(p));
    SameFiles(r, s, h, k);
    PassedCaughtOk(r, s, k);
    RecordedPosition(r, h, p);
    BeginPendingOk(r, h, p);
    PendingSame(r.(cur := Some(p), off := OffsetOf(r.offsets, p)), s, k);
    BeginAheadOk(r, p);
  }

  lemma PendingSame(r: Reader, s: Reader, h: History)
    requires PendingOk(r, h) && s == r.(idx := s.idx)
    ensures PendingOk(s, h)
  {
  }

  lemma {:induction false} AdvanceKeeps(r: Reader, h: History)
    requires Inv(r, h) && r.cur.None? && r.pending == []
    ensures var s := Advanced(r);
      if s.cur.Some? then Inv(s, h.(owner := s.cur)) else Inv(s, h)
    decreases |r.names| - r.idx
  {
    if r.idx < |r.names| {
      var f := r.names[r.idx];
      var off := OffsetOf(r.offsets, f.name);
      if off > 0 && f.size == off {
        SkipKeeps(r, h);
        AdvanceKeeps(r.(idx := r.idx + 1), h);
      } else {
        BeginKeeps(r, h);
      }
    }
  }

  // ----- Fetching -----

  lemma ExtendSlice(f: bytes, i: nat, j: nat, k: nat)
    requires i <= j <= k <= |f|
    ensures f[i..j] + f[j..k] == f[i..k]
  {
  }

  /** The reader and one more chunk, before the question whether the file is finished. */
  function Longer(r: Reader, got: bytes): Reader { r.(pending := r.pending + got, off := r.off + |got|) }

  lemma LongerPendingOk(r: Reader, h: History, p: Path, chunk: nat)
    requires PendingOk(r, h) && r.cur == Some(p)
    ensures var got := ReadFile(h.files, p, r.off, chunk); PendingOk(Longer(r, got), h)
  {
    var got := ReadFile(h.files, p, r.off, chunk);
    ExtendSlice(h.files[p], Position(h, p), r.off, r.off + |got|);
  }

  lemma LongerKeeps(r: Reader, h: History, p: Path, chunk: nat)
    requires Inv(r, h) && r.cur == Some(p)
    ensures Inv(Longer(r, ReadFile(h.files, p, r.off, chunk)), h)
  {
    var s := Longer(r, ReadFile(h.files, p, r.off, chunk));
    LongerPendingOk(r, h, p, chunk);
    forall q <- h.files
      ensures IsExact(h, q) && IsRecorded(s, h, q)
    {
      assert IsExact(h, q) && IsRecorded(r, h, q);
    }
    SameList(r, s, h, h);
  }

  /** A reader that has read its file to the end. */
  ghost predicate AtEnd(r: Reader, h: History) { r.cur.Some? && r.cur.value in h.files && r.off == |h.files[r.cur.value]| }

  /** The finished reader, when the store forgets nothing. */
  function Ended(r: Reader, p: Path): Reader
    requires |r.pending| <= r.off
  {
    var tail := PartialTail(r.pending);
    r.(pending := r.pending[..|r.pending| - tail], off := r.off - tail, cur := None, offsets := r.offsets[p := r.off - tail])
  }

  lemma PendingIsRead(r: Reader, h: History)
    requires PendingOk(r, h) && r.cur.Some?
    ensures |r.pending| <= r.off && r.cur == h.owner && r.cur.value in h.files
    ensures r.off == Position(h, r.cur.value) + |r.pending| <= |h.files[r.cur.value]|
  {
  }

  lemma FinishedIsEnded(r: Reader, files: Files, p: Path)
    requires r.offsets.Keys <= files.Keys && |files| < MAX_TRACKED && r.cur == Some(p) && |r.pending| <= r.off
    ensures Finished(r) == Ended(r, p)
  {
    RecordForgetsNothing(r.offsets, files, p, r.off - PartialTail(r.pending));
  }

  lemma StretchPrefix(f: bytes, j: nat, m: nat, n: nat)
    requires j + m <= |f| && n <= m
    ensures f[j..j + m][..n] == f[j..j + n]
  {
  }

  lemma EndedPendingOk(r: Reader, h: History, p: Path)
    requires PendingOk(r, h) && r.cur == Some(p)
    ensures PendingOk(Ended(r, p), h)
  {
    PendingIsRead(r, h);
    StretchPrefix(h.files[p], Position(h, p), |r.pending|, |r.pending| - PartialTail(r.pending));
  }

  lemma EndedRecorded(r: Reader, h: History, p: Path, q: Path)
    requires r.cur == Some(p) == h.owner && r.off == Position(h, p) + |r.pending|
    requires q != p ==> IsRecorded(r, h, q)
    ensures IsRecorded(Ended(r, p), h, q)
  {
  }

  lemma EndedFilesOk(r: Reader, h: History, p: Path)
    requires FilesOk(r, h) && PendingOk(r, h) && r.cur == Some(p)
    ensures FilesOk(Ended(r, p), h)
  {
    PendingIsRead(r, h);
    forall q <- h.files
      ensures IsExact(h, q) && IsRecorded(Ended(r, p), h, q)
    {
      assert IsExact(h, q) && IsRecorded(r, h, q);
      EndedRecorded(r, h, p, q);
    }
  }

  /** At the end of its file, all of its lines are behind the recorded offset. */
  lemma EndedCaught(r: Reader, h: History, p: Path)
    requires PendingOk(r, h) && r.cur == Some(p) && AtEnd(r, h) && p in h.listed && h.listed[p] <= h.files[p]
    ensures Caught(h.listed[p], r.off - PartialTail(r.pending))
  {
    var f, j, tail := h.files[p], Position(h, p), PartialTail(r.pending);
    forall k | r.off - tail <= k < |h.listed[p]|
      ensures h.listed[p][k] != LF
    {
      assert h.listed[p][k] == f[k] == r.pending[k - j] == r.pending[|r.pending| - tail..][k - (r.off - tail)];
    }
  }

  lemma EndedCaughtOk(r: Reader, h: History, p: Path)
    requires CaughtOk(r, h) && PendingOk(r, h) && r.cur == Some(p) && AtEnd(r, h) && Grows(h.listed, h.files)
    ensures CaughtOk(Ended(r, p), h)
  {
    if p in h.listed {
      EndedCaught(r, h, p);
    }
  }

  lemma EndedAheadOk(r: Reader, p: Path)
    requires AheadOk(r) && r.cur == Some(p) && |r.pending| <= r.off
    ensures AheadOk(Ended(r, p))
  {
  }

  lemma FinishKeeps(r: Reader, h: History, p: Path)
    requires Inv(r, h) && r.cur == Some(p) && AtEnd(r, h)
    ensures |r.pending| <= r.off && Inv(Finished(r), h)
  {
    PendingIsRead(r, h);
    FinishedIsEnded(r, h.files, p);
    EndedPendingOk(r, h, p);
    EndedFilesOk(r, h, p);
    EndedCaughtOk(r, h, p);
    EndedAheadOk(r, p);
  }

  lemma FetchedIs(r: Reader, got: bytes, chunk: nat)
    requires r.cur.Some? && |r.pending| <= r.off
    ensures Fetched(r, got, chunk) == if |got| < chunk || got == [] then Finished(Longer(r, got)) else Longer(r, got)
  {
  }

  /** A chunk that comes back short is the last of its file. */
  lemma FetchKeeps(r: Reader, h: History, p: Path, chunk: nat)
    requires Inv(r, h) && r.cur == Some(p) && chunk > 0
    ensures |r.pending| <= r.off && Inv(Fetched(r, ReadFile(h.files, p, r.off, chunk), chunk), h)
  {
    var got := ReadFile(h.files, p, r.off, chunk);
    LongerKeeps(r, h, p, chunk);
    FetchedIs(r, got, chunk);
    if |got| < chunk || got == [] {
      FinishKeeps(Longer(r, got), h, p);
    }
  }

  // ----- Listing again -----

  lemma RelistAheadOk(r: Reader, h: History, names: seq<Listed>)
    requires FilesOk(r, h) && r.cur.None? && r.pending == [] && SizesOk(names, h.files)
    ensures AheadOk(r.(names := names, idx := 0))
  {
    forall i | 0 <= i < |names|
      ensures OffsetOf(r.offsets, names[i].name) <= names[i].size
    {
      RecordedPosition(r, h, names[i].name);
    }
  }

  lemma RelistFilesOk(r: Reader, h: History, names: seq<Listed>)
    requires FilesOk(r, h)
    ensures FilesOk(r.(names := names, idx := 0), h.(listed := h.files))
  {
    forall q <- h.files
      ensures IsExact(h.(listed := h.files), q) && IsRecorded(r.(names := names, idx := 0), h.(listed := h.files), q)
    {
      assert IsExact(h, q) && IsRecorded(r, h, q);
    }
  }

  lemma RelistKeeps(r: Reader, h: History, names: seq<Listed>)
    requires Inv(r, h) && r.cur.None? && r.pending == [] && IsListing(names, h.files)
    ensures Inv(r.(names := names, idx := 0), h.(listed := h.files))
  {
    var s, k := r.(names := names, idx := 0), h.(listed := h.files);
    RelistAheadOk(r, h, names);
    RelistFilesOk(r, h, names);
    RelistPendingOk(r, s, h, k);
    assert s.cur.None? && s.names == names && k.listed == h.files == k.files;
  }

  lemma RelistPendingOk(r: Reader, s: Reader, h: History, k: History)
    requires PendingOk(r, h) && s == r.(names := s.names, idx := 0) && k == h.(listed := k.listed)
    ensures PendingOk(s, k)
  {
  }

  // ----- Turns and runs -----

  /** What a turn adds to the history. */
  function Recorded(h: History, r: Reader, e: Event, chunk: nat): History
    requires r.idx <= |r.names|
  {
    var k := h.(files := e.files);
    if Due(r, e, chunk) > 0 then if h.owner.Some? then SentMore(k, h.owner.value, Output(r, e, chunk)) else k
    else
      var s := if r.cur.None? then Advanced(r) else r;
      if s.cur.None? then k.(listed := e.files) else k.(owner := s.cur)
  }

  /** The server has appended only, shows what it has, and the caller has room. */
  ghost predicate IsFair(h: History, e: Event) {
    e.room > 0 && Grows(h.files, e.files) && |e.files| < MAX_TRACKED && IsListing(e.listing, e.files)
  }

  /** What the reader's steps rely on. */
  predicate IsDefined(r: Reader, chunk: nat) {
    && r.idx <= |r.names|
    && (r.cur.Some? ==> |r.pending| <= r.off)
    && (r.cur.None? ==> Ready(r.pending, chunk) == |r.pending|)
  }

  lemma TurnIsDefined(r: Reader, h: History, chunk: nat)
    requires Inv(r, h)
    ensures IsDefined(r, chunk)
  {
  }

  lemma AdvanceTurn(r: Reader, h: History, e: Event, chunk: nat) returns (s: Reader, k: History)
    requires Inv(r, h) && h.files == e.files && IsFair(h, e) && chunk > 0 && r.cur.None? && r.pending == []
    ensures s == Turn(r, e, chunk) && k == Recorded(h, r, e, chunk)
    ensures Inv(s, k)
  {
    AdvanceKeeps(r, h);
    s, k := Advanced(r), h;
    if s.cur.Some? {
      k := h.(owner := s.cur);
      FetchKeeps(s, k, s.cur.value, chunk);
      s := Fetched(s, ReadFile(e.files, s.cur.value, s.off, chunk), chunk);
    } else {
      RelistKeeps(s, h, e.listing);
      s, k := s.(names := e.listing, idx := 0), h.(listed := e.files);
    }
  }

  /**
   * Every turn keeps every promise, whatever the server has appended: of each file exactly a
   * stretch from where it was begun has been delivered, each byte once and in order, and its
   * recorded offset is where delivery has come to.
   */
  lemma TurnKeeps(r: Reader, h: History, e: Event, chunk: nat) returns (s: Reader, k: History)
    requires Inv(r, h) && IsFair(h, e) && chunk > 0
    ensures IsDefined(r, chunk) && s == Turn(r, e, chunk) && k == Recorded(h, r, e, chunk)
    ensures Inv(s, k)
  {
    TurnIsDefined(r, h, chunk);
    k := h.(files := e.files);
    GrowKeeps(r, h, e.files);
    if Due(r, e, chunk) > 0 {
      DeliverKeeps(r, k, Due(r, e, chunk));
      s, k := Delivered(r, Due(r, e, chunk)), SentMore(k, h.owner.value, Output(r, e, chunk));
    } else if r.cur.Some? {
      FetchKeeps(r, k, r.cur.value, chunk);
      s, k := Fetched(r, ReadFile(e.files, r.cur.value, r.off, chunk), chunk), k.(owner := r.cur);
    } else {
      s, k := AdvanceTurn(r, k, e, chunk);
    }
  }

  /** A reader that begins with the listing names and the recorded offsets. */
  function Opened(names: seq<Listed>, offsets: map<Path, nat>): Reader { Reader(names, 0, None, 0, [], offsets) }

  function Begun(files: Files, offsets: map<Path, nat>): History { History(files, offsets, map[], None, files) }

  lemma OpenedKeeps(names: seq<Listed>, files: Files, offsets: map<Path, nat>)
    requires IsListing(names, files) && |files| < MAX_TRACKED
    requires offsets.Keys <= files.Keys && forall p <- offsets :: offsets[p] <= |files[p]|
    ensures Inv(Opened(names, offsets), Begun(files, offsets))
  {
    var r, h := Opened(names, offsets), Begun(files, offsets);
    forall p <- files
      ensures IsExact(h, p) && IsRecorded(r, h, p) && OffsetOf(offsets, p) <= |files[p]|
    {
      assert files[p][OffsetOf(offsets, p)..OffsetOf(offsets, p)] == [];
    }
  }

  /** One turn of a run leads from r and h to s and k. */
  ghost predicate Leads(r: Reader, h: History, e: Event, chunk: nat, s: Reader, k: History) {
    IsFair(h, e) && IsDefined(r, chunk) && s == Turn(r, e, chunk) && k == Recorded(h, r, e, chunk)
  }

  /** A run: turns one after the other, the server appending between them as it likes. */
  ghost predicate Runs(r: Reader, h: History, events: seq<Event>, chunk: nat, s: Reader, k: History)
    decreases |events|
  {
    if events == [] then s == r && k == h
    else exists t, g :: Leads(r, h, events[0], chunk, t, g) && Runs(t, g, events[1..], chunk, s, k)
  }

  lemma {:induction false} RunKeeps(r: Reader, h: History, events: seq<Event>, chunk: nat, s: Reader, k: History)
    requires Inv(r, h) && chunk > 0 && Runs(r, h, events, chunk, s, k)
    ensures Inv(s, k)
    decreases |events|
  {
    if events != [] {
      var t, g :| Leads(r, h, events[0], chunk, t, g) && Runs(t, g, events[1..], chunk, s, k);
      var _, _ := TurnKeeps(r, h, events[0], chunk);
      RunKeeps(t, g, events[1..], chunk, s, k);
    }
  }

  /**
   * After any run, of every file exactly the stretch from its initial offset has been delivered.
   */
  lemma EveryRunIsExact(names: seq<Listed>, files: Files, offsets: map<Path, nat>, events: seq<Event>, chunk: nat, s: Reader, k: History)
    requires IsListing(names, files) && |files| < MAX_TRACKED && chunk > 0
    requires offsets.Keys <= files.Keys && forall p <- offsets :: offsets[p] <= |files[p]|
    requires Runs(Opened(names, offsets), Begun(files, offsets), events, chunk, s, k)
    ensures forall p <- k.files :: IsExact(k, p)
  {
    OpenedKeeps(names, files, offsets);
    RunKeeps(Opened(names, offsets), Begun(files, offsets), events, chunk, s, k);
  }

  // ----- What is delivered -----

  /** A delivery is whole lines, unless the caller's room splits one or a line is two chunks long. */
  lemma DeliversLines(r: Reader, e: Event, chunk: nat)
    requires Output(r, e, chunk) != []
    ensures var out := Output(r, e, chunk);
      out[|out| - 1] == LF || |out| == e.room || (LF !in r.pending && |r.pending| >= 2 * chunk)
  {
  }

  /** When the reader waits, every line that was complete when the directory was listed has been delivered. */
  lemma WaitsWithoutLines(r: Reader, h: History, e: Event, chunk: nat)
    requires Inv(r, h) && e.room > 0 && Waits(r, e, chunk)
    ensures forall p <- h.listed :: Caught(h.listed[p], Position(h, p))
  {
    assert r.pending == [];
    AdvanceKeeps(r, h);
    var s := Advanced(r);
    forall p <- h.listed
      ensures Caught(h.listed[p], Position(h, p))
    {
      assert p in h.files && IsRecorded(s, h, p);
    }
  }

  // ----- A server that stops writing -----

  /** How many files are left of the listing. */
  function FilesLeft(r: Reader): nat
    requires r.idx <= |r.names|
  {
    2 * (|r.names| - r.idx) + if r.cur.Some? then 1 else 0
  }

  /** How many bytes are left of the file being read. */
  function BytesLeft(r: Reader, files: Files): nat {
    if r.cur.Some? && r.cur.value in files && r.off <= |files[r.cur.value]| then |files[r.cur.value]| - r.off else 0
  }

  /** Each turn that does not wait comes nearer to waiting. */
  lemma TurnComesNearer(r: Reader, h: History, e: Event, chunk: nat)
    requires Inv(r, h) && e.files == h.files && e.room > 0 && chunk > 0 && IsDefined(r, chunk) && !Waits(r, e, chunk)
    ensures var s := Turn(r, e, chunk);
      && s.idx <= |s.names|
      && (FilesLeft(s) < FilesLeft(r)
          || (FilesLeft(s) == FilesLeft(r) && BytesLeft(s, h.files) < BytesLeft(r, h.files))
          || (FilesLeft(s) == FilesLeft(r) && BytesLeft(s, h.files) == BytesLeft(r, h.files) && |s.pending| < |r.pending|))
  {
    if Due(r, e, chunk) == 0 && r.cur.Some? {
      var got := ReadFile(e.files, r.cur.value, r.off, chunk);
      if |got| == chunk {
        assert BytesLeft(Longer(r, got), h.files) < BytesLeft(r, h.files);
      }
    }
  }

  /** The same event over and over: the caller reads on, and the server writes nothing. */
  function Repeat(e: Event, n: nat): seq<Event> { seq(n, _ => e) }

  lemma OneTurnMore(r: Reader, h: History, e: Event, n: nat, chunk: nat, t: Reader, g: History, s: Reader, k: History)
    requires Leads(r, h, e, chunk, t, g) && Runs(t, g, Repeat(e, n), chunk, s, k)
    ensures Runs(r, h, Repeat(e, n + 1), chunk, s, k)
  {
    assert Repeat(e, n + 1)[0] == e && Repeat(e, n + 1)[1..] == Repeat(e, n);
  }

  lemma TurnKeepsListed(r: Reader, h: History, e: Event, chunk: nat)
    requires IsDefined(r, chunk) && e.files == h.files && e.room > 0
    ensures Recorded(h, r, e, chunk).files == h.files
    ensures Recorded(h, r, e, chunk).listed == if Waits(r, e, chunk) then h.files else h.listed
  {
  }

  /**
   * With a server that stops writing, the reader waits after finitely many turns, at the end of a
   * pass over a listing that shows all the server has.
   */
  lemma {:induction false} ComesToWait(r: Reader, h: History, e: Event, chunk: nat, current: bool) returns (n: nat, s: Reader, k: History)
    requires Inv(r, h) && IsFair(h, e) && e.files == h.files && chunk > 0 && (current ==> h.listed == h.files)
    ensures Runs(r, h, Repeat(e, n), chunk, s, k)
    ensures Inv(s, k) && Waits(s, e, chunk) && k.files == k.listed == h.files
    decreases !current, if r.idx <= |r.names| then FilesLeft(r) else 0, BytesLeft(r, h.files), |r.pending|
  {
    TurnIsDefined(r, h, chunk);
    var waits := Waits(r, e, chunk);
    if waits && current {
      return 0, r, h;
    }
    var t, g := TurnKeeps(r, h, e, chunk);
    TurnKeepsListed(r, h, e, chunk);
    if !waits {
      TurnComesNearer(r, h, e, chunk);
    }
    n, s, k := ComesToWait(t, g, e, chunk, current || waits);
    OneTurnMore(r, h, e, n, chunk, t, g, s, k);
    n := n + 1;
  }

  /**
   * From any reachable state, once the server stops writing, finitely many turns deliver every line
   * that is complete, of every file.
   */
  lemma EveryLineArrives(r: Reader, h: History, e: Event, chunk: nat) returns (n: nat, s: Reader, k: History)
    requires Inv(r, h) && IsFair(h, e) && e.files == h.files && chunk > 0
    ensures Runs(r, h, Repeat(e, n), chunk, s, k) && k.files == h.files
    ensures forall p <- k.files :: IsExact(k, p) && Caught(k.files[p], Position(k, p))
  {
    n, s, k := ComesToWait(r, h, e, chunk, false);
    WaitsWithoutLines(s, k, e, chunk);
  }
}
