/**
 * The local reader in one-shot mode: a pass over the files of a directory, each from its recorded
 * offset to its end, while they grow. What it has read of a file is delivered line by line, and what
 * is left at the end of the file is delivered too.
 */
module FileSets {
  import opened Bytes
  import opened OffsetStore
  import Following

  type Files = Following.Files
  type History = Following.History

  /**
   * cur is the open file, pos the offset of its next byte, pending what is read but not delivered,
   * flush whether it is the rest of a closed file, done the files that were closed in this pass.
   */
  datatype Reader = Reader(cur: Option<Path>, pos: nat, pending: bytes, flush: bool, done: set<Path>, finished: bool, store: seq<Kept>)

  const SCRATCH: nat := 32768

  /** How much may be delivered: whole lines, and the rest of a closed file. */
  function Ready(r: Reader): (n: nat)
    ensures n <= |r.pending|
  {
    var end := LastIndexOf(r.pending, LF);
    if end >= 0 then end + 1 else if r.flush then |r.pending| else 0
  }

  /** The reader when only rest is held any more; the offset of the open file is recorded. */
  function Holding(r: Reader, rest: bytes, max: nat): Reader
    requires r.cur.Some? ==> |rest| <= r.pos
  {
    r.(pending := rest, store := if r.cur.Some? then Stored(r.store, r.cur.value, r.pos - |rest|, max) else r.store)
  }

  /** The reader after n bytes were delivered. */
  function Delivered(r: Reader, n: nat, max: nat): Reader
    requires n <= |r.pending| && (r.cur.Some? ==> |r.pending| <= r.pos)
  {
    Holding(r, r.pending[n..], max)
  }

  /** The end of the open file: all that was read of it counts as read, and is about to be delivered. */
  function Closed(r: Reader, max: nat): Reader
    requires r.cur.Some?
  {
    r.(store := Stored(r.store, r.cur.value, r.pos, max), done := r.done + {r.cur.value}, flush := true, cur := None, pos := 0)
  }

  /** One read of the open file, of at most got bytes. */
  function Filled(r: Reader, f: bytes, got: nat, max: nat): Reader
    requires r.cur.Some? && r.pos <= |f|
  {
    var n := Min(Min(got, SCRATCH), |f| - r.pos);
    if n > 0 then r.(pending := r.pending + f[r.pos..r.pos + n], pos := r.pos + n)
    else if r.pos == |f| then Closed(r, max)
    else r
  }

  /** One listed file tried. */
  function Tried(r: Reader, p: Path, files: Files): Reader {
    var off, s := OffsetOf(r.store, p), r.(store := Fronted(r.store, p));
    if p in r.done then r
    else if p !in files || (off > 0 && |files[p]| == off) then s
    else s.(cur := Some(p), pos := if |files[p]| < off then 0 else off)
  }

  /** The next of the listed files that has not been closed and has something new is opened. */
  function Opened(r: Reader, paths: seq<Path>, files: Files): (s: Reader)
    ensures s.pending == r.pending && s.done == r.done && s.flush == r.flush && s.finished == r.finished
    decreases |paths|
  {
    if paths == [] then r
    else
      var s := Tried(r, paths[0], files);
      if s.cur.Some? then s else Opened(s, paths[1..], files)
  }

  /** What happens around one turn: the caller's room, the files, the paths listed, and how much one read gives. */
  datatype Event = Event(room: nat, files: Files, paths: seq<Path>, got: nat)

  function Due(r: Reader, e: Event): (n: nat)
    ensures n <= |r.pending| && n <= e.room
  {
    Min(e.room, Ready(r))
  }

  function Output(r: Reader, e: Event): bytes { r.pending[..Due(r, e)] }

  predicate IsDefined(r: Reader, e: Event) {
    && (r.cur.Some? ==> |r.pending| <= r.pos && r.cur.value in e.files && r.pos <= |e.files[r.cur.value]|)
    && e.room > 0
  }

  lemma {:induction false} OpenedIsDefined(r: Reader, paths: seq<Path>, files: Files)
    requires r.cur.None?
    ensures var s := Opened(r, paths, files); s.cur.Some? ==> s.cur.value in files && s.pos <= |files[s.cur.value]|
    decreases |paths|
  {
    if paths != [] {
      OpenedIsDefined(r, paths[1..], files);
      OpenedIsDefined(r.(store := Fronted(r.store, paths[0])), paths[1..], files);
    }
  }

  /** One turn of the reader's loop. */
  function Turn(r: Reader, e: Event, max: nat): Reader
    requires IsDefined(r, e)
  {
    if Due(r, e) > 0 then Delivered(r, Due(r, e), max)
    else if r.finished then r
    else if r.cur.Some? then Filled(r, e.files[r.cur.value], e.got, max)
    else
      OpenedIsDefined(r.(flush := false), e.paths, e.files);
      var s := Opened(r.(flush := false), e.paths, e.files);
      if s.cur.None? then s.(finished := true) else Filled(s, e.files[s.cur.value], e.got, max)
  }

  /** A new reader over the same store: the next pass. */
  function Again(r: Reader): Reader { Reader(None, 0, [], false, {}, false, r.store) }

  // ----- What has happened -----

  /** What is held of a closed file. */
  function Held(r: Reader, h: History, p: Path): nat { if r.cur.None? && h.owner == Some(p) then |r.pending| else 0 }

  /** Exactly a stretch of p was delivered, and its recorded offset is where delivery has come to, and what is held of it. */
  ghost predicate FileOk(r: Reader, h: History, m: map<Path, nat>, p: Path)
    requires p in h.files
  {
    Following.IsExact(h, p) && Following.OffsetOf(m, p) == Following.Position(h, p) + Held(r, h, p)
  }

  ghost predicate FilesOk(r: Reader, h: History, m: map<Path, nat>) { forall p <- h.files :: FileOk(r, h, m, p) }

  /** What is pending is the stretch of its file behind what was delivered of it. */
  ghost predicate PendingOk(r: Reader, h: History) {
    && (r.cur.Some? ==> r.cur == h.owner && !r.flush && r.cur.value !in r.done && !r.finished)
    && (r.cur.None? && !r.flush ==> r.pending == [])
    && (h.owner.None? ==> r.pending == [])
    && (h.owner.Some? ==>
        var p := h.owner.value;
        && p in h.files && Following.Position(h, p) + |r.pending| <= |h.files[p]|
        && r.pending == h.files[p][Following.Position(h, p)..Following.Position(h, p) + |r.pending|]
        && (r.cur.Some? ==> r.pos == Following.Position(h, p) + |r.pending|))
  }

  /** All that p held when the pass began was read. */
  ghost predicate IsRead(h: History, m: map<Path, nat>, p: Path) { p in h.listed ==> |h.listed[p]| <= Following.OffsetOf(m, p) }

  ghost predicate PassOk(r: Reader, h: History, m: map<Path, nat>) {
    && Following.Grows(h.listed, h.files)
    && (forall p <- r.done :: p in h.files && IsRead(h, m, p))
    && (r.finished ==> r.pending == [] && forall p <- h.listed :: IsRead(h, m, p))
  }

  /** Everything that every turn keeps; m is what the store knows. */
  ghost predicate Inv(r: Reader, h: History, m: map<Path, nat>) {
    && FilesOk(r, h, m) && PendingOk(r, h) && PassOk(r, h, m)
    && m.Keys <= h.files.Keys && h.from.Keys <= h.files.Keys && h.sent.Keys <= h.files.Keys
  }

  // ----- The files grow -----

  lemma GrowFile(r: Reader, h: History, m: map<Path, nat>, files: Files, p: Path)
    requires Inv(r, h, m) && Following.Grows(h.files, files) && p in files
    ensures FileOk(r, h.(files := files), m, p)
  {
    if p in h.files {
      assert FileOk(r, h, m, p);
      Following.GrowExact(h, files, p);
    } else {
      assert files[p][0..0] == [];
    }
  }

  lemma GrowKeeps(r: Reader, h: History, m: map<Path, nat>, files: Files)
    requires Inv(r, h, m) && Following.Grows(h.files, files)
    ensures Inv(r, h.(files := files), m)
  {
    forall p <- files
      ensures FileOk(r, h.(files := files), m, p)
    {
      GrowFile(r, h, m, files, p);
    }
    GrowPendingOk(r, h, files);
    GrowPassOk(r, h, m, files);
  }

  lemma GrowPendingOk(r: Reader, h: History, files: Files)
    requires PendingOk(r, h) && Following.Grows(h.files, files)
    ensures PendingOk(r, h.(files := files))
  {
    if h.owner.Some? {
      var p := h.owner.value;
      Following.GrownSlice(h.files[p], files[p], Following.Position(h, p), Following.Position(h, p) + |r.pending|);
    }
  }

  lemma GrowPassOk(r: Reader, h: History, m: map<Path, nat>, files: Files)
    requires PassOk(r, h, m) && Following.Grows(h.files, files)
    ensures PassOk(r, h.(files := files), m)
  {
    forall p <- h.listed
      ensures p in files && h.listed[p] <= files[p]
    {
      assert p in h.files && h.listed[p] <= h.files[p] && h.files[p] <= files[p];
    }
  }

  // ----- Delivering -----

  lemma SentIsExact(h: History, p: Path, pending: bytes, n: nat)
    requires p in h.files && n <= |pending| && Following.IsExact(h, p)
    requires var i := Following.Position(h, p); i + |pending| <= |h.files[p]| && pending == h.files[p][i..i + |pending|]
    ensures Following.IsExact(Following.SentMore(h, p, pending[..n]), p)
  {
    var i := Following.Position(h, p);
    Following.StretchPrefix(h.files[p], i, |pending|, n);
    Following.JoinStretches(h.files[p], Following.OffsetOf(h.from, p), i, i + n);
  }

  /** What is known after n bytes were delivered. */
  function Noted(r: Reader, m: map<Path, nat>, n: nat): map<Path, nat>
    requires r.cur.Some? ==> |r.pending| <= r.pos && n <= |r.pending|
  {
    if r.cur.Some? then m[r.cur.value := r.pos - |r.pending| + n] else m
  }

  lemma DeliverFile(r: Reader, h: History, m: map<Path, nat>, n: nat, s: Reader, q: Path)
    requires PendingOk(r, h) && 0 < n <= |r.pending| && h.owner.Some? && (r.cur.Some? ==> |r.pending| <= r.pos)
    requires q in h.files && FileOk(r, h, m, q) && s.cur == r.cur && s.pending == r.pending[n..]
    ensures var m2 := Noted(r, m, n);
      FileOk(s, Following.SentMore(h, h.owner.value, r.pending[..n]), m2, q) && Following.OffsetOf(m, q) <= Following.OffsetOf(m2, q)
  {
    if h.owner == Some(q) {
      SentIsExact(h, q, r.pending, n);
      Following.SentPosition(h, q, r.pending[..n]);
    }
  }

  lemma DeliverPending(r: Reader, h: History, n: nat, s: Reader)
    requires PendingOk(r, h) && 0 < n <= |r.pending| && h.owner.Some? && s == r.(pending := r.pending[n..], store := s.store)
    ensures PendingOk(s, Following.SentMore(h, h.owner.value, r.pending[..n]))
  {
    var p := h.owner.value;
    Following.SentPosition(h, p, r.pending[..n]);
    Following.SuffixOfSlice(h.files[p], Following.Position(h, p), r.pending, n);
  }

  /** What is recorded later leaves a pass as it was when no file's offset goes back. */
  lemma PassStays(r: Reader, h: History, m: map<Path, nat>, s: Reader, k: History, m2: map<Path, nat>)
    requires PassOk(r, h, m) && s.done == r.done && s.finished == r.finished && (r.finished ==> s.pending == [])
    requires k.files == h.files && k.listed == h.listed
    requires forall q <- h.files :: Following.OffsetOf(m, q) <= Following.OffsetOf(m2, q)
    ensures PassOk(s, k, m2)
  {
    assert forall q <- h.listed :: q in h.files;
  }

  lemma DeliverKeeps(r: Reader, h: History, m: map<Path, nat>, n: nat, s: Reader)
    requires Inv(r, h, m) && 0 < n <= |r.pending| && s == r.(pending := r.pending[n..], store := s.store)
    ensures h.owner.Some? && (r.cur.Some? ==> |r.pending| <= r.pos)
    ensures Inv(s, Following.SentMore(h, h.owner.value, r.pending[..n]), Noted(r, m, n))
  {
    var k, m2 := Following.SentMore(h, h.owner.value, r.pending[..n]), Noted(r, m, n);
    forall q <- h.files
      ensures FileOk(s, k, m2, q) && Following.OffsetOf(m, q) <= Following.OffsetOf(m2, q)
    {
      assert FileOk(r, h, m, q);
      DeliverFile(r, h, m, n, s, q);
    }
    DeliverPending(r, h, n, s);
    PassStays(r, h, m, s, k, m2);
  }

  // ----- Reading -----

  lemma CloseFile(r: Reader, h: History, m: map<Path, nat>, p: Path, s: Reader, q: Path)
    requires PendingOk(r, h) && r.cur == Some(p) && p in h.files && s.cur.None? && s.pending == r.pending
    requires q in h.files && FileOk(r, h, m, q)
    ensures FileOk(s, h, m[p := r.pos], q) && Following.OffsetOf(m, q) <= Following.OffsetOf(m[p := r.pos], q)
  {
  }

  lemma ClosePass(r: Reader, h: History, m: map<Path, nat>, p: Path, s: Reader)
    requires PassOk(r, h, m) && r.cur == Some(p) && p in h.files && r.pos == |h.files[p]| && !s.finished
    requires s.done == r.done + {p}
    ensures PassOk(s, h, m[p := r.pos])
  {
    forall q <- s.done
      ensures q in h.files && IsRead(h, m[p := r.pos], q)
    {
      if q == p {
        assert p in h.listed ==> h.listed[p] <= h.files[p];
      } else {
        assert IsRead(h, m, q);
      }
    }
  }

  lemma CloseKeeps(r: Reader, h: History, m: map<Path, nat>, p: Path, s: Reader)
    requires Inv(r, h, m) && r.cur == Some(p) && p in h.files && r.pos == |h.files[p]|
    requires s == r.(store := s.store, done := r.done + {p}, flush := true, cur := None, pos := 0)
    ensures Inv(s, h, m[p := r.pos])
  {
    forall q <- h.files
      ensures FileOk(s, h, m[p := r.pos], q)
    {
      assert FileOk(r, h, m, q);
      CloseFile(r, h, m, p, s, q);
    }
    ClosePass(r, h, m, p, s);
  }

  lemma LongerPending(r: Reader, h: History, p: Path, n: nat, s: Reader)
    requires PendingOk(r, h) && r.cur == Some(p) && p in h.files && r.pos + n <= |h.files[p]|
    requires s == r.(pending := r.pending + h.files[p][r.pos..r.pos + n], pos := r.pos + n)
    ensures PendingOk(s, h)
  {
    Following.JoinStretches(h.files[p], Following.Position(h, p), r.pos, r.pos + n);
  }

  lemma LongerKeeps(r: Reader, h: History, m: map<Path, nat>, p: Path, n: nat, s: Reader)
    requires Inv(r, h, m) && r.cur == Some(p) && p in h.files && r.pos + n <= |h.files[p]|
    requires s == r.(pending := r.pending + h.files[p][r.pos..r.pos + n], pos := r.pos + n)
    ensures Inv(s, h, m)
  {
    LongerPending(r, h, p, n, s);
    forall q <- h.files
      ensures FileOk(s, h, m, q)
    {
      assert FileOk(r, h, m, q);
    }
    PassStays(r, h, m, s, h, m);
  }

  /** What is known after one read of the open file. */
  function Seen(r: Reader, m: map<Path, nat>, f: bytes, got: nat): map<Path, nat>
    requires r.cur.Some? && r.pos <= |f|
  {
    if r.pos == |f| then m[r.cur.value := r.pos] else m
  }

  lemma FillKeeps(r: Reader, h: History, m: map<Path, nat>, p: Path, got: nat, max: nat)
    requires Inv(r, h, m) && r.cur == Some(p)
    ensures p in h.files && r.pos <= |h.files[p]| && Inv(Filled(r, h.files[p], got, max), h, Seen(r, m, h.files[p], got))
  {
    var n := Min(Min(got, SCRATCH), |h.files[p]| - r.pos);
    var s := Filled(r, h.files[p], got, max);
    if n > 0 {
      LongerKeeps(r, h, m, p, n, s);
    } else if r.pos == |h.files[p]| {
      CloseKeeps(r, h, m, p, s);
    }
  }

  // ----- Opening -----

  /** The reader between two files. */
  ghost predicate IsBetween(r: Reader, h: History, m: map<Path, nat>) {
    Inv(r, h, m) && r.cur.None? && r.pending == [] && !r.finished && !r.flush
  }

  lemma BeginKeeps(r: Reader, h: History, m: map<Path, nat>, p: Path, s: Reader)
    requires IsBetween(r, h, m) && p in h.files && p !in r.done
    requires s == r.(cur := Some(p), pos := Following.OffsetOf(m, p), store := s.store)
    ensures Following.OffsetOf(m, p) <= |h.files[p]| && Inv(s, h.(owner := Some(p)), m)
  {
    assert FileOk(r, h, m, p);
    forall q <- h.files
      ensures FileOk(s, h.(owner := Some(p)), m, q)
    {
      assert FileOk(r, h, m, q);
    }
  }

  /** What opening the next file comes to. */
  ghost predicate OpensOrEnds(r: Reader, s: Reader, h: History, m: map<Path, nat>, paths: seq<Path>) {
    if s.cur.None? then s == r.(store := s.store) && forall p <- paths | p in h.files :: IsRead(h, m, p)
    else s.cur.value in h.files && s.cur.value !in r.done && s == r.(cur := s.cur, pos := Following.OffsetOf(m, s.cur.value), store := s.store)
  }

  /** A file that is passed over was read to its end. */
  lemma PassedIsRead(r: Reader, h: History, m: map<Path, nat>, p: Path)
    requires Inv(r, h, m) && p in h.files && (p in r.done || |h.files[p]| == Following.OffsetOf(m, p))
    ensures IsRead(h, m, p)
  {
    assert p in h.listed ==> h.listed[p] <= h.files[p];
  }

  lemma OffsetInside(r: Reader, h: History, m: map<Path, nat>, p: Path)
    requires IsBetween(r, h, m) && p in h.files
    ensures Following.OffsetOf(m, p) <= |h.files[p]|
  {
    assert FileOk(r, h, m, p);
  }

  /** Opening the next file; when there is none, every listed file was read to its end. */
  lemma {:induction false} OpenLeads(r: Reader, t: Reader, h: History, m: map<Path, nat>, paths: seq<Path>, max: nat)
    requires IsBetween(r, h, m) && Remembers(t.store, m, h.files.Keys, max) && t == r.(store := t.store)
    ensures OpensOrEnds(r, Opened(t, paths, h.files), h, m, paths)
    ensures Remembers(Opened(t, paths, h.files).store, m, h.files.Keys, max)
    decreases |paths|
  {
    if paths != [] {
      var p, u := paths[0], t.(store := Fronted(t.store, paths[0]));
      ReadingRemembers(t.store, m, h.files.Keys, max, p);
      assert OffsetOf(t.store, p) == Following.OffsetOf(m, p);
      OpenLeads(r, if p in r.done then t else u, h, m, paths[1..], max);
      if p in h.files {
        OffsetInside(r, h, m, p);
        if p in r.done || |h.files[p]| == Following.OffsetOf(m, p) {
          PassedIsRead(r, h, m, p);
        }
      }
    }
  }

  // ----- Turns -----

  /** What one turn makes of the history. */
  function Recorded(h: History, r: Reader, e: Event, max: nat): History
    requires IsDefined(r, e)
  {
    var k := h.(files := e.files);
    if Due(r, e) > 0 then if h.owner.Some? then Following.SentMore(k, h.owner.value, Output(r, e)) else k
    else if r.finished || r.cur.Some? then k
    else
      var s := Opened(r.(flush := false), e.paths, e.files);
      if s.cur.Some? then k.(owner := s.cur) else k
  }

  /** What is known after one turn. */
  function Known(r: Reader, m: map<Path, nat>, e: Event): map<Path, nat>
    requires IsDefined(r, e)
  {
    if Due(r, e) > 0 then Noted(r, m, Due(r, e))
    else if r.finished then m
    else if r.cur.Some? then Seen(r, m, e.files[r.cur.value], e.got)
    else
      OpenedIsDefined(r.(flush := false), e.paths, e.files);
      var s := Opened(r.(flush := false), e.paths, e.files);
      if s.cur.Some? then Seen(s, m, e.files[s.cur.value], e.got) else m
  }

  /** The files have only grown, all of them are listed, there are no more than the store has room for, and the caller has room. */
  ghost predicate IsFair(h: History, e: Event, max: nat) {
    && e.room > 0 && Following.Grows(h.files, e.files) && |e.files.Keys| <= max
    && forall p <- e.files :: p in e.paths
  }

  lemma TurnIsDefined(r: Reader, h: History, m: map<Path, nat>, e: Event, max: nat)
    requires Inv(r, h, m) && IsFair(h, e, max)
    ensures IsDefined(r, e)
  {
    GrowKeeps(r, h, m, e.files);
  }

  lemma NothingHeld(r: Reader, h: History, m: map<Path, nat>, e: Event)
    requires Inv(r, h, m) && r.cur.None? && Due(r, e) == 0 && e.room > 0 && !r.finished
    ensures IsBetween(r.(flush := false), h, m)
  {
    forall q <- h.files
      ensures FileOk(r.(flush := false), h, m, q)
    {
      assert FileOk(r, h, m, q);
    }
  }

  lemma FinishPass(r: Reader, h: History, m: map<Path, nat>, paths: seq<Path>, s: Reader)
    requires PassOk(r, h, m) && r.pending == [] && s.done == r.done && s.pending == []
    requires forall p <- h.files :: p in paths && IsRead(h, m, p)
    ensures PassOk(s, h, m)
  {
    assert forall p <- h.listed :: p in h.files;
  }

  lemma FinishKeeps(r: Reader, h: History, m: map<Path, nat>, e: Event, s: Reader)
    requires IsBetween(r, h, m) && h.files == e.files && (forall p <- e.files :: p in e.paths)
    requires s == r.(store := s.store, finished := true) && forall p <- e.paths | p in h.files :: IsRead(h, m, p)
    ensures Inv(s, h, m)
  {
    forall q <- h.files
      ensures FileOk(s, h, m, q)
    {
      assert FileOk(r, h, m, q);
    }
    FinishPass(r, h, m, e.paths, s);
  }

  lemma BetweenTurn(r: Reader, h: History, m: map<Path, nat>, e: Event, max: nat)
    requires Inv(r, h, m) && Remembers(r.store, m, h.files.Keys, max) && h.files == e.files && IsFair(h, e, max)
    requires r.cur.None? && Due(r, e) == 0 && !r.finished
    ensures Inv(Turn(r, e, max), Recorded(h, r, e, max), Known(r, m, e))
    ensures Remembers(Turn(r, e, max).store, Known(r, m, e), h.files.Keys, max)
  {
    var q := r.(flush := false);
    NothingHeld(r, h, m, e);
    OpenLeads(q, q, h, m, e.paths, max);
    var s := Opened(q, e.paths, e.files);
    if s.cur.Some? {
      BeginKeeps(q, h, m, s.cur.value, s);
      FillKeeps(s, h.(owner := s.cur), m, s.cur.value, e.got, max);
      FillRemembers(s, m, h.files.Keys, e.files[s.cur.value], e.got, max);
    } else {
      FinishKeeps(q, h, m, e, s.(finished := true));
    }
  }

  lemma FillRemembers(r: Reader, m: map<Path, nat>, all: set<Path>, f: bytes, got: nat, max: nat)
    requires Remembers(r.store, m, all, max) && r.cur.Some? && r.cur.value in all && r.pos <= |f|
    ensures Remembers(Filled(r, f, got, max).store, Seen(r, m, f, got), all, max)
  {
    if r.pos == |f| {
      WritingRemembers(r.store, m, all, max, r.cur.value, r.pos);
    }
  }

  lemma DeliverRemembers(r: Reader, m: map<Path, nat>, all: set<Path>, n: nat, max: nat)
    requires Remembers(r.store, m, all, max) && (r.cur.Some? ==> r.cur.value in all && |r.pending| <= r.pos) && n <= |r.pending|
    ensures Remembers(Delivered(r, n, max).store, Noted(r, m, n), all, max)
  {
    if r.cur.Some? {
      var off := r.pos - |r.pending| + n;
      WritingRemembers(r.store, m, all, max, r.cur.value, off);
      assert |r.pending[n..]| == |r.pending| - n;
      assert Delivered(r, n, max).store == Stored(r.store, r.cur.value, off, max);
    }
  }

  /** The same paths, and more. */
  lemma MoreRoom(s: seq<Kept>, m: map<Path, nat>, all: set<Path>, more: set<Path>, max: nat)
    requires Remembers(s, m, all, max) && all <= more && |more| <= max
    ensures Remembers(s, m, more, max)
  {
  }

  lemma OpenTurn(r: Reader, h: History, m: map<Path, nat>, e: Event, max: nat)
    requires Inv(r, h, m) && Remembers(r.store, m, h.files.Keys, max) && h.files == e.files && IsFair(h, e, max) && r.cur.Some?
    ensures IsDefined(r, e) && Inv(Turn(r, e, max), Recorded(h, r, e, max), Known(r, m, e))
    ensures Remembers(Turn(r, e, max).store, Known(r, m, e), e.files.Keys, max)
  {
    if Due(r, e) > 0 {
      DeliverTurn(r, h, m, e, max);
    } else {
      FillKeeps(r, h, m, r.cur.value, e.got, max);
      FillRemembers(r, m, e.files.Keys, e.files[r.cur.value], e.got, max);
    }
  }

  lemma DeliverTurn(r: Reader, h: History, m: map<Path, nat>, e: Event, max: nat)
    requires Inv(r, h, m) && Remembers(r.store, m, h.files.Keys, max) && h.files == e.files && IsFair(h, e, max) && Due(r, e) > 0
    ensures IsDefined(r, e) && Inv(Turn(r, e, max), Recorded(h, r, e, max), Known(r, m, e))
    ensures Remembers(Turn(r, e, max).store, Known(r, m, e), e.files.Keys, max)
  {
    DeliverKeeps(r, h, m, Due(r, e), Delivered(r, Due(r, e), max));
    DeliverRemembers(r, m, e.files.Keys, Due(r, e), max);
  }

  /**
   * Every turn keeps every promise, whatever was appended: of each file exactly a stretch was
   * delivered, each byte once and in order, and its recorded offset is where delivery has come to.
   */
  lemma TurnKeeps(r: Reader, h: History, m: map<Path, nat>, e: Event, max: nat)
    requires Inv(r, h, m) && Remembers(r.store, m, h.files.Keys, max) && IsFair(h, e, max)
    ensures IsDefined(r, e) && Inv(Turn(r, e, max), Recorded(h, r, e, max), Known(r, m, e))
    ensures Remembers(Turn(r, e, max).store, Known(r, m, e), e.files.Keys, max)
  {
    TurnIsDefined(r, h, m, e, max);
    GrowKeeps(r, h, m, e.files);
    MoreRoom(r.store, m, h.files.Keys, e.files.Keys, max);
    var k := h.(files := e.files);
    assert Recorded(h, r, e, max) == Recorded(k, r, e, max);
    if Due(r, e) > 0 {
      DeliverTurn(r, k, m, e, max);
    } else if r.cur.Some? {
      OpenTurn(r, k, m, e, max);
    } else if !r.finished {
      BetweenTurn(r, k, m, e, max);
    }
  }

  // ----- Passes -----

  /** Something of a closed file is held: the rest of its last line. */
  predicate HoldsRest(r: Reader) { r.cur.None? && r.pending != [] }

  /** The next pass begins: what the files hold now is what it is to read. */
  function Anew(h: History): History { h.(owner := None, listed := h.files) }

  /**
   * A pass may be given up at any moment without losing a byte or reading one twice, but for one:
   * when the rest of a closed file is held, which counts as read and is not delivered.
   */
  lemma GivingUpLosesTheRest(r: Reader, h: History, m: map<Path, nat>)
    requires Inv(r, h, m)
    ensures Inv(Again(r), Anew(h), m) <==> !HoldsRest(r)
  {
    if HoldsRest(r) {
      var p := h.owner.value;
      assert FileOk(r, h, m, p);
      assert !FileOk(Again(r), Anew(h), m, p);
    } else {
      AgainKeeps(r, h, m);
    }
  }

  /** The next pass goes on behind what was held. */
  lemma RestIsSkipped(r: Reader, h: History, m: map<Path, nat>, max: nat)
    requires Inv(r, h, m) && Remembers(r.store, m, h.files.Keys, max) && HoldsRest(r)
    ensures h.owner.Some? && OffsetOf(Again(r).store, h.owner.value) == Following.Position(h, h.owner.value) + |r.pending|
  {
    assert FileOk(r, h, m, h.owner.value);
  }

  lemma AgainKeeps(r: Reader, h: History, m: map<Path, nat>)
    requires Inv(r, h, m) && !HoldsRest(r)
    ensures Inv(Again(r), Anew(h), m)
  {
    forall p <- h.files
      ensures FileOk(Again(r), Anew(h), m, p)
    {
      assert FileOk(r, h, m, p);
    }
  }

  datatype Step = Go(e: Event) | Restart

  /** One step of a run over many passes. */
  ghost predicate Leads(r: Reader, h: History, step: Step, max: nat, s: Reader, k: History) {
    match step
    case Go(e) => IsFair(h, e, max) && IsDefined(r, e) && s == Turn(r, e, max) && k == Recorded(h, r, e, max)
    case Restart => !HoldsRest(r) && s == Again(r) && k == Anew(h)
  }

  ghost predicate Runs(r: Reader, h: History, steps: seq<Step>, max: nat, s: Reader, k: History)
    decreases |steps|
  {
    if steps == [] then s == r && k == h
    else exists t, g :: Leads(r, h, steps[0], max, t, g) && Runs(t, g, steps[1..], max, s, k)
  }

  lemma LeadsKeeps(r: Reader, h: History, m: map<Path, nat>, step: Step, max: nat, s: Reader, k: History) returns (m2: map<Path, nat>)
    requires Inv(r, h, m) && Remembers(r.store, m, h.files.Keys, max) && Leads(r, h, step, max, s, k)
    ensures Inv(s, k, m2) && Remembers(s.store, m2, k.files.Keys, max)
  {
    m2 := m;
    match step {
      case Go(e) =>
        TurnKeeps(r, h, m, e, max);
        RecordedFiles(h, r, e, max);
        m2 := Known(r, m, e);
      case Restart =>
        AgainKeeps(r, h, m);
    }
  }

  lemma RecordedFiles(h: History, r: Reader, e: Event, max: nat)
    requires IsDefined(r, e)
    ensures Recorded(h, r, e, max).files == e.files && Recorded(h, r, e, max).from == h.from && Recorded(h, r, e, max).listed == h.listed
  {
  }

  lemma {:induction false} RunKeeps(r: Reader, h: History, m: map<Path, nat>, steps: seq<Step>, max: nat, s: Reader, k: History)
    returns (m2: map<Path, nat>)
    requires Inv(r, h, m) && Remembers(r.store, m, h.files.Keys, max) && Runs(r, h, steps, max, s, k)
    ensures Inv(s, k, m2) && Remembers(s.store, m2, k.files.Keys, max)
    decreases |steps|
  {
    m2 := m;
    if steps != [] {
      var t, g :| Leads(r, h, steps[0], max, t, g) && Runs(t, g, steps[1..], max, s, k);
      m2 := LeadsKeeps(r, h, m, steps[0], max, t, g);
      m2 := RunKeeps(t, g, m2, steps[1..], max, s, k);
    }
  }

  function Begun(files: Files): History { Following.History(files, map[], map[], None, files) }

  /**
   * Over any number of passes, finished or given up while a file was open, while the files grow:
   * of every file exactly its head has been delivered, each byte once and in order.
   */
  lemma EveryPassIsExact(files: Files, steps: seq<Step>, max: nat, s: Reader, k: History)
    requires |files.Keys| <= max && Runs(Reader(None, 0, [], false, {}, false, []), Begun(files), steps, max, s, k)
    ensures forall p <- k.files :: Following.IsExact(k, p)
    ensures s.finished ==> forall p <- k.listed :: p in k.files && |k.listed[p]| <= Following.Position(k, p)
  {
    var r, h := Reader(None, 0, [], false, {}, false, []), Begun(files);
    StartKeeps(files, max);
    var m := RunKeeps(r, h, map[], steps, max, s, k);
    forall p <- k.files
      ensures Following.IsExact(k, p)
    {
      assert FileOk(s, k, m, p);
    }
    if s.finished {
      FinishedIsRead(s, k, m);
    }
  }

  lemma StartKeeps(files: Files, max: nat)
    requires |files.Keys| <= max
    ensures Inv(Reader(None, 0, [], false, {}, false, []), Begun(files), map[]) && Remembers([], map[], files.Keys, max)
  {
    forall p <- files
      ensures FileOk(Reader(None, 0, [], false, {}, false, []), Begun(files), map[], p)
    {
      assert files[p][0..0] == [];
    }
    assert Paths([]) == {};
  }

  /** When a pass is finished, all that the files held when it began has been delivered. */
  lemma FinishedIsRead(r: Reader, h: History, m: map<Path, nat>)
    requires Inv(r, h, m) && r.finished
    ensures forall p <- h.listed :: p in h.files && |h.listed[p]| <= Following.Position(h, p)
  {
    forall p <- h.listed
      ensures p in h.files && |h.listed[p]| <= Following.Position(h, p)
    {
      assert p in h.files && FileOk(r, h, m, p);
      assert IsRead(h, m, p);
    }
  }

  // ----- Every pass ends -----

  ghost function Undone(r: Reader, files: Files): nat { |files.Keys - r.done| }

  function Left(r: Reader, files: Files): nat {
    if r.cur.Some? && r.cur.value in files then Max(|files[r.cur.value]| - r.pos, 0) else 0
  }

  /** s is nearer to the end of the pass than r: a file less, or a file opened, or bytes less to read or to deliver. */
  ghost predicate IsNearer(s: Reader, r: Reader, files: Files) {
    || s.finished
    || Undone(s, files) < Undone(r, files)
    || (s.done == r.done && r.cur.None? && s.cur.Some?)
    || (s.done == r.done && s.cur == r.cur && Left(s, files) < Left(r, files))
    || (s.done == r.done && s.cur == r.cur && Left(s, files) == Left(r, files) && |s.pending| < |r.pending|)
  }

  lemma FillComesNearer(r: Reader, files: Files, p: Path, got: nat, max: nat)
    requires r.cur == Some(p) && p in files && p !in r.done && r.pos <= |files[p]| && got > 0
    ensures var s := Filled(r, files[p], got, max);
      Undone(s, files) < Undone(r, files) || (s.done == r.done && s.cur == r.cur && Left(s, files) < Left(r, files))
  {
    if r.pos == |files[p]| {
      assert files.Keys - (r.done + {p}) == files.Keys - r.done - {p};
    }
  }

  lemma TurnComesNearer(r: Reader, h: History, m: map<Path, nat>, e: Event, max: nat)
    requires Inv(r, h, m) && Remembers(r.store, m, h.files.Keys, max) && IsFair(h, e, max) && e.files == h.files && e.got > 0
    requires IsDefined(r, e) && !r.finished
    ensures IsNearer(Turn(r, e, max), r, h.files)
  {
    if Due(r, e) > 0 {
      DeliveryComesNearer(r, h.files, Due(r, e), max);
    } else if r.cur.Some? {
      FillComesNearer(r, h.files, r.cur.value, e.got, max);
    } else {
      OpeningComesNearer(r, h, m, e, max);
    }
  }

  lemma DeliveryComesNearer(r: Reader, files: Files, n: nat, max: nat)
    requires 0 < n <= |r.pending| && (r.cur.Some? ==> |r.pending| <= r.pos)
    ensures IsNearer(Delivered(r, n, max), r, files)
  {
  }

  lemma OpeningComesNearer(r: Reader, h: History, m: map<Path, nat>, e: Event, max: nat)
    requires Inv(r, h, m) && Remembers(r.store, m, h.files.Keys, max) && e.files == h.files && e.got > 0
    requires e.room > 0 && r.cur.None? && Due(r, e) == 0 && !r.finished
    ensures IsNearer(Turn(r, e, max), r, h.files)
  {
    var q := r.(flush := false);
    NothingHeld(r, h, m, e);
    OpenLeads(q, q, h, m, e.paths, max);
    var s := Opened(q, e.paths, e.files);
    if s.cur.Some? {
      OffsetInside(q, h, m, s.cur.value);
      FillComesNearer(s, h.files, s.cur.value, e.got, max);
    }
  }

  function Repeat(step: Step, n: nat): seq<Step> { seq(n, _ => step) }

  lemma OneTurnMore(r: Reader, h: History, step: Step, n: nat, max: nat, t: Reader, g: History, s: Reader, k: History)
    requires Leads(r, h, step, max, t, g) && Runs(t, g, Repeat(step, n), max, s, k)
    ensures Runs(r, h, Repeat(step, n + 1), max, s, k)
  {
    assert Repeat(step, n + 1)[0] == step && Repeat(step, n + 1)[1..] == Repeat(step, n);
  }

  /**
   * From any reachable state, while nothing is appended, finitely many turns finish the pass; then
   * all that the files held when it began has been delivered.
   */
  lemma {:induction false} EveryPassEnds(r: Reader, h: History, m: map<Path, nat>, e: Event, max: nat)
    returns (n: nat, s: Reader, k: History)
    requires Inv(r, h, m) && Remembers(r.store, m, h.files.Keys, max) && IsFair(h, e, max) && e.files == h.files && e.got > 0
    ensures Runs(r, h, Repeat(Go(e), n), max, s, k) && s.finished && k.files == h.files && k.listed == h.listed
    ensures forall p <- k.listed :: p in k.files && Following.IsExact(k, p) && |k.listed[p]| <= Following.Position(k, p)
    decreases !r.finished, Undone(r, h.files), r.cur.None?, Left(r, h.files), |r.pending|
  {
    if r.finished {
      FinishedIsRead(r, h, m);
      assert forall p <- h.files :: FileOk(r, h, m, p) ==> Following.IsExact(h, p);
      return 0, r, h;
    }
    TurnKeeps(r, h, m, e, max);
    TurnComesNearer(r, h, m, e, max);
    RecordedFiles(h, r, e, max);
    var t, g := Turn(r, e, max), Recorded(h, r, e, max);
    n, s, k := EveryPassEnds(t, g, Known(r, m, e), e, max);
    OneTurnMore(r, h, Go(e), n, max, t, g, s, k);
    n := n + 1;
  }

  // ----- A pass that loses the rest of a file -----

  const PATH: Path := "log"

  /** A file of two bytes, without a newline. */
  const TAIL: Files := map[PATH := [97, 98]]

  function Once(): Event { Event(1, TAIL, [PATH], 2) }

  lemma FirstTurn(r: Reader, max: nat)
    requires r == Reader(None, 0, [], false, {}, false, []) && max > 0
    ensures Turn(r, Once(), max) == r.(cur := Some(PATH), pos := 2, pending := [97, 98])
  {
    assert Once().paths[0] == PATH && TAIL[PATH][0..2] == [97, 98];
    assert [] + [97 as byte, 98] == [97, 98];
  }

  lemma SecondTurn(r: Reader, max: nat)
    requires r == Reader(Some(PATH), 2, [97, 98], false, {}, false, []) && max > 0
    ensures Turn(r, Once(), max) == Reader(None, 0, [97, 98], true, {PATH}, false, [Kept(PATH, 2)])
  {
    assert LastIndexOf(r.pending, LF) < 0;
    assert Stored([], PATH, 2, max) == [Kept(PATH, 2)];
  }

  lemma NextPass(r: Reader, max: nat)
    requires r == Reader(None, 0, [], false, {}, false, [Kept(PATH, 2)]) && max > 0
    ensures Turn(r, Once(), max).finished && Output(r, Once()) == []
  {
    assert Once().paths[0] == PATH && Once().paths[1..] == [];
    assert OffsetOf(r.store, PATH) == 2;
  }

  /**
   * Two turns close this file with both bytes held; when the pass is given up there, the next one
   * is over without having delivered anything.
   */
  lemma RestIsNeverDelivered(max: nat, r: Reader, s: Reader, t: Reader)
    requires max > 0 && r == Reader(None, 0, [], false, {}, false, [])
    requires s == Turn(r, Once(), max) && IsDefined(s, Once()) && t == Turn(s, Once(), max)
    ensures Output(r, Once()) == Output(s, Once()) == [] && HoldsRest(t)
    ensures Output(Again(t), Once()) == [] && Turn(Again(t), Once(), max).finished
  {
    FirstTurn(r, max);
    SecondTurn(s, max);
    assert LastIndexOf(s.pending, LF) < 0;
    NextPass(Again(t), max);
  }
}
