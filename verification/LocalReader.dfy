/** The one-shot reader as an object that updates its fields, and a store, step by step, each step proved against FileSets. */
module LocalReader {
  import opened Bytes
  import opened OffsetStore
  import opened FileSets

  class OneShot {
    const store: Store

    var cur: Option<Path>
    var pos: nat
    var pending: bytes
    var flush: bool
    var done: set<Path>
    var finished: bool

    ghost function View(): Reader
      reads this, store
    {
      Reader(cur, pos, pending, flush, done, finished, store.Contents())
    }

    constructor (store: Store)
      ensures this.store == store && View() == Reader(None, 0, [], false, {}, false, store.Contents())
    {
      this.store := store;
      cur, pos, pending, flush, done, finished := None, 0, [], false, {}, false;
    }

    method Record(p: Path, off: nat)
      requires store.Valid()
      modifies store
      ensures store.Valid()
      ensures View() == old(View()).(store := Stored(old(View()).store, p, off, store.max))
    {
      store.Set(p, off);
    }

    /** Holds only rest any more, and records how far the open file was consumed. */
    method Hold(rest: bytes)
      requires store.Valid() && (cur.Some? ==> |rest| <= pos)
      modifies this`pending, store
      ensures store.Valid() && View() == Holding(old(View()), rest, store.max)
    {
      pending := rest;
      if cur.Some? {
        Record(cur.value, pos - |rest|);
      }
    }

    /** Delivers what fits of the bytes that are ready. */
    method Drain(room: nat) returns (out: bytes)
      requires store.Valid() && (cur.Some? ==> |pending| <= pos)
      modifies this`pending, store
      ensures store.Valid()
      ensures var n := Min(room, Ready(old(View())));
        out == old(pending)[..n] && View() == if n == 0 then old(View()) else Delivered(old(View()), n, store.max)
    {
      var end := LastIndexOf(pending, LF);
      if end < 0 {
        if !flush || pending == [] {
          return [];
        }
        end := |pending| - 1;
      }
      var n := Min(room, end + 1);
      if n == 0 {
        return [];
      }
      out := pending[..n];
      Hold(pending[n..]);
    }

    /** The end of the open file. */
    method CloseCurrent()
      requires store.Valid() && cur.Some?
      modifies this, store
      ensures store.Valid()
      ensures View() == Closed(old(View()), store.max)
    {
      var p, off := cur.value, pos;
      done := done + {p};
      flush, cur, pos := true, None, 0;
      Record(p, off);
    }

    /** One read of the open file f. */
    method Fill(f: bytes, got: nat)
      requires store.Valid() && cur.Some? && pos <= |f|
      modifies this, store
      ensures store.Valid()
      ensures View() == Filled(old(View()), f, got, store.max)
    {
      var n := Min(Min(got, SCRATCH), |f| - pos);
      if n > 0 {
        pending, pos := pending + f[pos..pos + n], pos + n;
      } else if pos == |f| {
        CloseCurrent();
      }
    }

    /** Looks for something new in p, and opens it if there is. */
    method TryOpen(p: Path, files: Files)
      requires store.Valid() && cur.None?
      modifies this`cur, this`pos, store`order
      ensures store.Valid()
      ensures View() == Tried(old(View()), p, files)
    {
      if p !in done {
        var known := store.Get(p);
        var off := if known.Some? then known.value else 0;
        if p in files && !(off > 0 && |files[p]| == off) {
          cur, pos := Some(p), if |files[p]| < off then 0 else off;
        }
      }
    }

    /** Opens the next listed file that has something new. */
    method OpenNext(paths: seq<Path>, files: Files)
      requires store.Valid() && cur.None?
      modifies this`cur, this`pos, store`order
      ensures store.Valid()
      ensures View() == Opened(old(View()), paths, files)
    {
      var i := 0;
      ghost var goal := Opened(View(), paths, files);
      assert paths[0..] == paths;
      while i < |paths| && cur.None?
        invariant i <= |paths| && store.Valid()
        invariant goal == if cur.None? then Opened(View(), paths[i..], files) else View()
      {
        assert paths[i..][1..] == paths[i + 1..];
        TryOpen(paths[i], files);
        i := i + 1;
      }
    }

    /** One turn of the loop of Read: what it delivers. */
    method Turn(e: Event) returns (out: bytes)
      requires store.Valid() && IsDefined(View(), e)
      modifies this, store
      ensures store.Valid()
      ensures View() == FileSets.Turn(old(View()), e, store.max) && out == Output(old(View()), e)
    {
      ghost var was := View();
      out := Drain(e.room);
      if |out| > 0 || finished {
        return;
      }
      if cur.None? {
        flush := false;
        OpenedIsDefined(View(), e.paths, e.files);
        OpenNext(e.paths, e.files);
        if cur.None? {
          finished := true;
          return;
        }
      }
      Fill(e.files[cur.value], e.got);
    }
  }
}
