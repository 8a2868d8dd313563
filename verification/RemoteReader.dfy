/** The follower as an object that updates its fields step by step, each step proved against Following. */
module RemoteReader {
  import opened Bytes
  import opened Following

  class Follower {
    const chunk: nat

    var names: seq<Listed>
    var idx: nat
    var curPath: Option<Path>
    var curOff: nat
    var pending: bytes
    var offsets: map<Path, nat>

    function View(): Reader
      reads this
    {
      Reader(names, idx, curPath, curOff, pending, offsets)
    }

    constructor (names: seq<Listed>, offsets: map<Path, nat>, chunk: nat)
      ensures View() == Opened(names, offsets) && this.chunk == chunk
    {
      this.names, this.idx, this.curPath, this.curOff, this.pending, this.offsets := names, 0, None, 0, [], offsets;
      this.chunk := chunk;
    }

    method Record(p: Path, off: nat)
      modifies this`offsets
      ensures offsets == SetOffset(old(offsets), p, off)
    {
      if |offsets| >= MAX_TRACKED {
        offsets := map[];
      }
      offsets := offsets[p := off];
    }

    method Drain(room: nat) returns (out: bytes)
      requires curPath.Some? ==> |pending| <= curOff
      modifies this`pending, this`offsets
      ensures var n := Min(room, Ready(old(pending), chunk));
        out == old(pending)[..n] && (if n == 0 then View() == old(View()) else View() == Delivered(old(View()), n))
      ensures chunk > 0 && room > 0 && |old(pending)| >= 2 * chunk ==>
        out != [] && (|out| == Min(room, |old(pending)|) || out[|out| - 1] == LF)
      ensures out == [] && room > 0 && chunk > 0 ==> LF !in old(pending) && |old(pending)| < 2 * chunk
    {
      var end := LastIndexOf(pending, LF);
      if end < 0 {
        if |pending| < 2 * chunk || pending == [] {
          return [];
        }
        end := |pending| - 1;
      }
      var n := Min(room, end + 1);
      out := pending[..n];
      if n == 0 {
        return;
      }
      pending := pending[n..];
      if curPath.Some? {
        Record(curPath.value, curOff - |pending|);
      }
    }

    /** Gives the partial line back: it is held no more, and its bytes count as unread. */
    method GiveBackTail()
      requires |pending| <= curOff
      modifies this`curOff, this`pending
      ensures var n := PartialTail(old(pending)); curOff == old(curOff) - n && pending == old(pending)[..|old(pending)| - n]
    {
      var tail := PartialTail(pending);
      if tail > 0 {
        curOff := curOff - tail;
        pending := pending[..|pending| - tail];
      }
    }

    method FinishFile()
      requires curPath.Some? && |pending| <= curOff
      modifies this
      ensures View() == Finished(old(View()))
    {
      GiveBackTail();
      Record(curPath.value, curOff);
      curPath := None;
    }

    method Fetch(got: bytes)
      requires curPath.Some? && |pending| <= curOff
      modifies this
      ensures View() == Fetched(old(View()), got, chunk)
    {
      if got == [] {
        assert pending + got == pending;
        FinishFile();
        return;
      }
      ghost var longer := Longer(View(), got);
      pending, curOff := pending + got, curOff + |got|;
      assert View() == longer;
      if |got| < chunk {
        FinishFile();
      }
    }

    method NextFile() returns (found: bool)
      requires idx <= |names| && curPath.None?
      modifies this`idx, this`curPath, this`curOff
      ensures View() == Advanced(old(View())) && found == curPath.Some?
    {
      while idx < |names|
        invariant idx <= |names| && curPath.None? && Advanced(View()) == Advanced(old(View()))
      {
        var f := names[idx];
        var off := OffsetOf(offsets, f.name);
        if off > 0 && f.size == off {
          idx := idx + 1;
        } else {
          idx := idx + 1;
          curPath, curOff := Some(f.name), if f.size < off then 0 else off;
          return true;
        }
      }
      found := false;
    }

    method Relist(listing: seq<Listed>)
      modifies this`names, this`idx
      ensures View() == old(View()).(names := listing, idx := 0)
    {
      names, idx := listing, 0;
    }

    /** One turn of the loop of Read: what it delivers, and whether it waited. */
    method Turn(e: Event) returns (out: bytes, waited: bool)
      requires IsDefined(View(), chunk) && e.room > 0
      modifies this
      ensures View() == Following.Turn(old(View()), e, chunk)
      ensures out == Output(old(View()), e, chunk) && waited == Waits(old(View()), e, chunk)
    {
      ghost var was := View();
      waited := false;
      out := Drain(e.room);
      if |out| > 0 {
        return;
      }
      if curPath.None? {
        var found := NextFile();
        if !found {
          Relist(e.listing);
          waited := true;
          return;
        }
      }
      var got := ReadFile(e.files, curPath.value, curOff, chunk);
      Fetch(got);
    }
  }
}
