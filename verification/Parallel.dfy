/**
 * The parallel scan: sources are cut into byte ranges, workers draw the ranges from a shared
 * cursor, and whatever the interleaving every record is delivered once.
 */
module Parallel {
  import opened Bytes
  import opened JsonSeeking
  import opened TextLines
  import opened Records
  import opened Seeking
  import opened Stream
  import opened Workers

  const MIN_SHARD_BYTES := 65536
  const TARGET_SHARD_BYTES := 262144
  const MAX_SHARDS_PER_SOURCE := 8192

  /** A byte range of a source; a negative end is the end of the source. */
  datatype Shard = Shard(src: nat, start: nat, end: int)

  function Parts(size: nat): (parts: nat)
    ensures parts > 0 && (parts > 1 ==> parts * MIN_SHARD_BYTES <= size)
  {
    Max(Min(Min((size + TARGET_SHARD_BYTES - 1) / TARGET_SHARD_BYTES, size / MIN_SHARD_BYTES), MAX_SHARDS_PER_SOURCE), 1)
  }

  /** The shards of one source; without a known size it is not cut. */
  function PlanOf(src: nat, size: Option<nat>): seq<Shard> {
    if size.None? then [Shard(src, 0, -1)]
    else if size.value == 0 then []
    else Ranges(src, size.value / Parts(size.value), Parts(size.value), Parts(size.value))
  }

  /** The first n of parts ranges of per bytes each. */
  function Ranges(src: nat, per: nat, parts: nat, n: nat): seq<Shard>
    requires n <= parts
  {
    if n == 0 then []
    else Ranges(src, per, parts, n - 1) + [Shard(src, (n - 1) * per, if n == parts then -1 else n * per)]
  }

  function Plan(sizes: seq<Option<nat>>, n: nat): seq<Shard>
    requires n <= |sizes|
  {
    if n == 0 then [] else Plan(sizes, n - 1) + PlanOf(n - 1, sizes[n - 1])
  }

  /** The ranges of one source of that size. */
  method CutSource(src: nat, size: nat) returns (shards: seq<Shard>)
    requires size > 0
    ensures shards == PlanOf(src, Some(size))
  {
    shards := [];
    var parts := Parts(size);
    var per := size / parts;
    for i := 0 to parts
      invariant shards == Ranges(src, per, parts, i)
    {
      var start := i * per;
      var end := start + per;
      if i == parts - 1 {
        end := -1;
      }
      assert start + per == (i + 1) * per;
      shards := shards + [Shard(src, start, end)];
    }
  }

  method PlanShards(sizes: seq<Option<nat>>) returns (shards: seq<Shard>)
    ensures shards == Plan(sizes, |sizes|)
  {
    shards := [];
    for src := 0 to |sizes|
      invariant shards == Plan(sizes, src)
    {
      assert Plan(sizes, src + 1) == shards + PlanOf(src, sizes[src]);
      if sizes[src].None? {
        shards := shards + [Shard(src, 0, -1)];
        continue;
      }
      var size := sizes[src].value;
      if size == 0 {
        assert shards + [] == shards;
        continue;
      }
      var ranges := CutSource(src, size);
      shards := shards + ranges;
    }
  }

  /** Consecutive ranges of one source that start at from and leave nothing out. */
  ghost predicate Tiles(shards: seq<Shard>, src: nat, from: nat, size: nat) {
    if shards == [] then false
    else
      && shards[0].src == src && shards[0].start == from && from < size
      && if |shards| == 1 then shards[0].end == -1
         else from < shards[0].end && Tiles(shards[1..], src, shards[0].end, size)
  }

  /** A plan tiles every source that is not empty. */
  lemma PlanTiles(src: nat, size: nat)
    requires size > 0
    ensures Tiles(PlanOf(src, Some(size)), src, 0, size)
  {
    var parts := Parts(size);
    var per := size / parts;
    assert per >= 1 && parts * per <= size by {
      if parts > 1 {
        assert parts <= parts * MIN_SHARD_BYTES <= size;
      }
      PartsFit(size, parts);
    }
    RangesTile(src, per, parts, 0, size);
  }

  lemma PartsFit(size: nat, parts: nat)
    requires 0 < parts <= size
    ensures size / parts >= 1 && parts * (size / parts) <= size
  {
  }

  /** The ranges after the first n. */
  function RangesAfter(src: nat, per: nat, parts: nat, n: nat): seq<Shard>
    requires n <= parts
    decreases parts - n
  {
    if n == parts then []
    else [Shard(src, n * per, if n + 1 == parts then -1 else (n + 1) * per)] + RangesAfter(src, per, parts, n + 1)
  }

  lemma {:induction false} RangesSplit(src: nat, per: nat, parts: nat, n: nat)
    requires n <= parts
    ensures Ranges(src, per, parts, n) + RangesAfter(src, per, parts, n) == Ranges(src, per, parts, parts)
    decreases parts - n
  {
    if n < parts {
      RangesSplit(src, per, parts, n + 1);
    }
  }

  lemma {:induction false} AfterTiles(src: nat, per: nat, parts: nat, n: nat, size: nat)
    requires n < parts && per >= 1 && parts * per <= size
    ensures Tiles(RangesAfter(src, per, parts, n), src, n * per, size)
    decreases parts - n
  {
    assert n * per < (n + 1) * per <= parts * per;
    if n + 1 < parts {
      AfterTiles(src, per, parts, n + 1, size);
      assert RangesAfter(src, per, parts, n)[1..] == RangesAfter(src, per, parts, n + 1);
    }
  }

  lemma RangesTile(src: nat, per: nat, parts: nat, n: nat, size: nat)
    requires 0 < parts && per >= 1 && parts * per <= size
    ensures Tiles(Ranges(src, per, parts, parts), src, 0, size)
  {
    RangesSplit(src, per, parts, 0);
    assert Ranges(src, per, parts, 0) + RangesAfter(src, per, parts, 0) == RangesAfter(src, per, parts, 0);
    AfterTiles(src, per, parts, 0, size);
  }

  // ----- What the shards of one file deliver -----

  ghost function AllRecords(log: Log, verdicts: seq<Verdict>, shards: seq<Shard>): seq<Rec>
    requires log.Valid() && |verdicts| == |log.stream| + 1
    requires forall i | 0 <= i < |shards| :: shards[i].start <= |log.stream|
  {
    if shards == [] then []
    else ShardRecords(log, verdicts, shards[0].start, shards[0].end) + AllRecords(log, verdicts, shards[1..])
  }

  /** The records of a scan lie in order, in the part of the file it covers. */
  ghost predicate Ascending(rs: seq<Rec>) {
    forall i, j | 0 <= i < j < |rs| :: rs[i].off < rs[j].off
  }

  lemma {:induction false} RecordsAscend(log: Log, p: nat)
    requires log.Valid() && p <= |log.stream|
    ensures Ascending(RecordsFrom(log, p))
    ensures forall i | 0 <= i < |RecordsFrom(log, p)| :: p <= RecordsFrom(log, p)[i].off
    decreases |log.stream| - p
  {
    if p < |log.stream| {
      RecordsAscend(log, MoveAt(log, p).next);
    }
  }

  lemma UptoStep(r: Rec, rest: seq<Rec>, e: nat)
    ensures Upto([r] + rest, e) == if r.off >= e then [] else [r] + Upto(rest, e)
  {
    assert ([r] + rest)[1..] == rest;
  }

  /** All of an ascending list from e on. */
  lemma SinceFirst(rs: seq<Rec>, e: nat)
    requires rs != [] && Ascending(rs) && rs[0].off >= e
    ensures Since(rs, e) == rs
  {
    SinceBelow(rs, e);
  }

  lemma CutBefore(rs: seq<Rec>, s: nat, e: nat)
    requires rs != [] && Ascending(rs) && s <= e <= rs[0].off
    ensures Upto(Since(rs, s), e) + Since(rs, e) == Since(rs, s)
  {
    SinceFirst(rs, s);
    SinceFirst(rs, e);
    assert Upto(rs, e) == [] && [] + rs == rs;
  }

  lemma OneInFront(r: Rec, upto: seq<Rec>, to: seq<Rec>, from: seq<Rec>)
    requires upto + to == from
    ensures [r] + upto + to == [r] + from
  {
    assert [r] + upto + to == [r] + (upto + to);
  }

  lemma CutBehind(rs: seq<Rec>, s: nat, e: nat, from: seq<Rec>, to: seq<Rec>, upto: seq<Rec>)
    requires rs != [] && s <= rs[0].off < e && upto + to == from
    requires from == Since(rs[1..], s) && to == Since(rs[1..], e) && upto == Upto(from, e)
    ensures Upto(Since(rs, s), e) + Since(rs, e) == Since(rs, s)
  {
    SinceStep(rs, s);
    SinceStep(rs, e);
    UptoStep(rs[0], from, e);
    OneInFront(rs[0], upto, to, from);
  }

  /** A range up to e and the records since e make up the whole. */
  lemma {:induction false} CutAtOffset(rs: seq<Rec>, s: nat, e: nat)
    requires Ascending(rs) && s <= e
    ensures Upto(Since(rs, s), e) + Since(rs, e) == Since(rs, s)
  {
    if rs != [] {
      if rs[0].off >= e {
        CutBefore(rs, s, e);
      } else {
        CutAtOffset(rs[1..], s, e);
        if rs[0].off >= s {
          CutBehind(rs, s, e, Since(rs[1..], s), Since(rs[1..], e), Upto(Since(rs[1..], s), e));
        } else {
          SinceStep(rs, s);
          SinceStep(rs, e);
        }
      }
    }
  }

  lemma {:induction false} SinceBelow(rs: seq<Rec>, s: nat)
    requires forall i | 0 <= i < |rs| :: rs[i].off >= s
    ensures Since(rs, s) == rs
  {
    if rs != [] {
      SinceBelow(rs[1..], s);
    }
  }

  /** One file: the shards deliver the records of the uninterrupted scan, once each and in order. */
  lemma {:induction false} ShardsDeliver(log: Log, verdicts: seq<Verdict>, shards: seq<Shard>, src: nat, from: nat)
    requires log.Valid() && |verdicts| == |log.stream| + 1
    requires Tiles(shards, src, from, |log.stream|)
    requires forall i | 0 <= i < |shards| :: shards[i].start <= |log.stream| && CleanCut(log, verdicts, shards[i].start)
    ensures AllRecords(log, verdicts, shards) == Since(Serial(log), from)
    decreases |shards|
  {
    var shard := shards[0];
    RecordsAscend(log, Head(log.stream));
    SinceBelow(Serial(log), 0);
    assert ShardRecords(log, verdicts, shard.start, shard.end) == Upto(Since(Serial(log), from), shard.end);
    if |shards| == 1 {
      UptoEnd(Since(Serial(log), from));
      assert AllRecords(log, verdicts, shards[1..]) == [];
    } else {
      ShardsDeliver(log, verdicts, shards[1..], src, shard.end);
      CutAtOffset(Serial(log), from, shard.end);
    }
  }

  // ----- Sources, shards and workers together -----

  /** A source: its file, the start test of its format and what that says, and whether its size is known. */
  datatype File = File(log: Log, starts: bytes -> bool, verdicts: seq<Verdict>, sized: bool) {
    ghost predicate Valid() { log.Valid() && AreVerdicts(verdicts, log, starts) }

    function Size(): Option<nat> {
      if sized then Some(|log.stream|) else None
    }
  }

  ghost predicate AllValid(files: seq<File>) { forall i | 0 <= i < |files| :: files[i].Valid() }

  type Files = files: seq<File> | AllValid(files) witness []

  function Sizes(files: seq<File>): (sizes: seq<Option<nat>>)
    ensures |sizes| == |files| && forall i | 0 <= i < |files| :: sizes[i] == files[i].Size()
  {
    seq(|files|, i requires 0 <= i < |files| => files[i].Size())
  }

  ghost function Tag(src: nat, rs: seq<Rec>): seq<Item> {
    if rs == [] then [] else [Item(src, rs[0])] + Tag(src, rs[1..])
  }

  lemma {:induction false} TagConcat(src: nat, a: seq<Rec>, b: seq<Rec>)
    ensures Tag(src, a + b) == Tag(src, a) + Tag(src, b)
  {
    if a == [] {
      assert a + b == b;
    } else {
      assert (a + b)[1..] == a[1..] + b;
      TagConcat(src, a[1..], b);
    }
  }

  ghost predicate IsShardOf(files: Files, shard: Shard) {
    shard.src < |files| && shard.start <= |files[shard.src].log.stream|
  }

  ghost predicate AreShardsOf(files: Files, shards: seq<Shard>) {
    forall k | 0 <= k < |shards| :: IsShardOf(files, shards[k])
  }

  /** What scanning a shard delivers; see Parser.ScanShard. */
  ghost function ItemsOf(files: Files, shard: Shard): seq<Item>
    requires IsShardOf(files, shard)
  {
    var file := files[shard.src];
    Tag(shard.src, ShardRecords(file.log, file.verdicts, shard.start, shard.end))
  }

  ghost function Outs(files: Files, shards: seq<Shard>): (outs: seq<seq<Item>>)
    requires AreShardsOf(files, shards)
    ensures |outs| == |shards| && forall k | 0 <= k < |shards| :: outs[k] == ItemsOf(files, shards[k])
  {
    seq(|shards|, k requires 0 <= k < |shards| => ItemsOf(files, shards[k]))
  }

  // ----- The cuts of a plan -----

  /** A shard starts at its file's head, or at least a whole shard's length into it. */
  predicate StartsWithin(shard: Shard, src: nat, size: nat) {
    shard.src == src && (shard.start == 0 || MIN_SHARD_BYTES <= shard.start < size)
  }

  lemma {:induction false} RangesStart(src: nat, per: nat, parts: nat, n: nat, size: nat, k: nat)
    requires k < n <= parts && parts * per <= size && (parts > 1 ==> per >= MIN_SHARD_BYTES)
    ensures |Ranges(src, per, parts, n)| == n && StartsWithin(Ranges(src, per, parts, n)[k], src, size)
    decreases n
  {
    RangesLength(src, per, parts, n);
    if k < n - 1 {
      RangesStart(src, per, parts, n - 1, size, k);
    } else if k > 0 {
      RangeIsInside(per, parts, size, k);
    }
  }

  lemma RangeIsInside(per: nat, parts: nat, size: nat, k: nat)
    requires 0 < k < parts && parts * per <= size && 0 < per
    ensures per <= k * per < size
  {
    assert k * per == (k - 1) * per + per && (parts - k) * per > 0;
    assert parts * per == k * per + (parts - k) * per;
  }

  lemma {:induction false} RangesLength(src: nat, per: nat, parts: nat, n: nat)
    requires n <= parts
    ensures |Ranges(src, per, parts, n)| == n
  {
    if n > 0 {
      RangesLength(src, per, parts, n - 1);
    }
  }

  lemma QuotientIsLong(size: nat, parts: nat)
    requires parts > 1 && parts * MIN_SHARD_BYTES <= size
    ensures size / parts >= MIN_SHARD_BYTES
  {
    var per := size / parts;
    assert size == parts * per + size % parts;
    assert parts * (per + 1) == parts * per + parts;
    if per < MIN_SHARD_BYTES {
      ProductsGrow(parts, per + 1, MIN_SHARD_BYTES);
    }
  }

  lemma ProductsGrow(a: nat, m: nat, n: nat)
    requires m <= n
    ensures a * m <= a * n
  {
    assert a * n == a * m + a * (n - m);
  }

  /** The shards of a source start inside it. */
  lemma PlanStarts(src: nat, size: Option<nat>, k: nat)
    requires k < |PlanOf(src, size)|
    ensures size.None? ==> PlanOf(src, size)[k] == Shard(src, 0, -1)
    ensures size.Some? ==> StartsWithin(PlanOf(src, size)[k], src, size.value)
  {
    if size.Some? && size.value > 0 {
      var parts := Parts(size.value);
      var per := size.value / parts;
      if parts > 1 {
        QuotientIsLong(size.value, parts);
      }
      assert parts <= size.value by {
        assert parts > 1 ==> parts <= parts * MIN_SHARD_BYTES;
      }
      PartsFit(size.value, parts);
      RangesLength(src, per, parts, parts);
      RangesStart(src, per, parts, parts, size.value, k);
    }
  }

  lemma {:induction false} PlanIsOf(files: Files, n: nat)
    requires n <= |files|
    ensures AreShardsOf(files, Plan(Sizes(files), n))
  {
    if n > 0 {
      PlanIsOf(files, n - 1);
      PlanOfIsOf(files, n - 1);
    }
  }

  lemma PlanOfIsOf(files: Files, i: nat)
    requires i < |files|
    ensures AreShardsOf(files, PlanOf(i, files[i].Size()))
  {
    var shards := PlanOf(i, files[i].Size());
    forall k | 0 <= k < |shards|
      ensures IsShardOf(files, shards[k])
    {
      PlanStarts(i, files[i].Size(), k);
    }
  }

  /** What the shards of the plan hold, shard by shard. */
  ghost function PlanOuts(files: Files): (outs: seq<seq<Item>>)
    ensures var shards := Plan(Sizes(files), |files|);
      AreShardsOf(files, shards) && |outs| == |shards| && forall k | 0 <= k < |shards| :: outs[k] == ItemsOf(files, shards[k])
  {
    PlanIsOf(files, |files|);
    Outs(files, Plan(Sizes(files), |files|))
  }

  // ----- Every cut of a plan is clean -----

  /**
   * What a cut at s asks of a file: what a scan from where the seek to s ends reads before it meets
   * the scan of the whole file does not parse, and no record starts between s and there.
   */
  ghost predicate IsSafe(file: File, s: nat)
    requires file.Valid() && Head(file.log.stream) <= s < |file.log.stream|
  {
    LandsWell(file.log, file.verdicts, s)
  }

  /** A seek that ends at a boundary, or in a fragment that frames to the end of its record and does not parse, is safe. */
  lemma FragmentIsSafe(file: File, s: nat, to: nat)
    requires file.Valid() && Head(file.log.stream) <= s < |file.log.stream|
    requires to == Resync(file.log, file.verdicts, s, MAX_RESYNC_LINES)
    requires !IsBoundary(file.log, to) ==>
      Parsed(file.log, to, MoveAt(file.log, to)) == [] && MoveAt(file.log, to).next == Join(file.log, Head(file.log.stream), to)
    requires forall b | s <= b < to && IsBoundary(file.log, b) :: Parsed(file.log, b, MoveAt(file.log, b)) == []
    ensures IsSafe(file, s)
  {
    var log, head := file.log, Head(file.log.stream);
    var m := Join(log, head, to);
    if !IsBoundary(log, to) {
      JoinMonotone(log, head, to, m);
      assert Strays(log, m) == [] && Meet(log, to) == m;
      assert [] + Strays(log, m) == Strays(log, m);
      forall b | to <= b < m
        ensures !IsBoundary(log, b)
      {
        JoinMonotone(log, head, to, b);
      }
    }
  }

  /** In a marked file a cut is safe when it leads on to the next record. */
  lemma MarkedIsSafe(file: File, s: nat)
    requires file.Valid() && Head(file.log.stream) <= s < |file.log.stream|
    requires Marked(file.log, file.verdicts) && LeadsOn(file.log, file.verdicts, s)
    ensures IsSafe(file, s)
  {
    SeekReads(file.log, file.verdicts, s);
    SeekExact(file.log, file.verdicts, s);
  }

  /** In a jsonlog file a cut is safe exactly when it shows no record of its own and leads over no indented one. */
  lemma JsonIsSafe(file: File, emitTail: bool, s: nat)
    requires file.Valid() && Head(file.log.stream) <= s < |file.log.stream|
    requires IsJson(file.log, emitTail) && file.starts == StartsJson
    ensures IsSafe(file, s) <==> !ShamRecord(file.log, s) && !LosesRecord(file.log, s)
  {
    JsonSeekExact(file.log, emitTail, file.verdicts, s);
    SeekExact(file.log, file.verdicts, s);
  }

  lemma SafeIsClean(file: File, s: nat)
    requires file.Valid() && Head(file.log.stream) <= s < |file.log.stream| && IsSafe(file, s)
    ensures CleanCut(file.log, file.verdicts, s)
  {
    SeekExact(file.log, file.verdicts, s);
  }

  /** Every cut that the plan makes in source i is safe. */
  ghost predicate CutSafely(files: Files, i: nat)
    requires i < |files|
  {
    forall k | 0 <= k < |PlanOf(i, files[i].Size())| ::
      var s := PlanOf(i, files[i].Size())[k].start;
      Head(files[i].log.stream) <= s < |files[i].log.stream| && 0 < s ==> IsSafe(files[i], s)
  }

  /** Source i: its shards deliver the records of the uninterrupted scan. */
  lemma SourceDelivers(files: Files, i: nat)
    requires i < |files| && CutSafely(files, i)
    ensures var shards := PlanOf(i, files[i].Size());
      && (forall k | 0 <= k < |shards| :: shards[k].start <= |files[i].log.stream|)
      && AllRecords(files[i].log, files[i].verdicts, shards) == Serial(files[i].log)
  {
    var file, log := files[i], files[i].log;
    var shards := PlanOf(i, file.Size());
    forall k | 0 <= k < |shards|
      ensures shards[k].start <= |log.stream| && CleanCut(log, file.verdicts, shards[k].start)
    {
      PlanStarts(i, file.Size(), k);
      if shards[k].start > 0 {
        SafeIsClean(file, shards[k].start);
      }
    }
    if !file.sized {
      UptoEnd(Serial(log));
      assert AllRecords(log, file.verdicts, shards[1..]) == [];
    } else if log.stream != [] {
      PlanTiles(i, |log.stream|);
      ShardsDeliver(log, file.verdicts, shards, i, 0);
      RecordsAscend(log, Head(log.stream));
      SinceBelow(Serial(log), 0);
    }
  }

  // ----- All sources -----

  function Flat<T>(parts: seq<seq<T>>): seq<T> {
    if parts == [] then [] else parts[0] + Flat(parts[1..])
  }

  lemma {:induction false} FlatSnoc<T>(parts: seq<seq<T>>, last: seq<T>)
    ensures Flat(parts + [last]) == Flat(parts) + last
  {
    if parts == [] {
      assert (parts + [last])[1..] == [];
    } else {
      assert (parts + [last])[1..] == parts[1..] + [last];
      FlatSnoc(parts[1..], last);
    }
  }

  ghost function Merged(bags: seq<multiset<Item>>): multiset<Item> {
    if bags == [] then multiset{} else bags[0] + Merged(bags[1..])
  }

  lemma {:induction false} FlatHoldsMerged(parts: seq<seq<seq<Item>>>, bags: seq<multiset<Item>>)
    requires |parts| == |bags| && forall i | 0 <= i < |parts| :: Sum(parts[i]) == bags[i]
    ensures Sum(Flat(parts)) == Merged(bags)
  {
    if parts != [] {
      SumConcat(parts[0], Flat(parts[1..]));
      FlatHoldsMerged(parts[1..], bags[1..]);
    }
  }

  /** The plan of all sources is the plan of each, one behind the other. */
  lemma {:induction false} PlanIsFlat(sizes: seq<Option<nat>>, n: nat, parts: seq<seq<Shard>>)
    requires n == |parts| <= |sizes| && forall i | 0 <= i < n :: parts[i] == PlanOf(i, sizes[i])
    ensures Plan(sizes, n) == Flat(parts)
  {
    if n > 0 {
      PlanIsFlat(sizes, n - 1, parts[..n - 1]);
      FlatSnoc(parts[..n - 1], parts[n - 1]);
      assert parts[..n - 1] + [parts[n - 1]] == parts;
    }
  }

  lemma OutsConcat(files: Files, a: seq<Shard>, b: seq<Shard>)
    requires AreShardsOf(files, a) && AreShardsOf(files, b)
    ensures AreShardsOf(files, a + b) && Outs(files, a + b) == Outs(files, a) + Outs(files, b)
  {
    forall k | 0 <= k < |a + b|
      ensures IsShardOf(files, (a + b)[k])
    {
      assert (a + b)[k] == if k < |a| then a[k] else b[k - |a|];
    }
  }

  lemma {:induction false} OutsFlat(files: Files, shards: seq<seq<Shard>>, outs: seq<seq<seq<Item>>>)
    requires |shards| == |outs|
    requires forall i | 0 <= i < |shards| :: AreShardsOf(files, shards[i]) && outs[i] == Outs(files, shards[i])
    ensures AreShardsOf(files, Flat(shards)) && Outs(files, Flat(shards)) == Flat(outs)
  {
    if shards != [] {
      OutsFlat(files, shards[1..], outs[1..]);
      OutsConcat(files, shards[0], Flat(shards[1..]));
    }
  }

  /** What the shards of one source hold, as items. */
  lemma {:induction false} SumOfOuts(files: Files, i: nat, shards: seq<Shard>)
    requires i < |files| && forall k | 0 <= k < |shards| :: shards[k].src == i && shards[k].start <= |files[i].log.stream|
    ensures AreShardsOf(files, shards)
    ensures Sum(Outs(files, shards)) == multiset(Tag(i, AllRecords(files[i].log, files[i].verdicts, shards)))
  {
    if shards != [] {
      var log, verdicts := files[i].log, files[i].verdicts;
      SumOfOuts(files, i, shards[1..]);
      OutsStep(files, shards);
      AddTagged(i, ShardRecords(log, verdicts, shards[0].start, shards[0].end), AllRecords(log, verdicts, shards[1..]));
    }
  }

  lemma OutsStep(files: Files, shards: seq<Shard>)
    requires shards != [] && IsShardOf(files, shards[0]) && AreShardsOf(files, shards[1..])
    ensures AreShardsOf(files, shards)
    ensures Sum(Outs(files, shards)) == multiset(ItemsOf(files, shards[0])) + Sum(Outs(files, shards[1..]))
  {
    forall k | 0 <= k < |shards|
      ensures IsShardOf(files, shards[k])
    {
      assert k > 0 ==> shards[k] == shards[1..][k - 1];
    }
    assert Outs(files, shards)[1..] == Outs(files, shards[1..]);
  }

  lemma AddTagged(src: nat, a: seq<Rec>, b: seq<Rec>)
    ensures multiset(Tag(src, a)) + multiset(Tag(src, b)) == multiset(Tag(src, a + b))
  {
    TagConcat(src, a, b);
  }

  /** What reading the sources one after the other reads. */
  ghost function SerialItems(files: Files): multiset<Item> { Merged(SerialBags(files)) }

  ghost function SerialBags(files: Files): (bags: seq<multiset<Item>>)
    ensures |bags| == |files| && forall i | 0 <= i < |files| :: bags[i] == multiset(Tag(i, Serial(files[i].log)))
  {
    seq(|files|, i requires 0 <= i < |files| => multiset(Tag(i, Serial(files[i].log))))
  }

  lemma SourceHolds(files: Files, i: nat, shards: seq<Shard>)
    requires i < |files| && CutSafely(files, i) && shards == PlanOf(i, files[i].Size())
    ensures AreShardsOf(files, shards) && Sum(Outs(files, shards)) == multiset(Tag(i, Serial(files[i].log)))
  {
    SourceDelivers(files, i);
    forall k | 0 <= k < |shards|
      ensures shards[k].src == i
    {
      PlanStarts(i, files[i].Size(), k);
    }
    SumOfOuts(files, i, shards);
  }

  lemma PlanHoldsSerial(files: Files)
    requires forall i | 0 <= i < |files| :: CutSafely(files, i)
    ensures Sum(PlanOuts(files)) == SerialItems(files)
  {
    var sizes := Sizes(files);
    var shards := seq(|files|, i requires 0 <= i < |files| => PlanOf(i, sizes[i]));
    forall i | 0 <= i < |files|
      ensures AreShardsOf(files, shards[i]) && Sum(Outs(files, shards[i])) == SerialBags(files)[i]
    {
      SourceHolds(files, i, shards[i]);
    }
    var outs := seq(|files|, i requires 0 <= i < |files| => Outs(files, shards[i]));
    PlanIsFlat(sizes, |files|, shards);
    OutsFlat(files, shards, outs);
    FlatHoldsMerged(outs, SerialBags(files));
  }

  // ----- What the workers scan -----

  /** Where a resynchronisation looks at p, it sees a whole line, or in a jsonlog file the first byte of one. */
  ghost predicate Shows(file: File, p: nat)
    requires file.Valid() && p <= |file.log.stream|
  {
    IsShown(file.log, p) || (file.starts == StartsJson && ShowsByte(file.log, p))
  }

  /** It does so at every position that the resynchronisation from p looks at. */
  ghost predicate ShowsAlong(file: File, p: nat, lines: nat)
    requires file.Valid() && p <= |file.log.stream|
    decreases lines
  {
    lines == 0 ||
      (Shows(file, p) &&
       (file.verdicts[p] == Interior && IndexFrom(file.log.stream, LF, p) >= 0 ==>
          ShowsAlong(file, IndexFrom(file.log.stream, LF, p) + 1, lines - 1)))
  }

  lemma ShownHere(file: File, p: nat)
    requires file.Valid() && p <= |file.log.stream| && Shows(file, p)
    ensures Clear(file.log, file.starts, p)
  {
    if IsShown(file.log, p) {
      ShownIsClear(file.log, file.starts, p);
    } else {
      ByteIsClear(file.log, p);
    }
  }

  lemma ShowsStep(file: File, p: nat, lines: nat, nl: int)
    requires file.Valid() && p <= |file.log.stream| && lines > 0 && nl == IndexFrom(file.log.stream, LF, p)
    requires ShowsAlong(file, p, lines)
    ensures Shows(file, p) && (file.verdicts[p] == Interior && nl >= 0 ==> ShowsAlong(file, nl + 1, lines - 1))
  {
  }

  lemma ClearsStep(file: File, p: nat, lines: nat, nl: int)
    requires file.Valid() && p <= |file.log.stream| && lines > 0 && nl == IndexFrom(file.log.stream, LF, p)
    requires Clear(file.log, file.starts, p)
    requires file.verdicts[p] == Interior && nl >= 0 ==> ClearAlong(file.log, file.starts, file.verdicts, nl + 1, lines - 1)
    ensures ClearAlong(file.log, file.starts, file.verdicts, p, lines)
  {
  }

  lemma {:induction false} ShownAlongIsClear(file: File, p: nat, lines: nat)
    requires file.Valid() && p <= |file.log.stream| && ShowsAlong(file, p, lines)
    ensures ClearAlong(file.log, file.starts, file.verdicts, p, lines)
    decreases lines
  {
    if lines > 0 {
      var nl := IndexFrom(file.log.stream, LF, p);
      ShowsStep(file, p, lines, nl);
      ShownHere(file, p);
      if file.verdicts[p] == Interior && nl >= 0 {
        ShownAlongIsClear(file, nl + 1, lines - 1);
      }
      ClearsStep(file, p, lines, nl);
    }
  }

  /** What a worker may read in a shard: this is what Parser.ScanShard ensures of it. */
  ghost predicate IsScanOf(files: Files, shard: Shard, rs: seq<Rec>)
    requires IsShardOf(files, shard)
  {
    var file := files[shard.src];
    shard.start == 0 || ClearAlong(file.log, file.starts, file.verdicts, shard.start, MAX_RESYNC_LINES) ==>
      rs == ShardRecords(file.log, file.verdicts, shard.start, shard.end)
  }

  /** What the workers read, shard by shard of the plan. */
  ghost predicate AreScans(files: Files, scans: seq<seq<Rec>>) {
    PlanIsOf(files, |files|);
    var shards := Plan(Sizes(files), |files|);
    |scans| == |shards| && forall k | 0 <= k < |shards| :: IsScanOf(files, shards[k], scans[k])
  }

  ghost function Scanned(files: Files, scans: seq<seq<Rec>>): (outs: seq<seq<Item>>)
    requires AreScans(files, scans)
    ensures |outs| == |scans| && forall k | 0 <= k < |outs| :: outs[k] == Tag(Plan(Sizes(files), |files|)[k].src, scans[k])
  {
    seq(|scans|, k requires 0 <= k < |scans| => Tag(Plan(Sizes(files), |files|)[k].src, scans[k]))
  }

  /** At every cut of the plan the resynchronisation sees whole lines. */
  ghost predicate CutsShow(files: Files) {
    PlanIsOf(files, |files|);
    var shards := Plan(Sizes(files), |files|);
    forall k | 0 <= k < |shards| && shards[k].start > 0 :: ShowsAlong(files[shards[k].src], shards[k].start, MAX_RESYNC_LINES)
  }

  lemma ScansAreOuts(files: Files, scans: seq<seq<Rec>>)
    requires AreScans(files, scans) && CutsShow(files)
    ensures Scanned(files, scans) == PlanOuts(files)
  {
    PlanIsOf(files, |files|);
    var shards := Plan(Sizes(files), |files|);
    forall k | 0 <= k < |shards|
      ensures Tag(shards[k].src, scans[k]) == ItemsOf(files, shards[k])
    {
      assert IsShardOf(files, shards[k]) && IsScanOf(files, shards[k], scans[k]);
      if shards[k].start > 0 {
        ShownAlongIsClear(files[shards[k].src], shards[k].start, MAX_RESYNC_LINES);
      }
    }
  }

  /**
   * The parallel scan delivers, under every fair interleaving and for any number of workers,
   * exactly the records that reading the sources one after the other reads, each once, provided
   * that every cut of the plan is safe and shows the resynchronisation whole lines.
   */
  lemma ParallelIsSerial(files: Files, scans: seq<seq<Rec>>, workers: nat, actions: seq<Action>, n: nat)
    requires workers > 0 && AreScans(files, scans)
    requires CutsShow(files) && forall i | 0 <= i < |files| :: CutSafely(files, i)
    requires HasRounds(actions, workers, n) && Work(Scanned(files, scans), Start(workers)) <= n
    ensures var s := Run(Scanned(files, scans), Start(workers), actions); AllGone(s) && s.delivered == SerialItems(files)
  {
    ScansAreOuts(files, scans);
    FairRunsDeliverAll(PlanOuts(files), workers, actions, n);
    PlanIsWhole(files);
  }

  lemma PlanIsWhole(files: Files)
    requires forall i | 0 <= i < |files| :: CutSafely(files, i)
    ensures Undrawn(PlanOuts(files), 0) == SerialItems(files)
  {
    var outs := PlanOuts(files);
    UndrawnIsSum(outs, 0);
    assert outs[0..] == outs;
    PlanHoldsSerial(files);
  }

  /** Fair or not, a run never delivers a record that the serial scan does not, nor one more often. */
  lemma NoRunExceedsSerial(files: Files, scans: seq<seq<Rec>>, workers: nat, actions: seq<Action>)
    requires AreScans(files, scans) && CutsShow(files) && forall i | 0 <= i < |files| :: CutSafely(files, i)
    ensures Run(Scanned(files, scans), Start(workers), actions).delivered <= SerialItems(files)
  {
    ScansAreOuts(files, scans);
    NoRunInvents(PlanOuts(files), workers, actions);
    PlanIsWhole(files);
  }
}
