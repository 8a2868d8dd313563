/** How many byte ranges a source is cut into, and how long they are. */
module ShardSizes {
  import opened Bytes
  import opened Parallel

  /** As many as it takes for none to be longer than 256 KiB on average, and no more than 8,192. */
  lemma PartsAreFewest(size: nat)
    requires size > 0
    ensures size <= 0x8000_0000 ==> (Parts(size) - 1) * 0x4_0000 < size <= Parts(size) * 0x4_0000
    ensures size > 0x8000_0000 ==> Parts(size) == 8192
  {
    var up := (size + 0x3_FFFF) / 0x4_0000;
    assert (up - 1) * 0x4_0000 < size <= up * 0x4_0000;
    if size > 0x4_0000 {
      assert up <= size / 0x1_0000;
    }
  }

  lemma {:induction false} RangeAt(src: nat, per: nat, parts: nat, n: nat, k: nat)
    requires k < n <= parts
    ensures |Ranges(src, per, parts, n)| == n
    ensures Ranges(src, per, parts, n)[k] == Shard(src, k * per, if k + 1 == parts then -1 else (k + 1) * per)
  {
    if n == 1 {
      assert Ranges(src, per, parts, 0) == [];
    } else {
      RangeAt(src, per, parts, n - 1, if k < n - 1 then k else 0);
    }
  }

  /**
   * A source of known size is cut into ranges of the same length, the last of which takes the rest:
   * as few as keep them within 256 KiB on average, one when it is not longer than that, and never
   * more than 8,192. An empty source is not read, and one of unknown size is one range.
   */
  lemma ShardsAreEven(src: nat, size: nat, k: nat)
    requires size > 0
    ensures var plan := PlanOf(src, Some(size));
      && |plan| > 0
      && (size <= 0x8000_0000 ==> (|plan| - 1) * 0x4_0000 < size <= |plan| * 0x4_0000)
      && (size > 0x8000_0000 ==> |plan| == 8192)
      && (k < |plan| ==>
            plan[k].src == src && plan[k].start == k * (size / |plan|) &&
            plan[k].end == if k + 1 == |plan| then -1 else (k + 1) * (size / |plan|))
    ensures PlanOf(src, Some(0)) == [] && PlanOf(src, None) == [Shard(src, 0, -1)]
  {
    var parts := Parts(size);
    PartsAreFewest(size);
    RangeAt(src, size / parts, parts, parts, if k < parts then k else 0);
  }
}
