/** A heap cut into blocks that tile it in address order, as the two boundary-tag allocators keep it (src/mem.c and
    src/memheap.c): splitting, merging, and what header stores leave of the bytes between the headers. */
module Tiling {
  import opened Align
  import opened Basics

  /** RT_ALIGN_SIZE, SIZEOF_STRUCT_MEM and MIN_SIZE. */
  datatype Config = Config(align: nat, hdr: nat, minSize: nat)

  /** One tile: header at addr, payload from addr + hdr up to next. */
  datatype Block = Block(addr: int, next: int, used: bool)

  const NULL: int := -1

  predicate ValidConfig(c: Config) {
    0 < c.align && 0 < c.hdr && Multiple(c.hdr, c.align)
  }

  function Payload(c: Config, b: Block): int { b.next - b.addr - c.hdr }

  predicate Fits(c: Config, b: Block, n: nat) { !b.used && Payload(c, b) >= n }

  ghost predicate Tiles(c: Config, bs: seq<Block>, end: int) {
    var tiled :=
      && 0 < c.hdr
      && |bs| > 0 && bs[0].addr == 0 && bs[|bs| - 1].next == end
      && (forall i :: 0 <= i < |bs| ==> bs[i].addr + c.hdr <= bs[i].next)
      && (forall i, j :: 0 <= i && i + 1 == j < |bs| ==> bs[i].next == bs[j].addr)
      && (forall i, j :: 0 <= i < j < |bs| ==> bs[i].next <= bs[j].addr);
    tiled
  }

  ghost predicate Aligned(c: Config, bs: seq<Block>) {
    ValidConfig(c) && forall i :: 0 <= i < |bs| ==> Multiple(bs[i].addr, c.align)
  }

  ghost predicate Coalesced(bs: seq<Block>) {
    forall i, j :: 0 <= i && i + 1 == j < |bs| ==> bs[i].used || bs[j].used
  }

  function SplitAt(c: Config, bs: seq<Block>, i: nat, n: nat): seq<Block>
    requires i < |bs|
  {
    var cut := bs[i].addr + c.hdr + n;
    bs[..i] + [Block(bs[i].addr, cut, true), Block(cut, bs[i].next, false)] + bs[i + 1..]
  }

  /** Merge blocks i and i + 1 into one block with the status of block i. */
  function MergeAt(bs: seq<Block>, i: nat): seq<Block>
    requires i + 1 < |bs|
  {
    bs[..i] + [Block(bs[i].addr, bs[i + 1].next, bs[i].used)] + bs[i + 2..]
  }

  function PlugForward(bs: seq<Block>, i: nat): (r: seq<Block>)
    requires i < |bs|
    ensures i < |r|
  {
    if i + 1 < |bs| && !bs[i + 1].used then MergeAt(bs, i) else bs
  }

  function PlugBackward(bs: seq<Block>, i: nat): seq<Block>
    requires i < |bs|
  {
    if 0 < i && !bs[i - 1].used then MergeAt(bs, i - 1) else bs
  }

  function Plug(bs: seq<Block>, i: nat): seq<Block>
    requires i < |bs|
  {
    PlugBackward(PlugForward(bs, i), i)
  }

  /** The tiling after block i has been freed. */
  function Release(bs: seq<Block>, i: nat): seq<Block>
    requires i < |bs|
  {
    Plug(bs[i := bs[i].(used := false)], i)
  }

  /** The tiling after block i has been shrunk in place to n payload bytes. */
  function Shrink(c: Config, bs: seq<Block>, i: nat, n: nat): seq<Block>
    requires i < |bs|
  {
    Plug(SplitAt(c, bs, i, n), i + 1)
  }

  lemma SplitTiles(c: Config, bs: seq<Block>, end: int, i: nat, n: nat)
    requires Tiles(c, bs, end) && i < |bs|
    requires Payload(c, bs[i]) >= n + c.hdr
    ensures Tiles(c, SplitAt(c, bs, i, n), end)
  {
    var r := SplitAt(c, bs, i, n);
    assert forall k :: 0 <= k < i ==> r[k] == bs[k];
    assert forall k :: i + 2 <= k < |r| ==> r[k] == bs[k - 1];
    SplitTilesPointwise(c, bs, r, end, i);
  }

  lemma SplitTilesPointwise(c: Config, bs: seq<Block>, r: seq<Block>, end: int, i: nat)
    requires Tiles(c, bs, end) && i < |bs| && |r| == |bs| + 1
    requires forall k :: 0 <= k < i ==> r[k] == bs[k]
    requires forall k :: i + 2 <= k < |r| ==> r[k] == bs[k - 1]
    requires r[i].addr == bs[i].addr && r[i + 1].next == bs[i].next
    requires r[i].addr + c.hdr <= r[i].next == r[i + 1].addr <= r[i + 1].next - c.hdr
    ensures Tiles(c, r, end)
  {
    forall k, j | 0 <= k < j < |r|
      ensures r[k].next <= r[j].addr && (k + 1 == j ==> r[k].next == r[j].addr)
    {
      SplitPair(c, bs, r, end, i, k, j);
    }
  }

  lemma SplitPair(c: Config, bs: seq<Block>, r: seq<Block>, end: int, i: nat, k: nat, j: nat)
    requires Tiles(c, bs, end) && i < |bs| && |r| == |bs| + 1
    requires forall k :: 0 <= k < i ==> r[k] == bs[k]
    requires forall k :: i + 2 <= k < |r| ==> r[k] == bs[k - 1]
    requires r[i].addr == bs[i].addr && r[i + 1].next == bs[i].next
    requires r[i].addr + c.hdr <= r[i].next == r[i + 1].addr <= r[i + 1].next - c.hdr
    requires k < j < |r|
    ensures r[k].next <= r[j].addr && (k + 1 == j ==> r[k].next == r[j].addr)
  {
    var k', j' := if k <= i then k else k - 1, if j <= i then j else j - 1;
    assert k' < j' ==> bs[k'].next <= bs[j'].addr;
  }

  lemma SplitAligned(c: Config, bs: seq<Block>, i: nat, n: nat)
    requires Aligned(c, bs) && i < |bs| && Multiple(n, c.align)
    ensures Aligned(c, SplitAt(c, bs, i, n))
  {
    AddMod(bs[i].addr, c.hdr, c.align);
    AddMod(bs[i].addr + c.hdr, n, c.align);
    var r := SplitAt(c, bs, i, n);
    assert forall k :: i + 2 <= k < |r| ==> r[k] == bs[k - 1];
  }

  lemma PlugAligned(c: Config, bs: seq<Block>, i: nat)
    requires Aligned(c, bs) && i < |bs|
    ensures Aligned(c, Plug(bs, i))
  {
    MergeAligned(c, bs, i);
    MergeAligned(c, PlugForward(bs, i), i - 1);
  }

  lemma MergeAligned(c: Config, bs: seq<Block>, i: int)
    requires Aligned(c, bs)
    ensures 0 <= i && i + 1 < |bs| ==> Aligned(c, MergeAt(bs, i))
  {
    if 0 <= i && i + 1 < |bs| {
      var r := MergeAt(bs, i);
      assert forall k :: 0 <= k <= i ==> r[k].addr == bs[k].addr;
      assert forall k :: i + 1 <= k < |r| ==> r[k] == bs[k + 1];
    }
  }

  lemma MergeTiles(c: Config, bs: seq<Block>, end: int, i: nat)
    requires Tiles(c, bs, end) && i + 1 < |bs|
    ensures Tiles(c, MergeAt(bs, i), end)
  {
    var r := MergeAt(bs, i);
    assert forall k :: 0 <= k < i ==> r[k] == bs[k];
    assert forall k :: i + 1 <= k < |r| ==> r[k] == bs[k + 1];
    MergeTilesPointwise(c, bs, r, end, i);
  }

  lemma MergeTilesPointwise(c: Config, bs: seq<Block>, r: seq<Block>, end: int, i: nat)
    requires Tiles(c, bs, end) && i + 1 < |bs| && |r| == |bs| - 1
    requires forall k :: 0 <= k < i ==> r[k] == bs[k]
    requires forall k :: i + 1 <= k < |r| ==> r[k] == bs[k + 1]
    requires r[i].addr == bs[i].addr && r[i].next == bs[i + 1].next
    ensures Tiles(c, r, end)
  {
    forall k, j | 0 <= k < j < |r|
      ensures r[k].next <= r[j].addr && (k + 1 == j ==> r[k].next == r[j].addr)
    {
      if k >= i {
        assert bs[k + 1].next <= bs[j + 1].addr;
      }
    }
  }

  lemma PlugTiles(c: Config, bs: seq<Block>, end: int, i: nat)
    requires Tiles(c, bs, end) && i < |bs|
    ensures Tiles(c, PlugForward(bs, i), end)
    ensures Tiles(c, Plug(bs, i), end)
  {
    if i + 1 < |bs| {
      MergeTiles(c, bs, end, i);
    }
    var f := PlugForward(bs, i);
    if 0 < i {
      MergeTiles(c, f, end, i - 1);
    }
  }

  /** No two neighbours are free except possibly around i. */
  ghost predicate CoalescedBut(bs: seq<Block>, i: int) {
    forall k, j :: 0 <= k && k + 1 == j < |bs| && k != i && j != i ==> bs[k].used || bs[j].used
  }

  lemma PlugCoalesces(bs: seq<Block>, i: nat)
    requires i < |bs| && !bs[i].used && CoalescedBut(bs, i)
    ensures Coalesced(Plug(bs, i))
  {
    var f := PlugForward(bs, i);
    assert forall k :: 0 <= k <= i ==> f[k].used == bs[k].used;
    if i + 1 < |bs| && !bs[i + 1].used {
      assert forall k :: i < k < |f| ==> f[k] == bs[k + 1];
      assert i + 2 < |bs| ==> bs[i + 1].used || bs[i + 2].used;
    }
    assert i + 1 < |f| ==> f[i + 1].used;
    assert forall k, j :: 0 <= k && k + 1 == j < |f| && j != i ==> f[k].used || f[j].used;
    if 0 < i && !f[i - 1].used {
      var r := MergeAt(f, i - 1);
      assert forall k :: 0 <= k < i ==> r[k].used == f[k].used;
      assert forall k :: i <= k < |r| ==> r[k] == f[k + 1];
      assert 1 < i ==> f[i - 2].used;
    }
  }

  /** Putting the two halves of a split back together. */
  lemma MergeSplit(c: Config, bs: seq<Block>, i: nat, n: nat)
    requires i < |bs| && !bs[i].used
    ensures var s := SplitAt(c, bs, i, n);
            i + 1 < |s| && !s[i + 1].used && MergeAt(s[i := s[i].(used := false)], i) == bs
  {
    var s := SplitAt(c, bs, i, n);
    var f := s[i := s[i].(used := false)];
    assert f[..i] == bs[..i] && f[i + 2..] == bs[i + 1..];
    assert bs == bs[..i] + [bs[i]] + bs[i + 1..];
  }

  lemma BelowEnd(c: Config, bs: seq<Block>, end: int)
    requires Tiles(c, bs, end)
    ensures 0 < c.hdr
    ensures forall i :: 0 <= i < |bs| ==> 0 <= bs[i].addr && bs[i].addr + c.hdr <= bs[i].next <= end
  {
    forall i | 0 <= i < |bs|
      ensures 0 <= bs[i].addr && bs[i].next <= end
    {
      assert i > 0 ==> bs[0].next <= bs[i].addr;
      assert i < |bs| - 1 ==> bs[i].next <= bs[|bs| - 1].addr;
    }
  }

  /** k lies in the header of some block of the tiling, or in the sentinel. */
  ghost predicate InHeader(c: Config, bs: seq<Block>, end: int, k: int) {
    (exists m :: 0 <= m < |bs| && bs[m].addr <= k < bs[m].addr + c.hdr) || end <= k < end + c.hdr
  }

  ghost predicate InPayload(c: Config, b: Block, k: int) { b.addr + c.hdr <= k < b.next }

  lemma PayloadOutsideHeaders(c: Config, bs: seq<Block>, end: int, j: nat, k: int)
    requires Tiles(c, bs, end) && j < |bs| && InPayload(c, bs[j], k)
    ensures !InHeader(c, bs, end, k)
  {
    BelowEnd(c, bs, end);
    forall m | 0 <= m < |bs|
      ensures !(bs[m].addr <= k < bs[m].addr + c.hdr)
    {
      assert m < j ==> bs[m].next <= bs[j].addr;
      assert m > j ==> bs[j].next <= bs[m].addr;
    }
  }

  /** Nothing outside the headers of bs changes. */
  ghost predicate OnlyHeaders(c: Config, bs: seq<Block>, end: int, before: seq<Byte>, after: seq<Byte>) {
    var only := |before| == |after| && forall k :: 0 <= k < |before| && !InHeader(c, bs, end, k) ==> after[k] == before[k];
    only
  }

  /** Every used block of bs other than the one at address but holds the same payload bytes before and after. */
  ghost predicate KeepsPayloads(c: Config, bs: seq<Block>, before: seq<Byte>, after: seq<Byte>, but: int) {
    var keeps :=
      |before| == |after| &&
      forall j, k :: 0 <= j < |bs| && bs[j].used && bs[j].addr != but && InPayload(c, bs[j], k) && 0 <= k < |before|
        ==> after[k] == before[k];
    keeps
  }

  /** Index of the block whose header is at address a, or |bs|. */
  function Find(bs: seq<Block>, a: int): (i: nat)
    ensures i <= |bs| && (i < |bs| ==> bs[i].addr == a)
    ensures forall j :: 0 <= j < i ==> bs[j].addr != a
  {
    if bs == [] || bs[0].addr == a then 0 else 1 + Find(bs[1..], a)
  }

  /** p is a pointer that alloc or realloc returned and that has not been freed. */
  ghost predicate LivePointer(c: Config, bs: seq<Block>, p: int) {
    var i := Find(bs, p - c.hdr);
    var live := i < |bs| && bs[i].used;
    live
  }

  lemma HeaderRegions(c: Config, bs: seq<Block>, end: int, i: nat)
    requires Tiles(c, bs, end) && i < |bs|
    ensures forall k :: bs[i].addr <= k < bs[i].addr + c.hdr ==> InHeader(c, bs, end, k)
    ensures forall k :: bs[i].next <= k < bs[i].next + c.hdr ==> InHeader(c, bs, end, k)
  {
    if i + 1 < |bs| {
      assert bs[i].next == bs[i + 1].addr;
    }
  }

  lemma RetagTiles(c: Config, bs: seq<Block>, end: int, i: nat, u: bool)
    requires Tiles(c, bs, end) && i < |bs|
    ensures Tiles(c, bs[i := bs[i].(used := u)], end)
    ensures Aligned(c, bs) ==> Aligned(c, bs[i := bs[i].(used := u)])
  {
    var r := bs[i := bs[i].(used := u)];
    assert forall k :: 0 <= k < |bs| ==> r[k].addr == bs[k].addr && r[k].next == bs[k].next;
  }

  lemma OutsideHeaders(c: Config, bs: seq<Block>, end: int, before: seq<Byte>, after: seq<Byte>, k: int)
    requires OnlyHeaders(c, bs, end, before, after) && 0 <= k < |before| && !InHeader(c, bs, end, k)
    ensures |before| == |after| && after[k] == before[k]
  {
  }

  lemma HeadersKeepPayloads(c: Config, bs: seq<Block>, end: int, before: seq<Byte>, after: seq<Byte>)
    requires Tiles(c, bs, end)
    requires OnlyHeaders(c, bs, end, before, after)
    ensures KeepsPayloads(c, bs, before, after, NULL)
  {
    forall j, k | 0 <= j < |bs| && bs[j].used && InPayload(c, bs[j], k) && 0 <= k < |before|
      ensures after[k] == before[k]
    {
      PayloadOutsideHeaders(c, bs, end, j, k);
    }
  }

  lemma SameHeaders(c: Config, bs: seq<Block>, r: seq<Block>, end: int)
    requires |r| == |bs| && forall m :: 0 <= m < |bs| ==> r[m].addr == bs[m].addr
    ensures forall k :: InHeader(c, r, end, k) <==> InHeader(c, bs, end, k)
  {
    forall k
      ensures InHeader(c, r, end, k) <==> InHeader(c, bs, end, k)
    {
      assert forall m :: 0 <= m < |bs| ==> (r[m].addr <= k < r[m].addr + c.hdr <==> bs[m].addr <= k < bs[m].addr + c.hdr);
    }
  }

  lemma SplitCoalesced(c: Config, bs: seq<Block>, i: nat, n: nat)
    requires Coalesced(bs) && i < |bs| && bs[i].used
    ensures CoalescedBut(SplitAt(c, bs, i, n), i + 1)
  {
    var r := SplitAt(c, bs, i, n);
    assert forall k :: 0 <= k < i ==> r[k] == bs[k];
    assert forall k :: i + 2 <= k < |r| ==> r[k] == bs[k - 1];
  }

  lemma SplitRegions(c: Config, bs: seq<Block>, end: int, i: nat, n: nat)
    requires Tiles(c, bs, end) && i < |bs| && Payload(c, bs[i]) >= n + c.hdr
    ensures var a, cut := bs[i].addr, bs[i].addr + c.hdr + n;
            forall k :: a <= k < a + c.hdr || cut <= k < cut + c.hdr || bs[i].next <= k < bs[i].next + c.hdr
              ==> InHeader(c, SplitAt(c, bs, i, n), end, k)
  {
    SplitTiles(c, bs, end, i, n);
    var r := SplitAt(c, bs, i, n);
    HeaderRegions(c, r, end, i);
    HeaderRegions(c, r, end, i + 1);
  }

  /** Cutting the tail off block i leaves its first n payload bytes and every other payload alone. */
  lemma ShrinkPayloads(c: Config, bs: seq<Block>, end: int, i: nat, n: nat, before: seq<Byte>, after: seq<Byte>)
    requires Tiles(c, bs, end) && i < |bs| && bs[i].used && Payload(c, bs[i]) >= n + c.hdr
    requires OnlyHeaders(c, SplitAt(c, bs, i, n), end, before, after)
    ensures KeepsPayloads(c, bs, before, after, bs[i].addr)
    ensures end <= |before| ==> SameBytes(before, bs[i].addr + c.hdr, after, bs[i].addr + c.hdr, n)
  {
    var r := SplitAt(c, bs, i, n);
    SplitTiles(c, bs, end, i, n);
    BelowEnd(c, r, end);
    forall j, k | 0 <= j < |bs| && bs[j].used && bs[j].addr != bs[i].addr && InPayload(c, bs[j], k) && 0 <= k < |before|
      ensures after[k] == before[k]
    {
      var j' := if j < i then j else j + 1;
      assert r[j'] == bs[j];
      PayloadOutsideHeaders(c, r, end, j', k);
    }
    assert r[i] == Block(bs[i].addr, bs[i].addr + c.hdr + n, true);
    forall k | bs[i].addr + c.hdr <= k < bs[i].addr + c.hdr + n
      ensures !InHeader(c, r, end, k)
    {
      PayloadOutsideHeaders(c, r, end, i, k);
    }
  }

  /** A used block stays a block, so its pointer stays live, when some other block is carved or freed. */
  lemma StaysLive(c: Config, bs: seq<Block>, r: seq<Block>, end: int, p: int)
    requires Tiles(c, r, end) && LivePointer(c, bs, p) && bs[Find(bs, p - c.hdr)] in r
    ensures LivePointer(c, r, p) && r[Find(r, p - c.hdr)] == bs[Find(bs, p - c.hdr)]
  {
    var b := bs[Find(bs, p - c.hdr)];
    var j :| 0 <= j < |r| && r[j] == b;
    FindIs(c, r, end, j);
  }

  lemma MergeStays(bs: seq<Block>, i: nat, b: Block)
    requires i + 1 < |bs| && !bs[i].used && !bs[i + 1].used && b in bs && b.used
    ensures b in MergeAt(bs, i)
  {
    var j :| 0 <= j < |bs| && bs[j] == b;
    assert MergeAt(bs, i)[if j < i then j else j - 1] == b;
  }

  lemma ReleaseStays(bs: seq<Block>, i: nat, b: Block)
    requires i < |bs| && b in bs && b.used && b != bs[i]
    ensures b in Release(bs, i)
  {
    var j :| 0 <= j < |bs| && bs[j] == b;
    var f := bs[i := bs[i].(used := false)];
    assert f[j] == b;
    if i + 1 < |f| && !f[i + 1].used {
      MergeStays(f, i, b);
    }
    var g := PlugForward(f, i);
    if 0 < i && !g[i - 1].used {
      MergeStays(g, i - 1, b);
    }
  }

  /** Bytes written into the payload of the block of q reach no other used block. */
  lemma CopyPayloads(c: Config, end: int, bs: seq<Block>, q: int, m: nat, before: seq<Byte>, after: seq<Byte>)
    requires Tiles(c, bs, end) && LivePointer(c, bs, q) && m <= Payload(c, bs[Find(bs, q - c.hdr)])
    requires |before| == |after| && forall k :: 0 <= k < |before| && !(q <= k < q + m) ==> after[k] == before[k]
    ensures KeepsPayloads(c, bs, before, after, q - c.hdr)
  {
    var i := Find(bs, q - c.hdr);
    forall j, k | 0 <= j < |bs| && bs[j].used && bs[j].addr != q - c.hdr && InPayload(c, bs[j], k) && 0 <= k < |before|
      ensures after[k] == before[k]
    {
      Apart(c, bs, end, i, j, k);
    }
  }

  lemma Apart(c: Config, bs: seq<Block>, end: int, i: nat, j: nat, k: int)
    requires Tiles(c, bs, end) && i < |bs| && j < |bs| && i != j && InPayload(c, bs[j], k)
    ensures !(bs[i].addr <= k < bs[i].next)
  {
  }

  /** m bytes at q in after are the m bytes that were at p in before. */
  ghost predicate SameBytes(before: seq<Byte>, p: int, after: seq<Byte>, q: int, m: nat) {
    var same := 0 <= p && p + m <= |before| && 0 <= q && q + m <= |after| && after[q..q + m] == before[p..p + m];
    same
  }

  /** Every used block of bs is a block of mid, and none of them is the block of r. */
  ghost predicate UsedIn(c: Config, bs: seq<Block>, mid: seq<Block>, r: int) {
    forall b :: b in bs && b.used ==> b in mid && b.addr != r - c.hdr
  }

  /** A piece of the payload of a used block that survives. */
  lemma KeepsSlice(c: Config, bs: seq<Block>, i: nat, p: int, m: nat, before: seq<Byte>, after: seq<Byte>)
    requires KeepsPayloads(c, bs, before, after, NULL) && i < |bs| && bs[i].used && 0 <= bs[i].addr
    requires bs[i].addr + c.hdr <= p && p + m <= bs[i].next && 0 <= p && p + m <= |before|
    ensures |after| == |before| && after[p..p + m] == before[p..p + m]
  {
    assert forall k :: p <= k < p + m ==> InPayload(c, bs[i], k);
  }

  /** The copy puts the common prefix at the new place and reaches no other payload. */
  lemma CopyDone(c: Config, end: int, bs: seq<Block>, mid: seq<Block>, p: int, r: int, m: nat,
                 d0: seq<Byte>, d1: seq<Byte>, d2: seq<Byte>)
    requires Tiles(c, mid, end) && LivePointer(c, bs, p) && LivePointer(c, mid, r) && UsedIn(c, bs, mid, r)
    requires KeepsPayloads(c, bs, d0, d1, NULL) && SameBytes(d1, p, d2, r, m) && Tiles(c, bs, end)
    requires |d1| == |d2| && forall k :: 0 <= k < |d1| && !(r <= k < r + m) ==> d2[k] == d1[k]
    requires p + m <= bs[Find(bs, p - c.hdr)].next && r + m <= mid[Find(mid, r - c.hdr)].next
    ensures KeepsPayloads(c, bs, d0, d2, NULL) && SameBytes(d0, p, d2, r, m)
  {
    hide Multiple, AlignUp;
    BelowEnd(c, bs, end);
    CopyPayloads(c, end, mid, r, m, d1, d2);
    forall j, k | 0 <= j < |bs| && bs[j].used && InPayload(c, bs[j], k) && 0 <= k < |d0|
      ensures d2[k] == d0[k]
    {
      assert bs[j] in bs;
      var j' :| 0 <= j' < |mid| && mid[j'] == bs[j];
    }
    KeepsSlice(c, bs, Find(bs, p - c.hdr), p, m, d0, d1);
  }

  /** Freeing the old block afterwards disturbs neither. */
  lemma ThenFreeDone(c: Config, end: int, bs: seq<Block>, mid: seq<Block>, p: int, r: int, m: nat,
                     d0: seq<Byte>, d2: seq<Byte>, d3: seq<Byte>)
    requires Tiles(c, bs, end) && Tiles(c, mid, end) && LivePointer(c, mid, r) && UsedIn(c, bs, mid, r)
    requires KeepsPayloads(c, bs, d0, d2, NULL) && SameBytes(d0, p, d2, r, m) && KeepsPayloads(c, mid, d2, d3, NULL)
    requires r + m <= mid[Find(mid, r - c.hdr)].next
    ensures KeepsPayloads(c, bs, d0, d3, NULL) && SameBytes(d0, p, d3, r, m)
  {
    hide Multiple, AlignUp;
    BelowEnd(c, bs, end);
    BelowEnd(c, mid, end);
    forall j, k | 0 <= j < |bs| && bs[j].used && InPayload(c, bs[j], k) && 0 <= k < |d0|
      ensures d3[k] == d0[k]
    {
      assert bs[j] in bs;
      var j' :| 0 <= j' < |mid| && mid[j'] == bs[j];
    }
    KeepsSlice(c, mid, Find(mid, r - c.hdr), r, m, d2, d3);
  }

  /** The block of p, live in bs, is still live in mid, and the block of r lies clear of it. */
  ghost predicate Disjoint(c: Config, end: int, bs: seq<Block>, mid: seq<Block>, p: int, r: int, m: nat) {
    var disjoint :=
      && Tiles(c, bs, end) && Tiles(c, mid, end) && UsedIn(c, bs, mid, r) && p != r
      && LivePointer(c, bs, p) && LivePointer(c, mid, p) && LivePointer(c, mid, r)
      && mid[Find(mid, p - c.hdr)] == bs[Find(bs, p - c.hdr)]
      && var b, b' := bs[Find(bs, p - c.hdr)], mid[Find(mid, r - c.hdr)];
         && c.hdr <= p && p + m <= b.next <= end && c.hdr <= r && r + m <= b'.next <= end && (b.next <= r || b'.next <= p);
    disjoint
  }

  lemma LiveInside(c: Config, end: int, bs: seq<Block>, p: int)
    requires Tiles(c, bs, end) && LivePointer(c, bs, p)
    ensures var b := bs[Find(bs, p - c.hdr)]; b.addr == p - c.hdr && c.hdr <= p <= b.next <= end
  {
    BelowEnd(c, bs, end);
  }

  lemma UsedInApart(c: Config, end: int, bs: seq<Block>, mid: seq<Block>, p: int, r: int, m: nat)
    requires Tiles(c, mid, end) && LivePointer(c, bs, p) && Tiles(c, bs, end)
    requires UsedIn(c, bs, mid, r) && LivePointer(c, mid, r) && r + m <= mid[Find(mid, r - c.hdr)].next
    requires m <= Payload(c, bs[Find(bs, p - c.hdr)])
    ensures Disjoint(c, end, bs, mid, p, r, m)
  {
    assert bs[Find(bs, p - c.hdr)] in bs;
    StaysLive(c, bs, mid, end, p);
    LiveInside(c, end, mid, p);
    LiveInside(c, end, mid, r);
    Clear(c, mid, end, Find(mid, p - c.hdr), Find(mid, r - c.hdr));
  }

  lemma Clear(c: Config, bs: seq<Block>, end: int, i: nat, j: nat)
    requires Tiles(c, bs, end) && i < |bs| && j < |bs| && bs[i].addr != bs[j].addr
    ensures bs[i].next <= bs[j].addr || bs[j].next <= bs[i].addr
  {
  }

  /** Every live pointer but one is still live, for the same block. */
  ghost predicate StillLive(c: Config, bs: seq<Block>, bs': seq<Block>, but: int) {
    forall q :: LivePointer(c, bs, q) && q != but
      ==> LivePointer(c, bs', q) && bs'[Find(bs', q - c.hdr)] == bs[Find(bs, q - c.hdr)]
  }

  lemma StillSelf(c: Config, bs: seq<Block>, but: int)
    ensures StillLive(c, bs, bs, but)
  {
  }

  /** If every used block but one is still a block, every pointer but that block's is still live. */
  lemma StaysAll(c: Config, end: int, bs: seq<Block>, bs': seq<Block>, but: int)
    requires Tiles(c, bs', end) && forall b :: b in bs && b.used && b.addr != but - c.hdr ==> b in bs'
    ensures StillLive(c, bs, bs', but)
  {
    hide Tiles;
    forall q | LivePointer(c, bs, q) && q != but
      ensures LivePointer(c, bs', q) && bs'[Find(bs', q - c.hdr)] == bs[Find(bs, q - c.hdr)]
    {
      StaysLive(c, bs, bs', end, q);
    }
  }

  /** An allocation and then the release of p. */
  lemma StillBoth(c: Config, end: int, bs: seq<Block>, mid: seq<Block>, bs': seq<Block>, p: int)
    requires Tiles(c, bs, end) && StillLive(c, bs, mid, NULL) && StillLive(c, mid, bs', p)
    ensures StillLive(c, bs, bs', p)
  {
    BelowEnd(c, bs, end);
    hide Tiles;
    assert !LivePointer(c, bs, NULL);
    hide LivePointer;
  }

  lemma ShrinkKeepsLive(c: Config, end: int, bs: seq<Block>, bs': seq<Block>, i: nat, n: nat)
    requires Tiles(c, bs', end) && i < |bs| && bs' == Shrink(c, bs, i, n)
    ensures StillLive(c, bs, bs', bs[i].addr + c.hdr)
  {
    hide Tiles;
    var r := SplitAt(c, bs, i, n);
    forall b | b in bs && b.used && b.addr != bs[i].addr
      ensures b in bs'
    {
      var j :| 0 <= j < |bs| && bs[j] == b;
      assert r[if j < i then j else j + 1] == b;
      if i + 2 < |r| && !r[i + 2].used {
        MergeStays(r, i + 1, b);
      }
    }
    StaysAll(c, end, bs, bs', bs[i].addr + c.hdr);
  }

  lemma ReleaseLive(c: Config, end: int, bs: seq<Block>, bs': seq<Block>, p: int)
    requires Tiles(c, bs', end) && LivePointer(c, bs, p)
    requires bs' == Release(bs, Find(bs, p - c.hdr))
    ensures StillLive(c, bs, bs', p)
  {
    hide Release, Tiles;
    forall q | LivePointer(c, bs, q) && q != p
      ensures LivePointer(c, bs', q) && bs'[Find(bs', q - c.hdr)] == bs[Find(bs, q - c.hdr)]
    {
      ReleaseStays(bs, Find(bs, p - c.hdr), bs[Find(bs, q - c.hdr)]);
      StaysLive(c, bs, bs', end, q);
    }
  }

  lemma FreeDone(c: Config, end: int, bs: seq<Block>, bs': seq<Block>, p: int,
                 before: seq<Byte>, after: seq<Byte>)
    requires Tiles(c, bs', end) && LivePointer(c, bs, p) && Tiles(c, bs, end)
    requires bs' == Release(bs, Find(bs, p - c.hdr)) && OnlyHeaders(c, bs, end, before, after)
    ensures StillLive(c, bs, bs', p) && KeepsPayloads(c, bs, before, after, NULL)
  {
    hide Multiple, AlignUp;
    ReleaseLive(c, end, bs, bs', p);
    HeadersKeepPayloads(c, bs, end, before, after);
  }

  lemma ShrunkLive(c: Config, end: int, bs: seq<Block>, bs': seq<Block>, i: nat, n: nat)
    requires Tiles(c, bs', end) && i < |bs| && bs' == Shrink(c, bs, i, n)
    ensures LivePointer(c, bs', bs[i].addr + c.hdr)
  {
    hide Multiple, AlignUp;
    ShrunkHead(c, bs, i, n);
    hide Shrink;
    FindIs(c, bs', end, i);
  }

  /** A shrunk block is still used, at the same place in the tiling. */
  lemma ShrunkHead(c: Config, bs: seq<Block>, i: nat, n: nat)
    requires i < |bs|
    ensures var r := Shrink(c, bs, i, n); i < |r| && r[i] == Block(bs[i].addr, bs[i].addr + c.hdr + n, true)
  {
    var s := SplitAt(c, bs, i, n);
    assert s[i] == Block(bs[i].addr, bs[i].addr + c.hdr + n, true);
    assert PlugForward(s, i + 1)[i] == s[i];
  }

  lemma KeepsSelf(c: Config, bs: seq<Block>, d: seq<Byte>, but: int)
    ensures KeepsPayloads(c, bs, d, d, but)
  {
  }

  lemma KeepsMost(c: Config, bs: seq<Block>, end: int, before: seq<Byte>, after: seq<Byte>, but: int)
    requires KeepsPayloads(c, bs, before, after, NULL) && Tiles(c, bs, end)
    ensures KeepsPayloads(c, bs, before, after, but)
  {
    BelowEnd(c, bs, end);
  }

  /** Merging adds no header. */
  lemma HeadersShrink(c: Config, bs: seq<Block>, end: int, i: nat)
    requires i < |bs|
    ensures forall k :: InHeader(c, PlugForward(bs, i), end, k) ==> InHeader(c, bs, end, k)
  {
    var f := PlugForward(bs, i);
    forall k | InHeader(c, f, end, k)
      ensures InHeader(c, bs, end, k)
    {
      if !(end <= k < end + c.hdr) {
        var m :| 0 <= m < |f| && f[m].addr <= k < f[m].addr + c.hdr;
        assert bs[if m <= i then m else m + |bs| - |f|].addr == f[m].addr;
      }
    }
  }

  lemma SameAddr(c: Config, bs: seq<Block>, end: int, i: nat, j: nat)
    requires Tiles(c, bs, end) && i < |bs| && j < |bs|
    ensures i < j <==> bs[i].addr < bs[j].addr
  {
  }

  lemma FindIs(c: Config, bs: seq<Block>, end: int, i: nat)
    requires Tiles(c, bs, end) && i < |bs|
    ensures Find(bs, bs[i].addr) == i
  {
    SameAddr(c, bs, end, Find(bs, bs[i].addr), i);
  }

  /** rt_memcpy between two payloads that do not overlap. */
  method CopyBytes(data: array<Byte>, dst: int, src: int, m: nat)
    requires 0 <= dst && dst + m <= data.Length && 0 <= src && src + m <= data.Length
    requires dst + m <= src || src + m <= dst
    modifies data
    ensures SameBytes(old(data[..]), src, data[..], dst, m)
    ensures forall k :: 0 <= k < data.Length && !(dst <= k < dst + m) ==> data[..][k] == old(data[..])[k]
  {
    ghost var before := data[..];
    for i := 0 to m
      invariant SameBytes(before, src, data[..], dst, i)
      invariant forall k :: 0 <= k < data.Length && !(dst <= k < dst + i) ==> data[..][k] == before[k]
    {
      data[dst + i] := data[src + i];
    }
  }
}
