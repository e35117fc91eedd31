/** The small-memory boundary-tag heap (src/mem.c).

    The specification side is a tiling of the heap by blocks, in address order.  The class keeps the
    headers in place, as the C code does: a header sits at its block's offset and names its two neighbours
    by offset.  Every header store also overwrites the bytes it occupies, so the claims about payload
    bytes are claims about what those stores leave alone. */
module SmallMem {
  import opened Align
  import opened Basics
  import opened Tiling

  /** The two low-order states of pool_ptr, and the zero a swallowed header is left with. */
  datatype Tag = Cleared | Freed | Used
  datatype Item = Item(tag: Tag, next: int, prev: int)

  function MinAligned(c: Config): nat
    requires ValidConfig(c)
  {
    AlignUp(c.minSize, c.align)
  }

  /** The size rt_smem_alloc looks for. */
  function Rounded(c: Config, request: nat): (n: nat)
    requires ValidConfig(c)
    ensures request <= n && c.minSize <= n && Multiple(n, c.align)
  {
    var n := AlignUp(request, c.align);
    if n < MinAligned(c) then MinAligned(c) else n
  }

  /** It is the least multiple of the alignment that holds the request and the minimum block. */
  lemma RoundedLeast(c: Config, request: nat, m: nat)
    requires ValidConfig(c) && Multiple(m, c.align) && request <= m && c.minSize <= m
    ensures Rounded(c, request) <= m
  {
    AlignUpLeast(request, c.align, m);
    AlignUpLeast(c.minSize, c.align, m);
    hide AlignUp, Multiple;
  }

  /** Every size an allocation of request bytes could be content with is too large for block b. */
  ghost predicate TooSmall(c: Config, b: Block, request: nat) {
    forall m: nat :: Multiple(m, c.align) && request <= m && c.minSize <= m ==> b.next - b.addr - c.hdr < m
  }

  lemma TooSmallIff(c: Config, b: Block, request: nat)
    requires ValidConfig(c) && !b.used
    ensures TooSmall(c, b, request) <==> !Fits(c, b, Rounded(c, request))
  {
    hide AlignUp, Multiple, Rounded;
    if !Fits(c, b, Rounded(c, request)) {
      forall m: nat | Multiple(m, c.align) && request <= m && c.minSize <= m
        ensures b.next - b.addr - c.hdr < m
      {
        RoundedLeast(c, request, m);
      }
    }
  }

  function UsedBytes(bs: seq<Block>): int {
    if bs == [] then 0 else (if bs[0].used then bs[0].next - bs[0].addr else 0) + UsedBytes(bs[1..])
  }

  function LowestFree(bs: seq<Block>, end: int): int {
    if bs == [] then end else if !bs[0].used then bs[0].addr else LowestFree(bs[1..], end)
  }

  /** Index of the lowest block that can hold n bytes, or |bs|. */
  function FirstFit(c: Config, bs: seq<Block>, n: nat): (i: nat)
    ensures i <= |bs|
    ensures forall j :: 0 <= j < i ==> !Fits(c, bs[j], n)
    ensures i < |bs| ==> Fits(c, bs[i], n)
  {
    if bs == [] || Fits(c, bs[0], n) then 0 else 1 + FirstFit(c, bs[1..], n)
  }

  predicate Splits(c: Config, b: Block, n: nat)
    requires ValidConfig(c)
  {
    Payload(c, b) >= n + c.hdr + MinAligned(c)
  }

  /** The tiling after block i has been handed out for a request of n bytes. */
  function Carve(c: Config, bs: seq<Block>, i: nat, n: nat): seq<Block>
    requires ValidConfig(c) && i < |bs|
  {
    if Splits(c, bs[i], n) then SplitAt(c, bs, i, n) else bs[i := bs[i].(used := true)]
  }

  /** Block i is cut behind n bytes whenever that leaves a free block with the minimum of room, and only then. */
  lemma CarveMeans(c: Config, bs: seq<Block>, i: nat, n: nat)
    requires ValidConfig(c) && i < |bs|
    ensures var b, bs' := bs[i], Carve(c, bs, i, n);
      var cut := b.addr + c.hdr + n;
      bs' == if b.next - (cut + c.hdr) >= AlignUp(c.minSize, c.align)
             then bs[..i] + [Block(b.addr, cut, true), Block(cut, b.next, false)] + bs[i + 1..]
             else bs[..i] + [Block(b.addr, b.next, true)] + bs[i + 1..]
  {
    hide AlignUp;
  }

  lemma {:induction false} UsedConcat(a: seq<Block>, b: seq<Block>)
    ensures UsedBytes(a + b) == UsedBytes(a) + UsedBytes(b)
  {
    if a == [] {
      assert a + b == b;
    } else {
      UsedConcat(a[1..], b);
      assert (a + b)[1..] == a[1..] + b;
    }
  }

  function Extent(b: Block): int { if b.used then b.next - b.addr else 0 }

  lemma UsedOne(b: Block)
    ensures UsedBytes([b]) == Extent(b)
  {
    assert [b][1..] == [];
  }

  lemma UsedAround(bs: seq<Block>, i: nat)
    requires i < |bs|
    ensures UsedBytes(bs) == UsedBytes(bs[..i]) + Extent(bs[i]) + UsedBytes(bs[i + 1..])
  {
    hide UsedBytes, Extent;
    UsedOne(bs[i]);
    assert bs == bs[..i] + ([bs[i]] + bs[i + 1..]);
    UsedConcat(bs[..i], [bs[i]] + bs[i + 1..]);
    UsedConcat([bs[i]], bs[i + 1..]);
  }

  /** Handing out block i adds exactly its extent, or the carved part of it, to the used bytes. */
  lemma CarveUsed(c: Config, bs: seq<Block>, i: nat, n: nat)
    requires ValidConfig(c) && i < |bs| && !bs[i].used
    ensures UsedBytes(Carve(c, bs, i, n))
         == UsedBytes(bs) + (if Splits(c, bs[i], n) then n + c.hdr else bs[i].next - bs[i].addr)
  {
    UsedAround(bs, i);
    if Splits(c, bs[i], n) {
      SplitUsed(c, bs, i, n);
    } else {
      var r := Carve(c, bs, i, n);
      UsedAround(r, i);
      assert r[..i] == bs[..i] && r[i + 1..] == bs[i + 1..];
    }
  }

  lemma SplitUsed(c: Config, bs: seq<Block>, i: nat, n: nat)
    requires i < |bs|
    ensures UsedBytes(SplitAt(c, bs, i, n)) == UsedBytes(bs) - Extent(bs[i]) + c.hdr + n
  {
    UsedAround(bs, i);
    var r := SplitAt(c, bs, i, n);
    UsedAround(r, i);
    UsedAround(r[i + 1..], 0);
    assert r[..i] == bs[..i] && r[i + 1..][1..] == bs[i + 1..];
  }

  lemma MergeUsed(bs: seq<Block>, i: nat)
    requires i + 1 < |bs| && !bs[i].used && !bs[i + 1].used
    ensures UsedBytes(MergeAt(bs, i)) == UsedBytes(bs)
  {
    UsedAround(bs, i);
    UsedAround(bs[i + 1..], 0);
    var r := MergeAt(bs, i);
    UsedAround(r, i);
    assert r[..i] == bs[..i] && r[i + 1..] == bs[i + 2..] == bs[i + 1..][1..];
  }

  lemma PlugUsed(bs: seq<Block>, i: nat)
    requires i < |bs| && !bs[i].used
    ensures UsedBytes(Plug(bs, i)) == UsedBytes(bs)
  {
    if i + 1 < |bs| && !bs[i + 1].used {
      MergeUsed(bs, i);
    }
    var f := PlugForward(bs, i);
    if 0 < i && !f[i - 1].used {
      MergeUsed(f, i - 1);
    }
  }

  /** Freeing block i takes exactly its extent off the used bytes. */
  lemma ReleaseUsed(bs: seq<Block>, i: nat)
    requires i < |bs| && bs[i].used
    ensures UsedBytes(Release(bs, i)) == UsedBytes(bs) - (bs[i].next - bs[i].addr)
  {
    RetagUsed(bs, i);
    PlugUsed(bs[i := bs[i].(used := false)], i);
  }

  lemma PlugKeeps(bs: seq<Block>, i: nat)
    requires i < |bs| && !bs[i].used
    ensures UsedBytes(Plug(bs, i)) == UsedBytes(bs)
    ensures CoalescedBut(bs, i) ==> Coalesced(Plug(bs, i))
  {
    PlugUsed(bs, i);
    if CoalescedBut(bs, i) {
      PlugCoalesces(bs, i);
    }
  }

  lemma CarveCoalesced(c: Config, bs: seq<Block>, i: nat, n: nat)
    requires ValidConfig(c) && Coalesced(bs) && i < |bs| && !bs[i].used
    ensures Coalesced(Carve(c, bs, i, n))
  {
    var r := Carve(c, bs, i, n);
    if Splits(c, bs[i], n) {
      assert forall k :: 0 <= k < i ==> r[k] == bs[k];
      assert forall k :: i + 2 <= k < |r| ==> r[k] == bs[k - 1];
      assert i + 1 < |bs| ==> bs[i].used || bs[i + 1].used;
    }
  }

  lemma {:induction false} LowestFreeIs(bs: seq<Block>, end: int, i: nat)
    requires i <= |bs| && (forall k :: 0 <= k < i ==> bs[k].used)
    requires i < |bs| ==> !bs[i].used
    ensures LowestFree(bs, end) == if i < |bs| then bs[i].addr else end
  {
    if 0 < i {
      LowestFreeIs(bs[1..], end, i - 1);
    }
  }

  function FreeIndex(bs: seq<Block>): (i: nat)
    ensures i <= |bs| && (forall k :: 0 <= k < i ==> bs[k].used)
    ensures i < |bs| ==> !bs[i].used
  {
    if bs == [] || !bs[0].used then 0 else 1 + FreeIndex(bs[1..])
  }

  /** Freeing a block that has just been handed out restores the tiling exactly, whether it was split or
      not; the used bytes and the lowest free block are functions of the tiling, so they come back too. */
  lemma RoundTrip(c: Config, bs: seq<Block>, end: int, i: nat, n: nat)
    requires ValidConfig(c) && Tiles(c, bs, end) && Coalesced(bs) && i < |bs| && Fits(c, bs[i], n)
    ensures Carve(c, bs, i, n)[i].used
    ensures Release(Carve(c, bs, i, n), i) == bs
  {
    assert 0 < i ==> bs[i - 1].used;
    assert i + 1 < |bs| ==> bs[i + 1].used;
    if Splits(c, bs[i], n) {
      MergeSplit(c, bs, i, n);
    } else {
      var a := Carve(c, bs, i, n);
      assert a[i := a[i].(used := false)] == bs;
    }
  }

  /** Used bytes and free bytes always make up the whole heap. */
  function FreeBytes(bs: seq<Block>): int {
    if bs == [] then 0 else (if bs[0].used then 0 else bs[0].next - bs[0].addr) + FreeBytes(bs[1..])
  }

  lemma {:induction false} Conservation(bs: seq<Block>)
    requires |bs| > 0 && forall i, j :: 0 <= i && i + 1 == j < |bs| ==> bs[i].next == bs[j].addr
    ensures UsedBytes(bs) + FreeBytes(bs) == bs[|bs| - 1].next - bs[0].addr
  {
    if |bs| == 1 {
      assert bs[1..] == [];
    } else {
      Conservation(bs[1..]);
    }
  }

  // ---------------------------------------------------------------- headers in memory

  /** The headers stored at the block offsets describe the tiling.  The sentinel's prev is not maintained. */
  ghost predicate Linked(items: map<int, Item>, bs: seq<Block>, end: int) {
    var linked :=
      && (forall i :: 0 <= i < |bs| ==>
            bs[i].addr in items && items[bs[i].addr].next == bs[i].next
            && items[bs[i].addr].tag == if bs[i].used then Used else Freed)
      && (|bs| > 0 ==> items[bs[0].addr].prev == 0)
      && (forall i, j :: 0 <= i && i + 1 == j < |bs| ==> items[bs[j].addr].prev == bs[i].addr)
      && end in items && items[end].tag == Used && items[end].next == end;
    linked
  }

  /** The header of block i as the tiling prescribes it. */
  ghost predicate HeaderOk(items: map<int, Item>, b: Block, prev: int) {
    b.addr in items && items[b.addr] == Item(if b.used then Used else Freed, b.next, prev)
  }

  function PrevAddr(bs: seq<Block>, k: nat): int
    requires k < |bs|
  {
    if k == 0 then 0 else bs[k - 1].addr
  }

  lemma LinkedSplit(c: Config, items: map<int, Item>, bs: seq<Block>, end: int, i: nat, n: nat, items': map<int, Item>)
    requires Tiles(c, bs, end) && Linked(items, bs, end) && i < |bs|
    requires Payload(c, bs[i]) >= n + c.hdr
    requires var a, cut, nx := bs[i].addr, bs[i].addr + c.hdr + n, bs[i].next;
             && a in items && nx in items
             && (forall x :: x in items && x != a && x != cut && x != nx ==> x in items' && items'[x] == items[x])
             && HeaderOk(items', Block(a, cut, true), items[a].prev)
             && HeaderOk(items', Block(cut, nx, false), a)
             && nx in items' && items'[nx] == if nx != end then items[nx].(prev := cut) else items[nx]
    ensures Linked(items', SplitAt(c, bs, i, n), end)
  {
    BelowEnd(c, bs, end);
    var r := SplitAt(c, bs, i, n);
    var cut, nx := bs[i].addr + c.hdr + n, bs[i].next;
    assert |r| == |bs| + 1 && r[i] == Block(bs[i].addr, cut, true) && r[i + 1] == Block(cut, nx, false);
    assert forall k :: 0 <= k < i ==> r[k] == bs[k];
    assert forall k :: i + 2 <= k < |r| ==> r[k] == bs[k - 1];
    forall k | 0 <= k < |r|
      ensures HeaderOk(items', r[k], PrevAddr(r, k))
    {
      if k < i {
        assert bs[k].next <= bs[i].addr;
        assert k > 0 ==> r[k - 1] == bs[k - 1];
      } else if k == i {
        assert k > 0 ==> r[k - 1] == bs[k - 1];
      } else if k > i + 1 {
        assert bs[i].next <= bs[k - 1].addr;
        if k == i + 2 {
          assert bs[i + 1].addr == nx;
        } else {
          assert bs[i + 1].next <= bs[k - 1].addr && bs[i + 1].addr == nx;
          assert r[k - 1] == bs[k - 2];
        }
      }
    }
    LinkedPointwise(items', r, end);
  }

  lemma LinkedPointwise(items: map<int, Item>, bs: seq<Block>, end: int)
    requires forall k :: 0 <= k < |bs| ==> HeaderOk(items, bs[k], PrevAddr(bs, k))
    requires end in items && items[end].tag == Used && items[end].next == end
    ensures Linked(items, bs, end)
  {
    forall i | 0 <= i < |bs|
      ensures HeaderOk(items, bs[i], PrevAddr(bs, i))
    {
    }
    assert |bs| > 0 ==> HeaderOk(items, bs[0], PrevAddr(bs, 0));
    forall i, j | 0 <= i && i + 1 == j < |bs|
      ensures items[bs[j].addr].prev == bs[i].addr
    {
      assert HeaderOk(items, bs[j], PrevAddr(bs, j));
    }
  }

  lemma LinkedMerge(c: Config, items: map<int, Item>, bs: seq<Block>, end: int, i: nat, items': map<int, Item>)
    requires Tiles(c, bs, end) && Linked(items, bs, end) && i + 1 < |bs|
    requires var a, b, nx := bs[i].addr, bs[i + 1].addr, bs[i + 1].next;
             && a in items && nx in items
             && (forall x :: x in items && x != a && x != b && x != nx ==> x in items' && items'[x] == items[x])
             && a in items' && items'[a] == items[a].(next := nx)
             && nx in items' && items'[nx] == items[nx].(prev := a)
    ensures Linked(items', MergeAt(bs, i), end)
  {
    BelowEnd(c, bs, end);
    var r := MergeAt(bs, i);
    var a, nx := bs[i].addr, bs[i + 1].next;
    assert |r| == |bs| - 1 && r[i] == Block(a, nx, bs[i].used);
    assert forall k :: 0 <= k < i ==> r[k] == bs[k];
    assert forall k :: i + 1 <= k < |r| ==> r[k] == bs[k + 1];
    forall k | 0 <= k < |r|
      ensures HeaderOk(items', r[k], PrevAddr(r, k))
    {
      if k < i {
        assert bs[k].next <= bs[i].addr;
        assert k > 0 ==> r[k - 1] == bs[k - 1];
      } else if k == i {
        assert k > 0 ==> r[k - 1] == bs[k - 1];
      } else {
        assert bs[i + 1].next <= bs[k + 1].addr;
        if k == i + 1 {
          assert bs[i + 2].addr == nx;
        } else {
          assert bs[i + 2].next <= bs[k + 1].addr && bs[i + 2].addr == nx;
          assert r[k - 1] == bs[k];
        }
      }
    }
    LinkedPointwise(items', r, end);
  }

  lemma LinkedRetag(c: Config, items: map<int, Item>, bs: seq<Block>, end: int, i: nat, u: bool)
    requires Tiles(c, bs, end) && Linked(items, bs, end) && i < |bs|
    ensures var a := bs[i].addr;
            Linked(items[a := items[a].(tag := if u then Used else Freed)], bs[i := bs[i].(used := u)], end)
  {
    BelowEnd(c, bs, end);
    assert forall k :: 0 <= k < |bs| && k != i ==> bs[k].addr != bs[i].addr;
  }

  /** The tiling is well formed and the headers describe it.  A heap smaller than the minimum block has never
      handed anything out. */
  ghost predicate Sound(c: Config, size: nat, items: map<int, Item>, bs: seq<Block>) {
    var end := size + c.hdr;
    var sound := Tiles(c, bs, end) && Aligned(c, bs) && Linked(items, bs, end)
                 && (size < MinAligned(c) ==> bs == [Block(0, end, false)]);
    sound
  }

  /** Where the headers around block i lie, and that the three of them are distinct. */
  lemma Neighbours(c: Config, size: nat, items: map<int, Item>, bs: seq<Block>, i: nat)
    requires Sound(c, size, items, bs) && i < |bs|
    ensures var end := size + c.hdr;
            (bs[i].next == end) == (i + 1 == |bs|) && bs[i].next <= end && (i + 1 < |bs| ==> bs[i + 1].next <= end)
    ensures 0 <= bs[i].addr && bs[i].addr + c.hdr <= bs[i].next
    ensures bs[i].addr in items && items[bs[i].addr].next == bs[i].next && bs[i].next in items
    ensures items[bs[i].addr].tag == if bs[i].used then Used else Freed
    ensures items[bs[i].addr].prev == if i == 0 then 0 else bs[i - 1].addr
    ensures i + 1 < |bs| ==>
      bs[i].next == bs[i + 1].addr && bs[i + 1].addr + c.hdr <= bs[i + 1].next && bs[i + 1].next in items
      && items[bs[i + 1].addr].next == bs[i + 1].next
      && items[bs[i + 1].addr].tag == (if bs[i + 1].used then Used else Freed)
    ensures 0 < i ==>
      bs[i - 1].addr < bs[i].addr && bs[i - 1].addr in items
      && items[bs[i - 1].addr].tag == (if bs[i - 1].used then Used else Freed)
    ensures i == 0 ==> bs[i].addr == 0
  {
    BelowEnd(c, bs, size + c.hdr);
    assert i + 2 < |bs| ==> bs[i + 1].next == bs[i + 2].addr;
  }

  /** Everything the stores of a merge rely on and establish. */
  lemma MergeKeeps(c: Config, size: nat, items: map<int, Item>, bs: seq<Block>, end: int, i: nat)
    requires Sound(c, size, items, bs) && end == size + c.hdr && i + 1 < |bs| && !bs[i].used
    ensures LowestFree(MergeAt(bs, i), end) == LowestFree(bs, end) != bs[i + 1].addr
    ensures var a, b, nx := bs[i].addr, bs[i + 1].addr, bs[i + 1].next;
            && 0 <= a && a + c.hdr <= b && b + c.hdr <= nx <= end
            && a in items && b in items && nx in items && items[b].next == nx
            && Sound(c, size, items[b := items[b].(tag := Cleared)][a := items[a].(next := nx)][nx := items[nx].(prev := a)],
                     MergeAt(bs, i))
            && forall k :: a <= k < a + c.hdr || b <= k < b + c.hdr || nx <= k < nx + c.hdr ==> InHeader(c, bs, end, k)
  {
    hide Multiple, AlignUp, Tiles, Linked, Aligned, LowestFree, MergeAt, InHeader;
    Neighbours(c, size, items, bs, i);
    MergeTiles(c, bs, end, i);
    MergeAligned(c, bs, i);
    MergeLowest(bs, end, i);
    LowestFreeIs(bs, end, FreeIndex(bs));
    BelowEnd(c, bs, end);
    SameAddr(c, bs, end, i, FreeIndex(bs));
    HeaderRegions(c, bs, end, i);
    HeaderRegions(c, bs, end, i + 1);
    var a, b, nx := bs[i].addr, bs[i + 1].addr, bs[i + 1].next;
    LinkedMerge(c, items, bs, end, i,
                items[b := items[b].(tag := Cleared)][a := items[a].(next := nx)][nx := items[nx].(prev := a)]);
  }

  /** The headers after the block at a has been cut behind n payload bytes. */
  function SplitItems(c: Config, items: map<int, Item>, a: int, n: nat, end: int): map<int, Item>
    requires a in items
  {
    var nx := items[a].next;
    var cut := a + c.hdr + n;
    var s := items[cut := Item(Freed, nx, a)][a := items[a].(next := cut)];
    if nx != end && nx in s then s[nx := s[nx].(prev := cut)] else s
  }

  /** The headers after the block at a has been handed out for n bytes. */
  function CarvedItems(c: Config, items: map<int, Item>, a: int, n: nat, end: int): map<int, Item>
    requires ValidConfig(c) && a in items
  {
    var nx := items[a].next;
    if nx - a - c.hdr >= n + c.hdr + MinAligned(c) then
      SplitItems(c, items, a, n, end)[a := Item(Used, a + c.hdr + n, items[a].prev)]
    else
      items[a := items[a].(tag := Used)]
  }

  lemma SplitSound(c: Config, size: nat, items: map<int, Item>, bs: seq<Block>, i: nat, n: nat, items': map<int, Item>)
    requires Sound(c, size, items, bs) && MinAligned(c) <= size
    requires i < |bs| && Payload(c, bs[i]) >= n + c.hdr && Multiple(n, c.align) && bs[i].addr in items
    requires items' == SplitItems(c, items, bs[i].addr, n, size + c.hdr)
                         [bs[i].addr := Item(Used, bs[i].addr + c.hdr + n, items[bs[i].addr].prev)]
    ensures Sound(c, size, items', SplitAt(c, bs, i, n))
  {
    hide Multiple, AlignUp;
    var end := size + c.hdr;
    Neighbours(c, size, items, bs, i);
    SplitTiles(c, bs, end, i, n);
    SplitAligned(c, bs, i, n);
    LinkedSplit(c, items, bs, end, i, n, items');
  }

  lemma CarveSound(c: Config, size: nat, items: map<int, Item>, bs: seq<Block>, i: nat, n: nat)
    requires Sound(c, size, items, bs) && MinAligned(c) <= size
    requires i < |bs| && Fits(c, bs[i], n) && Multiple(n, c.align)
    ensures bs[i].addr in items && Sound(c, size, CarvedItems(c, items, bs[i].addr, n, size + c.hdr), Carve(c, bs, i, n))
  {
    hide Multiple, AlignUp;
    Neighbours(c, size, items, bs, i);
    if Splits(c, bs[i], n) {
      SplitSound(c, size, items, bs, i, n, CarvedItems(c, items, bs[i].addr, n, size + c.hdr));
    } else {
      RetagSound(c, size, items, bs, i, true);
    }
  }

  lemma RetagSound(c: Config, size: nat, items: map<int, Item>, bs: seq<Block>, i: nat, u: bool)
    requires Sound(c, size, items, bs) && MinAligned(c) <= size && i < |bs| && bs[i].addr in items
    ensures Sound(c, size, items[bs[i].addr := items[bs[i].addr].(tag := if u then Used else Freed)],
                  bs[i := bs[i].(used := u)])
  {
    RetagTiles(c, bs, size + c.hdr, i, u);
    LinkedRetag(c, items, bs, size + c.hdr, i, u);
  }

  /** Everything handing out block i relies on and establishes. */
  lemma CarveKeeps(c: Config, size: nat, items: map<int, Item>, bs: seq<Block>, end: int, i: nat, n: nat)
    requires Sound(c, size, items, bs) && end == size + c.hdr && Coalesced(bs) && MinAligned(c) <= size
    requires i < |bs| && Fits(c, bs[i], n) && Multiple(n, c.align)
    ensures bs[i].addr in items && bs[i].next in items && items[bs[i].addr].next == bs[i].next
    ensures 0 <= bs[i].addr && bs[i].addr + c.hdr <= bs[i].next <= end
    ensures var r := Carve(c, bs, i, n);
            && Coalesced(r) && Sound(c, size, CarvedItems(c, items, bs[i].addr, n, end), r)
            && (forall k :: bs[i].addr <= k < bs[i].addr + c.hdr || bs[i].next <= k < bs[i].next + c.hdr ==> InHeader(c, r, end, k))
            && (Splits(c, bs[i], n) ==>
                  forall k :: bs[i].addr + c.hdr + n <= k < bs[i].addr + 2 * c.hdr + n ==> InHeader(c, r, end, k))
  {
    hide Multiple, AlignUp, Linked, CarvedItems;
    Neighbours(c, size, items, bs, i);
    CarveCoalesced(c, bs, i, n);
    CarveSound(c, size, items, bs, i, n);
    var r := Carve(c, bs, i, n);
    HeaderRegions(c, r, end, i);
    if Splits(c, bs[i], n) {
      HeaderRegions(c, r, end, i + 1);
    }
  }

  /** Handing out block i for n bytes: the pointer is live and the payloads of the used blocks survive. */
  lemma CarvePayloads(c: Config, bs: seq<Block>, end: int, i: nat, n: nat, before: seq<Byte>, after: seq<Byte>)
    requires Tiles(c, bs, end) && ValidConfig(c) && i < |bs| && Fits(c, bs[i], n)
    requires OnlyHeaders(c, Carve(c, bs, i, n), end, before, after)
    ensures LivePointer(c, Carve(c, bs, i, n), bs[i].addr + c.hdr)
    ensures KeepsPayloads(c, bs, before, after, NULL)
  {
    hide Multiple, AlignUp;
    var r := Carve(c, bs, i, n);
    if Splits(c, bs[i], n) {
      SplitTiles(c, bs, end, i, n);
    } else {
      RetagTiles(c, bs, end, i, true);
    }
    FindIs(c, r, end, i);
    forall j, k | 0 <= j < |bs| && bs[j].used && InPayload(c, bs[j], k) && 0 <= k < |before|
      ensures after[k] == before[k]
    {
      CarvedPayload(c, bs, end, i, n, j, k);
      OutsideHeaders(c, r, end, before, after, k);
    }
  }

  lemma CarvedPayload(c: Config, bs: seq<Block>, end: int, i: nat, n: nat, j: nat, k: int)
    requires ValidConfig(c) && i < |bs| && !bs[i].used && j < |bs| && bs[j].used && InPayload(c, bs[j], k)
    requires Tiles(c, Carve(c, bs, i, n), end)
    ensures !InHeader(c, Carve(c, bs, i, n), end, k)
  {
    var j' := CarveIndex(c, bs, i, n, j);
    hide Tiles, Carve;
    PayloadOutsideHeaders(c, Carve(c, bs, i, n), end, j', k);
  }

  lemma CarveIndex(c: Config, bs: seq<Block>, i: nat, n: nat, j: nat) returns (j': nat)
    requires ValidConfig(c) && i < |bs| && !bs[i].used && j < |bs| && bs[j].used
    ensures var r := Carve(c, bs, i, n); j' < |r| && r[j'] == bs[j]
  {
    j' := if j < i || !Splits(c, bs[i], n) then j else j + 1;
  }

  lemma CarveLowest(c: Config, bs: seq<Block>, end: int, i: nat, n: nat)
    requires ValidConfig(c) && i < |bs| && !bs[i].used
    ensures LowestFree(bs, end) == bs[FreeIndex(bs)].addr
    ensures FreeIndex(bs) < i ==> LowestFree(Carve(c, bs, i, n), end) == LowestFree(bs, end)
    ensures forall k :: 0 <= k < i && FreeIndex(bs) == i ==> Carve(c, bs, i, n)[k].used
  {
    var f := FreeIndex(bs);
    LowestFreeIs(bs, end, f);
    if f < i {
      LowestFreeIs(Carve(c, bs, i, n), end, f);
    }
  }

  /** What marking block i free does to the lowest free block. */
  lemma RetagLowest(c: Config, bs: seq<Block>, end: int, i: nat)
    requires Tiles(c, bs, end) && i < |bs| && bs[i].used
    ensures var lf := LowestFree(bs, end);
            LowestFree(bs[i := bs[i].(used := false)], end) == if bs[i].addr < lf then bs[i].addr else lf
  {
    var f := FreeIndex(bs);
    LowestFreeIs(bs, end, f);
    LowestFreeIs(bs[i := bs[i].(used := false)], end, if i < f then i else f);
    BelowEnd(c, bs, end);
    if f < |bs| {
      SameAddr(c, bs, end, i, f);
    }
  }

  /** Everything marking block i free relies on and establishes. */
  lemma RetagKeeps(c: Config, size: nat, items: map<int, Item>, bs: seq<Block>, end: int, i: nat)
    requires Sound(c, size, items, bs) && end == size + c.hdr && i < |bs| && bs[i].used && Coalesced(bs)
    ensures var a, r, lf := bs[i].addr, bs[i := bs[i].(used := false)], LowestFree(bs, end);
            && 0 <= a && a + c.hdr <= bs[i].next <= end && a in items && items[a].next == bs[i].next
            && MinAligned(c) <= size
            && Sound(c, size, items[a := items[a].(tag := Freed)], r)
            && LowestFree(r, end) == (if a < lf then a else lf)
            && CoalescedBut(r, i)
            && UsedBytes(r) == UsedBytes(bs) - (bs[i].next - a)
            && forall k :: InHeader(c, r, end, k) <==> InHeader(c, bs, end, k)
    ensures forall k :: bs[i].addr <= k < bs[i].addr + c.hdr ==> InHeader(c, bs, end, k)
  {
    hide Multiple, AlignUp;
    var r := bs[i := bs[i].(used := false)];
    Neighbours(c, size, items, bs, i);
    RetagSound(c, size, items, bs, i, false);
    RetagLowest(c, bs, end, i);
    HeaderRegions(c, bs, end, i);
    RetagUsed(bs, i);
    SameHeaders(c, bs, r, end);
  }

  lemma RetagUsed(bs: seq<Block>, i: nat)
    requires i < |bs| && bs[i].used
    ensures UsedBytes(bs[i := bs[i].(used := false)]) == UsedBytes(bs) - (bs[i].next - bs[i].addr)
  {
    var f := bs[i := bs[i].(used := false)];
    UsedAround(bs, i);
    UsedAround(f, i);
    assert f[..i] == bs[..i] && f[i + 1..] == bs[i + 1..];
  }

  /** What cutting the tail off used block i does to the lowest free block. */
  lemma SplitLowest(c: Config, bs: seq<Block>, end: int, i: nat, n: nat)
    requires Tiles(c, bs, end) && i < |bs| && bs[i].used && Payload(c, bs[i]) >= n + c.hdr
    ensures var cut, lf := bs[i].addr + c.hdr + n, LowestFree(bs, end);
            LowestFree(SplitAt(c, bs, i, n), end) == if cut < lf then cut else lf
  {
    var f := FreeIndex(bs);
    LowestFreeIs(bs, end, f);
    LowestFreeIs(SplitAt(c, bs, i, n), end, if i < f then i + 1 else f);
    BelowEnd(c, bs, end);
    if f < |bs| {
      CutOrder(c, bs, end, i, f, n);
    }
  }

  lemma CutOrder(c: Config, bs: seq<Block>, end: int, i: nat, j: nat, n: nat)
    requires Tiles(c, bs, end) && i < |bs| && j < |bs| && i != j && Payload(c, bs[i]) >= n + c.hdr
    ensures i < j <==> bs[i].addr + c.hdr + n < bs[j].addr
  {
  }

  /** Everything cutting the tail off used block i relies on and establishes. */
  lemma ShrinkKeeps(c: Config, size: nat, items: map<int, Item>, bs: seq<Block>, end: int, i: nat, n: nat)
    requires Sound(c, size, items, bs) && end == size + c.hdr && i < |bs| && bs[i].used && Coalesced(bs)
    requires Payload(c, bs[i]) >= n + c.hdr && Multiple(n, c.align)
    ensures var a, cut, r, lf := bs[i].addr, bs[i].addr + c.hdr + n, SplitAt(c, bs, i, n), LowestFree(bs, end);
            && 0 <= a && cut + c.hdr <= bs[i].next <= end && a in items && items[a].next == bs[i].next && bs[i].next in items
            && MinAligned(c) <= size
            && Sound(c, size, SplitItems(c, items, a, n, end), r)
            && LowestFree(r, end) == (if cut < lf then cut else lf)
            && CoalescedBut(r, i + 1)
            && UsedBytes(r) == UsedBytes(bs) - (Payload(c, bs[i]) - n)
    ensures var a, cut := bs[i].addr, bs[i].addr + c.hdr + n;
            forall k :: a <= k < a + c.hdr || cut <= k < cut + c.hdr || bs[i].next <= k < bs[i].next + c.hdr
              ==> InHeader(c, SplitAt(c, bs, i, n), end, k)
  {
    hide Multiple, AlignUp;
    Neighbours(c, size, items, bs, i);
    UsedNeedsRoom(c, size, items, bs, i);
    SplitLowest(c, bs, end, i, n);
    SplitUsed(c, bs, i, n);
    SplitCoalesced(c, bs, i, n);
    ShrinkSound(c, size, items, bs, i, n);
    SplitRegions(c, bs, end, i, n);
  }

  lemma UsedNeedsRoom(c: Config, size: nat, items: map<int, Item>, bs: seq<Block>, i: nat)
    requires Sound(c, size, items, bs) && i < |bs| && bs[i].used
    ensures MinAligned(c) <= size
  {
  }

  lemma ShrinkSound(c: Config, size: nat, items: map<int, Item>, bs: seq<Block>, i: nat, n: nat)
    requires Sound(c, size, items, bs) && i < |bs| && bs[i].used && bs[i].addr in items && MinAligned(c) <= size
    requires Payload(c, bs[i]) >= n + c.hdr && Multiple(n, c.align)
    ensures Sound(c, size, SplitItems(c, items, bs[i].addr, n, size + c.hdr), SplitAt(c, bs, i, n))
  {
    Neighbours(c, size, items, bs, i);
    var a, s := bs[i].addr, SplitItems(c, items, bs[i].addr, n, size + c.hdr);
    assert s[a := Item(Used, a + c.hdr + n, items[a].prev)] == s;
    SplitSound(c, size, items, bs, i, n, s);
  }

  lemma CarveStays(c: Config, bs: seq<Block>, i: nat, n: nat, b: Block)
    requires ValidConfig(c) && i < |bs| && !bs[i].used && b in bs && b.used
    ensures b in Carve(c, bs, i, n)
  {
    var j :| 0 <= j < |bs| && bs[j] == b;
    var j' := CarveIndex(c, bs, i, n, j);
  }

  /** Where a live pointer's payload lies. */
  lemma LiveBounds(c: Config, size: nat, items: map<int, Item>, bs: seq<Block>, p: int)
    requires Sound(c, size, items, bs) && LivePointer(c, bs, p)
    ensures var b := bs[Find(bs, p - c.hdr)];
            b.addr == p - c.hdr && c.hdr <= p <= b.next <= size + c.hdr && p - c.hdr in items && items[p - c.hdr].next == b.next
    ensures MinAligned(c) <= size
  {
    var i := Find(bs, p - c.hdr);
    Neighbours(c, size, items, bs, i);
    UsedNeedsRoom(c, size, items, bs, i);
  }

  /** The moved block after rt_smem_realloc had to find another place. */
  ghost predicate Moved(c: Config, bs: seq<Block>, bs': seq<Block>, p: int, r: int, n: nat)
    requires ValidConfig(c)
  {
    var f := FirstFit(c, bs, Rounded(c, n));
    f < |bs| && r == bs[f].addr + c.hdr
    && var mid := Carve(c, bs, f, Rounded(c, n));
       Find(mid, p - c.hdr) < |mid| && bs' == Release(mid, Find(mid, p - c.hdr))
  }

  /** After an allocation the used blocks are still there and the new one is none of them. */
  lemma AllocKeepsUsed(c: Config, bs: seq<Block>, end: int, f: nat, n: nat)
    requires ValidConfig(c) && Tiles(c, bs, end) && f < |bs| && !bs[f].used
    ensures UsedIn(c, bs, Carve(c, bs, f, n), bs[f].addr + c.hdr)
  {
    forall b | b in bs && b.used
      ensures b in Carve(c, bs, f, n) && b.addr != bs[f].addr
    {
      CarveStays(c, bs, f, n, b);
      var j :| 0 <= j < |bs| && bs[j] == b;
      SameAddr(c, bs, end, j, f);
      SameAddr(c, bs, end, f, j);
    }
  }

  /** After an allocation the old block is still live and the new one lies clear of it. */
  lemma AllocApart(c: Config, size: nat, items: map<int, Item>, bs: seq<Block>, mid: seq<Block>, p: int, r: int, n: nat, m: nat)
    requires ValidConfig(c) && Sound(c, size, items, mid) && LivePointer(c, bs, p) && Tiles(c, bs, size + c.hdr)
    requires var f := FirstFit(c, bs, n); f < |bs| && mid == Carve(c, bs, f, n) && r == bs[f].addr + c.hdr
    requires m <= n && m <= Payload(c, bs[Find(bs, p - c.hdr)])
    ensures Disjoint(c, size + c.hdr, bs, mid, p, r, m)
  {
    hide Carve, FirstFit, Tiles, Linked, Aligned, Disjoint, UsedIn, Multiple, AlignUp;
    var f := FirstFit(c, bs, n);
    AllocKeepsUsed(c, bs, size + c.hdr, f, n);
    CarvedBlock(c, size, items, bs, mid, f, n);
    UsedInApart(c, size + c.hdr, bs, mid, p, r, m);
  }

  lemma CarvedBlock(c: Config, size: nat, items: map<int, Item>, bs: seq<Block>, mid: seq<Block>, f: nat, n: nat)
    requires ValidConfig(c) && Sound(c, size, items, mid) && f < |bs| && Fits(c, bs[f], n) && mid == Carve(c, bs, f, n)
    ensures Find(mid, bs[f].addr) == f < |mid| && mid[f].used && mid[f].addr == bs[f].addr && mid[f].next >= bs[f].addr + c.hdr + n
  {
    FindIs(c, mid, size + c.hdr, f);
  }

  lemma CarveLive(c: Config, size: nat, items: map<int, Item>, bs: seq<Block>, bs': seq<Block>, i: nat, n: nat)
    requires ValidConfig(c) && Sound(c, size, items, bs') && i < |bs| && !bs[i].used
    requires bs' == Carve(c, bs, i, n)
    ensures StillLive(c, bs, bs', NULL)
  {
    hide Carve, Linked, Tiles, Aligned;
    forall q | LivePointer(c, bs, q) && q != NULL
      ensures LivePointer(c, bs', q) && bs'[Find(bs', q - c.hdr)] == bs[Find(bs, q - c.hdr)]
    {
      CarveStays(c, bs, i, n, bs[Find(bs, q - c.hdr)]);
      StaysLive(c, bs, bs', size + c.hdr, q);
    }
  }

  ghost predicate NoneFits(c: Config, bs: seq<Block>, n: nat) {
    forall b :: b in bs ==> !Fits(c, b, n)
  }

  /** The outcome of a move. */
  ghost predicate MovedOrKept(c: Config, bs: seq<Block>, bs': seq<Block>, d: seq<Byte>, d': seq<Byte>,
                              p: int, n: nat, oldSize: nat, r: int)
    requires ValidConfig(c)
  {
    var outcome :=
      if r == NULL then bs' == bs && d' == d && NoneFits(c, bs, Rounded(c, n))
      else Moved(c, bs, bs', p, r, n) && LivePointer(c, bs', r) && SameBytes(d, p, d', r, if oldSize < n then oldSize else n);
    outcome
  }

  /** What rt_smem_realloc owes the holder of p: the same size changes nothing; a tail worth giving back is cut
      off in place; otherwise the block moves to the first fit with its common prefix, or, when nothing fits,
      stays as it was.  The size is not raised to the minimum block before the cut, and the test for a tail
      worth giving back uses the unaligned MIN_SIZE. */
  ghost predicate Resized(c: Config, bs: seq<Block>, bs': seq<Block>, d: seq<Byte>, d': seq<Byte>, p: int, n: nat, r: int)
    requires ValidConfig(c) && LivePointer(c, bs, p)
  {
    var i := Find(bs, p - c.hdr);
    var oldSize := Payload(c, bs[i]);
    var resized :=
      && (r != NULL ==> oldSize >= 0 && SameBytes(d, p, d', r, if oldSize < n then oldSize else n))
      && if n == oldSize then r == p && bs' == bs && d' == d
         else if n + c.hdr + c.minSize < oldSize then r == p && bs' == Shrink(c, bs, i, n)
         else if r == NULL then bs' == bs && d' == d && NoneFits(c, bs, Rounded(c, n))
         else Moved(c, bs, bs', p, r, n);
    resized
  }

  /** The whole contract of rt_smem_realloc for an aligned size n. */
  ghost predicate Reallocated(c: Config, size: nat, bs: seq<Block>, bs': seq<Block>, d: seq<Byte>, d': seq<Byte>,
                              p: int, n: nat, r: int)
    requires ValidConfig(c) && (p == NULL || LivePointer(c, bs, p))
  {
    var reallocated :=
      if n > size then r == NULL && bs' == bs && d' == d
      else if n == 0 then
        r == NULL && bs' == if p == NULL then bs else Release(bs, Find(bs, p - c.hdr))
      else if p == NULL then
        var f := FirstFit(c, bs, Rounded(c, n));
        if f == |bs| then r == NULL && bs' == bs
        else r == bs[f].addr + c.hdr && bs' == Carve(c, bs, f, Rounded(c, n))
      else Resized(c, bs, bs', d, d', p, n, r);
    reallocated
  }

  /** A resized block is smaller than an allocation ever makes one if and only if the aligned size is below the minimum block
      and the block is cut to it, or had that size already. A move never leaves it so. */
  lemma BelowMinimumIff(c: Config, bs: seq<Block>, bs': seq<Block>, end: int, d: seq<Byte>, d': seq<Byte>, p: int, n: nat, r: int)
    requires ValidConfig(c) && LivePointer(c, bs, p) && Tiles(c, bs, end) && Tiles(c, bs', end)
    requires Resized(c, bs, bs', d, d', p, n, r) && r != NULL
    ensures LivePointer(c, bs', r)
    ensures var was, now := Payload(c, bs[Find(bs, p - c.hdr)]), Payload(c, bs'[Find(bs', r - c.hdr)]);
      && (now < MinAligned(c) <==> n < MinAligned(c) && (n == was || n + c.hdr + c.minSize < was))
      && (was >= MinAligned(c) ==> (now < MinAligned(c) <==> n < MinAligned(c) && n + c.hdr + c.minSize < was))
  {
    hide SameBytes, Shrink, Moved, Tiles, AlignUp;
    var i := Find(bs, p - c.hdr);
    var oldSize := Payload(c, bs[i]);
    if n != oldSize && n + c.hdr + c.minSize < oldSize {
      ShrunkHead(c, bs, i, n);
      FindIs(c, bs', end, i);
    } else if n != oldSize {
      MovedRoom(c, bs, bs', end, p, r, n);
    }
  }

  /** In addresses: a block of was bytes stays where it is if its size does not change, or if the cut leaves a free block
      with more than MIN_SIZE of room; it is then exactly n bytes long. Otherwise it moves to where there is room for n
      bytes and for the minimum block, and if that is nowhere nothing changes. */
  lemma ResizedMeans(c: Config, bs: seq<Block>, bs': seq<Block>, end: int, d: seq<Byte>, d': seq<Byte>, p: int, n: nat, r: int)
    requires ValidConfig(c) && LivePointer(c, bs, p) && Tiles(c, bs, end) && Tiles(c, bs', end)
    requires Resized(c, bs, bs', d, d', p, n, r)
    ensures var was := bs[Find(bs, p - c.hdr)].next - p;
      && (r == p <==> n == was || n + c.hdr + c.minSize < was)
      && (r == NULL ==> bs' == bs && forall b :: b in bs && !b.used ==> TooSmall(c, b, n))
    ensures r != NULL ==> LivePointer(c, bs', r)
    ensures r != NULL ==> var now := bs'[Find(bs', r - c.hdr)].next - r;
      if r == p then now == n else n <= now && c.minSize <= now
  {
    hide SameBytes, Shrink, Moved, Tiles, AlignUp, TooSmall, Rounded;
    BelowEnd(c, bs, end);
    var i := Find(bs, p - c.hdr);
    var oldSize := Payload(c, bs[i]);
    if n != oldSize && n + c.hdr + c.minSize < oldSize {
      ShrunkHead(c, bs, i, n);
      FindIs(c, bs', end, i);
    } else if n != oldSize {
      FirstFitMeans(c, bs, end, n);
      if r == NULL {
        FitNone(c, bs, Rounded(c, n));
      } else {
        MovedRoom(c, bs, bs', end, p, r, n);
        MovedAway(c, bs, bs', end, p, r, n);
      }
    }
  }

  lemma FitNone(c: Config, bs: seq<Block>, n: nat)
    requires NoneFits(c, bs, n)
    ensures FirstFit(c, bs, n) == |bs|
  {
    forall j | 0 <= j < |bs|
      ensures !Fits(c, bs[j], n)
    {
      assert bs[j] in bs;
    }
  }

  lemma MovedAway(c: Config, bs: seq<Block>, bs': seq<Block>, end: int, p: int, r: int, n: nat)
    requires ValidConfig(c) && Tiles(c, bs, end) && Moved(c, bs, bs', p, r, n) && LivePointer(c, bs, p)
    ensures r != p
  {
    hide Tiles, Rounded, Carve, Release;
    var f, i := FirstFit(c, bs, Rounded(c, n)), Find(bs, p - c.hdr);
    SameAddr(c, bs, end, f, i);
    SameAddr(c, bs, end, i, f);
  }

  /** A block that has moved has room for the rounded size. */
  lemma MovedRoom(c: Config, bs: seq<Block>, bs': seq<Block>, end: int, p: int, r: int, n: nat)
    requires ValidConfig(c) && Moved(c, bs, bs', p, r, n) && LivePointer(c, bs, p) && Tiles(c, bs, end) && Tiles(c, bs', end)
    ensures LivePointer(c, bs', r) && Payload(c, bs'[Find(bs', r - c.hdr)]) >= Rounded(c, n)
  {
    hide FirstFit, Rounded, AlignUp, Multiple, Carve, Tiles, Release, Find, ValidConfig;
    var f, m := FirstFit(c, bs, Rounded(c, n)), Rounded(c, n);
    var mid := Carve(c, bs, f, m);
    CarvedRoom(c, bs, end, f, m);
    SameAddr(c, bs, end, f, Find(bs, p - c.hdr));
    SameAddr(c, bs, end, Find(bs, p - c.hdr), f);
    ReleaseStays(mid, Find(mid, p - c.hdr), mid[f]);
    StaysLive(c, mid, bs', end, r);
  }

  lemma CarvedRoom(c: Config, bs: seq<Block>, end: int, f: nat, m: nat)
    requires ValidConfig(c) && Tiles(c, bs, end) && f < |bs| && Fits(c, bs[f], m)
    ensures var mid := Carve(c, bs, f, m);
      f < |mid| && mid[f].used && mid[f].addr == bs[f].addr && Payload(c, mid[f]) >= m && Find(mid, bs[f].addr) == f
  {
    hide AlignUp, Multiple, Find, Tiles;
    var mid := Carve(c, bs, f, m);
    assert mid[f].used && mid[f].addr == bs[f].addr && Payload(c, mid[f]) >= m;
    if Splits(c, bs[f], m) {
      SplitTiles(c, bs, end, f, m);
    } else {
      RetagTiles(c, bs, end, f, true);
    }
    hide Carve;
    FindIs(c, mid, end, f);
  }

  /** With a header of 16 bytes and a minimum of 12, a block of 64 bytes resized to 4 is left with 4. */
  lemma BelowMinimumExample(d: seq<Byte>)
    requires |d| >= 80
    ensures var c, bs := Config(4, 16, 12), [Block(0, 80, true)];
      && ValidConfig(c) && Tiles(c, bs, 80) && LivePointer(c, bs, 16) && Payload(c, bs[0]) == 64 && MinAligned(c) == 12
      && Resized(c, bs, Shrink(c, bs, 0, 4), d, d, 16, 4, 16)
      && Payload(c, Shrink(c, bs, 0, 4)[0]) == 4
  {
    var c, bs := Config(4, 16, 12), [Block(0, 80, true)];
    assert Find(bs, 0) == 0;
  }

  lemma ShrinkDone(c: Config, size: nat, items: map<int, Item>, items': map<int, Item>, bs: seq<Block>, bs': seq<Block>,
                   p: int, n: nat, before: seq<Byte>, after: seq<Byte>)
    requires Sound(c, size, items, bs) && LivePointer(c, bs, p) && n + c.hdr + c.minSize < Payload(c, bs[Find(bs, p - c.hdr)])
    requires Sound(c, size, items', bs') && bs' == Shrink(c, bs, Find(bs, p - c.hdr), n) && size + c.hdr <= |before|
    requires OnlyHeaders(c, SplitAt(c, bs, Find(bs, p - c.hdr), n), size + c.hdr, before, after)
    ensures LivePointer(c, bs', p) && KeepsPayloads(c, bs, before, after, p - c.hdr) && Resized(c, bs, bs', before, after, p, n, p)
    ensures StillLive(c, bs, bs', p)
  {
    hide StillLive, Shrink, SplitAt, KeepsPayloads, OnlyHeaders, SameBytes, Linked, Coalesced, Tiles, Multiple, AlignUp, Aligned, Moved;
    ShrinkPayloads(c, bs, size + c.hdr, Find(bs, p - c.hdr), n, before, after);
    ShrunkLive(c, size + c.hdr, bs, bs', Find(bs, p - c.hdr), n);
    ShrinkKeepsLive(c, size + c.hdr, bs, bs', Find(bs, p - c.hdr), n);
  }

  lemma SameDone(c: Config, size: nat, items: map<int, Item>, bs: seq<Block>, p: int, d: seq<Byte>)
    requires Sound(c, size, items, bs) && LivePointer(c, bs, p) && size + c.hdr <= |d|
    ensures Resized(c, bs, bs, d, d, p, Payload(c, bs[Find(bs, p - c.hdr)]), p)
    ensures KeepsPayloads(c, bs, d, d, p - c.hdr)
  {
    LiveBounds(c, size, items, bs, p);
  }

  /** Past the offset at which the scan gives up, nothing fits. */
  lemma NoFitAbove(c: Config, bs: seq<Block>, end: int, n: nat, k: nat)
    requires Tiles(c, bs, end) && k <= |bs| && (k < |bs| ==> bs[k].addr > end - c.hdr - n)
    requires forall j :: 0 <= j < k ==> !Fits(c, bs[j], n)
    ensures FirstFit(c, bs, n) == |bs|
  {
    BelowEnd(c, bs, end);
    forall j | k <= j < |bs|
      ensures !Fits(c, bs[j], n)
    {
      SameAddr(c, bs, end, k, j);
    }
  }

  lemma FitIsFirst(c: Config, bs: seq<Block>, n: nat, k: nat)
    requires k < |bs| && Fits(c, bs[k], n) && forall j :: 0 <= j < k ==> !Fits(c, bs[j], n)
    ensures FirstFit(c, bs, n) == k
  {
  }

  /** The first fit for a request is the lowest free block that is not too small for it. */
  lemma FirstFitMeans(c: Config, bs: seq<Block>, end: int, request: nat)
    requires ValidConfig(c) && Tiles(c, bs, end)
    ensures var f := FirstFit(c, bs, Rounded(c, request));
      && (forall b :: b in bs && !b.used && (f == |bs| || b.addr < bs[f].addr) ==> TooSmall(c, b, request))
      && (f < |bs| ==> forall b :: b in bs && b.addr == bs[f].addr ==> !b.used && !TooSmall(c, b, request))
      && (f == |bs| <==> NoneFits(c, bs, Rounded(c, request)))
  {
    hide TooSmall, Rounded, AlignUp, Multiple;
    var n := Rounded(c, request);
    var f := FirstFit(c, bs, n);
    forall b | b in bs && !b.used
      ensures (f == |bs| || b.addr < bs[f].addr) ==> TooSmall(c, b, request)
      ensures f < |bs| && b.addr == bs[f].addr ==> !TooSmall(c, b, request)
    {
      TooSmallIff(c, b, request);
      var j :| 0 <= j < |bs| && bs[j] == b;
      if f < |bs| {
        SameAddr(c, bs, end, f, j);
        SameAddr(c, bs, end, j, f);
      }
    }
    if f < |bs| {
      assert bs[f] in bs && Fits(c, bs[f], n);
      forall b | b in bs && b.addr == bs[f].addr
        ensures b == bs[f]
      {
        var j :| 0 <= j < |bs| && bs[j] == b;
        SameAddr(c, bs, end, f, j);
        SameAddr(c, bs, end, j, f);
      }
    }
  }

  lemma MergeLowest(bs: seq<Block>, end: int, i: nat)
    requires i + 1 < |bs| && !bs[i].used
    ensures LowestFree(MergeAt(bs, i), end) == LowestFree(bs, end)
  {
    var f := FreeIndex(bs);
    LowestFreeIs(bs, end, f);
    LowestFreeIs(MergeAt(bs, i), end, f);
  }

  // ---------------------------------------------------------------- the scan's termination

  /** rt_smem_alloc raises the request to the minimum block after the only check against the heap size, so on
      a heap smaller than the minimum block its unsigned bound size - n wraps. */
  predicate ScanEnds(c: Config, size: nat, request: nat)
    requires ValidConfig(c)
  {
    request == 0 || AlignUp(request, c.align) > size || MinAligned(c) <= size
  }

  /** The unsigned loop bound, in a machine word of modulus w. */
  function ScanBound(size: nat, n: nat, w: nat): nat
    requires 0 < w
  {
    (size - n) % w
  }

  /** The offset the scan is at after k steps, when no block on the way fits. */
  function ScanAt(items: map<int, Item>, start: int, k: nat): int {
    if k == 0 then start
    else
      var p := ScanAt(items, start, k - 1);
      if p in items then items[p].next else p
  }

  /** Such a heap never hands anything out: with its one free block the scan reaches the sentinel after one
      step, the wrapped bound still admits it, and the sentinel is its own successor. */
  lemma {:induction false} ScanNeverEnds(c: Config, items: map<int, Item>, size: nat, request: nat, w: nat, k: nat)
    requires ValidConfig(c) && !ScanEnds(c, size, request)
    requires Linked(items, [Block(0, size + c.hdr, false)], size + c.hdr)
    requires w > size + c.hdr + Rounded(c, request)
    ensures var p := ScanAt(items, 0, k);
            p <= ScanBound(size, Rounded(c, request), w) && p in items
            && !(!items[p].tag.Used? && items[p].next - (p + c.hdr) >= Rounded(c, request))
  {
    var bs := [Block(0, size + c.hdr, false)];
    assert bs[0].addr in items && items[0].next == size + c.hdr;
    var n := Rounded(c, request);
    assert n == MinAligned(c) > size;
    DivModUnique(size - n, w, -1, size - n + w);
    if k > 0 {
      ScanNeverEnds(c, items, size, request, w, k - 1);
      ScanStays(items, size + c.hdr, k);
    }
  }

  lemma {:induction false} ScanStays(items: map<int, Item>, end: int, k: nat)
    requires 0 < k && 0 in items && items[0].next == end && end in items && items[end].next == end
    ensures ScanAt(items, 0, k) == end
  {
    if k == 1 {
      assert ScanAt(items, 0, 0) == 0;
    } else {
      ScanStays(items, end, k - 1);
    }
  }

  // ---------------------------------------------------------------- the heap object

  class SmallHeap {
    const cfg: Config
    const size: nat                     // mem_size_aligned
    const data: array<Byte>             // the bytes from heap_ptr to the end of the sentinel
    var items: map<int, Item>           // the headers, by offset from heap_ptr
    var lfree: int
    var used: int
    var max: int
    ghost var blocks: seq<Block>

    ghost function End(): int { size + cfg.hdr }

    /** Everything but coalescing and the lowest-free pointer. */
    ghost predicate Structured()
      reads this, data
    {
      data.Length == End() + cfg.hdr && Sound(cfg, size, items, blocks)
    }

    ghost predicate Valid()
      reads this, data
    {
      var valid := Structured() && Coalesced(blocks) && Counted();
      valid
    }

    /** The lowest-free pointer and the counters agree with the tiling. */
    ghost predicate Counted()
      reads this
    {
      lfree == LowestFree(blocks, End()) && used == UsedBytes(blocks) <= max
    }

    /** rt_smem_init, with a size as InitSize gives it. */
    constructor (cfg: Config, size: nat)
      requires ValidConfig(cfg) && Multiple(size, cfg.align)
      ensures Valid() && fresh(data)
      ensures this.cfg == cfg && this.size == size
      ensures blocks == [Block(0, size + cfg.hdr, false)] && used == 0 && max == 0
    {
      this.cfg, this.size := cfg, size;
      data := new Byte[size + 2 * cfg.hdr](_ => 0);
      items := map[];
      lfree, used, max := 0, 0, 0;
      blocks := [Block(0, size + cfg.hdr, false)];
      new;
      Store(0, Item(Freed, size + cfg.hdr, 0));
      Store(size + cfg.hdr, Item(Used, size + cfg.hdr, size + cfg.hdr));
      assert blocks[0].addr == 0 && blocks[1..] == [];
      assert Multiple(0, cfg.align) by { MulMod(0, cfg.align); }
      assert Tiles(cfg, blocks, End()) && Linked(items, blocks, End()) && Structured() && Counted();
    }

    /** A header store: the record, and the bytes it occupies, in whatever layout the compiler chose. */
    method Store(a: int, it: Item)
      requires 0 <= a && a + cfg.hdr <= data.Length
      modifies this`items, data
      ensures items == old(items)[a := it]
      ensures forall k :: 0 <= k < data.Length && !(a <= k < a + cfg.hdr) ==> data[k] == old(data[k])
    {
      items := items[a := it];
      for j := a to a + cfg.hdr
        invariant items == old(items)[a := it]
        invariant forall k :: 0 <= k < data.Length && !(a <= k < a + cfg.hdr) ==> data[k] == old(data[k])
      {
        data[j] := *;
      }
    }

    /** The stores of one half of plug_holes: block b, just after block a, becomes part of a. */
    method AbsorbHeaders(a: int, b: int)
      requires 0 <= a && a + cfg.hdr <= b && b + cfg.hdr <= data.Length && a in items && b in items
      requires var nx := items[b].next; b < nx && nx + cfg.hdr <= data.Length && nx in items
      requires 0 < cfg.hdr
      modifies this`items, data
      ensures var nx := old(items)[b].next;
              items == old(items)[b := old(items)[b].(tag := Cleared)][a := old(items)[a].(next := nx)]
                                 [nx := old(items)[nx].(prev := a)]
      ensures var nx := old(items)[b].next;
              forall k :: 0 <= k < data.Length && !(a <= k < a + cfg.hdr) && !(b <= k < b + cfg.hdr) && !(nx <= k < nx + cfg.hdr)
                ==> data[k] == old(data[k])
    {
      var nx := items[b].next;
      Store(b, items[b].(tag := Cleared));
      Store(a, items[a].(next := nx));
      Store(nx, items[nx].(prev := a));
    }

    method Absorb(a: int, b: int, ghost i: nat)
      requires Structured() && i + 1 < |blocks| && a == blocks[i].addr && b == blocks[i + 1].addr
      requires !blocks[i].used && !blocks[i + 1].used && lfree == LowestFree(blocks, End())
      modifies this`items, this`lfree, this`blocks, data
      ensures Structured() && blocks == MergeAt(old(blocks), i)
      ensures lfree == LowestFree(blocks, End()) == old(lfree)
      ensures OnlyHeaders(cfg, old(blocks), End(), old(data[..]), data[..])
    {
      MergeKeeps(cfg, size, items, blocks, End(), i);
      lfree := if lfree == b then a else lfree;
      AbsorbHeaders(a, b);
      blocks := MergeAt(blocks, i);
    }

    /** plug_holes: merge the free block at mem with its free neighbours. */
    method PlugHoles(mem: int, ghost i: nat)
      requires Structured() && lfree == LowestFree(blocks, End())
      requires i < |blocks| && blocks[i].addr == mem && !blocks[i].used && MinAligned(cfg) <= size
      modifies this`items, this`lfree, this`blocks, data
      ensures Structured() && lfree == LowestFree(blocks, End()) == old(LowestFree(blocks, End()))
      ensures blocks == Plug(old(blocks), i) && UsedBytes(blocks) == UsedBytes(old(blocks))
      ensures CoalescedBut(old(blocks), i) ==> Coalesced(blocks)
      ensures OnlyHeaders(cfg, old(blocks), End(), old(data[..]), data[..])
    {
      ghost var bs := blocks;
      Neighbours(cfg, size, items, bs, i);
      var nmem := items[mem].next;
      if mem != nmem && !items[nmem].tag.Used? && nmem != size + cfg.hdr {
        Absorb(mem, nmem, i);
      }
      assert blocks == PlugForward(bs, i);
      ghost var fs := blocks;
      Neighbours(cfg, size, items, fs, i);
      var pmem := items[mem].prev;
      if pmem != mem && !items[pmem].tag.Used? {
        Absorb(pmem, mem, i - 1);
      }
      assert blocks == PlugBackward(fs, i);
      HeadersShrink(cfg, bs, End(), i);
      PlugKeeps(bs, i);
    }

    /** The stores of a hit in the scan: split the block at ptr if a minimum block remains, and mark it used. */
    method CarveHeaders(ptr: int, n: nat)
      requires ValidConfig(cfg) && ptr in items && 0 <= ptr && ptr + cfg.hdr <= items[ptr].next <= End()
      requires items[ptr].next in items && data.Length == End() + cfg.hdr
      modifies this`items, this`used, data
      ensures items == CarvedItems(cfg, old(items), ptr, n, End())
      ensures var next := old(items)[ptr].next;
              used == old(used) + if next - ptr - cfg.hdr >= n + cfg.hdr + MinAligned(cfg) then n + cfg.hdr else next - ptr
      ensures var next, cut := old(items)[ptr].next, ptr + cfg.hdr + n;
              forall k :: 0 <= k < data.Length && !(ptr <= k < ptr + cfg.hdr) && !(next <= k < next + cfg.hdr)
                          && !(next - cut - cfg.hdr >= MinAligned(cfg) && cut <= k < cut + cfg.hdr)
                ==> data[k] == old(data[k])
    {
      var next := items[ptr].next;
      if next - (ptr + cfg.hdr) >= n + cfg.hdr + MinAligned(cfg) {
        SplitHeaders(ptr, n);
        used := used + (n + cfg.hdr);
      } else {
        used := used + (next - ptr);
      }
      Store(ptr, items[ptr].(tag := Used));
    }

    /** The block at ptr is handed out for n bytes. */
    method Take(ptr: int, n: nat, ghost i: nat)
      requires Structured() && Coalesced(blocks) && MinAligned(cfg) <= size
      requires i < |blocks| && blocks[i].addr == ptr && Fits(cfg, blocks[i], n) && Multiple(n, cfg.align)
      requires used == UsedBytes(blocks)
      modifies this`items, this`used, this`max, this`blocks, data
      ensures Structured() && Coalesced(blocks) && blocks == Carve(cfg, old(blocks), i, n)
      ensures used == UsedBytes(blocks)
      ensures max == if old(max) < used then used else old(max)
      ensures OnlyHeaders(cfg, blocks, End(), old(data[..]), data[..])
    {
      hide Multiple, AlignUp;
      CarveKeeps(cfg, size, items, blocks, End(), i, n);
      CarveUsed(cfg, blocks, i, n);
      CarveHeaders(ptr, n);
      max := if max < used then used else max;
      blocks := Carve(cfg, blocks, i, n);
    }

    /** After the lowest free block has gone, walk to the next free one, or to the end. */
    method AdvanceLfree(ghost i: nat)
      requires Structured() && i < |blocks| && lfree == blocks[i].addr && forall k :: 0 <= k < i ==> blocks[k].used
      modifies this`lfree
      ensures lfree == LowestFree(blocks, End())
    {
      ghost var k := i;
      Neighbours(cfg, size, items, blocks, i);
      while items[lfree].tag.Used? && lfree != size + cfg.hdr
        invariant i <= k <= |blocks| && lfree == (if k < |blocks| then blocks[k].addr else End()) && lfree in items
        invariant forall m :: 0 <= m < k ==> blocks[m].used
        decreases |blocks| - k
      {
        if k < |blocks| {
          Neighbours(cfg, size, items, blocks, k);
        }
        lfree := items[lfree].next;
        k := k + 1;
      }
      if k < |blocks| {
        Neighbours(cfg, size, items, blocks, k);
      }
      LowestFreeIs(blocks, End(), k);
    }

    /** The first-fit scan: it starts at the lowest free block and gives up past size - n, and still finds the
        lowest block of the whole heap that can hold n bytes, if there is one. */
    method Scan(n: nat) returns (ptr: int, ghost k: nat)
      requires Valid() && n <= size
      ensures k == FirstFit(cfg, blocks, n)
      ensures if k < |blocks| then ptr == blocks[k].addr else ptr == NULL
    {
      hide Multiple, AlignUp, Tiles, Linked, Aligned, UsedBytes, LowestFree, FreeIndex, Coalesced, FirstFit;
      BelowEnd(cfg, blocks, End());
      k := FreeIndex(blocks);
      ptr := lfree;
      LowestFreeIs(blocks, End(), k);
      while ptr <= size - n
        invariant k <= |blocks| && ptr == (if k < |blocks| then blocks[k].addr else End())
        invariant forall j :: 0 <= j < k ==> !Fits(cfg, blocks[j], n)
        decreases |blocks| - k
      {
        Neighbours(cfg, size, items, blocks, k);
        if !items[ptr].tag.Used? && items[ptr].next - (ptr + cfg.hdr) >= n {
          FitIsFirst(cfg, blocks, n, k);
          return;
        }
        ptr := items[ptr].next;
        k := k + 1;
      }
      NoFitAbove(cfg, blocks, End(), n, k);
      k := |blocks|;
      ptr := NULL;
    }

    /** rt_smem_alloc. */
    method Alloc(request: nat) returns (p: int)
      requires Valid() && ScanEnds(cfg, size, request)
      modifies this, data
      ensures Valid()
      ensures p == NULL <==> request == 0 || NoneFits(cfg, old(blocks), Rounded(cfg, request))
      ensures p == NULL ==> blocks == old(blocks) && items == old(items) && max == old(max) && data[..] == old(data[..])
      ensures p != NULL ==>
        var n := Rounded(cfg, request);
        var i := FirstFit(cfg, old(blocks), n);
        i < |old(blocks)| && p == old(blocks)[i].addr + cfg.hdr && blocks == Carve(cfg, old(blocks), i, n)
        && LivePointer(cfg, blocks, p) && StillLive(cfg, old(blocks), blocks, NULL)
        && max == if old(max) < used then used else old(max)
      ensures request > 0 ==>
        forall b :: b in old(blocks) && !b.used && (p == NULL || b.addr < p - cfg.hdr) ==> TooSmall(cfg, b, request)
      ensures p != NULL ==> forall b :: b in old(blocks) && b.addr == p - cfg.hdr ==> !b.used && !TooSmall(cfg, b, request)
      ensures KeepsPayloads(cfg, old(blocks), old(data[..]), data[..], NULL)
    {
      hide Multiple, AlignUp, TooSmall;
      if request == 0 {
        return NULL;
      }
      FirstFitMeans(cfg, blocks, End(), request);
      var n := AlignUp(request, cfg.align);
      if n > size {
        BelowEnd(cfg, blocks, End());
        return NULL;
      }
      if n < MinAligned(cfg) {
        n := MinAligned(cfg);
      }
      ghost var k;
      p, k := Scan(n);
      if p != NULL {
        assert blocks[k] in blocks;
        p := Hit(p, n, k);
      }
    }

    /** The lowest-free pointer after block i has been handed out. */
    method Settle(ptr: int, ghost bs: seq<Block>, ghost i: nat, ghost n: nat)
      requires Structured() && Tiles(cfg, bs, End()) && i < |bs| && bs[i].addr == ptr && !bs[i].used
      requires blocks == Carve(cfg, bs, i, n) && lfree == LowestFree(bs, End())
      modifies this`lfree
      ensures lfree == LowestFree(blocks, End())
    {
      hide Multiple, AlignUp;
      CarveLowest(cfg, bs, End(), i, n);
      if ptr == lfree {
        SameAddr(cfg, bs, End(), FreeIndex(bs), i);
        AdvanceLfree(i);
      }
    }

    /** The rest of the scan's hit: hand the block out and move the lowest-free pointer if it has gone. */
    method Hit(ptr: int, n: nat, ghost i: nat) returns (p: int)
      requires Valid() && i < |blocks| && blocks[i].addr == ptr && Fits(cfg, blocks[i], n) && Multiple(n, cfg.align)
      requires MinAligned(cfg) <= size
      modifies this, data
      ensures Valid() && p == ptr + cfg.hdr && p != NULL && blocks == Carve(cfg, old(blocks), i, n)
      ensures max == if old(max) < used then used else old(max)
      ensures LivePointer(cfg, blocks, p) && StillLive(cfg, old(blocks), blocks, NULL)
      ensures KeepsPayloads(cfg, old(blocks), old(data[..]), data[..], NULL)
    {
      hide Multiple, AlignUp;
      ghost var bs, before := blocks, data[..];
      Neighbours(cfg, size, items, blocks, i);
      Take(ptr, n, i);
      CarvePayloads(cfg, bs, End(), i, n, before, data[..]);
      CarveLive(cfg, size, items, bs, blocks, i, n);
      Settle(ptr, bs, i, n);
      p := ptr + cfg.hdr;
    }

    /** The first half of rt_smem_free: mark block i free and account for it. */
    method MarkFree(mem: int, ghost i: nat)
      requires Valid() && i < |blocks| && blocks[i].addr == mem && blocks[i].used
      modifies this, data
      ensures Structured() && lfree == LowestFree(blocks, End()) && used == UsedBytes(blocks) && max == old(max)
      ensures blocks == old(blocks)[i := old(blocks)[i].(used := false)] && CoalescedBut(blocks, i) && used <= old(used)
      ensures MinAligned(cfg) <= size && forall k :: InHeader(cfg, blocks, End(), k) <==> InHeader(cfg, old(blocks), End(), k)
      ensures OnlyHeaders(cfg, old(blocks), End(), old(data[..]), data[..])
    {
      hide Multiple, AlignUp;
      RetagKeeps(cfg, size, items, blocks, End(), i);
      Store(mem, items[mem].(tag := Freed));
      if mem < lfree {
        lfree := mem;
      }
      used := used - (items[mem].next - mem);
      blocks := blocks[i := blocks[i].(used := false)];
    }

    /** rt_smem_free. */
    method Free(p: int)
      requires Valid() && (p == NULL || LivePointer(cfg, blocks, p))
      modifies this, data
      ensures Valid() && max == old(max)
      ensures if p == NULL then blocks == old(blocks) && data[..] == old(data[..])
              else blocks == Release(old(blocks), Find(old(blocks), p - cfg.hdr)) && StillLive(cfg, old(blocks), blocks, p)
      ensures KeepsPayloads(cfg, old(blocks), old(data[..]), data[..], NULL)
    {
      hide Multiple, AlignUp, Tiles, Linked, Release, OnlyHeaders, Coalesced, UsedBytes, LowestFree, StillLive;
      if p == NULL {
        return;
      }
      var mem := p - cfg.hdr;
      ghost var bs, before := blocks, data[..];
      ghost var i := Find(blocks, mem);
      LiveBounds(cfg, size, items, blocks, p);
      FreeBlock(mem, i);
      FreeDone(cfg, End(), bs, blocks, p, before, data[..]);
    }

    method FreeBlock(mem: int, ghost i: nat)
      requires Valid() && i < |blocks| && blocks[i].addr == mem && blocks[i].used
      modifies this, data
      ensures Valid() && max == old(max) && blocks == Release(old(blocks), i)
      ensures OnlyHeaders(cfg, old(blocks), End(), old(data[..]), data[..])
    {
      hide Multiple, AlignUp, Tiles, Linked, Plug, InHeader, Coalesced, CoalescedBut, UsedBytes, LowestFree;
      MarkFree(mem, i);
      PlugHoles(mem, i);
    }

    /** The in-place cut of rt_smem_realloc, when the tail is worth giving back. */
    method ShrinkInPlace(mem: int, n: nat, ghost i: nat)
      requires Valid() && i < |blocks| && blocks[i].addr == mem && blocks[i].used
      requires Payload(cfg, blocks[i]) >= n + cfg.hdr && Multiple(n, cfg.align)
      modifies this, data
      ensures Valid() && max == old(max) && blocks == Shrink(cfg, old(blocks), i, n)
      ensures OnlyHeaders(cfg, SplitAt(cfg, old(blocks), i, n), End(), old(data[..]), data[..])
    {
      hide Multiple, AlignUp, Tiles, Linked, Plug, InHeader, Coalesced, CoalescedBut, UsedBytes, LowestFree;
      CutTail(mem, n, i);
      PlugHoles(mem + cfg.hdr + n, i + 1);
    }

    method CutTail(mem: int, n: nat, ghost i: nat)
      requires Valid() && i < |blocks| && blocks[i].addr == mem && blocks[i].used
      requires Payload(cfg, blocks[i]) >= n + cfg.hdr && Multiple(n, cfg.align)
      modifies this, data
      ensures Structured() && lfree == LowestFree(blocks, End()) && used == UsedBytes(blocks) <= old(used) && max == old(max)
      ensures blocks == SplitAt(cfg, old(blocks), i, n) && CoalescedBut(blocks, i + 1) && MinAligned(cfg) <= size
      ensures OnlyHeaders(cfg, blocks, End(), old(data[..]), data[..])
    {
      hide Multiple, AlignUp, Tiles, Linked, InHeader, Coalesced, CoalescedBut, UsedBytes, LowestFree, SplitItems;
      ShrinkKeeps(cfg, size, items, blocks, End(), i, n);
      var next := items[mem].next;
      used := used - (next - mem - cfg.hdr - n);
      var ptr2 := mem + cfg.hdr + n;
      SplitHeaders(mem, n);
      if ptr2 < lfree {
        lfree := ptr2;
      }
      blocks := SplitAt(cfg, blocks, i, n);
    }

    /** The three stores that cut the block at ptr behind n payload bytes. */
    method SplitHeaders(ptr: int, n: nat)
      requires ptr in items && 0 <= ptr && ptr + 2 * cfg.hdr + n <= items[ptr].next <= End()
      requires 0 < cfg.hdr && items[ptr].next in items && data.Length == End() + cfg.hdr
      modifies this`items, data
      ensures items == SplitItems(cfg, old(items), ptr, n, End())
      ensures var next, cut := old(items)[ptr].next, ptr + cfg.hdr + n;
              forall k :: 0 <= k < data.Length && !(ptr <= k < ptr + cfg.hdr) && !(next <= k < next + cfg.hdr)
                          && !(cut <= k < cut + cfg.hdr)
                ==> data[k] == old(data[k])
    {
      var next := items[ptr].next;
      var ptr2 := ptr + cfg.hdr + n;
      Store(ptr2, Item(Freed, next, ptr));
      Store(ptr, items[ptr].(next := ptr2));
      if next != size + cfg.hdr {
        Store(next, items[next].(prev := ptr2));
      }
    }

    /** Copy the common prefix and free the old block. */
    method CopyAndFree(p: int, r: int, m: nat, ghost bs: seq<Block>, ghost d0: seq<Byte>)
      requires Valid() && Disjoint(cfg, End(), bs, blocks, p, r, m) && KeepsPayloads(cfg, bs, d0, data[..], NULL)
      modifies this, data
      ensures Valid() && LivePointer(cfg, blocks, r)
      ensures Find(old(blocks), p - cfg.hdr) < |old(blocks)|
      ensures blocks == Release(old(blocks), Find(old(blocks), p - cfg.hdr)) && StillLive(cfg, old(blocks), blocks, p)
      ensures KeepsPayloads(cfg, bs, d0, data[..], NULL) && SameBytes(d0, p, data[..], r, m)
    {
      hide Multiple, AlignUp, Tiles, Carve, Release, KeepsPayloads;
      CopyPrefix(p, r, m, bs, d0);
      ghost var mid, d2 := blocks, data[..];
      Free(p);
      ThenFreeDone(cfg, End(), bs, mid, p, r, m, d0, d2, data[..]);
    }

    method CopyPrefix(p: int, r: int, m: nat, ghost bs: seq<Block>, ghost d0: seq<Byte>)
      requires Valid() && Disjoint(cfg, End(), bs, blocks, p, r, m) && KeepsPayloads(cfg, bs, d0, data[..], NULL)
      modifies data
      ensures Valid() && KeepsPayloads(cfg, bs, d0, data[..], NULL) && SameBytes(d0, p, data[..], r, m)
    {
      hide Multiple, AlignUp, Tiles, UsedIn, LivePointer, KeepsPayloads, SameBytes, Sound, Coalesced, UsedBytes, LowestFree;
      ghost var d1 := data[..];
      CopyBytes(data, r, p, m);
      CopyDone(cfg, End(), bs, blocks, p, r, m, d0, d1, data[..]);
    }

    /** The last resort of rt_smem_realloc: allocate, copy the common prefix, free the old block. */
    method Move(p: int, n: nat, oldSize: nat) returns (r: int)
      requires Valid() && LivePointer(cfg, blocks, p) && 0 < n
      requires oldSize == Payload(cfg, blocks[Find(blocks, p - cfg.hdr)])
      modifies this, data
      ensures Valid() && MovedOrKept(cfg, old(blocks), blocks, old(data[..]), data[..], p, n, oldSize, r)
      ensures KeepsPayloads(cfg, old(blocks), old(data[..]), data[..], NULL) && StillLive(cfg, old(blocks), blocks, p)
    {
      hide Multiple, AlignUp, Tiles, Linked, Carve, LivePointer, Moved, KeepsPayloads, Coalesced, UsedBytes, LowestFree, StillLive,
        NoneFits, FirstFit;
      LiveBounds(cfg, size, items, blocks, p);
      ghost var bs, d0 := blocks, data[..];
      StillSelf(cfg, bs, p);
      r := Alloc(n);
      if r != NULL {
        Relocate(p, r, n, oldSize, bs, d0);
      }
    }

    method Relocate(p: int, r: int, n: nat, oldSize: nat, ghost bs: seq<Block>, ghost d0: seq<Byte>)
      requires Valid() && LivePointer(cfg, bs, p) && Tiles(cfg, bs, End()) && KeepsPayloads(cfg, bs, d0, data[..], NULL)
      requires oldSize == Payload(cfg, bs[Find(bs, p - cfg.hdr)])
      requires var f := FirstFit(cfg, bs, Rounded(cfg, n));
               f < |bs| && blocks == Carve(cfg, bs, f, Rounded(cfg, n)) && r == bs[f].addr + cfg.hdr
      requires StillLive(cfg, bs, blocks, NULL)
      modifies this, data
      ensures Valid() && Moved(cfg, bs, blocks, p, r, n) && LivePointer(cfg, blocks, r)
      ensures SameBytes(d0, p, data[..], r, if oldSize < n then oldSize else n)
      ensures KeepsPayloads(cfg, bs, d0, data[..], NULL) && StillLive(cfg, bs, blocks, p)
    {
      hide Multiple, AlignUp, Tiles, Linked, Carve, LivePointer, KeepsPayloads, Disjoint, Coalesced, UsedBytes, LowestFree, FirstFit,
        StillLive;
      var m := if oldSize < n then oldSize else n;
      ghost var mid := blocks;
      AllocApart(cfg, size, items, bs, blocks, p, r, Rounded(cfg, n), m);
      CopyAndFree(p, r, m, bs, d0);
      StillBoth(cfg, End(), bs, mid, blocks, p);
    }

    /** rt_smem_realloc on a live block, for an aligned size that is neither zero nor too large. */
    method Resize(p: int, n: nat) returns (r: int)
      requires Valid() && LivePointer(cfg, blocks, p) && 0 < n <= size && Multiple(n, cfg.align)
      modifies this, data
      ensures Valid()
      ensures Resized(cfg, old(blocks), blocks, old(data[..]), data[..], p, n, r)
      ensures r != NULL ==> LivePointer(cfg, blocks, r)
      ensures KeepsPayloads(cfg, old(blocks), old(data[..]), data[..], p - cfg.hdr) && StillLive(cfg, old(blocks), blocks, p)
    {
      hide Multiple, AlignUp, Tiles, Shrink, Moved, KeepsPayloads, OnlyHeaders, Coalesced, UsedBytes, LowestFree, StillLive;
      var mem := p - cfg.hdr;
      ghost var i, bs, items0, d0 := Find(blocks, mem), blocks, items, data[..];
      LiveBounds(cfg, size, items, blocks, p);
      var oldSize := items[mem].next - mem - cfg.hdr;
      if oldSize == n {
        SameDone(cfg, size, items, blocks, p, data[..]);
        StillSelf(cfg, blocks, p);
        return p;
      }
      if n + cfg.hdr + cfg.minSize < oldSize {
        ShrinkInPlace(mem, n, i);
        ShrinkDone(cfg, size, items0, items, bs, blocks, p, n, d0, data[..]);
        return p;
      }
      r := Move(p, n, oldSize);
      KeepsMost(cfg, bs, End(), d0, data[..], mem);
    }

    /** rt_smem_realloc. */
    method Realloc(p: int, request: nat) returns (r: int)
      requires Valid() && (if p == NULL then ScanEnds(cfg, size, request) else LivePointer(cfg, blocks, p))
      modifies this, data
      ensures Valid()
      ensures Reallocated(cfg, size, old(blocks), blocks, old(data[..]), data[..], p, AlignUp(request, cfg.align), r)
      ensures r != NULL ==> LivePointer(cfg, blocks, r)
      ensures var n := AlignUp(request, cfg.align);
        p != NULL && 0 < n <= size ==>
          var was := old(blocks)[Find(old(blocks), p - cfg.hdr)].next - p;
          && (r == p <==> n == was || n + cfg.hdr + cfg.minSize < was)
          && (r == NULL ==> blocks == old(blocks) && forall b :: b in blocks && !b.used ==> TooSmall(cfg, b, n))
          && (r != NULL ==> var now := blocks[Find(blocks, r - cfg.hdr)].next - r;
                            if r == p then now == n else n <= now && cfg.minSize <= now)
      ensures KeepsPayloads(cfg, old(blocks), old(data[..]), data[..], p - cfg.hdr) && StillLive(cfg, old(blocks), blocks, p)
    {
      hide TooSmall, Rounded, Multiple, AlignUp, Tiles, Linked, Carve, Release, Resized, KeepsPayloads, Coalesced, UsedBytes, LowestFree, LivePointer, StillLive;
      ghost var bs, d0 := blocks, data[..];
      var n := AlignUp(request, cfg.align);
      KeepsSelf(cfg, bs, d0, p - cfg.hdr);
      StillSelf(cfg, bs, p);
      if n > size {
        return NULL;
      } else if n == 0 {
        Free(p);
        KeepsMost(cfg, bs, End(), d0, data[..], p - cfg.hdr);
        return NULL;
      }
      AlignUpFixed(n, cfg.align);
      if p == NULL {
        r := Alloc(n);
        KeepsMost(cfg, bs, End(), d0, data[..], p - cfg.hdr);
      } else {
        r := Resize(p, n);
        ResizedMeans(cfg, bs, blocks, End(), d0, data[..], p, n, r);
      }
    }
  }

  /** Where the first header of a heap goes: behind the object, which is put at the front of the region, both aligned. */
  function FirstAt(c: Config, begin: nat, own: nat): nat
    requires ValidConfig(c)
  {
    AlignUp(AlignUp(begin, c.align) + own, c.align)
  }

  /** The size rt_smem_init gives the heap in a region of bytes from begin on, with an object of so many bytes in front. It
      refuses exactly the regions that have no room for the two headers; otherwise the heap is the most that is left. */
  function InitSize(c: Config, begin: nat, bytes: nat, own: nat): (size: Option<nat>)
    requires ValidConfig(c) && own > 0
    ensures size.None? <==> begin + bytes < FirstAt(c, begin, own) + 2 * c.hdr
    ensures size.Some? ==>
      Multiple(size.value, c.align) && FirstAt(c, begin, own) + size.value + 2 * c.hdr == AlignDown(begin + bytes, c.align)
  {
    hide Multiple, AlignUp, AlignDown;
    var start := AlignUp(begin, c.align) + own;
    var first := AlignUp(start, c.align);
    var end := AlignDown(begin + bytes, c.align);
    InitRoom(c, begin, bytes, own);
    if end > 2 * c.hdr && end - 2 * c.hdr >= start then Some(end - first - 2 * c.hdr) else None
  }

  /** There is room behind the address before it is aligned if and only if there is behind the aligned one. */
  lemma InitRoom(c: Config, begin: nat, bytes: nat, own: nat)
    requires ValidConfig(c)
    ensures var start, end := AlignUp(begin, c.align) + own, AlignDown(begin + bytes, c.align);
      && (end - 2 * c.hdr >= start <==> end - 2 * c.hdr >= AlignUp(start, c.align))
      && (end - 2 * c.hdr >= start <==> begin + bytes >= AlignUp(start, c.align) + 2 * c.hdr)
      && Multiple(end - AlignUp(start, c.align) - 2 * c.hdr, c.align)
  {
    hide Multiple, AlignUp, AlignDown;
    var start, end := AlignUp(begin, c.align) + own, AlignDown(begin + bytes, c.align);
    var first := AlignUp(start, c.align);
    AddMod(c.hdr, c.hdr, c.align);
    AddMod(first, 2 * c.hdr, c.align);
    AddMod(end, first + 2 * c.hdr, c.align);
    AddMod(end, 2 * c.hdr, c.align);
    if first + 2 * c.hdr <= begin + bytes {
      AlignDownMost(begin + bytes, c.align, first + 2 * c.hdr);
    }
    if end - 2 * c.hdr >= start {
      AlignUpLeast(start, c.align, end - 2 * c.hdr);
    }
  }
}
