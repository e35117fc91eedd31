/** The memory heap (src/memheap.c): boundary tags linked in a circle in address order, and a second circle through the
    free blocks, in which the search goes and new free blocks come in front. */
module MemHeap {
  import opened Align
  import opened Basics
  import opened Lists
  import opened RtList
  import opened Tiling

  const MINIALLOC: nat := 12              // RT_MEMHEAP_MINIALLOC
  const HEAD: int := -2                   // the address of free_header, outside the pool

  /** The size rt_memheap_alloc looks for; the minimum is not rounded to the alignment. */
  function Rounded(c: Config, request: nat): (n: nat)
    requires ValidConfig(c)
    ensures request <= n && MINIALLOC <= n
    ensures Multiple(MINIALLOC, c.align) ==> Multiple(n, c.align)
  {
    var n := AlignUp(request, c.align);
    if n < MINIALLOC then MINIALLOC else n
  }

  /** It is the minimum or a multiple of the alignment that holds the request, whichever is more, and the least such. */
  lemma RoundedLeast(c: Config, request: nat, m: nat)
    requires ValidConfig(c) && Multiple(m, c.align) && request <= m
    ensures Rounded(c, request) <= if m < MINIALLOC then MINIALLOC else m
    ensures Rounded(c, request) != MINIALLOC ==> Multiple(Rounded(c, request), c.align)
    ensures exists k: nat :: Multiple(k, c.align) && request <= k <= Rounded(c, request)
  {
    AlignUpLeast(request, c.align, m);
    var k := AlignUp(request, c.align);
    hide AlignUp, Multiple;
    assert Multiple(k, c.align) && request <= k <= Rounded(c, request);
  }

  // ---------------------------------------------------------------- the block list

  /** magic, next and prev of a header. */
  datatype Item = Item(used: bool, next: int, prev: int)

  /** The tiling with the small tail block that closes the circle. */
  function Closed(bs: seq<Block>, end: int): (r: seq<Block>)
    ensures |r| == |bs| + 1
  {
    bs + [Block(end, 0, true)]
  }

  function Back(bs: seq<Block>, end: int, k: nat): int
    requires k <= |bs|
  {
    if k == 0 then end else bs[k - 1].addr
  }

  ghost predicate HeaderOk(items: map<int, Item>, b: Block, prev: int) {
    b.addr in items && items[b.addr] == Item(b.used, b.next, prev)
  }

  /** The headers link the blocks in address order, forward and backward, with the tail before the first. */
  ghost predicate Linked(items: map<int, Item>, bs: seq<Block>, end: int) {
    forall k: nat :: k <= |bs| ==> HeaderOk(items, Closed(bs, end)[k], Back(bs, end, k))
  }

  lemma LinkedAt(items: map<int, Item>, bs: seq<Block>, end: int, k: nat)
    requires Linked(items, bs, end) && k <= |bs|
    ensures k < |bs| ==> bs[k].addr in items && items[bs[k].addr] == Item(bs[k].used, bs[k].next, Back(bs, end, k))
    ensures k == |bs| ==> end in items && items[end] == Item(true, 0, Back(bs, end, k))
  {
    assert HeaderOk(items, Closed(bs, end)[k], Back(bs, end, k));
  }

  /** The headers after the block at a has been cut at cut. */
  function CutItems(items: map<int, Item>, a: int, cut: int): map<int, Item>
    requires a in items
  {
    var nx := items[a].next;
    var s := items[cut := Item(false, nx, a)];
    (if nx in s then s[nx := s[nx].(prev := cut)] else s)[a := items[a].(next := cut)]
  }

  /** The headers after the block at b, behind the block at a, has become part of it. */
  function JoinItems(items: map<int, Item>, a: int, b: int): map<int, Item>
    requires a in items && b in items
  {
    var nx := items[b].next;
    var s := items[a := items[a].(next := nx)];
    if nx in s then s[nx := s[nx].(prev := a)] else s
  }

  lemma AddrApart(c: Config, bs: seq<Block>, end: int, j: nat, k: nat)
    requires Tiles(c, bs, end) && j <= |bs| && k <= |bs|
    ensures 0 < c.hdr && (Closed(bs, end)[j].addr == Closed(bs, end)[k].addr <==> j == k)
    ensures j < |bs| ==> 0 <= bs[j].addr && bs[j].addr + c.hdr <= bs[j].next <= end
    ensures j < k ==> Closed(bs, end)[j].addr < bs[j].next <= Closed(bs, end)[k].addr
    ensures j + 1 == k ==> bs[j].next == Closed(bs, end)[k].addr
  {
    BelowEnd(c, bs, end);
  }

  lemma CutLinked(c: Config, items: map<int, Item>, bs: seq<Block>, end: int, i: nat, n: nat)
    requires Tiles(c, bs, end) && Linked(items, bs, end) && i < |bs| && Payload(c, bs[i]) >= n + c.hdr
    ensures bs[i].addr in items
    ensures var a, cut := bs[i].addr, bs[i].addr + c.hdr + n;
      var s := CutItems(items, a, cut);
      a in s && Linked(s[a := s[a].(used := true)], SplitAt(c, bs, i, n), end)
  {
    hide Tiles, Linked;
    var a, cut, nx := bs[i].addr, bs[i].addr + c.hdr + n, bs[i].next;
    LinkedAt(items, bs, end, i);
    LinkedAt(items, bs, end, i + 1);
    AddrApart(c, bs, end, i, i + 1);
    var s := CutItems(items, a, cut);
    var s', r := s[a := s[a].(used := true)], SplitAt(c, bs, i, n);
    forall k: nat | k <= |r|
      ensures HeaderOk(s', Closed(r, end)[k], Back(r, end, k))
    {
      CutAt(c, items, bs, end, i, n, k);
    }
    AllLinked(s', r, end);
  }

  lemma AllLinked(items: map<int, Item>, bs: seq<Block>, end: int)
    requires forall k: nat :: k <= |bs| ==> HeaderOk(items, Closed(bs, end)[k], Back(bs, end, k))
    ensures Linked(items, bs, end)
  {
  }

  lemma SplitPoints(c: Config, bs: seq<Block>, end: int, i: nat, n: nat, k: nat)
    requires i < |bs| && k <= |bs| + 1
    ensures var r, cut := SplitAt(c, bs, i, n), bs[i].addr + c.hdr + n;
      && |r| == |bs| + 1
      && Closed(r, end)[k] == (if k < i then bs[k] else if k == i then Block(bs[i].addr, cut, true)
                               else if k == i + 1 then Block(cut, bs[i].next, false) else Closed(bs, end)[k - 1])
      && Back(r, end, k) == (if k <= i then Back(bs, end, k) else if k == i + 1 then bs[i].addr
                             else if k == i + 2 then cut else Back(bs, end, k - 1))
  {
  }

  lemma CutAt(c: Config, items: map<int, Item>, bs: seq<Block>, end: int, i: nat, n: nat, k: nat)
    requires Tiles(c, bs, end) && Linked(items, bs, end) && i < |bs| && Payload(c, bs[i]) >= n + c.hdr && k <= |bs| + 1
    requires bs[i].addr in items
    ensures var a, cut, r := bs[i].addr, bs[i].addr + c.hdr + n, SplitAt(c, bs, i, n);
      var s := CutItems(items, a, cut);
      a in s && HeaderOk(s[a := s[a].(used := true)], Closed(r, end)[k], Back(r, end, k))
  {
    hide Tiles, Linked, SplitAt;
    SplitPoints(c, bs, end, i, n, k);
    LinkedAt(items, bs, end, i);
    LinkedAt(items, bs, end, i + 1);
    AddrApart(c, bs, end, i, i + 1);
    if k < i {
      LinkedAt(items, bs, end, k);
      AddrApart(c, bs, end, k, i);
      AddrApart(c, bs, end, k, i + 1);
    } else if k > i + 1 {
      LinkedAt(items, bs, end, k - 1);
      AddrApart(c, bs, end, i, k - 1);
      AddrApart(c, bs, end, i + 1, k - 1);
    }
  }

  lemma JoinLinked(c: Config, items: map<int, Item>, bs: seq<Block>, end: int, i: nat)
    requires Tiles(c, bs, end) && Linked(items, bs, end) && i + 1 < |bs|
    ensures bs[i].addr in items && bs[i + 1].addr in items
    ensures Linked(JoinItems(items, bs[i].addr, bs[i + 1].addr), MergeAt(bs, i), end)
  {
    hide Tiles, Linked;
    LinkedAt(items, bs, end, i);
    LinkedAt(items, bs, end, i + 1);
    var s, r := JoinItems(items, bs[i].addr, bs[i + 1].addr), MergeAt(bs, i);
    forall k: nat | k <= |r|
      ensures HeaderOk(s, Closed(r, end)[k], Back(r, end, k))
    {
      JoinAt(c, items, bs, end, i, k);
    }
    AllLinked(s, r, end);
  }

  lemma MergePoints(bs: seq<Block>, end: int, i: nat, k: nat)
    requires i + 1 < |bs| && k < |bs|
    ensures var r := MergeAt(bs, i);
      && |r| == |bs| - 1
      && Closed(r, end)[k] == (if k < i then bs[k] else if k == i then Block(bs[i].addr, bs[i + 1].next, bs[i].used)
                               else Closed(bs, end)[k + 1])
      && Back(r, end, k) == (if k <= i then Back(bs, end, k) else if k == i + 1 then bs[i].addr else Back(bs, end, k + 1))
  {
  }

  lemma JoinAt(c: Config, items: map<int, Item>, bs: seq<Block>, end: int, i: nat, k: nat)
    requires Tiles(c, bs, end) && Linked(items, bs, end) && i + 1 < |bs| && k < |bs|
    requires bs[i].addr in items && bs[i + 1].addr in items
    ensures var s, r := JoinItems(items, bs[i].addr, bs[i + 1].addr), MergeAt(bs, i);
            HeaderOk(s, Closed(r, end)[k], Back(r, end, k))
  {
    hide Tiles, Linked, MergeAt;
    MergePoints(bs, end, i, k);
    LinkedAt(items, bs, end, i);
    LinkedAt(items, bs, end, i + 1);
    LinkedAt(items, bs, end, i + 2);
    AddrApart(c, bs, end, i, i + 1);
    AddrApart(c, bs, end, i + 1, i + 2);
    AddrApart(c, bs, end, i, i + 2);
    if k < i {
      LinkedAt(items, bs, end, k);
      AddrApart(c, bs, end, k, i);
      AddrApart(c, bs, end, k, i + 2);
    } else if k > i {
      LinkedAt(items, bs, end, k + 1);
      AddrApart(c, bs, end, i, k + 1);
      AddrApart(c, bs, end, i + 2, k + 1);
    }
  }

  lemma MarkLinked(c: Config, items: map<int, Item>, bs: seq<Block>, end: int, i: nat, u: bool)
    requires Tiles(c, bs, end) && Linked(items, bs, end) && i < |bs|
    ensures bs[i].addr in items
    ensures Linked(items[bs[i].addr := items[bs[i].addr].(used := u)], bs[i := bs[i].(used := u)], end)
  {
    hide Tiles;
    LinkedAt(items, bs, end, i);
    var s, r := items[bs[i].addr := items[bs[i].addr].(used := u)], bs[i := bs[i].(used := u)];
    forall k: nat | k <= |r|
      ensures HeaderOk(s, Closed(r, end)[k], Back(r, end, k))
    {
      LinkedAt(items, bs, end, k);
      AddrApart(c, bs, end, i, k);
    }
    AllLinked(s, r, end);
  }

  // ---------------------------------------------------------------- the free list and the count of free bytes

  function FreeSet(bs: seq<Block>): set<int> {
    if bs == [] then {} else (if bs[0].used then {} else {bs[0].addr}) + FreeSet(bs[1..])
  }

  lemma {:induction false} FreeHas(bs: seq<Block>, k: nat)
    requires k < |bs| && !bs[k].used
    ensures bs[k].addr in FreeSet(bs)
  {
    if k > 0 {
      FreeHas(bs[1..], k - 1);
    }
  }

  lemma {:induction false} FreeIndex(bs: seq<Block>, a: int) returns (k: nat)
    requires a in FreeSet(bs)
    ensures k < |bs| && bs[k].addr == a && !bs[k].used
  {
    if !bs[0].used && bs[0].addr == a {
      k := 0;
    } else {
      k := FreeIndex(bs[1..], a);
      k := k + 1;
    }
  }

  /** The free list holds each free block exactly once and nothing else. */
  ghost predicate Listed(bs: seq<Block>, free: seq<int>) {
    NoRepeats(free) && forall a :: a in free <==> a in FreeSet(bs)
  }

  lemma OneListed(next: int)
    ensures Listed([Block(0, next, false)], [0])
  {
    var bs := [Block(0, next, false)];
    assert bs[1..] == [];
    assert FreeSet(bs) == {0};
    assert [0][1..] == [];
  }

  /** The payload bytes of the free blocks. */
  function FreeBytes(c: Config, bs: seq<Block>): int {
    if bs == [] then 0 else (if bs[0].used then 0 else Payload(c, bs[0])) + FreeBytes(c, bs[1..])
  }

  lemma {:induction false} FreeBytesConcat(c: Config, p: seq<Block>, q: seq<Block>)
    ensures FreeBytes(c, p + q) == FreeBytes(c, p) + FreeBytes(c, q)
  {
    if p == [] {
      assert p + q == q;
    } else {
      FreeBytesConcat(c, p[1..], q);
      assert (p + q)[1..] == p[1..] + q;
    }
  }

  function Share(c: Config, b: Block): int {
    if b.used then 0 else Payload(c, b)
  }

  lemma FreeBytesAround(c: Config, bs: seq<Block>, i: nat)
    requires i < |bs|
    ensures FreeBytes(c, bs) == FreeBytes(c, bs[..i]) + Share(c, bs[i]) + FreeBytes(c, bs[i + 1..])
  {
    assert bs == bs[..i] + ([bs[i]] + bs[i + 1..]);
    FreeBytesConcat(c, bs[..i], [bs[i]] + bs[i + 1..]);
    FreeBytesConcat(c, [bs[i]], bs[i + 1..]);
  }

  lemma SplitBytes(c: Config, bs: seq<Block>, i: nat, n: nat)
    requires i < |bs|
    ensures FreeBytes(c, SplitAt(c, bs, i, n)) == FreeBytes(c, bs) - Share(c, bs[i]) + Payload(c, bs[i]) - n - c.hdr
  {
    var r := SplitAt(c, bs, i, n);
    FreeBytesAround(c, bs, i);
    FreeBytesAround(c, r, i);
    FreeBytesAround(c, r[i + 1..], 0);
    assert r[..i] == bs[..i] && r[i + 1..][1..] == bs[i + 1..];
  }

  lemma MarkBytes(c: Config, bs: seq<Block>, i: nat, u: bool)
    requires i < |bs|
    ensures FreeBytes(c, bs[i := bs[i].(used := u)]) == FreeBytes(c, bs) - Share(c, bs[i]) + if u then 0 else Payload(c, bs[i])
  {
    var r := bs[i := bs[i].(used := u)];
    FreeBytesAround(c, bs, i);
    FreeBytesAround(c, r, i);
    assert r[..i] == bs[..i] && r[i + 1..] == bs[i + 1..];
  }

  /** Joining a free block to the one before it: two free payloads and a header make one, a used block swallows one. */
  lemma MergeBytes(c: Config, bs: seq<Block>, i: nat)
    requires i + 1 < |bs| && !bs[i + 1].used && bs[i].next == bs[i + 1].addr
    ensures FreeBytes(c, MergeAt(bs, i)) == FreeBytes(c, bs) + if bs[i].used then -Payload(c, bs[i + 1]) else c.hdr
  {
    var r := MergeAt(bs, i);
    FreeBytesAround(c, bs, i);
    FreeBytesAround(c, bs[i + 1..], 0);
    FreeBytesAround(c, r, i);
    assert r[..i] == bs[..i] && r[i + 1..] == bs[i + 2..] == bs[i + 1..][1..];
  }

  lemma SplitListed(c: Config, bs: seq<Block>, end: int, i: nat, n: nat, free: seq<int>)
    requires Tiles(c, bs, end) && i < |bs| && Payload(c, bs[i]) >= n + c.hdr && Listed(bs, free)
    ensures var cut := bs[i].addr + c.hdr + n;
            cut !in free && Listed(SplitAt(c, bs, i, n), [cut] + Without(free, bs[i].addr))
  {
    hide Tiles;
    var a, cut, r := bs[i].addr, bs[i].addr + c.hdr + n, SplitAt(c, bs, i, n);
    forall x
      ensures x in FreeSet(r) <==> (x in FreeSet(bs) && x != a) || x == cut
      ensures x == cut ==> x !in FreeSet(bs)
    {
      SplitFree(c, bs, end, i, n, x);
    }
    WithoutKeeps(free, a);
    PrependNoRepeats(cut, Without(free, a));
    hide SplitAt, FreeSet, NoRepeats;
  }

  lemma SplitFree(c: Config, bs: seq<Block>, end: int, i: nat, n: nat, x: int)
    requires Tiles(c, bs, end) && i < |bs| && Payload(c, bs[i]) >= n + c.hdr
    ensures var cut := bs[i].addr + c.hdr + n;
            (x in FreeSet(SplitAt(c, bs, i, n)) <==> (x in FreeSet(bs) && x != bs[i].addr) || x == cut)
            && (x == cut ==> x !in FreeSet(bs))
  {
    hide Tiles, FreeSet;
    var r := SplitAt(c, bs, i, n);
    if x in FreeSet(r) {
      var k := FreeIndex(r, x);
      if k != i + 1 {
        var k' := if k < i then k else k - 1;
        assert r[k] == bs[k'];
        FreeHas(bs, k');
        AddrApart(c, bs, end, k', i);
      }
    }
    if x in FreeSet(bs) {
      var k := FreeIndex(bs, x);
      AddrApart(c, bs, end, k, i);
      AddrApart(c, bs, end, i, k);
      if k != i {
        var k' := if k < i then k else k + 1;
        assert r[k'] == bs[k];
        FreeHas(r, k');
      }
    }
    FreeHas(r, i + 1);
  }

  lemma MarkListed(c: Config, bs: seq<Block>, end: int, i: nat, free: seq<int>, u: bool)
    requires Tiles(c, bs, end) && i < |bs| && Listed(bs, free) && bs[i].used != u
    ensures var a := bs[i].addr;
      && (u <==> a in free)
      && Listed(bs[i := bs[i].(used := u)], if u then Without(free, a) else [a] + free)
  {
    hide Tiles;
    var a, r := bs[i].addr, bs[i := bs[i].(used := u)];
    forall x
      ensures x in FreeSet(r) <==> if x == a then !u else x in FreeSet(bs)
      ensures x == a ==> (x in FreeSet(bs) <==> u)
    {
      MarkFree(c, bs, end, i, u, x);
    }
    WithoutKeeps(free, a);
    PrependNoRepeats(a, free);
    hide FreeSet, NoRepeats;
  }

  lemma MarkFree(c: Config, bs: seq<Block>, end: int, i: nat, u: bool, x: int)
    requires Tiles(c, bs, end) && i < |bs| && bs[i].used != u
    ensures var a, r := bs[i].addr, bs[i := bs[i].(used := u)];
            (x in FreeSet(r) <==> if x == a then !u else x in FreeSet(bs)) && (x == a ==> (x in FreeSet(bs) <==> u))
  {
    hide Tiles, FreeSet;
    var r := bs[i := bs[i].(used := u)];
    if x in FreeSet(r) {
      var k := FreeIndex(r, x);
      AddrApart(c, bs, end, k, i);
      if k != i {
        FreeHas(bs, k);
      }
    }
    if x in FreeSet(bs) {
      var k := FreeIndex(bs, x);
      AddrApart(c, bs, end, k, i);
      if k != i {
        FreeHas(r, k);
      }
    }
    if u {
      FreeHas(bs, i);
    } else {
      FreeHas(r, i);
    }
  }

  lemma MergeListed(c: Config, bs: seq<Block>, end: int, i: nat, free: seq<int>)
    requires Tiles(c, bs, end) && i + 1 < |bs| && !bs[i + 1].used && Listed(bs, free)
    ensures bs[i + 1].addr in free && Listed(MergeAt(bs, i), Without(free, bs[i + 1].addr))
  {
    hide Tiles;
    var b, r := bs[i + 1].addr, MergeAt(bs, i);
    forall x
      ensures x in FreeSet(r) <==> x in FreeSet(bs) && x != b
    {
      MergeFree(c, bs, end, i, x);
    }
    FreeHas(bs, i + 1);
    WithoutKeeps(free, b);
    hide FreeSet, NoRepeats, MergeAt;
  }

  lemma MergeFree(c: Config, bs: seq<Block>, end: int, i: nat, x: int)
    requires Tiles(c, bs, end) && i + 1 < |bs| && !bs[i + 1].used
    ensures x in FreeSet(MergeAt(bs, i)) <==> x in FreeSet(bs) && x != bs[i + 1].addr
  {
    hide Tiles, FreeSet;
    var r := MergeAt(bs, i);
    if x in FreeSet(r) {
      var k := FreeIndex(r, x);
      var k' := if k <= i then k else k + 1;
      assert r[k].addr == bs[k'].addr && r[k].used == bs[k'].used;
      FreeHas(bs, k');
      AddrApart(c, bs, end, k', i + 1);
    }
    if x in FreeSet(bs) {
      var k := FreeIndex(bs, x);
      if k != i + 1 {
        var k' := if k <= i then k else k - 1;
        assert r[k'].addr == bs[k].addr && r[k'].used == bs[k].used;
        FreeHas(r, k');
      }
    }
  }

  // ---------------------------------------------------------------- bytes

  /** Outside the headers at the given addresses nothing has changed. */
  ghost predicate Kept(c: Config, touched: set<int>, before: seq<Byte>, after: seq<Byte>) {
    var kept :=
      |before| == |after| &&
      forall k :: 0 <= k < |before| && (forall a :: a in touched ==> !(a <= k < a + c.hdr)) ==> after[k] == before[k];
    kept
  }

  ghost predicate Has(bs: seq<Block>, end: int, a: int) {
    a == end || exists k :: 0 <= k < |bs| && bs[k].addr == a
  }

  /** Every touched header belongs to a block of one of the two tilings, or to the tail. */
  ghost predicate HeadersOf(bs: seq<Block>, bs': seq<Block>, end: int, touched: set<int>) {
    forall a :: a in touched ==> Has(bs, end, a) || Has(bs', end, a)
  }

  lemma NotHeader(c: Config, bs: seq<Block>, end: int, j: nat, k: int, a: int)
    requires Tiles(c, bs, end) && j < |bs| && InPayload(c, bs[j], k) && Has(bs, end, a)
    ensures !(a <= k < a + c.hdr)
  {
    PayloadOutsideHeaders(c, bs, end, j, k);
  }

  /** A used block that is there before and after keeps its payload. */
  lemma BytesKept(c: Config, bs: seq<Block>, bs': seq<Block>, end: int, touched: set<int>, before: seq<Byte>, after: seq<Byte>, but: int)
    requires Tiles(c, bs, end) && Tiles(c, bs', end) && Kept(c, touched, before, after) && HeadersOf(bs, bs', end, touched)
    requires forall b :: b in bs && b.used && b.addr != but ==> b in bs'
    ensures KeepsPayloads(c, bs, before, after, but)
  {
    hide Tiles, Has;
    forall j, k | 0 <= j < |bs| && bs[j].used && bs[j].addr != but && InPayload(c, bs[j], k) && 0 <= k < |before|
      ensures after[k] == before[k]
    {
      assert bs[j] in bs;
      var j' :| 0 <= j' < |bs'| && bs'[j'] == bs[j];
      forall a | a in touched
        ensures !(a <= k < a + c.hdr)
      {
        if Has(bs, end, a) {
          NotHeader(c, bs, end, j, k, a);
        } else {
          NotHeader(c, bs', end, j', k, a);
        }
      }
    }
  }

  /** The common part of a payload that is resized in place. */
  lemma PrefixKept(c: Config, bs: seq<Block>, bs': seq<Block>, end: int, touched: set<int>, before: seq<Byte>, after: seq<Byte>,
                   i: nat, m: nat)
    requires Tiles(c, bs, end) && Tiles(c, bs', end) && Kept(c, touched, before, after) && HeadersOf(bs, bs', end, touched)
    requires i < |bs| && i < |bs'| && bs[i].addr == bs'[i].addr && m <= Payload(c, bs[i]) && m <= Payload(c, bs'[i])
    requires end <= |before|
    ensures SameBytes(before, bs[i].addr + c.hdr, after, bs[i].addr + c.hdr, m)
  {
    BelowEnd(c, bs, end);
    hide Tiles, Has;
    var p := bs[i].addr + c.hdr;
    forall k | p <= k < p + m
      ensures after[k] == before[k]
    {
      forall a | a in touched
        ensures !(a <= k < a + c.hdr)
      {
        if Has(bs, end, a) {
          NotHeader(c, bs, end, i, k, a);
        } else {
          NotHeader(c, bs', end, i, k, a);
        }
      }
    }
  }

  // ---------------------------------------------------------------- lemmas for the operations

  lemma HasBlock(bs: seq<Block>, end: int, k: nat)
    requires k < |bs|
    ensures Has(bs, end, bs[k].addr)
  {
  }

  lemma HasNext(c: Config, bs: seq<Block>, end: int, k: nat)
    requires Tiles(c, bs, end) && k < |bs|
    ensures Has(bs, end, bs[k].next)
  {
    AddrApart(c, bs, end, k, k + 1);
  }

  lemma HasFree(c: Config, bs: seq<Block>, end: int, free: seq<int>)
    requires Listed(bs, free) && Tiles(c, bs, end)
    ensures forall a :: a in free ==> Has(bs, end, a) && 0 <= a && a + c.hdr <= end
  {
    forall a | a in free
      ensures Has(bs, end, a) && 0 <= a && a + c.hdr <= end
    {
      var k := FreeIndex(bs, a);
      AddrApart(c, bs, end, k, k);
    }
  }

  lemma HasMerged(bs: seq<Block>, end: int, i: nat, a: int)
    requires i + 1 < |bs| && Has(MergeAt(bs, i), end, a)
    ensures Has(bs, end, a)
  {
    var r := MergeAt(bs, i);
    if a != end {
      var k :| 0 <= k < |r| && r[k].addr == a;
      assert bs[if k <= i then k else k + 1].addr == a;
    }
  }

  predicate Splits(c: Config, b: Block, n: nat) {
    Payload(c, b) >= n + c.hdr + MINIALLOC
  }

  function Taken(c: Config, bs: seq<Block>, i: nat, n: nat): seq<Block>
    requires i < |bs|
  {
    if Splits(c, bs[i], n) then SplitAt(c, bs, i, n) else bs[i := bs[i].(used := true)]
  }

  /** The free list after block i has been taken for n bytes. */
  function FreeTaken(c: Config, bs: seq<Block>, free: seq<int>, i: nat, n: nat): seq<int>
    requires i < |bs|
  {
    var rest := Without(free, bs[i].addr);
    if Splits(c, bs[i], n) then [bs[i].addr + c.hdr + n] + rest else rest
  }

  /** A block is cut behind n bytes whenever that leaves a free block with the minimum of room, and only then. The free block
      comes to the front of the free list. */
  lemma TakenMeans(c: Config, bs: seq<Block>, free: seq<int>, i: nat, n: nat)
    requires i < |bs|
    ensures var b, cut := bs[i], bs[i].addr + c.hdr + n;
      if b.next - (cut + c.hdr) >= 12 then
        && Taken(c, bs, i, n) == bs[..i] + [Block(b.addr, cut, true), Block(cut, b.next, false)] + bs[i + 1..]
        && FreeTaken(c, bs, free, i, n) == [cut] + Without(free, b.addr)
      else
        && Taken(c, bs, i, n) == bs[..i] + [Block(b.addr, b.next, true)] + bs[i + 1..]
        && FreeTaken(c, bs, free, i, n) == Without(free, b.addr)
  {
    hide Without;
  }

  lemma TakenTiles(c: Config, bs: seq<Block>, end: int, i: nat, n: nat)
    requires Tiles(c, bs, end) && Coalesced(bs) && i < |bs| && !bs[i].used && Payload(c, bs[i]) >= n
    ensures Tiles(c, Taken(c, bs, i, n), end) && Coalesced(Taken(c, bs, i, n))
  {
    if Splits(c, bs[i], n) {
      SplitTiles(c, bs, end, i, n);
      SplitFreeCoalesced(c, bs, i, n);
    } else {
      RetagTiles(c, bs, end, i, true);
    }
  }

  lemma SplitFreeCoalesced(c: Config, bs: seq<Block>, i: nat, n: nat)
    requires Coalesced(bs) && i < |bs| && !bs[i].used
    ensures Coalesced(SplitAt(c, bs, i, n))
  {
    var r := SplitAt(c, bs, i, n);
    assert forall k :: 0 <= k < i ==> r[k] == bs[k];
    assert forall k :: i + 2 <= k < |r| ==> r[k] == bs[k - 1];
    assert i + 1 < |bs| ==> bs[i].used || bs[i + 1].used;
  }

  lemma TakenStays(c: Config, bs: seq<Block>, i: nat, n: nat)
    requires i < |bs| && !bs[i].used
    ensures forall b :: b in bs && b.used ==> b in Taken(c, bs, i, n)
  {
    forall b | b in bs && b.used
      ensures b in Taken(c, bs, i, n)
    {
      var j :| 0 <= j < |bs| && bs[j] == b;
      assert Taken(c, bs, i, n)[if j < i || !Splits(c, bs[i], n) then j else j + 1] == b;
    }
  }

  lemma TakenHead(c: Config, bs: seq<Block>, i: nat, n: nat)
    requires i < |bs| && !bs[i].used && Payload(c, bs[i]) >= n
    ensures var r := Taken(c, bs, i, n); i < |r| && r[i].addr == bs[i].addr && r[i].used && Payload(c, r[i]) >= n
  {
  }

  lemma TakenLive(c: Config, bs: seq<Block>, end: int, i: nat, n: nat)
    requires Tiles(c, bs, end) && Coalesced(bs) && i < |bs| && !bs[i].used && Payload(c, bs[i]) >= n
    ensures var r := Taken(c, bs, i, n);
      && LivePointer(c, r, bs[i].addr + c.hdr) && StillLive(c, bs, r, NULL)
      && Find(r, bs[i].addr) == i < |r| && r[i].addr == bs[i].addr && r[i].used && Payload(c, r[i]) >= n
  {
    hide Taken, Tiles, Coalesced;
    var r := Taken(c, bs, i, n);
    TakenTiles(c, bs, end, i, n);
    TakenStays(c, bs, i, n);
    TakenHead(c, bs, i, n);
    FindIs(c, r, end, i);
    forall q | LivePointer(c, bs, q) && q != NULL
      ensures LivePointer(c, r, q) && r[Find(r, q - c.hdr)] == bs[Find(bs, q - c.hdr)]
    {
      assert bs[Find(bs, q - c.hdr)] in bs;
      StaysLive(c, bs, r, end, q);
    }
  }

  /** Whether the free block at a can hold n bytes. */
  predicate FitsAt(c: Config, bs: seq<Block>, a: int, n: nat) {
    var i := Find(bs, a);
    i < |bs| && Payload(c, bs[i]) >= n
  }

  /** The first block of the free list that can hold n bytes, or the length of the list. */
  function FirstFree(c: Config, bs: seq<Block>, free: seq<int>, n: nat): (k: nat)
    ensures k <= |free| && (forall j :: 0 <= j < k ==> !FitsAt(c, bs, free[j], n))
    ensures k < |free| ==> FitsAt(c, bs, free[k], n)
  {
    if free == [] || FitsAt(c, bs, free[0], n) then 0 else 1 + FirstFree(c, bs, free[1..], n)
  }

  lemma FirstFreeIs(c: Config, bs: seq<Block>, free: seq<int>, n: nat, k: nat)
    requires k <= |free| && (forall j :: 0 <= j < k ==> !FitsAt(c, bs, free[j], n))
    requires k < |free| ==> FitsAt(c, bs, free[k], n)
    ensures FirstFree(c, bs, free, n) == k
  {
  }

  lemma FreeNode(c: Config, items: map<int, Item>, bs: seq<Block>, end: int, free: seq<int>, a: int)
    requires Tiles(c, bs, end) && Linked(items, bs, end) && Listed(bs, free) && a in free
    ensures var i := Find(bs, a);
      && i < |bs| && bs[i].addr == a && !bs[i].used && a in items && items[a].next == bs[i].next
      && 0 <= a && a + c.hdr <= bs[i].next <= end
  {
    hide Tiles, Linked;
    var k := FreeIndex(bs, a);
    FindIs(c, bs, end, k);
    LinkedAt(items, bs, end, k);
    AddrApart(c, bs, end, k, k);
  }

  /** A free block holds no more than all free blocks together. */
  lemma ShareWithin(c: Config, bs: seq<Block>, end: int, i: nat)
    requires Tiles(c, bs, end) && i < |bs|
    ensures FreeBytes(c, bs) >= Share(c, bs[i])
  {
    FreeBytesAround(c, bs, i);
    BelowEnd(c, bs, end);
    FreeBytesPositive(c, bs[..i]);
    FreeBytesPositive(c, bs[i + 1..]);
  }

  lemma {:induction false} FreeBytesPositive(c: Config, bs: seq<Block>)
    requires forall i :: 0 <= i < |bs| ==> Payload(c, bs[i]) >= 0
    ensures FreeBytes(c, bs) >= 0
  {
    if bs != [] {
      FreeBytesPositive(c, bs[1..]);
    }
  }

  lemma {:induction false} NoOtherShare(c: Config, bs: seq<Block>, i: nat, j: nat)
    requires i < |bs| && j < |bs| && i != j && FreeBytes(c, bs) == Share(c, bs[i])
    requires forall k :: 0 <= k < |bs| ==> Payload(c, bs[k]) >= 0
    ensures Share(c, bs[j]) == 0
  {
    FreeBytesAround(c, bs, i);
    FreeBytesPositive(c, bs[..i]);
    FreeBytesPositive(c, bs[i + 1..]);
    if j < i {
      FreeBytesAround(c, bs[..i], j);
      FreeBytesPositive(c, bs[..i][..j]);
      FreeBytesPositive(c, bs[..i][j + 1..]);
    } else {
      FreeBytesAround(c, bs[i + 1..], j - i - 1);
      FreeBytesPositive(c, bs[i + 1..][..j - i - 1]);
      FreeBytesPositive(c, bs[i + 1..][j - i..]);
    }
  }

  /** The guard refuses a request that some free block could hold in exactly one case: that block is filled to the
      last byte, and no other free block has any. */
  lemma RefusedAlthoughItFits(c: Config, bs: seq<Block>, end: int, i: nat, n: nat)
    requires Tiles(c, bs, end) && i < |bs| && !bs[i].used && Payload(c, bs[i]) >= n
    ensures !(n < FreeBytes(c, bs)) <==>
              Payload(c, bs[i]) == n && forall j :: 0 <= j < |bs| && j != i ==> Share(c, bs[j]) == 0
  {
    ShareWithin(c, bs, end, i);
    BelowEnd(c, bs, end);
    if FreeBytes(c, bs) == n {
      forall j | 0 <= j < |bs| && j != i
        ensures Share(c, bs[j]) == 0
      {
        NoOtherShare(c, bs, i, j);
      }
    }
    if forall j :: 0 <= j < |bs| && j != i ==> Share(c, bs[j]) == 0 {
      FreeBytesAround(c, bs, i);
      NoShares(c, bs[..i]);
      NoShares(c, bs[i + 1..]);
    }
  }

  /** A fresh heap of 64 bytes has 32 to give, and does not give them. */
  lemma WholeHeapRefused()
    ensures var c, bs := Config(8, 16, 12), [Block(0, 48, false)];
      && ValidConfig(c) && Tiles(c, bs, 48) && Rounded(c, 32) == 32 == Payload(c, bs[0]) == FreeBytes(c, bs)
      && Refused(c, bs, [0], FreeBytes(c, bs), 32)
  {
    var c, bs := Config(8, 16, 12), [Block(0, 48, false)];
    assert bs[1..] == [];
    AlignUpFixed(32, 8);
  }

  lemma {:induction false} NoShares(c: Config, bs: seq<Block>)
    requires forall i :: 0 <= i < |bs| ==> Share(c, bs[i]) == 0
    ensures FreeBytes(c, bs) == 0
  {
    if bs != [] {
      assert Share(c, bs[0]) == 0;
      NoShares(c, bs[1..]);
    }
  }

  // ---------------------------------------------------------------- the heap

  class Heap {
    const cfg: Config
    const data: array<Byte>             // the pool
    var items: map<int, Item>           // magic, next and prev of each header, by offset in the pool
    var nextFree: map<int, int>         // next_free and prev_free
    var prevFree: map<int, int>
    var available: int                  // available_size
    var maxUsed: int                    // max_used_size
    ghost var blocks: seq<Block>
    ghost var free: seq<int>            // the free list, from free_header on
    ghost var base: seq<Byte>           // the pool before the operation under way
    ghost var touched: set<int>         // the headers that operation has written

    ghost function End(): int { data.Length - cfg.hdr }

    ghost predicate Written()
      reads this, data
    {
      Kept(cfg, touched, base, data[..])
    }

    ghost predicate BlocksOk()
      reads this
    {
      Tiles(cfg, blocks, End()) && Linked(items, blocks, End())
    }

    ghost predicate RingOk()
      reads this
    {
      && Ring(Nodes(nextFree, prevFree), [HEAD] + free)
      && forall a :: a in free ==> 0 <= a && a + cfg.hdr <= data.Length
    }

    /** Between operations: the blocks tile the pool, linked in address order, no two neighbours are free, the free
        list holds each free block once, and the counts agree. */
    ghost predicate Valid()
      reads this, data
    {
      && ValidConfig(cfg) && BlocksOk() && RingOk() && Listed(blocks, free) && Coalesced(blocks)
      && available == FreeBytes(cfg, blocks) && data.Length - available <= maxUsed
    }

    /** rt_memheap_init, for a pool that holds two headers; what is left over beyond a multiple of the alignment is lost. */
    constructor (cfg: Config, bytes: nat)
      requires ValidConfig(cfg) && bytes >= 2 * cfg.hdr
      ensures Valid() && fresh(data) && this.cfg == cfg && data.Length == AlignDown(bytes, cfg.align)
      ensures blocks == [Block(0, data.Length - cfg.hdr, false)] && free == [0] && available == data.Length - 2 * cfg.hdr
    {
      hide Multiple, AlignDown;
      var size := AlignDown(bytes, cfg.align);
      AddMod(cfg.hdr, cfg.hdr, cfg.align);
      AlignDownMost(bytes, cfg.align, 2 * cfg.hdr);
      this.cfg := cfg;
      data := new Byte[size](_ => 0);
      available := size - 2 * cfg.hdr;
      maxUsed := 2 * cfg.hdr;
      items := map[0 := Item(false, size - cfg.hdr, size - cfg.hdr), size - cfg.hdr := Item(true, 0, 0)];
      nextFree, prevFree := map[HEAD := 0, 0 := HEAD], map[HEAD := 0, 0 := HEAD];
      blocks, free, base, touched := [Block(0, size - cfg.hdr, false)], [0], [], {};
      new;
      assert blocks[1..] == [];
      OneListed(size - cfg.hdr);
      assert BlocksOk() && RingOk();
      assert available == FreeBytes(cfg, blocks);
    }

    /** A header store overwrites the bytes the header occupies, in whatever layout the compiler chose. */
    method Touch(a: int)
      requires 0 <= a && a + cfg.hdr <= data.Length && Written()
      modifies data, this`touched
      ensures Written() && touched == old(touched) + {a}
    {
      ghost var before := data[..];
      for j := a to a + cfg.hdr
        invariant forall k :: 0 <= k < data.Length && !(a <= k < a + cfg.hdr) ==> data[k] == before[k]
        invariant touched == old(touched)
      {
        data[j] := *;
      }
      KeptMore(cfg, touched, base, before, data[..], a);
      touched := touched + {a};
    }

    /** The stores that cut the block at a at cut. */
    method CutHeaders(a: int, cut: int)
      requires a in items && items[a].next in items && cut != a && cut != items[a].next && a != items[a].next
      requires 0 <= a && 0 <= cut && 0 <= items[a].next && Written()
      requires a + cfg.hdr <= data.Length && cut + cfg.hdr <= data.Length && items[a].next + cfg.hdr <= data.Length
      modifies data, this`items, this`touched
      ensures Written() && items == CutItems(old(items), a, cut)
      ensures touched == old(touched) + {a, cut, old(items)[a].next}
    {
      var nx := items[a].next;
      items := items[cut := Item(false, nx, a)];
      Touch(cut);
      items := items[nx := items[nx].(prev := cut)];
      Touch(nx);
      items := items[a := items[a].(next := cut)];
      Touch(a);
    }

    /** The stores that make the block at b, behind the block at a, part of it. */
    method JoinHeaders(a: int, b: int)
      requires a in items && b in items && items[b].next in items && items[b].next != a
      requires 0 <= a && a + cfg.hdr <= data.Length && 0 <= items[b].next && items[b].next + cfg.hdr <= data.Length && Written()
      modifies data, this`items, this`touched
      ensures Written() && items == JoinItems(old(items), a, b) && touched == old(touched) + {a, old(items)[b].next}
    {
      var nx := items[b].next;
      items := items[a := items[a].(next := nx)];
      Touch(a);
      items := items[nx := items[nx].(prev := a)];
      Touch(nx);
    }

    method Mark(a: int, u: bool)
      requires a in items && 0 <= a && a + cfg.hdr <= data.Length && Written()
      modifies data, this`items, this`touched
      ensures Written() && items == old(items)[a := old(items)[a].(used := u)] && touched == old(touched) + {a}
    {
      items := items[a := items[a].(used := u)];
      Touch(a);
    }

    /** The block at x goes to the front of the free list. */
    method Push(x: int)
      requires RingOk() && x !in free && 0 <= x && x + cfg.hdr <= data.Length && Written()
      modifies data, this`nextFree, this`prevFree, this`free, this`touched
      ensures Written() && RingOk() && free == [x] + old(free)
      ensures forall t :: t in touched ==> t in old(touched) || t == x || t in old(free)
    {
      hide Ring;
      RingAt(Nodes(nextFree, prevFree), [HEAD] + free, 0);
      InsertRing(Nodes(nextFree, prevFree), [HEAD] + free, 0, x);
      assert Inserted([HEAD] + free, 0, x) == [HEAD] + ([x] + free);
      var first := nextFree[HEAD];
      assert first == HEAD || first in free;
      nextFree, prevFree := nextFree[x := first], prevFree[first := x];
      if first != HEAD {
        Touch(first);
      }
      nextFree, prevFree := nextFree[HEAD := x], prevFree[x := HEAD];
      Touch(x);
      free := [x] + free;
    }

    /** The block at x leaves the free list. */
    method Drop(x: int)
      requires RingOk() && x in free && Written()
      modifies data, this`nextFree, this`prevFree, this`free, this`touched
      ensures Written() && RingOk() && free == Without(old(free), x)
      ensures forall t :: t in touched ==> t in old(touched) || t in old(free)
    {
      hide Ring, Without;
      DropRing(Nodes(nextFree, prevFree), free, x);
      var p, n := prevFree[x], nextFree[x];
      prevFree := prevFree[n := p];
      if n != HEAD {
        Touch(n);
      }
      nextFree := nextFree[p := n];
      if p != HEAD {
        Touch(p);
      }
      free := Without(free, x);
    }

    /** next_free and prev_free of a block that is handed out are cleared. */
    method Forget(x: int)
      requires RingOk() && x !in free && 0 <= x && x + cfg.hdr <= data.Length && Written()
      modifies data, this`nextFree, this`prevFree, this`touched
      ensures Written() && RingOk() && touched == old(touched) + {x}
    {
      hide Ring;
      RingMembers(Nodes(nextFree, prevFree), [HEAD] + free);
      ghost var was := Nodes(nextFree, prevFree);
      nextFree, prevFree := nextFree[x := NULL], prevFree[x := NULL];
      RingFrame(was, Nodes(nextFree, prevFree), [HEAD] + free);
      Touch(x);
    }

    /** The search along the free list. */
    method Search(n: nat) returns (ptr: int, size: int, ghost k: nat)
      requires Valid() && n > 0
      ensures k == FirstFree(cfg, blocks, free, n) && ptr == if k < |free| then free[k] else HEAD
      ensures size >= n <==> k < |free|
      ensures k < |free| ==> Find(blocks, ptr) < |blocks| && size == Payload(cfg, blocks[Find(blocks, ptr)])
    {
      hide Tiles, Linked, Ring, Listed, Coalesced, FreeBytes;
      size := 0;
      ghost var m, ring := Nodes(nextFree, prevFree), [HEAD] + free;
      RingAt(m, ring, 0);
      ptr := nextFree[HEAD];
      k := 0;
      while ptr != HEAD && size < n
        invariant k <= |free| && ptr == if k < |free| then free[k] else HEAD
        invariant forall j :: 0 <= j < k ==> !FitsAt(cfg, blocks, free[j], n)
        invariant size >= n ==> k < |free| && Find(blocks, ptr) < |blocks| && size == Payload(cfg, blocks[Find(blocks, ptr)])
        decreases |free| - k, if size < n then 1 else 0
      {
        assert free[k] in free;
        FreeNode(cfg, items, blocks, End(), free, ptr);
        size := items[ptr].next - ptr - cfg.hdr;
        if size < n {
          RingAt(m, ring, k + 1);
          ptr := nextFree[ptr];
          k := k + 1;
        }
      }
      FirstFreeIs(cfg, blocks, free, n, k);
    }

    /** The free block at a is handed out for n bytes: cut if enough is left over, and off the free list. */
    method TakeBlock(a: int, n: nat, size: int, ghost i: nat)
      requires Valid() && Written() && touched == {}
      requires i < |blocks| && blocks[i].addr == a && !blocks[i].used && size == Payload(cfg, blocks[i]) >= n
      modifies data, this`items, this`nextFree, this`prevFree, this`available, this`maxUsed, this`blocks, this`free, this`touched
      ensures Valid() && Written()
      ensures blocks == Taken(cfg, old(blocks), i, n) && free == FreeTaken(cfg, old(blocks), old(free), i, n)
      ensures HeadersOf(old(blocks), blocks, End(), touched)
      ensures maxUsed == if data.Length - available > old(maxUsed) then data.Length - available else old(maxUsed)
    {
      hide Tiles, Linked, Ring, Listed, Coalesced, FreeBytes, Without, SplitAt, Has;
      TakeFacts(cfg, items, blocks, End(), free, i, n);
      ghost var nx := items[a].next;
      if size >= n + cfg.hdr + MINIALLOC {
        var cut := a + n + cfg.hdr;
        CutHeaders(a, cut);
        Drop(a);
        Forget(a);
        Push(cut);
        available := available - n - cfg.hdr;
      } else {
        available := available - size;
        Drop(a);
        Forget(a);
      }
      if data.Length - available > maxUsed {
        maxUsed := data.Length - available;
      }
      Mark(a, true);
      blocks := Taken(cfg, blocks, i, n);
    }

    /** rt_memheap_alloc. The guard asks for less than what is available, so it also turns away a request that fits the
        last free byte. */
    method Alloc(request: nat) returns (p: int)
      requires Valid()
      modifies this, data
      ensures Valid()
      ensures Allocated(cfg, old(blocks), old(free), old(available), blocks, free, request, p)
      ensures var n := Rounded(cfg, request);
        p == NULL <==> n >= old(available) || forall b :: b in old(blocks) && !b.used ==> b.next - b.addr - cfg.hdr < n
      ensures p == NULL ==> data[..] == old(data[..]) && available == old(available)
      ensures p != NULL ==>
        maxUsed == if data.Length - available > old(maxUsed) then data.Length - available else old(maxUsed)
      ensures KeepsPayloads(cfg, old(blocks), old(data[..]), data[..], NULL)
    {
      hide Tiles, Linked, Ring, Listed, Coalesced, FreeBytes, Without, SplitAt, Has, HeadersOf, Taken, FreeTaken, FirstFree, Multiple,
        AlignUp, StillLive, LivePointer;
      var n := AlignUp(request, cfg.align);
      if n < MINIALLOC {
        n := MINIALLOC;
      }
      p := NULL;
      ghost var bs, d0 := blocks, data[..];
      KeepsSelf(cfg, bs, d0, NULL);
      RefusedIff(cfg, bs, End(), free, available, request);
      if n < available {
        var ptr, size, k := Search(n);
        if size >= n {
          base, touched := data[..], {};
          assert free[k] in free;
          FreeNode(cfg, items, blocks, End(), free, ptr);
          ghost var i := Find(blocks, ptr);
          TakenLive(cfg, blocks, End(), i, n);
          TakenStays(cfg, blocks, i, n);
          TakeBlock(ptr, n, size, i);
          BytesKept(cfg, bs, blocks, End(), touched, d0, data[..], NULL);
          p := ptr + cfg.hdr;
        }
      }
    }

    /** Two free neighbours become one block. */
    method Merge(a: int, b: int, ghost i: nat, ghost list: seq<int>)
      requires BlocksOk() && Written() && Listed(blocks, list) && available == FreeBytes(cfg, blocks)
      requires i + 1 < |blocks| && blocks[i].addr == a && blocks[i + 1].addr == b && !blocks[i].used && !blocks[i + 1].used
      modifies data, this`items, this`available, this`blocks, this`touched
      ensures BlocksOk() && Written() && b in list && Listed(blocks, Without(list, b)) && available == FreeBytes(cfg, blocks)
      ensures available == old(available) + cfg.hdr && blocks == MergeAt(old(blocks), i)
      ensures forall t :: t in touched ==> t in old(touched) || Has(old(blocks), End(), t)
    {
      hide Tiles, Linked, Listed, FreeBytes, MergeAt, Has, Without;
      MergeFacts(cfg, items, blocks, End(), list, i);
      available := available + cfg.hdr;
      JoinHeaders(a, b);
      blocks := MergeAt(blocks, i);
    }

    /** rt_memheap_free of a live block. A block that merges to the left stays where its left part is in the free list;
        otherwise it comes in front. */
    method FreeBlock(a: int, ghost i: nat)
      requires Valid() && Written() && touched == {} && i < |blocks| && blocks[i].addr == a && blocks[i].used
      modifies data, this`items, this`nextFree, this`prevFree, this`available, this`blocks, this`free, this`touched
      ensures Valid() && Written() && blocks == Release(old(blocks), i)
      ensures free == FreeReleased(old(blocks), old(free), i) && available >= old(available)
      ensures forall t :: t in touched ==> Has(old(blocks), End(), t)
    {
      hide Tiles, Linked, Ring, Listed, Coalesced, FreeBytes, Without, MergeAt, Has, CoalescedBut, Plug;
      ghost var bs, free0 := blocks, free;
      ReleaseFacts(cfg, items, blocks, End(), free, i);
      Around(cfg, items, blocks, End(), i);
      Mark(a, false);
      available := available + (items[a].next - a - cfg.hdr);
      blocks := blocks[i := blocks[i].(used := false)];
      ghost var list, j := [a] + free, i;
      SameHas(bs, blocks, End());
      Around(cfg, items, blocks, End(), i);
      var header, insert := a, true;
      if !items[items[a].prev].used {
        header, insert := items[a].prev, false;
        Merge(header, a, i - 1, list);
        list, j := Without(list, a), i - 1;
        WithoutFront(a, free);
        HasMergedAll(bs[i := bs[i].(used := false)], End(), i - 1);
      }
      ghost var mid := blocks;
      Around(cfg, items, blocks, End(), j);
      if !items[items[header].next].used {
        var right := items[header].next;
        Merge(header, right, j, list);
        HasMergedAll(mid, End(), j);
        WithoutBehind(a, free0, right);
        Drop(right);
      }
      if insert {
        Push(header);
      }
      assert blocks == Release(bs, i);
    }

    /** rt_memheap_free. */
    method Free(p: int)
      requires Valid() && (p == NULL || LivePointer(cfg, blocks, p))
      modifies this, data
      ensures Valid() && maxUsed == old(maxUsed)
      ensures p == NULL ==> blocks == old(blocks) && free == old(free) && data[..] == old(data[..])
      ensures p != NULL ==>
        var i := Find(old(blocks), p - cfg.hdr);
        && i < |old(blocks)| && blocks == Release(old(blocks), i) && free == FreeReleased(old(blocks), old(free), i)
        && StillLive(cfg, old(blocks), blocks, p)
      ensures KeepsPayloads(cfg, old(blocks), old(data[..]), data[..], NULL)
    {
      hide Tiles, Linked, Ring, Listed, Coalesced, FreeBytes, Without, Has, FreeReleased, Release, StillLive, Multiple;
      ghost var bs, d0 := blocks, data[..];
      KeepsSelf(cfg, bs, d0, NULL);
      if p == NULL {
        return;
      }
      base, touched := data[..], {};
      var a := p - cfg.hdr;
      ghost var i := Find(blocks, a);
      LiveInside(cfg, End(), blocks, p);
      FreeBlock(a, i);
      ReleaseLive(cfg, End(), bs, blocks, p);
      BytesKept(cfg, bs, bs, End(), touched, d0, data[..], NULL);
    }

    /** The in-place growth of rt_memheap_realloc: the free block behind gives up its front. */
    method Grow(a: int, n: nat, ghost i: nat)
      requires Valid() && Written() && touched == {} && CanGrow(cfg, blocks, i, n) && blocks[i].addr == a
      modifies data, this`items, this`nextFree, this`prevFree, this`available, this`maxUsed, this`blocks, this`free, this`touched
      ensures Valid() && Written() && blocks == Grown(cfg, old(blocks), i, n)
      ensures free == [a + cfg.hdr + n] + Without(old(free), old(blocks)[i + 1].addr)
      ensures HeadersOf(old(blocks), blocks, End(), touched)
      ensures maxUsed == if data.Length - available > old(maxUsed) then data.Length - available else old(maxUsed)
    {
      hide Tiles, Linked, Ring, Listed, Coalesced, FreeBytes, Without, Has, Grown, Multiple;
      GrowFacts(cfg, items, blocks, End(), free, i, n);
      var b := items[a].next;
      var oldSize := b - a - cfg.hdr;
      available := available - (n - oldSize);
      if data.Length - available > maxUsed {
        maxUsed := data.Length - available;
      }
      Drop(b);
      JoinHeaders(a, b);
      var cut := a + cfg.hdr + n;
      CutHeaders(a, cut);
      Push(cut);
      blocks := Grown(cfg, blocks, i, n);
    }

    /** The in-place cut: the tail becomes a free block, or the front of the free block behind. */
    method Cut(a: int, n: nat, ghost i: nat)
      requires Valid() && Written() && touched == {} && i < |blocks| && blocks[i].addr == a && blocks[i].used
      requires Payload(cfg, blocks[i]) > n + cfg.hdr + MINIALLOC
      modifies data, this`items, this`nextFree, this`prevFree, this`available, this`blocks, this`free, this`touched
      ensures Valid() && Written() && blocks == Shrink(cfg, old(blocks), i, n) && available >= old(available)
      ensures free == FreeCut(cfg, old(blocks), old(free), i, n)
      ensures HeadersOf(old(blocks), SplitAt(cfg, old(blocks), i, n), End(), touched)
    {
      hide Tiles, Linked, Ring, Listed, Coalesced, FreeBytes, Without, Has, Multiple, SplitAt, MergeAt;
      ghost var bs, free0 := blocks, free;
      CutFacts(cfg, items, blocks, End(), free, i, n);
      var cut := a + n + cfg.hdr;
      CutHeaders(a, cut);
      blocks := SplitAt(cfg, blocks, i, n);
      ghost var mid := blocks;
      Around(cfg, items, blocks, End(), i + 1);
      if !items[items[cut].next].used {
        var right := items[cut].next;
        MergeFacts(cfg, items, blocks, End(), [cut] + free, i + 1);
        LinkedAt(items, blocks, End(), i + 2);
        available := available - (items[right].next - right - cfg.hdr);
        JoinHeaders(cut, right);
        WithoutBehind(cut, free0, right);
        Drop(right);
        blocks := MergeAt(blocks, i + 1);
      }
      assert blocks == Shrink(cfg, bs, i, n);
      Push(cut);
      available := available + (items[cut].next - cut - cfg.hdr);
    }

    /** Growth in place, for the holder of the block. */
    method GrowLive(p: int, n: nat)
      requires Valid() && LivePointer(cfg, blocks, p) && CanGrow(cfg, blocks, Find(blocks, p - cfg.hdr), n)
      modifies this, data
      ensures Valid() && LivePointer(cfg, blocks, p) && blocks == Grown(cfg, old(blocks), Find(old(blocks), p - cfg.hdr), n)
      ensures free == [p + n] + Without(old(free), old(blocks)[Find(old(blocks), p - cfg.hdr) + 1].addr)
      ensures maxUsed == if data.Length - available > old(maxUsed) then data.Length - available else old(maxUsed)
      ensures StillLive(cfg, old(blocks), blocks, p)
      ensures KeepsPayloads(cfg, old(blocks), old(data[..]), data[..], p - cfg.hdr)
      ensures Payload(cfg, old(blocks)[Find(old(blocks), p - cfg.hdr)]) >= 0
      ensures SameBytes(old(data[..]), p, data[..], p, Payload(cfg, old(blocks)[Find(old(blocks), p - cfg.hdr)]))
    {
      hide Tiles, Linked, Ring, Listed, Coalesced, FreeBytes, Without, Has, HeadersOf, Grown, Multiple, StillLive;
      ghost var bs, d0, i := blocks, data[..], Find(blocks, p - cfg.hdr);
      LiveInside(cfg, End(), blocks, p);
      GrownLive(cfg, bs, End(), i, n);
      StaysAll(cfg, End(), bs, Grown(cfg, bs, i, n), p);
      base, touched := data[..], {};
      Grow(p - cfg.hdr, n, i);
      BytesKept(cfg, bs, blocks, End(), touched, d0, data[..], p - cfg.hdr);
      PrefixKept(cfg, bs, blocks, End(), touched, d0, data[..], i, Payload(cfg, bs[i]));
    }

    /** The cut in place, for the holder of the block. */
    method CutLive(p: int, n: nat)
      requires Valid() && LivePointer(cfg, blocks, p)
      requires Payload(cfg, blocks[Find(blocks, p - cfg.hdr)]) > n + cfg.hdr + MINIALLOC
      modifies this, data
      ensures Valid() && LivePointer(cfg, blocks, p) && blocks == Shrink(cfg, old(blocks), Find(old(blocks), p - cfg.hdr), n)
      ensures free == FreeCut(cfg, old(blocks), old(free), Find(old(blocks), p - cfg.hdr), n) && maxUsed == old(maxUsed)
      ensures StillLive(cfg, old(blocks), blocks, p)
      ensures KeepsPayloads(cfg, old(blocks), old(data[..]), data[..], p - cfg.hdr)
      ensures SameBytes(old(data[..]), p, data[..], p, n)
    {
      hide Tiles, Linked, Ring, Listed, Coalesced, FreeBytes, Without, Has, HeadersOf, SplitAt, Shrink, Multiple, StillLive;
      ghost var bs, d0, i := blocks, data[..], Find(blocks, p - cfg.hdr);
      ghost var mid := SplitAt(cfg, bs, i, n);
      LiveInside(cfg, End(), blocks, p);
      CutStays(cfg, bs, End(), i, n);
      base, touched := data[..], {};
      Cut(p - cfg.hdr, n, i);
      ShrunkLive(cfg, End(), bs, blocks, i, n);
      ShrinkKeepsLive(cfg, End(), bs, blocks, i, n);
      BytesKept(cfg, bs, mid, End(), touched, d0, data[..], p - cfg.hdr);
      PrefixKept(cfg, bs, mid, End(), touched, d0, data[..], i, n);
    }

    /** Copy the old payload to its new place and free the old block. */
    method CopyAndFree(p: int, r: int, m: nat, ghost bs: seq<Block>, ghost d0: seq<Byte>)
      requires Valid() && Disjoint(cfg, End(), bs, blocks, p, r, m) && KeepsPayloads(cfg, bs, d0, data[..], NULL)
      modifies this, data
      ensures Valid() && LivePointer(cfg, blocks, r)
      ensures Find(old(blocks), p - cfg.hdr) < |old(blocks)|
      ensures blocks == Release(old(blocks), Find(old(blocks), p - cfg.hdr)) && StillLive(cfg, old(blocks), blocks, p)
      ensures KeepsPayloads(cfg, bs, d0, data[..], NULL) && SameBytes(d0, p, data[..], r, m)
    {
      hide Tiles, Linked, Ring, Listed, Coalesced, FreeBytes, Without, Has, Release, KeepsPayloads, UsedIn, SameBytes, FreeReleased,
        Multiple;
      ghost var mid, d1 := blocks, data[..];
      CopyBytes(data, r, p, m);
      CopyDone(cfg, End(), bs, mid, p, r, m, d0, d1, data[..]);
      ghost var d2 := data[..];
      Free(p);
      ThenFreeDone(cfg, End(), bs, mid, p, r, m, d0, d2, data[..]);
    }

    /** Allocate, copy, free. */
    method Move(p: int, n: nat, oldSize: nat) returns (r: int)
      requires Valid() && LivePointer(cfg, blocks, p) && oldSize == Payload(cfg, blocks[Find(blocks, p - cfg.hdr)]) < n
      modifies this, data
      ensures Valid() && MovedOrKept(cfg, old(blocks), old(free), old(available), blocks, old(data[..]), data[..], p, n, oldSize, r)
      ensures r != NULL ==> LivePointer(cfg, blocks, r)
      ensures r == NULL ==> free == old(free) && available == old(available)
      ensures KeepsPayloads(cfg, old(blocks), old(data[..]), data[..], NULL) && StillLive(cfg, old(blocks), blocks, p)
    {
      hide Tiles, Linked, Ring, Listed, Coalesced, FreeBytes, Without, Has, Release, Taken, FreeTaken, FirstFree, KeepsPayloads,
        Disjoint, SameBytes, AlignUp, Multiple, StillLive;
      ghost var bs, free0, d0 := blocks, free, data[..];
      StillSelf(cfg, bs, p);
      r := Alloc(n);
      if r != NULL {
        ghost var k := FirstFree(cfg, bs, free0, Rounded(cfg, n));
        TakenApart(cfg, items, bs, End(), free0, k, Rounded(cfg, n), blocks, p, r, oldSize);
        ghost var mid := blocks;
        CopyAndFree(p, r, oldSize, bs, d0);
        StillBoth(cfg, End(), bs, mid, blocks, p);
      }
    }

    /** The part of rt_memheap_realloc for a live block and a rounded size. */
    method Resize(p: int, n: nat) returns (r: int)
      requires Valid() && LivePointer(cfg, blocks, p) && n >= MINIALLOC
      modifies this, data
      ensures Valid()
      ensures Resized(cfg, old(blocks), old(free), old(available), blocks, old(data[..]), data[..], p, n, r)
      ensures r != NULL ==> LivePointer(cfg, blocks, r)
      ensures r == NULL ==> free == old(free)
      ensures r == p && n > Payload(cfg, old(blocks)[Find(old(blocks), p - cfg.hdr)]) ==> free != [] && free[0] == p + n
      ensures r == p && n + cfg.hdr + MINIALLOC < Payload(cfg, old(blocks)[Find(old(blocks), p - cfg.hdr)]) ==> free != [] && free[0] == p + n
      ensures KeepsPayloads(cfg, old(blocks), old(data[..]), data[..], p - cfg.hdr) && StillLive(cfg, old(blocks), blocks, p)
    {
      hide Tiles, Linked, Ring, Listed, Coalesced, FreeBytes, Without, Has, Release, Taken, FreeTaken, FirstFree, KeepsPayloads,
        SameBytes, AlignUp, Multiple, StillLive, FreeReleased, Grown, Shrink, MovedOrKept, FreeCut;
      ghost var bs, free0, available0, d0, i := blocks, free, available, data[..], Find(blocks, p - cfg.hdr);
      KeepsSelf(cfg, bs, d0, p - cfg.hdr);
      StillSelf(cfg, bs, p);
      var a := p - cfg.hdr;
      LiveInside(cfg, End(), bs, p);
      Around(cfg, items, bs, End(), i);
      var oldSize := items[a].next - a - cfg.hdr;
      if n > oldSize {
        var next := items[a].next;
        NextSize(cfg, items, bs, End(), i);
        if !items[next].used {
          var nextSize := items[next].next - next - cfg.hdr;
          if nextSize + oldSize > n + MINIALLOC {
            GrowLive(p, n);
            return p;
          }
        }
        r := Move(p, n, oldSize);
        MovedElsewhere(cfg, bs, End(), free0, available0, blocks, d0, data[..], p, n, oldSize, r);
        KeepsMost(cfg, bs, End(), d0, data[..], p - cfg.hdr);
        return r;
      }
      if n + cfg.hdr + MINIALLOC >= oldSize {
        SameSelf(d0, p, n, oldSize, End());
        return p;
      }
      CutLive(p, n);
      CutFirst(cfg, bs, free0, i, n);
      return p;
    }

    /** rt_memheap_realloc. A size that has been rounded up to the minimum is rounded once more when the block has to
        move, or is new. */
    method Realloc(p: int, request: nat) returns (r: int)
      requires Valid() && (p == NULL || LivePointer(cfg, blocks, p))
      modifies this, data
      ensures Valid()
      ensures p != NULL ==> Find(old(blocks), p - cfg.hdr) < |old(blocks)|
      ensures request == 0 ==> r == NULL
      ensures request == 0 ==>
              blocks == if p == NULL then old(blocks) else Release(old(blocks), Find(old(blocks), p - cfg.hdr))
      ensures request > 0 && p != NULL ==>
              Resized(cfg, old(blocks), old(free), old(available), blocks, old(data[..]), data[..], p, Rounded(cfg, request), r)
      ensures request > 0 && p == NULL ==>
              Allocated(cfg, old(blocks), old(free), old(available), blocks, free, Rounded(cfg, request), r)
      ensures r != NULL ==> LivePointer(cfg, blocks, r)
      ensures request > 0 && p != NULL ==>
        var i, n, bs := Find(old(blocks), p - cfg.hdr), Rounded(cfg, request), old(blocks);
        var was := bs[i].next - p;
        var grows := i + 1 < |bs| && !bs[i + 1].used && bs[i + 1].next - bs[i].addr - 2 * cfg.hdr > n + 12;
        && (r == p <==> n <= was || grows)
        && (n > was && grows ==> Block(p + n, bs[i + 1].next, false) in blocks && free != [] && free[0] == p + n)
        && (r == p ==> blocks[Find(blocks, p - cfg.hdr)].next - p == if n <= was && was <= n + cfg.hdr + 12 then was else n)
        && (r == p && n + cfg.hdr + 12 < was ==> free != [] && free[0] == p + n)
        && (r == NULL ==> blocks == bs && free == old(free) && !grows)
      ensures KeepsPayloads(cfg, old(blocks), old(data[..]), data[..], p - cfg.hdr) && StillLive(cfg, old(blocks), blocks, p)
    {
      hide Tiles, Linked, Ring, Listed, Coalesced, FreeBytes, Without, Has, Release, Taken, FreeTaken, FirstFree, KeepsPayloads,
        SameBytes, AlignUp, Multiple, StillLive, FreeReleased, Grown, Shrink, MovedOrKept, Allocated, Resized;
      ghost var bs, free0, available0, d0 := blocks, free, available, data[..];
      KeepsSelf(cfg, bs, d0, p - cfg.hdr);
      StillSelf(cfg, bs, p);
      if request == 0 {
        Free(p);
        KeepsMost(cfg, bs, End(), d0, data[..], p - cfg.hdr);
        return NULL;
      }
      var n := AlignUp(request, cfg.align);
      if n < MINIALLOC {
        n := MINIALLOC;
      }
      if p == NULL {
        r := Alloc(n);
        AllocatedLive(cfg, bs, free0, available0, blocks, free, n, r);
        KeepsMost(cfg, bs, End(), d0, data[..], p - cfg.hdr);
        return r;
      }
      r := Resize(p, n);
      ResizedMeans(cfg, bs, End(), free0, available0, blocks, d0, data[..], p, n, r);
    }
  }

  /** Everything handing out free block i relies on and establishes. */
  lemma TakeFacts(c: Config, items: map<int, Item>, bs: seq<Block>, end: int, free: seq<int>, i: nat, n: nat)
    requires ValidConfig(c) && Tiles(c, bs, end) && Linked(items, bs, end) && Listed(bs, free) && Coalesced(bs)
    requires i < |bs| && !bs[i].used && Payload(c, bs[i]) >= n
    ensures var a, nx := bs[i].addr, bs[i].next;
      && a in items && items[a].next == nx && nx in items && nx != a && 0 <= a && a + c.hdr <= nx <= end && a in free && c.hdr > 0
    ensures var a, nx, r := bs[i].addr, bs[i].next, Taken(c, bs, i, n);
      && Tiles(c, r, end) && Coalesced(r) && Listed(r, FreeTaken(c, bs, free, i, n))
      && FreeBytes(c, r) == FreeBytes(c, bs) - (if Splits(c, bs[i], n) then n + c.hdr else Payload(c, bs[i]))
    ensures var a, cut := bs[i].addr, bs[i].addr + n + c.hdr;
      Splits(c, bs[i], n) ==>
        && cut !in free && a != cut
        && a in CutItems(items, a, cut)
        && Linked(CutItems(items, a, cut)[a := CutItems(items, a, cut)[a].(used := true)], Taken(c, bs, i, n), end)
    ensures !Splits(c, bs[i], n) ==>
      var a := bs[i].addr; Linked(items[a := items[a].(used := true)], Taken(c, bs, i, n), end)
    ensures forall t :: t == bs[i].addr || t == bs[i].next || t in free ==> Has(bs, end, t)
    ensures Splits(c, bs[i], n) ==> Has(Taken(c, bs, i, n), end, bs[i].addr + n + c.hdr)
    ensures forall t :: t in free ==> 0 <= t && t + c.hdr <= end
  {
    hide Tiles, Linked, Coalesced, FreeBytes, Without, Listed, Has, FreeSet, Multiple;
    LinkedAt(items, bs, end, i);
    LinkedAt(items, bs, end, i + 1);
    AddrApart(c, bs, end, i, i + 1);
    TakenTiles(c, bs, end, i, n);
    HasBlock(bs, end, i);
    HasNext(c, bs, end, i);
    HasFree(c, bs, end, free);
    MarkListed(c, bs, end, i, free, true);
    if Splits(c, bs[i], n) {
      SplitListed(c, bs, end, i, n, free);
      SplitBytes(c, bs, i, n);
      CutLinked(c, items, bs, end, i, n);
      HasBlock(Taken(c, bs, i, n), end, i + 1);
    } else {
      MarkBytes(c, bs, i, true);
      MarkLinked(c, items, bs, end, i, true);
    }
  }

  /** What is around block i, as its header tells it: the tail is a used block. */
  lemma Around(c: Config, items: map<int, Item>, bs: seq<Block>, end: int, i: nat)
    requires Tiles(c, bs, end) && Linked(items, bs, end) && i < |bs|
    ensures var a := bs[i].addr;
      && a in items && items[a] == Item(bs[i].used, bs[i].next, Back(bs, end, i)) && 0 <= a && a + c.hdr <= bs[i].next <= end
      && items[a].prev in items && items[items[a].prev].used == (i == 0 || bs[i - 1].used)
      && items[a].next in items && items[items[a].next].used == (i + 1 == |bs| || bs[i + 1].used)
      && (i + 1 < |bs| ==> bs[i].next == bs[i + 1].addr)
  {
    hide Tiles, Linked;
    LinkedAt(items, bs, end, i);
    LinkedAt(items, bs, end, i + 1);
    LinkedAt(items, bs, end, if i == 0 then |bs| else i - 1);
    AddrApart(c, bs, end, i, i + 1);
  }

  lemma MergeFacts(c: Config, items: map<int, Item>, bs: seq<Block>, end: int, list: seq<int>, i: nat)
    requires Tiles(c, bs, end) && Linked(items, bs, end) && Listed(bs, list) && i + 1 < |bs| && !bs[i].used && !bs[i + 1].used
    ensures var a, b, nx, r := bs[i].addr, bs[i + 1].addr, bs[i + 1].next, MergeAt(bs, i);
      && a in items && b in items && nx in items && nx != a && items[b].next == nx
      && 0 <= a && a + c.hdr <= end && 0 <= nx <= end
      && b in list && Tiles(c, r, end) && Linked(JoinItems(items, a, b), r, end) && Listed(r, Without(list, b))
      && FreeBytes(c, r) == FreeBytes(c, bs) + c.hdr && Has(bs, end, a) && Has(bs, end, nx)
  {
    hide Tiles, Linked, Listed, FreeBytes, MergeAt, Has, Without;
    LinkedAt(items, bs, end, i);
    LinkedAt(items, bs, end, i + 1);
    LinkedAt(items, bs, end, i + 2);
    AddrApart(c, bs, end, i, i + 1);
    AddrApart(c, bs, end, i + 1, i + 2);
    AddrApart(c, bs, end, i, i + 2);
    MergeTiles(c, bs, end, i);
    JoinLinked(c, items, bs, end, i);
    MergeListed(c, bs, end, i, list);
    MergeBytes(c, bs, i);
    HasBlock(bs, end, i);
    HasNext(c, bs, end, i + 1);
  }

  /** The free list after block i has been freed. */
  function FreeReleased(bs: seq<Block>, free: seq<int>, i: nat): seq<int>
    requires i < |bs|
  {
    var rest := if i + 1 < |bs| && !bs[i + 1].used then Without(free, bs[i + 1].addr) else free;
    if i > 0 && !bs[i - 1].used then rest else [bs[i].addr] + rest
  }

  /** Everything freeing block i relies on and establishes. */
  lemma ReleaseFacts(c: Config, items: map<int, Item>, bs: seq<Block>, end: int, free: seq<int>, i: nat)
    requires Tiles(c, bs, end) && Linked(items, bs, end) && Listed(bs, free) && Coalesced(bs) && i < |bs| && bs[i].used
    ensures var a, f := bs[i].addr, bs[i := bs[i].(used := false)];
      && a in items && 0 <= a && a + c.hdr <= end && a !in free && Has(bs, end, a)
      && Tiles(c, f, end) && Linked(items[a := items[a].(used := false)], f, end) && Listed(f, [a] + free)
      && FreeBytes(c, f) == FreeBytes(c, bs) + Payload(c, bs[i])
      && Coalesced(Plug(f, i))
    ensures var f := bs[i := bs[i].(used := false)];
      && (i > 0 && !bs[i - 1].used ==>
           var l := MergeAt(f, i - 1);
           && |l| == |bs| - 1 && !l[i - 1].used && l[i - 1].addr == bs[i - 1].addr && l[i - 1].next == bs[i].next
           && (i < |l| ==> l[i] == bs[i + 1])
           && Plug(f, i) == if i < |l| && !l[i].used then MergeAt(l, i - 1) else l)
      && (!(i > 0 && !bs[i - 1].used) ==> Plug(f, i) == PlugForward(f, i))
    ensures forall t :: t in free ==> Has(bs, end, t) && 0 <= t && t + c.hdr <= end
  {
    hide Tiles, Linked, Listed, FreeBytes, Has;
    var f := bs[i := bs[i].(used := false)];
    LinkedAt(items, bs, end, i);
    AddrApart(c, bs, end, i, i);
    HasBlock(bs, end, i);
    RetagTiles(c, bs, end, i, false);
    MarkLinked(c, items, bs, end, i, false);
    MarkListed(c, bs, end, i, free, false);
    MarkBytes(c, bs, i, false);
    PlugCoalesces(f, i);
    HasFree(c, bs, end, free);
    if i > 0 && !bs[i - 1].used {
      LeftThenRight(f, i);
    }
  }

  /** The code merges to the left first; the order makes no difference. */
  lemma LeftThenRight(f: seq<Block>, i: nat)
    requires 0 < i < |f| && !f[i - 1].used
    ensures var l := MergeAt(f, i - 1);
      && |l| == |f| - 1 && !l[i - 1].used && l[i - 1].addr == f[i - 1].addr && l[i - 1].next == f[i].next
      && (i < |l| ==> l[i] == f[i + 1])
      && Plug(f, i) == if i < |l| && !l[i].used then MergeAt(l, i - 1) else l
  {
    var l := MergeAt(f, i - 1);
    if i + 1 < |f| && !f[i + 1].used {
      var r := MergeAt(f, i);
      assert r[i - 1] == f[i - 1] && r[..i - 1] == f[..i - 1] == l[..i - 1] && r[i + 1..] == f[i + 2..] == l[i + 1..];
    }
  }

  lemma WithoutFront(a: int, free: seq<int>)
    requires a !in free
    ensures Without([a] + free, a) == free
  {
    assert ([a] + free)[1..] == free;
  }

  lemma WithoutBehind(a: int, free: seq<int>, b: int)
    requires a != b
    ensures Without([a] + free, b) == [a] + Without(free, b)
  {
    assert ([a] + free)[1..] == free;
  }

  lemma SameHas(bs: seq<Block>, r: seq<Block>, end: int)
    requires |r| == |bs| && forall k :: 0 <= k < |bs| ==> r[k].addr == bs[k].addr
    ensures forall t :: Has(r, end, t) ==> Has(bs, end, t)
  {
    forall t | Has(r, end, t)
      ensures Has(bs, end, t)
    {
      if t != end {
        var k :| 0 <= k < |r| && r[k].addr == t;
        assert bs[k].addr == t;
      }
    }
  }

  lemma HasMergedAll(bs: seq<Block>, end: int, i: nat)
    requires i + 1 < |bs|
    ensures forall t :: Has(MergeAt(bs, i), end, t) ==> Has(bs, end, t)
  {
    forall t | Has(MergeAt(bs, i), end, t)
      ensures Has(bs, end, t)
    {
      HasMerged(bs, end, i, t);
    }
  }

  /** The test of the in-place growth. */
  predicate CanGrow(c: Config, bs: seq<Block>, i: nat, n: nat) {
    i + 1 < |bs| && bs[i].used && !bs[i + 1].used && Payload(c, bs[i]) < n
    && Payload(c, bs[i + 1]) + Payload(c, bs[i]) > n + MINIALLOC
  }

  function Grown(c: Config, bs: seq<Block>, i: nat, n: nat): seq<Block>
    requires i + 1 < |bs|
  {
    SplitAt(c, MergeAt(bs, i), i, n)
  }

  /** Everything growing block i relies on and establishes. */
  lemma GrowFacts(c: Config, items: map<int, Item>, bs: seq<Block>, end: int, free: seq<int>, i: nat, n: nat)
    requires ValidConfig(c) && Tiles(c, bs, end) && Linked(items, bs, end) && Listed(bs, free) && Coalesced(bs) && CanGrow(c, bs, i, n)
    ensures var a, b, nx, cut := bs[i].addr, bs[i + 1].addr, bs[i + 1].next, bs[i].addr + c.hdr + n;
      && a in items && b in items && nx in items && items[a].next == b == bs[i].next && items[b].next == nx
      && 0 <= a < b && a + c.hdr <= b && b + c.hdr <= nx <= end && a < cut && cut + c.hdr <= nx && b in free && cut !in Without(free, b)
    ensures var a, b, cut, r := bs[i].addr, bs[i + 1].addr, bs[i].addr + c.hdr + n, Grown(c, bs, i, n);
      var j := JoinItems(items, a, b);
      && a in j && Linked(CutItems(j, a, cut), r, end) && Tiles(c, r, end) && Coalesced(r)
      && Listed(r, [cut] + Without(free, b)) && FreeBytes(c, r) == FreeBytes(c, bs) - (n - Payload(c, bs[i]))
    ensures forall t :: t == bs[i].addr || t == bs[i + 1].next || t in free ==> Has(bs, end, t)
    ensures Has(Grown(c, bs, i, n), end, bs[i].addr + c.hdr + n)
    ensures forall t :: t in free ==> 0 <= t && t + c.hdr <= end
  {
    hide Tiles, Linked, Listed, Coalesced, FreeBytes, Without, Has, FreeSet, Multiple;
    var a, b, m, cut := bs[i].addr, bs[i + 1].addr, MergeAt(bs, i), bs[i].addr + c.hdr + n;
    LinkedAt(items, bs, end, i);
    LinkedAt(items, bs, end, i + 1);
    LinkedAt(items, bs, end, i + 2);
    AddrApart(c, bs, end, i, i + 1);
    AddrApart(c, bs, end, i + 1, i + 2);
    MergeTiles(c, bs, end, i);
    JoinLinked(c, items, bs, end, i);
    MergeListed(c, bs, end, i, free);
    MergeBytes(c, bs, i);
    MergedBlock(bs, i);
    SplitTiles(c, m, end, i, n);
    var j := JoinItems(items, a, b);
    LinkedAt(j, m, end, i);
    CutLinked(c, j, m, end, i, n);
    var s := CutItems(j, a, cut);
    assert s[a := s[a].(used := true)] == s;
    SplitListed(c, m, end, i, n, Without(free, b));
    UsedNotListed(c, m, end, i, Without(free, b));
    SplitBytes(c, m, i, n);
    GrownCoalesced(c, bs, i, n);
    HasBlock(bs, end, i);
    HasNext(c, bs, end, i + 1);
    HasFree(c, bs, end, free);
    HasBlock(Grown(c, bs, i, n), end, i + 1);
  }

  lemma MergedBlock(bs: seq<Block>, i: nat)
    requires i + 1 < |bs|
    ensures var m := MergeAt(bs, i);
            |m| == |bs| - 1 && m[i] == Block(bs[i].addr, bs[i + 1].next, bs[i].used) && (i + 1 < |m| ==> m[i + 1] == bs[i + 2])
  {
  }

  lemma UsedNotListed(c: Config, bs: seq<Block>, end: int, i: nat, free: seq<int>)
    requires Tiles(c, bs, end) && Listed(bs, free) && i < |bs| && bs[i].used
    ensures bs[i].addr !in free && Without(free, bs[i].addr) == free
  {
    hide Tiles, FreeSet, NoRepeats;
    if bs[i].addr in free {
      var k := FreeIndex(bs, bs[i].addr);
      AddrApart(c, bs, end, i, k);
    }
  }

  lemma GrownCoalesced(c: Config, bs: seq<Block>, i: nat, n: nat)
    requires Coalesced(bs) && i + 1 < |bs| && bs[i].used && !bs[i + 1].used
    ensures Coalesced(Grown(c, bs, i, n))
  {
    var m, r := MergeAt(bs, i), Grown(c, bs, i, n);
    assert forall k :: 0 <= k < i ==> m[k] == bs[k];
    assert forall k :: i + 1 <= k < |m| ==> m[k] == bs[k + 1];
    assert forall k :: 0 <= k < i ==> r[k] == m[k];
    assert forall k :: i + 2 <= k < |r| ==> r[k] == m[k - 1];
    assert i + 2 < |bs| ==> bs[i + 1].used || bs[i + 2].used;
  }

  /** The free list after the tail of block i has been cut off. */
  function FreeCut(c: Config, bs: seq<Block>, free: seq<int>, i: nat, n: nat): seq<int>
    requires i < |bs|
  {
    var rest := if i + 1 < |bs| && !bs[i + 1].used then Without(free, bs[i + 1].addr) else free;
    [bs[i].addr + c.hdr + n] + rest
  }

  lemma CutFirst(c: Config, bs: seq<Block>, free: seq<int>, i: nat, n: nat)
    requires i < |bs|
    ensures FreeCut(c, bs, free, i, n) != [] && FreeCut(c, bs, free, i, n)[0] == bs[i].addr + c.hdr + n
  {
  }

  /** Everything cutting the tail off used block i relies on and establishes, up to the merge with the block behind. */
  lemma CutFacts(c: Config, items: map<int, Item>, bs: seq<Block>, end: int, free: seq<int>, i: nat, n: nat)
    requires ValidConfig(c) && Tiles(c, bs, end) && Linked(items, bs, end) && Listed(bs, free) && Coalesced(bs)
    requires i < |bs| && bs[i].used && Payload(c, bs[i]) >= n + c.hdr
    ensures var a, nx, cut, r := bs[i].addr, bs[i].next, bs[i].addr + c.hdr + n, SplitAt(c, bs, i, n);
      && a in items && items[a].next == nx && nx in items && 0 <= a < cut && cut + c.hdr <= nx <= end && cut !in free
      && Tiles(c, r, end) && Linked(CutItems(items, a, cut), r, end) && Listed(r, [cut] + free)
      && FreeBytes(c, r) == FreeBytes(c, bs) + Payload(c, bs[i]) - n - c.hdr
      && Coalesced(Shrink(c, bs, i, n)) && Tiles(c, Shrink(c, bs, i, n), end)
      && |r| == |bs| + 1 && r[i + 1] == Block(cut, nx, false) && r[i].used && (i + 1 < |bs| ==> r[i + 2] == bs[i + 1])
      && Shrink(c, bs, i, n) == if i + 1 < |bs| && !bs[i + 1].used then MergeAt(r, i + 1) else r
    ensures forall t :: t == bs[i].addr || t == bs[i].next || t in free ==> Has(bs, end, t)
    ensures Has(SplitAt(c, bs, i, n), end, bs[i].addr + c.hdr + n)
    ensures i + 1 < |bs| ==> Has(bs, end, bs[i + 1].next)
    ensures forall t :: t in free ==> 0 <= t && t + c.hdr <= end
  {
    hide Tiles, Linked, Listed, FreeBytes, Has, Coalesced, CoalescedBut, Without, Multiple, SplitAt, MergeAt, Plug;
    var a, cut, r := bs[i].addr, bs[i].addr + c.hdr + n, SplitAt(c, bs, i, n);
    ShrinkIs(c, bs, i, n);
    LinkedAt(items, bs, end, i);
    LinkedAt(items, bs, end, i + 1);
    AddrApart(c, bs, end, i, i + 1);
    SplitTiles(c, bs, end, i, n);
    CutLinked(c, items, bs, end, i, n);
    var s := CutItems(items, a, cut);
    assert s[a := s[a].(used := true)] == s;
    SplitListed(c, bs, end, i, n, free);
    UsedNotListed(c, bs, end, i, free);
    SplitBytes(c, bs, i, n);
    SplitCoalesced(c, bs, i, n);
    PlugCoalesces(r, i + 1);
    PlugTiles(c, r, end, i + 1);
    HasBlock(bs, end, i);
    HasNext(c, bs, end, i);
    HasFree(c, bs, end, free);
    HasBlock(r, end, i + 1);
    if i + 1 < |bs| {
      HasNext(c, bs, end, i + 1);
    }
  }

  lemma ShrinkIs(c: Config, bs: seq<Block>, i: nat, n: nat)
    requires i < |bs| && bs[i].used
    ensures var r := SplitAt(c, bs, i, n);
            && |r| == |bs| + 1 && r[i].used && r[i + 1] == Block(bs[i].addr + c.hdr + n, bs[i].next, false)
            && (i + 1 < |bs| ==> r[i + 2] == bs[i + 1])
            && Shrink(c, bs, i, n) == if i + 1 < |bs| && !bs[i + 1].used then MergeAt(r, i + 1) else r
  {
    var r := SplitAt(c, bs, i, n);
    var f := PlugForward(r, i + 1);
    assert f[i].used;
  }

  lemma GrownLive(c: Config, bs: seq<Block>, end: int, i: nat, n: nat)
    requires Tiles(c, bs, end) && CanGrow(c, bs, i, n)
    ensures var r := Grown(c, bs, i, n);
      && Tiles(c, r, end) && i < |r| && r[i] == Block(bs[i].addr, bs[i].addr + c.hdr + n, true)
      && LivePointer(c, r, bs[i].addr + c.hdr) && (forall b :: b in bs && b.used && b.addr != bs[i].addr ==> b in r)
  {
    hide Tiles, MergeAt, SplitAt;
    var m, r := MergeAt(bs, i), Grown(c, bs, i, n);
    AddrApart(c, bs, end, i, i + 1);
    MergeTiles(c, bs, end, i);
    MergedBlock(bs, i);
    SplitTiles(c, m, end, i, n);
    GrownBlock(c, bs, i, n);
    FindIs(c, r, end, i);
    forall b | b in bs && b.used && b.addr != bs[i].addr
      ensures b in r
    {
      GrownStays(c, bs, i, n, b);
    }
  }

  lemma GrownBlock(c: Config, bs: seq<Block>, i: nat, n: nat)
    requires i + 1 < |bs|
    ensures var r := Grown(c, bs, i, n); |r| == |bs| && r[i] == Block(bs[i].addr, bs[i].addr + c.hdr + n, true)
  {
  }

  lemma GrownStays(c: Config, bs: seq<Block>, i: nat, n: nat, b: Block)
    requires i + 1 < |bs| && !bs[i + 1].used && b in bs && b.used && b.addr != bs[i].addr
    ensures b in Grown(c, bs, i, n)
  {
    var j :| 0 <= j < |bs| && bs[j] == b;
    var m := MergeAt(bs, i);
    assert m[if j < i then j else j - 1] == b;
    assert Grown(c, bs, i, n)[j] == b;
  }

  lemma CutStays(c: Config, bs: seq<Block>, end: int, i: nat, n: nat)
    requires Tiles(c, bs, end) && i < |bs| && bs[i].used && Payload(c, bs[i]) >= n + c.hdr
    ensures var r := SplitAt(c, bs, i, n);
      && Tiles(c, r, end) && i < |r| && r[i] == Block(bs[i].addr, bs[i].addr + c.hdr + n, true)
      && (forall b :: b in bs && b.used && b.addr != bs[i].addr ==> b in r)
  {
    var r := SplitAt(c, bs, i, n);
    SplitTiles(c, bs, end, i, n);
    hide Tiles;
    forall b | b in bs && b.used && b.addr != bs[i].addr
      ensures b in r
    {
      var j :| 0 <= j < |bs| && bs[j] == b;
      assert r[if j < i then j else j + 1] == b;
    }
  }

  /** The size of the block behind, as the header behind tells it. */
  lemma NextSize(c: Config, items: map<int, Item>, bs: seq<Block>, end: int, i: nat)
    requires Tiles(c, bs, end) && Linked(items, bs, end) && i < |bs|
    ensures i + 1 < |bs| ==> bs[i + 1].addr in items && items[bs[i + 1].addr].next == bs[i + 1].next && bs[i].next == bs[i + 1].addr
  {
    hide Tiles, Linked;
    LinkedAt(items, bs, end, i + 1);
    AddrApart(c, bs, end, i, i + 1);
  }

  lemma SameSelf(d: seq<Byte>, p: int, n: nat, oldSize: int, end: int)
    requires n <= oldSize && 0 <= p && p + oldSize <= end <= |d|
    ensures SameBytes(d, p, d, p, n)
  {
  }

  /** Nothing turns up for n bytes. */
  ghost predicate Refused(c: Config, bs: seq<Block>, free: seq<int>, available: int, n: nat)
    requires ValidConfig(c)
  {
    !(Rounded(c, n) < available) || FirstFree(c, bs, free, Rounded(c, n)) == |free|
  }

  /** Which is when the rounded size is all there is or more, or more than any free block has. */
  lemma RefusedIff(c: Config, bs: seq<Block>, end: int, free: seq<int>, available: int, n: nat)
    requires ValidConfig(c) && Tiles(c, bs, end) && Listed(bs, free)
    ensures Refused(c, bs, free, available, n)
        <==> Rounded(c, n) >= available || forall b :: b in bs && !b.used ==> b.next - b.addr - c.hdr < Rounded(c, n)
  {
    hide Tiles, Rounded, FreeSet, NoRepeats;
    var m := Rounded(c, n);
    var k := FirstFree(c, bs, free, m);
    if k < |free| {
      assert free[k] in free;
      var i := FreeIndex(bs, free[k]);
      FindIs(c, bs, end, i);
      assert bs[i] in bs;
    } else {
      forall b | b in bs && !b.used
        ensures b.next - b.addr - c.hdr < m
      {
        var i :| 0 <= i < |bs| && bs[i] == b;
        FreeHas(bs, i);
        FindIs(c, bs, end, i);
        var j :| 0 <= j < |free| && free[j] == b.addr;
        assert !FitsAt(c, bs, free[j], m);
      }
    }
  }

  /** What rt_memheap_alloc owes its caller: null exactly when the guard fails or no free block is large enough, with
      nothing changed; otherwise the first free block of the list that is, live, with room for the rounded size, and every
      other live pointer live as before. */
  ghost predicate Allocated(c: Config, bs: seq<Block>, free: seq<int>, available: int, bs': seq<Block>, free': seq<int>,
                            request: nat, p: int)
    requires ValidConfig(c)
  {
    var n := Rounded(c, request);
    var k := FirstFree(c, bs, free, n);
    && (p == NULL <==> Refused(c, bs, free, available, request))
    && (p == NULL ==> bs' == bs && free' == free)
    && (p != NULL ==>
          k < |free|
          && var i := Find(bs, free[k]);
             i < |bs| && p == free[k] + c.hdr && p >= 0 && bs' == Taken(c, bs, i, n) && free' == FreeTaken(c, bs, free, i, n)
             && LivePointer(c, bs', p) && StillLive(c, bs, bs', NULL) && Payload(c, bs'[Find(bs', p - c.hdr)]) >= n)
  }

  lemma AllocatedLive(c: Config, bs: seq<Block>, free: seq<int>, available: int, bs': seq<Block>, free': seq<int>,
                      request: nat, p: int)
    requires ValidConfig(c) && Allocated(c, bs, free, available, bs', free', request, p)
    ensures StillLive(c, bs, bs', NULL) && (p != NULL ==> LivePointer(c, bs', p))
  {
    hide Refused, Taken, FreeTaken, FirstFree;
  }

  /** The outcome of a move: the block is at the first free block of the list that is large enough, with its old
      contents, and its old place is free; or nothing has changed. */
  ghost predicate MovedOrKept(c: Config, bs: seq<Block>, free: seq<int>, available: int, bs': seq<Block>,
                              d: seq<Byte>, d': seq<Byte>, p: int, n: nat, oldSize: nat, r: int)
    requires ValidConfig(c)
  {
    if r == NULL then bs' == bs && d' == d && Refused(c, bs, free, available, n)
    else
      var k := FirstFree(c, bs, free, Rounded(c, n));
      && !Refused(c, bs, free, available, n) && k < |free| && Find(bs, free[k]) < |bs| && r == free[k] + c.hdr
      && var mid := Taken(c, bs, Find(bs, free[k]), Rounded(c, n));
         Find(mid, p - c.hdr) < |mid| && bs' == Release(mid, Find(mid, p - c.hdr)) && SameBytes(d, p, d', r, oldSize)
  }

  /** What rt_memheap_realloc owes the holder of p for a rounded size n. */
  ghost predicate Resized(c: Config, bs: seq<Block>, free: seq<int>, available: int, bs': seq<Block>,
                          d: seq<Byte>, d': seq<Byte>, p: int, n: nat, r: int)
    requires ValidConfig(c) && LivePointer(c, bs, p)
  {
    var i := Find(bs, p - c.hdr);
    var oldSize := Payload(c, bs[i]);
    && oldSize >= 0
    && if n > oldSize then
         if CanGrow(c, bs, i, n) then r == p && bs' == Grown(c, bs, i, n) && SameBytes(d, p, d', p, oldSize)
         else MovedOrKept(c, bs, free, available, bs', d, d', p, n, oldSize, r)
       else if n + c.hdr + MINIALLOC >= oldSize then r == p && bs' == bs && d' == d
       else r == p && bs' == Shrink(c, bs, i, n) && SameBytes(d, p, d', p, n)
  }

  /** In addresses: a block is extended where it is if and only if the block behind is free and the two together, one header
      for the rest included, have more than the minimum to spare; it is then n bytes long, with the rest free behind it.
      A smaller size keeps it in place, cut to that size if that leaves a free block with more than the minimum of room. */
  lemma ResizedMeans(c: Config, bs: seq<Block>, end: int, free: seq<int>, available: int, bs': seq<Block>,
                     d: seq<Byte>, d': seq<Byte>, p: int, n: nat, r: int)
    requires ValidConfig(c) && LivePointer(c, bs, p) && Tiles(c, bs, end) && Tiles(c, bs', end) && Listed(bs, free)
    requires Resized(c, bs, free, available, bs', d, d', p, n, r)
    ensures var i := Find(bs, p - c.hdr);
      var was := bs[i].next - p;
      var grows := i + 1 < |bs| && !bs[i + 1].used && bs[i + 1].next - bs[i].addr - 2 * c.hdr > n + 12;
      && (r == p <==> n <= was || grows)
      && (n > was && grows ==> Block(p + n, bs[i + 1].next, false) in bs')
      && (r == NULL ==> bs' == bs)
      && (r == NULL ==> Rounded(c, n) >= available || forall b :: b in bs && !b.used ==> b.next - b.addr - c.hdr < Rounded(c, n))
    ensures r == p ==>
      var was := bs[Find(bs, p - c.hdr)].next - p;
      && LivePointer(c, bs', p)
      && bs'[Find(bs', p - c.hdr)].next - p == if n <= was && was <= n + c.hdr + 12 then was else n
  {
    hide Tiles, Listed, Shrink, Grown, MovedOrKept, SameBytes, Refused, Rounded, Find, CanGrow;
    var i := Find(bs, p - c.hdr);
    LiveInside(c, end, bs, p);
    CanGrowIff(c, bs, end, i, n);
    if n > Payload(c, bs[i]) {
      if CanGrow(c, bs, i, n) {
        GrownHead(c, bs, i, n);
        FindIs(c, bs', end, i);
      } else {
        MovedElsewhere(c, bs, end, free, available, bs', d, d', p, n, Payload(c, bs[i]), r);
        RefusedIff(c, bs, end, free, available, n);
      }
    } else if n + c.hdr + MINIALLOC < Payload(c, bs[i]) {
      ShrunkHead(c, bs, i, n);
      FindIs(c, bs', end, i);
    }
  }

  lemma CanGrowIff(c: Config, bs: seq<Block>, end: int, i: nat, n: nat)
    requires Tiles(c, bs, end) && i < |bs| && bs[i].used
    ensures CanGrow(c, bs, i, n) <==>
      && n > bs[i].next - bs[i].addr - c.hdr
      && i + 1 < |bs| && !bs[i + 1].used && bs[i + 1].next - bs[i].addr - 2 * c.hdr > n + 12
  {
    hide Tiles;
    if i + 1 < |bs| {
      AddrApart(c, bs, end, i, i + 1);
    }
  }

  lemma GrownHead(c: Config, bs: seq<Block>, i: nat, n: nat)
    requires i + 1 < |bs| && bs[i].used
    ensures var r := Grown(c, bs, i, n);
      && i + 1 < |r| && r[i] == Block(bs[i].addr, bs[i].addr + c.hdr + n, true)
      && r[i + 1] == Block(bs[i].addr + c.hdr + n, bs[i + 1].next, false) && r[i + 1] in r
  {
    MergedBlock(bs, i);
  }

  lemma MovedElsewhere(c: Config, bs: seq<Block>, end: int, free: seq<int>, available: int, bs': seq<Block>,
                       d: seq<Byte>, d': seq<Byte>, p: int, n: nat, oldSize: nat, r: int)
    requires ValidConfig(c) && LivePointer(c, bs, p) && Tiles(c, bs, end) && Listed(bs, free)
    requires MovedOrKept(c, bs, free, available, bs', d, d', p, n, oldSize, r)
    ensures r != p && p >= 0 && (r == NULL ==> bs' == bs && Refused(c, bs, free, available, n))
  {
    hide Tiles, Rounded, FreeSet, NoRepeats, Taken, Release, SameBytes, Refused;
    LiveInside(c, end, bs, p);
    if r != NULL {
      var k := FirstFree(c, bs, free, Rounded(c, n));
      assert free[k] in free;
      var j := FreeIndex(bs, free[k]);
      FindIs(c, bs, end, j);
    }
  }

  /** What has been freed last is found first: unless it joins the block before it, a freed block, with what it joins behind
      it, is the first that the search looks at, and is taken for any size that fits into it. */
  lemma FreedFirst(c: Config, bs: seq<Block>, end: int, free: seq<int>, i: nat, n: nat)
    requires Tiles(c, bs, end) && i < |bs| && Tiles(c, Release(bs, i), end) && (i == 0 || bs[i - 1].used) && Payload(c, bs[i]) >= n
    ensures var free' := FreeReleased(bs, free, i);
      free' != [] && free'[0] == bs[i].addr && FirstFree(c, Release(bs, i), free', n) == 0
  {
    hide Tiles, Without;
    var f := bs[i := bs[i].(used := false)];
    var r := Release(bs, i);
    assert r == PlugForward(f, i) && i < |r| && r[i].addr == bs[i].addr;
    if i + 1 < |bs| {
      AddrApart(c, bs, end, i, i + 1);
      AddrApart(c, bs, end, i + 1, i + 1);
    }
    FindIs(c, r, end, i);
  }

  /** So is the rest of a block that has been cut. */
  lemma RestFirst(c: Config, bs: seq<Block>, end: int, free: seq<int>, i: nat, n: nat, m: nat)
    requires i < |bs| && Tiles(c, Taken(c, bs, i, n), end) && Splits(c, bs[i], n) && Payload(c, bs[i]) >= n + c.hdr + m
    ensures var free' := FreeTaken(c, bs, free, i, n);
      free' != [] && free'[0] == bs[i].addr + c.hdr + n && FirstFree(c, Taken(c, bs, i, n), free', m) == 0
  {
    hide Tiles, Without;
    FindIs(c, Taken(c, bs, i, n), end, i + 1);
  }

  /** After an allocation the old block is still live and the new one lies clear of it. */
  lemma TakenApart(c: Config, items: map<int, Item>, bs: seq<Block>, end: int, free: seq<int>, k: nat, n: nat, mid: seq<Block>,
                   p: int, r: int, m: nat)
    requires Tiles(c, bs, end) && Coalesced(bs) && Listed(bs, free) && k < |free| && FitsAt(c, bs, free[k], n)
    requires mid == Taken(c, bs, Find(bs, free[k]), n) && r == free[k] + c.hdr && m <= n
    requires LivePointer(c, bs, p) && m <= Payload(c, bs[Find(bs, p - c.hdr)])
    ensures Disjoint(c, end, bs, mid, p, r, m)
  {
    hide Tiles, Coalesced, Taken, FreeSet, NoRepeats, Disjoint;
    assert free[k] in free;
    var j := FreeIndex(bs, free[k]);
    FindIs(c, bs, end, j);
    TakenTiles(c, bs, end, j, n);
    TakenLive(c, bs, end, j, n);
    TakenStays(c, bs, j, n);
    forall b | b in bs && b.used
      ensures b in mid && b.addr != r - c.hdr
    {
      var x :| 0 <= x < |bs| && bs[x] == b;
      AddrApart(c, bs, end, x, j);
    }
    UsedInApart(c, end, bs, mid, p, r, m);
  }

  /** Freeing a block just handed out restores the tiling, whether it was cut or not; what is available comes back with
      it, and the free list holds the same blocks as before. */
  lemma RoundTrip(c: Config, bs: seq<Block>, end: int, i: nat, n: nat)
    requires Tiles(c, bs, end) && Coalesced(bs) && i < |bs| && !bs[i].used && Payload(c, bs[i]) >= n
    ensures i < |Taken(c, bs, i, n)| && Release(Taken(c, bs, i, n), i) == bs
  {
    assert 0 < i ==> bs[i - 1].used;
    assert i + 1 < |bs| ==> bs[i + 1].used;
    if Splits(c, bs[i], n) {
      MergeSplit(c, bs, i, n);
    } else {
      var a := Taken(c, bs, i, n);
      assert a[i := a[i].(used := false)] == bs;
    }
  }

  /** Whether a request is given an aligned size: the minimum is aligned, or the request is large enough for the minimum
      not to matter. */
  predicate AlignedSize(c: Config, request: nat)
    requires ValidConfig(c)
  {
    Multiple(MINIALLOC, c.align) || AlignUp(request, c.align) >= MINIALLOC
  }

  lemma RoundedAligned(c: Config, request: nat)
    requires ValidConfig(c)
    ensures Multiple(Rounded(c, request), c.align) <==> AlignedSize(c, request)
  {
    hide Multiple, AlignUp;
  }

  /** Freeing always keeps the blocks aligned; an operation that cuts a block for a request keeps them aligned if and only
      if the request is given an aligned size. */
  lemma AlignedKept(c: Config, bs: seq<Block>, i: nat, request: nat)
    requires ValidConfig(c) && Aligned(c, bs) && i < |bs|
    ensures Aligned(c, Release(bs, i))
    ensures Aligned(c, Taken(c, bs, i, Rounded(c, request))) <==> !Splits(c, bs[i], Rounded(c, request)) || AlignedSize(c, request)
    ensures Aligned(c, Shrink(c, bs, i, Rounded(c, request))) <==> AlignedSize(c, request)
    ensures i + 1 < |bs| ==> (Aligned(c, Grown(c, bs, i, Rounded(c, request))) <==> AlignedSize(c, request))
  {
    hide Multiple, AlignUp, Rounded, AlignedSize;
    var n := Rounded(c, request);
    RoundedAligned(c, request);
    PlugAligned(c, bs[i := bs[i].(used := false)], i);
    CutAligned(c, bs, i, n);
    if Multiple(n, c.align) {
      PlugAligned(c, SplitAt(c, bs, i, n), i + 1);
    }
    if i + 1 < |bs| {
      MergeAligned(c, bs, i);
      CutAligned(c, MergeAt(bs, i), i, n);
    }
  }

  /** A cut is as aligned as the size it leaves in front. */
  lemma CutAligned(c: Config, bs: seq<Block>, i: nat, n: nat)
    requires Aligned(c, bs) && i < |bs|
    ensures Aligned(c, SplitAt(c, bs, i, n)) <==> Multiple(n, c.align)
    ensures Aligned(c, Shrink(c, bs, i, n)) ==> Multiple(n, c.align)
  {
    hide Multiple;
    var r, s := SplitAt(c, bs, i, n), Shrink(c, bs, i, n);
    assert r[i + 1].addr == s[i + 1].addr == bs[i].addr + c.hdr + n;
    AddMod(bs[i].addr, c.hdr, c.align);
    SumMultiple(bs[i].addr + c.hdr, n, c.align);
    if Multiple(n, c.align) {
      SplitAligned(c, bs, i, n);
    }
  }

  /** The first request on a fresh heap that leaves room for another block: the rest starts on the alignment under the same
      condition. */
  lemma FirstCutAligned(c: Config, size: nat, request: nat)
    requires ValidConfig(c) && size >= 3 * c.hdr + MINIALLOC + Rounded(c, request)
    ensures var bs := [Block(0, size - c.hdr, false)];
            Aligned(c, bs) && (Aligned(c, Taken(c, bs, 0, Rounded(c, request))) <==> AlignedSize(c, request))
  {
    hide Multiple, AlignUp, AlignedSize, Rounded;
    MulMod(0, c.align);
    AlignedKept(c, [Block(0, size - c.hdr, false)], 0, request);
  }

  /** With an alignment of 8 one byte is enough to lose it; with 16 one byte is not, but no byte at all is. */
  lemma AlignmentLost()
    ensures Rounded(Config(8, 32, 12), 1) == 12 && !AlignedSize(Config(8, 32, 12), 1)
    ensures Rounded(Config(16, 32, 12), 1) == 16 && AlignedSize(Config(16, 32, 12), 1)
    ensures Rounded(Config(16, 32, 12), 0) == 12 && !AlignedSize(Config(16, 32, 12), 0)
  {
  }

  lemma SumMultiple(x: int, y: int, a: int)
    requires Multiple(x, a)
    ensures Multiple(x + y, a) <==> Multiple(y, a)
  {
    if Multiple(x + y, a) {
      AddMod(x + y, x, a);
    }
    if Multiple(y, a) {
      AddMod(x, y, a);
    }
  }

  lemma KeptMore(c: Config, touched: set<int>, base: seq<Byte>, before: seq<Byte>, after: seq<Byte>, a: int)
    requires Kept(c, touched, base, before) && |before| == |after|
    requires forall k :: 0 <= k < |before| && !(a <= k < a + c.hdr) ==> after[k] == before[k]
    ensures Kept(c, touched + {a}, base, after)
  {
    forall k | 0 <= k < |base| && (forall x :: x in touched + {a} ==> !(x <= k < x + c.hdr))
      ensures after[k] == base[k]
    {
      assert a in touched + {a};
      assert forall x :: x in touched ==> x in touched + {a};
    }
  }

  lemma DropRing(m: Nodes, free: seq<int>, x: int)
    requires Ring(m, [HEAD] + free) && x in free
    ensures x in m.next && x in m.prev
    ensures (m.prev[x] == HEAD || m.prev[x] in free) && (m.next[x] == HEAD || m.next[x] in free)
    ensures Ring(Unlinked(m, x), [HEAD] + Without(free, x))
  {
    hide Ring, Without;
    var ring := [HEAD] + free;
    var i :| 0 <= i < |free| && free[i] == x;
    assert ring[i + 1] == x;
    RemoveRing(m, ring, i + 1);
    DropFrom(m, free, i);
    RingNeighbours(m, ring, i + 1);
    assert forall y :: y in ring ==> y == HEAD || y in free;
  }

  lemma DropFrom(m: Nodes, free: seq<int>, i: nat)
    requires Ring(m, [HEAD] + free) && i < |free|
    ensures var ring := [HEAD] + free; ring[..i + 1] + ring[i + 2..] == [HEAD] + Without(free, free[i])
  {
    hide Ring, NoRepeats, Without;
    var ring := [HEAD] + free;
    RingParts(m, ring);
    assert ring[1..] == free;
    WithoutFirst(ring);
    WithoutAt(free, i);
    assert ring[..i + 1] == [HEAD] + free[..i];
    assert ring[i + 2..] == free[i + 1..];
    SeqAssoc([HEAD], free[..i], free[i + 1..]);
  }

  lemma SeqAssoc(a: seq<int>, b: seq<int>, c: seq<int>)
    ensures (a + b) + c == a + (b + c)
  {
  }
}
